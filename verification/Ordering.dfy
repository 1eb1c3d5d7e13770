/** The order of `(time, name)` sort keys, the stable sort by such a key, and filtering. */
module Ordering {

  datatype SortKey = SortKey(time: real, name: string)

  /** Text order by code points. */
  predicate StringLe(a: string, b: string) {
    a == [] || (b != [] && (a[0] < b[0] || (a[0] == b[0] && StringLe(a[1..], b[1..]))))
  }

  predicate KeyLe(a: SortKey, b: SortKey) {
    a.time < b.time || (a.time == b.time && StringLe(a.name, b.name))
  }

  lemma StringOrder(a: string, b: string)
    ensures StringLe(a, b) || StringLe(b, a)
    ensures StringLe(a, b) && StringLe(b, a) ==> a == b
  {
    if a != [] && b != [] {
      StringOrder(a[1..], b[1..]);
      assert a == [a[0]] + a[1..] && b == [b[0]] + b[1..];
    }
  }

  lemma StringLeTransitive(a: string, b: string, c: string)
    requires StringLe(a, b) && StringLe(b, c)
    ensures StringLe(a, c)
  {
    if a != [] && a[0] == b[0] && b[0] == c[0] {
      StringLeTransitive(a[1..], b[1..], c[1..]);
    }
  }

  /** `a` ends where `b` goes on, or has the smaller character where they first differ. */
  ghost predicate TextBefore(a: string, b: string) {
    exists n :: 0 <= n < |b| && FirstDiffer(a, b, n)
  }

  ghost predicate FirstDiffer(a: string, b: string, n: nat)
    requires n < |b|
  {
    n <= |a| && a[..n] == b[..n] && (n == |a| || a[n] < b[n])
  }

  lemma {:induction false} StringLeMeaning(a: string, b: string)
    ensures StringLe(a, b) <==> a == b || TextBefore(a, b)
  {
    if a == [] {
      assert b != [] ==> FirstDiffer(a, b, 0);
    } else if b != [] && a[0] == b[0] {
      StringLeMeaning(a[1..], b[1..]);
      assert a == [a[0]] + a[1..] && b == [b[0]] + b[1..];
      if TextBefore(a[1..], b[1..]) {
        var n :| 0 <= n < |b[1..]| && FirstDiffer(a[1..], b[1..], n);
        assert a[..n + 1] == [a[0]] + a[1..][..n] && b[..n + 1] == [b[0]] + b[1..][..n];
        assert FirstDiffer(a, b, n + 1);
      }
      if TextBefore(a, b) {
        var n :| 0 <= n < |b| && FirstDiffer(a, b, n);
        assert n > 0 && a[1..][..n - 1] == a[..n][1..] && b[1..][..n - 1] == b[..n][1..];
        assert FirstDiffer(a[1..], b[1..], n - 1);
      }
    } else if b != [] && a[0] < b[0] {
      assert FirstDiffer(a, b, 0);
    } else {
      forall n | 0 <= n < |b| ensures !FirstDiffer(a, b, n) {
        if 0 < n <= |a| {
          assert a[..n][0] == a[0] && b[..n][0] == b[0];
        }
      }
    }
  }

  lemma KeyOrder(a: SortKey, b: SortKey)
    ensures KeyLe(a, b) || KeyLe(b, a)
    ensures KeyLe(a, b) && KeyLe(b, a) ==> a == b
  {
    StringOrder(a.name, b.name);
  }

  lemma KeyLeTransitive(a: SortKey, b: SortKey, c: SortKey)
    requires KeyLe(a, b) && KeyLe(b, c)
    ensures KeyLe(a, c)
  {
    if a.time == b.time && b.time == c.time {
      StringLeTransitive(a.name, b.name, c.name);
    }
  }

  ghost predicate IsSorted<T>(s: seq<T>, key: T -> SortKey) {
    forall i, j :: 0 <= i < j < |s| ==> KeyLe(key(s[i]), key(s[j]))
  }

  /** Elements with equal keys are equal. */
  ghost predicate Keyed<T>(s: seq<T>, key: T -> SortKey) {
    forall i, j :: 0 <= i < |s| && 0 <= j < |s| && key(s[i]) == key(s[j]) ==> s[i] == s[j]
  }

  function Insert<T>(x: T, s: seq<T>, key: T -> SortKey): seq<T> {
    if s == [] || KeyLe(key(x), key(s[0])) then [x] + s
    else [s[0]] + Insert(x, s[1..], key)
  }

  function Sort<T>(s: seq<T>, key: T -> SortKey): seq<T> {
    if s == [] then [] else Insert(s[0], Sort(s[1..], key), key)
  }

  lemma InsertSorts<T>(x: T, s: seq<T>, key: T -> SortKey)
    requires IsSorted(s, key)
    ensures multiset(Insert(x, s, key)) == multiset(s) + multiset{x}
    ensures IsSorted(Insert(x, s, key), key)
  {
    var r := Insert(x, s, key);
    if s == [] {
    } else if KeyLe(key(x), key(s[0])) {
      forall i, j | 0 <= i < j < |r| ensures KeyLe(key(r[i]), key(r[j])) {
        if i == 0 && j > 1 {
          KeyLeTransitive(key(x), key(s[0]), key(s[j - 1]));
        }
      }
      assert multiset([x] + s) == multiset{x} + multiset(s);
    } else {
      KeyOrder(key(x), key(s[0]));
      var rest := Insert(x, s[1..], key);
      InsertSorts(x, s[1..], key);
      assert s == [s[0]] + s[1..];
      forall i, j | 0 <= i < j < |r| ensures KeyLe(key(r[i]), key(r[j])) {
        if i == 0 {
          assert r[j] in multiset(rest);
          assert r[j] == x || r[j] in s[1..];
        }
      }
    }
  }

  lemma SortSorts<T>(s: seq<T>, key: T -> SortKey)
    ensures multiset(Sort(s, key)) == multiset(s)
    ensures IsSorted(Sort(s, key), key)
  {
    if s != [] {
      SortSorts(s[1..], key);
      InsertSorts(s[0], Sort(s[1..], key), key);
      assert s == [s[0]] + s[1..];
    }
  }

  /** The first element of a sorted list is below any element of it. */
  lemma FirstIsLeast<T>(s: seq<T>, x: T, key: T -> SortKey)
    requires IsSorted(s, key) && x in s
    ensures s != [] && KeyLe(key(s[0]), key(x))
  {
    KeyOrder(key(x), key(x));
  }

  lemma SameElement<T>(s: seq<T>, x: T, y: T, key: T -> SortKey)
    requires Keyed(s, key) && x in s && y in s && key(x) == key(y)
    ensures x == y
  {
  }

  lemma MultisetOfRest<T>(s: seq<T>)
    requires s != []
    ensures multiset(s[1..]) == multiset(s) - multiset{s[0]} && s[0] in multiset(s)
  {
    assert s == [s[0]] + s[1..];
  }

  lemma SameLeast<T>(a: seq<T>, b: seq<T>, key: T -> SortKey)
    requires IsSorted(a, key) && IsSorted(b, key) && Keyed(a, key)
    requires multiset(a) == multiset(b) && a != []
    ensures b != [] && a[0] == b[0]
  {
    assert a[0] in multiset(b);
    assert b[0] in multiset(a);
    FirstIsLeast(a, b[0], key);
    FirstIsLeast(b, a[0], key);
    KeyOrder(key(a[0]), key(b[0]));
    SameElement(a, a[0], b[0], key);
  }

  /** Two sorted listings of the same keyed elements are the same list. */
  lemma {:induction false} SortedIsUnique<T>(a: seq<T>, b: seq<T>, key: T -> SortKey)
    requires IsSorted(a, key) && IsSorted(b, key) && Keyed(a, key)
    requires multiset(a) == multiset(b)
    ensures a == b
  {
    if a == [] {
      assert |multiset(b)| == |b|;
    } else {
      SameLeast(a, b, key);
      MultisetOfRest(a);
      MultisetOfRest(b);
      SortedIsUnique(a[1..], b[1..], key);
      assert a == [a[0]] + a[1..] && b == [b[0]] + b[1..];
    }
  }

  /** The sort does not depend on the order of its input. */
  lemma SortIgnoresListing<T>(a: seq<T>, b: seq<T>, key: T -> SortKey)
    requires multiset(a) == multiset(b) && Keyed(a, key)
    ensures Sort(a, key) == Sort(b, key)
  {
    SortSorts(a, key);
    SortSorts(b, key);
    KeyedOfListing(a, Sort(a, key), key);
    SortedIsUnique(Sort(a, key), Sort(b, key), key);
  }

  lemma KeyedOfListing<T>(a: seq<T>, b: seq<T>, key: T -> SortKey)
    requires multiset(a) == multiset(b) && Keyed(a, key)
    ensures Keyed(b, key)
  {
    forall i, j | 0 <= i < |b| && 0 <= j < |b| && key(b[i]) == key(b[j]) ensures b[i] == b[j] {
      assert b[i] in multiset(a) && b[j] in multiset(a);
      var k :| 0 <= k < |a| && a[k] == b[i];
      var l :| 0 <= l < |a| && a[l] == b[j];
    }
  }

  lemma InSort<T>(s: seq<T>, x: T, key: T -> SortKey)
    ensures x in Sort(s, key) <==> x in s
  {
    SortSorts(s, key);
    assert x in Sort(s, key) <==> x in multiset(Sort(s, key));
    assert x in s <==> x in multiset(s);
  }

  function Filter<T>(s: seq<T>, keep: T -> bool): seq<T> {
    if s == [] then [] else if keep(s[0]) then [s[0]] + Filter(s[1..], keep) else Filter(s[1..], keep)
  }

  lemma {:induction false} FilterMeaning<T>(s: seq<T>, keep: T -> bool, x: T)
    ensures multiset(Filter(s, keep))[x] == if keep(x) then multiset(s)[x] else 0
  {
    if s != [] {
      FilterMeaning(s[1..], keep, x);
      assert s == [s[0]] + s[1..];
    }
  }

  lemma FilterIn<T>(s: seq<T>, keep: T -> bool, x: T)
    ensures x in Filter(s, keep) <==> x in s && keep(x)
  {
    FilterMeaning(s, keep, x);
    assert x in Filter(s, keep) <==> multiset(Filter(s, keep))[x] > 0;
    assert x in s <==> multiset(s)[x] > 0;
  }
}
