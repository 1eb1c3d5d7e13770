/** Names of log segments and ids of events: zero-padded numbers inside text. */
module SegmentNames {
  import opened Ordering
  import opened Wrappers

  function Digit(n: nat): char
    requires n < 10
  {
    '0' + n as char
  }

  predicate IsDigit(c: char) {
    '0' <= c <= '9'
  }

  predicate AllDigits(s: string) {
    forall i :: 0 <= i < |s| ==> IsDigit(s[i])
  }

  /** `n` in decimal, padded with zeros to at least `width` digits. */
  function Padded(n: nat, width: nat): string
    decreases width, n
  {
    if width > 1 then Padded(n / 10, width - 1) + [Digit(n % 10)]
    else if n < 10 then [Digit(n)]
    else Padded(n / 10, width) + [Digit(n % 10)]
  }

  /** The number a text of digits stands for. */
  function Value(s: string): nat
    requires AllDigits(s)
  {
    if s == [] then 0 else 10 * Value(s[..|s| - 1]) + (s[|s| - 1] as int - '0' as int)
  }

  function Power10(width: nat): nat {
    if width == 0 then 1 else 10 * Power10(width - 1)
  }

  lemma {:induction false} PaddedMeaning(n: nat, width: nat)
    ensures Padded(n, width) != [] && AllDigits(Padded(n, width))
    ensures Value(Padded(n, width)) == n
    ensures 0 < width && n < Power10(width) ==> |Padded(n, width)| == width
    decreases width, n
  {
    if width > 1 {
      PaddedMeaning(n / 10, width - 1);
      assert Padded(n, width)[..|Padded(n, width)| - 1] == Padded(n / 10, width - 1);
    } else if n >= 10 {
      PaddedMeaning(n / 10, width);
      assert Padded(n, width)[..|Padded(n, width)| - 1] == Padded(n / 10, width);
      assert Power10(1) == 10;
    } else {
      assert Padded(n, width)[..0] == [];
    }
  }

  /** Below in text order, decided at some character of both. */
  predicate Below(a: string, b: string) {
    a != [] && b != [] && (a[0] < b[0] || (a[0] == b[0] && Below(a[1..], b[1..])))
  }

  lemma {:induction false} BelowOrders(a: string, b: string)
    requires Below(a, b)
    ensures StringLe(a, b) && !StringLe(b, a)
  {
    if a[0] == b[0] {
      BelowOrders(a[1..], b[1..]);
    }
  }

  lemma {:induction false} BelowAppend(a: string, b: string, u: string, v: string)
    requires Below(a, b)
    ensures Below(a + u, b + v)
  {
    assert (a + u)[1..] == a[1..] + u && (b + v)[1..] == b[1..] + v;
    if a[0] == b[0] {
      BelowAppend(a[1..], b[1..], u, v);
    }
  }

  lemma {:induction false} BelowPrepend(p: string, a: string, b: string)
    requires Below(a, b)
    ensures Below(p + a, p + b)
  {
    if p == [] {
      assert p + a == a && p + b == b;
    } else {
      assert (p + a)[1..] == p[1..] + a && (p + b)[1..] == p[1..] + b;
      BelowPrepend(p[1..], a, b);
    }
  }

  /** Among numbers of at most `width` digits, the padded texts are ordered as the numbers. */
  lemma {:induction false} PaddedOrder(a: nat, b: nat, width: nat)
    requires 0 < width && a < b < Power10(width)
    ensures Below(Padded(a, width), Padded(b, width))
    decreases width
  {
    if width == 1 {
      assert Power10(1) == 10;
    } else if a / 10 < b / 10 {
      PaddedOrder(a / 10, b / 10, width - 1);
      BelowAppend(Padded(a / 10, width - 1), Padded(b / 10, width - 1), [Digit(a % 10)], [Digit(b % 10)]);
    } else {
      BelowPrepend(Padded(a / 10, width - 1), [Digit(a % 10)], [Digit(b % 10)]);
    }
  }

  // ---------------------------------------------------------------- segment names

  function SegmentName(part: nat): string {
    "events-" + Padded(part, 5) + ".jsonl"
  }

  predicate EndsWith(s: string, suffix: string) {
    |suffix| <= |s| && s[|s| - |suffix|..] == suffix
  }

  /** Where the digits at the end of `s` begin. */
  function DigitsFrom(s: string): (k: nat)
    ensures k <= |s| && AllDigits(s[k..])
    ensures k == 0 || !IsDigit(s[k - 1])
  {
    if s == [] || !IsDigit(s[|s| - 1]) then |s| else DigitsFrom(s[..|s| - 1])
  }

  /** The part number of a segment file, found as `events-<digits>.jsonl` at the end of its name. */
  function PartOf(name: string): Option<nat> {
    if !EndsWith(name, ".jsonl") then None else
    var stem := name[..|name| - 6];
    var k := DigitsFrom(stem);
    if k < |stem| && EndsWith(stem[..k], "events-") then Some(Value(stem[k..])) else None
  }

  lemma DigitsFromUnique(p: string, d: string)
    requires p != [] && !IsDigit(p[|p| - 1]) && AllDigits(d)
    ensures DigitsFrom(p + d) == |p|
  {
    if d == [] {
      assert p + d == p;
    } else {
      assert (p + d)[..|p + d| - 1] == p + d[..|d| - 1];
      DigitsFromUnique(p, d[..|d| - 1]);
    }
  }

  /** A segment's name gives its part number back. */
  lemma PartOfName(part: nat)
    ensures PartOf(SegmentName(part)) == Some(part)
  {
    PaddedMeaning(part, 5);
    var p, d := "events-", Padded(part, 5);
    var name := SegmentName(part);
    assert name[..|name| - 6] == p + d;
    DigitsFromUnique(p, d);
    assert (p + d)[..|p|] == p && (p + d)[|p|..] == d;
  }

  /** The text ends with the name of a segment file, with these digits for its part. */
  ghost predicate EndsAsSegment(name: string, before: string, digits: string) {
    digits != "" && AllDigits(digits) && name == before + "events-" + digits + ".jsonl"
  }

  /** A part number is found exactly in a name that ends as a segment's does, and it is the number of its
      digits. */
  lemma PartOfMeaning(name: string, part: nat)
    ensures PartOf(name) == Some(part) <==>
              exists before, digits :: EndsAsSegment(name, before, digits) && Value(digits) == part
  {
    if PartOf(name).Some? {
      var stem := name[..|name| - 6];
      var k := DigitsFrom(stem);
      var before := stem[..k - 7];
      assert stem[..k] == before + "events-" && stem == stem[..k] + stem[k..];
      assert name == stem + ".jsonl";
      assert EndsAsSegment(name, before, stem[k..]);
    }
    forall before, digits | EndsAsSegment(name, before, digits) ensures PartOf(name) == Some(Value(digits)) {
      SegmentEnd(name, before, digits);
    }
  }

  lemma SegmentEnd(name: string, before: string, digits: string)
    requires EndsAsSegment(name, before, digits)
    ensures PartOf(name) == Some(Value(digits))
  {
    var p := before + "events-";
    assert name[..|name| - 6] == p + digits && name[|name| - 6..] == ".jsonl";
    assert p[|p| - 1] == '-';
    DigitsFromUnique(p, digits);
    assert (p + digits)[..|p|] == p && (p + digits)[|p|..] == digits;
    assert p[|p| - 7..] == "events-";
  }

  lemma NamesDiffer(a: nat, b: nat)
    requires SegmentName(a) == SegmentName(b)
    ensures a == b
  {
    PartOfName(a);
    PartOfName(b);
  }

  /** Below part 100000 the text order of segment names is the order of writing. */
  lemma NameOrder(a: nat, b: nat)
    requires a < b < 100000
    ensures StringLe(SegmentName(a), SegmentName(b)) && !StringLe(SegmentName(b), SegmentName(a))
  {
    assert Power10(5) == 100000;
    PaddedOrder(a, b, 5);
    BelowAppend(Padded(a, 5), Padded(b, 5), ".jsonl", ".jsonl");
    BelowPrepend("events-", Padded(a, 5) + ".jsonl", Padded(b, 5) + ".jsonl");
    assert SegmentName(a) == "events-" + (Padded(a, 5) + ".jsonl");
    assert SegmentName(b) == "events-" + (Padded(b, 5) + ".jsonl");
    BelowOrders(SegmentName(a), SegmentName(b));
  }

  lemma LastShortPart()
    ensures Padded(99999, 5) == "99999"
  {
    assert Padded(9, 1) == "9" && Padded(99, 2) == "99" && Padded(999, 3) == "999" && Padded(9999, 4) == "9999";
  }

  lemma FirstLongPart()
    ensures Padded(100000, 5) == "100000"
  {
    assert Padded(1, 1) == "1" && Padded(10, 1) == "10" && Padded(100, 2) == "100" && Padded(1000, 3) == "1000"
      && Padded(10000, 4) == "10000";
  }

  /** From part 100000 on it is not: that name sorts before the one of part 99999. */
  lemma NameOrderEnds()
    ensures !StringLe(SegmentName(99999), SegmentName(100000))
  {
    hide Padded;
    LastShortPart();
    FirstLongPart();
    assert Below("100000.jsonl", "99999.jsonl");
    BelowPrepend("events-", "100000.jsonl", "99999.jsonl");
    assert SegmentName(99999) == "events-" + "99999.jsonl" && SegmentName(100000) == "events-" + "100000.jsonl";
    BelowOrders(SegmentName(100000), SegmentName(99999));
  }

  /** The names of a run's segments sort in the order of writing exactly when there are at most
      100000 of them. */
  lemma NameOrderExact(n: nat)
    ensures (forall a, b :: 0 <= a < b < n ==> StringLe(SegmentName(a), SegmentName(b))) <==> n <= 100000
  {
    if n <= 100000 {
      forall a, b | 0 <= a < b < n ensures StringLe(SegmentName(a), SegmentName(b)) {
        NameOrder(a, b);
      }
    } else {
      NameOrderEnds();
    }
  }

  // ---------------------------------------------------------------- event ids

  /** The part of an event id after the run id. */
  function Position(part: nat, index: nat): string {
    Padded(part, 5) + ":" + Padded(index, 6)
  }

  function EventId(runId: string, part: nat, index: nat): string {
    runId + ":" + Position(part, index)
  }

  /** An id spells the run, the part in at least five digits and the position in at least six. */
  lemma EventIdMeaning(runId: string, part: nat, index: nat) returns (p: string, i: string)
    ensures EventId(runId, part, index) == runId + ":" + p + ":" + i
    ensures AllDigits(p) && Value(p) == part && (part < 100000 ==> |p| == 5)
    ensures AllDigits(i) && Value(i) == index && (index < 1000000 ==> |i| == 6)
  {
    p, i := Padded(part, 5), Padded(index, 6);
    PaddedMeaning(part, 5);
    PaddedMeaning(index, 6);
    FiveAndSix();
    assert runId + ":" + (p + ":" + i) == runId + ":" + p + ":" + i;
  }

  lemma FiveAndSix()
    ensures Power10(5) == 100000 && Power10(6) == 1000000
  {
    assert Power10(2) == 100 && Power10(3) == 1000 && Power10(4) == 10000;
  }

  lemma {:induction false} SplitAtColon(a: string, b: string, u: string, v: string)
    requires ':' !in a && ':' !in b && a + ":" + u == b + ":" + v
    ensures a == b && u == v
  {
    var s, t := a + ":" + u, b + ":" + v;
    assert s[|a|] == ':' && t[|b|] == ':';
    assert forall i :: 0 <= i < |a| ==> s[i] == a[i] && a[i] in a;
    assert forall i :: 0 <= i < |b| ==> t[i] == b[i] && b[i] in b;
    assert |a| == |b|;
    assert a == s[..|a|] && b == t[..|b|];
    assert u == s[|a| + 1..] && v == t[|b| + 1..];
  }

  lemma SamePrefix(p: string, s: string, t: string)
    requires p + s == p + t
    ensures s == t
  {
    assert s == (p + s)[|p|..] && t == (p + t)[|p|..];
  }

  lemma PositionsDiffer(part: nat, index: nat, part2: nat, index2: nat)
    requires Position(part, index) == Position(part2, index2)
    ensures part == part2 && index == index2
  {
    PaddedMeaning(part, 5);
    PaddedMeaning(part2, 5);
    PaddedMeaning(index, 6);
    PaddedMeaning(index2, 6);
    SplitAtColon(Padded(part, 5), Padded(part2, 5), Padded(index, 6), Padded(index2, 6));
  }

  /** Events of one run at different parts or positions have different ids. */
  lemma EventIdsDiffer(runId: string, part: nat, index: nat, part2: nat, index2: nat)
    requires EventId(runId, part, index) == EventId(runId, part2, index2)
    ensures part == part2 && index == index2
  {
    SamePrefix(runId + ":", Position(part, index), Position(part2, index2));
    PositionsDiffer(part, index, part2, index2);
  }
}
