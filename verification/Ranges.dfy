/** Inclusive index ranges: normalizing, merging and subtracting them, against the set of indices
    they cover. */
module Ranges {
  datatype Range = Range(lo: int, hi: int)

  ghost predicate Covers(ranges: seq<Range>, i: int) {
    exists k :: 0 <= k < |ranges| && ranges[k].lo <= i <= ranges[k].hi
  }

  ghost predicate Proper(ranges: seq<Range>) {
    forall k :: 0 <= k < |ranges| ==> ranges[k].lo <= ranges[k].hi
  }

  /** Non-empty, ascending, and separated by at least one index: one list per set of indices. */
  ghost predicate Canonical(ranges: seq<Range>) {
    Proper(ranges) && forall k :: 0 <= k < |ranges| - 1 ==> ranges[k].hi + 1 < ranges[k + 1].lo
  }

  lemma {:induction false} CanonicalGap(ranges: seq<Range>, j: nat, k: nat)
    requires Canonical(ranges) && j < k < |ranges|
    ensures ranges[j].hi + 1 < ranges[k].lo
  {
    if j + 1 < k {
      CanonicalGap(ranges, j, k - 1);
    }
  }

  // ---------------------------------------------------------------- merge

  /** Put one range after the merged ones: widen the last one where it touches it. */
  function Absorb(merged: seq<Range>, r: Range): seq<Range> {
    if merged == [] || r.lo > merged[|merged| - 1].hi + 1 then merged + [r]
    else
      var last := merged[|merged| - 1];
      merged[..|merged| - 1] + [Range(last.lo, if last.hi < r.hi then r.hi else last.hi)]
  }

  function AbsorbAll(merged: seq<Range>, rest: seq<Range>): seq<Range>
    decreases |rest|
  {
    if rest == [] then merged else AbsorbAll(Absorb(merged, rest[0]), rest[1..])
  }

  predicate RangeLe(a: Range, b: Range) {
    a.lo < b.lo || (a.lo == b.lo && a.hi <= b.hi)
  }

  function InsertRange(r: Range, s: seq<Range>): seq<Range> {
    if s == [] || RangeLe(r, s[0]) then [r] + s else [s[0]] + InsertRange(r, s[1..])
  }

  function SortRanges(s: seq<Range>): seq<Range> {
    if s == [] then [] else InsertRange(s[0], SortRanges(s[1..]))
  }

  ghost predicate Ascending(s: seq<Range>) {
    forall i, j :: 0 <= i < j < |s| ==> s[i].lo <= s[j].lo
  }

  lemma InsertRangeSorts(r: Range, s: seq<Range>)
    requires Ascending(s)
    ensures forall x :: x in InsertRange(r, s) <==> x == r || x in s
    ensures Ascending(InsertRange(r, s))
  {
    if s != [] && !RangeLe(r, s[0]) {
      InsertRangeSorts(r, s[1..]);
      var rest := InsertRange(r, s[1..]);
      assert s == [s[0]] + s[1..];
      forall j | 0 <= j < |rest| ensures s[0].lo <= rest[j].lo {
        assert rest[j] in rest;
      }
    }
  }

  lemma SortRangesSorts(s: seq<Range>)
    ensures Ascending(SortRanges(s)) && forall x :: x in SortRanges(s) <==> x in s
  {
    if s != [] {
      SortRangesSorts(s[1..]);
      InsertRangeSorts(s[0], SortRanges(s[1..]));
      assert s == [s[0]] + s[1..];
    }
  }

  function Merge(ranges: seq<Range>): seq<Range> {
    AbsorbAll([], SortRanges(ranges))
  }

  /** Absorbing ascending ranges keeps the list canonical and covers exactly what both cover. */
  lemma {:induction false} AbsorbAllMeaning(merged: seq<Range>, rest: seq<Range>)
    requires Canonical(merged) && Proper(rest) && Ascending(rest)
    requires merged != [] && rest != [] ==> merged[|merged| - 1].lo <= rest[0].lo
    ensures Canonical(AbsorbAll(merged, rest))
    ensures forall i :: Covers(AbsorbAll(merged, rest), i) <==> Covers(merged, i) || Covers(rest, i)
    decreases |rest|
  {
    if rest != [] {
      var next := Absorb(merged, rest[0]);
      AbsorbCanonical(merged, rest[0]);
      AbsorbAllMeaning(next, rest[1..]);
      forall i ensures Covers(rest, i) || Covers(merged, i) <==> Covers(next, i) || Covers(rest[1..], i) {
        CoversSplit(rest, i);
        AbsorbCovers(merged, rest[0], i);
      }
    }
  }

  lemma CoversSplit(ranges: seq<Range>, i: int)
    requires ranges != []
    ensures Covers(ranges, i) <==> (ranges[0].lo <= i <= ranges[0].hi || Covers(ranges[1..], i))
  {
    if Covers(ranges, i) {
      var k :| 0 <= k < |ranges| && ranges[k].lo <= i <= ranges[k].hi;
      if k > 0 {
        assert ranges[1..][k - 1] == ranges[k];
      }
    }
    if Covers(ranges[1..], i) {
      var k :| 0 <= k < |ranges[1..]| && ranges[1..][k].lo <= i <= ranges[1..][k].hi;
      assert ranges[k + 1] == ranges[1..][k];
    }
  }

  lemma CoversSplitLast(ranges: seq<Range>, i: int)
    requires ranges != []
    ensures var last := |ranges| - 1;
            Covers(ranges, i) <==> (Covers(ranges[..last], i) || ranges[last].lo <= i <= ranges[last].hi)
  {
    var last := |ranges| - 1;
    if Covers(ranges, i) {
      var k :| 0 <= k < |ranges| && ranges[k].lo <= i <= ranges[k].hi;
      if k < last {
        assert ranges[..last][k] == ranges[k];
      }
    }
    if Covers(ranges[..last], i) {
      var k :| 0 <= k < last && ranges[..last][k].lo <= i <= ranges[..last][k].hi;
      assert ranges[k] == ranges[..last][k];
    }
  }

  lemma AbsorbCanonical(merged: seq<Range>, r: Range)
    requires Canonical(merged) && r.lo <= r.hi
    requires merged != [] ==> merged[|merged| - 1].lo <= r.lo
    ensures var next := Absorb(merged, r);
            next != [] && Canonical(next) && next[|next| - 1].lo <= r.lo
  {
  }

  lemma AbsorbCovers(merged: seq<Range>, r: Range, i: int)
    requires r.lo <= r.hi && (merged != [] ==> merged[|merged| - 1].lo <= r.lo)
    ensures Covers(Absorb(merged, r), i) <==> Covers(merged, i) || r.lo <= i <= r.hi
  {
    var next := Absorb(merged, r);
    CoversSplitLast(next, i);
    if merged == [] || r.lo > merged[|merged| - 1].hi + 1 {
      assert next[..|next| - 1] == merged;
    } else {
      CoversSplitLast(merged, i);
      assert next[..|next| - 1] == merged[..|merged| - 1];
    }
  }

  /** Merging ranges gives the canonical list of the indices they cover. */
  lemma MergeMeaning(ranges: seq<Range>)
    requires Proper(ranges)
    ensures Canonical(Merge(ranges))
    ensures forall i :: Covers(Merge(ranges), i) <==> Covers(ranges, i)
  {
    var sorted := SortRanges(ranges);
    SortRangesSorts(ranges);
    forall k | 0 <= k < |sorted| ensures sorted[k] in ranges {
      assert sorted[k] in sorted;
    }
    AbsorbAllMeaning([], sorted);
    forall i ensures Covers(sorted, i) <==> Covers(ranges, i) {
      if Covers(ranges, i) {
        var k :| 0 <= k < |ranges| && ranges[k].lo <= i <= ranges[k].hi;
        assert ranges[k] in sorted;
      }
    }
  }

  /** Two canonical lists that cover the same indices are equal. */
  lemma {:induction false} CanonicalUnique(a: seq<Range>, b: seq<Range>)
    requires Canonical(a) && Canonical(b)
    requires forall i :: Covers(a, i) <==> Covers(b, i)
    ensures a == b
    decreases |a|
  {
    if a == [] {
      if b != [] { assert Covers(b, b[0].lo); }
    } else if b == [] {
      assert Covers(a, a[0].lo);
    } else {
      SameFirst(a, b);
      SameFirst(b, a);
      assert a[0] == b[0];
      forall i ensures Covers(a[1..], i) <==> Covers(b[1..], i) {
        CoversSplit(a, i);
        CoversSplit(b, i);
        AfterFirst(a, i);
        AfterFirst(b, i);
      }
      CanonicalUnique(a[1..], b[1..]);
      assert a == [a[0]] + a[1..] && b == [b[0]] + b[1..];
    }
  }

  lemma AfterFirst(a: seq<Range>, i: int)
    requires Canonical(a) && a != []
    ensures Covers(a[1..], i) ==> a[0].hi + 1 < i
  {
    if Covers(a[1..], i) {
      var k :| 0 <= k < |a[1..]| && a[1..][k].lo <= i <= a[1..][k].hi;
      CanonicalGap(a, 0, k + 1);
    }
  }

  lemma SameFirst(a: seq<Range>, b: seq<Range>)
    requires Canonical(a) && Canonical(b) && a != [] && b != []
    requires forall i :: Covers(a, i) <==> Covers(b, i)
    ensures b[0].lo <= a[0].lo && a[0].hi <= b[0].hi
  {
    assert a[0].lo <= a[0].lo <= a[0].hi;
    assert Covers(a, a[0].lo) && Covers(b, b[0].lo);
    CoversSplit(b, a[0].lo);
    AfterFirst(b, a[0].lo);
    CoversSplit(a, b[0].lo);
    AfterFirst(a, b[0].lo);
    if b[0].hi < a[0].hi {
      var i := b[0].hi + 1;
      assert a[0].lo <= i <= a[0].hi;
      assert Covers(a, i);
      CoversSplit(b, i);
      AfterFirst(b, i);
    }
  }

  // ---------------------------------------------------------------- normalize

  function Ordered(r: Range): Range {
    if r.hi < r.lo then Range(r.hi, r.lo) else r
  }

  function OrderedAll(ranges: seq<Range>): seq<Range> {
    seq(|ranges|, k requires 0 <= k < |ranges| => Ordered(ranges[k]))
  }

  function Normalize(ranges: seq<Range>): seq<Range> {
    Merge(OrderedAll(ranges))
  }

  /** The indices a stored list of ranges stands for, its bounds in either order. */
  ghost predicate Stands(ranges: seq<Range>, i: int) {
    exists k :: 0 <= k < |ranges| && (ranges[k].lo <= i <= ranges[k].hi || ranges[k].hi <= i <= ranges[k].lo)
  }

  lemma NormalizeMeaning(ranges: seq<Range>)
    ensures Canonical(Normalize(ranges))
    ensures forall i :: Covers(Normalize(ranges), i) <==> Stands(ranges, i)
  {
    var all := OrderedAll(ranges);
    MergeMeaning(all);
    forall i ensures Covers(all, i) <==> Stands(ranges, i) {
      if Stands(ranges, i) {
        var k :| 0 <= k < |ranges| && (ranges[k].lo <= i <= ranges[k].hi || ranges[k].hi <= i <= ranges[k].lo);
        assert all[k].lo <= i <= all[k].hi;
      }
    }
  }

  lemma CanonicalStands(ranges: seq<Range>)
    requires Canonical(ranges)
    ensures forall i :: Stands(ranges, i) <==> Covers(ranges, i)
    ensures Normalize(ranges) == ranges
  {
    NormalizeMeaning(ranges);
    forall i ensures Stands(ranges, i) <==> Covers(ranges, i) {
      if Stands(ranges, i) {
        var k :| 0 <= k < |ranges| && (ranges[k].lo <= i <= ranges[k].hi || ranges[k].hi <= i <= ranges[k].lo);
        assert ranges[k].lo <= i <= ranges[k].hi;
      }
      if Covers(ranges, i) {
        var k :| 0 <= k < |ranges| && ranges[k].lo <= i <= ranges[k].hi;
        assert Ordered(ranges[k]) == ranges[k];
      }
    }
    CanonicalUnique(Normalize(ranges), ranges);
  }

  // ---------------------------------------------------------------- subtract

  /** What is left of one range. */
  function CutOne(r: Range, cut: Range): seq<Range> {
    if cut.hi < r.lo || cut.lo > r.hi then [r]
    else (if r.lo < cut.lo then [Range(r.lo, cut.lo - 1)] else [])
         + (if cut.hi < r.hi then [Range(cut.hi + 1, r.hi)] else [])
  }

  function Cut(ranges: seq<Range>, cut: Range): seq<Range> {
    if ranges == [] then [] else Cut(ranges[..|ranges| - 1], cut) + CutOne(ranges[|ranges| - 1], cut)
  }

  function CutAll(ranges: seq<Range>, cuts: seq<Range>): seq<Range> {
    if cuts == [] then ranges else Cut(CutAll(ranges, cuts[..|cuts| - 1]), cuts[|cuts| - 1])
  }

  function Subtract(ranges: seq<Range>, subtract: seq<Range>): seq<Range> {
    CutAll(Merge(ranges), Merge(subtract))
  }

  lemma {:induction false} CutMeaning(ranges: seq<Range>, cut: Range)
    requires Canonical(ranges) && cut.lo <= cut.hi
    ensures Canonical(Cut(ranges, cut))
    ensures forall i :: Covers(Cut(ranges, cut), i) <==> Covers(ranges, i) && !(cut.lo <= i <= cut.hi)
  {
    CutCanonical(ranges, cut);
    if ranges != [] {
      var n := |ranges| - 1;
      CutMeaning(ranges[..n], cut);
      forall i ensures Covers(Cut(ranges, cut), i) <==> Covers(ranges, i) && !(cut.lo <= i <= cut.hi) {
        CoversSplitLast(ranges, i);
        CoversAppend(Cut(ranges[..n], cut), CutOne(ranges[n], cut), i);
        CutOneMeaning(ranges[n], cut, i);
      }
    }
  }

  lemma {:induction false} CutCanonical(ranges: seq<Range>, cut: Range)
    requires Canonical(ranges) && cut.lo <= cut.hi
    ensures Canonical(Cut(ranges, cut))
    ensures var r := Cut(ranges, cut); r != [] ==> ranges != [] && r[|r| - 1].hi <= ranges[|ranges| - 1].hi
  {
    if ranges != [] {
      var n := |ranges| - 1;
      CutCanonical(ranges[..n], cut);
      CutOneCanonical(ranges[n], cut);
      CanonicalAppend(Cut(ranges[..n], cut), CutOne(ranges[n], cut));
    }
  }

  lemma CutOneCanonical(r: Range, cut: Range)
    requires r.lo <= r.hi && cut.lo <= cut.hi
    ensures Canonical(CutOne(r, cut))
    ensures var left := CutOne(r, cut); left != [] ==> r.lo <= left[0].lo && left[|left| - 1].hi <= r.hi
  {
  }

  lemma CanonicalAppend(a: seq<Range>, b: seq<Range>)
    requires Canonical(a) && Canonical(b)
    requires a != [] && b != [] ==> a[|a| - 1].hi + 1 < b[0].lo
    ensures Canonical(a + b)
  {
    var c := a + b;
    forall k | 0 <= k < |c| - 1 ensures c[k].hi + 1 < c[k + 1].lo {
      if k >= |a| {
        assert c[k] == b[k - |a|] && c[k + 1] == b[k - |a| + 1];
      }
    }
  }

  lemma CutOneMeaning(r: Range, cut: Range, i: int)
    requires r.lo <= r.hi && cut.lo <= cut.hi
    ensures Covers(CutOne(r, cut), i) <==> r.lo <= i <= r.hi && !(cut.lo <= i <= cut.hi)
  {
    var left := if r.lo < cut.lo then [Range(r.lo, cut.lo - 1)] else [];
    var right := if cut.hi < r.hi then [Range(cut.hi + 1, r.hi)] else [];
    if cut.hi < r.lo || cut.lo > r.hi {
      assert CutOne(r, cut)[0] == r;
    } else {
      CoversAppend(left, right, i);
      assert left != [] ==> left[0] == Range(r.lo, cut.lo - 1);
      assert right != [] ==> right[0] == Range(cut.hi + 1, r.hi);
    }
  }

  lemma CoversAppend(a: seq<Range>, b: seq<Range>, i: int)
    ensures Covers(a + b, i) <==> Covers(a, i) || Covers(b, i)
  {
    if Covers(a, i) {
      var k :| 0 <= k < |a| && a[k].lo <= i <= a[k].hi;
      assert (a + b)[k] == a[k];
    }
    if Covers(b, i) {
      var k :| 0 <= k < |b| && b[k].lo <= i <= b[k].hi;
      assert (a + b)[|a| + k] == b[k];
    }
  }

  lemma {:induction false} CutAllMeaning(ranges: seq<Range>, cuts: seq<Range>)
    requires Canonical(ranges) && Proper(cuts)
    ensures Canonical(CutAll(ranges, cuts))
    ensures forall i :: Covers(CutAll(ranges, cuts), i) <==> Covers(ranges, i) && !Covers(cuts, i)
  {
    if cuts != [] {
      var n := |cuts| - 1;
      CutAllMeaning(ranges, cuts[..n]);
      CutMeaning(CutAll(ranges, cuts[..n]), cuts[n]);
      forall i ensures Covers(CutAll(ranges, cuts), i) <==> Covers(ranges, i) && !Covers(cuts, i) {
        CoversSplitLast(cuts, i);
      }
    }
  }

  /** Subtracting gives the canonical list of the indices in `ranges` and not in `subtract`. */
  lemma SubtractMeaning(ranges: seq<Range>, subtract: seq<Range>)
    requires Proper(ranges) && Proper(subtract)
    ensures Canonical(Subtract(ranges, subtract))
    ensures forall i :: Covers(Subtract(ranges, subtract), i) <==> Covers(ranges, i) && !Covers(subtract, i)
  {
    MergeMeaning(ranges);
    MergeMeaning(subtract);
    CutAllMeaning(Merge(ranges), Merge(subtract));
  }

  // ---------------------------------------------------------------- counting

  function Size(ranges: seq<Range>): int {
    if ranges == [] then 0 else Size(ranges[..|ranges| - 1]) + (ranges[|ranges| - 1].hi - ranges[|ranges| - 1].lo + 1)
  }

  function Indices(r: Range): set<int>
    decreases r.hi - r.lo
  {
    if r.hi < r.lo then {} else Indices(Range(r.lo, r.hi - 1)) + {r.hi}
  }

  lemma {:induction false} IndicesSize(r: Range)
    requires r.lo <= r.hi + 1
    ensures forall i :: i in Indices(r) <==> r.lo <= i <= r.hi
    ensures |Indices(r)| == r.hi - r.lo + 1
    decreases r.hi - r.lo
  {
    if r.lo <= r.hi {
      IndicesSize(Range(r.lo, r.hi - 1));
    }
  }

  function IndexSet(ranges: seq<Range>): set<int> {
    if ranges == [] then {} else IndexSet(ranges[..|ranges| - 1]) + Indices(ranges[|ranges| - 1])
  }

  /** The sum of the lengths of a canonical list is the number of indices it covers. */
  lemma {:induction false} SizeCounts(ranges: seq<Range>)
    requires Canonical(ranges)
    ensures forall i :: i in IndexSet(ranges) <==> Covers(ranges, i)
    ensures |IndexSet(ranges)| == Size(ranges)
  {
    if ranges != [] {
      var n := |ranges| - 1;
      SizeCounts(ranges[..n]);
      IndicesSize(ranges[n]);
      forall i ensures i in IndexSet(ranges) <==> Covers(ranges, i) {
        CoversSplitLast(ranges, i);
      }
      forall i | i in IndexSet(ranges[..n]) ensures i < ranges[n].lo {
        var k :| 0 <= k < n && ranges[..n][k].lo <= i <= ranges[..n][k].hi;
        CanonicalGap(ranges, k, n);
      }
      assert IndexSet(ranges[..n]) !! Indices(ranges[n]);
    }
  }

  // ---------------------------------------------------------------- the loops of the source

  method MergeIndexRanges(ranges: seq<Range>) returns (merged: seq<Range>)
    ensures merged == Merge(ranges)
  {
    if ranges == [] {
      return [];
    }
    merged := [];
    var sorted := SortRanges(ranges);
    for k := 0 to |sorted|
      invariant AbsorbAll([], sorted) == AbsorbAll(merged, sorted[k..])
    {
      assert sorted[k..][0] == sorted[k] && sorted[k..][1..] == sorted[k + 1..];
      var r := sorted[k];
      if merged == [] || r.lo > merged[|merged| - 1].hi + 1 {
        merged := merged + [r];
      } else {
        var last := merged[|merged| - 1];
        merged := merged[..|merged| - 1] + [Range(last.lo, if last.hi < r.hi then r.hi else last.hi)];
      }
    }
  }

  method NormalizeIndexRanges(value: seq<Range>) returns (ranges: seq<Range>)
    ensures ranges == Normalize(value)
  {
    var ordered := [];
    for k := 0 to |value|
      invariant |ordered| == k
      invariant forall j :: 0 <= j < k ==> ordered[j] == Ordered(value[j])
    {
      var lo, hi := value[k].lo, value[k].hi;
      if hi < lo {
        lo, hi := hi, lo;
      }
      ordered := ordered + [Range(lo, hi)];
    }
    assert ordered == OrderedAll(value);
    ranges := MergeIndexRanges(ordered);
  }

  /** The inner loop of the subtraction: one cut through every remaining range. */
  method CutRanges(remaining: seq<Range>, cut: Range) returns (next: seq<Range>)
    ensures next == Cut(remaining, cut)
  {
    next := [];
    for k := 0 to |remaining|
      invariant next == Cut(remaining[..k], cut)
    {
      var r := remaining[k];
      assert remaining[..k + 1][..k] == remaining[..k];
      if cut.hi < r.lo || cut.lo > r.hi {
        next := next + [r];
      } else {
        var left := if r.lo < cut.lo then [Range(r.lo, cut.lo - 1)] else [];
        var right := if cut.hi < r.hi then [Range(cut.hi + 1, r.hi)] else [];
        next := next + (left + right);
      }
    }
    assert remaining[..|remaining|] == remaining;
  }

  method SubtractIndexRanges(ranges: seq<Range>, subtract: seq<Range>) returns (remaining: seq<Range>)
    ensures remaining == Subtract(ranges, subtract)
  {
    remaining := MergeIndexRanges(ranges);
    ghost var whole := remaining;
    var cuts := MergeIndexRanges(subtract);
    for c := 0 to |cuts|
      invariant remaining == CutAll(whole, cuts[..c])
    {
      remaining := CutRanges(remaining, cuts[c]);
      assert cuts[..c + 1][..c] == cuts[..c];
    }
    assert cuts[..|cuts|] == cuts;
  }
}
