/** The pass that takes overwritten index ranges out of earlier active spans. */
module Coverage {
  import opened Ordering
  import opened Ranges
  import opened Sequences
  import opened Wrappers
  import opened ControlRecords

  predicate Active(r: Record) {
    r.kind == "span" && r.status == "active"
  }

  function OrderKey(r: Record): SortKey {
    SortKey(if r.timestamp.None? then 0.0 else r.timestamp.value, r.key)
  }

  ghost predicate Later(r: Record, than: Record) {
    KeyLe(OrderKey(than), OrderKey(r)) && OrderKey(than) != OrderKey(r)
  }

  /** The overwritten ranges of `other` that count for `r`. */
  predicate CountsFor(other: Record, r: Record) {
    other.meta.group == r.meta.group && other.meta.runId != r.meta.runId
  }

  ghost predicate SpanCovers(r: Record, i: int) {
    r.span.Some? && Stands(r.span.value.ranges, i)
  }

  /** A later active span of the same group and another run declares index `i` overwritten. */
  ghost predicate Overwritten(records: Current, k: string, i: int)
    requires k in records
  {
    exists l :: l in records && Active(records[l]) && Later(records[l], records[k]) && CountsFor(records[l], records[k])
      && Stands(records[l].meta.overwrites, i)
  }

  ghost function Gone(records: Current, k: string): iset<int>
    requires k in records
  {
    iset i | Overwritten(records, k, i)
  }

  /** `r2` is `r` without the indices in `gone`; a record that loses nothing stays as it is. */
  ghost predicate Carved(r: Record, r2: Record, gone: iset<int>) {
    if forall i :: SpanCovers(r, i) ==> i !in gone then r2 == r
    else
      && r.span.Some? && r2.span.Some?
      && r2 == r.(span := Some(r.span.value.(ranges := r2.span.value.ranges, written := r2.span.value.written)))
      && Canonical(r2.span.value.ranges)
      && r2.span.value.written == Size(r2.span.value.ranges)
      && forall i :: SpanCovers(r2, i) <==> SpanCovers(r, i) && i !in gone
  }

  /** What the pass makes of `records`. */
  ghost predicate CoveragePass(records: Current, out: Current) {
    && out.Keys == records.Keys
    && forall k :: k in records ==>
         if Active(records[k]) then Carved(records[k], out[k], Gone(records, k)) else out[k] == records[k]
  }

  // ---------------------------------------------------------------- carving

  lemma CarvedCovers(r: Record, r2: Record, gone: iset<int>)
    requires Carved(r, r2, gone)
    ensures forall i :: SpanCovers(r2, i) <==> SpanCovers(r, i) && i !in gone
  {
  }

  lemma CarvedUnique(r: Record, a: Record, b: Record, gone: iset<int>)
    requires Carved(r, a, gone) && Carved(r, b, gone)
    ensures a == b
  {
    if !(forall i :: SpanCovers(r, i) ==> i !in gone) {
      CanonicalStands(a.span.value.ranges);
      CanonicalStands(b.span.value.ranges);
      forall i ensures Covers(a.span.value.ranges, i) <==> Covers(b.span.value.ranges, i) {
        assert SpanCovers(a, i) <==> SpanCovers(b, i);
      }
      CanonicalUnique(a.span.value.ranges, b.span.value.ranges);
    }
  }

  lemma CarvedTwice(r: Record, a: Record, gone: iset<int>)
    requires Carved(r, a, gone)
    ensures Carved(a, a, gone)
  {
    CarvedCovers(r, a, gone);
  }

  lemma CarvedCompose(r: Record, a: Record, b: Record, g: iset<int>, h: iset<int>)
    requires Carved(r, a, g) && Carved(a, b, h)
    ensures Carved(r, b, g + h)
  {
    CarvedCovers(r, a, g);
    CarvedCovers(a, b, h);
  }

  // ---------------------------------------------------------------- properties of the pass

  lemma PassKeepsActive(records: Current, out: Current)
    requires CoveragePass(records, out)
    ensures forall k :: k in records ==>
              && Active(out[k]) == Active(records[k])
              && OrderKey(out[k]) == OrderKey(records[k])
              && out[k].meta == records[k].meta
  {
  }

  lemma PassKeepsGone(records: Current, out: Current, k: string)
    requires CoveragePass(records, out) && k in records
    ensures Gone(out, k) == Gone(records, k)
  {
    PassKeepsActive(records, out);
    forall i ensures Overwritten(out, k, i) <==> Overwritten(records, k, i) {
      if Overwritten(out, k, i) {
        var l :| l in out && Active(out[l]) && Later(out[l], out[k]) && CountsFor(out[l], out[k])
          && Stands(out[l].meta.overwrites, i);
        assert l in records && Active(records[l]);
      }
      if Overwritten(records, k, i) {
        var l :| l in records && Active(records[l]) && Later(records[l], records[k]) && CountsFor(records[l], records[k])
          && Stands(records[l].meta.overwrites, i);
        assert l in out && Active(out[l]);
      }
    }
  }

  /** An index stays in an active span exactly when it was there and is not overwritten. */
  lemma ExactCoverage(records: Current, out: Current, k: string, i: int)
    requires CoveragePass(records, out) && k in records && Active(records[k])
    ensures SpanCovers(out[k], i) <==> SpanCovers(records[k], i) && !Overwritten(records, k, i)
  {
    CarvedCovers(records[k], out[k], Gone(records, k));
  }

  /** The first span counts as earlier: by its timestamp, 0 without one, and then by its key. */
  ghost predicate Precedes(r: Record, r2: Record) {
    var s := if r.timestamp == None then 0.0 else r.timestamp.value;
    var t := if r2.timestamp == None then 0.0 else r2.timestamp.value;
    s < t || (s == t && TextBefore(r.key, r2.key))
  }

  /** `l` names an active span of the group of `k`, of another run, that takes index `i` out of it. */
  ghost predicate TakenBy(records: Current, k: string, i: int, l: string)
    requires k in records
  {
    && l in records
    && records[l].kind == "span" && records[l].status == "active"
    && records[l].meta.group == records[k].meta.group
    && records[l].meta.runId != records[k].meta.runId
    && Precedes(records[k], records[l])
    && InRanges(records[l].meta.overwrites, i)
  }

  ghost predicate InRanges(ranges: seq<Range>, i: int) {
    exists n :: 0 <= n < |ranges| && (ranges[n].lo <= i <= ranges[n].hi || ranges[n].hi <= i <= ranges[n].lo)
  }

  ghost predicate SpanHas(r: Record, i: int) {
    r.span != None && InRanges(r.span.value.ranges, i)
  }

  /** Which indices every span keeps, in terms of the fields of the records alone. */
  ghost predicate KeepsExactly(records: Current, out: Current) {
    && out.Keys == records.Keys
    && forall k, i :: k in records ==>
         (SpanHas(out[k], i) <==>
            SpanHas(records[k], i)
            && (records[k].kind == "span" && records[k].status == "active" ==> !exists l :: TakenBy(records, k, i, l)))
  }

  lemma PrecedesIsLater(r: Record, r2: Record)
    requires r.key != r2.key
    ensures Precedes(r, r2) <==> Later(r2, r)
  {
    StringLeMeaning(r.key, r2.key);
    StringOrder(r.key, r2.key);
  }

  /** An active span loses an index exactly when a span that counts as later, of its group and another
      run, declares it overwritten; nothing else loses any. */
  lemma PassByTime(records: Current, out: Current)
    requires WellKeyed(records) && CoveragePass(records, out)
    ensures KeepsExactly(records, out)
  {
    hide Precedes, Later, Carved;
    forall k, i | k in records
      ensures SpanHas(out[k], i) <==>
                SpanHas(records[k], i)
                && (records[k].kind == "span" && records[k].status == "active" ==> !exists l :: TakenBy(records, k, i, l))
    {
      assert SpanHas(records[k], i) <==> SpanCovers(records[k], i);
      assert SpanHas(out[k], i) <==> SpanCovers(out[k], i);
      if Active(records[k]) {
        ExactCoverage(records, out, k, i);
        TakenIsOverwritten(records, k, i);
      }
    }
  }

  lemma TakenIsOverwritten(records: Current, k: string, i: int)
    requires WellKeyed(records) && k in records
    ensures (exists l :: TakenBy(records, k, i, l)) <==> Overwritten(records, k, i)
  {
    hide Precedes, Later;
    if l :| TakenBy(records, k, i, l) {
      PrecedesIsLater(records[k], records[l]);
      assert Active(records[l]) && CountsFor(records[l], records[k]) && Stands(records[l].meta.overwrites, i);
    }
    if Overwritten(records, k, i) {
      var l :| l in records && Active(records[l]) && Later(records[l], records[k]) && CountsFor(records[l], records[k])
        && Stands(records[l].meta.overwrites, i);
      PrecedesIsLater(records[k], records[l]);
      assert TakenBy(records, k, i, l);
    }
  }

  lemma PassIsUnique(records: Current, a: Current, b: Current)
    requires CoveragePass(records, a) && CoveragePass(records, b)
    ensures a == b
  {
    forall k | k in records ensures a[k] == b[k] {
      if Active(records[k]) {
        CarvedUnique(records[k], a[k], b[k], Gone(records, k));
      }
    }
  }

  /** A second pass changes nothing. */
  lemma PassIsIdempotent(records: Current, out: Current, again: Current)
    requires CoveragePass(records, out) && CoveragePass(out, again)
    ensures again == out
  {
    PassKeepsActive(records, out);
    forall k | k in out ensures again[k] == out[k] {
      PassKeepsGone(records, out, k);
      if Active(out[k]) {
        CarvedTwice(records[k], out[k], Gone(records, k));
        CarvedUnique(out[k], again[k], out[k], Gone(out, k));
      }
    }
  }

  /** `timestamps_written` is the number of indices the span covers. */
  ghost predicate CountsItsIndices(r: Record) {
    r.span.Some? ==> r.span.value.written == |IndexSet(Normalize(r.span.value.ranges))|
  }

  lemma PassKeepsCounts(records: Current, out: Current, k: string)
    requires CoveragePass(records, out) && k in records && CountsItsIndices(records[k])
    ensures CountsItsIndices(out[k])
  {
    if out[k] != records[k] {
      CanonicalStands(out[k].span.value.ranges);
      SizeCounts(out[k].span.value.ranges);
    }
  }

  // ---------------------------------------------------------------- the loops of the source

  /** Take `overwrites` out of the span of one record. */
  function SubtractFrom(r: Record, overwrites: seq<Range>): Record {
    if r.span.None? then r
    else
      var ranges := Normalize(r.span.value.ranges);
      var remaining := Subtract(ranges, overwrites);
      if ranges == [] || remaining == ranges then r
      else r.(span := Some(r.span.value.(ranges := remaining, written := Size(remaining))))
  }

  ghost function CoverSet(ranges: seq<Range>): iset<int> {
    iset i | Covers(ranges, i)
  }

  lemma SubtractFromCarves(r: Record, overwrites: seq<Range>)
    requires Canonical(overwrites)
    ensures Carved(r, SubtractFrom(r, overwrites), CoverSet(overwrites))
  {
    if r.span.Some? {
      var ranges := Normalize(r.span.value.ranges);
      var remaining := Subtract(ranges, overwrites);
      NormalizeMeaning(r.span.value.ranges);
      SubtractMeaning(ranges, overwrites);
      CanonicalStands(remaining);
      if forall i :: SpanCovers(r, i) ==> i !in CoverSet(overwrites) {
        forall i ensures Covers(remaining, i) <==> Covers(ranges, i) {
          assert Stands(r.span.value.ranges, i) <==> SpanCovers(r, i);
        }
        CanonicalUnique(remaining, ranges);
      } else {
        var i :| SpanCovers(r, i) && i in CoverSet(overwrites);
        assert Covers(ranges, i) && !Covers(remaining, i);
        assert SubtractFrom(r, overwrites).span.value.ranges == remaining;
      }
    }
  }

  method SubtractFromSpanPayload(r: Record, overwrites: seq<Range>) returns (r2: Record)
    ensures r2 == SubtractFrom(r, overwrites)
  {
    if r.span.None? {
      return r;
    }
    var ranges := NormalizeIndexRanges(r.span.value.ranges);
    if ranges == [] {
      return r;
    }
    var remaining := SubtractIndexRanges(ranges, overwrites);
    if remaining == ranges {
      return r;
    }
    var written := 0;
    for k := 0 to |remaining|
      invariant written == Size(remaining[..k])
    {
      assert remaining[..k + 1][..k] == remaining[..k];
      written := written + (remaining[k].hi - remaining[k].lo + 1);
    }
    assert remaining[..|remaining|] == remaining;
    r2 := r.(span := Some(r.span.value.(ranges := remaining, written := written)));
  }

  /** `listing` names every record once, in any order. */
  ghost predicate Lists(listing: seq<string>, records: Current) {
    && (forall k :: k in listing <==> k in records)
    && Distinct(listing)
  }

  function KeyIn(records: Current): string -> SortKey {
    k => if k in records then OrderKey(records[k]) else SortKey(0.0, "")
  }

  /** The active keys in the order of the pass. */
  ghost predicate PassOrder(records: Current, order: seq<string>) {
    && (forall k :: k in order <==> k in records && Active(records[k]))
    && (forall a, b :: 0 <= a < b < |order| ==>
          order[a] in records && order[b] in records && Later(records[order[b]], records[order[a]]))
  }

  ghost function StandSet(ranges: seq<Range>): iset<int> {
    iset i | Stands(ranges, i)
  }

  /** The indices that the spans at positions below `n` take out of the earlier span `k`. */
  ghost function GoneTo(records: Current, order: seq<string>, n: nat, k: string): iset<int>
    requires n <= |order| && k in records && PassOrder(records, order)
  {
    if n == 0 then iset{}
    else if k in order[..n - 1] && CountsFor(records[order[n - 1]], records[k]) then
      GoneTo(records, order, n - 1, k) + StandSet(records[order[n - 1]].meta.overwrites)
    else GoneTo(records, order, n - 1, k)
  }

  method SortActive(records: Current, listing: seq<string>) returns (order: seq<string>)
    requires WellKeyed(records) && Lists(listing, records)
    ensures PassOrder(records, order) && TimeOrder(records, order)
  {
    var active := [];
    for n := 0 to |listing|
      invariant forall k :: k in active <==> k in listing[..n] && Active(records[k])
      invariant Distinct(active)
    {
      assert listing[..n + 1] == listing[..n] + [listing[n]];
      if Active(records[listing[n]]) {
        active := active + [listing[n]];
      }
    }
    assert listing[..|listing|] == listing;
    order := Sort(active, KeyIn(records));
    SortSorts(active, KeyIn(records));
    OrderIsStrict(records, active, order);
    OrderedByTime(records, order);
  }

  /** Exactly the active spans, each after those that count as earlier. */
  ghost predicate TimeOrder(records: Current, order: seq<string>) {
    && (forall k :: k in order <==> k in records && records[k].kind == "span" && records[k].status == "active")
    && (forall a, b :: 0 <= a < b < |order| ==>
          order[a] in records && order[b] in records && Precedes(records[order[a]], records[order[b]]))
  }

  lemma OrderedByTime(records: Current, order: seq<string>)
    requires WellKeyed(records) && PassOrder(records, order)
    ensures TimeOrder(records, order)
  {
    hide Precedes;
    forall a, b | 0 <= a < b < |order|
      ensures order[a] in records && order[b] in records && Precedes(records[order[a]], records[order[b]])
    {
      PrecedesIsLater(records[order[a]], records[order[b]]);
    }
  }

  lemma OrderIsStrict(records: Current, active: seq<string>, order: seq<string>)
    requires WellKeyed(records) && IsSorted(order, KeyIn(records)) && multiset(order) == multiset(active)
    requires forall k :: k in active <==> k in records && Active(records[k])
    requires Distinct(active)
    ensures PassOrder(records, order)
  {
    forall k ensures k in order <==> k in active {
      assert k in order <==> k in multiset(order);
    }
    DistinctListing(active, order);
  }

  /** `priorByGroup` lists, group by group, the spans at positions below `n`. */
  ghost predicate PriorLists(records: Current, order: seq<string>, n: nat, priorByGroup: map<string, seq<string>>)
    requires n <= |order| && PassOrder(records, order)
  {
    && (forall g, k :: g in priorByGroup && k in priorByGroup[g] ==> k in order[..n] && records[k].meta.group == g)
    && (forall k :: k in order[..n] ==>
          records[k].meta.group in priorByGroup && k in priorByGroup[records[k].meta.group])
    && (forall g :: g in priorByGroup ==> Distinct(priorByGroup[g]))
  }

  /** The spans after the first `n` of the order have taken their part out of `records`. */
  ghost predicate CarvedTo(records: Current, order: seq<string>, n: nat, out: Current)
    requires n <= |order| && PassOrder(records, order)
  {
    && out.Keys == records.Keys
    && forall k :: k in records ==>
         if k in order then Carved(records[k], out[k], GoneTo(records, order, n, k)) else out[k] == records[k]
  }

  /** One span takes `overwrites` out of the prior spans of its group that another run wrote. */
  method SubtractFromPriors(records: Current, record: Record, prior: seq<string>, overwrites: seq<Range>)
    returns (out: Current)
    requires Distinct(prior) && forall k :: k in prior ==> k in records
    ensures out.Keys == records.Keys
    ensures forall k :: k in records ==>
              out[k] == if k in prior && records[k].meta.runId != record.meta.runId then SubtractFrom(records[k], overwrites)
                        else records[k]
  {
    out := records;
    for j := 0 to |prior|
      invariant out.Keys == records.Keys
      invariant forall k :: k in records ==>
                  out[k] == if k in prior[..j] && records[k].meta.runId != record.meta.runId
                            then SubtractFrom(records[k], overwrites) else records[k]
    {
      assert prior[..j + 1] == prior[..j] + [prior[j]];
      if out[prior[j]].meta.runId == record.meta.runId {
        continue;
      }
      var carved := SubtractFromSpanPayload(out[prior[j]], overwrites);
      out := out[prior[j] := carved];
    }
    assert prior[..|prior|] == prior;
  }

  /** `prior` lists the spans at positions below `n` of the group of the span at `n`. */
  ghost predicate IsPrior(records: Current, order: seq<string>, n: nat, prior: seq<string>)
    requires n < |order| && PassOrder(records, order)
  {
    && Distinct(prior)
    && forall k :: k in prior <==> k in order[..n] && records[k].meta.group == records[order[n]].meta.group
  }

  /** One turn of the pass: the span at position `n` and the prior spans of its group. */
  method ApplySpan(ghost records: Current, ghost order: seq<string>, ghost n: nat, current: Current, record: Record,
                   prior: seq<string>)
    returns (out: Current)
    requires PassOrder(records, order) && n < |order|
    requires CarvedTo(records, order, n, current) && IsPrior(records, order, n, prior)
    requires record.meta == records[order[n]].meta
    ensures CarvedTo(records, order, n + 1, out)
  {
    var overwrites := NormalizeIndexRanges(record.meta.overwrites);
    out := current;
    assert forall k :: k in order[..n] ==> k in order;
    if overwrites != [] {
      out := SubtractFromPriors(current, record, prior, overwrites);
    }
    OneMoreSpan(records, order, n, current, out, prior, overwrites);
  }

  method ApplyOverwriteRangesToActiveCoverage(records: Current, listing: seq<string>) returns (out: Current)
    requires WellKeyed(records) && Lists(listing, records)
    ensures CoveragePass(records, out) && KeepsExactly(records, out)
  {
    var order := SortActive(records, listing);
    out := records;
    var priorByGroup: map<string, seq<string>> := map[];
    NoSpanTaken(records, order);
    for n := 0 to |order|
      invariant CarvedTo(records, order, n, out)
      invariant PriorLists(records, order, n, priorByGroup)
    {
      CarvingKeepsMeta(records, order, n, out);
      var record := out[order[n]];
      var group := record.meta.group;
      var prior := if group in priorByGroup then priorByGroup[group] else [];
      PriorOf(records, order, n, priorByGroup, prior);
      OneMorePrior(records, order, n, priorByGroup, prior);
      out := ApplySpan(records, order, n, out, record, prior);
      priorByGroup := priorByGroup[group := prior + [order[n]]];
    }
    AllSpansTaken(records, order, out);
    PassByTime(records, out);
  }

  lemma NoSpanTaken(records: Current, order: seq<string>)
    requires PassOrder(records, order)
    ensures CarvedTo(records, order, 0, records) && PriorLists(records, order, 0, map[])
  {
  }

  lemma CarvingKeepsMeta(records: Current, order: seq<string>, n: nat, out: Current)
    requires PassOrder(records, order) && n < |order| && CarvedTo(records, order, n, out)
    ensures order[n] in out && out[order[n]].meta == records[order[n]].meta
  {
    assert order[n] in order;
    assert Carved(records[order[n]], out[order[n]], GoneTo(records, order, n, order[n]));
  }

  lemma AllSpansTaken(records: Current, order: seq<string>, out: Current)
    requires PassOrder(records, order) && CarvedTo(records, order, |order|, out)
    ensures CoveragePass(records, out)
  {
    forall k | k in records && Active(records[k]) ensures Carved(records[k], out[k], Gone(records, k)) {
      GoneToAll(records, order, k);
    }
  }

  lemma PriorOf(records: Current, order: seq<string>, n: nat, priorByGroup: map<string, seq<string>>, prior: seq<string>)
    requires PassOrder(records, order) && n < |order|
    requires PriorLists(records, order, n, priorByGroup)
    requires prior == var group := records[order[n]].meta.group; if group in priorByGroup then priorByGroup[group] else []
    ensures IsPrior(records, order, n, prior)
  {
  }

  lemma OneMorePrior(records: Current, order: seq<string>, n: nat, priorByGroup: map<string, seq<string>>,
                     prior: seq<string>)
    requires PassOrder(records, order) && n < |order|
    requires PriorLists(records, order, n, priorByGroup)
    requires prior == var group := records[order[n]].meta.group; if group in priorByGroup then priorByGroup[group] else []
    ensures PriorLists(records, order, n + 1, priorByGroup[records[order[n]].meta.group := prior + [order[n]]])
  {
    assert order[..n + 1] == order[..n] + [order[n]];
    DistinctOrder(records, order);
    assert order[n] !in order[..n];
  }

  lemma DistinctOrder(records: Current, order: seq<string>)
    requires PassOrder(records, order)
    ensures Distinct(order)
  {
  }

  /** One span of the order takes its overwritten ranges out of each earlier span it counts for. */
  lemma OneMoreSpan(records: Current, order: seq<string>, n: nat, before: Current, after: Current, prior: seq<string>,
                    overwrites: seq<Range>)
    requires PassOrder(records, order) && n < |order|
    requires CarvedTo(records, order, n, before) && after.Keys == records.Keys
    requires IsPrior(records, order, n, prior)
    requires overwrites == Normalize(records[order[n]].meta.overwrites)
    requires forall k :: k in before ==>
               after[k] == if k in prior && before[k].meta.runId != records[order[n]].meta.runId && overwrites != []
                           then SubtractFrom(before[k], overwrites) else before[k]
    ensures CarvedTo(records, order, n + 1, after)
  {
    NormalizeMeaning(records[order[n]].meta.overwrites);
    assert StandSet(records[order[n]].meta.overwrites) == CoverSet(overwrites);
    forall k | k in order ensures Carved(records[k], after[k], GoneTo(records, order, n + 1, k)) {
      if k in order[..n] && CountsFor(records[order[n]], records[k]) {
        SubtractFromCarves(before[k], overwrites);
        CarvedNone(before[k], overwrites);
        CarvedCompose(records[k], before[k], after[k], GoneTo(records, order, n, k), CoverSet(overwrites));
      }
    }
  }

  lemma CarvedNone(r: Record, overwrites: seq<Range>)
    ensures overwrites == [] ==> Carved(r, r, CoverSet(overwrites))
  {
  }

  lemma {:induction false} GoneToMeaning(records: Current, order: seq<string>, n: nat, k: string, i: int)
    requires PassOrder(records, order) && n <= |order| && k in order
    ensures i in GoneTo(records, order, n, k) <==>
            exists m :: 0 <= m < n && k in order[..m] && CountsFor(records[order[m]], records[k])
                        && Stands(records[order[m]].meta.overwrites, i)
  {
    if n > 0 {
      GoneToMeaning(records, order, n - 1, k, i);
    }
  }

  lemma GoneToAll(records: Current, order: seq<string>, k: string)
    requires PassOrder(records, order) && k in order
    ensures GoneTo(records, order, |order|, k) == Gone(records, k)
  {
    forall i ensures i in GoneTo(records, order, |order|, k) <==> i in Gone(records, k) {
      GoneToMeaning(records, order, |order|, k, i);
      if Overwritten(records, k, i) {
        var l :| l in records && Active(records[l]) && Later(records[l], records[k]) && CountsFor(records[l], records[k])
          && Stands(records[l].meta.overwrites, i);
        var m :| 0 <= m < |order| && order[m] == l;
        LaterIsAfter(records, order, k, m);
      }
      if i in GoneTo(records, order, |order|, k) {
        var m :| 0 <= m < |order| && k in order[..m] && CountsFor(records[order[m]], records[k])
          && Stands(records[order[m]].meta.overwrites, i);
        assert order[m] in order && Later(records[order[m]], records[k]);
      }
    }
  }

  lemma LaterIsAfter(records: Current, order: seq<string>, k: string, m: nat)
    requires PassOrder(records, order) && k in order && m < |order| && Later(records[order[m]], records[k])
    ensures k in order[..m]
  {
    var p :| 0 <= p < |order| && order[p] == k;
    KeyOrder(OrderKey(records[order[m]]), OrderKey(records[k]));
    if p < m {
      assert order[..m][p] == k;
    }
  }
}
