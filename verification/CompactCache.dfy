/** Reading the current state through the compact cache, against replaying every complete run. */
module CompactCache {
  import opened Ordering
  import opened Ranges
  import opened Sequences
  import opened Wrappers
  import opened ControlRecords
  import opened EventProcessor
  import opened Coverage

  /** A run entry; `log` is `None` where reading its events raises. */
  datatype Run = Run(runId: string, status: string, completedAt: real, log: Option<seq<Event>>)

  /** What reading the files named by `LATEST.json` comes to. */
  datatype CacheFile =
    | NoPaths
    | Missing
    | MetaNotJson
    | MetaWrongSchema
    | BadLine
    | Records(records: seq<Record>)

  /** What reading `LATEST.json` comes to. */
  datatype Latest =
    | NoLatest
    | LatestUnreadable
    | LatestWrongSchema
    | LatestFile(cutoff: real, cache: CacheFile)

  predicate IsComplete(r: Run) {
    r.status == "complete"
  }

  function RunKey(r: Run): SortKey {
    SortKey(r.completedAt, r.runId)
  }

  function CompleteRuns(runs: seq<Run>): seq<Run> {
    Filter(runs, IsComplete)
  }

  function From(cutoff: real): Run -> bool {
    (r: Run) => r.completedAt >= cutoff
  }

  function Before(cutoff: real): Run -> bool {
    (r: Run) => r.completedAt < cutoff
  }

  function SortedCompleteRuns(runs: seq<Run>): seq<Run> {
    Sort(CompleteRuns(runs), RunKey)
  }

  // ---------------------------------------------------------------- replay

  ghost predicate Readable(r: Run) {
    r.log.Some? && AllSupported(r.log.value)
  }

  ghost predicate AllReadable(runs: seq<Run>) {
    forall r :: r in runs ==> Readable(r)
  }

  function Events(runs: seq<Run>): seq<Event> {
    if runs == [] then []
    else Events(runs[..|runs| - 1]) + (if runs[|runs| - 1].log.Some? then runs[|runs| - 1].log.value else [])
  }

  /** Replay the runs in their order on top of `start`; one unreadable run fails the whole. */
  ghost function Replay(start: Current, runs: seq<Run>): Option<Current> {
    if AllReadable(runs) then Some(ApplyAll(start, Events(runs))) else None
  }

  /** The reference: every complete run, from nothing. */
  ghost function FullReplay(runs: seq<Run>): Option<Current> {
    Replay(map[], SortedCompleteRuns(runs))
  }

  lemma {:induction false} EventsConcat(a: seq<Run>, b: seq<Run>)
    ensures Events(a + b) == Events(a) + Events(b)
  {
    if b == [] {
      assert a + b == a;
    } else {
      var n := |b| - 1;
      EventsConcat(a, b[..n]);
      assert (a + b)[..|a + b| - 1] == a + b[..n];
    }
  }

  lemma {:induction false} EventsOf(runs: seq<Run>, e: Event)
    ensures e in Events(runs) <==> exists r :: r in runs && r.log.Some? && e in r.log.value
  {
    if runs != [] {
      var n := |runs| - 1;
      EventsOf(runs[..n], e);
      assert runs == runs[..n] + [runs[n]];
    }
  }

  // ---------------------------------------------------------------- filtering and sorting

  lemma FilterOfListing(a: seq<Run>, b: seq<Run>, keep: Run -> bool)
    requires multiset(a) == multiset(b)
    ensures multiset(Filter(a, keep)) == multiset(Filter(b, keep))
  {
    forall x ensures multiset(Filter(a, keep))[x] == multiset(Filter(b, keep))[x] {
      FilterMeaning(a, keep, x);
      FilterMeaning(b, keep, x);
    }
  }

  /** A listing is the runs before the cutoff and the runs from it on. */
  lemma SplitAtCutoff(runs: seq<Run>, cutoff: real)
    ensures multiset(Filter(runs, Before(cutoff)) + Filter(runs, From(cutoff))) == multiset(runs)
  {
    var low, high := Filter(runs, Before(cutoff)), Filter(runs, From(cutoff));
    forall r ensures multiset(low + high)[r] == multiset(runs)[r] {
      FilterMeaning(runs, Before(cutoff), r);
      FilterMeaning(runs, From(cutoff), r);
    }
  }

  /** Sorting splits at the cutoff. */
  lemma SortSplits(runs: seq<Run>, cutoff: real)
    requires Keyed(runs, RunKey)
    ensures Sort(runs, RunKey) == Sort(Filter(runs, Before(cutoff)), RunKey) + Sort(Filter(runs, From(cutoff)), RunKey)
  {
    var low, high := Filter(runs, Before(cutoff)), Filter(runs, From(cutoff));
    var a, b := Sort(low, RunKey), Sort(high, RunKey);
    SortSorts(runs, RunKey);
    SortSorts(low, RunKey);
    SortSorts(high, RunKey);
    SplitAtCutoff(runs, cutoff);
    forall i, j | 0 <= i < j < |a + b| ensures KeyLe(RunKey((a + b)[i]), RunKey((a + b)[j])) {
      if i < |a| <= j {
        InSort(low, a[i], RunKey);
        InSort(high, b[j - |a|], RunKey);
        FilterIn(runs, Before(cutoff), a[i]);
        FilterIn(runs, From(cutoff), b[j - |a|]);
      }
    }
    KeyedOfListing(runs, Sort(runs, RunKey), RunKey);
    SortedIsUnique(Sort(runs, RunKey), a + b, RunKey);
  }

  // ---------------------------------------------------------------- saving and loading records

  /** The map a list of records loads to: later lines win, lines without a key are left out. */
  function FromRecords(records: seq<Record>): Current {
    if records == [] then map[]
    else
      var r := records[|records| - 1];
      var m := FromRecords(records[..|records| - 1]);
      if r.key != "" then m[r.key := r] else m
  }

  /** `records` lists the values of `m`. */
  ghost predicate Saves(records: seq<Record>, m: Current) {
    && (forall k :: k in m ==> m[k] in records)
    && (forall r :: r in records ==> r.key in m && m[r.key] == r)
  }

  lemma {:induction false} FromRecordsAt(records: seq<Record>, k: string)
    ensures k in FromRecords(records) <==> k != "" && exists r :: r in records && r.key == k
    ensures k in FromRecords(records) ==> FromRecords(records)[k] in records && FromRecords(records)[k].key == k
  {
    if records != [] {
      var n := |records| - 1;
      FromRecordsAt(records[..n], k);
      assert records == records[..n] + [records[n]];
    }
  }

  /** Saving a state and loading it back gives the state. */
  lemma SavedLoads(records: seq<Record>, m: Current)
    requires WellKeyed(m) && Saves(records, m)
    ensures FromRecords(records) == m
  {
    forall k ensures Get(FromRecords(records), k) == Get(m, k) {
      FromRecordsAt(records, k);
      if k in m {
        assert m[k] in records && m[k].key == k;
      }
    }
    SameGets(FromRecords(records), m);
  }

  // ---------------------------------------------------------------- the cached read

  /** The cached read: what it starts from and which runs it replays. */
  ghost function CachedRead(runs: seq<Run>, latest: Latest): Option<Current> {
    match latest
    case LatestWrongSchema => None
    case LatestFile(_, MetaNotJson) => None
    case LatestFile(cutoff, Records(records)) =>
      Replay(FromRecords(records), Sort(Filter(CompleteRuns(runs), From(cutoff)), RunKey))
    case _ => FullReplay(runs)
  }

  /** A cache that is not there or cannot be used changes nothing: the read falls back to a full replay,
      or fails where the pointer has another schema version or the cache's own metadata is no JSON. */
  lemma UnusableCacheIsHarmless(runs: seq<Run>, latest: Latest)
    requires forall cutoff, records :: latest != LatestFile(cutoff, Records(records))
    ensures CachedRead(runs, latest) == FullReplay(runs) || CachedRead(runs, latest).None?
    ensures CachedRead(runs, latest).None? <==>
              FullReplay(runs).None? || latest == LatestWrongSchema
              || (latest.LatestFile? && latest.cache == MetaNotJson)
  {
  }

  /** `cached` are the complete runs before the cutoff and some of those exactly at it. */
  ghost predicate CachesUpTo(cached: seq<Run>, runs: seq<Run>, cutoff: real) {
    && multiset(Filter(cached, Before(cutoff))) == multiset(Filter(CompleteRuns(runs), Before(cutoff)))
    && forall r :: r in Filter(cached, From(cutoff)) ==> r in Filter(CompleteRuns(runs), From(cutoff))
  }

  lemma KeyedPart(runs: seq<Run>, keep: Run -> bool)
    requires Keyed(runs, RunKey)
    ensures Keyed(Filter(runs, keep), RunKey)
  {
    var part := Filter(runs, keep);
    forall i, j | 0 <= i < |part| && 0 <= j < |part| && RunKey(part[i]) == RunKey(part[j]) ensures part[i] == part[j] {
      FilterIn(runs, keep, part[i]);
      FilterIn(runs, keep, part[j]);
      SameElement(runs, part[i], part[j], RunKey);
    }
  }

  /** Replaying on top of the cached runs ends where replaying everything ends. */
  lemma ReplayOnCached(cached: seq<Run>, runs: seq<Run>, cutoff: real)
    requires Keyed(runs, RunKey) && Keyed(cached, RunKey) && CachesUpTo(cached, runs, cutoff)
    ensures var later := Sort(Filter(CompleteRuns(runs), From(cutoff)), RunKey);
            ApplyAll(ApplyAll(map[], Events(Sort(cached, RunKey))), Events(later))
            == ApplyAll(map[], Events(SortedCompleteRuns(runs)))
  {
    var complete := CompleteRuns(runs);
    var before := Sort(Filter(complete, Before(cutoff)), RunKey);
    var later := Sort(Filter(complete, From(cutoff)), RunKey);
    var again := Sort(Filter(cached, From(cutoff)), RunKey);
    KeyedPart(runs, IsComplete);
    KeyedPart(complete, Before(cutoff));
    SortSplits(complete, cutoff);
    SortSplits(cached, cutoff);
    SortIgnoresListing(Filter(complete, Before(cutoff)), Filter(cached, Before(cutoff)), RunKey);
    EventsConcat(before, later);
    EventsConcat(before, again);
    ApplyAllConcat(map[], Events(before), Events(later));
    ApplyAllConcat(map[], Events(before), Events(again));
    forall e | e in Events(again) ensures e in Events(later) {
      EventsOf(again, e);
      var r :| r in again && r.log.Some? && e in r.log.value;
      InSort(Filter(cached, From(cutoff)), r, RunKey);
      InSort(Filter(complete, From(cutoff)), r, RunKey);
      EventsOf(later, e);
    }
    RedundantReplay(ApplyAll(map[], Events(before)), Events(again), Events(later));
  }

  lemma SortedReadable(runs: seq<Run>)
    ensures AllReadable(Sort(runs, RunKey)) <==> AllReadable(runs)
  {
    forall r ensures r in Sort(runs, RunKey) <==> r in runs {
      InSort(runs, r, RunKey);
    }
  }

  /** Where every complete run can be read, both reads end in a state. */
  lemma BothReads(runs: seq<Run>, cutoff: real, records: seq<Record>)
    requires AllReadable(CompleteRuns(runs))
    ensures FullReplay(runs) == Some(ApplyAll(map[], Events(SortedCompleteRuns(runs))))
    ensures CachedRead(runs, LatestFile(cutoff, Records(records)))
            == Some(ApplyAll(FromRecords(records), Events(Sort(Filter(CompleteRuns(runs), From(cutoff)), RunKey))))
  {
    var later := Filter(CompleteRuns(runs), From(cutoff));
    SortedReadable(CompleteRuns(runs));
    SortedReadable(later);
    forall r | r in later ensures Readable(r) {
      FilterIn(CompleteRuns(runs), From(cutoff), r);
    }
  }

  lemma FullReplayIgnoresListing(a: seq<Run>, b: seq<Run>)
    requires Keyed(a, RunKey) && multiset(a) == multiset(b)
    ensures FullReplay(a) == FullReplay(b)
  {
    FilterOfListing(a, b, IsComplete);
    KeyedPart(a, IsComplete);
    SortIgnoresListing(CompleteRuns(a), CompleteRuns(b), RunKey);
  }

  lemma {:induction false} FilterConcat(a: seq<Run>, b: seq<Run>, keep: Run -> bool)
    ensures Filter(a + b, keep) == Filter(a, keep) + Filter(b, keep)
  {
    if a == [] {
      assert a + b == b;
    } else {
      FilterConcat(a[1..], b, keep);
      assert (a + b)[1..] == a[1..] + b;
    }
  }

  /** Neither way to read the control plane changes when the run is left out. */
  ghost predicate LeavesNoTrace(r: Run, a: seq<Run>, b: seq<Run>, latest: Latest) {
    FullReplay(a + [r] + b) == FullReplay(a + b) && CachedRead(a + [r] + b, latest) == CachedRead(a + b, latest)
  }

  /** A run that is not complete, an abandoned one say, is in no projection. */
  lemma IncompleteRunIsIgnored(a: seq<Run>, r: Run, b: seq<Run>, latest: Latest)
    requires !IsComplete(r)
    ensures LeavesNoTrace(r, a, b, latest)
  {
    FilterConcat(a + [r], b, IsComplete);
    FilterConcat(a, [r], IsComplete);
    FilterConcat(a, b, IsComplete);
    assert [r][1..] == [] && Filter([r], IsComplete) == [];
    assert CompleteRuns(a + [r] + b) == CompleteRuns(a) + [] + CompleteRuns(b) == CompleteRuns(a + b);
  }

  /** A cache of the raw projection gives the state of the full replay, whatever order the runs are
      listed in. */
  lemma CachedReadRefinesFullReplay(runs: seq<Run>, listing: seq<Run>, cutoff: real, cached: seq<Run>,
                                    records: seq<Record>)
    requires Keyed(runs, RunKey) && Keyed(cached, RunKey) && multiset(runs) == multiset(listing)
    requires CachesUpTo(cached, runs, cutoff)
    requires Saves(records, ApplyAll(map[], Events(Sort(cached, RunKey))))
    requires AllReadable(CompleteRuns(runs))
    ensures CachedRead(runs, LatestFile(cutoff, Records(records))) == FullReplay(listing)
    ensures FullReplay(listing).Some?
  {
    ApplyAllKeepsKeys(map[], Events(Sort(cached, RunKey)));
    SavedLoads(records, ApplyAll(map[], Events(Sort(cached, RunKey))));
    ReplayOnCached(cached, runs, cutoff);
    BothReads(runs, cutoff, records);
    FullReplayIgnoresListing(runs, listing);
  }

  // ---------------------------------------------------------------- baked coverage

  /** A record without the two fields the coverage pass rewrites. */
  function Bare(r: Record): Record {
    if r.span.None? then r else r.(span := Some(r.span.value.(ranges := [], written := 0)))
  }

  ghost predicate Twins(x: Option<Record>, y: Option<Record>) {
    (x.None? && y.None?) || (x.Some? && y.Some? && Bare(x.value) == Bare(y.value))
  }

  lemma {:induction false} EventsKeepTwins(x: Option<Record>, y: Option<Record>, events: seq<Event>, k: string)
    requires Twins(x, y)
    ensures Twins(EffectAll(x, events, k), EffectAll(y, events, k))
    ensures SomeUpserts(events, k) ==> EffectAll(x, events, k) == EffectAll(y, events, k)
    ensures !SomeUpserts(events, k) ==> SameUnmarked(x, EffectAll(x, events, k))
  {
    if SomeUpserts(events, k) {
      UpsertForgets(x, y, events, k);
    } else {
      MarksKeepTheRest(x, events, k);
    }
    if events != [] {
      EventsKeepTwins(x, y, events[..|events| - 1], k);
    }
  }

  ghost predicate TwinStates(a: Current, b: Current) {
    a.Keys == b.Keys && forall k :: k in a ==> Bare(a[k]) == Bare(b[k])
  }

  lemma PassMakesTwins(records: Current, out: Current)
    requires CoveragePass(records, out)
    ensures TwinStates(records, out)
  {
    forall k | k in records ensures Bare(records[k]) == Bare(out[k]) {
      if Active(records[k]) {
        CarvedIsBare(records[k], out[k], Gone(records, k));
      }
    }
  }

  lemma CarvedIsBare(r: Record, r2: Record, gone: iset<int>)
    requires Carved(r, r2, gone)
    ensures Bare(r) == Bare(r2)
  {
  }

  lemma ReplayKeepsTwins(a: Current, b: Current, events: seq<Event>)
    requires TwinStates(a, b)
    ensures TwinStates(ApplyAll(a, events), ApplyAll(b, events))
  {
    var fa, fb := ApplyAll(a, events), ApplyAll(b, events);
    forall k ensures Twins(Get(fa, k), Get(fb, k)) {
      ApplyAllAt(a, events, k);
      ApplyAllAt(b, events, k);
      EventsKeepTwins(Get(a, k), Get(b, k), events, k);
    }
    forall k ensures k in fa <==> k in fb {
      assert Twins(Get(fa, k), Get(fb, k));
    }
    forall k | k in fa ensures Bare(fa[k]) == Bare(fb[k]) {
      assert Twins(Get(fa, k), Get(fb, k));
    }
  }

  lemma BareDecides(r: Record, r2: Record)
    requires Bare(r) == Bare(r2)
    ensures Active(r) == Active(r2) && OrderKey(r) == OrderKey(r2) && r.meta == r2.meta
  {
  }

  lemma TwinsOverwritten(a: Current, b: Current, k: string, i: int)
    requires TwinStates(a, b) && k in a && Overwritten(a, k, i)
    ensures Overwritten(b, k, i)
  {
    var l :| l in a && Active(a[l]) && Later(a[l], a[k]) && CountsFor(a[l], a[k]) && Stands(a[l].meta.overwrites, i);
    BareDecides(a[l], b[l]);
    BareDecides(a[k], b[k]);
  }

  lemma TwinsOverwrittenBoth(a: Current, b: Current, k: string, i: int)
    requires TwinStates(a, b) && k in a
    ensures Overwritten(a, k, i) <==> Overwritten(b, k, i)
  {
    if Overwritten(a, k, i) { TwinsOverwritten(a, b, k, i); }
    if Overwritten(b, k, i) { TwinsOverwritten(b, a, k, i); }
  }

  /** Index `i` is in the coverage of the active span `k`. */
  ghost predicate ActiveCovers(m: Current, k: string, i: int) {
    k in m && Active(m[k]) && SpanCovers(m[k], i)
  }

  ghost predicate SameCoverage(a: Current, b: Current) {
    forall k, i :: ActiveCovers(a, k, i) <==> ActiveCovers(b, k, i)
  }

  /** An index that the pass took out of span `k` at the time of the cache, and that the later
      events neither bring back with a new record of `k` nor have overwritten in the end. */
  ghost predicate LostInCache(raw: Current, events: seq<Event>, k: string, i: int) {
    && k in raw && Active(raw[k]) && SpanCovers(raw[k], i) && Overwritten(raw, k, i)
    && !SomeUpserts(events, k)
    && var end := ApplyAll(raw, events);
       k in end && Active(end[k]) && !Overwritten(end, k, i)
  }

  lemma UntouchedSpan(m: Current, events: seq<Event>, k: string)
    requires !SomeUpserts(events, k)
    ensures var end := ApplyAll(m, events);
            k in end && Active(end[k]) ==> k in m && end[k].span == m[k].span && (!SomeMarks(events, k) ==> end[k] == m[k])
  {
    ApplyAllAt(m, events, k);
    MarksKeepTheRest(Get(m, k), events, k);
    var end := ApplyAll(m, events);
    assert Get(end, k) == EffectAll(Get(m, k), events, k);
  }

  lemma {:induction false} MarkedIsReplaced(x: Option<Record>, events: seq<Event>, k: string)
    requires !SomeUpserts(events, k) && SomeMarks(events, k)
    ensures EffectAll(x, events, k).Some? ==> EffectAll(x, events, k).value.status == "replaced"
  {
    var n := |events| - 1;
    assert events[n] in events && forall e :: e in events[..n] ==> e in events;
    if !Marks(events[n], k) {
      var e :| e in events && Marks(e, k);
      LastOf(events, e);
      MarkedIsReplaced(x, events[..n], k);
    }
  }

  /** A span that is active in the end and has no new record was active all along. */
  lemma ActiveAllAlong(m: Current, events: seq<Event>, k: string)
    requires !SomeUpserts(events, k)
    requires k in ApplyAll(m, events) && Active(ApplyAll(m, events)[k])
    ensures k in m && ApplyAll(m, events)[k] == m[k]
  {
    UntouchedSpan(m, events, k);
    if SomeMarks(events, k) {
      ApplyAllAt(m, events, k);
      MarkedIsReplaced(Get(m, k), events, k);
    }
  }

  /** The coverage of one key, through the cache and from the full replay. */
  lemma BakedCoverageAt(raw: Current, baked: Current, events: seq<Event>, viaCache: Current, viaReplay: Current,
                        k: string, i: int)
    requires CoveragePass(raw, baked)
    requires CoveragePass(ApplyAll(baked, events), viaCache) && CoveragePass(ApplyAll(raw, events), viaReplay)
    ensures ActiveCovers(viaCache, k, i) <==> ActiveCovers(viaReplay, k, i) && !LostInCache(raw, events, k, i)
  {
    var endBaked, endRaw := ApplyAll(baked, events), ApplyAll(raw, events);
    PassMakesTwins(raw, baked);
    ReplayKeepsTwins(raw, baked, events);
    PassKeepsActive(endBaked, viaCache);
    PassKeepsActive(endRaw, viaReplay);
    if k in endRaw && Active(endRaw[k]) {
      BareDecides(endRaw[k], endBaked[k]);
      ExactCoverage(endBaked, viaCache, k, i);
      ExactCoverage(endRaw, viaReplay, k, i);
      TwinsOverwrittenBoth(endRaw, endBaked, k, i);
      ApplyAllAt(raw, events, k);
      ApplyAllAt(baked, events, k);
      if SomeUpserts(events, k) {
        UpsertForgets(Get(raw, k), Get(baked, k), events, k);
        assert Get(endRaw, k) == Get(endBaked, k);
      } else {
        ActiveAllAlong(raw, events, k);
        ActiveAllAlong(baked, events, k);
        ExactCoverage(raw, baked, k, i);
      }
    } else if k in endRaw {
      BareDecides(endRaw[k], endBaked[k]);
    }
  }

  /** Replaying on records that already went through the pass gives the coverage of a full replay
      exactly when no index the pass took out stays lost. */
  lemma BakedCoverage(raw: Current, baked: Current, events: seq<Event>, viaCache: Current, viaReplay: Current)
    requires CoveragePass(raw, baked)
    requires CoveragePass(ApplyAll(baked, events), viaCache) && CoveragePass(ApplyAll(raw, events), viaReplay)
    ensures SameCoverage(viaCache, viaReplay) <==> forall k, i :: !LostInCache(raw, events, k, i)
  {
    forall k, i
      ensures ActiveCovers(viaCache, k, i) <==> ActiveCovers(viaReplay, k, i) && !LostInCache(raw, events, k, i)
    {
      BakedCoverageAt(raw, baked, events, viaCache, viaReplay, k, i);
    }
    forall k, i | LostInCache(raw, events, k, i) ensures ActiveCovers(viaReplay, k, i) {
      LostIsCovered(raw, events, viaReplay, k, i);
    }
  }

  lemma LostIsCovered(raw: Current, events: seq<Event>, viaReplay: Current, k: string, i: int)
    requires CoveragePass(ApplyAll(raw, events), viaReplay) && LostInCache(raw, events, k, i)
    ensures ActiveCovers(viaReplay, k, i)
  {
    ActiveAllAlong(raw, events, k);
    PassKeepsActive(ApplyAll(raw, events), viaReplay);
    ExactCoverage(ApplyAll(raw, events), viaReplay, k, i);
  }

  /** Every span that declares overwritten ranges and is active at the time of the cache is the same
      record in the end. */
  ghost predicate OverwritersKept(raw: Current, events: seq<Event>) {
    forall l :: l in raw && Active(raw[l]) && raw[l].meta.overwrites != [] ==>
                  l in ApplyAll(raw, events) && ApplyAll(raw, events)[l] == raw[l]
  }

  lemma KeptStaysOverwritten(raw: Current, events: seq<Event>, k: string, i: int)
    requires OverwritersKept(raw, events) && k in raw && Overwritten(raw, k, i)
    requires k in ApplyAll(raw, events) && ApplyAll(raw, events)[k] == raw[k]
    ensures Overwritten(ApplyAll(raw, events), k, i)
  {
    var l :| l in raw && Active(raw[l]) && Later(raw[l], raw[k]) && CountsFor(raw[l], raw[k])
      && Stands(raw[l].meta.overwrites, i);
    assert raw[l].meta.overwrites != [];
    assert ApplyAll(raw, events)[l] == raw[l];
  }

  lemma KeptOverwritersLoseNothing(raw: Current, events: seq<Event>, k: string, i: int)
    requires OverwritersKept(raw, events)
    ensures !LostInCache(raw, events, k, i)
  {
    var end := ApplyAll(raw, events);
    if !SomeUpserts(events, k) && k in end && Active(end[k]) {
      ActiveAllAlong(raw, events, k);
      if Overwritten(raw, k, i) {
        KeptStaysOverwritten(raw, events, k, i);
      }
    }
  }

  function SpanRecord(key: string, runId: string, at: real, ranges: seq<Range>, overwrites: seq<Range>): Record {
    Record(key, "span", "active", Some(at), Some(SCHEMA_VERSION), Meta("g", runId, overwrites),
           Some(Span(ranges, 10, "")), None, None, "", [], "")
  }

  /** Span `a` of indices 0 to 9, and the later span `b` of another run that overwrites 5 to 9. */
  function SomeOverwritten(): Current {
    map["a" := SpanRecord("a", "r1", 1.0, [Range(0, 9)], []),
        "b" := SpanRecord("b", "r2", 2.0, [Range(5, 14)], [Range(5, 9)])]
  }

  function OverwriterReplaced(): Event {
    Event(EVENT_REPLACEMENT_COMMITTED, 3.0,
          Record("", "", "", None, None, Meta("", "", []), None, None, None, "r3", ["b"], ""))
  }

  lemma AfterReplacement()
    ensures ApplyAll(SomeOverwritten(), [OverwriterReplaced()])
            == SomeOverwritten()["b" := Marked(SomeOverwritten()["b"], "r3", 3.0)]
  {
    var raw, e := SomeOverwritten(), OverwriterReplaced();
    assert [e][..0] == [];
    assert ApplyAll(raw, [e]) == Apply(ApplyAll(raw, []), e);
    assert ["b"][..0] == [];
    assert MarkAll(raw, ["b"], "r3", 3.0) == Mark(MarkAll(raw, [], "r3", 3.0), "b", "r3", 3.0);
  }

  lemma OverwrittenAtFirst()
    ensures SpanCovers(SomeOverwritten()["a"], 7) && Overwritten(SomeOverwritten(), "a", 7)
  {
    var raw := SomeOverwritten();
    assert Ordered(raw["a"].span.value.ranges[0]) == Range(0, 9);
    assert Ordered(raw["b"].meta.overwrites[0]) == Range(5, 9);
    assert Stands(raw["b"].meta.overwrites, 7);
    assert Later(raw["b"], raw["a"]) && CountsFor(raw["b"], raw["a"]);
  }

  lemma OverwriterIsGone()
    ensures ActiveCovers(ApplyAll(SomeOverwritten(), [OverwriterReplaced()]), "a", 7)
    ensures !Overwritten(ApplyAll(SomeOverwritten(), [OverwriterReplaced()]), "a", 7)
  {
    AfterReplacement();
    OverwrittenAtFirst();
  }

  lemma LostForGood()
    ensures LostInCache(SomeOverwritten(), [OverwriterReplaced()], "a", 7)
  {
    hide Overwritten;
    OverwrittenAtFirst();
    OverwriterIsGone();
  }

  /** A span that overwrites part of another and is later replaced: the cache has already given up
      the part, the full replay has it again. */
  lemma ReplacedOverwriterLosesCoverage(baked: Current, viaCache: Current, viaReplay: Current)
    requires CoveragePass(SomeOverwritten(), baked)
    requires CoveragePass(ApplyAll(baked, [OverwriterReplaced()]), viaCache)
    requires CoveragePass(ApplyAll(SomeOverwritten(), [OverwriterReplaced()]), viaReplay)
    ensures !SameCoverage(viaCache, viaReplay)
  {
    hide CoveragePass, ActiveCovers, LostInCache, SomeOverwritten, OverwriterReplaced, ApplyAll;
    LostForGood();
    BakedCoverage(SomeOverwritten(), baked, [OverwriterReplaced()], viaCache, viaReplay);
  }

  // ---------------------------------------------------------------- the methods of the source

  lemma {:induction false} FilterAll<T>(s: seq<T>, keep: T -> bool)
    requires forall x :: x in s ==> keep(x)
    ensures Filter(s, keep) == s
  {
    if s != [] {
      FilterAll(s[1..], keep);
    }
  }

  lemma StillComplete(runs: seq<Run>, cutoff: real)
    ensures CompleteRuns(CompleteRuns(runs)) == CompleteRuns(runs)
    ensures CompleteRuns(Filter(CompleteRuns(runs), From(cutoff))) == Filter(CompleteRuns(runs), From(cutoff))
  {
    forall r | r in CompleteRuns(runs) ensures IsComplete(r) {
      FilterIn(runs, IsComplete, r);
    }
    forall r | r in Filter(CompleteRuns(runs), From(cutoff)) ensures IsComplete(r) {
      FilterIn(CompleteRuns(runs), From(cutoff), r);
    }
    FilterAll(CompleteRuns(runs), IsComplete);
    FilterAll(Filter(CompleteRuns(runs), From(cutoff)), IsComplete);
  }

  /** Read and apply the runs one by one. */
  method ReplaySequentially(start: Current, runs: seq<Run>) returns (state: Option<Current>)
    ensures state == Replay(start, runs)
  {
    var current := start;
    for i := 0 to |runs|
      invariant AllReadable(runs[..i])
      invariant current == ApplyAll(start, Events(runs[..i]))
    {
      assert runs[..i + 1] == runs[..i] + [runs[i]];
      if runs[i].log.None? {
        assert !Readable(runs[i]);
        return None;
      }
      var ok;
      ApplyAllConcat(start, Events(runs[..i]), runs[i].log.value);
      ok, current := ApplyEvents(current, runs[i].log.value);
      if !ok {
        assert !Readable(runs[i]);
        return None;
      }
    }
    assert runs[..|runs|] == runs;
    state := Some(current);
  }

  method AnyFinished(unread: set<nat>) returns (i: nat)
    requires unread != {}
    ensures i in unread
  {
    i :| i in unread;
  }

  /** Read the runs in whatever order their reads finish; `None` when one of them fails. */
  method ReadInParallel(runs: seq<Run>) returns (replayEvents: Option<map<nat, seq<Event>>>)
    ensures replayEvents.None? ==> !AllReadable(runs)
    ensures replayEvents.Some? ==> forall i :: 0 <= i < |runs| ==>
              i in replayEvents.value && runs[i].log == Some(replayEvents.value[i])
  {
    var read: map<nat, seq<Event>> := map[];
    var unread: set<nat> := {};
    for n := 0 to |runs|
      invariant forall i :: i in unread <==> 0 <= i < n
    {
      unread := unread + {n};
    }
    while unread != {}
      invariant forall i :: i in unread ==> 0 <= i < |runs|
      invariant forall i :: 0 <= i < |runs| && i !in unread ==> i in read && runs[i].log == Some(read[i])
      decreases |unread|
    {
      var i := AnyFinished(unread);
      if runs[i].log.None? {
        assert !Readable(runs[i]);
        return None;
      }
      read := read[i := runs[i].log.value];
      unread := unread - {i};
    }
    replayEvents := Some(read);
  }

  /** Read the runs in parallel, then apply them in their order. */
  method ReplayInParallel(start: Current, runs: seq<Run>) returns (state: Option<Current>)
    ensures state == Replay(start, runs)
  {
    var replayEvents := ReadInParallel(runs);
    if replayEvents.None? {
      return None;
    }
    var current := start;
    for i := 0 to |runs|
      invariant AllReadable(runs[..i])
      invariant current == ApplyAll(start, Events(runs[..i]))
    {
      assert runs[..i + 1] == runs[..i] + [runs[i]];
      var ok;
      ApplyAllConcat(start, Events(runs[..i]), runs[i].log.value);
      ok, current := ApplyEvents(current, replayEvents.value[i]);
      if !ok {
        assert !Readable(runs[i]);
        return None;
      }
    }
    assert runs[..|runs|] == runs;
    state := Some(current);
  }

  method CurrentFromRecords(records: seq<Record>) returns (current: Current)
    ensures current == FromRecords(records)
  {
    current := map[];
    for i := 0 to |records|
      invariant current == FromRecords(records[..i])
    {
      assert records[..i + 1][..i] == records[..i];
      if records[i].key != "" {
        current := current[records[i].key := records[i]];
      }
    }
    assert records[..|records|] == records;
  }

  /** `None` where the source raises. */
  method LoadCurrentState(controlExists: bool, runs: seq<Run>, latest: Latest) returns (state: Option<Current>)
    ensures state == if controlExists then CachedRead(runs, latest) else Some(map[])
  {
    if !controlExists {
      return Some(map[]);
    }
    var completeRuns := CompleteRuns(runs);
    if latest.LatestWrongSchema? {
      return None;
    }
    var current: Current := map[];
    var replayRuns := completeRuns;
    if latest.LatestFile? {
      if latest.cache.MetaNotJson? {
        return None;
      }
      if latest.cache.Records? {
        current := CurrentFromRecords(latest.cache.records);
        replayRuns := Filter(completeRuns, From(latest.cutoff));
      }
    }
    StillComplete(runs, if latest.LatestFile? then latest.cutoff else 0.0);
    var sortedRuns := SortedCompleteRuns(replayRuns);
    if |sortedRuns| <= 1 {
      state := ReplaySequentially(current, sortedRuns);
    } else {
      state := ReplayInParallel(current, sortedRuns);
    }
  }

  lemma CachedReadKeepsKeys(runs: seq<Run>, latest: Latest)
    ensures CachedRead(runs, latest).Some? ==> WellKeyed(CachedRead(runs, latest).value)
  {
    if latest.LatestFile? && latest.cache.Records? {
      var records := latest.cache.records;
      forall k | k in FromRecords(records) ensures k != "" && FromRecords(records)[k].key == k {
        FromRecordsAt(records, k);
      }
      ApplyAllKeepsKeys(FromRecords(records), Events(Sort(Filter(CompleteRuns(runs), From(latest.cutoff)), RunKey)));
    } else {
      ApplyAllKeepsKeys(map[], Events(SortedCompleteRuns(runs)));
    }
  }

  /** The state that readers see: what is loaded, after the coverage pass. */
  method CurrentState(controlExists: bool, runs: seq<Run>, latest: Latest) returns (state: Option<Current>)
    ensures !controlExists ==> state == Some(map[])
    ensures controlExists ==> (state.Some? <==> CachedRead(runs, latest).Some?)
    ensures controlExists && state.Some? ==> CoveragePass(CachedRead(runs, latest).value, state.value)
  {
    var loaded := LoadCurrentState(controlExists, runs, latest);
    if loaded.None? {
      return None;
    }
    CachedReadKeepsKeys(runs, latest);
    var listing := ListKeys(loaded.value);
    var records := ApplyOverwriteRangesToActiveCoverage(loaded.value, listing);
    state := Some(records);
  }

  // ---------------------------------------------------------------- rebuilding the cache

  /** `latest` names a cache of the complete runs, with the coverage pass already applied. */
  ghost predicate Rebuilt(runs: seq<Run>, latest: Latest, baked: Current) {
    && latest.LatestFile? && latest.cache.Records?
    && CoveragePass(ApplyAll(map[], Events(SortedCompleteRuns(runs))), baked)
    && Saves(latest.cache.records, baked)
    && IsLastCompletion(CompleteRuns(runs), latest.cutoff)
  }

  ghost predicate IsLastCompletion(complete: seq<Run>, cutoff: real) {
    && (forall r :: r in complete ==> r.completedAt <= cutoff)
    && (if complete == [] then cutoff == 0.0 else exists r :: r in complete && r.completedAt == cutoff)
  }

  method ListKeys(m: Current) returns (listing: seq<string>)
    ensures Lists(listing, m)
  {
    listing := [];
    var left := m.Keys;
    while left != {}
      invariant left <= m.Keys
      invariant forall k :: k in listing <==> k in m && k !in left
      invariant Distinct(listing)
    {
      var k :| k in left;
      listing := listing + [k];
      left := left - {k};
    }
  }

  function ByKey(r: Record): SortKey {
    SortKey(0.0, r.key)
  }

  method SavedRecords(m: Current) returns (records: seq<Record>)
    requires WellKeyed(m)
    ensures Saves(records, m) && IsSorted(records, ByKey)
  {
    var listing := ListKeys(m);
    var values := [];
    for i := 0 to |listing|
      invariant forall r :: r in values <==> exists j :: 0 <= j < i && m[listing[j]] == r
    {
      values := values + [m[listing[i]]];
    }
    records := Sort(values, ByKey);
    SortSorts(values, ByKey);
    forall r ensures r in records <==> r in values {
      InSortByKey(values, r);
    }
    forall k | k in m ensures m[k] in records {
      var j :| 0 <= j < |listing| && listing[j] == k;
    }
  }

  lemma InSortByKey(s: seq<Record>, r: Record)
    ensures r in Sort(s, ByKey) <==> r in s
  {
    InSort(s, r, ByKey);
  }

  method LastCompletion(complete: seq<Run>) returns (cutoff: real)
    ensures IsLastCompletion(complete, cutoff)
  {
    cutoff := 0.0;
    for i := 0 to |complete|
      invariant forall r :: r in complete[..i] ==> r.completedAt <= cutoff
      invariant if i == 0 then cutoff == 0.0 else exists r :: r in complete[..i] && r.completedAt == cutoff
    {
      assert complete[..i + 1] == complete[..i] + [complete[i]];
      if i == 0 || complete[i].completedAt > cutoff {
        cutoff := complete[i].completedAt;
        assert complete[i] in complete[..i + 1];
      } else {
        ghost var r :| r in complete[..i] && r.completedAt == cutoff;
        assert r in complete[..i + 1];
      }
    }
    assert complete[..|complete|] == complete;
  }

  /** Project every complete run, with the coverage pass, into a new cache; `None` where it raises. */
  method RebuildCompact(runs: seq<Run>) returns (latest: Option<Latest>, ghost baked: Current)
    ensures latest.None? <==> !AllReadable(CompleteRuns(runs))
    ensures latest.Some? ==> Rebuilt(runs, latest.value, baked)
  {
    var completedRuns := CompleteRuns(runs);
    baked := map[];
    StillComplete(runs, 0.0);
    SortedReadable(completedRuns);
    var raw := ReplaySequentially(map[], SortedCompleteRuns(completedRuns));
    if raw.None? {
      return None, baked;
    }
    ApplyAllKeepsKeys(map[], Events(SortedCompleteRuns(runs)));
    var listing := ListKeys(raw.value);
    var records := ApplyOverwriteRangesToActiveCoverage(raw.value, listing);
    baked := records;
    PassKeepsKeys(raw.value, records);
    var saved := SavedRecords(records);
    var completedBefore := LastCompletion(completedRuns);
    latest := Some(LatestFile(completedBefore, Records(saved)));
  }

  lemma PassKeepsKeys(records: Current, out: Current)
    requires CoveragePass(records, out) && WellKeyed(records)
    ensures WellKeyed(out)
  {
    PassMakesTwins(records, out);
    forall k | k in out ensures k != "" && out[k].key == k {
      assert Bare(records[k]).key == Bare(out[k]).key;
    }
  }

  /** The complete runs are those of the rebuild and `added`, which completed at the cutoff or later. */
  ghost predicate CompletedSince(added: seq<Run>, runs: seq<Run>, before: seq<Run>, cutoff: real) {
    && multiset(CompleteRuns(runs)) == multiset(CompleteRuns(before)) + multiset(added)
    && forall r :: r in added ==> r.completedAt >= cutoff
  }

  lemma RebuildCachesUpTo(before: seq<Run>, runs: seq<Run>, added: seq<Run>, cutoff: real)
    requires CompletedSince(added, runs, before, cutoff)
    ensures CachesUpTo(CompleteRuns(before), runs, cutoff)
  {
    var kept, all := CompleteRuns(before), CompleteRuns(runs);
    forall r ensures multiset(Filter(kept, Before(cutoff)))[r] == multiset(Filter(all, Before(cutoff)))[r] {
      FilterMeaning(kept, Before(cutoff), r);
      FilterMeaning(all, Before(cutoff), r);
      assert r in added <==> multiset(added)[r] > 0;
    }
    forall r | r in Filter(kept, From(cutoff)) ensures r in Filter(all, From(cutoff)) {
      FilterIn(kept, From(cutoff), r);
      FilterIn(all, From(cutoff), r);
      assert r in multiset(kept) && r in multiset(all);
    }
  }

  /** Reading through a rebuilt cache shows the coverage of a full replay exactly when the events of
      the replayed runs leave nothing lost that the rebuild took out. */
  lemma RebuiltReadCoverage(before: seq<Run>, runs: seq<Run>, added: seq<Run>, latest: Latest, baked: Current,
                            viaCache: Current, viaReplay: Current)
    requires Keyed(runs, RunKey) && Keyed(before, RunKey) && AllReadable(CompleteRuns(runs))
    requires Rebuilt(before, latest, baked) && CompletedSince(added, runs, before, latest.cutoff)
    requires CachedRead(runs, latest).Some? ==> CoveragePass(CachedRead(runs, latest).value, viaCache)
    requires FullReplay(runs).Some? ==> CoveragePass(FullReplay(runs).value, viaReplay)
    ensures CachedRead(runs, latest).Some? && FullReplay(runs).Some?
    ensures var raw := ApplyAll(map[], Events(SortedCompleteRuns(before)));
            var later := Events(Sort(Filter(CompleteRuns(runs), From(latest.cutoff)), RunKey));
            && (SameCoverage(viaCache, viaReplay) <==> forall k, i :: !LostInCache(raw, later, k, i))
            && (OverwritersKept(raw, later) ==> SameCoverage(viaCache, viaReplay))
  {
    var raw := ApplyAll(map[], Events(SortedCompleteRuns(before)));
    var later := Events(Sort(Filter(CompleteRuns(runs), From(latest.cutoff)), RunKey));
    ApplyAllKeepsKeys(map[], Events(SortedCompleteRuns(before)));
    PassKeepsKeys(raw, baked);
    SavedLoads(latest.cache.records, baked);
    KeyedPart(before, IsComplete);
    RebuildCachesUpTo(before, runs, added, latest.cutoff);
    ReplayOnCached(CompleteRuns(before), runs, latest.cutoff);
    BothReads(runs, latest.cutoff, latest.cache.records);
    BakedCoverage(raw, baked, later, viaCache, viaReplay);
    if OverwritersKept(raw, later) {
      forall k, i ensures !LostInCache(raw, later, k, i) {
        KeptOverwritersLoseNothing(raw, later, k, i);
      }
    }
  }
}
