/** What the projection holds for a key, in terms of the events that named the key last. */
module Projection {
  import opened Ordering
  import opened Wrappers
  import opened Sequences
  import opened ControlRecords
  import opened EventProcessor
  import CompactCache

  /** The event writes a record under `k`. */
  ghost predicate Stores(e: Event, k: string) {
    e.eventType !in {"run_started_with_replacement", "replacement_committed"} && e.record.key == k && k != ""
  }

  /** The event commits a replacement of the span under `k`. */
  ghost predicate Replaces(e: Event, k: string) {
    e.eventType == "replacement_committed" && k in e.record.replacedKeys && k != ""
  }

  /** The time of the record, or of the event where the record has none. */
  ghost function When(e: Event): real {
    if e.record.timestamp != None then e.record.timestamp.value else e.timestamp
  }

  /** Records without a schema version, or with v2. */
  ghost predicate Version2(events: seq<Event>) {
    forall e :: e in events ==> e.record.schema == None || e.record.schema == Some("v2")
  }

  /** The record as the event wrote it. */
  ghost function Stored(e: Event): Record {
    e.record.(schema := Some("v2"), timestamp := Some(When(e)))
  }

  ghost function Replaced(r: Record, e: Event): Record {
    r.(status := "replaced", replacedBy := Some(e.record.replacingRun), replacedAt := Some(When(e)))
  }

  /** Event `i` is the last to write a record under `k`. */
  ghost predicate StoresLast(events: seq<Event>, k: string, i: nat) {
    i < |events| && Stores(events[i], k) && forall j :: i < j < |events| ==> !Stores(events[j], k)
  }

  /** Event `m` is the last to replace the record under `k`. */
  ghost predicate ReplacesLast(events: seq<Event>, k: string, m: nat) {
    m < |events| && Replaces(events[m], k) && forall j :: m < j < |events| ==> !Replaces(events[j], k)
  }

  ghost predicate NeverReplacedAfter(events: seq<Event>, k: string, i: nat) {
    forall j :: i < j < |events| ==> !Replaces(events[j], k)
  }

  // ---------------------------------------------------------------- one list of events

  lemma OneEvent(x: Option<Record>, e: Event, k: string)
    requires e.record.schema == None || e.record.schema == Some("v2")
    ensures Effect(x, e, k) ==
            if Stores(e, k) then Some(Stored(e))
            else if Replaces(e, k) && x.Some? then Some(Replaced(x.value, e))
            else x
  {
  }

  lemma {:induction false} AfterStore(x: Option<Record>, events: seq<Event>, k: string, i: nat)
    requires Version2(events) && StoresLast(events, k, i)
    ensures var y := EffectAll(x, events, k);
            && y.Some?
            && Replaced(y.value, events[i]) == Replaced(Stored(events[i]), events[i])
            && (NeverReplacedAfter(events, k, i) ==> y.value == Stored(events[i]))
  {
    hide Stored, When;
    var n := |events| - 1;
    OneEvent(EffectAll(x, events[..n], k), events[n], k);
    if i < n {
      assert forall j :: i < j < n ==> events[..n][j] == events[j];
      assert Version2(events[..n]) && StoresLast(events[..n], k, i);
      AfterStore(x, events[..n], k, i);
      assert NeverReplacedAfter(events, k, i) ==> NeverReplacedAfter(events[..n], k, i);
    }
  }

  lemma {:induction false} AfterReplacement(x: Option<Record>, events: seq<Event>, k: string, i: nat, m: nat)
    requires Version2(events) && StoresLast(events, k, i) && ReplacesLast(events, k, m) && i < m
    ensures EffectAll(x, events, k) == Some(Replaced(Stored(events[i]), events[m]))
    decreases |events|
  {
    hide Stored, When;
    var n := |events| - 1;
    OneEvent(EffectAll(x, events[..n], k), events[n], k);
    assert forall j :: 0 <= j < n ==> events[..n][j] == events[j];
    assert Version2(events[..n]) && StoresLast(events[..n], k, i);
    if m == n {
      AfterStore(x, events[..n], k, i);
    } else {
      AfterReplacement(x, events[..n], k, i, m);
    }
  }

  /** The record under a key is the one written last, whatever the state before; a replacement committed
      after it, the last one if there are several, marks it as replaced. */
  lemma LastStoreWins(current: Current, events: seq<Event>, k: string, i: nat)
    requires Version2(events) && StoresLast(events, k, i)
    ensures k in ApplyAll(current, events)
    ensures NeverReplacedAfter(events, k, i) ==> ApplyAll(current, events)[k] == Stored(events[i])
    ensures forall m :: i < m && ReplacesLast(events, k, m) ==>
              ApplyAll(current, events)[k] == Replaced(Stored(events[i]), events[m])
  {
    ApplyAllAt(current, events, k);
    AfterStore(Get(current, k), events, k, i);
    forall m | i < m && ReplacesLast(events, k, m)
      ensures ApplyAll(current, events)[k] == Replaced(Stored(events[i]), events[m])
    {
      AfterReplacement(Get(current, k), events, k, i, m);
    }
  }

  /** Events that write no record under a key bring none there. */
  lemma NothingStored(current: Current, events: seq<Event>, k: string)
    requires Version2(events) && forall e :: e in events ==> !Stores(e, k)
    ensures k in ApplyAll(current, events) <==> k in current
    ensures (forall e :: e in events ==> !Replaces(e, k)) && k in current ==> ApplyAll(current, events)[k] == current[k]
  {
    ApplyAllAt(current, events, k);
    forall e | e in events ensures Upserts(e, k) ==> Stores(e, k) {
    }
    MarksKeepTheRest(Get(current, k), events, k);
    assert Get(ApplyAll(current, events), k).Some? <==> Get(current, k).Some?;
    if forall e :: e in events ==> !Replaces(e, k) {
      assert forall e :: e in events && Marks(e, k) ==> Replaces(e, k);
    }
  }

  // ---------------------------------------------------------------- the runs of a control plane

  /** `o` is a complete run that counts as later than `r`: by its completion, and then by its id. */
  ghost predicate ComesAfter(o: CompactCache.Run, r: CompactCache.Run) {
    && o.status == "complete"
    && (o.completedAt > r.completedAt || (o.completedAt == r.completedAt && TextBefore(r.runId, o.runId)))
  }

  ghost predicate DistinctIds(runs: seq<CompactCache.Run>) {
    forall i, j :: 0 <= i < j < |runs| ==> runs[i].runId != runs[j].runId
  }

  /** No later event, of `r` or of a run that counts as later, writes a record under `k`. */
  ghost predicate StoresLastInRuns(runs: seq<CompactCache.Run>, r: CompactCache.Run, i: nat, k: string) {
    && r.log.Some? && StoresLast(r.log.value, k, i)
    && forall o, e :: o in runs && ComesAfter(o, r) && o.log.Some? && e in o.log.value ==> !Stores(e, k)
  }

  /** No later event, of `r` or of a run that counts as later, replaces the record under `k`. */
  ghost predicate NeverReplacedInRuns(runs: seq<CompactCache.Run>, r: CompactCache.Run, i: nat, k: string) {
    && r.log.Some? && NeverReplacedAfter(r.log.value, k, i)
    && forall o, e :: o in runs && ComesAfter(o, r) && o.log.Some? && e in o.log.value ==> !Replaces(e, k)
  }

  lemma SupportedIsVersion2(events: seq<Event>)
    ensures AllSupported(events) <==> Version2(events)
  {
    forall e | e in events ensures Supported(e) <==> e.record.schema == None || e.record.schema == Some("v2") {
    }
  }

  /** The full replay fails exactly on a complete run that cannot be read or holds a record of another
      schema version. */
  lemma ReplaySucceeds(runs: seq<CompactCache.Run>)
    ensures CompactCache.FullReplay(runs).Some? <==>
              forall r :: r in runs && r.status == "complete" ==> r.log.Some? && Version2(r.log.value)
  {
    SortedAreComplete(runs);
    forall r: CompactCache.Run | r.log.Some? ensures AllSupported(r.log.value) <==> Version2(r.log.value) {
      SupportedIsVersion2(r.log.value);
    }
  }

  lemma SortedAreComplete(runs: seq<CompactCache.Run>)
    ensures forall o :: o in CompactCache.SortedCompleteRuns(runs) <==> o in runs && o.status == "complete"
  {
    var complete := CompactCache.CompleteRuns(runs);
    forall o ensures o in CompactCache.SortedCompleteRuns(runs) <==> o in runs && o.status == "complete" {
      InSort(complete, o, CompactCache.RunKey);
      FilterIn(runs, CompactCache.IsComplete, o);
    }
  }

  /** The order of replay: `r` stands at `p`, and only runs that come after it follow. */
  lemma ReplayOrder(runs: seq<CompactCache.Run>, r: CompactCache.Run) returns (p: nat)
    requires DistinctIds(runs) && r in runs && r.status == "complete"
    ensures var sorted := CompactCache.SortedCompleteRuns(runs);
            && p < |sorted| && sorted[p] == r
            && (forall q :: p < q < |sorted| ==> ComesAfter(sorted[q], r))
            && (forall o :: o in sorted ==> o in runs)
  {
    var complete := CompactCache.CompleteRuns(runs);
    var sorted := CompactCache.SortedCompleteRuns(runs);
    SortSorts(complete, CompactCache.RunKey);
    SortedAreComplete(runs);
    p :| 0 <= p < |sorted| && sorted[p] == r;
    CompleteIsDistinct(runs);
    DistinctListing(complete, sorted);
    forall q | p < q < |sorted| ensures ComesAfter(sorted[q], r) {
      assert sorted[q] in sorted && sorted[q] != r;
      var i :| 0 <= i < |runs| && runs[i] == sorted[q];
      var j :| 0 <= j < |runs| && runs[j] == r;
      StringLeMeaning(r.runId, sorted[q].runId);
    }
  }

  lemma {:induction false} CompleteIsDistinct(runs: seq<CompactCache.Run>)
    requires DistinctIds(runs)
    ensures Distinct(CompactCache.CompleteRuns(runs))
  {
    if runs != [] {
      var rest := runs[1..];
      assert forall i, j :: 0 <= i < j < |rest| ==> rest[i] == runs[i + 1] && rest[j] == runs[j + 1];
      CompleteIsDistinct(rest);
      FilterIn(rest, CompactCache.IsComplete, runs[0]);
      assert forall i :: 0 <= i < |rest| ==> rest[i] == runs[i + 1];
      DistinctConcat([runs[0]], CompactCache.CompleteRuns(rest));
    }
  }

  /** The events of the sorted runs: those before the run at `p`, its own, those after it. */
  lemma EventsAround(sorted: seq<CompactCache.Run>, p: nat)
    requires p < |sorted| && sorted[p].log.Some?
    ensures CompactCache.Events(sorted) ==
            CompactCache.Events(sorted[..p]) + sorted[p].log.value + CompactCache.Events(sorted[p + 1..])
  {
    assert sorted == sorted[..p] + [sorted[p]] + sorted[p + 1..];
    CompactCache.EventsConcat(sorted[..p] + [sorted[p]], sorted[p + 1..]);
    CompactCache.EventsConcat(sorted[..p], [sorted[p]]);
    assert [sorted[p]][..0] == [] && CompactCache.Events([sorted[p]]) == [] + sorted[p].log.value;
  }

  /** The last run that wrote a key wins, whatever order the runs are listed in: the full replay holds
      under it the record of that run's last event for it, as it was written unless something later
      replaced it. */
  lemma LastRunWins(runs: seq<CompactCache.Run>, r: CompactCache.Run, i: nat, k: string)
    requires DistinctIds(runs) && CompactCache.FullReplay(runs).Some?
    requires r in runs && r.status == "complete" && StoresLastInRuns(runs, r, i, k)
    ensures var state := CompactCache.FullReplay(runs).value;
            && k in state
            && state[k].key == k && state[k].kind == r.log.value[i].record.kind
            && state[k].span == r.log.value[i].record.span && state[k].meta == r.log.value[i].record.meta
            && state[k].timestamp == Some(When(r.log.value[i]))
            && (NeverReplacedInRuns(runs, r, i, k) ==> state[k] == Stored(r.log.value[i]))
  {
    hide Stored, When;
    var sorted := CompactCache.SortedCompleteRuns(runs);
    var p := ReplayOrder(runs, r);
    EventsAround(sorted, p);
    var before, own, after := CompactCache.Events(sorted[..p]), r.log.value, CompactCache.Events(sorted[p + 1..]);
    var events := CompactCache.Events(sorted);
    var n := |before| + i;
    VersionOfRuns(runs);
    forall e | e in after
      ensures !Stores(e, k) && (NeverReplacedInRuns(runs, r, i, k) ==> !Replaces(e, k))
    {
      CompactCache.EventsOf(sorted[p + 1..], e);
      var o :| o in sorted[p + 1..] && o.log.Some? && e in o.log.value;
      var q :| 0 <= q < |sorted[p + 1..]| && sorted[p + 1..][q] == o;
      assert sorted[p + 1 + q] == o && o in sorted;
    }
    LastOfThree(before, own, after, k, i);
    AfterStore(None, events, k, n);
    ApplyAllAt(map[], events, k);
    StoredFields(events[n], CompactCache.FullReplay(runs).value[k]);
  }

  lemma StoredFields(e: Event, r: Record)
    requires Replaced(r, e) == Replaced(Stored(e), e)
    ensures r.key == e.record.key && r.kind == e.record.kind && r.span == e.record.span && r.meta == e.record.meta
    ensures r.timestamp == Some(When(e))
  {
  }

  lemma LastOfThree(before: seq<Event>, own: seq<Event>, after: seq<Event>, k: string, i: nat)
    requires StoresLast(own, k, i) && forall e :: e in after ==> !Stores(e, k)
    ensures StoresLast(before + own + after, k, |before| + i) && (before + own + after)[|before| + i] == own[i]
    ensures NeverReplacedAfter(own, k, i) && (forall e :: e in after ==> !Replaces(e, k)) ==>
              NeverReplacedAfter(before + own + after, k, |before| + i)
  {
    var all := before + own + after;
    forall j | |before| + i < j < |all|
      ensures !Stores(all[j], k)
      ensures NeverReplacedAfter(own, k, i) && (forall e :: e in after ==> !Replaces(e, k)) ==> !Replaces(all[j], k)
    {
      if j < |before| + |own| {
        assert all[j] == own[j - |before|];
      } else {
        assert all[j] == after[j - |before| - |own|];
      }
    }
  }

  lemma VersionOfRuns(runs: seq<CompactCache.Run>)
    requires CompactCache.FullReplay(runs).Some?
    ensures Version2(CompactCache.Events(CompactCache.SortedCompleteRuns(runs)))
  {
    var sorted := CompactCache.SortedCompleteRuns(runs);
    ReplaySucceeds(runs);
    SortedAreComplete(runs);
    forall e | e in CompactCache.Events(sorted) ensures e.record.schema == None || e.record.schema == Some("v2") {
      CompactCache.EventsOf(sorted, e);
    }
  }

  /** Where no complete run wrote a key, the full replay has nothing under it. */
  lemma UnwrittenIsAbsent(runs: seq<CompactCache.Run>, k: string)
    requires CompactCache.FullReplay(runs).Some?
    requires forall r, e :: r in runs && r.status == "complete" && r.log.Some? && e in r.log.value ==> !Stores(e, k)
    ensures k !in CompactCache.FullReplay(runs).value
  {
    var sorted := CompactCache.SortedCompleteRuns(runs);
    SortedAreComplete(runs);
    VersionOfRuns(runs);
    forall e | e in CompactCache.Events(sorted) ensures !Stores(e, k) {
      CompactCache.EventsOf(sorted, e);
    }
    NothingStored(map[], CompactCache.Events(sorted), k);
  }
}
