/** Folding events into the current state. */
module EventProcessor {
  import opened ControlRecords
  import opened Wrappers

  /** The record of an event, with its defaults filled in. */
  function FromEvent(e: Event): Record {
    e.record.(
      schema := if e.record.schema.None? then Some(SCHEMA_VERSION) else e.record.schema,
      timestamp := if e.record.timestamp.None? then Some(e.timestamp) else e.record.timestamp)
  }

  predicate Supported(e: Event) {
    FromEvent(e).schema == Some(SCHEMA_VERSION)
  }

  ghost predicate AllSupported(events: seq<Event>) {
    forall e :: e in events ==> Supported(e)
  }

  function Marked(r: Record, replacingRun: string, at: real): Record {
    r.(status := "replaced", replacedBy := Some(replacingRun), replacedAt := Some(at))
  }

  function Mark(current: Current, key: string, replacingRun: string, at: real): Current {
    if key == "" || key !in current then current
    else current[key := Marked(current[key], replacingRun, at)]
  }

  function MarkAll(current: Current, keys: seq<string>, replacingRun: string, at: real): Current {
    if keys == [] then current
    else Mark(MarkAll(current, keys[..|keys| - 1], replacingRun, at), keys[|keys| - 1], replacingRun, at)
  }

  function Apply(current: Current, e: Event): Current {
    var r := FromEvent(e);
    if e.eventType == EVENT_RUN_STARTED_WITH_REPLACEMENT then current
    else if e.eventType == EVENT_REPLACEMENT_COMMITTED then
      MarkAll(current, r.replacedKeys, r.replacingRun, r.timestamp.value)
    else if r.key != "" then current[r.key := r]
    else current
  }

  function ApplyAll(current: Current, events: seq<Event>): Current {
    if events == [] then current else Apply(ApplyAll(current, events[..|events| - 1]), events[|events| - 1])
  }

  lemma {:induction false} ApplyAllConcat(current: Current, a: seq<Event>, b: seq<Event>)
    ensures ApplyAll(current, a + b) == ApplyAll(ApplyAll(current, a), b)
  {
    if b == [] {
      assert a + b == a;
    } else {
      var n := |b| - 1;
      ApplyAllConcat(current, a, b[..n]);
      assert (a + b)[..|a + b| - 1] == a + b[..n];
    }
  }

  // ---------------------------------------------------------------- one key at a time

  function Get(current: Current, k: string): Option<Record> {
    if k in current then Some(current[k]) else None
  }

  predicate Upserts(e: Event, k: string) {
    && e.eventType != EVENT_RUN_STARTED_WITH_REPLACEMENT
    && e.eventType != EVENT_REPLACEMENT_COMMITTED
    && e.record.key == k
    && k != ""
  }

  predicate Marks(e: Event, k: string) {
    && e.eventType == EVENT_REPLACEMENT_COMMITTED
    && k in e.record.replacedKeys
    && k != ""
  }

  function Effect(x: Option<Record>, e: Event, k: string): Option<Record> {
    if Upserts(e, k) then Some(FromEvent(e))
    else if Marks(e, k) && x.Some? then
      Some(Marked(x.value, FromEvent(e).replacingRun, FromEvent(e).timestamp.value))
    else x
  }

  function EffectAll(x: Option<Record>, events: seq<Event>, k: string): Option<Record> {
    if events == [] then x else Effect(EffectAll(x, events[..|events| - 1], k), events[|events| - 1], k)
  }

  lemma {:induction false} MarkAllAt(current: Current, keys: seq<string>, replacingRun: string, at: real, k: string)
    ensures Get(MarkAll(current, keys, replacingRun, at), k) ==
            (if k in keys && k != "" && k in current then Some(Marked(current[k], replacingRun, at)) else Get(current, k))
  {
    if keys != [] {
      var n := |keys| - 1;
      MarkAllAt(current, keys[..n], replacingRun, at, k);
      assert keys == keys[..n] + [keys[n]];
    }
  }

  /** What the events do to one key depends on nothing else. */
  lemma {:induction false} ApplyAllAt(current: Current, events: seq<Event>, k: string)
    ensures Get(ApplyAll(current, events), k) == EffectAll(Get(current, k), events, k)
  {
    if events != [] {
      var n := |events| - 1;
      ApplyAllAt(current, events[..n], k);
      var r := FromEvent(events[n]);
      MarkAllAt(ApplyAll(current, events[..n]), r.replacedKeys, r.replacingRun, r.timestamp.value, k);
    }
  }

  lemma {:induction false} ApplyAllKeepsKeys(current: Current, events: seq<Event>)
    requires WellKeyed(current)
    ensures WellKeyed(ApplyAll(current, events))
  {
    if events != [] {
      var n := |events| - 1;
      ApplyAllKeepsKeys(current, events[..n]);
      var before := ApplyAll(current, events[..n]);
      var r := FromEvent(events[n]);
      forall k | k in ApplyAll(current, events) ensures k != "" && ApplyAll(current, events)[k].key == k {
        MarkAllAt(before, r.replacedKeys, r.replacingRun, r.timestamp.value, k);
        assert k in before ==> before[k].key == k;
        assert Get(ApplyAll(current, events), k).Some?;
      }
    }
  }

  // ---------------------------------------------------------------- redundant replay

  ghost predicate SomeUpserts(events: seq<Event>, k: string) {
    exists e :: e in events && Upserts(e, k)
  }

  ghost predicate SomeMarks(events: seq<Event>, k: string) {
    exists e :: e in events && Marks(e, k)
  }

  /** Equal up to the fields a replacement mark sets. */
  ghost predicate SameUnmarked(x: Option<Record>, y: Option<Record>) {
    (x.None? && y.None?) || (x.Some? && y.Some? && Marked(x.value, "", 0.0) == Marked(y.value, "", 0.0))
  }

  lemma LastOf(events: seq<Event>, e: Event)
    requires e in events
    ensures e == events[|events| - 1] || e in events[..|events| - 1]
  {
    assert events == events[..|events| - 1] + [events[|events| - 1]];
  }

  /** After an upsert of `k`, what `k` held before does not matter. */
  lemma {:induction false} UpsertForgets(x: Option<Record>, y: Option<Record>, events: seq<Event>, k: string)
    requires SomeUpserts(events, k)
    ensures EffectAll(x, events, k) == EffectAll(y, events, k)
  {
    var n := |events| - 1;
    if !Upserts(events[n], k) {
      var e :| e in events && Upserts(e, k);
      LastOf(events, e);
      UpsertForgets(x, y, events[..n], k);
    }
  }

  lemma {:induction false} MarksKeepTheRest(x: Option<Record>, events: seq<Event>, k: string)
    requires !SomeUpserts(events, k)
    ensures SameUnmarked(x, EffectAll(x, events, k))
    ensures !SomeMarks(events, k) ==> EffectAll(x, events, k) == x
  {
    if events != [] {
      var n := |events| - 1;
      assert events[n] in events && forall e :: e in events[..n] ==> e in events;
      MarksKeepTheRest(x, events[..n], k);
    }
  }

  /** After a mark of `k`, earlier marks do not matter. */
  lemma {:induction false} MarkForgets(x: Option<Record>, y: Option<Record>, events: seq<Event>, k: string)
    requires !SomeUpserts(events, k) && SomeMarks(events, k) && SameUnmarked(x, y)
    ensures EffectAll(x, events, k) == EffectAll(y, events, k)
  {
    var n := |events| - 1;
    assert events[n] in events && forall e :: e in events[..n] ==> e in events;
    if Marks(events[n], k) {
      MarksKeepTheRest(x, events[..n], k);
      MarksKeepTheRest(y, events[..n], k);
    } else {
      var e :| e in events && Marks(e, k);
      LastOf(events, e);
      MarkForgets(x, y, events[..n], k);
    }
  }

  lemma RedundantAt(x: Option<Record>, again: seq<Event>, events: seq<Event>, k: string)
    requires forall e :: e in again ==> e in events
    ensures EffectAll(EffectAll(x, again, k), events, k) == EffectAll(x, events, k)
  {
    if SomeUpserts(events, k) {
      UpsertForgets(EffectAll(x, again, k), x, events, k);
    } else {
      MarksKeepTheRest(x, again, k);
      if SomeMarks(events, k) {
        MarkForgets(EffectAll(x, again, k), x, events, k);
      }
    }
  }

  /** Events that a later replay applies anyway, in any order and number, change nothing when they
      are applied before it. */
  lemma RedundantReplay(current: Current, again: seq<Event>, events: seq<Event>)
    requires forall e :: e in again ==> e in events
    ensures ApplyAll(ApplyAll(current, again), events) == ApplyAll(current, events)
  {
    var a, b := ApplyAll(ApplyAll(current, again), events), ApplyAll(current, events);
    forall k ensures Get(a, k) == Get(b, k) {
      ApplyAllAt(current, again, k);
      ApplyAllAt(ApplyAll(current, again), events, k);
      ApplyAllAt(current, events, k);
      RedundantAt(Get(current, k), again, events, k);
    }
    SameGets(a, b);
  }

  lemma SameGets(a: Current, b: Current)
    requires forall k :: Get(a, k) == Get(b, k)
    ensures a == b
  {
    forall k ensures k in a <==> k in b {
      assert Get(a, k) == Get(b, k);
    }
    forall k | k in a ensures a[k] == b[k] {
      assert Get(a, k) == Get(b, k);
    }
  }

  // ---------------------------------------------------------------- the loop of the source

  /** Apply events to `current`; `ok` is false when an event of an unsupported schema stops it. */
  method ApplyEvents(current: Current, events: seq<Event>) returns (ok: bool, updated: Current)
    ensures ok <==> AllSupported(events)
    ensures ok ==> updated == ApplyAll(current, events)
  {
    updated := current;
    for i := 0 to |events|
      invariant AllSupported(events[..i])
      invariant updated == ApplyAll(current, events[..i])
    {
      assert events[..i + 1][..i] == events[..i];
      assert events[..i + 1] == events[..i] + [events[i]];
      var e := events[i];
      var record := FromEvent(e);
      if record.schema != Some(SCHEMA_VERSION) {
        assert !Supported(e);
        return false, updated;
      }
      if e.eventType == EVENT_RUN_STARTED_WITH_REPLACEMENT {
        continue;
      }
      if e.eventType == EVENT_REPLACEMENT_COMMITTED {
        ghost var before := updated;
        for j := 0 to |record.replacedKeys|
          invariant updated == MarkAll(before, record.replacedKeys[..j], record.replacingRun, record.timestamp.value)
        {
          assert record.replacedKeys[..j + 1][..j] == record.replacedKeys[..j];
          var key := record.replacedKeys[j];
          if key == "" || key !in updated {
            continue;
          }
          updated := updated[key := updated[key].(status := "replaced",
                                                  replacedBy := Some(record.replacingRun),
                                                  replacedAt := Some(record.timestamp.value))];
        }
        assert record.replacedKeys[..|record.replacedKeys|] == record.replacedKeys;
        continue;
      }
      if record.key != "" {
        updated := updated[record.key := record];
      }
    }
    assert events[..|events|] == events;
    ok := true;
  }
}
