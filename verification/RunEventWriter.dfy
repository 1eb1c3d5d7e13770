/** The objects that write a run's log: the directory, the segment writer, and the recorder that opens,
    resumes and closes it. */
module RunEventWriter {
  import opened Wrappers
  import opened ControlRecords
  import opened SegmentNames
  import opened WalReader
  import opened RunLog
  import CompactCache

  /** `run.json`. */
  datatype RunMeta = RunMeta(status: string, parts: nat, events: nat, error: Option<string>, completedAt: Option<real>)

  /** The directory holds exactly the segments with these texts, under their names. */
  ghost predicate Numbered(segments: map<string, string>, texts: seq<string>) {
    && (forall p :: 0 <= p < |texts| ==> SegmentName(p) in segments && segments[SegmentName(p)] == texts[p])
    && (forall name :: name in segments ==> IsNumbered(name, |texts|))
  }

  ghost predicate IsNumbered(name: string, n: nat) {
    exists p :: 0 <= p < n && name == SegmentName(p)
  }

  lemma NextNameIsFree(segments: map<string, string>, texts: seq<string>)
    requires Numbered(segments, texts)
    ensures SegmentName(|texts|) !in segments
  {
    if SegmentName(|texts|) in segments {
      var p :| 0 <= p < |texts| && SegmentName(|texts|) == SegmentName(p);
      NamesDiffer(|texts|, p);
    }
  }

  lemma NumberedAdd(segments: map<string, string>, texts: seq<string>, text: string)
    requires Numbered(segments, texts)
    ensures Numbered(segments[SegmentName(|texts|) := text], texts + [text])
  {
    NextNameIsFree(segments, texts);
    var segments2, n := segments[SegmentName(|texts|) := text], |texts|;
    forall name | name in segments2 ensures IsNumbered(name, n + 1) {
      if name != SegmentName(n) {
        var p :| 0 <= p < n && name == SegmentName(p);
      }
    }
  }

  lemma BatchesAdd(c: Codec, runId: string, texts: seq<string>, batches: seq<seq<WalEvent>>, text: string,
                   batch: seq<WalEvent>)
    requires HoldsBatches(c, texts, batches) && IdsFrom(runId, batches)
    requires text <= Text(c, batch) && AllVersioned(batch)
    requires forall i :: 0 <= i < |batch| ==> batch[i].eventId == EventId(runId, |texts|, i)
    ensures HoldsBatches(c, texts + [text], batches + [batch]) && IdsFrom(runId, batches + [batch])
  {
  }

  /** The part of a text that joins lines with line feeds between them. */
  function Joined(c: Codec, batch: seq<WalEvent>): string
    requires batch != []
  {
    if |batch| == 1 then c.encode(batch[0]) else c.encode(batch[0]) + "\n" + Joined(c, batch[1..])
  }

  lemma {:induction false} JoinedIsText(c: Codec, batch: seq<WalEvent>)
    requires batch != []
    ensures Joined(c, batch) + "\n" == Text(c, batch)
  {
    if |batch| > 1 {
      JoinedIsText(c, batch[1..]);
    } else {
      assert Text(c, batch[1..]) == "";
    }
  }

  /** The run directory. `texts` and `batches` are what each segment holds and was meant to hold. */
  class RunDirectory {
    var segments: map<string, string>
    var meta: Option<RunMeta>
    ghost var texts: seq<string>
    ghost var batches: seq<seq<WalEvent>>

    ghost predicate Valid(c: Codec, runId: string)
      reads `segments, `texts, `batches
    {
      Numbered(segments, texts) && HoldsBatches(c, texts, batches) && IdsFrom(runId, batches)
    }

    /** Every segment there was is still there with the same text. */
    twostate predicate OnlyAdded()
      reads this
    {
      && old(texts) <= texts && old(batches) <= batches
      && forall name :: name in old(segments) ==> name in segments && segments[name] == old(segments)[name]
    }

    constructor ()
      ensures segments == map[] && texts == [] && batches == [] && meta == None
    {
      segments, meta, texts, batches := map[], None, [], [];
    }

    method ListNames() returns (names: seq<string>)
      ensures forall name :: name in names <==> name in segments
    {
      names := [];
      var left := segments.Keys;
      while left != {}
        invariant left <= segments.Keys
        invariant forall name :: name in names <==> name in segments && name !in left
      {
        var name :| name in left;
        names := names + [name];
        left := left - {name};
      }
    }

    /** Create the next segment with `text`, all or the beginning of the text of `batch`. */
    method Create(c: Codec, runId: string, part: nat, text: string, ghost batch: seq<WalEvent>)
      requires Valid(c, runId) && part == |texts|
      requires text <= Text(c, batch) && AllVersioned(batch)
      requires forall i :: 0 <= i < |batch| ==> batch[i].eventId == EventId(runId, part, i)
      modifies this
      ensures Valid(c, runId) && OnlyAdded() && meta == old(meta)
      ensures SegmentName(part) !in old(segments)
      ensures segments == old(segments)[SegmentName(part) := text]
      ensures texts == old(texts) + [text] && batches == old(batches) + [batch]
    {
      NextNameIsFree(segments, texts);
      NumberedAdd(segments, texts, text);
      BatchesAdd(c, runId, texts, batches, text, batch);
      segments := segments[SegmentName(part) := text];
      texts, batches := texts + [text], batches + [batch];
    }
  }

  /** `None` is a failed listing. */
  ghost predicate ListsNames(listing: Option<seq<string>>, segments: map<string, string>) {
    listing.Some? ==> forall name :: name in listing.value <==> name in segments
  }

  /** One more than the highest part number among the names. */
  method DiscoverNextPartIndex(listing: Option<seq<string>>) returns (next: nat)
    ensures listing.None? ==> next == 0
    ensures listing.Some? ==> forall name :: name in listing.value && PartOf(name).Some? ==> PartOf(name).value < next
    ensures next > 0 ==> listing.Some? && exists name :: name in listing.value && PartOf(name) == Some(next - 1)
  {
    if listing.None? {
      return 0;
    }
    var highest: int := -1;
    for i := 0 to |listing.value|
      invariant -1 <= highest
      invariant forall j :: 0 <= j < i && PartOf(listing.value[j]).Some? ==> PartOf(listing.value[j]).value <= highest
      invariant highest >= 0 ==> exists j :: 0 <= j < i && PartOf(listing.value[j]).Some?
                                             && PartOf(listing.value[j]).value == highest
    {
      var part := PartOf(listing.value[i]);
      if part.Some? {
        highest := if highest < part.value then part.value else highest;
      }
    }
    next := highest + 1;
  }

  lemma NextPartOfNumbered(listing: Option<seq<string>>, segments: map<string, string>, texts: seq<string>, next: nat)
    requires Numbered(segments, texts) && listing.Some? && ListsNames(listing, segments)
    requires forall name :: name in listing.value && PartOf(name).Some? ==> PartOf(name).value < next
    requires next > 0 ==> exists name :: name in listing.value && PartOf(name) == Some(next - 1)
    ensures next == |texts|
  {
    if next > 0 {
      var name :| name in listing.value && PartOf(name) == Some(next - 1);
      var p :| 0 <= p < |texts| && name == SegmentName(p);
      PartOfName(p);
    }
    if |texts| > 0 {
      var p := |texts| - 1;
      assert SegmentName(p) in segments;
      PartOfName(p);
    }
  }

  /** Append immutable event segments for a single run. */
  class Writer {
    const codec: Codec
    const runId: string
    const segmentSize: nat
    const dir: RunDirectory
    var buffer: seq<WalEvent>
    var partIndex: nat
    var eventIndex: nat
    var eventsWritten: nat
    var status: string

    /** The writer is the only one of its run: it continues after the last segment. */
    ghost predicate Valid()
      reads this, dir`segments, dir`texts, dir`batches
    {
      && dir.Valid(codec, runId)
      && partIndex == |dir.texts|
      && eventIndex == |buffer|
      && 1 <= segmentSize
      && AllVersioned(buffer)
      && forall i :: 0 <= i < |buffer| ==> buffer[i].eventId == EventId(runId, partIndex, i)
    }

    /** Without a listing the part number starts over, which is right only in an empty directory. */
    constructor (codec: Codec, runId: string, segmentSize: int, dir: RunDirectory, resumeMeta: Option<RunMeta>,
                 listing: Option<seq<string>>)
      requires dir.Valid(codec, runId) && ListsNames(listing, dir.segments)
      modifies dir`meta
      ensures this.codec == codec && this.runId == runId && this.dir == dir && buffer == []
      ensures this.segmentSize == if segmentSize < 1 then 1 else segmentSize
      ensures partIndex == if listing.Some? then |dir.texts| else 0
      ensures partIndex == |dir.texts| ==> Valid()
      ensures resumeMeta.Some? ==> dir.meta == old(dir.meta) && status == resumeMeta.value.status
                                   && eventsWritten == resumeMeta.value.events
      ensures resumeMeta.None? ==> status == "started" && eventsWritten == 0
                                   && dir.meta == Some(RunMeta("started", partIndex, 0, None, None))
    {
      this.codec, this.runId, this.dir := codec, runId, dir;
      this.segmentSize := if segmentSize < 1 then 1 else segmentSize;
      buffer, partIndex, eventIndex := [], 0, 0;
      eventsWritten := if resumeMeta.Some? then resumeMeta.value.events else 0;
      status := if resumeMeta.Some? then resumeMeta.value.status else "started";
      new;
      var next := DiscoverNextPartIndex(listing);
      if listing.Some? {
        NextPartOfNumbered(listing, dir.segments, dir.texts, next);
      }
      partIndex := next;
      if resumeMeta.None? {
        WriteRunMeta(None, None);
      }
    }

    method WriteRunMeta(error: Option<string>, completedAt: Option<real>)
      modifies dir`meta
      ensures dir.meta == Some(RunMeta(status, partIndex, eventsWritten, error, completedAt))
    {
      dir.meta := Some(RunMeta(status, partIndex, eventsWritten, error, completedAt));
    }

    function NextEventId(): string
      reads this
    {
      EventId(runId, partIndex, eventIndex)
    }

    /** Append an event; `heartbeatDue` is whether the last metadata write is long enough ago. */
    method Append(eventType: string, body: string, flush: bool, heartbeatDue: bool) returns (event: WalEvent)
      requires Valid()
      modifies this, dir
      ensures Valid() && dir.OnlyAdded() && status == old(status) && eventsWritten == old(eventsWritten) + 1
      ensures event == WalEvent(EventId(runId, old(partIndex), old(eventIndex)), eventType, SCHEMA_VERSION, body)
      ensures flush || |old(buffer)| + 1 >= segmentSize ==>
                buffer == [] && dir.batches == old(dir.batches) + [old(buffer) + [event]]
                && dir.texts == old(dir.texts) + [Text(codec, old(buffer) + [event])]
      ensures !(flush || |old(buffer)| + 1 >= segmentSize) ==>
                buffer == old(buffer) + [event] && dir.batches == old(dir.batches) && dir.texts == old(dir.texts)
    {
      event := WalEvent(NextEventId(), eventType, SCHEMA_VERSION, body);
      buffer := buffer + [event];
      eventIndex := eventIndex + 1;
      eventsWritten := eventsWritten + 1;
      if flush || |buffer| >= segmentSize {
        Flush();
      } else if heartbeatDue {
        WriteRunMeta(None, None);
      }
    }

    /** Write the buffer to a new segment. */
    method Flush()
      requires Valid()
      modifies this, dir
      ensures Valid() && dir.OnlyAdded() && buffer == []
      ensures status == old(status) && eventsWritten == old(eventsWritten)
      ensures old(buffer) == [] ==>
                dir.texts == old(dir.texts) && dir.batches == old(dir.batches) && dir.meta == old(dir.meta)
      ensures old(buffer) != [] ==>
                && SegmentName(old(partIndex)) !in old(dir.segments)
                && dir.texts == old(dir.texts) + [Text(codec, old(buffer))]
                && dir.batches == old(dir.batches) + [old(buffer)]
                && dir.meta == Some(RunMeta(status, partIndex, eventsWritten, None, None))
    {
      if buffer == [] {
        return;
      }
      var payload := Joined(codec, buffer) + "\n";
      JoinedIsText(codec, buffer);
      dir.Create(codec, runId, partIndex, payload, buffer);
      buffer := [];
      partIndex := partIndex + 1;
      eventIndex := 0;
      WriteRunMeta(None, None);
    }

    /** The process dies while it writes the buffer, with `cut` characters of the segment on disk. */
    method CrashInFlush(cut: nat)
      requires Valid() && buffer != [] && cut <= |Text(codec, buffer)|
      modifies dir
      ensures dir.Valid(codec, runId) && dir.OnlyAdded() && dir.meta == old(dir.meta)
      ensures dir.texts == old(dir.texts) + [Text(codec, buffer)[..cut]] && dir.batches == old(dir.batches) + [buffer]
    {
      JoinedIsText(codec, buffer);
      dir.Create(codec, runId, partIndex, (Joined(codec, buffer) + "\n")[..cut], buffer);
    }

    method Finalize(status: string, error: Option<string>, now: real)
      requires Valid()
      modifies this, dir
      ensures Valid() && dir.OnlyAdded() && buffer == [] && this.status == status
      ensures dir.meta == Some(RunMeta(status, partIndex, eventsWritten, error, Some(now)))
      ensures old(buffer) == [] ==> dir.texts == old(dir.texts) && dir.batches == old(dir.batches)
      ensures old(buffer) != [] ==> dir.texts == old(dir.texts) + [Text(codec, old(buffer))]
                                    && dir.batches == old(dir.batches) + [old(buffer)]
    {
      this.status := status;
      Flush();
      WriteRunMeta(error, Some(now));
    }
  }

  /** The event type that ends a run with this status. */
  function TerminalEvent(status: string): string {
    if status == "complete" then "run_completed" else if status == "failed" then "run_failed" else "run_abandoned"
  }

  /** The event types that close a run, by the status it ends with. */
  ghost function ClosingTypes(): map<string, string> {
    map["complete" := "run_completed", "failed" := "run_failed", "abandoned" := "run_abandoned"]
  }

  lemma AbandonedEnds()
    ensures IsOver("abandoned") && ClosingTypes()["abandoned"] == "run_abandoned"
  {
    assert |"abandoned"| == 9 && |"complete"| == 8 && |"failed"| == 6;
  }

  /** The writers of one process for one run; `writer` is null when none is open. */
  class Recorder {
    const codec: Codec
    const runId: string
    const segmentSize: nat
    const dir: RunDirectory
    var writer: Writer?

    ghost predicate Valid()
      reads this, dir, writer
    {
      && dir.Valid(codec, runId)
      && (writer != null ==> writer.codec == codec && writer.runId == runId && writer.dir == dir && writer.Valid())
    }

    constructor (codec: Codec, runId: string, segmentSize: nat, dir: RunDirectory)
      requires dir.Valid(codec, runId)
      ensures Valid() && fresh(this) && writer == null
      ensures this.codec == codec && this.runId == runId && this.dir == dir
    {
      this.codec, this.runId, this.segmentSize, this.dir := codec, runId, segmentSize, dir;
      writer := null;
    }

    /** What is buffered and not yet in a segment. */
    ghost function Pending(): seq<WalEvent>
      reads this, writer
    {
      if writer == null then [] else writer.buffer
    }

    /** The entry the reader makes of the run: its metadata, or an orphaned entry where only segments
        are there, or none. */
    function RunEntry(): Option<RunMeta>
      reads this, dir
    {
      if dir.meta.Some? then dir.meta
      else if dir.segments != map[] then Some(RunMeta("orphaned", |dir.segments|, 0, None, None))
      else None
    }

    /** The open writer, or a new one that resumes the run from a working listing. */
    method OpenWriter(resumeExisting: bool) returns (w: Writer)
      requires Valid()
      modifies this, dir`meta
      ensures Valid() && w == writer && w.Valid() && w.codec == codec && w.runId == runId && w.dir == dir
      ensures w.buffer == old(Pending())
      ensures w == old(writer) || fresh(w)
      ensures resumeExisting && old(RunEntry()).Some? ==> dir.meta == old(dir.meta)
    {
      if writer != null {
        return writer;
      }
      var resumeMeta := if resumeExisting then RunEntry() else None;
      var names := dir.ListNames();
      w := new Writer(codec, runId, segmentSize, dir, resumeMeta, Some(names));
      writer := w;
    }

    /** Append the event that ends the run, and close it; false for a status that ends no run. */
    method RecordRunTerminal(status: string, body: string, error: Option<string>, now: real) returns (ok: bool)
      requires Valid()
      modifies this, dir, writer
      ensures Valid() && dir.OnlyAdded() && ok == IsOver(status)
      ensures !ok ==> dir.texts == old(dir.texts) && dir.batches == old(dir.batches) && dir.meta == old(dir.meta)
      ensures ok ==> EndsWithOne(old(dir.texts), old(dir.batches), old(Pending()), ClosingTypes()[status], body)
      ensures ok ==> writer == null && dir.meta.Some? && dir.meta.value.status == status
      ensures ok ==> dir.meta.value.completedAt == Some(now) && dir.meta.value.error == error
    {
      if !(status == "complete" || status == "failed" || status == "abandoned") {
        return false;
      }
      var w := OpenWriter(true);
      var event := w.Append(TerminalEvent(status), body, true, false);
      w.Finalize(status, error, now);
      writer := null;
      ok := true;
    }

    /** The directory holds one segment more than `texts`: the pending events, then one event that ends
        the run. */
    ghost predicate EndsWithOne(texts: seq<string>, batches: seq<seq<WalEvent>>, pending: seq<WalEvent>,
                                eventType: string, body: string)
      reads dir
    {
      var closing := WalEvent(EventId(runId, |texts|, |pending|), eventType, SCHEMA_VERSION, body);
      dir.batches == batches + [pending + [closing]] && dir.texts == texts + [Text(codec, pending + [closing])]
    }

    /** Close a run unless it is closed; `None` where there is no such run, else whether it was closed. */
    method AbandonRun(body: string, reason: string, now: real) returns (abandoned: Option<bool>)
      requires Valid()
      modifies this, dir, writer
      ensures Valid() && dir.OnlyAdded()
      ensures abandoned == (if old(RunEntry()).None? then None else Some(!IsOver(old(RunEntry()).value.status)))
      ensures abandoned != Some(true) ==>
                dir.texts == old(dir.texts) && dir.batches == old(dir.batches) && dir.meta == old(dir.meta)
      ensures abandoned == Some(true) ==>
                && EndsWithOne(old(dir.texts), old(dir.batches), old(Pending()), "run_abandoned", body)
                && writer == null && dir.meta.Some? && dir.meta.value.status == "abandoned"
    {
      var entry := RunEntry();
      if entry.None? {
        return None;
      }
      if IsTerminal(entry.value.status) {
        return Some(false);
      }
      AbandonedEnds();
      var ok := RecordRunTerminal("abandoned", body, Some(reason), now);
      abandoned := Some(true);
    }
  }

  /** Abandon the run in a process that has not opened it, and once more. */
  method AbandonTwice(codec: Codec, runId: string, dir: RunDirectory, body: string, reason: string, now: real)
    returns (first: Option<bool>, second: Option<bool>)
    requires dir.Valid(codec, runId) && dir.segments != map[]
    requires dir.meta.Some? ==> !IsOver(dir.meta.value.status)
    modifies dir
    ensures first == Some(true) && second == Some(false) && dir.OnlyAdded()
    ensures dir.meta.Some? && dir.meta.value.status == "abandoned"
    ensures dir.texts == old(dir.texts) + [Text(codec, [] + [AbandonEvent(runId, |old(dir.texts)|, body)])]
  {
    var recorder := new Recorder(codec, runId, 1, dir);
    assert recorder.RunEntry().Some? && !IsOver(recorder.RunEntry().value.status);
    first := recorder.AbandonRun(body, reason, now);
    second := recorder.AbandonRun(body, reason, now);
  }

  /** However the directory is listed, the run reads as every whole event of the crashed run, whose
      last segment was cut, and then the closing event. */
  ghost predicate ReadsClosed(c: Codec, now: seq<string>, texts: seq<string>, batches: seq<seq<WalEvent>>,
                              closing: WalEvent, status: string)
    requires 0 < |texts| == |batches|
  {
    forall listing :: IsListing(listing, now) ==> ListingReadsClosed(c, listing, texts, batches, closing, status)
  }

  ghost predicate ListingReadsClosed(c: Codec, listing: seq<LogFile>, texts: seq<string>,
                                     batches: seq<seq<WalEvent>>, closing: WalEvent, status: string)
    requires 0 < |texts| == |batches|
  {
    var segments := ReadFiles(c, EventFiles(listing));
    var n := |texts| - 1;
    && RunReadable(segments, status)
    && AllEvents(segments) == Written(batches, 0, n) + batches[n][..Kept(c, batches[n], |texts[n]|)] + [closing]
  }

  lemma ClosedReads(c: Codec, texts: seq<string>, batches: seq<seq<WalEvent>>, closing: WalEvent, status: string)
    requires Lawful(c) && HoldsBatches(c, texts, batches) && 0 < |texts| < 100000
    requires WholeBetween(c, texts, batches, 0, |texts| - 1)
    requires closing.schema == SCHEMA_VERSION && IsClosing(closing)
    ensures ReadsClosed(c, texts + [Text(c, [closing])], texts, batches, closing, status)
  {
    forall listing | IsListing(listing, texts + [Text(c, [closing])])
      ensures ListingReadsClosed(c, listing, texts, batches, closing, status)
    {
      ClosedCrashedRun(c, listing, texts, batches, closing, status);
    }
  }

  /** The entry that replay makes of a run with this metadata; `log` is what its segments read as. */
  function EntryOf(runId: string, meta: RunMeta, log: Option<seq<Event>>): CompactCache.Run {
    CompactCache.Run(runId, meta.status, if meta.completedAt.Some? then meta.completedAt.value else 0.0, log)
  }

  /** Whatever the segments of the run read as, and whatever other runs there are, no reader of the
      control plane sees a record of this run. */
  ghost predicate NeverProjected(runId: string, meta: RunMeta) {
    forall log, a, b, latest :: CompactCache.LeavesNoTrace(EntryOf(runId, meta, log), a, b, latest)
  }

  /** A run that ended other than complete puts nothing into the projection. */
  lemma OnlyCompleteRunsProject(runId: string, meta: RunMeta)
    requires meta.status != "complete"
    ensures NeverProjected(runId, meta)
  {
    forall log, a, b, latest ensures CompactCache.LeavesNoTrace(EntryOf(runId, meta, log), a, b, latest) {
      CompactCache.IncompleteRunIsIgnored(a, EntryOf(runId, meta, log), b, latest);
    }
  }

  /** A crash cut the last segment of a run anywhere; another process abandons the run, twice. */
  method AbandonAfterCrash(codec: Codec, runId: string, dir: RunDirectory, body: string, reason: string, now: real)
    returns (first: Option<bool>, second: Option<bool>)
    requires Lawful(codec) && dir.Valid(codec, runId) && 0 < |dir.texts| < 100000
    requires WholeBetween(codec, dir.texts, dir.batches, 0, |dir.texts| - 1)
    requires dir.meta.Some? ==> !IsOver(dir.meta.value.status)
    modifies dir
    ensures first == Some(true) && second == Some(false) && dir.OnlyAdded()
    ensures dir.meta.Some? && dir.meta.value.status == "abandoned" && NeverProjected(runId, dir.meta.value)
    ensures |dir.texts| == |old(dir.texts)| + 1
    ensures ReadsClosed(codec, dir.texts, old(dir.texts), old(dir.batches), AbandonEvent(runId, |old(dir.texts)|, body),
                        "abandoned")
  {
    ghost var texts, batches := dir.texts, dir.batches;
    ghost var closing := AbandonEvent(runId, |texts|, body);
    ClosedReads(codec, texts, batches, closing, "abandoned");
    assert [] + [closing] == [closing];
    assert SegmentName(0) in dir.segments;
    first, second := AbandonTwice(codec, runId, dir, body, reason, now);
    OnlyCompleteRunsProject(runId, dir.meta.value);
  }

  function AbandonEvent(runId: string, part: nat, body: string): WalEvent {
    WalEvent(EventId(runId, part, 0), "run_abandoned", SCHEMA_VERSION, body)
  }
}
