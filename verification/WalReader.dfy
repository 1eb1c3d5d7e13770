/** Reading the event log of a run: the lines of a segment, the segments of a run, torn tails. */
module WalReader {
  import opened Ordering
  import opened Wrappers
  import opened ControlRecords
  import opened SegmentNames

  /** `body` stands for the fields the reader passes on unread. */
  datatype WalEvent = WalEvent(eventId: string, eventType: string, schema: string, body: string)

  datatype LineText = NotJson | NotObject | Object(event: WalEvent)

  /** How events are written as text, and what a text parses to. */
  datatype Codec = Codec(encode: WalEvent -> string, parse: string -> LineText)

  predicate Printable(s: string) {
    forall i :: 0 <= i < |s| ==> 0x20 <= s[i] as int < 0x7f
  }

  /** An event is written as a JSON object in printable ASCII; it parses back, and no strict prefix
      of it is JSON. */
  ghost predicate WritesBack(c: Codec, e: WalEvent) {
    var text := c.encode(e);
    && 2 <= |text| && text[0] == '{' && text[|text| - 1] == '}' && Printable(text)
    && c.parse(text) == Object(e)
    && forall n :: 0 < n < |text| ==> c.parse(text[..n]) == NotJson
  }

  ghost predicate Lawful(c: Codec) {
    forall e :: WritesBack(c, e)
  }

  // ---------------------------------------------------------------- text

  /** White space that `str.strip` removes. */
  predicate IsSpace(c: char) {
    var n := c as int;
    9 <= n <= 13 || 28 <= n <= 32 || n == 0x85 || n == 0xa0 || n == 0x1680 || 0x2000 <= n <= 0x200a
    || n == 0x2028 || n == 0x2029 || n == 0x202f || n == 0x205f || n == 0x3000
  }

  /** A character that ends a line for `str.splitlines`. A carriage return before a line feed makes
      a further blank line here, which no verdict below depends on. */
  predicate IsBreak(c: char) {
    var n := c as int;
    10 <= n <= 13 || 28 <= n <= 30 || n == 0x85 || n == 0x2028 || n == 0x2029
  }

  function StripLeft(s: string): string {
    if s != [] && IsSpace(s[0]) then StripLeft(s[1..]) else s
  }

  function StripRight(s: string): string {
    if s != [] && IsSpace(s[|s| - 1]) then StripRight(s[..|s| - 1]) else s
  }

  function Strip(s: string): string {
    StripLeft(StripRight(s))
  }

  function FirstBreak(s: string): (k: nat)
    ensures k <= |s|
  {
    if s == [] || IsBreak(s[0]) then 0 else 1 + FirstBreak(s[1..])
  }

  /** The lines of a text, each with its line break. */
  function Lines(s: string): seq<string>
    decreases |s|
  {
    var k := FirstBreak(s);
    if s == [] then [] else if k == |s| then [s] else [s[..k + 1]] + Lines(s[k + 1..])
  }

  // ---------------------------------------------------------------- what lines are

  /** The white space that `str.strip` removes, by code point. */
  ghost predicate IsBlankCode(n: int) {
    n in {9, 10, 11, 12, 13, 28, 29, 30, 31, 32, 0x85, 0xa0, 0x1680, 0x2028, 0x2029, 0x202f, 0x205f, 0x3000}
    || 0x2000 <= n <= 0x200a
  }

  /** The characters that `str.splitlines` breaks lines at, by code point. */
  ghost predicate IsBreakCode(n: int) {
    n in {10, 11, 12, 13, 28, 29, 30, 0x85, 0x2028, 0x2029}
  }

  ghost predicate AllBlank(s: string) {
    forall i :: 0 <= i < |s| ==> IsBlankCode(s[i] as int)
  }

  /** What is left of a text starts and ends with no white space; what went is white space. */
  ghost predicate IsStripped(s: string, a: string, t: string, b: string) {
    && s == a + t + b && AllBlank(a) && AllBlank(b)
    && (t != "" ==> !IsBlankCode(t[0] as int) && !IsBlankCode(t[|t| - 1] as int))
  }

  lemma {:induction false} StripRightMeaning(s: string) returns (b: string)
    ensures var t := StripRight(s);
            s == t + b && AllBlank(b) && (t != "" ==> !IsBlankCode(t[|t| - 1] as int))
  {
    b := "";
    if s != [] && IsSpace(s[|s| - 1]) {
      var c := StripRightMeaning(s[..|s| - 1]);
      b := c + [s[|s| - 1]];
    }
  }

  lemma {:induction false} StripLeftMeaning(s: string) returns (a: string)
    ensures var t := StripLeft(s);
            s == a + t && AllBlank(a) && (t != "" ==> !IsBlankCode(t[0] as int) && t[|t| - 1] == s[|s| - 1])
  {
    a := "";
    if s != [] && IsSpace(s[0]) {
      var c := StripLeftMeaning(s[1..]);
      a := [s[0]] + c;
    }
  }

  lemma StripMeaning(s: string) returns (a: string, b: string)
    ensures IsStripped(s, a, Strip(s), b)
  {
    b := StripRightMeaning(s);
    a := StripLeftMeaning(StripRight(s));
  }

  /** A line breaks nowhere but at its end, and does so unless it is the last. */
  ghost predicate IsLine(line: string, last: bool) {
    && line != ""
    && (forall i :: 0 <= i < |line| - 1 ==> !IsBreakCode(line[i] as int))
    && (!last ==> IsBreakCode(line[|line| - 1] as int))
  }

  function Glued(lines: seq<string>): string {
    if lines == [] then "" else lines[0] + Glued(lines[1..])
  }

  lemma {:induction false} FirstBreakMeaning(s: string)
    ensures forall i :: 0 <= i < FirstBreak(s) ==> !IsBreakCode(s[i] as int)
    ensures FirstBreak(s) < |s| ==> IsBreakCode(s[FirstBreak(s)] as int)
  {
    if s != [] && !IsBreak(s[0]) {
      FirstBreakMeaning(s[1..]);
      forall i | 0 <= i < FirstBreak(s) ensures !IsBreakCode(s[i] as int) {
        assert i > 0 ==> s[i] == s[1..][i - 1];
      }
    }
  }

  /** The lines of a text make up the text and break where it does. */
  lemma {:induction false} LinesMeaning(s: string)
    ensures Glued(Lines(s)) == s
    ensures forall i :: 0 <= i < |Lines(s)| ==> IsLine(Lines(s)[i], i == |Lines(s)| - 1)
    decreases |s|
  {
    FirstBreakMeaning(s);
    var k := FirstBreak(s);
    if s != [] && k < |s| {
      LinesMeaning(s[k + 1..]);
      assert s == s[..k + 1] + s[k + 1..];
      var rest := Lines(s[k + 1..]);
      forall i | 0 <= i < |Lines(s)| ensures IsLine(Lines(s)[i], i == |Lines(s)| - 1) {
        assert i > 0 ==> Lines(s)[i] == rest[i - 1];
      }
    } else if s != [] {
      assert Lines(s) == [s] && [s][1..] == [];
    }
  }

  // ---------------------------------------------------------------- one segment

  datatype LineVerdict = Blank | Bad | Rejected | Parsed(event: WalEvent)

  function Judge(c: Codec, line: string): LineVerdict {
    if Strip(line) == "" then Blank
    else match c.parse(Strip(line))
      case NotJson => Bad
      case NotObject => Rejected
      case Object(e) => if e.schema == SCHEMA_VERSION then Parsed(e) else Rejected
  }

  /** A line is blank, or an event of schema version v2 between white space, or not to be read. */
  lemma JudgeMeaning(c: Codec, line: string)
    ensures Judge(c, line).Blank? <==> AllBlank(line)
    ensures forall e :: Judge(c, line) == Parsed(e) ==>
              e.schema == "v2" && exists a, t, b :: IsStripped(line, a, t, b) && t != "" && c.parse(t) == Object(e)
    ensures Judge(c, line).Bad? ==> exists a, t, b :: IsStripped(line, a, t, b) && t != "" && c.parse(t) == NotJson
    ensures forall a, t, b, e :: IsStripped(line, a, t, b) && t != "" && c.parse(t) == Object(e) && e.schema == "v2" ==>
              Judge(c, line) == Parsed(e)
  {
    var a, b := StripMeaning(line);
    var t := Strip(line);
    BlankIsAllBlank(line, a, t, b);
    forall a2, t2, b2 | IsStripped(line, a2, t2, b2) && t2 != "" ensures t2 == t {
      StrippedOnce(line, a, t, b, a2, t2, b2);
    }
  }

  lemma BlankIsAllBlank(line: string, a: string, t: string, b: string)
    requires IsStripped(line, a, t, b)
    ensures t == "" <==> AllBlank(line)
  {
    if t != "" {
      assert line[|a|] == t[0];
    }
  }

  lemma StrippedOnce(line: string, a: string, t: string, b: string, a2: string, t2: string, b2: string)
    requires IsStripped(line, a, t, b) && IsStripped(line, a2, t2, b2) && t2 != ""
    ensures t2 == t
  {
    BlankIsAllBlank(line, a, t, b);
    BlankIsAllBlank(line, a2, t2, b2);
    StartsNoLater(line, a, t, b, a2, t2, b2);
    StartsNoLater(line, a2, t2, b2, a, t, b);
    assert t == line[|a|..|a| + |t|] && t2 == line[|a2|..|a2| + |t2|];
  }

  lemma StartsNoLater(line: string, a: string, t: string, b: string, a2: string, t2: string, b2: string)
    requires IsStripped(line, a, t, b) && IsStripped(line, a2, t2, b2) && t2 != ""
    ensures |a| <= |a2| && |a2| + |t2| <= |a| + |t|
  {
    assert forall k :: 0 <= k < |a| ==> line[k] == a[k];
    assert forall k :: |a| + |t| <= k < |line| ==> line[k] == b[k - |a| - |t|];
    assert line[|a2|] == t2[0] && line[|a2| + |t2| - 1] == t2[|t2| - 1];
  }

  datatype Segment = Corrupt | Segment(events: seq<WalEvent>, tornTail: bool)

  /** Read lines; a last line that is not JSON is a torn tail where `mayTear` allows one. */
  function ReadLines(c: Codec, lines: seq<string>, mayTear: bool): Segment {
    if lines == [] then Segment([], false)
    else match Judge(c, lines[0])
      case Blank => ReadLines(c, lines[1..], mayTear)
      case Bad => if |lines| == 1 && mayTear then Segment([], true) else Corrupt
      case Rejected => Corrupt
      case Parsed(e) => Prepended([e], ReadLines(c, lines[1..], mayTear))
  }

  function Prepended(events: seq<WalEvent>, s: Segment): Segment {
    if s.Corrupt? then Corrupt else Segment(events + s.events, s.tornTail)
  }

  function ReadText(c: Codec, text: string): Segment {
    ReadLines(c, Lines(text), !EndsWith(text, "\n"))
  }

  predicate Fine(v: LineVerdict) {
    v.Blank? || v.Parsed?
  }

  /** The events of every line that holds one, in order. */
  function ParsedEvents(c: Codec, lines: seq<string>): seq<WalEvent> {
    if lines == [] then []
    else (match Judge(c, lines[0]) case Parsed(e) => [e] case _ => []) + ParsedEvents(c, lines[1..])
  }

  /** A segment reads exactly when every line is blank or an event, except that the last one may fail
      to be JSON where a torn tail may be; then every line that holds an event is returned. */
  lemma {:induction false} SegmentVerdict(c: Codec, lines: seq<string>, mayTear: bool)
    ensures var last := |lines| - 1; var r := ReadLines(c, lines, mayTear);
            && (r.Segment? <==>
                && (forall i :: 0 <= i < last ==> Fine(Judge(c, lines[i])))
                && (lines != [] ==> Fine(Judge(c, lines[last])) || (mayTear && Judge(c, lines[last]).Bad?)))
            && (r.Segment? ==>
                && r.events == ParsedEvents(c, lines)
                && (r.tornTail <==> lines != [] && Judge(c, lines[last]).Bad?))
  {
    if lines != [] {
      SegmentVerdict(c, lines[1..], mayTear);
      if |lines| == 1 {
        assert lines[1..] == [];
      } else {
        var rest := lines[1..];
        assert forall i :: 0 <= i < |rest| ==> rest[i] == lines[i + 1];
        assert (forall i :: 0 <= i < |lines| - 1 ==> Fine(Judge(c, lines[i]))) <==>
               Fine(Judge(c, lines[0])) && forall i :: 0 <= i < |rest| - 1 ==> Fine(Judge(c, rest[i])) by {
          if forall i :: 0 <= i < |lines| - 1 ==> Fine(Judge(c, lines[i])) {
            forall i | 0 <= i < |rest| - 1 ensures Fine(Judge(c, rest[i])) {
              assert rest[i] == lines[i + 1];
            }
          }
          if Fine(Judge(c, lines[0])) && forall i :: 0 <= i < |rest| - 1 ==> Fine(Judge(c, rest[i])) {
            forall i | 0 <= i < |lines| - 1 ensures Fine(Judge(c, lines[i])) {
              if i > 0 { assert lines[i] == rest[i - 1]; }
            }
          }
        }
      }
    }
  }

  lemma ReadLinesFrom(c: Codec, lines: seq<string>, i: nat, mayTear: bool)
    requires i < |lines|
    ensures ReadLines(c, lines[i..], mayTear) ==
            match Judge(c, lines[i])
            case Blank => ReadLines(c, lines[i + 1..], mayTear)
            case Bad => if i == |lines| - 1 && mayTear then Segment([], true) else Corrupt
            case Rejected => Corrupt
            case Parsed(e) => Prepended([e], ReadLines(c, lines[i + 1..], mayTear))
  {
    assert lines[i..][0] == lines[i] && lines[i..][1..] == lines[i + 1..];
  }

  lemma PrependedTwice(a: seq<WalEvent>, b: seq<WalEvent>, s: Segment)
    ensures Prepended(a, Prepended(b, s)) == Prepended(a + b, s)
  {
    if s.Segment? {
      assert a + (b + s.events) == (a + b) + s.events;
    }
  }

  /** `None` text stands for a segment that cannot be opened or read. */
  method ReadRunSegment(c: Codec, payload: Option<string>, allowTornTail: bool) returns (r: Segment)
    ensures r == if payload.None? then Corrupt
                 else ReadLines(c, Lines(payload.value), allowTornTail && !EndsWith(payload.value, "\n"))
  {
    if payload.None? {
      return Corrupt;
    }
    var text := payload.value;
    var lines := Lines(text);
    ghost var mayTear := allowTornTail && !EndsWith(text, "\n");
    var events := [];
    var recoveredTail := false;
    var i := 0;
    while i < |lines| && !recoveredTail
      invariant 0 <= i <= |lines|
      invariant ReadLines(c, lines, mayTear) ==
                Prepended(events, if recoveredTail then Segment([], true) else ReadLines(c, lines[i..], mayTear))
    {
      ReadLinesFrom(c, lines, i, mayTear);
      var line := Strip(lines[i]);
      if line != "" {
        match c.parse(line)
        case NotJson =>
          var isLastLine := i == |lines| - 1;
          if !(allowTornTail && isLastLine && !EndsWith(text, "\n")) {
            return Corrupt;
          }
          recoveredTail := true;
        case NotObject =>
          return Corrupt;
        case Object(event) =>
          if event.schema != SCHEMA_VERSION {
            return Corrupt;
          }
          PrependedTwice(events, [event], ReadLines(c, lines[i + 1..], mayTear));
          events := events + [event];
      }
      i := i + 1;
    }
    r := Segment(events, recoveredTail);
  }

  // ---------------------------------------------------------------- the segments of a run

  datatype LogFile = LogFile(name: string, text: Option<string>)

  predicate IsLog(f: LogFile) {
    EndsWith(f.name, ".jsonl")
  }

  function NameKey(f: LogFile): SortKey {
    SortKey(0.0, f.name)
  }

  function EventFiles(listing: seq<LogFile>): seq<LogFile> {
    Sort(Filter(listing, IsLog), NameKey)
  }

  /** The name ends in `.jsonl`. */
  ghost predicate HoldsLog(f: LogFile) {
    |f.name| >= 6 && f.name[|f.name| - 6..] == ".jsonl"
  }

  /** The reader takes each file that holds log lines as often as it is listed, and no other, in text
      order of the names. */
  lemma EventFilesMeaning(listing: seq<LogFile>)
    ensures forall f :: multiset(EventFiles(listing))[f] == if HoldsLog(f) then multiset(listing)[f] else 0
    ensures forall i, j :: 0 <= i < j < |EventFiles(listing)| ==>
              EventFiles(listing)[i].name == EventFiles(listing)[j].name
              || TextBefore(EventFiles(listing)[i].name, EventFiles(listing)[j].name)
  {
    var files := EventFiles(listing);
    SortSorts(Filter(listing, IsLog), NameKey);
    forall f ensures multiset(files)[f] == if HoldsLog(f) then multiset(listing)[f] else 0 {
      FilterMeaning(listing, IsLog, f);
    }
    forall i, j | 0 <= i < j < |files| ensures files[i].name == files[j].name || TextBefore(files[i].name, files[j].name) {
      StringLeMeaning(files[i].name, files[j].name);
    }
  }

  function ReadFile(c: Codec, f: LogFile): Segment {
    if f.text.None? then Corrupt else ReadText(c, f.text.value)
  }

  function ReadFiles(c: Codec, files: seq<LogFile>): seq<Segment> {
    if files == [] then [] else ReadFiles(c, files[..|files| - 1]) + [ReadFile(c, files[|files| - 1])]
  }

  /** The events of segments `lo` up to `hi`, one after the other. */
  function EventsBetween(segments: seq<Segment>, lo: nat, hi: nat): seq<WalEvent>
    requires hi <= |segments|
  {
    if hi <= lo then []
    else
      var last := segments[hi - 1];
      EventsBetween(segments, lo, hi - 1) + (if last.Segment? then last.events else [])
  }

  function AllEvents(segments: seq<Segment>): seq<WalEvent> {
    EventsBetween(segments, 0, |segments|)
  }

  predicate IsTerminal(status: string) {
    status == "complete" || status == "failed" || status == "abandoned"
  }

  predicate EndsRun(e: WalEvent) {
    e.eventType == "run_completed" || e.eventType == "run_failed" || e.eventType == "run_abandoned"
  }

  predicate AllEndRun(events: seq<WalEvent>) {
    forall i :: 0 <= i < |events| ==> EndsRun(events[i])
  }

  /** The three statuses after which a run takes no more events. */
  ghost predicate IsOver(status: string) {
    status in {"complete", "failed", "abandoned"}
  }

  /** The three events that close a run. */
  ghost predicate IsClosing(e: WalEvent) {
    e.eventType in {"run_completed", "run_failed", "run_abandoned"}
  }

  ghost predicate AllClosing(events: seq<WalEvent>) {
    forall e :: e in events ==> IsClosing(e)
  }

  lemma EndingEvents(events: seq<WalEvent>)
    ensures AllEndRun(events) <==> AllClosing(events)
  {
    forall i | 0 <= i < |events| ensures EndsRun(events[i]) <==> IsClosing(events[i]) {
    }
    if AllClosing(events) {
      forall i | 0 <= i < |events| ensures EndsRun(events[i]) {
        assert events[i] in events;
      }
    }
  }

  predicate TornAt(segments: seq<Segment>, p: int) {
    0 <= p < |segments| && segments[p].Segment? && segments[p].tornTail
  }

  /** A torn tail at segment `p` can be passed over. */
  ghost predicate Recoverable(segments: seq<Segment>, p: int, status: string)
    requires 0 <= p < |segments|
  {
    if p == |segments| - 1 then !IsOver(status)
    else EventsBetween(segments, p + 1, |segments|) != [] && AllClosing(EventsBetween(segments, p + 1, |segments|))
  }

  /** What the reader accepts: every segment reads, at most one tail is torn, and it is recoverable. */
  ghost predicate RunReadable(segments: seq<Segment>, status: string) {
    && (forall p :: 0 <= p < |segments| ==> segments[p].Segment?)
    && (forall p, q :: TornAt(segments, p) && TornAt(segments, q) ==> p == q)
    && (forall p :: TornAt(segments, p) ==> Recoverable(segments, p, status))
  }

  ghost predicate ReadAs(c: Codec, files: seq<LogFile>, segments: seq<Segment>) {
    |segments| == |files| && forall p :: 0 <= p < |files| ==> segments[p] == ReadFile(c, files[p])
  }

  lemma ReadFilesAt(c: Codec, files: seq<LogFile>)
    ensures ReadAs(c, files, ReadFiles(c, files))
  {
    if files != [] {
      ReadFilesAt(c, files[..|files| - 1]);
    }
  }

  /** The first `i` segments read, with `torn` their one torn tail. */
  ghost predicate TornSoFar(segments: seq<Segment>, i: nat, torn: Option<nat>) {
    && i <= |segments|
    && (forall p :: 0 <= p < i ==> segments[p].Segment?)
    && (forall p :: p < i && TornAt(segments, p) ==> torn.Some? && torn.value == p)
    && (torn.Some? ==> torn.value < i && TornAt(segments, torn.value))
  }

  lemma TornStep(segments: seq<Segment>, i: nat, torn: Option<nat>)
    requires TornSoFar(segments, i, torn) && i < |segments|
    requires segments[i].Segment? && !(segments[i].tornTail && torn.Some?)
    ensures TornSoFar(segments, i + 1, if segments[i].tornTail then Some(i) else torn)
  {
    if segments[i].tornTail {
      assert forall p :: p < i ==> !TornAt(segments, p);
    }
  }

  lemma ReadVerdict(segments: seq<Segment>, torn: Option<nat>, status: string)
    requires TornSoFar(segments, |segments|, torn)
    ensures RunReadable(segments, status) <==> torn.None? || Recoverable(segments, torn.value, status)
  {
  }

  lemma StopVerdict(segments: seq<Segment>, i: nat, torn: Option<nat>, status: string)
    requires TornSoFar(segments, i, torn) && i < |segments|
    requires segments[i].Corrupt? || (TornAt(segments, i) && torn.Some?)
    ensures !RunReadable(segments, status)
  {
  }

  function LaterEvents(segments: seq<Segment>, torn: Option<nat>, i: nat): seq<WalEvent>
    requires torn.Some? ==> torn.value < i <= |segments|
  {
    if torn.Some? then EventsBetween(segments, torn.value + 1, i) else []
  }

  lemma LaterStep(segments: seq<Segment>, i: nat, torn: Option<nat>)
    requires TornSoFar(segments, i, torn) && i < |segments|
    requires segments[i].Segment? && !(segments[i].tornTail && torn.Some?)
    ensures var torn2 := if segments[i].tornTail then Some(i) else torn;
            LaterEvents(segments, torn2, i + 1) ==
            LaterEvents(segments, torn, i) + (if torn2.Some? && i > torn2.value then segments[i].events else [])
  {
  }

  method ReadLogFile(c: Codec, f: LogFile) returns (segment: Segment)
    ensures segment == ReadFile(c, f)
  {
    segment := ReadRunSegment(c, f.text, true);
  }

  /** Read the segments in order, with the position of a torn tail and the events after it. */
  method ReadSegments(c: Codec, files: seq<LogFile>, ghost segments: seq<Segment>, ghost status: string)
    returns (ok: bool, events: seq<WalEvent>, torn: Option<nat>, laterTerminalEvents: seq<WalEvent>)
    requires ReadAs(c, files, segments)
    ensures !ok ==> !RunReadable(segments, status)
    ensures ok ==> TornSoFar(segments, |files|, torn) && events == AllEvents(segments)
    ensures ok ==> laterTerminalEvents == LaterEvents(segments, torn, |files|)
  {
    hide ReadFile, RunReadable;
    events, torn, laterTerminalEvents := [], None, [];
    for i := 0 to |files|
      invariant TornSoFar(segments, i, torn)
      invariant events == EventsBetween(segments, 0, i)
      invariant laterTerminalEvents == LaterEvents(segments, torn, i)
    {
      var segment := ReadLogFile(c, files[i]);
      assert segment == segments[i];
      if segment.Corrupt? || (segment.tornTail && torn.Some?) {
        StopVerdict(segments, i, torn, status);
        return false, events, torn, laterTerminalEvents;
      }
      TornStep(segments, i, torn);
      LaterStep(segments, i, torn);
      if segment.tornTail {
        torn := Some(i);
      }
      events := events + segment.events;
      if torn.Some? && i > torn.value {
        laterTerminalEvents := laterTerminalEvents + segment.events;
      }
    }
    ok := true;
  }

  /** `None` where the source raises; a `None` listing is a failed one. */
  method ReadRunEvents(c: Codec, listing: Option<seq<LogFile>>, status: string) returns (read: Option<seq<WalEvent>>)
    ensures read.Some? <==> listing.Some? && RunReadable(ReadFiles(c, EventFiles(listing.value)), status)
    ensures read.Some? ==> read.value == AllEvents(ReadFiles(c, EventFiles(listing.value)))
  {
    if listing.None? {
      return None;
    }
    var files := EventFiles(listing.value);
    ghost var segments := ReadFiles(c, files);
    ReadFilesAt(c, files);
    var ok, events, torn, laterTerminalEvents := ReadSegments(c, files, segments, status);
    if !ok {
      return None;
    }
    ReadVerdict(segments, torn, status);
    if torn.None? {
      return Some(events);
    }
    EndingEvents(laterTerminalEvents);
    var lastSegmentIndex := |files| - 1;
    if torn.value == lastSegmentIndex && !IsTerminal(status) {
      return Some(events);
    }
    if torn.value < lastSegmentIndex && laterTerminalEvents != [] && AllEndRun(laterTerminalEvents) {
      return Some(events);
    }
    read := None;
  }
}
