/** The text of a run's segments as the writer leaves it, cut anywhere by a crash, and what the reader
    makes of it. */
module RunLog {
  import opened Ordering
  import opened Wrappers
  import opened ControlRecords
  import opened SegmentNames
  import opened WalReader

  /** One line for each event. */
  function Text(c: Codec, batch: seq<WalEvent>): string {
    if batch == [] then "" else c.encode(batch[0]) + "\n" + Text(c, batch[1..])
  }

  /** How many events of a batch can be read from the first `n` characters of its text. */
  function Kept(c: Codec, batch: seq<WalEvent>, n: nat): (k: nat)
    ensures k <= |batch|
  {
    if batch == [] || n < |c.encode(batch[0])| then 0 else 1 + Kept(c, batch[1..], Rest(c, batch, n))
  }

  /** The first `n` characters of a batch's text end inside an event. */
  predicate Tears(c: Codec, batch: seq<WalEvent>, n: nat) {
    batch != [] && n > 0 && (n < |c.encode(batch[0])| || Tears(c, batch[1..], Rest(c, batch, n)))
  }

  function Rest(c: Codec, batch: seq<WalEvent>, n: nat): nat
    requires batch != []
  {
    var line := |c.encode(batch[0])| + 1;
    if n < line then 0 else n - line
  }

  ghost predicate AllVersioned(batch: seq<WalEvent>) {
    forall e :: e in batch ==> e.schema == SCHEMA_VERSION
  }

  // ---------------------------------------------------------------- the lines of a cut text

  lemma {:induction false} FirstBreakAfter(s: string, r: string)
    requires Printable(s)
    ensures FirstBreak(s) == |s| && (r != [] && IsBreak(r[0]) ==> FirstBreak(s + r) == |s|)
  {
    if s != [] {
      FirstBreakAfter(s[1..], r);
      assert (s + r)[1..] == s[1..] + r;
    } else {
      assert s + r == r;
    }
  }

  lemma {:induction false} StripRightKeepsHead(s: string)
    requires s != [] && !IsSpace(s[0])
    ensures 0 < |StripRight(s)| <= |s| && StripRight(s) == s[..|StripRight(s)|]
  {
    if IsSpace(s[|s| - 1]) {
      StripRightKeepsHead(s[..|s| - 1]);
    }
  }

  /** A line that holds a whole event, with or without its line feed. */
  lemma WholeLine(c: Codec, e: WalEvent)
    requires WritesBack(c, e) && e.schema == SCHEMA_VERSION
    ensures Judge(c, c.encode(e)) == Parsed(e) && Judge(c, c.encode(e) + "\n") == Parsed(e)
  {
    var text := c.encode(e);
    assert StripRight(text) == text && StripLeft(text) == text;
    assert (text + "\n")[..|text|] == text;
    assert StripRight(text + "\n") == StripRight(text);
  }

  /** A line that holds a strict prefix of an event. */
  lemma CutLine(c: Codec, e: WalEvent, n: nat)
    requires WritesBack(c, e) && 0 < n < |c.encode(e)|
    ensures Judge(c, c.encode(e)[..n]) == Bad
  {
    var text := c.encode(e)[..n];
    StripRightKeepsHead(text);
    var k := |StripRight(text)|;
    assert Strip(text) == text[..k] == c.encode(e)[..k];
  }

  lemma LinesOfCut(c: Codec, e: WalEvent, n: nat, r: string)
    requires WritesBack(c, e)
    ensures 0 < n <= |c.encode(e)| ==> Lines(c.encode(e)[..n]) == [c.encode(e)[..n]] && !EndsWith(c.encode(e)[..n], "\n")
    ensures Lines(c.encode(e) + "\n" + r) == [c.encode(e) + "\n"] + Lines(r)
  {
    var text := c.encode(e);
    if 0 < n <= |text| {
      FirstBreakAfter(text[..n], []);
      assert text[..n][n - 1] != '\n';
    }
    FirstBreakAfter(text, "\n" + r);
    assert text + "\n" + r == text + ("\n" + r);
    assert (text + "\n" + r)[..|text| + 1] == text + "\n" && (text + "\n" + r)[|text| + 1..] == r;
  }

  /** A text cut inside or at the end of its first event. */
  lemma ReadCutLine(c: Codec, e: WalEvent, n: nat)
    requires WritesBack(c, e) && e.schema == SCHEMA_VERSION && 0 < n <= |c.encode(e)|
    ensures ReadLines(c, Lines(c.encode(e)[..n]), true) ==
            if n < |c.encode(e)| then Segment([], true) else Segment([e], false)
  {
    var text := c.encode(e);
    LinesOfCut(c, e, n, "");
    if n < |text| {
      CutLine(c, e, n);
    } else {
      assert text[..n] == text;
      WholeLine(c, e);
    }
  }

  lemma ReadWholeLine(c: Codec, e: WalEvent, r: string, mayTear: bool)
    requires WritesBack(c, e) && e.schema == SCHEMA_VERSION
    ensures ReadLines(c, Lines(c.encode(e) + "\n" + r), mayTear) == Prepended([e], ReadLines(c, Lines(r), mayTear))
  {
    LinesOfCut(c, e, 0, r);
    WholeLine(c, e);
    assert ([c.encode(e) + "\n"] + Lines(r))[1..] == Lines(r);
  }

  lemma CutOfText(c: Codec, batch: seq<WalEvent>, n: nat)
    requires batch != [] && n <= |Text(c, batch)|
    ensures n <= |c.encode(batch[0])| ==> Text(c, batch)[..n] == c.encode(batch[0])[..n]
    ensures n > |c.encode(batch[0])| ==> Rest(c, batch, n) <= |Text(c, batch[1..])|
    ensures n > |c.encode(batch[0])| ==>
              Text(c, batch)[..n] == c.encode(batch[0]) + "\n" + Text(c, batch[1..])[..Rest(c, batch, n)]
  {
    assert Text(c, batch) == c.encode(batch[0]) + "\n" + Text(c, batch[1..]);
  }

  /** The text is cut in its first line. */
  lemma ReadCutFirst(c: Codec, batch: seq<WalEvent>, n: nat)
    requires Lawful(c) && AllVersioned(batch) && batch != [] && 0 < n <= |c.encode(batch[0])| && n <= |Text(c, batch)|
    ensures ReadLines(c, Lines(Text(c, batch)[..n]), true) == Segment(batch[..Kept(c, batch, n)], Tears(c, batch, n))
    ensures !EndsWith(Text(c, batch)[..n], "\n")
  {
    assert WritesBack(c, batch[0]);
    CutOfText(c, batch, n);
    KeptNothing(c, batch[1..]);
    LinesOfCut(c, batch[0], n, "");
    ReadCutLine(c, batch[0], n);
    assert batch[..1] == [batch[0]] && batch[..0] == [];
  }

  /** The text is cut after its first line. */
  lemma ReadCutLater(c: Codec, batch: seq<WalEvent>, n: nat, mayTear: bool, rest: Segment)
    requires Lawful(c) && AllVersioned(batch) && batch != [] && |c.encode(batch[0])| < n <= |Text(c, batch)|
    requires Rest(c, batch, n) <= |Text(c, batch[1..])|
    requires rest == ReadLines(c, Lines(Text(c, batch[1..])[..Rest(c, batch, n)]), mayTear)
    ensures ReadLines(c, Lines(Text(c, batch)[..n]), mayTear) == Prepended([batch[0]], rest)
  {
    assert WritesBack(c, batch[0]);
    CutOfText(c, batch, n);
    ReadWholeLine(c, batch[0], Text(c, batch[1..])[..Rest(c, batch, n)], mayTear);
  }

  /** Reading a text cut at any character gives exactly the events that are whole, in order, and finds
      a torn tail exactly when the cut is inside an event. */
  lemma {:induction false} ReadCut(c: Codec, batch: seq<WalEvent>, n: nat, mayTear: bool)
    requires Lawful(c) && AllVersioned(batch) && n <= |Text(c, batch)|
    requires n > 0 ==> mayTear == !EndsWith(Text(c, batch)[..n], "\n")
    ensures ReadLines(c, Lines(Text(c, batch)[..n]), mayTear) == Segment(batch[..Kept(c, batch, n)], Tears(c, batch, n))
    decreases batch
  {
    hide Lines, ReadLines, Lawful, EndsWith;
    if n == 0 {
      KeptNothing(c, batch);
      ReadNothing(c, mayTear);
    } else if n <= |c.encode(batch[0])| {
      ReadCutFirst(c, batch, n);
    } else {
      var m := Rest(c, batch, n);
      CutOfText(c, batch, n);
      SameEnd(c.encode(batch[0]) + "\n", Text(c, batch[1..])[..m]);
      ReadCut(c, batch[1..], m, mayTear);
      ReadCutLater(c, batch, n, mayTear, Segment(batch[1..][..Kept(c, batch[1..], m)], Tears(c, batch[1..], m)));
      assert [batch[0]] + batch[1..][..Kept(c, batch[1..], m)] == batch[..1 + Kept(c, batch[1..], m)];
    }
  }

  lemma ReadNothing(c: Codec, mayTear: bool)
    ensures ReadLines(c, Lines(""), mayTear) == Segment([], false)
  {
  }

  lemma KeptNothing(c: Codec, batch: seq<WalEvent>)
    requires Lawful(c)
    ensures Kept(c, batch, 0) == 0 && !Tears(c, batch, 0)
  {
    if batch != [] {
      assert WritesBack(c, batch[0]);
    }
  }

  lemma SameEnd(a: string, b: string)
    ensures b != [] ==> EndsWith(a + b, "\n") == EndsWith(b, "\n")
  {
    if b != [] {
      assert (a + b)[|a + b| - 1..] == b[|b| - 1..];
    }
  }

  /** What `Kept` and `Tears` mean in the text: an event is kept when all of it is there, its line feed
      or not, and the text is torn when it goes past the last kept line. */
  lemma {:induction false} CutMeaning(c: Codec, batch: seq<WalEvent>, n: nat, j: nat)
    requires Lawful(c) && n <= |Text(c, batch)| && 0 < j <= |batch|
    ensures j <= Kept(c, batch, n) <==> |Text(c, batch[..j])| <= n + 1
    ensures Tears(c, batch, n) <==> Kept(c, batch, n) < |batch| && |Text(c, batch[..Kept(c, batch, n)])| < n
    decreases batch
  {
    var text, rest := c.encode(batch[0]), batch[1..];
    assert WritesBack(c, batch[0]);
    var k := Kept(c, batch, n);
    assert batch[..j][1..] == rest[..j - 1];
    if n < |text| {
      assert batch[..0] == [];
    } else {
      assert batch[..k][1..] == rest[..k - 1];
      if rest == [] {
        assert k == 1 && j == 1;
      } else if n <= |text| + 1 {
        KeptNothing(c, rest);
        assert rest[..0] == [];
        if j > 1 {
          assert WritesBack(c, rest[0]);
          TextOfPrefix(c, rest, j - 1);
        }
      } else {
        CutMeaning(c, rest, n - |text| - 1, if j == 1 then 1 else j - 1);
        assert rest[..0] == [];
      }
    }
  }

  lemma TextOfPrefix(c: Codec, batch: seq<WalEvent>, j: nat)
    requires Lawful(c) && 0 < j <= |batch|
    ensures |Text(c, batch[..j])| >= 3
  {
    assert WritesBack(c, batch[0]);
  }

  /** An uncut text gives the whole batch. */
  lemma {:induction false} KeptAll(c: Codec, batch: seq<WalEvent>)
    requires Lawful(c)
    ensures Kept(c, batch, |Text(c, batch)|) == |batch| && !Tears(c, batch, |Text(c, batch)|)
    decreases batch
  {
    if batch != [] {
      KeptAll(c, batch[1..]);
    }
  }

  // ---------------------------------------------------------------- a run's directory

  function FileOf(texts: seq<string>, p: nat): LogFile
    requires p < |texts|
  {
    LogFile(SegmentName(p), Some(texts[p]))
  }

  /** The segments in the order of writing. */
  function Files(texts: seq<string>): (files: seq<LogFile>)
    ensures |files| == |texts| && forall p :: 0 <= p < |texts| ==> files[p] == FileOf(texts, p)
  {
    seq(|texts|, p requires 0 <= p < |texts| => FileOf(texts, p))
  }

  /** `listing` lists the segments with these texts in any order, among other files. */
  ghost predicate IsListing(listing: seq<LogFile>, texts: seq<string>) {
    forall f :: HoldsLog(f) ==> multiset(listing)[f] == multiset(Files(texts))[f]
  }

  lemma SegmentsHoldLog(texts: seq<string>)
    ensures forall f :: f in Files(texts) ==> HoldsLog(f)
  {
  }

  lemma ListedSegments(listing: seq<LogFile>, texts: seq<string>)
    requires IsListing(listing, texts)
    ensures multiset(EventFiles(listing)) == multiset(Files(texts))
  {
    EventFilesMeaning(listing);
    SegmentsHoldLog(texts);
    forall f ensures multiset(EventFiles(listing))[f] == multiset(Files(texts))[f] {
      assert f in Files(texts) <==> f in multiset(Files(texts));
    }
  }

  /** The reader takes the segments in the order of writing. */
  lemma EventFilesInOrder(listing: seq<LogFile>, texts: seq<string>)
    requires IsListing(listing, texts) && |texts| <= 100000
    ensures EventFiles(listing) == Files(texts)
  {
    var files := Files(texts);
    ListedSegments(listing, texts);
    SortSorts(Filter(listing, IsLog), NameKey);
    forall i, j | 0 <= i < j < |files| ensures KeyLe(NameKey(files[i]), NameKey(files[j])) {
      NameOrder(i, j);
    }
    forall i, j | 0 <= i < |files| && 0 <= j < |files| && NameKey(files[i]) == NameKey(files[j])
      ensures files[i] == files[j]
    {
      NamesDiffer(i, j);
    }
    SortedIsUnique(files, EventFiles(listing), NameKey);
  }

  /** Every segment holds its batch, possibly cut short by a crash. */
  ghost predicate HoldsBatches(c: Codec, texts: seq<string>, batches: seq<seq<WalEvent>>) {
    && |texts| == |batches|
    && forall p :: 0 <= p < |texts| ==> texts[p] <= Text(c, batches[p]) && AllVersioned(batches[p])
  }

  /** The readable part of a segment that holds `text` of `batch`. */
  function ReadPart(c: Codec, text: string, batch: seq<WalEvent>): Segment {
    Segment(batch[..Kept(c, batch, |text|)], Tears(c, batch, |text|))
  }

  function Read(c: Codec, texts: seq<string>, batches: seq<seq<WalEvent>>): (segments: seq<Segment>)
    requires |texts| == |batches|
    ensures |segments| == |texts|
    ensures forall p :: 0 <= p < |texts| ==> segments[p] == ReadPart(c, texts[p], batches[p])
  {
    seq(|texts|, p requires 0 <= p < |texts| => ReadPart(c, texts[p], batches[p]))
  }

  /** Any number of crashes and resumes: each segment reads as the whole events before its cut. */
  lemma ReadsAsWritten(c: Codec, listing: seq<LogFile>, texts: seq<string>, batches: seq<seq<WalEvent>>)
    requires Lawful(c) && HoldsBatches(c, texts, batches) && IsListing(listing, texts) && |texts| <= 100000
    ensures ReadFiles(c, EventFiles(listing)) == Read(c, texts, batches)
  {
    EventFilesInOrder(listing, texts);
    ReadFilesAt(c, Files(texts));
    forall p | 0 <= p < |texts| ensures ReadFiles(c, Files(texts))[p] == Read(c, texts, batches)[p] {
      ReadTextCut(c, texts[p], batches[p]);
    }
  }

  lemma ReadTextCut(c: Codec, text: string, batch: seq<WalEvent>)
    requires Lawful(c) && AllVersioned(batch) && text <= Text(c, batch)
    ensures ReadText(c, text) == ReadPart(c, text, batch)
  {
    assert Text(c, batch)[..|text|] == text;
    ReadCut(c, batch, |text|, !EndsWith(text, "\n"));
  }

  /** The events of batches `lo` up to `hi`, one after the other. */
  function Written(batches: seq<seq<WalEvent>>, lo: nat, hi: nat): seq<WalEvent>
    requires hi <= |batches|
  {
    if hi <= lo then [] else Written(batches, lo, hi - 1) + batches[hi - 1]
  }

  ghost predicate WholeBetween(c: Codec, texts: seq<string>, batches: seq<seq<WalEvent>>, lo: nat, hi: nat)
    requires hi <= |texts| == |batches|
  {
    forall p :: lo <= p < hi ==> texts[p] == Text(c, batches[p])
  }

  lemma WholeSegment(c: Codec, text: string, batch: seq<WalEvent>)
    requires Lawful(c) && text == Text(c, batch)
    ensures ReadPart(c, text, batch) == Segment(batch, false)
  {
    KeptAll(c, batch);
  }

  lemma WholeNotTorn(c: Codec, texts: seq<string>, batches: seq<seq<WalEvent>>, lo: nat, hi: nat)
    requires Lawful(c) && hi <= |texts| == |batches| && WholeBetween(c, texts, batches, lo, hi)
    ensures forall p :: lo <= p < hi ==> !TornAt(Read(c, texts, batches), p)
  {
    forall p | lo <= p < hi ensures !TornAt(Read(c, texts, batches), p) {
      WholeSegment(c, texts[p], batches[p]);
    }
  }

  lemma {:induction false} WholeSegments(c: Codec, texts: seq<string>, batches: seq<seq<WalEvent>>, lo: nat, hi: nat)
    requires Lawful(c) && lo <= hi <= |texts| == |batches| && WholeBetween(c, texts, batches, lo, hi)
    ensures EventsBetween(Read(c, texts, batches), lo, hi) == Written(batches, lo, hi)
  {
    if lo < hi {
      WholeSegments(c, texts, batches, lo, hi - 1);
      WholeSegment(c, texts[hi - 1], batches[hi - 1]);
    }
  }

  /** A run that one crash cut at segment `p` and that resumed, or not, with whole segments: it reads
      exactly when the cut was between events, or nothing came after it and the run is not terminal,
      or what came after only ends the run. */
  lemma CrashVerdict(c: Codec, listing: seq<LogFile>, texts: seq<string>, batches: seq<seq<WalEvent>>, p: nat,
                     status: string)
    requires Lawful(c) && HoldsBatches(c, texts, batches) && IsListing(listing, texts) && p < |texts| <= 100000
    requires WholeBetween(c, texts, batches, 0, p) && WholeBetween(c, texts, batches, p + 1, |texts|)
    ensures var later := Written(batches, p + 1, |batches|);
            RunReadable(ReadFiles(c, EventFiles(listing)), status) <==>
            || !Tears(c, batches[p], |texts[p]|)
            || (p == |texts| - 1 && !IsOver(status))
            || (later != [] && AllClosing(later))
    ensures AllEvents(ReadFiles(c, EventFiles(listing))) ==
            Written(batches, 0, p) + batches[p][..Kept(c, batches[p], |texts[p]|)] + Written(batches, p + 1, |batches|)
  {
    ReadsAsWritten(c, listing, texts, batches);
    WholeNotTorn(c, texts, batches, 0, p);
    WholeNotTorn(c, texts, batches, p + 1, |texts|);
    WholeSegments(c, texts, batches, 0, p);
    WholeSegments(c, texts, batches, p + 1, |texts|);
    var segments := Read(c, texts, batches);
    EventsSplit(segments, p);
    OneTornVerdict(segments, p, status);
  }

  lemma {:induction false} EventsSplitTo(segments: seq<Segment>, p: nat, hi: nat)
    requires p < hi <= |segments| && segments[p].Segment?
    ensures EventsBetween(segments, 0, hi) ==
            EventsBetween(segments, 0, p) + segments[p].events + EventsBetween(segments, p + 1, hi)
  {
    if p + 1 < hi {
      EventsSplitTo(segments, p, hi - 1);
    }
  }

  lemma EventsSplit(segments: seq<Segment>, p: nat)
    requires p < |segments| && segments[p].Segment?
    ensures AllEvents(segments) ==
            EventsBetween(segments, 0, p) + segments[p].events + EventsBetween(segments, p + 1, |segments|)
  {
    EventsSplitTo(segments, p, |segments|);
  }

  lemma OneTornVerdict(segments: seq<Segment>, p: nat, status: string)
    requires p < |segments| && forall q :: 0 <= q < |segments| ==> segments[q].Segment?
    requires forall q :: 0 <= q < |segments| && q != p ==> !TornAt(segments, q)
    ensures RunReadable(segments, status) <==> !TornAt(segments, p) || Recoverable(segments, p, status)
  {
  }

  /** A crash that cuts the last segment anywhere: the run, not yet terminal, reads as every event of
      the earlier segments and then the whole events of the last one, a prefix of what was appended. */
  lemma CrashPrefix(c: Codec, listing: seq<LogFile>, texts: seq<string>, batches: seq<seq<WalEvent>>, status: string)
    requires Lawful(c) && HoldsBatches(c, texts, batches) && IsListing(listing, texts) && 0 < |texts| <= 100000
    requires WholeBetween(c, texts, batches, 0, |texts| - 1) && !IsOver(status)
    ensures var segments := ReadFiles(c, EventFiles(listing));
            var last := batches[|batches| - 1];
            && RunReadable(segments, status)
            && AllEvents(segments) == Written(batches, 0, |batches| - 1) + last[..Kept(c, last, |texts[|texts| - 1]|)]
            && Written(batches, 0, |batches| - 1) <= AllEvents(segments) <= Written(batches, 0, |batches|)
  {
    CrashVerdict(c, listing, texts, batches, |texts| - 1, status);
  }

  /** The directory after the writer that resumed it has written one more segment. */
  lemma HoldsOneMore(c: Codec, texts: seq<string>, batches: seq<seq<WalEvent>>, batch: seq<WalEvent>)
    requires HoldsBatches(c, texts, batches) && AllVersioned(batch)
    ensures HoldsBatches(c, texts + [Text(c, batch)], batches + [batch])
  {
  }

  /** A run whose last segment a crash cut anywhere, closed by one more segment that holds only the
      event that ends it: whatever its status, it reads as every whole event and then that one. */
  lemma ClosedCrashedRun(c: Codec, listing: seq<LogFile>, texts: seq<string>, batches: seq<seq<WalEvent>>,
                         closing: WalEvent, status: string)
    requires Lawful(c) && HoldsBatches(c, texts, batches) && 0 < |texts| < 100000
    requires WholeBetween(c, texts, batches, 0, |texts| - 1)
    requires closing.schema == SCHEMA_VERSION && IsClosing(closing)
    requires IsListing(listing, texts + [Text(c, [closing])])
    ensures var segments := ReadFiles(c, EventFiles(listing));
            var last := batches[|batches| - 1];
            && RunReadable(segments, status)
            && AllEvents(segments) ==
               Written(batches, 0, |batches| - 1) + last[..Kept(c, last, |texts[|texts| - 1]|)] + [closing]
  {
    var n := |texts|;
    var batches2 := batches + [[closing]];
    HoldsOneMore(c, texts, batches, [closing]);
    CrashVerdict(c, listing, texts + [Text(c, [closing])], batches2, n - 1, status);
    WrittenPrefix(batches, [[closing]], n - 1);
    assert Written(batches2, n, n + 1) == Written(batches2, n, n) + [closing];
  }

  lemma {:induction false} WrittenPrefix(a: seq<seq<WalEvent>>, b: seq<seq<WalEvent>>, hi: nat)
    requires hi <= |a|
    ensures Written(a + b, 0, hi) == Written(a, 0, hi)
  {
    if hi > 0 {
      WrittenPrefix(a, b, hi - 1);
    }
  }

  // ---------------------------------------------------------------- event ids

  /** Each event's id names its segment and its position there. */
  ghost predicate IdsFrom(runId: string, batches: seq<seq<WalEvent>>) {
    forall p, i :: 0 <= p < |batches| && 0 <= i < |batches[p]| ==> batches[p][i].eventId == EventId(runId, p, i)
  }

  /** All event ids of a run are distinct, whatever part of it was persisted by which writer. */
  lemma PersistedIdsDiffer(runId: string, batches: seq<seq<WalEvent>>, p: nat, i: nat, q: nat, j: nat)
    requires IdsFrom(runId, batches)
    requires p < |batches| && i < |batches[p]| && q < |batches| && j < |batches[q]|
    requires batches[p][i].eventId == batches[q][j].eventId
    ensures p == q && i == j
  {
    assert batches[p][i].eventId == EventId(runId, p, i);
    assert batches[q][j].eventId == EventId(runId, q, j);
    EventIdsDiffer(runId, p, i, q, j);
  }
}
