/** What holds after any interleaving: the link between each handle's validator, its confirmed
    revision and its unconfirmed revisions, and the generations of the record. */
module ClaimInvariant {
  import opened Wrappers
  import opened ClaimRecords
  import opened ClaimProtocol

  ghost predicate ByHandle(author: Author, inc: Id) {
    author == ByBeat(inc) || author == ByRetire(inc)
  }

  ghost predicate WrittenFor(author: Author, inc: Id) {
    author == ByAcquire(inc) || ByHandle(author, inc)
  }

  /** An unapplied heartbeat of `inc` that expects generation `validator`. */
  ghost predicate BeatInFlight(w: Issued, inc: Id, validator: nat) {
    && w.author == ByBeat(inc)
    && w.status.Flying?
    && w.request.Replace?
    && w.request.expected == validator
    && w.request.content.Record?
  }

  /** An unapplied heartbeat or retire of `inc`. */
  ghost predicate InFlight(w: Issued, inc: Id) {
    ByHandle(w.author, inc) && w.status.Flying? && !w.request.Create?
  }

  /** The revisions the handle may still find as its own, besides its confirmed one. */
  ghost function Known(h: Handle, phase: Phase): set<Id> {
    h.unconfirmed +
    (match phase
     case Beating(_, revision, _) => {revision}
     case Reconciling(attempted, _) => {attempted}
     case _ => {})
  }

  ghost predicate KnownRevision(h: Handle, phase: Phase, revision: Option<Id>) {
    revision.Some? && revision.value in Known(h, phase)
  }

  /** One issued write: when it was applied, it replaced exactly the generation it expected. */
  ghost predicate WriteInv(s: Sys, w: Issued)
    requires s.Shaped()
  {
    && IdsBelow(After(w.request), s.unused)
    && (!w.request.Create? ==> w.request.expected <= s.Now() && s.hist[w.request.expected].Record?)
    && (w.status.Done? ==>
          && 0 < w.status.at <= s.Now()
          && s.hist[w.status.at] == After(w.request)
          && (if w.request.Create? then s.hist[w.status.at - 1].Absent? else w.request.expected == w.status.at - 1))
    && (w.status.Refused? && !w.request.Create? ==> w.request.expected < s.Now())
    && AuthorInv(s, w)
  }

  ghost predicate AuthorInv(s: Sys, w: Issued)
    requires s.Shaped()
    requires !w.request.Create? ==> w.request.expected <= s.Now() && s.hist[w.request.expected].Record?
  {
    match w.author
    case ByAcquire(inc) =>
      && inc in s.procs
      && HeldBy(After(w.request), inc)
      && (w.request.Replace? ==> s.hist[w.request.expected].state.Released?)
    case ByBeat(inc) =>
      && IsHolding(s, inc)
      && w.request.Replace?
      && HeldBy(w.request.content, inc)
      && w.request.content.info.revision.Some?
      && HeldBy(s.hist[w.request.expected], inc)
      && s.procs[inc].born <= w.request.expected <= s.procs[inc].h.validator
    case ByRetire(inc) =>
      && IsHolding(s, inc)
      && s.procs[inc].h.stop
      && !w.request.Create?
      && !IsHeld(After(w.request))
      && HeldBy(s.hist[w.request.expected], inc)
      && s.procs[inc].born <= w.request.expected <= s.procs[inc].h.validator + 1
    case ByOperator(judgement) =>
      && !w.request.Create?
      && !IsHeld(After(w.request))
      && IsHeld(s.hist[w.request.expected])
      && Judged(judgement, s.hist[w.request.expected].info)
  }

  /** The handle's own generations, and the revisions it may find there. */
  ghost predicate HandleInv(s: Sys, inc: Id)
    requires s.Shaped() && IsHolding(s, inc)
  {
    var p := s.procs[inc];
    var h := p.h;
    && h.info.incarnation == Some(inc)
    && h.info.revision.Some?
    && h.info.revision.value < s.unused
    && (forall id :: id in Known(h, p.phase) ==> id < s.unused && id != h.info.revision.value)
    && 0 < p.born <= h.validator <= s.Now()
    && (forall k :: p.born <= k <= h.validator ==> HeldBy(s.hist[k], inc))
    && s.hist[h.validator].info.revision == h.info.revision
    && (forall k :: h.validator + 1 < k < |s.hist| ==> !HeldBy(s.hist[k], inc))
    && (p.alive || !h.lost ==>
          h.validator + 1 < |s.hist| && HeldBy(s.hist[h.validator + 1], inc) ==>
            KnownRevision(h, p.phase, s.hist[h.validator + 1].info.revision))
    && (h.lost ==> h.validator < s.Now())
    && (h.lost && p.alive ==> !HeldBy(s.hist[s.Now()], inc))
    && (h.released ==> p.phase.Idle? && h.stop)
    && (h.released && !h.lost ==> !HeldBy(s.hist[s.Now()], inc))
  }

  /** The writes of the acquisition are settled, and so are the handle's once it is lost. */
  ghost predicate OwnWritesInv(s: Sys, inc: Id)
    requires s.Shaped() && IsHolding(s, inc)
  {
    var p := s.procs[inc];
    var h := p.h;
    && (forall i :: 0 <= i < |s.writes| && s.writes[i].author == ByAcquire(inc) ==> !s.writes[i].status.Flying?)
    && (p.alive || !h.lost ==>
          forall i :: 0 <= i < |s.writes| && BeatInFlight(s.writes[i], inc, h.validator) ==>
            KnownRevision(h, p.phase, s.writes[i].request.content.info.revision))
    && (h.lost ==>
          forall i :: 0 <= i < |s.writes| && InFlight(s.writes[i], inc) ==>
            s.writes[i].request.expected < s.Now())
    && (p.phase.Beating? || p.phase.Reconciling? ==>
          forall i :: 0 <= i < |s.writes| ==> s.writes[i].author != ByRetire(inc))
  }

  ghost predicate PhaseInv(s: Sys, inc: Id)
    requires s.Shaped() && IsHolding(s, inc)
  {
    var h := s.procs[inc].h;
    match s.procs[inc].phase
    case Idle => true
    case Beating(write, revision, at) =>
      && write < |s.writes|
      && s.writes[write].author == ByBeat(inc)
      && s.writes[write].request == BeatRequest(h, revision, at)
      && (h.lost ==> s.procs[inc].alive && !s.writes[write].status.Done?)
    case Reconciling(_, refused) =>
      && (refused ==> h.validator < s.Now())
      && (h.lost ==> s.procs[inc].alive)
    case Retiring(write, attempt) =>
      && write < |s.writes|
      && s.writes[write].author == ByRetire(inc)
      && !s.writes[write].request.Create?
      && s.writes[write].request.expected == h.validator + attempt
      && attempt <= 1
      && h.stop
      && !h.lost
    case RetireReading(attempt) =>
      attempt <= 1 && h.validator + attempt < s.Now() && h.stop && !h.lost
  }

  ghost predicate AcquiringInv(s: Sys, inc: Id)
    requires s.Shaped() && inc in s.procs && !s.procs[inc].Holding?
  {
    match s.procs[inc]
    case Creating(info, write) =>
      && InfoInv(s, info, inc)
      && write < |s.writes|
      && s.writes[write].author == ByAcquire(inc)
      && After(s.writes[write].request) == Record(info, Held)
      && (forall i :: 0 <= i < |s.writes| && s.writes[i].author == ByAcquire(inc) ==> i == write)
    case Looking(info) =>
      && InfoInv(s, info, inc)
      && (forall i :: 0 <= i < |s.writes| && s.writes[i].author == ByAcquire(inc) ==> !s.writes[i].status.Flying?)
    case Taking(info, write) =>
      && InfoInv(s, info, inc)
      && write < |s.writes|
      && s.writes[write].author == ByAcquire(inc)
      && s.writes[write].request.Replace?
      && s.writes[write].request.content == Record(info, Held)
      && (forall i :: 0 <= i < |s.writes| && i != write && s.writes[i].author == ByAcquire(inc) ==>
            !s.writes[i].status.Flying? &&
            (s.writes[i].status.Done? ==> s.writes[i].status.at <= s.writes[write].request.expected))
    case GaveUp => true
  }

  ghost predicate InfoInv(s: Sys, info: Info, inc: Id) {
    && info.incarnation == Some(inc)
    && info.revision.Some?
    && info.revision.value < s.unused
  }

  ghost predicate ProcInv(s: Sys, inc: Id)
    requires s.Shaped() && inc in s.procs
  {
    && inc < s.unused
    && !HeldBy(s.hist[0], inc)
    && (if s.procs[inc].Holding? then HandleInv(s, inc) && OwnWritesInv(s, inc) && PhaseInv(s, inc)
        else AcquiringInv(s, inc))
  }

  /** Each generation after the first was made by one write. */
  ghost predicate HistInv(s: Sys)
    requires s.Shaped()
  {
    && (forall k :: 0 <= k < |s.hist| ==> IdsBelow(s.hist[k], s.unused))
    && (forall k :: 0 < k < |s.hist| ==> s.makers[k] < |s.writes| && s.writes[s.makers[k]].status == Done(k))
    && (forall k, inc :: 0 < k < |s.hist| && HeldBy(s.hist[k], inc) ==> inc in s.procs)
  }

  ghost predicate Inv(s: Sys) {
    && s.Shaped()
    && HistInv(s)
    && (forall i :: 0 <= i < |s.writes| ==> WriteInv(s, s.writes[i]))
    && (forall inc :: inc in s.procs ==> ProcInv(s, inc))
  }

  // ---------------------------------------------------------------- preservation

  lemma InitInv(s: Sys)
    requires Init(s)
    ensures Inv(s)
  {
  }

  lemma RefusePreserves(s: Sys, write: nat)
    requires Inv(s) && write < |s.writes| && s.writes[write].status.Flying?
    requires !Matches(s.writes[write].request, s.hist)
    ensures Inv(Delivered(s, write))
  {
    var t := Delivered(s, write);
    forall i | 0 <= i < |t.writes| ensures WriteInv(t, t.writes[i]) {
      assert WriteInv(s, s.writes[i]);
    }
    forall inc | inc in t.procs ensures ProcInv(t, inc) {
      assert ProcInv(s, inc);
      if s.procs[inc].Holding? {
        RefuseKeepsHandle(s, t, write, inc);
      }
    }
  }

  lemma RefuseKeepsHandle(s: Sys, t: Sys, write: nat, inc: Id)
    requires s.Shaped() && write < |s.writes| && s.writes[write].status.Flying? && IsHolding(s, inc)
    requires t == s.(writes := s.writes[write := s.writes[write].(status := Refused)])
    requires HandleInv(s, inc) && OwnWritesInv(s, inc) && PhaseInv(s, inc)
    ensures HandleInv(t, inc) && OwnWritesInv(t, inc) && PhaseInv(t, inc)
  {
    assert HandleInv(t, inc);
    forall i | 0 <= i < |t.writes|
      ensures t.writes[i].author == s.writes[i].author && t.writes[i].request == s.writes[i].request
      ensures t.writes[i].status.Flying? ==> t.writes[i] == s.writes[i]
    {
    }
  }

  lemma CommitPreserves(s: Sys, write: nat)
    requires Inv(s) && write < |s.writes| && s.writes[write].status.Flying?
    requires Matches(s.writes[write].request, s.hist)
    ensures Inv(Delivered(s, write))
  {
    var t := Delivered(s, write);
    assert WriteInv(s, s.writes[write]);
    forall i | 0 <= i < |t.writes| ensures WriteInv(t, t.writes[i]) {
      assert WriteInv(s, s.writes[i]);
      CommitKeepsWrite(s, t, write, i);
    }
    forall inc | inc in t.procs ensures ProcInv(t, inc) {
      assert ProcInv(s, inc);
      if t.procs[inc].Holding? {
        CommitKeepsHandle(s, t, write, inc);
      }
    }
  }

  lemma CommitKeepsWrite(s: Sys, t: Sys, write: nat, i: nat)
    requires s.Shaped() && write < |s.writes| && s.writes[write].status.Flying?
    requires t == Delivered(s, write) && Matches(s.writes[write].request, s.hist)
    requires i < |s.writes| && WriteInv(s, s.writes[i])
    ensures WriteInv(t, t.writes[i])
  {
    assert forall k :: 0 <= k < |s.hist| ==> t.hist[k] == s.hist[k];
  }

  /** A commit that leaves the record held by a handle's incarnation is a heartbeat of that handle,
      over a generation it held. */
  lemma CommitKeepsHandle(s: Sys, t: Sys, write: nat, inc: Id)
    requires s.Shaped() && write < |s.writes| && s.writes[write].status.Flying? && IsHolding(s, inc)
    requires t == Delivered(s, write) && Matches(s.writes[write].request, s.hist)
    requires WriteInv(s, s.writes[write]) && ProcInv(s, inc)
    ensures ProcInv(t, inc)
  {
    var w := s.writes[write];
    if HeldBy(After(w.request), inc) {
      assert w.author == ByBeat(inc);
      assert HeldBy(s.hist[s.Now()], inc);
    }
    CommitKeepsGenerations(s, t, write, inc);
    CommitKeepsWrites(s, t, write, inc);
  }

  lemma CommitKeepsGenerations(s: Sys, t: Sys, write: nat, inc: Id)
    requires s.Shaped() && write < |s.writes| && IsHolding(s, inc) && s.writes[write].status.Flying?
    requires t == Delivered(s, write) && Matches(s.writes[write].request, s.hist)
    requires WriteInv(s, s.writes[write]) && HandleInv(s, inc) && OwnWritesInv(s, inc)
    requires HeldBy(After(s.writes[write].request), inc) ==>
               s.writes[write].author == ByBeat(inc) && HeldBy(s.hist[s.Now()], inc)
    ensures HandleInv(t, inc)
  {
    var h := s.procs[inc].h;
    var w := s.writes[write];
    assert t.hist[..|s.hist|] == s.hist;
    if HeldBy(After(w.request), inc) && (s.procs[inc].alive || !h.lost) {
      assert w.request.expected == s.Now() <= h.validator;
      assert BeatInFlight(w, inc, h.validator);
    }
  }

  lemma CommitKeepsWrites(s: Sys, t: Sys, write: nat, inc: Id)
    requires s.Shaped() && write < |s.writes| && IsHolding(s, inc) && s.writes[write].status.Flying?
    requires t == Delivered(s, write) && Matches(s.writes[write].request, s.hist)
    requires HandleInv(s, inc) && OwnWritesInv(s, inc) && PhaseInv(s, inc)
    ensures OwnWritesInv(t, inc) && PhaseInv(t, inc)
  {
    forall i | 0 <= i < |t.writes|
      ensures t.writes[i].author == s.writes[i].author
      ensures t.writes[i].status.Flying? ==> t.writes[i] == s.writes[i]
    {
    }
  }

  /** `t` is `s` with one process changed and at most one write issued on its behalf. */
  ghost predicate LocalStep(s: Sys, t: Sys, inc: Id) {
    && t.hist == s.hist
    && t.makers == s.makers
    && t.canDelete == s.canDelete
    && s.unused <= t.unused
    && |s.writes| <= |t.writes| <= |s.writes| + 1
    && (forall i :: 0 <= i < |s.writes| ==> t.writes[i] == s.writes[i])
    && (|s.writes| < |t.writes| ==>
          var w := t.writes[|s.writes|];
          w.status.Flying? && WrittenFor(w.author, inc))
    && inc in t.procs
    && t.procs == s.procs[inc := t.procs[inc]]
  }

  lemma OthersKept(s: Sys, t: Sys, inc: Id)
    requires Inv(s) && LocalStep(s, t, inc)
    ensures HistInv(t)
    ensures forall k :: k in t.procs && k != inc ==> ProcInv(t, k)
    ensures forall i :: 0 <= i < |s.writes| && !WrittenFor(s.writes[i].author, inc) ==> WriteInv(t, s.writes[i])
  {
    forall k | k in t.procs && k != inc ensures ProcInv(t, k) {
      assert ProcInv(s, k);
      OtherKept(s, t, inc, k);
    }
    forall i | 0 <= i < |s.writes| && !WrittenFor(s.writes[i].author, inc) ensures WriteInv(t, s.writes[i]) {
      assert WriteInv(s, s.writes[i]);
    }
  }

  lemma OtherKept(s: Sys, t: Sys, inc: Id, k: Id)
    requires s.Shaped() && LocalStep(s, t, inc) && k in s.procs && k != inc && ProcInv(s, k)
    ensures ProcInv(t, k)
  {
    assert t.procs[k] == s.procs[k];
    forall i | 0 <= i < |t.writes| && WrittenFor(t.writes[i].author, k)
      ensures i < |s.writes| && t.writes[i] == s.writes[i]
    {
    }
    if s.procs[k].Holding? {
      OtherHandleKept(s, t, inc, k);
    }
  }

  lemma OtherHandleKept(s: Sys, t: Sys, inc: Id, k: Id)
    requires s.Shaped() && LocalStep(s, t, inc) && IsHolding(s, k) && k != inc && t.procs[k] == s.procs[k]
    requires HandleInv(s, k) && OwnWritesInv(s, k) && PhaseInv(s, k)
    requires forall i :: 0 <= i < |t.writes| && WrittenFor(t.writes[i].author, k) ==>
               i < |s.writes| && t.writes[i] == s.writes[i]
    ensures HandleInv(t, k) && OwnWritesInv(t, k) && PhaseInv(t, k)
  {
    assert HandleInv(t, k);
    assert forall i :: 0 <= i < |t.writes| && InFlight(t.writes[i], k) ==> WrittenFor(t.writes[i].author, k);
    assert forall i, v :: 0 <= i < |t.writes| && BeatInFlight(t.writes[i], k, v) ==> WrittenFor(t.writes[i].author, k);
  }

  lemma Assemble(s: Sys, t: Sys, inc: Id)
    requires Inv(s) && LocalStep(s, t, inc) && ProcInv(t, inc)
    requires forall i :: 0 <= i < |t.writes| && WrittenFor(t.writes[i].author, inc) ==> WriteInv(t, t.writes[i])
    ensures Inv(t)
  {
    OthersKept(s, t, inc);
  }

  /** A handle that only moves forward keeps what is known of the writes issued for it. */
  lemma OwnKept(s: Sys, t: Sys, inc: Id)
    requires Inv(s) && LocalStep(s, t, inc) && inc in s.procs
    requires s.procs[inc].Holding? ==>
               && t.procs[inc].Holding?
               && t.procs[inc].born == s.procs[inc].born
               && s.procs[inc].h.validator <= t.procs[inc].h.validator
               && (s.procs[inc].h.stop ==> t.procs[inc].h.stop)
    ensures forall i :: 0 <= i < |s.writes| ==> WriteInv(s, s.writes[i])
    ensures forall i :: 0 <= i < |s.writes| && WrittenFor(s.writes[i].author, inc) ==> WriteInv(t, s.writes[i])
  {
    forall i | 0 <= i < |s.writes| && WrittenFor(s.writes[i].author, inc) ensures WriteInv(t, s.writes[i]) {
      assert WriteInv(s, s.writes[i]);
    }
  }

  lemma AcquireBeginPreserves(s: Sys, domain: string, owner: string, now: real, staleAfter: real)
    requires Inv(s)
    ensures Inv(Do(s, AcquireBegin(domain, owner, now, staleAfter)))
  {
    var inc := s.unused;
    var t := Do(s, AcquireBegin(domain, owner, now, staleAfter));
    forall k | k in s.procs ensures k < inc {
      assert ProcInv(s, k);
    }
    forall i | 0 <= i < |s.writes| ensures !WrittenFor(s.writes[i].author, inc) {
      assert WriteInv(s, s.writes[i]);
    }
    assert IdsBelow(s.hist[0], s.unused);
    Assemble(s, t, inc);
  }

  lemma AcquireLookPreserves(s: Sys, inc: Id, readable: bool)
    requires Inv(s) && Enabled(s, AcquireLook(inc, readable))
    ensures Inv(Do(s, AcquireLook(inc, readable)))
  {
    var t := Do(s, AcquireLook(inc, readable));
    assert ProcInv(s, inc);
    assert LocalStep(s, t, inc);
    OwnKept(s, t, inc);
    if t.procs[inc].Taking? {
      var w := t.writes[|s.writes|];
      assert WriteInv(t, w);
      assert AcquiringInv(t, inc);
    }
    Assemble(s, t, inc);
  }

  /** An acquisition that got an answer starts from the generation it wrote, and nothing of its
      incarnation was written after it. */
  lemma AcquireAnswerPreserves(s: Sys, inc: Id, answer: Answer)
    requires Inv(s) && Enabled(s, AcquireAnswer(inc, answer))
    ensures Inv(Do(s, AcquireAnswer(inc, answer)))
  {
    var t := Do(s, AcquireAnswer(inc, answer));
    assert ProcInv(s, inc);
    assert LocalStep(s, t, inc);
    forall i | 0 <= i < |s.writes| ensures WriteInv(s, s.writes[i]) && !ByHandle(s.writes[i].author, inc) {
      assert WriteInv(s, s.writes[i]);
    }
    forall i | 0 <= i < |s.writes| && WrittenFor(s.writes[i].author, inc) ensures WriteInv(t, s.writes[i]) {
      assert WriteInv(s, s.writes[i]);
    }
    if answer.Ok? {
      var at := s.writes[s.procs[inc].write].status.at;
      assert WriteInv(s, s.writes[s.procs[inc].write]);
      forall k | at < k < |s.hist| ensures !HeldBy(s.hist[k], inc) {
        BirthIsLast(s, inc, k);
      }
      BornKeeps(s, t, inc, at);
    }
    Assemble(s, t, inc);
  }

  lemma BornKeeps(s: Sys, t: Sys, inc: Id, at: nat)
    requires s.Shaped() && inc in s.procs && (s.procs[inc].Creating? || s.procs[inc].Taking?) && ProcInv(s, inc)
    requires s.writes[s.procs[inc].write].status == Done(at)
    requires 0 < at < |s.hist| && s.hist[at] == Record(s.procs[inc].info, Held)
    requires forall k :: at < k < |s.hist| ==> !HeldBy(s.hist[k], inc)
    requires t == s.(procs := s.procs[inc := Holding(NewHandle(s.procs[inc].info, at), Idle, at, true, false)])
    requires forall i :: 0 <= i < |s.writes| ==> !ByHandle(s.writes[i].author, inc)
    ensures ProcInv(t, inc)
  {
    assert HandleInv(t, inc);
    assert OwnWritesInv(t, inc);
  }

  lemma BirthIsLast(s: Sys, inc: Id, k: nat)
    requires Inv(s) && inc in s.procs && (s.procs[inc].Creating? || s.procs[inc].Taking?)
    requires ProcInv(s, inc) && s.writes[s.procs[inc].write].status.Done?
    requires s.writes[s.procs[inc].write].status.at < k < |s.hist|
    ensures !HeldBy(s.hist[k], inc)
  {
    var i := s.makers[k];
    var w := s.writes[i];
    assert w.status == Done(k);
    assert WriteInv(s, w) && WriteInv(s, s.writes[s.procs[inc].write]);
  }

  // ---------------------------------------------------------------- the local moves of a handle

  /** `t` changes only the process of a handle that stays a handle. */
  ghost predicate HandleStep(s: Sys, t: Sys, inc: Id) {
    && Inv(s)
    && IsHolding(s, inc)
    && ProcInv(s, inc)
    && IsHolding(t, inc)
    && t == s.(procs := s.procs[inc := t.procs[inc]])
    && t.procs[inc].born == s.procs[inc].born
  }

  /** The next own generation is adopted. */
  lemma AdoptPreserves(s: Sys, t: Sys, inc: Id, revision: Id, at: real)
    requires HandleStep(s, t, inc) && !s.procs[inc].h.lost && !s.procs[inc].h.released
    requires t.procs[inc].phase.Idle? && t.procs[inc].alive == s.procs[inc].alive
    requires s.procs[inc].h.validator + 1 <= s.Now()
    requires t.procs[inc].h == Adopted(s.procs[inc].h, s.procs[inc].h.validator + 1, revision, at)
    requires HeldBy(s.hist[s.procs[inc].h.validator + 1], inc)
    requires s.hist[s.procs[inc].h.validator + 1].info.revision == Some(revision)
    ensures Inv(t)
  {
    OwnKept(s, t, inc);
    assert IdsBelow(s.hist[s.procs[inc].h.validator + 1], s.unused);
    assert Known(t.procs[inc].h, t.procs[inc].phase) == {};
    assert HandleInv(t, inc);
    assert OwnWritesInv(t, inc);
    Assemble(s, t, inc);
  }

  /** The handle keeps its generation; it may learn of more revisions, and its phase may change. */
  lemma KeepPreserves(s: Sys, t: Sys, inc: Id)
    requires HandleStep(s, t, inc)
    requires t.procs[inc].alive == s.procs[inc].alive
    requires s.procs[inc].h.released ==> t.procs[inc].phase.Idle?
    requires t.procs[inc].h == s.procs[inc].h.(
               unconfirmed := t.procs[inc].h.unconfirmed,
               retireUncertain := t.procs[inc].h.retireUncertain,
               stop := t.procs[inc].h.stop)
    requires s.procs[inc].h.stop ==> t.procs[inc].h.stop
    requires Known(t.procs[inc].h, t.procs[inc].phase) == Known(s.procs[inc].h, s.procs[inc].phase)
    requires (t.procs[inc].phase.Beating? || t.procs[inc].phase.Reconciling?) ==>
               (s.procs[inc].phase.Beating? || s.procs[inc].phase.Reconciling?)
    requires PhaseInv(t, inc)
    ensures Inv(t)
  {
    OwnKept(s, t, inc);
    assert HandleInv(t, inc);
    assert OwnWritesInv(t, inc);
    Assemble(s, t, inc);
  }

  /** The handle is lost: the record is not its own any more, or its heartbeat thread ends with
      every write of the handle refused. */
  lemma LosePreserves(s: Sys, t: Sys, inc: Id)
    requires HandleStep(s, t, inc)
    requires t.procs[inc].phase.Idle? && t.procs[inc].h.lost && (t.procs[inc].alive ==> s.procs[inc].alive)
    requires t.procs[inc].h == s.procs[inc].h.(
               unconfirmed := t.procs[inc].h.unconfirmed,
               lost := true,
               released := t.procs[inc].h.released)
    requires Known(t.procs[inc].h, t.procs[inc].phase) <= Known(s.procs[inc].h, s.procs[inc].phase)
    requires t.procs[inc].h.released ==> t.procs[inc].h.stop
    requires !HeldBy(s.hist[s.Now()], inc) || s.procs[inc].h.lost ||
             (s.procs[inc].phase.Reconciling? && s.procs[inc].phase.refused)
    requires HeldBy(s.hist[s.Now()], inc) ==> !t.procs[inc].alive
    requires t.procs[inc].alive ==>
               Known(t.procs[inc].h, t.procs[inc].phase) == Known(s.procs[inc].h, s.procs[inc].phase)
    ensures Inv(t)
  {
    OwnKept(s, t, inc);
    assert HandleInv(t, inc);
    forall i | 0 <= i < |s.writes| && InFlight(s.writes[i], inc) ensures s.writes[i].request.expected < s.Now() {
      assert WriteInv(s, s.writes[i]);
    }
    assert OwnWritesInv(t, inc);
    Assemble(s, t, inc);
  }

  // ---------------------------------------------------------------- the steps of a handle

  lemma BeatBeginPreserves(s: Sys, inc: Id, now: real)
    requires Inv(s) && Enabled(s, BeatBegin(inc, now))
    ensures Inv(Do(s, BeatBegin(inc, now)))
  {
    var t := Do(s, BeatBegin(inc, now));
    assert ProcInv(s, inc);
    assert LocalStep(s, t, inc);
    OwnKept(s, t, inc);
    assert WriteInv(t, t.writes[|s.writes|]);
    forall i | 0 <= i < |s.writes| ensures s.writes[i].author != ByRetire(inc) {
      assert WriteInv(s, s.writes[i]);
    }
    BeatBegun(s, t, inc, now);
    Assemble(s, t, inc);
  }

  lemma BeatBegun(s: Sys, t: Sys, inc: Id, now: real)
    requires s.Shaped() && IsHolding(s, inc) && ProcInv(s, inc) && LocalStep(s, t, inc)
    requires s.procs[inc].phase.Idle? && s.procs[inc].alive && !s.procs[inc].h.stop
    requires t.procs[inc] == s.procs[inc].(phase := Beating(|s.writes|, s.unused, now))
    requires t.unused == s.unused + 1
    requires t.writes == s.writes + [Issued(ByBeat(inc), BeatRequest(s.procs[inc].h, s.unused, now), Flying)]
    requires forall i :: 0 <= i < |s.writes| ==> s.writes[i].author != ByRetire(inc)
    ensures ProcInv(t, inc)
  {
    assert Known(t.procs[inc].h, t.procs[inc].phase) == Known(s.procs[inc].h, s.procs[inc].phase) + {s.unused};
    assert HandleInv(t, inc);
    assert OwnWritesInv(t, inc);
    assert PhaseInv(t, inc);
  }

  lemma BeatAnswerPreserves(s: Sys, inc: Id, answer: Answer)
    requires Inv(s) && IsHolding(s, inc) && s.procs[inc].phase.Beating?
    requires MayAnswer(s, s.procs[inc].phase.write, answer)
    ensures Inv(s.(procs := s.procs[inc := BeatAnswered(s, inc, answer)]))
  {
    var t := s.(procs := s.procs[inc := BeatAnswered(s, inc, answer)]);
    assert ProcInv(s, inc);
    var p := s.procs[inc];
    assert WriteInv(s, s.writes[p.phase.write]);
    if answer.Ok? {
      AdoptPreserves(s, t, inc, p.phase.revision, p.phase.at);
    } else {
      KeepPreserves(s, t, inc);
    }
  }

  /** While the handle is not lost, a record held by its incarnation shows the confirmed revision
      at its validator, or one known revision right after it. */
  lemma KnownWhenHeld(s: Sys, inc: Id)
    requires s.Shaped() && IsHolding(s, inc) && HandleInv(s, inc)
    requires s.procs[inc].alive || !s.procs[inc].h.lost
    requires HeldBy(s.hist[s.Now()], inc)
    ensures !s.procs[inc].h.lost
    ensures s.Now() <= s.procs[inc].h.validator + 1
    ensures if s.Now() == s.procs[inc].h.validator then s.hist[s.Now()].info.revision == s.procs[inc].h.info.revision
            else KnownRevision(s.procs[inc].h, s.procs[inc].phase, s.hist[s.Now()].info.revision)
  {
  }

  lemma BeatRereadPreserves(s: Sys, inc: Id, readable: bool)
    requires Inv(s) && IsHolding(s, inc) && s.procs[inc].phase.Reconciling?
    ensures Inv(s.(procs := s.procs[inc := BeatReconciled(s, inc, readable)]))
  {
    var t := s.(procs := s.procs[inc := BeatReconciled(s, inc, readable)]);
    assert ProcInv(s, inc);
    var p := s.procs[inc];
    if readable && HeldBy(s.hist[s.Now()], inc) {
      KnownWhenHeld(s, inc);
      BeatFound(s, t, inc);
    } else {
      BeatNotFound(s, t, inc, readable);
    }
  }

  lemma BeatNotFound(s: Sys, t: Sys, inc: Id, readable: bool)
    requires HandleStep(s, t, inc) && s.procs[inc].phase.Reconciling?
    requires t == s.(procs := s.procs[inc := BeatReconciled(s, inc, readable)])
    requires !readable || !HeldBy(s.hist[s.Now()], inc)
    ensures Inv(t)
  {
    if !readable && !s.procs[inc].phase.refused {
      KeepPreserves(s, t, inc);
    } else {
      LosePreserves(s, t, inc);
    }
  }

  lemma BeatFound(s: Sys, t: Sys, inc: Id)
    requires HandleStep(s, t, inc) && s.procs[inc].phase.Reconciling? && !s.procs[inc].h.lost
    requires t == s.(procs := s.procs[inc := BeatReconciled(s, inc, true)])
    requires HeldBy(s.hist[s.Now()], inc) && s.Now() <= s.procs[inc].h.validator + 1
    requires if s.Now() == s.procs[inc].h.validator then s.hist[s.Now()].info.revision == s.procs[inc].h.info.revision
             else KnownRevision(s.procs[inc].h, s.procs[inc].phase, s.hist[s.Now()].info.revision)
    ensures Inv(t)
  {
    var p := s.procs[inc];
    var info := s.hist[s.Now()].info;
    if s.Now() == p.h.validator {
      assert info.revision.value !in Known(p.h, p.phase);
      KeepPreserves(s, t, inc);
    } else {
      AdoptPreserves(s, t, inc, info.revision.value, info.heartbeatAt);
    }
  }

  lemma ConfirmPreserves(s: Sys, inc: Id, readable: bool)
    requires Inv(s) && IsHolding(s, inc) && s.procs[inc].phase.Idle?
    requires !s.procs[inc].h.released && !s.procs[inc].h.lost
    ensures Inv(s.(procs := s.procs[inc := s.procs[inc].(h := Confirmed(s.procs[inc].h, ReadOf(s, readable)))]))
  {
    var t := s.(procs := s.procs[inc := s.procs[inc].(h := Confirmed(s.procs[inc].h, ReadOf(s, readable)))]);
    assert ProcInv(s, inc);
    var p := s.procs[inc];
    if readable && HeldBy(s.hist[s.Now()], inc) {
      KnownWhenHeld(s, inc);
      if s.Now() == p.h.validator {
        KeepPreserves(s, t, inc);
      } else {
        var info := s.hist[s.Now()].info;
        AdoptPreserves(s, t, inc, info.revision.value, info.heartbeatAt);
      }
    } else if !readable {
      KeepPreserves(s, t, inc);
    } else {
      LosePreserves(s, t, inc);
    }
  }

  lemma ReleaseBeginPreserves(s: Sys, inc: Id)
    requires Inv(s) && Enabled(s, ReleaseBegin(inc))
    ensures Inv(Do(s, ReleaseBegin(inc)))
  {
    assert ProcInv(s, inc);
    KeepPreserves(s, Do(s, ReleaseBegin(inc)), inc);
  }

  lemma RetireIssuedPreserves(s: Sys, inc: Id, validator: nat, attempt: nat, now: real)
    requires Inv(s) && IsHolding(s, inc)
    requires s.procs[inc].h.stop && !s.procs[inc].h.released && !s.procs[inc].h.lost
    requires !s.procs[inc].phase.Beating? && !s.procs[inc].phase.Reconciling?
    requires attempt <= 1 && validator == s.procs[inc].h.validator + attempt <= s.Now()
    requires HeldBy(s.hist[validator], inc)
    ensures Inv(RetireIssued(s, inc, validator, attempt, now))
  {
    var t := RetireIssued(s, inc, validator, attempt, now);
    assert ProcInv(s, inc);
    assert LocalStep(s, t, inc);
    OwnKept(s, t, inc);
    assert WriteInv(t, t.writes[|s.writes|]);
    RetireIssuedKeeps(s, t, inc, attempt);
    Assemble(s, t, inc);
  }

  lemma RetireIssuedKeeps(s: Sys, t: Sys, inc: Id, attempt: nat)
    requires s.Shaped() && IsHolding(s, inc) && ProcInv(s, inc) && LocalStep(s, t, inc)
    requires s.procs[inc].h.stop && !s.procs[inc].h.released && !s.procs[inc].h.lost && attempt <= 1
    requires !s.procs[inc].phase.Beating? && !s.procs[inc].phase.Reconciling?
    requires t.procs[inc] == s.procs[inc].(phase := Retiring(|s.writes|, attempt))
    requires |t.writes| == |s.writes| + 1
    requires var w := t.writes[|s.writes|];
             w.author == ByRetire(inc) && !w.request.Create? && w.request.expected == s.procs[inc].h.validator + attempt
    ensures ProcInv(t, inc)
  {
    assert Known(t.procs[inc].h, t.procs[inc].phase) == Known(s.procs[inc].h, s.procs[inc].phase);
    assert HandleInv(t, inc);
    assert OwnWritesInv(t, inc);
    assert PhaseInv(t, inc);
  }

  /** A release of a live or lost handle ends: nothing of its incarnation is held. */
  lemma ReleasedPreserves(s: Sys, t: Sys, inc: Id)
    requires HandleStep(s, t, inc)
    requires s.procs[inc].h.stop && !s.procs[inc].phase.Beating? && !s.procs[inc].phase.Reconciling?
    requires t.procs[inc] == s.procs[inc].(h := s.procs[inc].h.(released := true), phase := Idle)
    requires s.procs[inc].h.lost || !HeldBy(s.hist[s.Now()], inc)
    ensures Inv(t)
  {
    OwnKept(s, t, inc);
    assert Known(t.procs[inc].h, t.procs[inc].phase) == Known(s.procs[inc].h, s.procs[inc].phase);
    assert HandleInv(t, inc);
    assert OwnWritesInv(t, inc);
    Assemble(s, t, inc);
  }

  lemma RetireBeginPreserves(s: Sys, inc: Id, now: real)
    requires Inv(s) && Enabled(s, RetireBegin(inc, now))
    ensures Inv(Do(s, RetireBegin(inc, now)))
  {
    assert ProcInv(s, inc);
    if s.procs[inc].h.lost {
      ReleasedPreserves(s, Do(s, RetireBegin(inc, now)), inc);
    } else {
      RetireIssuedPreserves(s, inc, s.procs[inc].h.validator, 0, now);
    }
  }

  lemma RetireAnswerPreserves(s: Sys, inc: Id, answer: Answer)
    requires Inv(s) && IsHolding(s, inc) && s.procs[inc].phase.Retiring?
    requires MayAnswer(s, s.procs[inc].phase.write, answer)
    ensures Inv(s.(procs := s.procs[inc := RetireConcluded(s, inc, answer)]))
  {
    var t := s.(procs := s.procs[inc := RetireConcluded(s, inc, answer)]);
    assert ProcInv(s, inc);
    var w := s.writes[s.procs[inc].phase.write];
    assert WriteInv(s, w);
    if answer.Ok? {
      assert !HeldBy(s.hist[s.Now()], inc);
      ReleasedPreserves(s, t, inc);
    } else {
      KeepPreserves(s, t, inc);
    }
  }

  lemma RetireRereadPreserves(s: Sys, inc: Id, readable: bool, now: real)
    requires Inv(s) && IsHolding(s, inc) && s.procs[inc].phase.RetireReading?
    ensures Inv(RetireReconsidered(s, inc, readable, now))
  {
    var t := RetireReconsidered(s, inc, readable, now);
    assert ProcInv(s, inc);
    var p := s.procs[inc];
    if HeldBy(s.hist[s.Now()], inc) {
      KnownWhenHeld(s, inc);
    }
    match AfterRefusedRetire(p.h, ReadOf(s, readable))
    case Raise => KeepPreserves(s, t, inc);
    case Finished => ReleasedPreserves(s, t, inc);
    case GiveUp => LosePreserves(s, t, inc);
    case Again(validator) => RetireIssuedPreserves(s, inc, validator, 1, now);
  }

  lemma OperatePreserves(s: Sys, j: Judgement)
    requires Inv(s) && Enabled(s, Operate(j))
    ensures Inv(Do(s, Operate(j)))
  {
    var t := Do(s, Operate(j));
    var w := t.writes[|s.writes|];
    assert WriteInv(t, w);
    forall i | 0 <= i < |s.writes| ensures WriteInv(t, s.writes[i]) {
      assert WriteInv(s, s.writes[i]);
    }
    forall k | k in t.procs ensures ProcInv(t, k) {
      assert ProcInv(s, k);
      OperateKeepsProc(s, t, k);
    }
  }

  lemma OperateKeepsProc(s: Sys, t: Sys, k: Id)
    requires s.Shaped() && k in s.procs && ProcInv(s, k)
    requires |t.writes| == |s.writes| + 1 && (forall i :: 0 <= i < |s.writes| ==> t.writes[i] == s.writes[i])
    requires t.writes[|s.writes|].author.ByOperator?
    requires s.unused <= t.unused && t.hist == s.hist && t.makers == s.makers && t.procs == s.procs
    ensures ProcInv(t, k)
  {
    forall i | 0 <= i < |t.writes| && WrittenFor(t.writes[i].author, k)
      ensures i < |s.writes| && t.writes[i] == s.writes[i]
    {
    }
    if s.procs[k].Holding? {
      assert HandleInv(t, k);
      assert forall i :: 0 <= i < |t.writes| && InFlight(t.writes[i], k) ==> WrittenFor(t.writes[i].author, k);
      assert forall i, v :: 0 <= i < |t.writes| && BeatInFlight(t.writes[i], k, v) ==> WrittenFor(t.writes[i].author, k);
      assert OwnWritesInv(t, k) && PhaseInv(t, k);
    }
  }

  /** Every step keeps the invariant. */
  lemma StepPreserves(s: Sys, step: Step)
    requires Inv(s) && Enabled(s, step)
    ensures Inv(Do(s, step))
  {
    match step
    case Deliver(write) =>
      if Matches(s.writes[write].request, s.hist) { CommitPreserves(s, write); } else { RefusePreserves(s, write); }
    case AcquireBegin(domain, owner, now, staleAfter) => AcquireBeginPreserves(s, domain, owner, now, staleAfter);
    case AcquireAnswer(inc, answer) => AcquireAnswerPreserves(s, inc, answer);
    case AcquireLook(inc, readable) => AcquireLookPreserves(s, inc, readable);
    case BeatBegin(inc, now) => BeatBeginPreserves(s, inc, now);
    case BeatAnswer(inc, answer) => BeatAnswerPreserves(s, inc, answer);
    case BeatReread(inc, readable) => BeatRereadPreserves(s, inc, readable);
    case Confirm(inc, readable) => ConfirmPreserves(s, inc, readable);
    case ReleaseBegin(inc) => ReleaseBeginPreserves(s, inc);
    case RetireBegin(inc, now) => RetireBeginPreserves(s, inc, now);
    case RetireAnswer(inc, answer) => RetireAnswerPreserves(s, inc, answer);
    case RetireReread(inc, readable, now) => RetireRereadPreserves(s, inc, readable, now);
    case Operate(j) => OperatePreserves(s, j);
  }
}
