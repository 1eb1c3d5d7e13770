/** Every interleaving of acquisitions, heartbeats, confirmations, releases and operator clears
    over one claim record. A write that was issued may be applied at any later step, before or
    after its caller got an answer, and its answer may be lost. */
module ClaimProtocol {
  import opened Wrappers
  import opened ClaimRecords

  datatype Author = ByAcquire(inc: Id) | ByBeat(inc: Id) | ByRetire(inc: Id) | ByOperator(judgement: Judgement)

  /** A write is applied at most once: committed as generation `at`, or refused. */
  datatype Status = Flying | Done(at: nat) | Refused

  datatype Issued = Issued(author: Author, request: Request, status: Status)

  /** What the thread that holds the handle's call lock waits for. */
  datatype Phase =
    | Idle
    | Beating(write: nat, revision: Id, at: real)
    | Reconciling(attempted: Id, refused: bool)
    | Retiring(write: nat, attempt: nat)
    | RetireReading(attempt: nat)

  /** One acquisition, named by its incarnation. In `Holding`, `born` is the generation the
      acquisition wrote, `alive` says its heartbeat thread still runs, and `blind` that a re-read
      after a refused heartbeat failed. */
  datatype Proc =
    | Creating(info: Info, write: nat)
    | Looking(info: Info)
    | Taking(info: Info, write: nat)
    | GaveUp
    | Holding(h: Handle, phase: Phase, born: nat, alive: bool, blind: bool)

  /** `makers[p]` is the write that made generation `p > 0`; ids from `unused` on are not drawn yet. */
  datatype Sys = Sys(
    canDelete: bool,
    hist: seq<Slot>,
    makers: seq<nat>,
    unused: Id,
    writes: seq<Issued>,
    procs: map<Id, Proc>)
  {
    ghost predicate Shaped() {
      |hist| > 0 && |makers| == |hist|
    }

    function Now(): nat
      requires Shaped()
    {
      |hist| - 1
    }
  }

  datatype Answer = Ok | No | Lose

  datatype Step =
    | Deliver(write: nat)
    | AcquireBegin(domain: string, owner: string, now: real, staleAfter: real)
    | AcquireAnswer(inc: Id, answer: Answer)
    | AcquireLook(inc: Id, readable: bool)
    | BeatBegin(inc: Id, now: real)
    | BeatAnswer(inc: Id, answer: Answer)
    | BeatReread(inc: Id, readable: bool)
    | Confirm(inc: Id, readable: bool)
    | ReleaseBegin(inc: Id)
    | RetireBegin(inc: Id, now: real)
    | RetireAnswer(inc: Id, answer: Answer)
    | RetireReread(inc: Id, readable: bool, now: real)
    | Operate(judgement: Judgement)

  // ---------------------------------------------------------------- the steps

  ghost predicate IdsBelow(slot: Slot, bound: Id) {
    slot.Record? ==>
      && (slot.info.incarnation.Some? ==> slot.info.incarnation.value < bound)
      && (slot.info.revision.Some? ==> slot.info.revision.value < bound)
  }

  /** The record may start absent, corrupt, released, or held by an acquisition of the past. */
  ghost predicate Init(s: Sys) {
    |s.hist| == 1 && |s.makers| == 1 && IdsBelow(s.hist[0], s.unused) && s.writes == [] && s.procs == map[]
  }

  predicate IsHolding(s: Sys, inc: Id) {
    inc in s.procs && s.procs[inc].Holding?
  }

  /** A write may be answered `Ok` when it committed. It may be answered as refused when it was
      refused, or when it committed and its own retry was refused. Any answer may be lost. */
  predicate MayAnswer(s: Sys, write: nat, answer: Answer)
    requires write < |s.writes|
  {
    match answer
    case Ok => s.writes[write].status.Done?
    case No => !s.writes[write].status.Flying?
    case Lose => true
  }

  function AnswerOf(s: Sys, write: nat, answer: Answer): WriteAnswer
    requires write < |s.writes| && MayAnswer(s, write, answer)
  {
    match answer
    case Ok => Written(s.writes[write].status.at)
    case No => Precondition
    case Lose => WriteFailed
  }

  function ReadOf(s: Sys, readable: bool): ReadAnswer
    requires s.Shaped()
  {
    if readable then Read(s.hist) else ReadFailed
  }

  function Issue(s: Sys, author: Author, request: Request): Sys {
    s.(writes := s.writes + [Issued(author, request, Flying)])
  }

  predicate Enabled(s: Sys, step: Step) {
    match step
    case Deliver(write) => write < |s.writes| && s.writes[write].status.Flying?
    case AcquireBegin(_, _, _, _) => true
    case AcquireAnswer(inc, answer) =>
      && inc in s.procs
      && (s.procs[inc].Creating? || s.procs[inc].Taking?)
      && s.procs[inc].write < |s.writes|
      && MayAnswer(s, s.procs[inc].write, answer)
    case AcquireLook(inc, _) => inc in s.procs && s.procs[inc].Looking?
    case BeatBegin(inc, _) =>
      IsHolding(s, inc) && s.procs[inc].phase.Idle? && s.procs[inc].alive && !s.procs[inc].h.stop
    case BeatAnswer(inc, answer) =>
      && IsHolding(s, inc)
      && s.procs[inc].phase.Beating?
      && s.procs[inc].phase.write < |s.writes|
      && MayAnswer(s, s.procs[inc].phase.write, answer)
    case BeatReread(inc, _) => IsHolding(s, inc) && s.procs[inc].phase.Reconciling?
    case Confirm(inc, _) =>
      IsHolding(s, inc) && s.procs[inc].phase.Idle? && !s.procs[inc].h.released && !s.procs[inc].h.lost
    case ReleaseBegin(inc) => IsHolding(s, inc)
    case RetireBegin(inc, _) =>
      IsHolding(s, inc) && s.procs[inc].phase.Idle? && s.procs[inc].h.stop && !s.procs[inc].h.released
    case RetireAnswer(inc, answer) =>
      && IsHolding(s, inc)
      && s.procs[inc].phase.Retiring?
      && s.procs[inc].phase.write < |s.writes|
      && MayAnswer(s, s.procs[inc].phase.write, answer)
    case RetireReread(inc, _, _) => IsHolding(s, inc) && s.procs[inc].phase.RetireReading?
    case Operate(j) => |s.hist| > 0 && IsHeld(s.hist[|s.hist| - 1]) && Judged(j, s.hist[|s.hist| - 1].info)
  }

  function Delivered(s: Sys, write: nat): Sys
    requires s.Shaped() && write < |s.writes|
  {
    var w := s.writes[write];
    if Matches(w.request, s.hist) then
      s.(hist := s.hist + [After(w.request)],
         makers := s.makers + [write],
         writes := s.writes[write := w.(status := Done(|s.hist|))])
    else
      s.(writes := s.writes[write := w.(status := Refused)])
  }

  function AcquireAnswered(s: Sys, inc: Id, answer: Answer): Proc
    requires Enabled(s, AcquireAnswer(inc, answer))
  {
    var p := s.procs[inc];
    match AnswerOf(s, p.write, answer)
    case Written(at) => Holding(NewHandle(p.info, at), Idle, at, true, false)
    case Precondition => if p.Creating? then Looking(p.info) else GaveUp
    case WriteFailed => GaveUp
  }

  /** Take over a released record; give up on a held, absent or unreadable one. */
  function Looked(s: Sys, inc: Id, readable: bool): Sys
    requires s.Shaped() && Enabled(s, AcquireLook(inc, readable))
  {
    var p := s.procs[inc];
    var slot := s.hist[s.Now()];
    if readable && slot.Record? && slot.state.Released? then
      Issue(s, ByAcquire(inc), Replace(s.Now(), Record(p.info, Held)))
        .(procs := s.procs[inc := Taking(p.info, |s.writes|)])
    else
      s.(procs := s.procs[inc := GaveUp])
  }

  function BeatAnswered(s: Sys, inc: Id, answer: Answer): Proc
    requires Enabled(s, BeatAnswer(inc, answer))
  {
    var p := s.procs[inc];
    match AnswerOf(s, p.phase.write, answer)
    case Written(at) => p.(h := Adopted(p.h, at, p.phase.revision, p.phase.at), phase := Idle)
    case Precondition => p.(phase := Reconciling(p.phase.revision, true))
    case WriteFailed => p.(phase := Reconciling(p.phase.revision, false))
  }

  function BeatReconciled(s: Sys, inc: Id, readable: bool): Proc
    requires s.Shaped() && Enabled(s, BeatReread(inc, readable))
  {
    var p := s.procs[inc];
    var (h, keep) := Reconciled(p.h, p.phase.attempted, p.phase.refused, ReadOf(s, readable));
    p.(h := h, phase := Idle, alive := p.alive && keep, blind := p.blind || (p.phase.refused && !readable))
  }

  function RetireIssued(s: Sys, inc: Id, validator: nat, attempt: nat, now: real): Sys
    requires IsHolding(s, inc)
  {
    var p := s.procs[inc];
    Issue(s, ByRetire(inc), RetireRequest(s.canDelete, validator, p.h.info, s.unused, now))
      .(unused := s.unused + 1, procs := s.procs[inc := p.(phase := Retiring(|s.writes|, attempt))])
  }

  function RetireConcluded(s: Sys, inc: Id, answer: Answer): Proc
    requires Enabled(s, RetireAnswer(inc, answer))
  {
    var p := s.procs[inc];
    var write := AnswerOf(s, p.phase.write, answer);
    if write.Precondition? then p.(phase := RetireReading(p.phase.attempt))
    else p.(h := RetireAnswered(p.h, write), phase := Idle)
  }

  function RetireReconsidered(s: Sys, inc: Id, readable: bool, now: real): Sys
    requires s.Shaped() && Enabled(s, RetireReread(inc, readable, now))
  {
    var p := s.procs[inc];
    match AfterRefusedRetire(p.h, ReadOf(s, readable))
    case Raise => s.(procs := s.procs[inc := p.(phase := Idle)])
    case Finished => s.(procs := s.procs[inc := p.(h := p.h.(released := true), phase := Idle)])
    case GiveUp => s.(procs := s.procs[inc := p.(h := Lost(p.h).(released := true), phase := Idle)])
    case Again(validator) =>
      if p.phase.attempt == 0 then RetireIssued(s, inc, validator, 1, now)
      else s.(procs := s.procs[inc := p.(h := Lost(p.h).(released := true), phase := Idle)])
  }

  function Do(s: Sys, step: Step): Sys
    requires s.Shaped() && Enabled(s, step)
  {
    match step
    case Deliver(write) => Delivered(s, write)
    case AcquireBegin(domain, owner, now, staleAfter) =>
      var info := Info(domain, owner, now, now, staleAfter, Some(s.unused), Some(s.unused + 1));
      Issue(s, ByAcquire(s.unused), Create(Record(info, Held)))
        .(unused := s.unused + 2, procs := s.procs[s.unused := Creating(info, |s.writes|)])
    case AcquireAnswer(inc, answer) => s.(procs := s.procs[inc := AcquireAnswered(s, inc, answer)])
    case AcquireLook(inc, readable) => Looked(s, inc, readable)
    case BeatBegin(inc, now) =>
      var p := s.procs[inc];
      Issue(s, ByBeat(inc), BeatRequest(p.h, s.unused, now))
        .(unused := s.unused + 1, procs := s.procs[inc := p.(phase := Beating(|s.writes|, s.unused, now))])
    case BeatAnswer(inc, answer) => s.(procs := s.procs[inc := BeatAnswered(s, inc, answer)])
    case BeatReread(inc, readable) => s.(procs := s.procs[inc := BeatReconciled(s, inc, readable)])
    case Confirm(inc, readable) =>
      s.(procs := s.procs[inc := s.procs[inc].(h := Confirmed(s.procs[inc].h, ReadOf(s, readable)))])
    case ReleaseBegin(inc) =>
      s.(procs := s.procs[inc := s.procs[inc].(h := s.procs[inc].h.(stop := true))])
    case RetireBegin(inc, now) =>
      var p := s.procs[inc];
      if p.h.lost then s.(procs := s.procs[inc := p.(h := p.h.(released := true))])
      else RetireIssued(s, inc, p.h.validator, 0, now)
    case RetireAnswer(inc, answer) => s.(procs := s.procs[inc := RetireConcluded(s, inc, answer)])
    case RetireReread(inc, readable, now) => RetireReconsidered(s, inc, readable, now)
    case Operate(j) =>
      var slot := s.hist[s.Now()];
      Issue(s, ByOperator(j), RetireRequest(s.canDelete, s.Now(), slot.info, s.unused, j.now))
        .(unused := s.unused + 1)
  }
}
