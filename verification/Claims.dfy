/** Claim handles, the loss latch and the claim service as objects that change their fields. Each
    method is tied to the state change that the step system of `ClaimProtocol` uses. The answers
    of the driver, the waits on locks and the drawn ids are parameters. */
module Claims {
  import opened Wrappers
  import opened ClaimRecords
  import opened ClaimProtocol

  /** Records the first claim a run lost, and the handles it still watches. */
  class ClaimLossLatch {
    var domain: Option<string>
    var handles: seq<ClaimHandle>

    constructor ()
      ensures domain == None && handles == []
    {
      domain := None;
      handles := [];
    }

    /** The first recorded domain never changes. */
    method Set(lostDomain: string)
      modifies this`domain
      ensures domain == (if old(domain).None? then Some(lostDomain) else old(domain))
    {
      if domain.None? {
        domain := Some(lostDomain);
      }
    }

    /** Drop the handles already released, then watch `handle` once. */
    method Track(handle: ClaimHandle)
      modifies this`handles
      ensures var kept := Unreleased(old(handles));
              handles == if handle in kept then kept else kept + [handle]
      ensures handle in handles
    {
      var held := [];
      for i := 0 to |handles|
        invariant handles == old(handles)
        invariant held == Unreleased(handles[..i])
      {
        assert handles[..i + 1][..i] == handles[..i];
        if !handles[i].released {
          held := held + [handles[i]];
        }
      }
      assert handles[..|handles|] == handles;
      handles := if handle in held then held else held + [handle];
    }
  }

  ghost function Unreleased(handles: seq<ClaimHandle>): (r: seq<ClaimHandle>)
    reads handles
  {
    if handles == [] then []
    else
      var last := handles[|handles| - 1];
      var kept := Unreleased(handles[..|handles| - 1]);
      assert handles == handles[..|handles| - 1] + [last];
      if last.released then kept else kept + [last]
  }

  datatype RetireTry = RetireTry(write: WriteAnswer, read: ReadAnswer, revision: Id)

  /** The handle after the retires `tries[k..]`, and whether an error of the driver got out. */
  function Retired(h: Handle, k: nat, tries: seq<RetireTry>): (Handle, bool)
    requires |tries| == 2 && k <= 2
    decreases 2 - k
  {
    if k == 2 then (Lost(h), false)
    else
      match tries[k].write
      case Written(_) => (h, false)
      case WriteFailed => (h.(retireUncertain := true), true)
      case Precondition =>
        match AfterRefusedRetire(h, tries[k].read)
        case Raise => (h, true)
        case Finished => (h, false)
        case GiveUp => (Lost(h), false)
        case Again(_) => Retired(h, k + 1, tries)
  }

  /** One retire of the generation the handle confirmed, and a second one exactly when the re-read
      after its refusal found an own generation, which that one expects. */
  predicate RetiresSent(h: Handle, canDelete: bool, now: real, tries: seq<RetireTry>, sent: seq<Request>)
    requires |tries| == 2
  {
    && 1 <= |sent| <= 2
    && sent[0] == RetireRequest(canDelete, h.validator, h.info, tries[0].revision, now)
    && (|sent| == 2 <==> tries[0].write.Precondition? && AfterRefusedRetire(h, tries[0].read).Again?)
    && (|sent| == 2 ==>
          sent[1] == RetireRequest(canDelete, AfterRefusedRetire(h, tries[0].read).validator, h.info,
                                   tries[1].revision, now))
  }

  /** A held record of the incarnation in `info`, with its revision or an unconfirmed one. */
  predicate IsOwn(slot: Slot, info: Info, unconfirmed: set<Id>) {
    && slot.Record? && slot.state == Held
    && slot.info.incarnation == info.incarnation
    && (slot.info.revision == info.revision
        || (slot.info.revision.Some? && slot.info.revision.value in unconfirmed))
  }

  datatype ReleaseOutcome = Returned | TimedOut | Raised

  class ClaimHandle {
    var info: Info
    var validator: nat
    var unconfirmed: set<Id>
    var lost: bool
    var released: bool
    var retireUncertain: bool
    var stop: bool
    var latch: ClaimLossLatch?

    ghost function State(): Handle
      reads this
    {
      Handle(info, validator, unconfirmed, lost, released, retireUncertain, stop)
    }

    ghost function Latches(): set<ClaimLossLatch>
      reads this
    {
      if latch == null then {} else {latch}
    }

    /** A loss is on the latch; an earlier recorded loss is kept. */
    twostate predicate Reported()
      reads this, Latches()
    {
      latch == old(latch) &&
      (latch != null ==>
         latch.domain == if old(latch.domain).None? then Some(info.domain) else old(latch.domain))
    }

    /** The latch holds what it held before. */
    twostate predicate Quiet()
      reads this, Latches()
    {
      latch == old(latch) && (latch != null ==> latch.domain == old(latch.domain))
    }

    constructor (info: Info, validator: nat, latch: ClaimLossLatch?)
      modifies if latch == null then {} else {latch}
      ensures State() == NewHandle(info, validator)
      ensures this.latch == latch
      ensures latch != null ==> this in latch.handles && latch.domain == old(latch.domain)
    {
      this.info := info;
      this.validator := validator;
      this.unconfirmed := {};
      this.lost, this.released, this.retireUncertain, this.stop := false, false, false, false;
      this.latch := latch;
      new;
      if latch != null {
        latch.Track(this);
      }
    }

    method SetLatch()
      modifies Latches()`domain
      ensures Reported()
    {
      if latch != null {
        latch.Set(info.domain);
      }
    }

    method Lose() returns (keep: bool)
      modifies this`lost, Latches()`domain
      ensures !keep && State() == Lost(old(State())) && Reported()
    {
      lost := true;
      SetLatch();
      keep := false;
    }

    /** Report to `watch` from now on, also a loss that happened already. */
    method AttachLatch(watch: ClaimLossLatch)
      modifies this`latch, watch
      ensures latch == watch && State() == old(State())
      ensures this in watch.handles
      ensures watch.domain == if lost && old(watch.domain).None? then Some(info.domain) else old(watch.domain)
    {
      latch := watch;
      watch.Track(this);
      if lost {
        watch.Set(info.domain);
      }
    }

    method Adopt(validator: nat, revision: Id, at: real)
      modifies this
      ensures State() == Adopted(old(State()), validator, revision, at) && latch == old(latch)
    {
      this.validator := validator;
      info := info.(revision := Some(revision));
      info := info.(heartbeatAt := at);
      unconfirmed := {};
    }

    /** Read the record once; a handle whose record is not its own is lost and reported. */
    method Confirm(lockTaken: bool, read: ReadAnswer) returns (answered: bool)
      modifies this, Latches()`domain
      ensures answered == (lockTaken && !old(released) && !old(lost))
      ensures State() == if answered then Confirmed(old(State()), read) else old(State())
      ensures answered ==>
                (lost <==> !(read.ReadFailed? || (read.Snapshot? && IsOwn(read.slot, old(info), old(unconfirmed)))))
      ensures if lost && !old(lost) then Reported() else Quiet()
    {
      if !lockTaken {
        return false;
      }
      if released || lost {
        return false;
      }
      match read {
        case NotFound => var _ := Lose();
        case ReadFailed =>
        case Snapshot(slot, seen) =>
          if !slot.Record? || slot.state.Released? || slot.info.incarnation != info.incarnation {
            var _ := Lose();
          } else if slot.info.revision == info.revision {
            validator := seen;
          } else if slot.info.revision.Some? && slot.info.revision.value in unconfirmed {
            Adopt(seen, slot.info.revision.value, slot.info.heartbeatAt);
          } else {
            var _ := Lose();
          }
      }
      return true;
    }

    /** Re-read the record once after a refused or failed heartbeat write. */
    method Reconcile(attempted: Id, refused: bool, read: ReadAnswer) returns (keep: bool)
      modifies this, Latches()`domain
      ensures (State(), keep) == Reconciled(old(State()), attempted, refused, read)
      ensures if keep then Quiet() else Reported()
    {
      if !refused {
        unconfirmed := unconfirmed + {attempted};
      }
      match read {
        case NotFound =>
          keep := Lose();
        case ReadFailed =>
          if refused {
            keep := Lose();
          } else {
            keep := true;
          }
        case Snapshot(slot, seen) =>
          var mine := slot.Record? && slot.state.Held? && slot.info.incarnation == info.incarnation;
          if !mine {
            keep := Lose();
          } else if slot.info.revision == Some(attempted)
                    || (slot.info.revision.Some? && slot.info.revision.value in unconfirmed) {
            Adopt(seen, slot.info.revision.value, slot.info.heartbeatAt);
            keep := true;
          } else if !refused && slot.info.revision == info.revision {
            validator := seen;
            keep := true;
          } else {
            keep := Lose();
          }
      }
    }

    /** Renew the record once with `sent`; `keep` is false when the claim is lost. */
    method Beat(revision: Id, now: real, write: WriteAnswer, read: ReadAnswer) returns (keep: bool, sent: Request)
      modifies this, Latches()`domain
      ensures sent == BeatRequest(old(State()), revision, now)
      ensures (State(), keep) == Beaten(old(State()), revision, now, write, read)
      ensures if keep then Quiet() else Reported()
    {
      sent := Replace(validator, Encode(info, Held, revision, now));
      match write {
        case Precondition => keep := Reconcile(revision, true, read);
        case WriteFailed => keep := Reconcile(revision, false, read);
        case Written(made) =>
          Adopt(made, revision, now);
          keep := true;
      }
    }

    /** What is left to retire after a refused retire: nothing, or the generation `left`. */
    method OwnValidatorAfterRefusal(read: ReadAnswer) returns (left: Option<nat>, raised: bool)
      modifies this, Latches()`domain
      ensures var verdict := AfterRefusedRetire(old(State()), read);
              && raised == verdict.Raise?
              && left == (if verdict.Again? then Some(verdict.validator) else None)
              && State() == (if verdict.GiveUp? then Lost(old(State())) else old(State()))
      ensures if AfterRefusedRetire(old(State()), read).GiveUp? then Reported() else Quiet()
    {
      left, raised := None, false;
      match read {
        case ReadFailed => raised := true;
        case NotFound =>
          if !retireUncertain {
            var _ := Lose();
          }
        case Snapshot(slot, seen) =>
          if !slot.Record? || slot.info.incarnation != info.incarnation {
            var _ := Lose();
          } else if slot.state.Released? {
            if !retireUncertain {
              var _ := Lose();
            }
          } else if slot.info.revision == info.revision
                    || (slot.info.revision.Some? && slot.info.revision.value in unconfirmed) {
            left := Some(seen);
          } else {
            var _ := Lose();
          }
      }
    }

    /** Retire the generation last written, at most twice; every request expects the validator of
        the handle or of the re-read before it. */
    method RetireOwnRecord(canDelete: bool, now: real, tries: seq<RetireTry>)
      returns (raised: bool, sent: seq<Request>)
      requires |tries| == 2
      modifies this, Latches()`domain
      ensures (State(), raised) == Retired(old(State()), 0, tries)
      ensures if lost && !old(lost) then Reported() else latch == old(latch)
      ensures !lost ==> Quiet()
      ensures RetiresSent(old(State()), canDelete, now, tries, sent)
    {
      var target := validator;
      sent := [];
      raised := false;
      for attempt := 0 to 2
        invariant |sent| == attempt && !raised && State() == old(State()) && latch == old(latch)
        invariant latch != null ==> latch.domain == old(latch.domain)
        invariant Retired(old(State()), 0, tries) == Retired(old(State()), attempt, tries)
        invariant attempt == 0 ==> target == old(validator)
        invariant attempt > 0 ==>
                    && sent[0] == RetireRequest(canDelete, old(validator), old(info), tries[0].revision, now)
                    && tries[0].write.Precondition?
        invariant attempt == 1 ==> AfterRefusedRetire(old(State()), tries[0].read) == Again(target)
        invariant attempt == 2 ==>
                    && AfterRefusedRetire(old(State()), tries[0].read).Again?
                    && sent[1] == RetireRequest(canDelete, AfterRefusedRetire(old(State()), tries[0].read).validator,
                                                old(info), tries[1].revision, now)
      {
        sent := sent + [RetireRequest(canDelete, target, info, tries[attempt].revision, now)];
        match tries[attempt].write {
          case Written(_) => return;
          case WriteFailed =>
            retireUncertain := true;
            raised := true;
            return;
          case Precondition =>
            var left;
            left, raised := OwnValidatorAfterRefusal(tries[attempt].read);
            if left.None? {
              return;
            }
            target := left.value;
        }
      }
      var _ := Lose();
    }

    /** Stop the heartbeat, then retire the own record. A lost or released handle retires nothing,
        and so does one whose wait for a lock runs out. */
    method Release(releaseLock: bool, callLock: bool, canDelete: bool, now: real, tries: seq<RetireTry>)
      returns (outcome: ReleaseOutcome, sent: seq<Request>)
      requires |tries| == 2
      modifies this, Latches()`domain
      ensures stop && latch == old(latch)
      ensures outcome.TimedOut? <==> !releaseLock || (!old(released) && !callLock)
      ensures outcome.TimedOut? || old(released) || old(lost) ==> sent == []
      ensures outcome.TimedOut? ==> State() == old(State()).(stop := true) && Reported()
      ensures outcome.Returned? ==> released
      ensures !outcome.TimedOut? && (old(released) || old(lost)) ==>
                outcome.Returned? && State() == old(State()).(stop := true, released := true)
      ensures !outcome.TimedOut? && !old(released) && !old(lost) ==>
                var (h, raised) := Retired(old(State()).(stop := true), 0, tries);
                && outcome == (if raised then Raised else Returned)
                && State() == Ended((h, raised))
                && RetiresSent(old(State()).(stop := true), canDelete, now, tries, sent)
      ensures lost && !old(lost) ==> Reported()
    {
      stop := true;
      sent := [];
      if !releaseLock {
        SetLatch();
        return TimedOut, [];
      }
      if released {
        return Returned, [];
      }
      if !callLock {
        SetLatch();
        return TimedOut, [];
      }
      if !lost {
        var raised;
        raised, sent := RetireOwnRecord(canDelete, now, tries);
        if raised {
          return Raised, sent;
        }
      }
      released := true;
      outcome := Returned;
    }
  }

  /** The heartbeat steps of the protocol, taken together, are one `Beat`. */
  lemma BeatIsItsSteps(s: Sys, answer: Answer, later: Sys, inc: Id, readable: bool)
    requires s.Shaped() && Enabled(s, BeatAnswer(inc, answer))
    requires later.Shaped() && inc in later.procs && later.procs[inc] == BeatAnswered(s, inc, answer)
    ensures var p := s.procs[inc];
            var beaten := Beaten(p.h, p.phase.revision, p.phase.at,
                                 AnswerOf(s, p.phase.write, answer), ReadOf(later, readable));
            if answer.Ok? then
              later.procs[inc].phase.Idle? && later.procs[inc].h == beaten.0
            else
              && Enabled(later, BeatReread(inc, readable))
              && BeatReconciled(later, inc, readable).h == beaten.0
              && BeatReconciled(later, inc, readable).alive == (p.alive && beaten.1)
  {
  }

  /** The retire steps of the protocol, taken together, are one release: each answer ends it as
      `Retired` says, or a re-read leads to the next try. */
  lemma RetireIsItsSteps(s: Sys, answer: Answer, later: Sys, inc: Id, readable: bool, now: real, tries: seq<RetireTry>)
    requires s.Shaped() && Enabled(s, RetireAnswer(inc, answer)) && s.procs[inc].phase.attempt <= 1
    requires later.Shaped() && inc in later.procs && later.procs[inc] == RetireConcluded(s, inc, answer)
    requires |tries| == 2
    requires tries[s.procs[inc].phase.attempt].write == AnswerOf(s, s.procs[inc].phase.write, answer)
    requires tries[s.procs[inc].phase.attempt].read == ReadOf(later, readable)
    ensures var p := s.procs[inc];
            var retired := Retired(p.h, p.phase.attempt, tries);
            if !answer.No? then
              later.procs[inc].phase.Idle? && later.procs[inc].h == Ended(retired)
            else
              && Enabled(later, RetireReread(inc, readable, now))
              && var t := Do(later, RetireReread(inc, readable, now));
                 && IsHolding(t, inc)
                 && if t.procs[inc].phase.Idle? then t.procs[inc].h == Ended(retired)
                    else
                      && p.phase.attempt == 0
                      && t.procs[inc] == p.(phase := Retiring(|later.writes|, 1))
                      && Retired(p.h, 1, tries) == retired
  {
    hide RetireRequest, Read, Stale;
    var p := s.procs[inc];
    if answer.No? && AfterRefusedRetire(p.h, ReadOf(later, readable)).Again? {
      assert Retired(p.h, p.phase.attempt, tries) == Retired(p.h, p.phase.attempt + 1, tries);
    }
  }

  /** A release ends with the handle released, unless an error of the driver got out. */
  function Ended(retired: (Handle, bool)): Handle {
    if retired.1 then retired.0 else retired.0.(released := true)
  }

  // ---------------------------------------------------------------- the claim service

  /** A store that applies each request at once. `Interfere` is what other processes commit
      between two requests of the service. */
  class ClaimStore {
    const canDelete: bool
    var hist: seq<Slot>

    constructor (canDelete: bool, first: Slot)
      ensures this.canDelete == canDelete && hist == [first]
    {
      this.canDelete := canDelete;
      hist := [first];
    }

    ghost predicate Valid()
      reads this
    {
      |hist| > 0
    }

    method ReadSnapshot() returns (read: ReadAnswer)
      requires Valid()
      ensures read == Read(hist)
    {
      var last := hist[|hist| - 1];
      read := if last.Absent? then NotFound else Snapshot(last, |hist| - 1);
    }

    method Apply(request: Request) returns (answer: WriteAnswer)
      requires Valid()
      modifies this
      ensures hist == if Matches(request, old(hist)) then old(hist) + [After(request)] else old(hist)
      ensures answer == if Matches(request, old(hist)) then Written(|old(hist)|) else Precondition
    {
      if Matches(request, hist) {
        hist := hist + [After(request)];
        answer := Written(|hist| - 1);
      } else {
        answer := Precondition;
      }
    }

    method Interfere(commits: seq<Slot>)
      requires Valid()
      modifies this
      ensures hist == old(hist) + commits
    {
      hist := hist + commits;
    }
  }

  ghost function Last(hist: seq<Slot>): Slot
    requires |hist| > 0
  {
    hist[|hist| - 1]
  }

  datatype AcquireOutcome = Acquired(handle: ClaimHandle) | Conflict(owner: Option<string>) | AcquireCorrupt

  /** The outcome of `clear_claim` and `release_claim_if_unchanged`. */
  datatype OperatorOutcome = RetiredIt | Missing | Changed | Fresh | Corrupt

  function AfterRefusal(slot: Slot): OperatorOutcome {
    match slot
    case Absent => Missing
    case Unreadable => Corrupt
    case Record(_, state) => if state.Held? then Changed else Missing
  }

  class FilesystemClaimService {
    const store: ClaimStore

    constructor (store: ClaimStore)
      ensures this.store == store
    {
      this.store := store;
    }

    /** Create the record, or take over a released one that nobody changes meanwhile; refuse any
        other. `first` and `second` are what others commit after the create and after the read. */
    method Acquire(domain: string, owner: string, now: real, staleAfter: real, incarnation: Id, revision: Id,
                   latch: ClaimLossLatch?, first: seq<Slot>, second: seq<Slot>) returns (outcome: AcquireOutcome)
      requires store.Valid()
      modifies store, if latch == null then {} else {latch}
      ensures store.Valid()
      ensures var info := Info(domain, owner, now, now, staleAfter, Some(incarnation), Some(revision));
              var before := old(store.hist);
              var seen := before + first;
              if Last(before).Absent? then
                store.hist == before + [Record(info, Held)] && outcome.Acquired? && fresh(outcome.handle)
                && outcome.handle.State() == NewHandle(info, |before|)
              else if Last(seen).Record? && Last(seen).state.Released? && second == [] then
                store.hist == seen + [Record(info, Held)] && outcome.Acquired? && fresh(outcome.handle)
                && outcome.handle.State() == NewHandle(info, |seen|)
              else
                && !outcome.Acquired?
                && store.hist == (if Last(seen).Record? && Last(seen).state.Released? then seen + second else seen)
                && (outcome.AcquireCorrupt? <==> Last(store.hist).Unreadable?)
                && (outcome.Conflict? ==>
                      outcome.owner == if IsHeld(Last(store.hist)) then Some(Last(store.hist).info.owner) else None)
      ensures outcome.Acquired? && latch != null ==> outcome.handle in latch.handles
    {
      var info := Info(domain, owner, now, now, staleAfter, Some(incarnation), Some(revision));
      var data := Record(info, Held);
      var answer := store.Apply(Create(data));
      if answer.Precondition? {
        store.Interfere(first);
        var read := store.ReadSnapshot();
        if read.Snapshot? && read.slot.Unreadable? {
          return AcquireCorrupt;
        }
        var takeOver := read.Snapshot? && read.slot.state.Released?;
        if takeOver {
          store.Interfere(second);
          answer := store.Apply(Replace(read.validator, data));
          if answer.Precondition? {
            read := store.ReadSnapshot();
            if read.Snapshot? && read.slot.Unreadable? {
              return AcquireCorrupt;
            }
          }
        }
        if answer.Precondition? {
          var held := read.Snapshot? && read.slot.state.Held?;
          return Conflict(if held then Some(read.slot.info.owner) else None);
        }
      }
      var handle := new ClaimHandle(info, answer.validator, latch);
      outcome := Acquired(handle);
    }

    /** Retire the one generation this call reads, if it is held and the judgement holds of it,
        and if nobody commits `between` the read and the retire. */
    method RetireJudged(judgement: Judgement, revision: Id, between: seq<Slot>) returns (outcome: OperatorOutcome)
      requires store.Valid()
      modifies store
      ensures store.Valid()
      ensures var before := old(store.hist);
              var slot := Last(before);
              if slot.Unreadable? then outcome == Corrupt && store.hist == before
              else if !IsHeld(slot) then outcome == Missing && store.hist == before
              else if !Judged(judgement, slot.info) then
                outcome == (if judgement.Clear? then Fresh else Changed) && store.hist == before
              else if between == [] then
                && outcome == RetiredIt
                && store.hist == before + [After(RetireRequest(store.canDelete, |before| - 1, slot.info, revision,
                                                               judgement.now))]
                && !IsHeld(Last(store.hist))
              else
                outcome == AfterRefusal(Last(between)) && store.hist == before + between
      ensures judgement.Clear? && !judgement.force && IsHeld(Last(old(store.hist))) ==>
                var info := Last(old(store.hist)).info;
                if judgement.now - info.heartbeatAt <= info.staleAfter then
                  outcome == Fresh && store.hist == old(store.hist)
                else
                  outcome != Fresh && (between == [] ==> outcome == RetiredIt)
      ensures judgement.Clear? && judgement.force && IsHeld(Last(old(store.hist))) && between == [] ==>
                outcome == RetiredIt
      ensures judgement.IfUnchanged? && outcome == RetiredIt ==>
                var info, listed := Last(old(store.hist)).info, judgement.listed;
                && info.owner == listed.owner
                && info.acquiredAt == listed.acquiredAt
                && info.incarnation == listed.incarnation
                && (judgement.staleOnly ==>
                      && info.heartbeatAt == listed.heartbeatAt
                      && info.revision == listed.revision
                      && judgement.now - info.heartbeatAt > info.staleAfter)
      ensures outcome == RetiredIt ==>
                var info, last := Last(old(store.hist)).info, Last(store.hist);
                if store.canDelete then last.Absent?
                else last == Record(info.(heartbeatAt := judgement.now, revision := Some(revision)), Released)
      ensures between != [] && outcome != RetiredIt && store.hist == old(store.hist) + between ==>
                var last := Last(between);
                && (outcome == Corrupt <==> last.Unreadable?)
                && (outcome == Changed <==> last.Record? && last.state == Held)
                && (outcome == Missing <==> last.Absent? || (last.Record? && last.state == Released))
    {
      var read := store.ReadSnapshot();
      if read.NotFound? {
        return Missing;
      }
      if read.slot.Unreadable? {
        return Corrupt;
      }
      if read.slot.state.Released? {
        return Missing;
      }
      if !Judged(judgement, read.slot.info) {
        return if judgement.Clear? then Fresh else Changed;
      }
      store.Interfere(between);
      var answer := store.Apply(RetireRequest(store.canDelete, read.validator, read.slot.info, revision, judgement.now));
      if answer.Precondition? {
        read := store.ReadSnapshot();
        return if read.NotFound? then Missing else AfterRefusal(read.slot);
      }
      outcome := RetiredIt;
    }
  }
}
