/** What the records of a claim say, from the steps that wrote them: whose they are, since when, and
    when the last heartbeat was; and so which records an operator call may retire. */
module ClaimTimes {
  import opened Wrappers
  import opened ClaimRecords
  import opened ClaimProtocol
  import opened ClaimInvariant
  import opened ClaimTheorems

  /** How an acquisition began. */
  datatype Begun = Begun(domain: string, owner: string, at: real, staleAfter: real)

  /** State `k` of the run begins the acquisition `inc`. */
  ghost predicate Begins(run: seq<Sys>, k: nat, inc: Id, b: Begun) {
    && k + 1 < |run|
    && Takes(run[k], run[k + 1], AcquireBegin(b.domain, b.owner, b.at, b.staleAfter))
    && run[k].unused == inc
  }

  /** The fields of a record that stay as the acquisition set them. */
  predicate Names(info: Info, inc: Id, b: Begun) {
    && info.incarnation == Some(inc)
    && info.domain == b.domain
    && info.owner == b.owner
    && info.acquiredAt == b.at
    && info.staleAfter == b.staleAfter
  }

  predicate Carries(slot: Slot, inc: Id, b: Begun) {
    slot.Record? && slot.info.incarnation == Some(inc) ==> Names(slot.info, inc, b)
  }

  ghost predicate ProcCarries(p: Proc, inc: Id, b: Begun) {
    match p
    case Creating(info, _) => Names(info, inc, b) && info.heartbeatAt == b.at
    case Looking(info) => Names(info, inc, b) && info.heartbeatAt == b.at
    case Taking(info, _) => Names(info, inc, b) && info.heartbeatAt == b.at
    case GaveUp => true
    case Holding(h, _, _, _, _) => Names(h.info, inc, b)
  }

  ghost predicate WriteCarries(w: Issued, inc: Id, b: Begun) {
    && Carries(After(w.request), inc, b)
    && (w.author == ByAcquire(inc) ==> After(w.request).Record? && After(w.request).info.heartbeatAt == b.at)
  }

  ghost predicate AllCarry(s: Sys, inc: Id, b: Begun) {
    && (forall k :: 0 <= k < |s.hist| ==> Carries(s.hist[k], inc, b))
    && (forall i :: 0 <= i < |s.writes| ==> WriteCarries(s.writes[i], inc, b))
    && inc in s.procs
    && ProcCarries(s.procs[inc], inc, b)
  }

  // ---------------------------------------------------------------- whose a record is

  /** Every generation of a claim, held or released, names the domain, the owner, the time and the
      stale threshold its acquisition began with. */
  lemma RecordNamesItsAcquisition(run: seq<Sys>, k: nat, j: nat, inc: Id, b: Begun, generation: nat)
    requires IsRun(run) && Begins(run, k, inc, b) && k < j < |run| && generation < |run[j].hist|
    requires run[j].hist[generation].Record? && run[j].hist[generation].info.incarnation == Some(inc)
    ensures var info := run[j].hist[generation].info;
            info.domain == b.domain && info.owner == b.owner && info.acquiredAt == b.at && info.staleAfter == b.staleAfter
  {
    RunCarries(run, k, j, inc, b);
    assert Carries(run[j].hist[generation], inc, b);
  }

  lemma {:induction false} RunCarries(run: seq<Sys>, k: nat, j: nat, inc: Id, b: Begun)
    requires IsRun(run) && Begins(run, k, inc, b) && k < j < |run|
    ensures AllCarry(run[j], inc, b)
    decreases j
  {
    hide Do, Inv, AllCarry;
    RunInv(run, j - 1);
    if j == k + 1 {
      NewcomerCarries(run[k], inc, b);
    } else {
      RunCarries(run, k, j - 1, inc, b);
      var step := LastStep(run, j);
      StepCarries(run[j - 1], step, inc, b);
    }
  }

  lemma NewcomerCarries(s: Sys, inc: Id, b: Begun)
    requires Inv(s) && s.unused == inc
    ensures AllCarry(Do(s, AcquireBegin(b.domain, b.owner, b.at, b.staleAfter)), inc, b)
  {
    var t := Do(s, AcquireBegin(b.domain, b.owner, b.at, b.staleAfter));
    OwnInfos(s);
    forall k | 0 <= k < |t.hist| ensures Carries(t.hist[k], inc, b) {
      assert IdsBelow(s.hist[k], s.unused);
    }
    forall i | 0 <= i < |t.writes| ensures WriteCarries(t.writes[i], inc, b) {
      if i < |s.writes| {
        assert WriteInv(s, s.writes[i]);
      }
    }
  }

  /** The info a process writes its records with names its own incarnation. */
  ghost predicate OwnInfo(p: Proc, inc: Id) {
    match p
    case Creating(info, _) => info.incarnation == Some(inc)
    case Looking(info) => info.incarnation == Some(inc)
    case Taking(info, _) => info.incarnation == Some(inc)
    case GaveUp => true
    case Holding(h, _, _, _, _) => h.info.incarnation == Some(inc)
  }

  lemma StepCarries(s: Sys, step: Step, inc: Id, b: Begun)
    requires Inv(s) && Enabled(s, step) && AllCarry(s, inc, b)
    ensures AllCarry(Do(s, step), inc, b)
  {
    hide HandleInv, OwnWritesInv, PhaseInv, WriteInv, HistInv, Inv, Do, ProcCarries, WriteCarries, Carries;
    OwnInfos(s);
    NewWriteCarries(s, step, inc, b);
    HistCarries(s, step, inc, b);
    ProcStaysCarrying(s, step, inc, b);
    Carried(s, Do(s, step), inc, b);
  }

  lemma OwnInfos(s: Sys)
    requires Inv(s)
    ensures s.Shaped() && forall k :: k in s.procs ==> k < s.unused && OwnInfo(s.procs[k], k)
  {
    forall k | k in s.procs ensures k < s.unused && OwnInfo(s.procs[k], k) {
      assert ProcInv(s, k);
    }
  }

  lemma Carried(s: Sys, t: Sys, inc: Id, b: Begun)
    requires AllCarry(s, inc, b) && Grows(s, t)
    requires forall i :: |s.writes| <= i < |t.writes| ==> WriteCarries(t.writes[i], inc, b)
    requires forall k :: 0 <= k < |t.hist| ==> Carries(t.hist[k], inc, b)
    requires inc in t.procs && ProcCarries(t.procs[inc], inc, b)
    ensures AllCarry(t, inc, b)
  {
    forall i | 0 <= i < |t.writes| ensures WriteCarries(t.writes[i], inc, b) {
      if i < |s.writes| {
        assert Settles(s.writes[i], t.writes[i]) && WriteCarries(s.writes[i], inc, b);
      }
    }
  }

  lemma HistCarries(s: Sys, step: Step, inc: Id, b: Begun)
    requires s.Shaped() && Enabled(s, step) && AllCarry(s, inc, b)
    ensures Grows(s, Do(s, step))
    ensures forall k :: 0 <= k < |Do(s, step).hist| ==> Carries(Do(s, step).hist[k], inc, b)
  {
    StepGrows(s, step);
    if step.Deliver? {
      assert WriteCarries(s.writes[step.write], inc, b);
    } else {
      SameHist(s, step);
    }
  }

  lemma SameHist(s: Sys, step: Step)
    requires s.Shaped() && Enabled(s, step) && !step.Deliver?
    ensures Do(s, step).hist == s.hist
  {
    hide RetireRequest, BeatRequest, Encode, Matches, After, Judged, Stale, BeatReconciled, BeatAnswered, Confirmed,
      Read, RetireConcluded, AcquireAnswered;
  }

  lemma NewWriteCarries(s: Sys, step: Step, inc: Id, b: Begun)
    requires s.Shaped() && Enabled(s, step) && AllCarry(s, inc, b)
    requires forall k :: k in s.procs ==> k < s.unused && OwnInfo(s.procs[k], k)
    ensures forall i :: |s.writes| <= i < |Do(s, step).writes| ==> WriteCarries(Do(s, step).writes[i], inc, b)
  {
    hide Matches, Judged, Stale, BeatReconciled, BeatAnswered, Confirmed, Read, RetireConcluded, AcquireAnswered;
    assert Carries(s.hist[s.Now()], inc, b);
  }

  lemma ProcStaysCarrying(s: Sys, step: Step, inc: Id, b: Begun)
    requires s.Shaped() && Enabled(s, step) && inc in s.procs && inc < s.unused && ProcCarries(s.procs[inc], inc, b)
    ensures inc in Do(s, step).procs && ProcCarries(Do(s, step).procs[inc], inc, b)
  {
    if StepOf(step, inc) {
      OwnProcStaysCarrying(s, step, inc, b);
    } else {
      ForeignStep(s, step, inc);
    }
  }

  lemma OwnProcStaysCarrying(s: Sys, step: Step, inc: Id, b: Begun)
    requires s.Shaped() && Enabled(s, step) && StepOf(step, inc) && ProcCarries(s.procs[inc], inc, b)
    ensures inc in Do(s, step).procs && ProcCarries(Do(s, step).procs[inc], inc, b)
  {
    if IsHolding(s, inc) {
      HandleStaysCarrying(s, step, inc, b);
    } else {
      AcquisitionStaysCarrying(s, step, inc, b);
    }
  }

  lemma HandleStaysCarrying(s: Sys, step: Step, inc: Id, b: Begun)
    requires s.Shaped() && Enabled(s, step) && StepOf(step, inc) && IsHolding(s, inc) && Names(s.procs[inc].h.info, inc, b)
    ensures IsHolding(Do(s, step), inc) && Names(Do(s, step).procs[inc].h.info, inc, b)
  {
    hide RetireRequest, BeatRequest, Encode, Matches, After, Judged, Stale, Read, Confirmed, Reconciled;
    var p := s.procs[inc];
    if step.Confirm? {
      ConfirmedNames(p.h, ReadOf(s, step.readable), inc, b);
    } else if step.BeatReread? {
      ReconciledNames(p.h, p.phase.attempted, p.phase.refused, ReadOf(s, step.readable), inc, b);
    }
  }

  lemma ConfirmedNames(h: Handle, read: ReadAnswer, inc: Id, b: Begun)
    requires Names(h.info, inc, b)
    ensures Names(Confirmed(h, read).info, inc, b)
  {
  }

  lemma ReconciledNames(h: Handle, attempted: Id, refused: bool, read: ReadAnswer, inc: Id, b: Begun)
    requires Names(h.info, inc, b)
    ensures Names(Reconciled(h, attempted, refused, read).0.info, inc, b)
  {
  }

  lemma AcquisitionStaysCarrying(s: Sys, step: Step, inc: Id, b: Begun)
    requires s.Shaped() && Enabled(s, step) && StepOf(step, inc) && inc in s.procs && !IsHolding(s, inc)
    requires ProcCarries(s.procs[inc], inc, b)
    ensures inc in Do(s, step).procs && ProcCarries(Do(s, step).procs[inc], inc, b)
  {
    hide RetireRequest, BeatRequest, Encode, Matches, After, Judged, Stale, Read;
  }

  lemma {:induction false} WasBegun(run: seq<Sys>, i: nat, inc: Id) returns (k: nat, b: Begun)
    requires IsRun(run) && i < |run| && inc in run[i].procs
    ensures k < i && Begins(run, k, inc, b)
  {
    var step := LastStep(run, i);
    if inc in run[i - 1].procs {
      k, b := WasBegun(run, i - 1, inc);
    } else {
      Newcomer(run[i - 1], step, inc);
      k, b := i - 1, Begun(step.domain, step.owner, step.now, step.staleAfter);
    }
  }

  lemma Newcomer(s: Sys, step: Step, inc: Id)
    requires s.Shaped() && Enabled(s, step) && inc !in s.procs && inc in Do(s, step).procs
    ensures step.AcquireBegin? && inc == s.unused
  {
  }

  // ---------------------------------------------------------------- when the last heartbeat was

  /** State `k` of the run begins a heartbeat of `inc` at time `t`, whose write made `generation`. */
  ghost predicate BeatMade(run: seq<Sys>, k: nat, j: nat, inc: Id, t: real, generation: nat) {
    && k < j < |run|
    && Takes(run[k], run[k + 1], BeatBegin(inc, t))
    && |run[k].writes| < |run[j].writes|
    && run[j].writes[|run[k].writes|].status == Done(generation)
  }

  /** A generation a heartbeat made is held, by its incarnation, and says when the heartbeat was. */
  lemma BeatSaysWhen(run: seq<Sys>, k: nat, j: nat, inc: Id, t: real, generation: nat)
    requires IsRun(run) && BeatMade(run, k, j, inc, t, generation)
    ensures generation < |run[j].hist|
    ensures var slot := run[j].hist[generation];
            slot.Record? && slot.state == Held && slot.info.incarnation == Some(inc) && slot.info.heartbeatAt == t
  {
    var write := |run[k].writes|;
    RunGrows(run, k + 1, j);
    assert Settles(run[k + 1].writes[write], run[j].writes[write]);
    WriteHas(run, j, write);
    ProcHas(run, k, inc);
  }

  /** A generation an acquisition made, by its create or by its take-over, says when it began. */
  lemma AcquisitionSaysWhen(run: seq<Sys>, k: nat, j: nat, inc: Id, b: Begun, write: nat, generation: nat)
    requires IsRun(run) && Begins(run, k, inc, b) && k < j < |run|
    requires write < |run[j].writes| && run[j].writes[write].author == ByAcquire(inc)
    requires run[j].writes[write].status == Done(generation)
    ensures generation < |run[j].hist|
    ensures var slot := run[j].hist[generation];
            slot.Record? && slot.state == Held && Names(slot.info, inc, b) && slot.info.heartbeatAt == b.at
  {
    RunCarries(run, k, j, inc, b);
    WriteHas(run, j, write);
    assert WriteCarries(run[j].writes[write], inc, b);
  }

  // ---------------------------------------------------------------- what an operator may retire

  /** A clear that is not forced retires a record a heartbeat made only when more than the threshold
      its acquisition began with has passed since that heartbeat began. */
  lemma ClearWaitsForSilence(run: seq<Sys>, a: nat, k: nat, j: nat, inc: Id, b: Begun, t: real, generation: nat,
                             clear: nat, now: real)
    requires IsRun(run) && Begins(run, a, inc, b) && a < j && BeatMade(run, k, j, inc, t, generation)
    requires clear < |run[j].writes| && run[j].writes[clear].author == ByOperator(Clear(false, now))
    requires !run[j].writes[clear].request.Create? && run[j].writes[clear].request.expected == generation
    ensures now > t + b.staleAfter
  {
    BeatSaysWhen(run, k, j, inc, t, generation);
    RecordNamesItsAcquisition(run, a, j, inc, b, generation);
    WriteHas(run, j, clear);
  }

  /** So does one of a record that no heartbeat has renewed since the acquisition made it. */
  lemma ClearWaitsAfterAcquisition(run: seq<Sys>, a: nat, j: nat, inc: Id, b: Begun, write: nat, generation: nat,
                                   clear: nat, now: real)
    requires IsRun(run) && Begins(run, a, inc, b) && a < j < |run|
    requires write < |run[j].writes| && run[j].writes[write].author == ByAcquire(inc)
    requires run[j].writes[write].status == Done(generation)
    requires clear < |run[j].writes| && run[j].writes[clear].author == ByOperator(Clear(false, now))
    requires !run[j].writes[clear].request.Create? && run[j].writes[clear].request.expected == generation
    ensures now > b.at + b.staleAfter
  {
    AcquisitionSaysWhen(run, a, j, inc, b, write, generation);
    WriteHas(run, j, clear);
  }

  /** While the record is the one a heartbeat made, a clear may be issued exactly when it is forced or
      that long has passed. */
  lemma ClearAllowedExactly(run: seq<Sys>, a: nat, k: nat, j: nat, inc: Id, b: Begun, t: real, force: bool, now: real)
    requires IsRun(run) && Begins(run, a, inc, b) && a < j && j < |run| && |run[j].hist| > 0
    requires BeatMade(run, k, j, inc, t, |run[j].hist| - 1)
    ensures Enabled(run[j], Operate(Clear(force, now))) <==> force || now > t + b.staleAfter
  {
    BeatSaysWhen(run, k, j, inc, t, |run[j].hist| - 1);
    RecordNamesItsAcquisition(run, a, j, inc, b, |run[j].hist| - 1);
  }

  /** A conditional release retires only a record with the owner, acquisition time and incarnation that
      were listed; with `staleOnly` also the heartbeat and revision, and a stale one. */
  lemma ReleaseRetiresWhatWasListed(run: seq<Sys>, i: nat, write: nat, listed: Info, staleOnly: bool, now: real)
    requires IsRun(run) && i < |run| && write < |run[i].writes|
    requires run[i].writes[write].author == ByOperator(IfUnchanged(listed, staleOnly, now))
    requires run[i].writes[write].status.Done?
    ensures var at := run[i].writes[write].status.at;
            && 0 < at < |run[i].hist|
            && var slot := run[i].hist[at - 1];
               && slot.Record? && slot.state == Held
               && slot.info.owner == listed.owner
               && slot.info.acquiredAt == listed.acquiredAt
               && slot.info.incarnation == listed.incarnation
               && (staleOnly ==>
                     && slot.info.heartbeatAt == listed.heartbeatAt
                     && slot.info.revision == listed.revision
                     && now > slot.info.heartbeatAt + slot.info.staleAfter)
  {
    WriteHas(run, i, write);
  }

  /** A conditional release may be issued exactly while the current record is held and as listed. */
  lemma ReleaseAllowedExactly(s: Sys, listed: Info, staleOnly: bool, now: real)
    requires s.Shaped()
    ensures Enabled(s, Operate(IfUnchanged(listed, staleOnly, now))) <==>
              var slot := s.hist[|s.hist| - 1];
              && slot.Record? && slot.state == Held
              && slot.info.owner == listed.owner
              && slot.info.acquiredAt == listed.acquiredAt
              && slot.info.incarnation == listed.incarnation
              && (staleOnly ==>
                    && slot.info.heartbeatAt == listed.heartbeatAt
                    && slot.info.revision == listed.revision
                    && now > slot.info.heartbeatAt + slot.info.staleAfter)
  {
  }

  /** What a committed retire leaves, of a handle or an operator: nothing where the driver can delete,
      else a released record that names the same acquisition and says when it was retired. */
  lemma RetireLeavesExactly(run: seq<Sys>, k: nat, j: nat, step: Step, at: nat)
    requires IsRun(run) && k < j < |run| && Takes(run[k], run[k + 1], step) && |run[k].writes| < |run[k + 1].writes|
    requires step.Operate? || step.RetireBegin? || step.RetireReread?
    requires |run[k].writes| < |run[j].writes| && run[j].writes[|run[k].writes|].status == Done(at)
    ensures 0 < at < |run[j].hist| && run[j].hist[at - 1].Record?
    ensures var slot, before := run[j].hist[at], run[j].hist[at - 1].info;
            if run[k].canDelete then slot.Absent?
            else
              && slot.Record? && slot.state == Released
              && slot.info.incarnation == before.incarnation
              && (step.Operate? ==> slot.info.owner == before.owner && slot.info.domain == before.domain
                                    && slot.info.acquiredAt == before.acquiredAt
                                    && slot.info.heartbeatAt == step.judgement.now)
              && (!step.Operate? ==> slot.info.heartbeatAt == step.now)
  {
    hide Do, Inv, Matches, Judged;
    var write := |run[k].writes|;
    RunGrows(run, k, k + 1);
    RunGrows(run, k + 1, j);
    assert Settles(run[k + 1].writes[write], run[j].writes[write]);
    WriteHas(run, j, write);
    if !step.Operate? {
      ProcHas(run, k, step.inc);
    }
    RetireRequestIssued(run[k], step);
  }

  lemma RetireRequestIssued(s: Sys, step: Step)
    requires s.Shaped() && Enabled(s, step) && |s.writes| < |Do(s, step).writes|
    requires step.Operate? || step.RetireBegin? || step.RetireReread?
    ensures var w := Do(s, step).writes[|s.writes|];
            && !w.request.Create? && (w.request.Delete? <==> s.canDelete)
            && (step.Operate? ==> w.author == ByOperator(step.judgement) && w.request.expected == s.Now())
            && (!step.Operate? ==> w.author == ByRetire(step.inc))
            && (w.request.Replace? ==>
                  && w.request.content.Record? && w.request.content.state == Released
                  && w.request.content.info ==
                     (if step.Operate? then s.hist[s.Now()].info else s.procs[step.inc].h.info)
                       .(heartbeatAt := if step.Operate? then step.judgement.now else step.now,
                         revision := w.request.content.info.revision))
  {
  }

  // ---------------------------------------------------------------- the handle and its record

  /** A handle shows exactly the record of the generation it confirmed last, every field of it. */
  lemma {:induction false} HandleShowsItsRecord(run: seq<Sys>, i: nat, inc: Id)
    requires IsRun(run) && i < |run| && IsHolding(run[i], inc)
    ensures run[i].procs[inc].h.validator < |run[i].hist|
    ensures run[i].hist[run[i].procs[inc].h.validator] == Record(run[i].procs[inc].h.info, Held)
  {
    ProcHas(run, i, inc);
    RunShowsTime(run, i, inc);
    var h := run[i].procs[inc].h;
    var k, b := WasBegun(run, i, inc);
    RunCarries(run, k, i, inc, b);
    assert HeldBy(run[i].hist[h.validator], inc) && Carries(run[i].hist[h.validator], inc, b);
  }

  /** The heartbeat time of a handle is that of the generation it confirmed. */
  ghost predicate ShowsTime(s: Sys, inc: Id) {
    IsHolding(s, inc) ==>
      && s.procs[inc].h.validator < |s.hist|
      && s.hist[s.procs[inc].h.validator].Record?
      && s.hist[s.procs[inc].h.validator].info.heartbeatAt == s.procs[inc].h.info.heartbeatAt
  }

  lemma {:induction false} RunShowsTime(run: seq<Sys>, i: nat, inc: Id)
    requires IsRun(run) && i < |run|
    ensures ShowsTime(run[i], inc)
  {
    if i > 0 && IsHolding(run[i], inc) {
      RunShowsTime(run, i - 1, inc);
      var step := LastStep(run, i);
      RunGrows(run, i - 1, i);
      RunInv(run, i - 1);
      ProcOrNewcomer(run[i - 1], step, inc);
      ProcHas(run, i - 1, inc);
      if !StepOf(step, inc) {
        ForeignStep(run[i - 1], step, inc);
      } else if IsHolding(run[i - 1], inc) {
        if step.BeatAnswer? {
          WriteHas(run, i - 1, run[i - 1].procs[inc].phase.write);
        }
        OwnStepShowsTime(run[i - 1], step, inc);
      } else {
        WriteHas(run, i - 1, run[i - 1].procs[inc].write);
        var k, b := WasBegun(run, i - 1, inc);
        RunCarries(run, k, i - 1, inc, b);
        assert WriteCarries(run[i - 1].writes[run[i - 1].procs[inc].write], inc, b);
        BirthShowsTime(run[i - 1], step, inc, b);
      }
    }
  }

  lemma ProcOrNewcomer(s: Sys, step: Step, inc: Id)
    requires s.Shaped() && Enabled(s, step) && IsHolding(Do(s, step), inc)
    ensures inc in s.procs && (!IsHolding(s, inc) ==> step.AcquireAnswer? && step.inc == inc && step.answer.Ok?)
  {
  }

  lemma BirthShowsTime(s: Sys, step: Step, inc: Id, b: Begun)
    requires s.Shaped() && Enabled(s, step) && step.AcquireAnswer? && step.inc == inc && step.answer.Ok?
    requires AcquiringInv(s, inc) && ProcCarries(s.procs[inc], inc, b)
    requires WriteInv(s, s.writes[s.procs[inc].write]) && WriteCarries(s.writes[s.procs[inc].write], inc, b)
    ensures ShowsTime(Do(s, step), inc)
  {
  }

  lemma OwnStepShowsTime(s: Sys, step: Step, inc: Id)
    requires s.Shaped() && Enabled(s, step) && IsHolding(s, inc) && StepOf(step, inc) && ProcInv(s, inc)
    requires ShowsTime(s, inc)
    requires step.BeatAnswer? ==> WriteInv(s, s.writes[s.procs[inc].phase.write])
    ensures ShowsTime(Do(s, step), inc)
  {
    if step.BeatReread? || step.Confirm? {
      if HeldBy(Current(s), inc) {
        KnownWhenHeld(s, inc);
      }
      if step.Confirm? {
        ConfirmShowsTime(s, step.readable, inc);
      } else {
        RereadShowsTime(s, step.readable, inc);
      }
    } else if step.BeatAnswer? {
      AnswerShowsTime(s, step.answer, inc);
    } else {
      QuietStepShowsTime(s, step, inc);
    }
  }

  lemma ConfirmShowsTime(s: Sys, readable: bool, inc: Id)
    requires s.Shaped() && Enabled(s, Confirm(inc, readable))
    requires ShowsTime(s, inc) && s.procs[inc].h.info.incarnation == Some(inc)
    requires HeldBy(Current(s), inc) ==>
               if s.Now() == s.procs[inc].h.validator then
                 s.hist[s.Now()].info.revision == s.procs[inc].h.info.revision
                 && !KnownRevision(s.procs[inc].h, s.procs[inc].phase, s.hist[s.Now()].info.revision)
               else KnownRevision(s.procs[inc].h, s.procs[inc].phase, s.hist[s.Now()].info.revision)
                    && s.hist[s.Now()].info.revision != s.procs[inc].h.info.revision
    ensures ShowsTime(Do(s, Confirm(inc, readable)), inc)
  {
  }

  lemma RereadShowsTime(s: Sys, readable: bool, inc: Id)
    requires s.Shaped() && Enabled(s, BeatReread(inc, readable))
    requires ShowsTime(s, inc) && s.procs[inc].h.info.incarnation == Some(inc)
    requires HeldBy(Current(s), inc) ==>
               if s.Now() == s.procs[inc].h.validator then
                 s.hist[s.Now()].info.revision == s.procs[inc].h.info.revision
                 && !KnownRevision(s.procs[inc].h, s.procs[inc].phase, s.hist[s.Now()].info.revision)
               else KnownRevision(s.procs[inc].h, s.procs[inc].phase, s.hist[s.Now()].info.revision)
                    && s.hist[s.Now()].info.revision != s.procs[inc].h.info.revision
    ensures ShowsTime(Do(s, BeatReread(inc, readable)), inc)
  {
  }

  lemma AnswerShowsTime(s: Sys, answer: Answer, inc: Id)
    requires s.Shaped() && Enabled(s, BeatAnswer(inc, answer)) && ShowsTime(s, inc)
    requires PhaseInv(s, inc) && WriteInv(s, s.writes[s.procs[inc].phase.write])
    ensures ShowsTime(Do(s, BeatAnswer(inc, answer)), inc)
  {
  }

  lemma QuietStepShowsTime(s: Sys, step: Step, inc: Id)
    requires s.Shaped() && Enabled(s, step) && IsHolding(s, inc) && StepOf(step, inc) && ShowsTime(s, inc)
    requires !step.BeatReread? && !step.Confirm? && !step.BeatAnswer?
    ensures ShowsTime(Do(s, step), inc)
  {
    hide RetireRequest, BeatRequest, Encode, Matches, After, Judged, Stale, Read, Confirmed, BeatReconciled;
  }
}
