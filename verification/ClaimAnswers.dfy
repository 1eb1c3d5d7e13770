/** What the promises of a claim need of the answers: no committed write may be answered as
    refused. */
module ClaimAnswers {
  import opened Wrappers
  import opened ClaimRecords
  import opened ClaimProtocol
  import opened ClaimInvariant
  import opened ClaimTheorems

  // ---------------------------------------------------------------- acquisitions

  /** The create of `inc` has committed, and the step answers it as refused. */
  ghost predicate CreateDenied(s: Sys, t: Sys, inc: Id) {
    && Takes(s, t, AcquireAnswer(inc, No))
    && s.procs[inc].Creating?
    && s.writes[s.procs[inc].write].status.Done?
  }

  ghost predicate WronglyRefused(run: seq<Sys>, i: nat, inc: Id)
    requires i < |run|
  {
    exists k :: 0 <= k < i && CreateDenied(run[k], run[k + 1], inc)
  }

  ghost predicate Acquiring(s: Sys, inc: Id, write: int) {
    0 <= write < |s.writes| && s.writes[write].author == ByAcquire(inc) && !s.writes[write].status.Refused?
  }

  /** At most one write of the acquisition has committed or may still commit, and none once the
      acquisition looks for a released record. */
  ghost predicate OnceInv(s: Sys, inc: Id) {
    && (forall a, b :: Acquiring(s, inc, a) && Acquiring(s, inc, b) ==> a == b)
    && (inc in s.procs && s.procs[inc].Looking? ==> forall a :: !Acquiring(s, inc, a))
  }

  /** The create of `inc` committed and was answered as refused, and a write that the acquisition
      issued after that answer committed as well. */
  ghost predicate DeniedThenTaken(run: seq<Sys>, i: nat, inc: Id)
    requires i < |run|
  {
    exists k, take :: 0 <= k < i && CreateDenied(run[k], run[k + 1], inc) && Issues(run[k], run[i], inc, take)
  }

  ghost predicate Issues(s: Sys, t: Sys, inc: Id, write: int) {
    |s.writes| <= write && Born(t, inc, write)
  }

  /** An incarnation's held generations fall apart exactly when its create committed, was answered as
      refused, and the record was then taken over for the same incarnation. */
  lemma GapNeedsWrongRefusal(run: seq<Sys>, i: nat, inc: Id)
    requires IsRun(run) && i < |run|
    ensures !Contiguous(run[i].hist, inc) <==> DeniedThenTaken(run, i, inc)
  {
    MutualExclusion(run, i, inc);
    if BornTwice(run[i], inc) {
      if !WronglyRefused(run, i, inc) {
        RunOnce(run, i, inc);
        OnceIsNotTwice(run[i], inc);
      } else {
        var k :| 0 <= k < i && CreateDenied(run[k], run[k + 1], inc);
        SecondComesLater(run, k, i, inc);
      }
    }
    if DeniedThenTaken(run, i, inc) {
      var k, take :| 0 <= k < i && CreateDenied(run[k], run[k + 1], inc) && Issues(run[k], run[i], inc, take);
      ProcHas(run, k, inc);
      var create := run[k].procs[inc].write;
      RunGrows(run, k, i);
      assert Settles(run[k].writes[create], run[i].writes[create]);
      assert Born(run[i], inc, create) && Born(run[i], inc, take);
    }
  }

  lemma SecondComesLater(run: seq<Sys>, k: nat, i: nat, inc: Id)
    requires IsRun(run) && k < i < |run| && CreateDenied(run[k], run[k + 1], inc) && BornTwice(run[i], inc)
    ensures exists take :: Issues(run[k], run[i], inc, take)
  {
    ProcHas(run, k, inc);
    RunGrows(run, k, i);
    forall a | Born(run[i], inc, a) && a < |run[k].writes| ensures a == run[k].procs[inc].write {
      assert Settles(run[k].writes[a], run[i].writes[a]);
    }
    var a, b :| a != b && Born(run[i], inc, a) && Born(run[i], inc, b);
    assert Issues(run[k], run[i], inc, a) || Issues(run[k], run[i], inc, b);
  }

  lemma OnceIsNotTwice(s: Sys, inc: Id)
    requires OnceInv(s, inc)
    ensures !BornTwice(s, inc)
  {
    assert forall a :: Born(s, inc, a) ==> Acquiring(s, inc, a);
  }

  /** Where no committed create is answered as refused, each incarnation holds the record without a
      gap, and no other one holds it in between. */
  lemma TruthfulAcquisitionsExclude(run: seq<Sys>, i: nat, inc: Id)
    requires IsRun(run) && i < |run| && !WronglyRefused(run, i, inc)
    ensures Contiguous(run[i].hist, inc)
    ensures forall a, b, c, other :: 0 <= a < b < c < |run[i].hist| && other != inc
              && HeldBy(run[i].hist[a], inc) && HeldBy(run[i].hist[c], inc)
              ==> !HeldBy(run[i].hist[b], other)
  {
    GapNeedsWrongRefusal(run, i, inc);
  }

  lemma {:induction false} RunOnce(run: seq<Sys>, i: nat, inc: Id)
    requires IsRun(run) && i < |run| && !WronglyRefused(run, i, inc)
    ensures OnceInv(run[i], inc)
  {
    if i > 0 {
      assert WronglyRefused(run, i - 1, inc) ==> WronglyRefused(run, i, inc);
      RunOnce(run, i - 1, inc);
      var step := LastStep(run, i);
      assert !CreateDenied(run[i - 1], run[i - 1 + 1], inc);
      AcquisitionsAreKnown(run, i - 1);
      if inc in run[i - 1].procs {
        ProcHas(run, i - 1, inc);
      }
      StepOnce(run[i - 1], step, inc);
    }
  }

  lemma AcquisitionsAreKnown(run: seq<Sys>, i: nat)
    requires IsRun(run) && i < |run|
        ensures forall k, inc :: 0 <= k < |run[i].writes| && run[i].writes[k].author == ByAcquire(inc) ==> inc in run[i].procs
  {
    RunInv(run, i);
    forall k, inc | 0 <= k < |run[i].writes| && run[i].writes[k].author == ByAcquire(inc) ensures inc in run[i].procs {
      assert WriteInv(run[i], run[i].writes[k]);
    }
  }

  lemma StepOnce(s: Sys, step: Step, inc: Id)
    requires s.Shaped() && Enabled(s, step) && OnceInv(s, inc)
    requires inc in s.procs ==> ProcInv(s, inc)
    requires inc in s.procs ==> inc < s.unused
    requires forall k :: 0 <= k < |s.writes| && s.writes[k].author == ByAcquire(inc) ==> inc in s.procs
    requires !CreateDenied(s, Do(s, step), inc)
    ensures OnceInv(Do(s, step), inc)
  {
    var t := Do(s, step);
    hide RetireRequest, BeatRequest, Encode, Judged, Stale, AfterRefusedRetire, BeatReconciled, BeatAnswered,
      Confirmed, Read, RetireConcluded, CreateDenied, HandleInv, OwnWritesInv, PhaseInv;
    if step.AcquireAnswer? && step.inc == inc {
      assert Takes(s, t, step);
      AnswerOnce(s, step.answer, inc);
    } else if inc in s.procs {
      OtherStepOnce(s, step, inc);
    } else {
      NewcomerOnce(s, step, inc);
    }
  }

  lemma AnswerOnce(s: Sys, answer: Answer, inc: Id)
    requires s.Shaped() && Enabled(s, AcquireAnswer(inc, answer)) && OnceInv(s, inc) && ProcInv(s, inc)
    requires !CreateDenied(s, Do(s, AcquireAnswer(inc, answer)), inc)
    ensures OnceInv(Do(s, AcquireAnswer(inc, answer)), inc)
  {
    var t := Do(s, AcquireAnswer(inc, answer));
    assert Takes(s, t, AcquireAnswer(inc, answer));
    assert forall a :: Acquiring(t, inc, a) <==> Acquiring(s, inc, a);
  }

  lemma OtherStepOnce(s: Sys, step: Step, inc: Id)
    requires s.Shaped() && Enabled(s, step) && OnceInv(s, inc) && inc in s.procs && inc < s.unused
    requires !(step.AcquireAnswer? && step.inc == inc)
    ensures OnceInv(Do(s, step), inc)
  {
    var t := Do(s, step);
    if step.AcquireLook? && step.inc == inc {
      LookOnce(s, step.readable, inc);
    } else {
      QuietOnce(s, step, inc);
      StepGrows(s, step);
      forall a | Acquiring(t, inc, a) ensures Acquiring(s, inc, a) {
        assert a < |s.writes| ==> Settles(s.writes[a], t.writes[a]);
      }
    }
  }

  lemma LookOnce(s: Sys, readable: bool, inc: Id)
    requires s.Shaped() && Enabled(s, AcquireLook(inc, readable)) && OnceInv(s, inc)
    ensures OnceInv(Do(s, AcquireLook(inc, readable)), inc)
  {
    var t := Do(s, AcquireLook(inc, readable));
    forall a | Acquiring(t, inc, a) ensures a == |s.writes| {
      assert !Acquiring(s, inc, a);
    }
  }

  lemma QuietOnce(s: Sys, step: Step, inc: Id)
    requires s.Shaped() && Enabled(s, step) && inc in s.procs && inc < s.unused
    requires !((step.AcquireAnswer? || step.AcquireLook?) && step.inc == inc)
    ensures inc in Do(s, step).procs && (Do(s, step).procs[inc].Looking? ==> s.procs[inc].Looking?)
    ensures forall k :: |s.writes| <= k < |Do(s, step).writes| ==> Do(s, step).writes[k].author != ByAcquire(inc)
  {
    hide RetireRequest, BeatRequest, Encode, Matches, After, Judged, Stale, Confirmed, Read, Reconciled;
  }

  lemma NewcomerOnce(s: Sys, step: Step, inc: Id)
    requires s.Shaped() && Enabled(s, step) && inc !in s.procs
    requires forall k :: 0 <= k < |s.writes| ==> s.writes[k].author != ByAcquire(inc)
    ensures OnceInv(Do(s, step), inc)
  {
    hide RetireRequest, BeatRequest, Encode, Judged, Stale, AfterRefusedRetire, BeatReconciled, BeatAnswered,
      Confirmed, Read, RetireConcluded;
    assert forall a :: Acquiring(Do(s, step), inc, a) ==> a == |s.writes|;
  }

  // ---------------------------------------------------------------- releases

  /** A committed retire is answered as refused. */
  ghost predicate RetireDenied(s: Sys, t: Sys, inc: Id) {
    && Takes(s, t, RetireAnswer(inc, No))
    && s.writes[s.procs[inc].phase.write].status.Done?
  }

  /** The handle is confirmed although the answer to one of its retires was lost. */
  ghost predicate ConfirmsUncertain(s: Sys, t: Sys, inc: Id) {
    Takes(s, t, Confirm(inc, true)) && s.procs[inc].h.retireUncertain
  }

  ghost predicate AnsweredTruthfully(run: seq<Sys>, i: nat, inc: Id)
    requires i < |run|
  {
    forall k :: 0 <= k < i ==> !RetireDenied(run[k], run[k + 1], inc) && !ConfirmsUncertain(run[k], run[k + 1], inc)
  }

  /** A retire that has committed, or may still commit, is known to the handle: its answer was lost,
      it ended the release, or it is being waited for. */
  ghost predicate RetiresKnown(s: Sys, inc: Id) {
    IsHolding(s, inc) ==>
      forall w :: 0 <= w < |s.writes| && s.writes[w].author == ByRetire(inc) && !s.writes[w].status.Refused? ==>
        || s.procs[inc].h.retireUncertain
        || s.procs[inc].h.released
        || (s.procs[inc].phase.Retiring? && s.procs[inc].phase.write == w)
  }

  /** A handle whose retires are answered truthfully or not at all, and that is not confirmed once an
      answer was lost, is never marked lost while nobody else changes the record and every re-read
      after a refused heartbeat succeeds. */
  lemma TruthfulReleaseIsNotLost(run: seq<Sys>, i: nat, inc: Id)
    requires IsRun(run) && i < |run| && IsHolding(run[i], inc) && AnsweredTruthfully(run, i, inc)
    ensures run[i].Shaped()
    ensures !Disturbed(run[i], inc) && !run[i].procs[inc].blind ==> !run[i].procs[inc].h.lost
  {
    NoFalseLoss(run, i, inc);
    if Denied(run, i, inc) {
      var k :| 0 <= k < i && Denies(run[k], run[k + 1], inc);
      RunRetiresKnown(run, k, inc);
      ProcHas(run, k, inc);
      TruthfulDeniesNothing(run[k], run[k + 1], inc);
    }
  }

  lemma TruthfulDeniesNothing(s: Sys, t: Sys, inc: Id)
    requires s.Shaped() && IsHolding(s, inc) && ProcInv(s, inc) && RetiresKnown(s, inc)
    requires !ConfirmsUncertain(s, t, inc)
    ensures !Denies(s, t, inc)
  {
  }

  lemma {:induction false} RunRetiresKnown(run: seq<Sys>, i: nat, inc: Id)
    requires IsRun(run) && i < |run| && AnsweredTruthfully(run, i, inc)
    ensures RetiresKnown(run[i], inc)
  {
    if i > 0 {
      RunRetiresKnown(run, i - 1, inc);
      var step := LastStep(run, i);
      assert !RetireDenied(run[i - 1], run[i - 1 + 1], inc);
      RunInv(run, i - 1);
      if IsHolding(run[i - 1], inc) {
        ProcHas(run, i - 1, inc);
        StepRetiresKnown(run[i - 1], step, inc);
      } else {
        var writes := run[i - 1].writes;
        forall w | 0 <= w < |writes| ensures writes[w].author != ByRetire(inc) {
          WriteHas(run, i - 1, w);
        }
        NewHandleRetiredNothing(run[i - 1], step, inc);
      }
    }
  }

  lemma NewHandleRetiredNothing(s: Sys, step: Step, inc: Id)
    requires s.Shaped() && Enabled(s, step) && !IsHolding(s, inc)
    requires forall w :: 0 <= w < |s.writes| ==> s.writes[w].author != ByRetire(inc)
    ensures RetiresKnown(Do(s, step), inc)
  {
    hide RetireRequest, BeatRequest, Encode, Judged, Stale, AfterRefusedRetire, Confirmed, Read;
  }

  lemma StepRetiresKnown(s: Sys, step: Step, inc: Id)
    requires s.Shaped() && Enabled(s, step) && IsHolding(s, inc) && inc < s.unused && RetiresKnown(s, inc)
    requires !RetireDenied(s, Do(s, step), inc)
    ensures RetiresKnown(Do(s, step), inc)
  {
    if !StepOf(step, inc) {
      ForeignStep(s, step, inc);
      ForeignRetiresKnown(s, step, inc);
    } else {
      assert Takes(s, Do(s, step), step);
      OwnRetiresKnown(s, step, inc);
    }
  }

  lemma ForeignRetiresKnown(s: Sys, step: Step, inc: Id)
    requires s.Shaped() && Enabled(s, step) && IsHolding(s, inc) && RetiresKnown(s, inc)
    requires inc in Do(s, step).procs && Do(s, step).procs[inc] == s.procs[inc]
    requires forall k :: |s.writes| <= k < |Do(s, step).writes| ==> !ByHandle(Do(s, step).writes[k].author, inc)
    ensures RetiresKnown(Do(s, step), inc)
  {
    var t := Do(s, step);
    StepGrows(s, step);
    forall w | 0 <= w < |t.writes| && t.writes[w].author == ByRetire(inc) && !t.writes[w].status.Refused?
      ensures w < |s.writes| && s.writes[w].author == ByRetire(inc) && !s.writes[w].status.Refused?
    {
      assert w < |s.writes| ==> Settles(s.writes[w], t.writes[w]);
    }
  }

  lemma OwnRetiresKnown(s: Sys, step: Step, inc: Id)
    requires s.Shaped() && Enabled(s, step) && IsHolding(s, inc) && StepOf(step, inc) && RetiresKnown(s, inc)
    requires !RetireDenied(s, Do(s, step), inc) && Takes(s, Do(s, step), step)
    ensures RetiresKnown(Do(s, step), inc)
  {
    hide RetireRequest, BeatRequest, Encode, Judged, Stale, Read;
  }
}
