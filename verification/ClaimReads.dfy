/** What a handle makes of each read of its record, in terms of the record alone. */
module ClaimReads {
  import opened Wrappers
  import opened ClaimRecords
  import opened ClaimProtocol
  import opened ClaimInvariant
  import opened ClaimTheorems

  /** The current generation is a held record of incarnation `inc`. */
  ghost predicate Shows(s: Sys, inc: Id) {
    && |s.hist| > 0
    && var slot := s.hist[|s.hist| - 1];
       slot.Record? && slot.state == Held && slot.info.incarnation == Some(inc)
  }

  /** The current generation is what a retire of incarnation `inc` leaves. */
  ghost predicate ShowsRetired(s: Sys, inc: Id) {
    && |s.hist| > 0
    && var slot := s.hist[|s.hist| - 1];
       slot.Absent? || (slot.Record? && slot.state == Released && slot.info.incarnation == Some(inc))
  }

  /** A confirmation that reads the record keeps the handle if the record is held by its incarnation,
      and loses it otherwise, whoever changed the record; one that cannot read it changes nothing. */
  lemma ConfirmFindsOut(run: seq<Sys>, i: nat, inc: Id, readable: bool)
    requires IsRun(run) && i + 1 < |run| && Takes(run[i], run[i + 1], Confirm(inc, readable))
    ensures var h, g := run[i].procs[inc].h, run[i + 1].procs[inc].h;
            && g.lost == (readable && !Shows(run[i], inc))
            && (!readable ==> g == h)
            && (readable && Shows(run[i], inc) ==> g.validator == |run[i].hist| - 1)
  {
    ProcHas(run, i, inc);
    if HeldBy(Current(run[i]), inc) {
      KnownWhenHeld(run[i], inc);
    }
  }

  /** So does the re-read after a refused or failed heartbeat. Where it fails, a refused heartbeat loses
      the handle and one that got no answer leaves it open. */
  lemma RereadFindsOut(run: seq<Sys>, i: nat, inc: Id, readable: bool)
    requires IsRun(run) && i + 1 < |run| && Takes(run[i], run[i + 1], BeatReread(inc, readable))
    ensures var p, q := run[i].procs[inc], run[i + 1].procs[inc];
            && q.phase.Idle?
            && (readable ==> (q.h.lost <==> !Shows(run[i], inc)))
            && (!readable ==> (q.h.lost <==> p.h.lost || p.phase.refused))
            && (q.blind <==> p.blind || (!readable && p.phase.refused))
            && (q.alive <==> p.alive && if readable then Shows(run[i], inc) else !p.phase.refused)
            && (readable && Shows(run[i], inc) ==> q.h.validator == |run[i].hist| - 1)
  {
    ProcHas(run, i, inc);
    if HeldBy(Current(run[i]), inc) {
      KnownWhenHeld(run[i], inc);
    }
  }

  /** The re-read after a refused retire: a record held by the own incarnation is retired once more;
      what a retire of the own incarnation leaves ends the release, as lost unless an earlier retire
      got no answer; anything else, so every record of another incarnation, ends it as lost. A re-read
      that fails ends the call with the handle as it was. */
  lemma RetireRereadFindsOut(run: seq<Sys>, i: nat, inc: Id, readable: bool, now: real)
    requires IsRun(run) && i + 1 < |run| && Takes(run[i], run[i + 1], RetireReread(inc, readable, now))
    ensures var p, q := run[i].procs[inc], run[i + 1].procs[inc];
            && (!readable ==> q == p.(phase := Idle) && run[i + 1].writes == run[i].writes)
            && (readable && Shows(run[i], inc) ==>
                  && q == p.(phase := Retiring(|run[i].writes|, 1))
                  && |run[i + 1].writes| == |run[i].writes| + 1
                  && Expects(run[i + 1].writes[|run[i].writes|], ByRetire(inc), |run[i].hist| - 1))
            && (readable && !Shows(run[i], inc) ==>
                  && q.phase.Idle? && q.h.released
                  && (q.h.lost <==> !(ShowsRetired(run[i], inc) && p.h.retireUncertain))
                  && run[i + 1].writes == run[i].writes)
  {
    ProcHas(run, i, inc);
    if HeldBy(Current(run[i]), inc) {
      KnownWhenHeld(run[i], inc);
    }
  }

  predicate Expects(w: Issued, author: Author, generation: nat) {
    w.author == author && !w.request.Create? && w.request.expected == generation
  }

  /** The steps that find out that a handle is lost. */
  ghost predicate FindsLoss(s: Sys, t: Sys, inc: Id) {
    || (Takes(s, t, Confirm(inc, true)) && !Shows(s, inc))
    || (Takes(s, t, BeatReread(inc, true)) && !Shows(s, inc))
    || (Takes(s, t, BeatReread(inc, false)) && s.procs[inc].phase.refused)
    || ((exists now :: Takes(s, t, RetireReread(inc, true, now))) && !Shows(s, inc)
        && !(ShowsRetired(s, inc) && s.procs[inc].h.retireUncertain))
  }

  /** A handle becomes lost by exactly these steps, whoever else changes the record. */
  lemma LossExactly(run: seq<Sys>, i: nat, inc: Id)
    requires IsRun(run) && i + 1 < |run| && IsHolding(run[i], inc) && !run[i].procs[inc].h.lost
    ensures IsHolding(run[i + 1], inc)
    ensures run[i + 1].procs[inc].h.lost <==> FindsLoss(run[i], run[i + 1], inc)
  {
    hide FindsLoss, Shows, ShowsRetired;
    RunAges(run, i, i + 1, inc);
    ProcHas(run, i, inc);
    var s, t := run[i], run[i + 1];
    if FindsLoss(s, t, inc) {
      var step := FindingStep(s, t, inc);
      FoundByStep(run, i, step, inc);
    }
    if t.procs[inc].h.lost {
      var step := LastStep(run, i + 1);
      LosingStepFinds(run, i, step, inc);
    }
  }

  ghost predicate Finds(s: Sys, step: Step, inc: Id) {
    || (step == Confirm(inc, true) && !Shows(s, inc))
    || (step == BeatReread(inc, true) && !Shows(s, inc))
    || (step == BeatReread(inc, false) && IsHolding(s, inc) && s.procs[inc].phase.Reconciling? && s.procs[inc].phase.refused)
    || (step.RetireReread? && step.inc == inc && step.readable && !Shows(s, inc) && IsHolding(s, inc)
        && !(ShowsRetired(s, inc) && s.procs[inc].h.retireUncertain))
  }

  lemma FindingStep(s: Sys, t: Sys, inc: Id) returns (step: Step)
    requires FindsLoss(s, t, inc)
    ensures Takes(s, t, step) && Finds(s, step, inc)
  {
    hide Shows, ShowsRetired, Do;
    if Takes(s, t, Confirm(inc, true)) && !Shows(s, inc) {
      step := Confirm(inc, true);
    } else if Takes(s, t, BeatReread(inc, true)) && !Shows(s, inc) {
      step := BeatReread(inc, true);
    } else if Takes(s, t, BeatReread(inc, false)) && s.procs[inc].phase.refused {
      step := BeatReread(inc, false);
    } else {
      var now :| Takes(s, t, RetireReread(inc, true, now));
      step := RetireReread(inc, true, now);
    }
  }

  lemma FoundByStep(run: seq<Sys>, i: nat, step: Step, inc: Id)
    requires IsRun(run) && i + 1 < |run| && Takes(run[i], run[i + 1], step) && Finds(run[i], step, inc)
    ensures IsHolding(run[i + 1], inc) && run[i + 1].procs[inc].h.lost
  {
    hide Shows, ShowsRetired;
    match step
    case Confirm(_, readable) => ConfirmFindsOut(run, i, inc, readable);
    case BeatReread(_, readable) => RereadFindsOut(run, i, inc, readable);
    case RetireReread(_, readable, now) => RetireRereadFindsOut(run, i, inc, readable, now);
  }

  lemma LosingStepFinds(run: seq<Sys>, i: nat, step: Step, inc: Id)
    requires IsRun(run) && i + 1 < |run| && Takes(run[i], run[i + 1], step)
    requires IsHolding(run[i], inc) && !run[i].procs[inc].h.lost
    requires IsHolding(run[i + 1], inc) && run[i + 1].procs[inc].h.lost
    ensures FindsLoss(run[i], run[i + 1], inc)
  {
    hide Shows, ShowsRetired, Do;
    ProcHas(run, i, inc);
    if step.Confirm? && step.inc == inc {
      ConfirmFindsOut(run, i, inc, step.readable);
    } else if step.RetireReread? && step.inc == inc {
      RetireRereadFindsOut(run, i, inc, step.readable, step.now);
    } else if step.BeatReread? && step.inc == inc {
      RereadFindsOut(run, i, inc, step.readable);
    } else {
      QuietStepKeeps(run[i], step, inc);
    }
  }

  lemma QuietStepKeeps(s: Sys, step: Step, inc: Id)
    requires s.Shaped() && IsHolding(s, inc) && Enabled(s, step) && inc < s.unused
    requires !((step.Confirm? || step.RetireReread? || step.BeatReread?) && step.inc == inc)
    ensures IsHolding(Do(s, step), inc) && Do(s, step).procs[inc].h.lost == s.procs[inc].h.lost
  {
    if StepOf(step, inc) {
      QuietOwnStepKeeps(s, step, inc);
    } else {
      ForeignStep(s, step, inc);
    }
  }

  lemma QuietOwnStepKeeps(s: Sys, step: Step, inc: Id)
    requires s.Shaped() && IsHolding(s, inc) && Enabled(s, step) && StepOf(step, inc)
    requires !step.Confirm? && !step.RetireReread? && !step.BeatReread?
    ensures IsHolding(Do(s, step), inc) && Do(s, step).procs[inc].h.lost == s.procs[inc].h.lost
  {
    hide RetireRequest, BeatRequest, Encode, Matches, After, Judged, Stale, AfterRefusedRetire, BeatReconciled,
      Confirmed, Read;
  }
}
