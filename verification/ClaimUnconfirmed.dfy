/** Why a handle may forget its unconfirmed revisions when it finds one of them: all of its
    unconfirmed heartbeats expect one generation, so at most one of them ever commits. */
module ClaimUnconfirmed {
  import opened Wrappers
  import opened ClaimRecords
  import opened ClaimProtocol
  import opened ClaimInvariant
  import opened ClaimTheorems

  /** Write `i` is a heartbeat of `inc` whose revision is one of `revisions`. */
  ghost predicate BeatAmong(s: Sys, inc: Id, i: int, revisions: set<Id>) {
    && 0 <= i < |s.writes|
    && s.writes[i].author == ByBeat(inc)
    && s.writes[i].request.Replace?
    && s.writes[i].request.content.Record?
    && s.writes[i].request.content.info.revision.Some?
    && s.writes[i].request.content.info.revision.value in revisions
  }

  /** The revisions of `inc` that no answer or re-read has settled. */
  ghost function Open(s: Sys, inc: Id): set<Id>
    requires IsHolding(s, inc)
  {
    Known(s.procs[inc].h, s.procs[inc].phase)
  }

  /** Every open heartbeat expects the generation the handle last confirmed. */
  ghost predicate ExpectInv(s: Sys, inc: Id) {
    IsHolding(s, inc) ==>
      forall i :: BeatAmong(s, inc, i, Open(s, inc)) ==> s.writes[i].request.expected == s.procs[inc].h.validator
  }

  ghost predicate MakerInv(s: Sys) {
    && s.Shaped()
    && forall i :: 0 <= i < |s.writes| && s.writes[i].status.Done? ==>
         s.writes[i].status.at < |s.makers| && s.makers[s.writes[i].status.at] == i
  }

  /** The handle stays where it is and opens at most the revision just drawn, or it has moved on to
      the next generation and left no revision open. */
  ghost predicate Moves(s: Sys, t: Sys, inc: Id)
    requires s.Shaped() && IsHolding(s, inc) && IsHolding(t, inc)
  {
    var h, g := s.procs[inc].h, t.procs[inc].h;
    || (g.validator == h.validator && h.unconfirmed <= g.unconfirmed && Open(t, inc) <= Open(s, inc) + {s.unused})
    || (&& g.validator == h.validator + 1 <= s.Now()
        && Open(t, inc) == {}
        && s.hist[g.validator].Record?
        && s.hist[g.validator].info.revision == g.info.revision)
  }

  // ---------------------------------------------------------------- the theorems

  /** Of the heartbeats a handle holds for unconfirmed, at most one ever commits. */
  lemma OneOpenBeatCommits(run: seq<Sys>, i: nat, j: nat, inc: Id, a: nat, b: nat)
    requires IsRun(run) && i <= j < |run| && IsHolding(run[i], inc)
    requires BeatAmong(run[i], inc, a, run[i].procs[inc].h.unconfirmed)
    requires BeatAmong(run[i], inc, b, run[i].procs[inc].h.unconfirmed)
    ensures a < |run[j].writes| && b < |run[j].writes|
    ensures run[j].writes[a].status.Done? && run[j].writes[b].status.Done? ==> a == b
  {
    RunExpects(run, i, inc);
    RunMakers(run, j);
    RunGrows(run, i, j);
    assert Settles(run[i].writes[a], run[j].writes[a]) && Settles(run[i].writes[b], run[j].writes[b]);
    WriteHas(run, j, a);
    WriteHas(run, j, b);
  }

  /** A revision leaves the unconfirmed ones only when the handle moves to the next generation, and
      then nothing is lost with it: a heartbeat that wrote such a revision made the generation the
      handle moved to, with the revision it now takes for confirmed, or it never commits. */
  lemma ForgottenBeatsAreSettled(run: seq<Sys>, i: nat, j: nat, inc: Id, write: nat)
    requires IsRun(run) && i + 1 <= j < |run| && IsHolding(run[i], inc)
    requires BeatAmong(run[i], inc, write, run[i].procs[inc].h.unconfirmed)
    ensures IsHolding(run[i + 1], inc) && write < |run[j].writes|
    ensures !BeatAmong(run[i], inc, write, run[i + 1].procs[inc].h.unconfirmed) ==>
              var h := run[i + 1].procs[inc].h;
              && h.unconfirmed == {}
              && h.validator == run[i].procs[inc].h.validator + 1
              && (run[j].writes[write].status.Done? ==>
                    && run[i].writes[write].status == Done(h.validator)
                    && run[i].writes[write].request.content.info.revision == h.info.revision)
  {
    RunExpects(run, i, inc);
    RunMoves(run, i, inc);
    RunGrows(run, i, j);
    assert Settles(run[i].writes[write], run[j].writes[write]);
    if !BeatAmong(run[i], inc, write, run[i + 1].procs[inc].h.unconfirmed) {
      WriteHas(run, i, write);
      if !run[i].writes[write].status.Done? {
        OutdatedWriteNeverCommits(run, i, j, write);
      }
    }
  }

  // ---------------------------------------------------------------- the invariants

  lemma {:induction false} RunMakers(run: seq<Sys>, i: nat)
    requires IsRun(run) && i < |run|
    ensures MakerInv(run[i])
  {
    if i > 0 {
      RunMakers(run, i - 1);
      var step := LastStep(run, i);
      StepMakers(run[i - 1], step);
    }
  }

  lemma StepMakers(s: Sys, step: Step)
    requires MakerInv(s) && Enabled(s, step)
    ensures MakerInv(Do(s, step))
  {
    hide RetireRequest, BeatRequest, Encode, Matches, After, Judged, Stale, AfterRefusedRetire, BeatReconciled,
      BeatAnswered, Confirmed, Read, AcquireAnswered, RetireConcluded;
  }

  lemma RunMoves(run: seq<Sys>, i: nat, inc: Id)
    requires IsRun(run) && i + 1 < |run| && IsHolding(run[i], inc)
    ensures run[i].Shaped() && IsHolding(run[i + 1], inc) && Moves(run[i], run[i + 1], inc)
  {
    ProcHas(run, i, inc);
    var step := LastStep(run, i + 1);
    if StepOf(step, inc) {
      if step.BeatAnswer? {
        WriteHas(run, i, run[i].procs[inc].phase.write);
        AnswerMoves(run[i], step, inc);
      } else {
        if run[i].procs[inc].phase.Reconciling? {
          assert run[i].procs[inc].alive || !run[i].procs[inc].h.lost;
        }
        OwnStepMoves(run[i], step, inc);
      }
    } else {
      ForeignStep(run[i], step, inc);
    }
  }

  lemma AnswerMoves(s: Sys, step: Step, inc: Id)
    requires s.Shaped() && Enabled(s, step) && IsHolding(s, inc) && step.BeatAnswer? && step.inc == inc
    requires PhaseInv(s, inc) && WriteInv(s, s.writes[s.procs[inc].phase.write])
    ensures IsHolding(Do(s, step), inc) && Moves(s, Do(s, step), inc)
  {
  }

  lemma OwnStepMoves(s: Sys, step: Step, inc: Id)
    requires s.Shaped() && Enabled(s, step) && IsHolding(s, inc) && StepOf(step, inc) && !step.BeatAnswer?
    requires ProcInv(s, inc)
    ensures IsHolding(Do(s, step), inc) && Moves(s, Do(s, step), inc)
  {
    match step
    case BeatReread(_, readable) => RereadMoves(s, readable, inc);
    case Confirm(_, readable) => ConfirmMoves(s, readable, inc);
    case _ => OtherStepMoves(s, step, inc);
  }

  lemma RereadMoves(s: Sys, readable: bool, inc: Id)
    requires s.Shaped() && Enabled(s, BeatReread(inc, readable)) && ProcInv(s, inc)
    ensures var t := Do(s, BeatReread(inc, readable)); IsHolding(t, inc) && Moves(s, t, inc)
  {
    hide Do, Moves, OwnWritesInv;
    if readable && HeldBy(Current(s), inc) {
      KnownWhenHeld(s, inc);
      RereadFound(s, inc);
    } else {
      RereadNotFound(s, readable, inc);
    }
  }

  lemma RereadNotFound(s: Sys, readable: bool, inc: Id)
    requires s.Shaped() && Enabled(s, BeatReread(inc, readable)) && s.procs[inc].h.info.incarnation == Some(inc)
    requires !readable || !HeldBy(Current(s), inc)
    ensures var t := Do(s, BeatReread(inc, readable)); IsHolding(t, inc) && Moves(s, t, inc)
  {
    hide Reconciled;
    var p := s.procs[inc];
    NotMineReconciled(p.h, p.phase.attempted, p.phase.refused, ReadOf(s, readable));
  }

  lemma NotMineReconciled(h: Handle, attempted: Id, refused: bool, read: ReadAnswer)
    requires read.Snapshot? ==> !Mine(h, read.slot)
    ensures var g := Reconciled(h, attempted, refused, read).0;
            g.validator == h.validator && h.unconfirmed <= g.unconfirmed <= h.unconfirmed + {attempted}
  {
  }

  lemma RereadFound(s: Sys, inc: Id)
    requires s.Shaped() && Enabled(s, BeatReread(inc, true)) && HandleInv(s, inc) && HeldBy(Current(s), inc)
    requires var h := s.procs[inc].h;
             if s.Now() == h.validator then Current(s).info.revision == h.info.revision
             else s.Now() == h.validator + 1 && KnownRevision(h, s.procs[inc].phase, Current(s).info.revision)
    ensures var t := Do(s, BeatReread(inc, true)); IsHolding(t, inc) && Moves(s, t, inc)
  {
    var revision := Current(s).info.revision;
    if s.Now() == s.procs[inc].h.validator {
      assert revision.value !in Open(s, inc);
    } else {
      assert revision.Some? && revision.value in Open(s, inc);
    }
  }

  lemma ConfirmMoves(s: Sys, readable: bool, inc: Id)
    requires s.Shaped() && Enabled(s, Confirm(inc, readable)) && ProcInv(s, inc)
    ensures var t := Do(s, Confirm(inc, readable)); IsHolding(t, inc) && Moves(s, t, inc)
  {
    if HeldBy(Current(s), inc) {
      KnownWhenHeld(s, inc);
    }
  }

  lemma OtherStepMoves(s: Sys, step: Step, inc: Id)
    requires s.Shaped() && Enabled(s, step) && IsHolding(s, inc) && StepOf(step, inc)
    requires !step.BeatAnswer? && !step.BeatReread? && !step.Confirm?
    ensures IsHolding(Do(s, step), inc) && Moves(s, Do(s, step), inc)
  {
    hide RetireRequest, BeatRequest, Encode, Matches, After, Judged, Stale, Read;
  }

  lemma {:induction false} RunExpects(run: seq<Sys>, i: nat, inc: Id)
    requires IsRun(run) && i < |run|
    ensures ExpectInv(run[i], inc)
  {
    if i > 0 && IsHolding(run[i], inc) {
      var step := LastStep(run, i);
      if IsHolding(run[i - 1], inc) {
        RunExpects(run, i - 1, inc);
        RunMoves(run, i - 1, inc);
        RunGrows(run, i - 1, i);
        forall k | BeatAmong(run[i], inc, k, Open(run[i], inc))
          ensures run[i].writes[k].request.expected == run[i].procs[inc].h.validator
        {
          if k < |run[i - 1].writes| {
            assert Settles(run[i - 1].writes[k], run[i].writes[k]);
            WriteHas(run, i - 1, k);
            assert BeatAmong(run[i - 1], inc, k, Open(run[i - 1], inc));
          } else {
            NewBeatExpects(run[i - 1], step, k, inc);
          }
        }
      } else {
        NewHandleOpensNothing(run[i - 1], step, inc);
      }
    }
  }

  lemma NewBeatExpects(s: Sys, step: Step, write: nat, inc: Id)
    requires s.Shaped() && Enabled(s, step) && IsHolding(s, inc)
    requires |s.writes| <= write < |Do(s, step).writes| && Do(s, step).writes[write].author == ByBeat(inc)
    ensures IsHolding(Do(s, step), inc)
    ensures Do(s, step).writes[write].request.Replace?
    ensures Do(s, step).writes[write].request.expected == Do(s, step).procs[inc].h.validator
  {
    hide RetireRequest, Encode, Matches, After, Judged, Stale, Read;
  }

  lemma NewHandleOpensNothing(s: Sys, step: Step, inc: Id)
    requires s.Shaped() && Enabled(s, step) && !IsHolding(s, inc) && IsHolding(Do(s, step), inc)
    ensures Open(Do(s, step), inc) == {}
  {
  }
}
