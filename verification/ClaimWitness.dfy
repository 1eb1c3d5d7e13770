/** Three runs that show where the protocol's promises stop. */
module ClaimWitness {
  import opened ClaimRecords
  import opened ClaimProtocol
  import opened ClaimTheorems

  lemma Extend(run: seq<Sys>, step: Step) returns (longer: seq<Sys>)
    requires IsRun(run) && run[|run| - 1].Shaped() && Enabled(run[|run| - 1], step)
    ensures IsRun(longer)
    ensures |longer| > 0 && longer[|longer| - 1] == Do(run[|run| - 1], step) && longer[|longer| - 1].Shaped()
  {
    var last := run[|run| - 1];
    longer := run + [Do(last, step)];
    forall i | 0 <= i < |longer| - 1 ensures Follows(longer, i) {
      if i < |run| - 1 {
        assert Follows(run, i);
        var earlier :| Takes(run[i], run[i + 1], earlier);
        assert Takes(longer[i], longer[i + 1], earlier);
      } else {
        assert Takes(longer[i], longer[i + 1], step);
      }
    }
  }

  lemma StartAbsent(canDelete: bool) returns (run: seq<Sys>)
    ensures IsRun(run) && |run| == 1 && run[0] == Sys(canDelete, [Absent], [0], 0, [], map[])
  {
    run := [Sys(canDelete, [Absent], [0], 0, [], map[])];
  }

  /** An acquisition whose create committed but was answered as refused, and whose record an
      operator then cleared, takes the record over a second time: the held generations of
      incarnation 0 enclose those of incarnation 3. */
  lemma AnsweredRefusedThenCleared() returns (run: seq<Sys>)
    ensures IsRun(run) && |run[|run| - 1].hist| == 6
    ensures var hist := run[|run| - 1].hist;
            HeldBy(hist[1], 0) && HeldBy(hist[3], 3) && HeldBy(hist[5], 0)
    ensures BornTwice(run[|run| - 1], 0)
  {
    run := StartAbsent(false);
    run := Extend(run, AcquireBegin("d", "A", 0.0, 120.0));
    run := Extend(run, Deliver(0));
    run := Extend(run, AcquireAnswer(0, No));
    run := Extend(run, Operate(Clear(true, 1.0)));
    run := Extend(run, Deliver(1));
    var s := run[|run| - 1];
    assert |s.hist| == 3 && Free(s.hist[2]) && s.unused == 3 && s.procs[0].Looking?;
    assert |s.writes| == 2 && Born(s, 0, 0);
    run := SecondAcquisition(run);
    s := run[|run| - 1];
    run := Extend(run, AcquireLook(0, true));
    run := Extend(run, Deliver(|s.writes|));
    s := run[|run| - 1];
    assert Born(s, 0, 0) && Born(s, 0, |s.writes| - 1);
  }

  lemma SecondAcquisition(start: seq<Sys>) returns (run: seq<Sys>)
    requires IsRun(start) && start[|start| - 1].Shaped()
    requires var s := start[|start| - 1];
             && |s.hist| == 3 && s.hist[2].Record? && s.hist[2].state.Released? && !s.canDelete
             && s.unused == 3 && |s.writes| == 2 && 0 in s.procs && s.procs[0].Looking?
    ensures IsRun(run) && run[|run| - 1].Shaped()
    ensures var s := start[|start| - 1];
            var t := run[|run| - 1];
            && |t.hist| == 5 && t.hist[..3] == s.hist && HeldBy(t.hist[3], 3)
            && t.hist[4].Record? && t.hist[4].state.Released?
            && |t.writes| == 5 && t.writes[..2] == s.writes
            && 0 in t.procs && t.procs[0] == s.procs[0]
  {
    run := start;
    run := Extend(run, AcquireBegin("d", "B", 2.0, 120.0));
    run := Extend(run, Deliver(2));
    run := Extend(run, AcquireAnswer(3, No));
    run := Extend(run, AcquireLook(3, true));
    run := Extend(run, Deliver(3));
    run := Extend(run, Operate(Clear(true, 3.0)));
    run := Extend(run, Deliver(4));
  }

  /** A release of a handle that nobody disturbed has committed its retire and waits for the answer. */
  lemma RetireCommits() returns (run: seq<Sys>)
    ensures IsRun(run) && run[|run| - 1].Shaped()
    ensures var s := run[|run| - 1];
            && IsHolding(s, 0) && s.procs[0].phase == Retiring(1, 0) && s.procs[0].born == 1
            && !s.procs[0].blind && !s.procs[0].h.retireUncertain && !s.procs[0].h.released && !s.procs[0].h.lost
            && |s.hist| == 3 && s.hist[2].Absent? && s.makers == [0, 0, 1]
            && |s.writes| == 2 && s.writes[1].author == ByRetire(0) && s.writes[1].status == Done(2)
  {
    run := StartAbsent(true);
    run := Extend(run, AcquireBegin("d", "A", 0.0, 120.0));
    run := Extend(run, Deliver(0));
    run := Extend(run, AcquireAnswer(0, Ok));
    run := Extend(run, ReleaseBegin(0));
    run := Extend(run, RetireBegin(0, 1.0));
    run := Extend(run, Deliver(1));
  }

  /** A release whose own retire committed, but was answered as refused, reports the claim as
      lost. */
  lemma RetireAnsweredRefused() returns (run: seq<Sys>)
    ensures IsRun(run) && run[|run| - 1].Shaped()
    ensures var s := run[|run| - 1];
            && IsHolding(s, 0) && s.procs[0].h.lost && s.procs[0].h.released
            && !s.procs[0].blind && !Disturbed(s, 0)
  {
    run := RetireCommits();
    run := Extend(run, RetireAnswer(0, No));
    run := Extend(run, RetireReread(0, true, 2.0));
  }

  /** A handle whose own retire committed, with its answer lost, is marked lost by a confirmation:
      no refusal is answered anywhere in this run. */
  lemma ConfirmAfterLostRetire() returns (run: seq<Sys>)
    ensures IsRun(run) && run[|run| - 1].Shaped()
    ensures var s := run[|run| - 1];
            && IsHolding(s, 0) && s.procs[0].h.lost && !s.procs[0].h.released
            && !s.procs[0].blind && !Disturbed(s, 0)
  {
    run := RetireCommits();
    run := Extend(run, RetireAnswer(0, Lose));
    run := Extend(run, Confirm(0, true));
  }
}
