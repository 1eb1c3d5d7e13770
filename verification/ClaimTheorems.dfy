/** What the claim protocol promises over whole runs. */
module ClaimTheorems {
  import opened Wrappers
  import opened ClaimRecords
  import opened ClaimProtocol
  import opened ClaimInvariant

  ghost predicate Takes(s: Sys, t: Sys, step: Step) {
    s.Shaped() && Enabled(s, step) && t == Do(s, step)
  }

  /** Some step leads from state `i` to the next one. */
  ghost predicate Follows(run: seq<Sys>, i: nat)
    requires i + 1 < |run|
  {
    var s, t := run[i], run[i + 1];
    exists step :: Takes(s, t, step)
  }

  ghost predicate IsRun(run: seq<Sys>) {
    && |run| > 0
    && Init(run[0])
    && forall i :: 0 <= i < |run| - 1 ==> Follows(run, i)
  }

  lemma {:induction false} RunInv(run: seq<Sys>, i: nat)
    requires IsRun(run) && i < |run|
    ensures Inv(run[i])
  {
    if i == 0 {
      InitInv(run[0]);
    } else {
      RunInv(run, i - 1);
      var step := LastStep(run, i);
      StepPreserves(run[i - 1], step);
    }
  }

  /** The record that is current in `s`. */
  ghost function Current(s: Sys): Slot
    requires s.Shaped()
  {
    s.hist[s.Now()]
  }

  // ---------------------------------------------------------------- what later states keep

  /** History only grows, and a settled write stays settled. */
  ghost predicate Grows(s: Sys, t: Sys) {
    && s.Shaped() && t.Shaped()
    && s.hist <= t.hist
    && s.makers <= t.makers
    && |s.writes| <= |t.writes|
    && forall i :: 0 <= i < |s.writes| ==> Settles(s.writes[i], t.writes[i])
  }

  ghost predicate Settles(v: Issued, w: Issued) {
    && w.author == v.author
    && w.request == v.request
    && (!v.status.Flying? ==> w.status == v.status)
  }

  /** A handle stays a handle, stays lost, and does not change any more once released. */
  ghost predicate HandleAges(s: Sys, t: Sys, inc: Id) {
    IsHolding(s, inc) ==>
      && IsHolding(t, inc)
      && t.procs[inc].born == s.procs[inc].born
      && (s.procs[inc].h.lost ==> t.procs[inc].h.lost)
      && (s.procs[inc].blind ==> t.procs[inc].blind)
      && (s.procs[inc].h.released ==> t.procs[inc].h.released && t.procs[inc].h.lost == s.procs[inc].h.lost)
  }

  lemma StepGrows(s: Sys, step: Step)
    requires s.Shaped() && Enabled(s, step)
    ensures Grows(s, Do(s, step))
  {
  }

  lemma StepAges(s: Sys, step: Step, inc: Id)
    requires s.Shaped() && Enabled(s, step)
    requires IsHolding(s, inc) && s.procs[inc].h.released ==> s.procs[inc].phase.Idle? && s.procs[inc].h.stop
    requires inc in s.procs ==> inc < s.unused
    ensures HandleAges(s, Do(s, step), inc)
  {
    hide RetireRequest, BeatRequest, Encode, Matches, After, Judged, Mine, Unconfirmed;
  }

  lemma ProcHas(run: seq<Sys>, i: nat, inc: Id)
    requires IsRun(run) && i < |run| && inc in run[i].procs
    ensures run[i].Shaped() && ProcInv(run[i], inc)
  {
    RunInv(run, i);
  }

  lemma WriteHas(run: seq<Sys>, i: nat, write: nat)
    requires IsRun(run) && i < |run| && write < |run[i].writes|
    ensures run[i].Shaped() && WriteInv(run[i], run[i].writes[write])
  {
    RunInv(run, i);
  }

  lemma GrowsTransitive(s: Sys, t: Sys, u: Sys)
    requires Grows(s, t) && Grows(t, u)
    ensures Grows(s, u)
  {
    forall i | 0 <= i < |s.writes| ensures Settles(s.writes[i], u.writes[i]) {
      assert Settles(s.writes[i], t.writes[i]) && Settles(t.writes[i], u.writes[i]);
    }
  }

  /** The step that leads to state `i` of a run. */
  lemma LastStep(run: seq<Sys>, i: nat) returns (step: Step)
    requires IsRun(run) && 0 < i < |run|
    ensures Takes(run[i - 1], run[i], step)
  {
    assert Follows(run, i - 1);
    step :| Takes(run[i - 1], run[i], step);
  }

  lemma {:induction false} RunGrows(run: seq<Sys>, i: nat, j: nat)
    requires IsRun(run) && i <= j < |run|
    ensures Grows(run[i], run[j])
    decreases j - i
  {
    if i < j {
      RunGrows(run, i, j - 1);
      var step := LastStep(run, j);
      StepGrows(run[j - 1], step);
      GrowsTransitive(run[i], run[j - 1], run[j]);
    } else {
      RunInv(run, i);
    }
  }

  lemma ReleasedIsIdle(run: seq<Sys>, i: nat, inc: Id)
    requires IsRun(run) && i < |run|
    ensures inc in run[i].procs ==> inc < run[i].unused
    ensures IsHolding(run[i], inc) && run[i].procs[inc].h.released ==>
              run[i].procs[inc].phase.Idle? && run[i].procs[inc].h.stop
  {
    if inc in run[i].procs {
      ProcHas(run, i, inc);
    }
  }

  lemma {:induction false} RunAges(run: seq<Sys>, i: nat, j: nat, inc: Id)
    requires IsRun(run) && i <= j < |run|
    ensures HandleAges(run[i], run[j], inc)
    decreases j - i
  {
    if i < j {
      RunAges(run, i, j - 1, inc);
      var step := LastStep(run, j);
      ReleasedIsIdle(run, j - 1, inc);
      StepAges(run[j - 1], step, inc);
    }
  }

  // ---------------------------------------------------------------- commits

  /** A heartbeat or retire that committed replaced a generation held by its own incarnation; the
      heartbeat left it held by that incarnation, the retire left nothing held. */
  lemma HandleCommitsOnOwnRecord(run: seq<Sys>, i: nat, write: nat, inc: Id)
    requires IsRun(run) && i < |run| && write < |run[i].writes|
    requires run[i].writes[write].status.Done? && ByHandle(run[i].writes[write].author, inc)
    ensures run[i].Shaped()
    ensures var at := run[i].writes[write].status.at;
            && 0 < at < |run[i].hist|
            && HeldBy(run[i].hist[at - 1], inc)
            && (if run[i].writes[write].author.ByBeat? then HeldBy(run[i].hist[at], inc) else !IsHeld(run[i].hist[at]))
  {
    WriteHas(run, i, write);
  }

  /** An acquisition that committed wrote over an absent or released record. */
  lemma AcquiresOverFreeRecord(run: seq<Sys>, i: nat, write: nat, inc: Id)
    requires IsRun(run) && i < |run| && write < |run[i].writes|
    requires run[i].writes[write].status.Done? && run[i].writes[write].author == ByAcquire(inc)
    ensures run[i].Shaped()
    ensures var at := run[i].writes[write].status.at;
            0 < at < |run[i].hist| && Free(run[i].hist[at - 1]) && HeldBy(run[i].hist[at], inc)
  {
    WriteHas(run, i, write);
  }

  /** An operator call that committed retired exactly a record it had judged, and left nothing
      held. A commit of anyone after its read leaves it nothing to retire, for good. */
  lemma OperatorRetiresWhatItJudged(run: seq<Sys>, i: nat, write: nat)
    requires IsRun(run) && i < |run| && write < |run[i].writes|
    requires run[i].writes[write].author.ByOperator?
    ensures run[i].Shaped()
    ensures !run[i].writes[write].request.Create?
    ensures var w := run[i].writes[write];
            && w.request.expected < |run[i].hist|
            && IsHeld(run[i].hist[w.request.expected])
            && Judged(w.author.judgement, run[i].hist[w.request.expected].info)
            && (w.status.Done? ==>
                  w.status.at == w.request.expected + 1 < |run[i].hist| && !IsHeld(run[i].hist[w.status.at]))
  {
    WriteHas(run, i, write);
  }

  /** A write that expects an older generation, as every operator write does once anyone has
      committed after its read, never commits. */
  lemma {:induction false} OutdatedWriteNeverCommits(run: seq<Sys>, i: nat, j: nat, write: nat)
    requires IsRun(run) && i <= j < |run| && write < |run[i].writes|
    requires !run[i].writes[write].request.Create? && !run[i].writes[write].status.Done?
    requires run[i].writes[write].request.expected < |run[i].hist| - 1
    ensures write < |run[j].writes| && !run[j].writes[write].status.Done?
    decreases j - i
  {
    if i < j {
      OutdatedWriteNeverCommits(run, i, j - 1, write);
      RunGrows(run, i, j - 1);
      assert Settles(run[i].writes[write], run[j - 1].writes[write]);
      var step := LastStep(run, j);
      OutdatedStays(run[j - 1], step, write);
    }
  }

  lemma OutdatedStays(s: Sys, step: Step, write: nat)
    requires s.Shaped() && Enabled(s, step) && write < |s.writes|
    requires !s.writes[write].request.Create? && !s.writes[write].status.Done?
    requires s.writes[write].request.expected < s.Now()
    ensures write < |Do(s, step).writes| && !Do(s, step).writes[write].status.Done?
  {
  }

  // ---------------------------------------------------------------- mutual exclusion

  /** From its first to its last held generation, `inc` held the record without a gap. */
  ghost predicate Contiguous(hist: seq<Slot>, inc: Id) {
    forall i, j, k :: 0 <= i < j < k < |hist| && HeldBy(hist[i], inc) && HeldBy(hist[k], inc) ==> HeldBy(hist[j], inc)
  }

  ghost predicate Born(s: Sys, inc: Id, write: int) {
    0 <= write < |s.writes| && s.writes[write].author == ByAcquire(inc) && s.writes[write].status.Done?
  }

  /** The create of the acquisition committed, was answered as refused, and the acquisition then
      took the released record over as well. */
  ghost predicate BornTwice(s: Sys, inc: Id) {
    exists i, j :: i != j && Born(s, inc, i) && Born(s, inc, j)
  }

  ghost predicate HeldOnceBorn(s: Sys, inc: Id) {
    forall k :: 0 <= k < |s.hist| && inc in s.procs && HeldBy(s.hist[k], inc) ==>
      exists i :: Born(s, inc, i) && s.writes[i].status.at <= k
  }

  ghost predicate BirthInv(s: Sys, inc: Id) {
    HeldOnceBorn(s, inc) && (Contiguous(s.hist, inc) <==> !BornTwice(s, inc))
  }

  /** A run in which no acquisition commits twice keeps every incarnation's held generations
      together, so the held intervals of two incarnations never overlap; and that condition is
      exact. */
  lemma MutualExclusion(run: seq<Sys>, i: nat, inc: Id)
    requires IsRun(run) && i < |run|
    ensures Contiguous(run[i].hist, inc) <==> !BornTwice(run[i], inc)
  {
    RunBirths(run, i, inc);
  }

  /** Between two held generations of one incarnation that is not born twice, no other incarnation
      holds the record. */
  lemma HeldIntervalsDisjoint(run: seq<Sys>, i: nat, inc: Id, other: Id, a: nat, b: nat, c: nat)
    requires IsRun(run) && i < |run| && !BornTwice(run[i], inc) && inc != other
    requires a < b < c < |run[i].hist|
    requires HeldBy(run[i].hist[a], inc) && HeldBy(run[i].hist[c], inc)
    ensures !HeldBy(run[i].hist[b], other)
  {
    MutualExclusion(run, i, inc);
  }

  lemma {:induction false} RunBirths(run: seq<Sys>, i: nat, inc: Id)
    requires IsRun(run) && i < |run|
    ensures BirthInv(run[i], inc)
  {
    if i > 0 {
      RunBirths(run, i - 1, inc);
      RunInv(run, i - 1);
      var step := LastStep(run, i);
      if step.Deliver? && Matches(run[i - 1].writes[step.write].request, run[i - 1].hist) {
        CommitBirths(run, i - 1, step.write, inc);
      } else {
        FreshNotHeld(run[i - 1]);
        QuietStep(run[i - 1], step, inc);
        SameBirths(run[i - 1], run[i], inc);
      }
    }
  }

  lemma FreshNotHeld(s: Sys)
    requires Inv(s)
    ensures forall k :: 0 <= k < |s.hist| ==> !HeldBy(s.hist[k], s.unused)
  {
    assert forall k :: 0 <= k < |s.hist| ==> IdsBelow(s.hist[k], s.unused);
  }

  lemma QuietStep(s: Sys, step: Step, inc: Id)
    requires s.Shaped() && Enabled(s, step)
    requires step.Deliver? ==> !Matches(s.writes[step.write].request, s.hist)
    ensures Do(s, step).hist == s.hist
    ensures inc in Do(s, step).procs ==> inc in s.procs || inc == s.unused
    ensures |s.writes| <= |Do(s, step).writes|
    ensures forall i :: Born(Do(s, step), inc, i) <==> Born(s, inc, i)
    ensures forall i :: Born(s, inc, i) ==> Do(s, step).writes[i].status == s.writes[i].status
  {
  }

  lemma SameBirths(s: Sys, t: Sys, inc: Id)
    requires BirthInv(s, inc)
    requires t.hist == s.hist && |s.writes| <= |t.writes| && (forall i :: Born(t, inc, i) <==> Born(s, inc, i))
    requires forall i :: Born(s, inc, i) ==> t.writes[i].status == s.writes[i].status
    requires inc in t.procs && inc !in s.procs ==> forall k :: 0 <= k < |s.hist| ==> !HeldBy(s.hist[k], inc)
    ensures BirthInv(t, inc)
  {
    forall k | 0 <= k < |t.hist| && inc in t.procs && HeldBy(t.hist[k], inc)
      ensures exists i :: Born(t, inc, i) && t.writes[i].status.at <= k
    {
      var i :| Born(s, inc, i) && s.writes[i].status.at <= k;
      assert Born(t, inc, i);
    }
  }

  lemma CommitBirths(run: seq<Sys>, i: nat, write: nat, inc: Id)
    requires IsRun(run) && i < |run| && run[i].Shaped() && write < |run[i].writes|
    requires run[i].writes[write].status.Flying? && Matches(run[i].writes[write].request, run[i].hist)
    requires BirthInv(run[i], inc)
    ensures BirthInv(Delivered(run[i], write), inc)
  {
    var s := run[i];
    var t := Delivered(s, write);
    if s.writes[write].author == ByAcquire(inc) {
      AcquireFacts(run, i, write, inc);
      BornNow(s, t, write, inc);
      TwiceNow(s, t, write, inc);
      if earlier :| Born(s, inc, earlier) {
        AcquireFacts(run, i, earlier, inc);
        GapAppears(s.hist, After(s.writes[write].request), inc, s.writes[earlier].status.at);
      } else {
        NeverHeld(s, inc);
        FirstHeld(s.hist, After(s.writes[write].request), inc);
      }
    } else {
      WriteHas(run, i, write);
      OtherBirths(s, t, write, inc);
    }
  }

  lemma NeverHeld(s: Sys, inc: Id)
    requires HeldOnceBorn(s, inc) && inc in s.procs && !exists k :: Born(s, inc, k)
    ensures forall k :: 0 <= k < |s.hist| ==> !HeldBy(s.hist[k], inc)
  {
  }

  lemma AcquireFacts(run: seq<Sys>, i: nat, write: nat, inc: Id)
    requires IsRun(run) && i < |run| && write < |run[i].writes| && run[i].writes[write].author == ByAcquire(inc)
    ensures run[i].Shaped() && inc in run[i].procs
    ensures HeldBy(After(run[i].writes[write].request), inc)
    ensures Matches(run[i].writes[write].request, run[i].hist) ==> Free(Current(run[i]))
    ensures run[i].writes[write].status.Done? ==>
              run[i].writes[write].status.at <= run[i].Now() && HeldBy(run[i].hist[run[i].writes[write].status.at], inc)
  {
    WriteHas(run, i, write);
  }

  lemma TwiceNow(s: Sys, t: Sys, write: nat, inc: Id)
    requires Born(t, inc, write) && !Born(s, inc, write)
    requires forall i :: i != write ==> (Born(t, inc, i) <==> Born(s, inc, i))
    ensures BornTwice(t, inc) <==> exists k :: Born(s, inc, k)
  {
    if k :| Born(s, inc, k) {
      assert Born(t, inc, k) && k != write;
    }
  }

  lemma BornNow(s: Sys, t: Sys, write: nat, inc: Id)
    requires s.Shaped() && write < |s.writes| && s.writes[write].status.Flying? && HeldOnceBorn(s, inc)
    requires s.writes[write].author == ByAcquire(inc) && inc in s.procs
    requires t.hist == s.hist + [After(s.writes[write].request)] && t.procs == s.procs
    requires t.writes == s.writes[write := s.writes[write].(status := Done(|s.hist|))]
    ensures Born(t, inc, write)
    ensures forall i :: i != write ==> (Born(t, inc, i) <==> Born(s, inc, i))
    ensures HeldOnceBorn(t, inc)
  {
    assert Born(t, inc, write);
    forall k | 0 <= k < |t.hist| && HeldBy(t.hist[k], inc)
      ensures exists i :: Born(t, inc, i) && t.writes[i].status.at <= k
    {
      if k < |s.hist| {
        var i :| Born(s, inc, i) && s.writes[i].status.at <= k;
        assert Born(t, inc, i);
      }
    }
  }

  lemma GapAppears(hist: seq<Slot>, slot: Slot, inc: Id, at: nat)
    requires at < |hist| && HeldBy(hist[at], inc) && !HeldBy(hist[|hist| - 1], inc) && HeldBy(slot, inc)
    ensures !Contiguous(hist + [slot], inc)
  {
    var longer := hist + [slot];
    assert HeldBy(longer[at], inc) && !HeldBy(longer[|hist| - 1], inc) && HeldBy(longer[|hist|], inc);
  }

  lemma FirstHeld(hist: seq<Slot>, slot: Slot, inc: Id)
    requires forall k :: 0 <= k < |hist| ==> !HeldBy(hist[k], inc)
    ensures Contiguous(hist + [slot], inc)
  {
  }

  lemma OtherBirths(s: Sys, t: Sys, write: nat, inc: Id)
    requires s.Shaped() && write < |s.writes| && s.writes[write].status.Flying? && BirthInv(s, inc)
    requires s.writes[write].author != ByAcquire(inc)
    requires WriteInv(s, s.writes[write]) && Matches(s.writes[write].request, s.hist)
    requires t == Delivered(s, write)
    ensures BirthInv(t, inc)
  {
    forall i ensures Born(t, inc, i) <==> Born(s, inc, i) {
    }
    if HeldBy(t.hist[s.Now() + 1], inc) {
      assert HeldBy(s.hist[s.Now()], inc);
    }
    ContiguousAppend(s.hist, t.hist[s.Now() + 1], inc);
    forall k | 0 <= k < |t.hist| && inc in t.procs && HeldBy(t.hist[k], inc)
      ensures exists i :: Born(t, inc, i) && t.writes[i].status.at <= k
    {
      var before := if k < |s.hist| then k else s.Now();
      var i :| Born(s, inc, i) && s.writes[i].status.at <= before;
      assert Born(t, inc, i);
    }
  }

  lemma ContiguousAppend(hist: seq<Slot>, slot: Slot, inc: Id)
    requires |hist| > 0 && (HeldBy(slot, inc) ==> HeldBy(hist[|hist| - 1], inc))
    ensures Contiguous(hist + [slot], inc) <==> Contiguous(hist, inc)
  {
    var longer := hist + [slot];
    var n := |hist|;
    if Contiguous(longer, inc) {
      assert forall k :: 0 <= k < n ==> longer[k] == hist[k];
    }
    if Contiguous(hist, inc) {
      forall i, j, k | 0 <= i < j < k < |longer| && HeldBy(longer[i], inc) && HeldBy(longer[k], inc)
        ensures HeldBy(longer[j], inc)
      {
        if k == n && j < n - 1 {
          assert HeldBy(hist[i], inc) && HeldBy(hist[n - 1], inc);
        }
      }
    }
  }

  // ---------------------------------------------------------------- steps of one process and of others

  /** The step is one of process `inc`. */
  predicate StepOf(step: Step, inc: Id) {
    !step.Deliver? && !step.AcquireBegin? && !step.Operate? && step.inc == inc
  }

  lemma ForeignStep(s: Sys, step: Step, inc: Id)
    requires s.Shaped() && inc in s.procs && Enabled(s, step) && inc < s.unused && !StepOf(step, inc)
    ensures inc in Do(s, step).procs && Do(s, step).procs[inc] == s.procs[inc]
    ensures forall k :: |s.writes| <= k < |Do(s, step).writes| ==> !ByHandle(Do(s, step).writes[k].author, inc)
  {
    hide RetireRequest, BeatRequest, Encode, Matches, After, Judged, Stale, AfterRefusedRetire, BeatReconciled,
      BeatAnswered, Confirmed, Read, AcquireAnswered, RetireConcluded;
  }

  // ---------------------------------------------------------------- release

  /** Once `release` has returned for a handle that is not lost, the record is not held by its
      incarnation, then and ever after, whatever writes of the handle are still on their way. */
  lemma ReleaseEndsIncarnation(run: seq<Sys>, i: nat, j: nat, inc: Id)
    requires IsRun(run) && i <= j < |run|
    requires IsHolding(run[i], inc) && run[i].procs[inc].h.released && !run[i].procs[inc].h.lost
    ensures run[j].Shaped() && !HeldBy(Current(run[j]), inc)
  {
    RunAges(run, i, j, inc);
    if inc in run[j].procs {
      ProcHas(run, j, inc);
    }
  }

  predicate IsRetiring(p: Proc) {
    p.Holding? && (p.phase.Retiring? || p.phase.RetireReading?)
  }

  /** No release of `inc` gets to its retire between states `i` and `j`. */
  ghost predicate NoRetireBegun(run: seq<Sys>, i: nat, j: nat, inc: Id)
    requires i <= j < |run|
  {
    forall k, now :: i <= k < j ==> !Takes(run[k], run[k + 1], RetireBegin(inc, now))
  }

  /** A release has told the heartbeat to stop, and no release gets to its retire, as when the wait
      runs out: from then on no heartbeat or retire of the handle is issued, whatever else happens. */
  lemma {:induction false} TimedOutReleaseRetiresNothing(run: seq<Sys>, i: nat, j: nat, inc: Id, write: nat)
    requires IsRun(run) && i <= j < |run| && IsHolding(run[i], inc)
    requires run[i].procs[inc].h.stop && !IsRetiring(run[i].procs[inc]) && NoRetireBegun(run, i, j, inc)
    requires write < |run[j].writes| && ByHandle(run[j].writes[write].author, inc)
    ensures write < |run[i].writes|
    ensures IsHolding(run[j], inc) && run[j].procs[inc].h.stop && !IsRetiring(run[j].procs[inc])
    decreases j - i
  {
    StoppedStays(run, i, j, inc);
    if i < j && write >= |run[j - 1].writes| {
      var step := LastStep(run, j);
      StoppedStays(run, i, j - 1, inc);
      StoppedStep(run[j - 1], step, inc);
    } else if i < j {
      RunGrows(run, j - 1, j);
      assert Settles(run[j - 1].writes[write], run[j].writes[write]);
      TimedOutReleaseRetiresNothing(run, i, j - 1, inc, write);
    }
  }

  lemma {:induction false} StoppedStays(run: seq<Sys>, i: nat, j: nat, inc: Id)
    requires IsRun(run) && i <= j < |run| && IsHolding(run[i], inc)
    requires run[i].procs[inc].h.stop && !IsRetiring(run[i].procs[inc]) && NoRetireBegun(run, i, j, inc)
    ensures IsHolding(run[j], inc) && run[j].procs[inc].h.stop && !IsRetiring(run[j].procs[inc])
    decreases j - i
  {
    if i < j {
      StoppedStays(run, i, j - 1, inc);
      var step := LastStep(run, j);
      assert !(step.RetireBegin? && step.inc == inc);
      ProcHas(run, j - 1, inc);
      StoppedStep(run[j - 1], step, inc);
    }
  }

  lemma StoppedStep(s: Sys, step: Step, inc: Id)
    requires s.Shaped() && Enabled(s, step) && IsHolding(s, inc) && inc < s.unused
    requires s.procs[inc].h.stop && !IsRetiring(s.procs[inc]) && !(step.RetireBegin? && step.inc == inc)
    ensures var t := Do(s, step);
            && IsHolding(t, inc) && t.procs[inc].h.stop && !IsRetiring(t.procs[inc])
            && forall k :: |s.writes| <= k < |t.writes| ==> !ByHandle(t.writes[k].author, inc)
  {
    if StepOf(step, inc) {
      OwnStoppedStep(s, step, inc);
    } else {
      ForeignStep(s, step, inc);
    }
  }

  lemma OwnStoppedStep(s: Sys, step: Step, inc: Id)
    requires s.Shaped() && Enabled(s, step) && IsHolding(s, inc) && StepOf(step, inc)
    requires s.procs[inc].h.stop && !IsRetiring(s.procs[inc]) && !step.RetireBegin?
    ensures var t := Do(s, step);
            IsHolding(t, inc) && t.procs[inc].h.stop && !IsRetiring(t.procs[inc]) && t.writes == s.writes
  {
    hide RetireRequest, BeatRequest, Encode, Matches, After, Judged, Stale, AfterRefusedRetire, Read;
  }

  // ---------------------------------------------------------------- loss

  /** After a loss, no heartbeat or retire of the handle commits any more, whether it was issued
      before or after the loss. */
  lemma {:induction false} LossIsFinal(run: seq<Sys>, i: nat, j: nat, write: nat, inc: Id)
    requires IsRun(run) && i <= j < |run|
    requires IsHolding(run[i], inc) && run[i].procs[inc].h.lost
    requires write < |run[j].writes| && ByHandle(run[j].writes[write].author, inc) && run[j].writes[write].status.Done?
    ensures write < |run[i].writes| && run[i].writes[write] == run[j].writes[write]
    decreases j - i
  {
    if i < j {
      RunAges(run, i, j - 1, inc);
      LostFacts(run, j - 1, write, inc);
      var step := LastStep(run, j);
      LostCommitsNothing(run[j - 1], step, write, inc);
      LossIsFinal(run, i, j - 1, write, inc);
    }
  }

  lemma LostFacts(run: seq<Sys>, i: nat, write: nat, inc: Id)
    requires IsRun(run) && i < |run| && IsHolding(run[i], inc) && run[i].procs[inc].h.lost
    ensures run[i].Shaped()
    ensures write < |run[i].writes| && ByHandle(run[i].writes[write].author, inc) ==>
              && !run[i].writes[write].request.Create?
              && (run[i].writes[write].status.Flying? ==> run[i].writes[write].request.expected < run[i].Now())
  {
    ProcHas(run, i, inc);
    if write < |run[i].writes| && ByHandle(run[i].writes[write].author, inc) {
      WriteHas(run, i, write);
      assert run[i].writes[write].status.Flying? ==> InFlight(run[i].writes[write], inc);
    }
  }

  lemma LostCommitsNothing(s: Sys, step: Step, write: nat, inc: Id)
    requires s.Shaped() && Enabled(s, step)
    requires write < |s.writes| && ByHandle(s.writes[write].author, inc) ==>
               && !s.writes[write].request.Create?
               && (s.writes[write].status.Flying? ==> s.writes[write].request.expected < s.Now())
    requires write < |Do(s, step).writes|
    requires ByHandle(Do(s, step).writes[write].author, inc) && Do(s, step).writes[write].status.Done?
    ensures write < |s.writes| && s.writes[write] == Do(s, step).writes[write]
  {
  }

  /** Someone other than the handle changed the record after the handle acquired it. */
  ghost predicate Disturbed(s: Sys, inc: Id)
    requires s.Shaped() && IsHolding(s, inc)
  {
    exists k :: s.procs[inc].born < k < |s.hist| && s.makers[k] < |s.writes|
                && !ByHandle(s.writes[s.makers[k]].author, inc)
  }

  ghost predicate RetireCommitted(s: Sys, inc: Id) {
    exists i :: 0 <= i < |s.writes| && s.writes[i].author == ByRetire(inc) && s.writes[i].status.Done?
  }

  /** The step reads what an own retire left, and does not take it for that: the re-read after a
      refused retire while no retire failed without an answer, or any confirmation. */
  ghost predicate Denies(s: Sys, t: Sys, inc: Id) {
    && IsHolding(s, inc)
    && RetireCommitted(s, inc)
    && ((!s.procs[inc].h.retireUncertain && exists now :: Takes(s, t, RetireReread(inc, true, now)))
        || Takes(s, t, Confirm(inc, true)))
  }

  ghost predicate Denied(run: seq<Sys>, i: nat, inc: Id)
    requires i < |run|
  {
    exists k :: 0 <= k < i && Denies(run[k], run[k + 1], inc)
  }

  /** While nobody else changes the record and every re-read after a refused heartbeat succeeds, a
      handle is marked lost exactly when it denied an own committed retire, however its heartbeats
      and retires are answered, lost, delayed or retried. Before its release it never is. */
  lemma {:induction false} NoFalseLoss(run: seq<Sys>, i: nat, inc: Id)
    requires IsRun(run) && i < |run| && IsHolding(run[i], inc)
    ensures run[i].Shaped()
    ensures !Disturbed(run[i], inc) && !run[i].procs[inc].blind ==>
              (run[i].procs[inc].h.lost <==> Denied(run, i, inc))
    ensures !Disturbed(run[i], inc) && !run[i].procs[inc].blind && !RetireCommitted(run[i], inc) ==>
              !run[i].procs[inc].h.lost
  {
    ShapedAt(run, i);
    if !Disturbed(run[i], inc) && !run[i].procs[inc].blind {
      if run[i].procs[inc].h.lost {
        LostWasDenied(run, i, inc);
        if !RetireCommitted(run[i], inc) {
          var k :| 0 <= k < i && Denies(run[k], run[k + 1], inc);
          CommittedStays(run, k, i, inc);
        }
      }
      if Denied(run, i, inc) {
        DeniedIsLost(run, i, inc);
      }
    }
  }

  lemma CommittedStays(run: seq<Sys>, i: nat, j: nat, inc: Id)
    requires IsRun(run) && i <= j < |run| && RetireCommitted(run[i], inc)
    ensures RetireCommitted(run[j], inc)
  {
    RunGrows(run, i, j);
    var k :| 0 <= k < |run[i].writes| && run[i].writes[k].author == ByRetire(inc) && run[i].writes[k].status.Done?;
    assert Settles(run[i].writes[k], run[j].writes[k]);
  }

  /** An undisturbed handle that is not blind was undisturbed and not blind before. */
  lemma EarlierQuiet(run: seq<Sys>, k: nat, i: nat, inc: Id)
    requires IsRun(run) && k <= i < |run| && IsHolding(run[k], inc) && IsHolding(run[i], inc)
    requires run[i].Shaped() && !Disturbed(run[i], inc) && !run[i].procs[inc].blind
    ensures run[k].Shaped() && !Disturbed(run[k], inc) && !run[k].procs[inc].blind
  {
    RunGrows(run, k, i);
    RunAges(run, k, i, inc);
    if Disturbed(run[k], inc) {
      DisturbedStays(run[k], run[i], inc);
    }
  }

  lemma {:induction false} LostWasDenied(run: seq<Sys>, i: nat, inc: Id)
    requires IsRun(run) && i < |run| && IsHolding(run[i], inc) && run[i].Shaped()
    requires !Disturbed(run[i], inc) && !run[i].procs[inc].blind && run[i].procs[inc].h.lost
    ensures Denied(run, i, inc)
  {
    if i > 0 {
      var step := LastStep(run, i);
      if IsHolding(run[i - 1], inc) {
        EarlierQuiet(run, i - 1, i, inc);
        if run[i - 1].procs[inc].h.lost {
          LostWasDenied(run, i - 1, inc);
        } else {
          LossStep(run, i - 1, step, inc);
          assert Denies(run[i - 1], run[i - 1 + 1], inc);
        }
      } else {
        NotBornLost(run[i - 1], step, inc);
      }
    }
  }

  lemma DeniedIsLost(run: seq<Sys>, i: nat, inc: Id)
    requires IsRun(run) && i < |run| && IsHolding(run[i], inc) && run[i].Shaped()
    requires !Disturbed(run[i], inc) && !run[i].procs[inc].blind && Denied(run, i, inc)
    ensures run[i].procs[inc].h.lost
  {
    var k :| 0 <= k < i && Denies(run[k], run[k + 1], inc);
    DenialLoses(run, k, i, inc);
    RunAges(run, k + 1, i, inc);
  }

  lemma DenialLoses(run: seq<Sys>, k: nat, i: nat, inc: Id)
    requires IsRun(run) && k < i < |run| && IsHolding(run[i], inc) && run[i].Shaped()
    requires !Disturbed(run[i], inc) && !run[i].procs[inc].blind && Denies(run[k], run[k + 1], inc)
    ensures IsHolding(run[k + 1], inc) && run[k + 1].procs[inc].h.lost
  {
    hide IsRun, Denies, Disturbed, Takes, RetireCommitted, IsDenial;
    var step := DenyingStep(run[k], run[k + 1], inc);
    RunAges(run, k, k + 1, inc);
    EarlierQuiet(run, k, i, inc);
    EarlierQuiet(run, k + 1, i, inc);
    if !run[k].procs[inc].h.lost {
      LossStep(run, k, step, inc);
    }
  }

  lemma DenyingStep(s: Sys, t: Sys, inc: Id) returns (step: Step)
    requires Denies(s, t, inc)
    ensures IsHolding(s, inc) && Takes(s, t, step) && IsDenial(s, step, inc)
  {
    if Takes(s, t, Confirm(inc, true)) {
      step := Confirm(inc, true);
    } else {
      var now :| Takes(s, t, RetireReread(inc, true, now));
      step := RetireReread(inc, true, now);
    }
  }

  /** The step denies an own committed retire. */
  ghost predicate IsDenial(s: Sys, step: Step, inc: Id) {
    && IsHolding(s, inc)
    && RetireCommitted(s, inc)
    && ((step.RetireReread? && step.inc == inc && step.readable && !s.procs[inc].h.retireUncertain)
        || (step.Confirm? && step.inc == inc && step.readable))
  }

  /** An undisturbed handle that is not lost yet and does not go blind is marked lost by exactly the
      steps that deny an own committed retire. */
  lemma LossStep(run: seq<Sys>, i: nat, step: Step, inc: Id)
    requires IsRun(run) && i + 1 < |run| && Takes(run[i], run[i + 1], step)
    requires IsHolding(run[i], inc) && !run[i].procs[inc].h.lost && !Disturbed(run[i], inc)
    requires IsHolding(run[i + 1], inc) && !run[i + 1].procs[inc].blind
    ensures run[i + 1].procs[inc].h.lost <==> IsDenial(run[i], step, inc)
  {
    ProcHas(run, i, inc);
    if RetireCommitted(run[i], inc) {
      RetiredStays(run, i, inc);
      LossOfRetired(run[i], step, inc);
    } else {
      UndisturbedHeld(run, i, inc);
      if run[i + 1].procs[inc].h.lost {
        NewlyLostIsBlind(run[i], step, inc);
      }
    }
  }

  /** What a retire of `inc` leaves. */
  predicate LeftBy(slot: Slot, inc: Id) {
    slot.Absent? || (slot.Record? && slot.state.Released? && slot.info.incarnation == Some(inc))
  }

  lemma {:induction false} RetireLeaves(run: seq<Sys>, i: nat, write: nat, inc: Id)
    requires IsRun(run) && i < |run| && write < |run[i].writes| && run[i].writes[write].author == ByRetire(inc)
    ensures LeftBy(After(run[i].writes[write].request), inc)
  {
    if i > 0 {
      var step := LastStep(run, i);
      RunGrows(run, i - 1, i);
      if write < |run[i - 1].writes| {
        assert Settles(run[i - 1].writes[write], run[i].writes[write]);
        RetireLeaves(run, i - 1, write, inc);
      } else {
        if IsHolding(run[i - 1], inc) {
          ProcHas(run, i - 1, inc);
        }
        NewRetireLeaves(run[i - 1], step, write, inc);
      }
    }
  }

  lemma NewRetireLeaves(s: Sys, step: Step, write: nat, inc: Id)
    requires s.Shaped() && Enabled(s, step) && |s.writes| <= write < |Do(s, step).writes|
    requires Do(s, step).writes[write].author == ByRetire(inc)
    requires IsHolding(s, inc) ==> s.procs[inc].h.info.incarnation == Some(inc)
    ensures LeftBy(After(Do(s, step).writes[write].request), inc)
  {
  }

  lemma NotHeldAfterRetire(s: Sys, inc: Id, retire: nat)
    requires s.Shaped() && IsHolding(s, inc) && HandleInv(s, inc)
    requires retire < |s.writes| && s.writes[retire].author == ByRetire(inc) && s.writes[retire].status.Done?
    requires WriteInv(s, s.writes[retire])
    ensures !HeldBy(Current(s), inc)
  {
    assert !HeldBy(s.hist[s.writes[retire].status.at], inc);
  }

  /** Once an own retire has committed, what it left is there as long as nobody else changes it. */
  lemma RetiredStays(run: seq<Sys>, i: nat, inc: Id)
    requires IsRun(run) && i < |run| && run[i].Shaped() && IsHolding(run[i], inc)
    requires !Disturbed(run[i], inc) && RetireCommitted(run[i], inc)
    ensures LeftBy(Current(run[i]), inc)
  {
    var s := run[i];
    RunInv(run, i);
    ProcHas(run, i, inc);
    var k :| 0 <= k < |s.writes| && s.writes[k].author == ByRetire(inc) && s.writes[k].status.Done?;
    WriteHas(run, i, k);
    var maker := s.makers[s.Now()];
    assert s.writes[maker].status == Done(s.Now());
    WriteHas(run, i, maker);
    assert ByHandle(s.writes[maker].author, inc);
    NotHeldAfterRetire(s, inc, k);
    if s.writes[maker].author == ByRetire(inc) {
      RetireLeaves(run, i, maker, inc);
    }
  }

  lemma LossOfRetired(s: Sys, step: Step, inc: Id)
    requires s.Shaped() && IsHolding(s, inc) && ProcInv(s, inc) && Enabled(s, step)
    requires !s.procs[inc].h.lost && IsHolding(Do(s, step), inc)
    requires RetireCommitted(s, inc) && LeftBy(Current(s), inc)
    ensures Do(s, step).procs[inc].h.lost <==> IsDenial(s, step, inc)
  {
    assert !s.procs[inc].phase.Beating? && !s.procs[inc].phase.Reconciling?;
    if step.Confirm? && step.inc == inc {
      ConfirmOfRetired(s, step.readable, inc);
    } else if step.RetireReread? && step.inc == inc {
      RereadOfRetired(s, step.readable, step.now, inc);
    } else {
      OtherStepsKeep(s, step, inc);
    }
  }

  lemma ConfirmOfRetired(s: Sys, readable: bool, inc: Id)
    requires s.Shaped() && Enabled(s, Confirm(inc, readable)) && LeftBy(Current(s), inc)
    ensures Do(s, Confirm(inc, readable)).procs[inc].h.lost <==> readable
  {
  }

  lemma RereadOfRetired(s: Sys, readable: bool, now: real, inc: Id)
    requires s.Shaped() && Enabled(s, RetireReread(inc, readable, now)) && LeftBy(Current(s), inc)
    requires !s.procs[inc].h.lost && s.procs[inc].h.info.incarnation == Some(inc)
    ensures Do(s, RetireReread(inc, readable, now)).procs[inc].h.lost <==> readable && !s.procs[inc].h.retireUncertain
  {
  }

  lemma OtherStepsKeep(s: Sys, step: Step, inc: Id)
    requires s.Shaped() && IsHolding(s, inc) && Enabled(s, step) && inc < s.unused
    requires !s.procs[inc].phase.Reconciling? && IsHolding(Do(s, step), inc)
    requires !((step.Confirm? || step.RetireReread?) && step.inc == inc)
    ensures Do(s, step).procs[inc].h.lost == s.procs[inc].h.lost
  {
    if StepOf(step, inc) {
      OwnStepKeeps(s, step, inc);
    } else {
      ForeignStep(s, step, inc);
    }
  }

  lemma OwnStepKeeps(s: Sys, step: Step, inc: Id)
    requires s.Shaped() && IsHolding(s, inc) && Enabled(s, step) && StepOf(step, inc)
    requires !s.procs[inc].phase.Reconciling? && !step.Confirm? && !step.RetireReread?
    ensures IsHolding(Do(s, step), inc) && Do(s, step).procs[inc].h.lost == s.procs[inc].h.lost
  {
    hide RetireRequest, BeatRequest, Encode, Matches, After, Judged, Stale, AfterRefusedRetire, BeatReconciled,
      Confirmed, Read;
  }

  lemma ShapedAt(run: seq<Sys>, i: nat)
    requires IsRun(run) && i < |run|
    ensures run[i].Shaped()
  {
    RunInv(run, i);
  }

  lemma NotBornLost(s: Sys, step: Step, inc: Id)
    requires s.Shaped() && Enabled(s, step) && !IsHolding(s, inc) && IsHolding(Do(s, step), inc)
    ensures !Do(s, step).procs[inc].h.lost
  {
  }

  lemma DisturbedStays(s: Sys, t: Sys, inc: Id)
    requires Grows(s, t) && HandleAges(s, t, inc) && IsHolding(s, inc) && Disturbed(s, inc)
    ensures Disturbed(t, inc)
  {
    var k :| s.procs[inc].born < k < |s.hist| && s.makers[k] < |s.writes|
      && !ByHandle(s.writes[s.makers[k]].author, inc);
    assert t.makers[k] == s.makers[k] && Settles(s.writes[s.makers[k]], t.writes[s.makers[k]]);
  }

  /** A record nobody else touched, and the handle did not retire, is still held by the handle. */
  lemma UndisturbedHeld(run: seq<Sys>, i: nat, inc: Id)
    requires IsRun(run) && i < |run| && run[i].Shaped() && IsHolding(run[i], inc)
    requires !Disturbed(run[i], inc) && !RetireCommitted(run[i], inc)
    ensures HeldBy(Current(run[i]), inc)
  {
    var s := run[i];
    ProcHas(run, i, inc);
    if s.procs[inc].born < s.Now() {
      RunInv(run, i);
      var maker := s.makers[s.Now()];
      assert s.writes[maker].status == Done(s.Now());
      assert WriteInv(s, s.writes[maker]);
    }
  }

  lemma NewlyLostIsBlind(s: Sys, step: Step, inc: Id)
    requires s.Shaped() && IsHolding(s, inc) && ProcInv(s, inc) && Enabled(s, step) && HeldBy(Current(s), inc)
    requires !s.procs[inc].h.lost && IsHolding(Do(s, step), inc) && Do(s, step).procs[inc].h.lost
    ensures Do(s, step).procs[inc].blind
  {
    KnownWhenHeld(s, inc);
    match step
    case BeatReread(_, _) =>
    case Confirm(_, _) =>
    case RetireReread(_, _, _) =>
    case _ =>
  }
}
