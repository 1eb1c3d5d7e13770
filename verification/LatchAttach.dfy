/** `attach_latch` on one thread while another thread marks the handle lost: the store to `latch`,
    the read of `_lost`, the store to `_lost` and the read of `latch` are single steps that
    interleave in any order. */
module LatchAttach {

  /** `latch` is what the handle reports to (0 is none); `attach` and `lose` are the next
      statement of each thread. The losing thread reads `latch` twice: for its test, then for its
      call. `found` is what that test read. */
  datatype State = State(
    latch: nat,
    lost: bool,
    sets: set<nat>,
    attach: nat,
    lose: nat,
    found: nat)

  const ATTACHED := 3
  const LOST := 3

  function Start(latch: nat): State {
    State(latch, false, {}, 0, 0, 0)
  }

  /** `self.latch = latch`, then `latch.track`, then `if self._lost: latch.set`. */
  function Attach(s: State, watch: nat): State {
    match s.attach
    case 0 => s.(latch := watch, attach := 1)
    case 1 => s.(attach := 2)
    case 2 => s.(sets := if s.lost then s.sets + {watch} else s.sets, attach := ATTACHED)
    case _ => s
  }

  /** `self._lost = True`, then `if self.latch is not None`, then `self.latch.set`. */
  function Lose(s: State): State {
    match s.lose
    case 0 => s.(lost := true, lose := 1)
    case 1 => s.(found := s.latch, lose := if s.latch == 0 then LOST else 2)
    case 2 => s.(sets := s.sets + {s.latch}, lose := LOST)
    case _ => s
  }

  /** The state after the threads took turns as `schedule` says. */
  function Run(s: State, watch: nat, schedule: seq<bool>): State
    decreases |schedule|
  {
    if schedule == [] then s
    else Run(if schedule[0] then Attach(s, watch) else Lose(s), watch, schedule[1..])
  }

  ghost predicate Inv(s: State, watch: nat) {
    && s.attach <= ATTACHED && s.lose <= LOST
    && (s.lost <==> s.lose > 0)
    && (s.attach > 0 ==> s.latch == watch)
    && (s.lose == 2 ==> s.found != 0 && s.latch != 0)
    && (s.attach == ATTACHED && s.lose == LOST ==> watch in s.sets)
    && (s.attach == ATTACHED && s.lose == 1 ==> s.latch == watch)
  }

  lemma {:induction false} RunKeepsInv(s: State, watch: nat, schedule: seq<bool>)
    requires watch > 0 && Inv(s, watch)
    ensures Inv(Run(s, watch, schedule), watch)
    decreases |schedule|
  {
    if schedule != [] {
      RunKeepsInv(if schedule[0] then Attach(s, watch) else Lose(s), watch, schedule[1..]);
    }
  }

  /** Whatever the interleaving, once both threads have finished the attached latch is set. */
  lemma AttachedLatchIsSet(latch: nat, watch: nat, schedule: seq<bool>)
    requires watch > 0
    ensures var s := Run(Start(latch), watch, schedule);
            s.attach == ATTACHED && s.lose == LOST ==> watch in s.sets
  {
    RunKeepsInv(Start(latch), watch, schedule);
  }
}
