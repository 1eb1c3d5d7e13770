/** The claim record of one write domain, the conditional requests that change it, and the
    state changes a claim handle makes when an answer or a read comes back.

    A store is the list of all generations of the record, oldest first. The validator of a
    generation is its position in that list, so a validator is never reused. */
module ClaimRecords {
  import opened Wrappers

  /** A uuid4 drawn by a process. */
  type Id = nat

  datatype ClaimState = Held | Released

  /** The fields of a record that a decision reads (`ClaimInfo`). */
  datatype Info = Info(
    domain: string,
    owner: string,
    acquiredAt: real,
    heartbeatAt: real,
    staleAfter: real,
    incarnation: Option<Id>,
    revision: Option<Id>)

  /** What one generation of the object holds. */
  datatype Slot = Absent | Unreadable | Record(info: Info, state: ClaimState)

  predicate IsHeld(slot: Slot) {
    slot.Record? && slot.state.Held?
  }

  predicate HeldBy(slot: Slot, incarnation: Id) {
    IsHeld(slot) && slot.info.incarnation == Some(incarnation)
  }

  /** An acquisition may write over such a generation. */
  predicate Free(slot: Slot) {
    slot.Absent? || (slot.Record? && slot.state.Released?)
  }

  predicate Stale(info: Info, now: real) {
    now - info.heartbeatAt > info.staleAfter
  }

  function Encode(info: Info, state: ClaimState, revision: Id, at: real): Slot {
    Record(info.(heartbeatAt := at, revision := Some(revision)), state)
  }

  // ---------------------------------------------------------------- requests and answers

  datatype Request =
    | Create(content: Slot)
    | Replace(expected: nat, content: Slot)
    | Delete(expected: nat)

  /** What the object holds once `request` has committed. */
  function After(request: Request): Slot {
    if request.Delete? then Absent else request.content
  }

  /** The condition the store checks when it applies `request`. */
  predicate Matches(request: Request, hist: seq<Slot>)
    requires |hist| > 0
  {
    match request
    case Create(_) => hist[|hist| - 1].Absent?
    case Replace(expected, _) => expected == |hist| - 1 && !hist[expected].Absent?
    case Delete(expected) => expected == |hist| - 1 && !hist[expected].Absent?
  }

  datatype WriteAnswer = Written(validator: nat) | Precondition | WriteFailed

  datatype ReadAnswer = Snapshot(slot: Slot, validator: nat) | NotFound | ReadFailed

  /** What one read of the object answers. */
  function Read(hist: seq<Slot>): ReadAnswer
    requires |hist| > 0
  {
    var last := |hist| - 1;
    if hist[last].Absent? then NotFound else Snapshot(hist[last], last)
  }

  /** Compare-delete where the driver has it, else replace with a released record. */
  function RetireRequest(canDelete: bool, validator: nat, info: Info, revision: Id, at: real): Request {
    if canDelete then Delete(validator) else Replace(validator, Encode(info, Released, revision, at))
  }

  // ---------------------------------------------------------------- claim handles

  datatype Handle = Handle(
    info: Info,
    validator: nat,
    unconfirmed: set<Id>,
    lost: bool,
    released: bool,
    retireUncertain: bool,
    stop: bool)

  function NewHandle(info: Info, validator: nat): Handle {
    Handle(info, validator, {}, false, false, false, false)
  }

  function Adopted(h: Handle, validator: nat, revision: Id, at: real): Handle {
    h.(validator := validator,
       info := h.info.(revision := Some(revision), heartbeatAt := at),
       unconfirmed := {})
  }

  function Lost(h: Handle): Handle {
    h.(lost := true)
  }

  /** The record read is held by this handle's acquisition. */
  predicate Mine(h: Handle, slot: Slot) {
    IsHeld(slot) && slot.info.incarnation == h.info.incarnation
  }

  predicate Unconfirmed(h: Handle, revision: Option<Id>) {
    revision.Some? && revision.value in h.unconfirmed
  }

  function BeatRequest(h: Handle, revision: Id, now: real): Request {
    Replace(h.validator, Encode(h.info, Held, revision, now))
  }

  /** The handle after `confirm` has had its read answered. */
  function Confirmed(h: Handle, read: ReadAnswer): Handle {
    match read
    case NotFound => Lost(h)
    case ReadFailed => h
    case Snapshot(slot, validator) =>
      if !Mine(h, slot) then Lost(h)
      else if slot.info.revision == h.info.revision then h.(validator := validator)
      else if Unconfirmed(h, slot.info.revision) then
        Adopted(h, validator, slot.info.revision.value, slot.info.heartbeatAt)
      else Lost(h)
  }

  /** The handle after a refused or failed heartbeat write has been re-read, and whether it keeps
      the claim. */
  function Reconciled(h: Handle, attempted: Id, refused: bool, read: ReadAnswer): (Handle, bool) {
    var h := if refused then h else h.(unconfirmed := h.unconfirmed + {attempted});
    match read
    case NotFound => (Lost(h), false)
    case ReadFailed => if refused then (Lost(h), false) else (h, true)
    case Snapshot(slot, validator) =>
      if !Mine(h, slot) then (Lost(h), false)
      else if slot.info.revision == Some(attempted) || Unconfirmed(h, slot.info.revision) then
        (Adopted(h, validator, slot.info.revision.value, slot.info.heartbeatAt), true)
      else if !refused && slot.info.revision == h.info.revision then
        (h.(validator := validator), true)
      else (Lost(h), false)
  }

  /** The handle after one heartbeat, and whether it keeps the claim. */
  function Beaten(h: Handle, revision: Id, now: real, write: WriteAnswer, read: ReadAnswer): (Handle, bool) {
    match write
    case Written(validator) => (Adopted(h, validator, revision, now), true)
    case Precondition => Reconciled(h, revision, true, read)
    case WriteFailed => Reconciled(h, revision, false, read)
  }

  /** What a refused retire does next: raise, stop, stop as lost, or retry on another validator. */
  datatype Verdict = Raise | Finished | GiveUp | Again(validator: nat)

  function AfterRefusedRetire(h: Handle, read: ReadAnswer): Verdict {
    match read
    case ReadFailed => Raise
    case NotFound => if h.retireUncertain then Finished else GiveUp
    case Snapshot(slot, validator) =>
      if !slot.Record? || slot.info.incarnation != h.info.incarnation then GiveUp
      else if slot.state.Released? then (if h.retireUncertain then Finished else GiveUp)
      else if slot.info.revision == h.info.revision || Unconfirmed(h, slot.info.revision) then Again(validator)
      else GiveUp
  }

  /** The handle once a retire that was not refused has been answered. */
  function RetireAnswered(h: Handle, write: WriteAnswer): Handle
    requires !write.Precondition?
  {
    if write.Written? then h.(released := true) else h.(retireUncertain := true)
  }

  // ---------------------------------------------------------------- operators

  /** The two operator calls that retire a record they judged from one read. */
  datatype Judgement =
    | Clear(force: bool, now: real)
    | IfUnchanged(listed: Info, staleOnly: bool, now: real)

  predicate Judged(j: Judgement, info: Info) {
    match j
    case Clear(force, now) => force || Stale(info, now)
    case IfUnchanged(listed, staleOnly, now) =>
      && info.owner == listed.owner
      && info.acquiredAt == listed.acquiredAt
      && info.incarnation == listed.incarnation
      && (staleOnly ==>
            && info.heartbeatAt == listed.heartbeatAt
            && info.revision == listed.revision
            && Stale(info, now))
  }
}
