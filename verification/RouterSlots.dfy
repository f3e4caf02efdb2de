/** The slot map of the active-message router as a value: what each router operation does to it.
    `AmRouter` runs these operations on a mutable map; `RingNet` gives every rank one such map. */
module RouterSlots {
  import opened Wire

  datatype Option<+T> = None | Some(value: T)

  /** A key is absent, awaited by a registered receive, or holds a message that came first.
      `owner` names the receive future whose target and done flag the source stores in the slot. */
  datatype Slot<+B> = Pending(owner: nat, waker: Option<nat>) | Early(bytes: B)

  type Slots<B> = map<RecvKey, Slot<B>>

  /** What one delivery did. `DroppedBoth` is the duplicate branch: the stored message has already
      been removed from the map when the arm is taken, and the new one is not stored. */
  datatype Outcome = Filled(owner: nat, waker: Option<nat>) | Buffered | DroppedBoth

  function TakeEarly<B>(slots: Slots<B>, key: RecvKey): (r: (Slots<B>, Option<B>))
  {
    if key in slots && slots[key].Early? then (slots - {key}, Some(slots[key].bytes)) else (slots, None)
  }

  function RegisterPending<B>(slots: Slots<B>, key: RecvKey, owner: nat, waker: nat): Slots<B>
  {
    slots[key := Pending(owner, Some(waker))]
  }

  function UpdateWaker<B>(slots: Slots<B>, key: RecvKey, waker: nat): Slots<B>
  {
    if key in slots && slots[key].Pending? then slots[key := Pending(slots[key].owner, Some(waker))] else slots
  }

  function CancelPending<B>(slots: Slots<B>, key: RecvKey): Slots<B> { slots - {key} }

  function Deliver<B>(slots: Slots<B>, key: RecvKey, bytes: B): (r: (Slots<B>, Outcome))
  {
    if key !in slots then (slots[key := Early(bytes)], Buffered)
    else match slots[key] {
      case Pending(owner, waker) => (slots - {key}, Filled(owner, waker))
      case Early(_) => (slots - {key}, DroppedBoth)
    }
  }
}
