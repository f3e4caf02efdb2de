/** Receive futures and the router they register with, as values: every interleaving of creating, polling
    and dropping futures with deliveries. `AmRouter` runs these steps on the heap. */
module RecvWorld {
  import opened Wire
  import opened RouterSlots

  type Bytes = seq<u8>

  /** `copy_nonoverlapping` of the shorter of the two lengths. */
  function Overlay(target: Bytes, bytes: Bytes): (r: Bytes)
    ensures |r| == |target| && forall i :: 0 <= i < |target| ==> r[i] == if i < |bytes| then bytes[i] else target[i]
  {
    if |bytes| <= |target| then bytes + target[|bytes|..] else bytes[..|target|]
  }

  datatype Fut = Fut(key: RecvKey, registered: bool, done: bool, target: Bytes)

  /** One poll: the new slots and future, and whether it is ready. */
  function PollFut(slots: Slots<Bytes>, id: nat, f: Fut, waker: nat): (r: (Slots<Bytes>, Fut, bool))
  {
    if f.done then (slots, f, true)
    else if !f.registered then
      var (rest, early) := TakeEarly(slots, f.key);
      (match early
       case Some(bytes) => (rest, f.(done := true, target := Overlay(f.target, bytes)), true)
       case None => (RegisterPending(slots, f.key, id, waker), f.(registered := true), false))
    else (UpdateWaker(slots, f.key, waker), f, false)
  }

  function DropFut(slots: Slots<Bytes>, f: Fut): Slots<Bytes>
  {
    if f.registered && !f.done then CancelPending(slots, f.key) else slots
  }

  /** `woken` lists the wakers called, in order. */
  datatype World = World(slots: Slots<Bytes>, futs: map<nat, Fut>, woken: seq<nat>)

  datatype Op = Create(id: nat, key: RecvKey, target: Bytes) | Poll(id: nat, waker: nat)
              | Arrive(key: RecvKey, bytes: Bytes) | Drop(id: nat)

  /** Futures that still wait have distinct keys; nothing else is asked of the caller. */
  ghost predicate Enabled(w: World, op: Op) {
    match op
    case Create(id, key, _) => id !in w.futs && forall i :: i in w.futs && !w.futs[i].done ==> w.futs[i].key != key
    case Poll(id, _) => id in w.futs
    case Arrive(_, _) => true
    case Drop(id) => id in w.futs
  }

  ghost function Apply(w: World, op: Op): World
    requires Enabled(w, op)
  {
    match op
    case Create(id, key, target) => w.(futs := w.futs[id := Fut(key, false, false, target)])
    case Poll(id, waker) =>
      var (slots, f, ready) := PollFut(w.slots, id, w.futs[id], waker);
      w.(slots := slots, futs := w.futs[id := f])
    case Drop(id) => w.(slots := DropFut(w.slots, w.futs[id]), futs := w.futs - {id})
    case Arrive(key, bytes) =>
      var (slots, outcome) := Deliver(w.slots, key, bytes);
      match outcome
      case Filled(owner, waker) =>
        World(slots,
              if owner in w.futs then w.futs[owner := Written(w.futs[owner], bytes)] else w.futs,
              if waker.Some? then w.woken + [waker.value] else w.woken)
      case _ => w.(slots := slots)
  }

  function Written(f: Fut, bytes: Bytes): Fut { f.(done := true, target := Overlay(f.target, bytes)) }

  ghost predicate Owns(w: World, id: nat, key: RecvKey) {
    id in w.futs && w.futs[id].key == key && w.futs[id].registered && !w.futs[id].done
  }

  /** A key is pending exactly when a live registered future that is not done owns it; the slot names that
      future and carries a waker, and no two waiting futures share a key. */
  ghost predicate Inv(w: World) {
    && (forall key :: key in w.slots && w.slots[key].Pending? ==> Owns(w, w.slots[key].owner, key) && w.slots[key].waker.Some?)
    && (forall id :: id in w.futs && w.futs[id].registered && !w.futs[id].done ==>
          w.futs[id].key in w.slots && w.slots[w.futs[id].key].Pending? && w.slots[w.futs[id].key].owner == id)
    && (forall i, k :: i in w.futs && k in w.futs && i != k && !w.futs[i].done && !w.futs[k].done ==> w.futs[i].key != w.futs[k].key)
  }

  ghost predicate IsRun(worlds: seq<World>, ops: seq<Op>)
  {
    && |worlds| == |ops| + 1
    && worlds[0] == World(map[], map[], [])
    && (forall i :: 0 <= i < |ops| ==> Enabled(worlds[i], ops[i]) && worlds[i + 1] == Apply(worlds[i], ops[i]))
  }

  lemma PollPreserves(w: World, id: nat, waker: nat)
    requires Inv(w) && id in w.futs
    ensures Inv(Apply(w, Poll(id, waker)))
  {
  }

  lemma ArrivePreserves(w: World, key: RecvKey, bytes: Bytes)
    requires Inv(w)
    ensures Inv(Apply(w, Arrive(key, bytes)))
  {
  }

  lemma StepPreserves(w: World, op: Op)
    requires Inv(w) && Enabled(w, op)
    ensures Inv(Apply(w, op))
  {
    match op
    case Poll(id, waker) => PollPreserves(w, id, waker);
    case Arrive(key, bytes) => ArrivePreserves(w, key, bytes);
    case _ =>
  }

  lemma {:induction false} RunInv(worlds: seq<World>, ops: seq<Op>, i: nat)
    requires IsRun(worlds, ops) && i < |worlds|
    ensures Inv(worlds[i])
  {
    if i > 0 {
      RunInv(worlds, ops, i - 1);
      StepPreserves(worlds[i - 1], ops[i - 1]);
    }
  }

  /** In every interleaving a key is pending if and only if exactly one live, registered, unfinished future
      owns it. So a registered target never outlives its future: a delivery writes only to a live one. */
  lemma PendingIffOwned(worlds: seq<World>, ops: seq<Op>, i: nat, key: RecvKey)
    requires IsRun(worlds, ops) && i < |worlds|
    ensures key in worlds[i].slots && worlds[i].slots[key].Pending? <==> exists id :: Owns(worlds[i], id, key)
    ensures forall id, id' :: Owns(worlds[i], id, key) && Owns(worlds[i], id', key) ==> id == id'
    ensures forall bytes, owner, waker :: Deliver(worlds[i].slots, key, bytes).1 == Filled(owner, waker) ==> Owns(worlds[i], owner, key)
  {
    RunInv(worlds, ops, i);
  }

  // ----- wakers -----

  /** The waker of the last poll of future `id`. */
  function LastWaker(ops: seq<Op>, id: nat): Option<nat> {
    if ops == [] then None
    else if ops[|ops| - 1].Poll? && ops[|ops| - 1].id == id then Some(ops[|ops| - 1].waker)
    else LastWaker(ops[..|ops| - 1], id)
  }

  /** One operation: the slot of a waiting future changes its waker only when that future is polled. */
  lemma WakerStep(w: World, op: Op, key: RecvKey)
    requires Inv(w) && Enabled(w, op) && key in Apply(w, op).slots && Apply(w, op).slots[key].Pending?
    ensures var slot := Apply(w, op).slots[key];
      if op.Poll? && op.id == slot.owner then slot.waker == Some(op.waker)
      else key in w.slots && w.slots[key] == slot
  {
  }

  lemma {:induction false} SlotHoldsLastWaker(worlds: seq<World>, ops: seq<Op>, i: nat, key: RecvKey)
    requires IsRun(worlds, ops) && i < |worlds| && key in worlds[i].slots && worlds[i].slots[key].Pending?
    ensures worlds[i].slots[key].waker == LastWaker(ops[..i], worlds[i].slots[key].owner)
    decreases i
  {
    if i > 0 {
      RunInv(worlds, ops, i - 1);
      WakerStep(worlds[i - 1], ops[i - 1], key);
      assert ops[..i][..i - 1] == ops[..i - 1];
      if !(ops[i - 1].Poll? && ops[i - 1].id == worlds[i].slots[key].owner) {
        SlotHoldsLastWaker(worlds, ops, i - 1, key);
      }
    }
  }

  /** A delivery to a waiting future wakes the waker of that future's most recent poll. */
  lemma LastWakerWoken(worlds: seq<World>, ops: seq<Op>, i: nat, id: nat)
    requires IsRun(worlds, ops) && i < |ops| && ops[i].Arrive? && Owns(worlds[i], id, ops[i].key)
    ensures LastWaker(ops[..i], id).Some?
    ensures worlds[i + 1].woken == worlds[i].woken + [LastWaker(ops[..i], id).value]
    ensures worlds[i + 1].futs == worlds[i].futs[id := Written(worlds[i].futs[id], ops[i].bytes)]
    ensures ops[i].key !in worlds[i + 1].slots
  {
    RunInv(worlds, ops, i);
    SlotHoldsLastWaker(worlds, ops, i, ops[i].key);
  }

  // ----- what a poll answers -----

  /** What a poll of future `id` would answer now. */
  function Ready(w: World, id: nat, waker: nat): bool
    requires id in w.futs
  {
    PollFut(w.slots, id, w.futs[id], waker).2
  }

  /** A poll answers ready exactly when its future is done after it, and that is when it was done before or a
      message was there first. A poll that answers not ready has left this poll's waker with the future's
      registration. */
  lemma AnswerMeansDone(worlds: seq<World>, ops: seq<Op>, i: nat)
    requires IsRun(worlds, ops) && i < |ops| && ops[i].Poll?
    ensures var id := ops[i].id; var w, v := worlds[i], worlds[i + 1]; var key := w.futs[id].key;
      && id in v.futs && v.futs[id].key == key
      && (Ready(w, id, ops[i].waker) <==> v.futs[id].done)
      && (Ready(w, id, ops[i].waker) <==> w.futs[id].done || (key in w.slots && w.slots[key].Early?))
      && (!Ready(w, id, ops[i].waker) ==>
            Owns(v, id, key) && key in v.slots && v.slots[key] == Pending(id, Some(ops[i].waker)))
  {
    RunInv(worlds, ops, i);
  }

  /** Between `p` and `d` nobody polls or drops future `id`, and no message arrives for `key`. */
  ghost predicate LeftAlone(ops: seq<Op>, p: nat, d: nat, id: nat, key: RecvKey)
    requires p < d <= |ops|
  {
    forall i :: p < i < d ==> !(ops[i].Poll? && ops[i].id == id) && ops[i] != Drop(id) && !(ops[i].Arrive? && ops[i].key == key)
  }

  lemma {:induction false} StillWaits(worlds: seq<World>, ops: seq<Op>, p: nat, d: nat)
    requires IsRun(worlds, ops) && p < d <= |ops| && ops[p].Poll? && !Ready(worlds[p], ops[p].id, ops[p].waker)
    requires LeftAlone(ops, p, d, ops[p].id, worlds[p].futs[ops[p].id].key)
    ensures var id := ops[p].id; var key := worlds[p].futs[id].key;
      Owns(worlds[d], id, key) && key in worlds[d].slots && worlds[d].slots[key] == Pending(id, Some(ops[p].waker))
    decreases d
  {
    if d == p + 1 {
      AnswerMeansDone(worlds, ops, p);
    } else {
      StillWaits(worlds, ops, p, d - 1);
      RunInv(worlds, ops, d - 1);
      WaitsStep(worlds[d - 1], ops[d - 1], ops[p].id, worlds[p].futs[ops[p].id].key);
    }
  }

  lemma WaitsStep(w: World, op: Op, id: nat, key: RecvKey)
    requires Inv(w) && Enabled(w, op) && Owns(w, id, key) && op != Drop(id)
    requires !(op.Poll? && op.id == id) && !(op.Arrive? && op.key == key)
    ensures Owns(Apply(w, op), id, key) && key in w.slots && key in Apply(w, op).slots && Apply(w, op).slots[key] == w.slots[key]
  {
  }

  /** No hanging receive: a poll that answered not ready is followed by a wake of its own waker when the next
      message for its key arrives, and every poll after that answers ready with the bytes delivered. */
  lemma NotReadyThenWoken(worlds: seq<World>, ops: seq<Op>, p: nat, d: nat, q: nat)
    requires IsRun(worlds, ops) && p < d < q < |ops| && ops[p].Poll? && !Ready(worlds[p], ops[p].id, ops[p].waker)
    requires var id := ops[p].id; var key := worlds[p].futs[id].key;
      && LeftAlone(ops, p, d, id, key) && ops[d].Arrive? && ops[d].key == key
      && ops[q].Poll? && ops[q].id == id && (forall i :: d < i < q ==> ops[i] != Drop(id))
    ensures worlds[d + 1].woken == worlds[d].woken + [ops[p].waker]
    ensures var id := ops[p].id;
      && id in worlds[q].futs && id in worlds[d].futs && Ready(worlds[q], id, ops[q].waker)
      && worlds[q + 1].futs[id].target == Overlay(worlds[d].futs[id].target, ops[d].bytes)
  {
    StillWaits(worlds, ops, p, d);
    DoneStays(worlds, ops, d + 1, q, ops[p].id);
    DoneStays(worlds, ops, d + 1, q + 1, ops[p].id);
  }

  /** A finished future stays as it is until it is dropped. */
  lemma {:induction false} DoneStays(worlds: seq<World>, ops: seq<Op>, a: nat, b: nat, id: nat)
    requires IsRun(worlds, ops) && a <= b <= |ops| && id in worlds[a].futs && worlds[a].futs[id].done
    requires forall i :: a <= i < b ==> ops[i] != Drop(id)
    ensures id in worlds[b].futs && worlds[b].futs[id] == worlds[a].futs[id]
    decreases b
  {
    if a < b {
      DoneStays(worlds, ops, a, b - 1, id);
      RunInv(worlds, ops, b - 1);
      DoneStep(worlds[b - 1], ops[b - 1], id);
    }
  }

  lemma DoneStep(w: World, op: Op, id: nat)
    requires Inv(w) && Enabled(w, op) && id in w.futs && w.futs[id].done && op != Drop(id)
    ensures id in Apply(w, op).futs && Apply(w, op).futs[id] == w.futs[id]
  {
  }

  /** Dropping a future takes exactly its own registration with it: early messages, and the registrations of
      others, stay. */
  lemma DropTakesOwn(worlds: seq<World>, ops: seq<Op>, i: nat, key: RecvKey)
    requires IsRun(worlds, ops) && i < |ops| && ops[i].Drop?
    ensures key in worlds[i + 1].slots <==> key in worlds[i].slots && !Owns(worlds[i], ops[i].id, key)
    ensures key in worlds[i + 1].slots ==> worlds[i + 1].slots[key] == worlds[i].slots[key]
  {
    RunInv(worlds, ops, i);
  }

  // ----- delivery before or after the first poll -----

  /** Future `id`, created at `a` for a key nothing is stored under, is dropped by nobody before `b` and gets
      one delivery, at `d`. */
  ghost predicate OneDelivery(worlds: seq<World>, ops: seq<Op>, a: nat, b: nat, d: nat, id: nat, key: RecvKey, target: Bytes)
  {
    && IsRun(worlds, ops) && a < d < b <= |ops|
    && ops[a] == Create(id, key, target) && key !in worlds[a].slots
    && ops[d].Arrive? && ops[d].key == key
    && forall i :: a < i < b ==> ops[i] != Drop(id) && (ops[i].Arrive? && ops[i].key == key ==> i == d)
  }

  /** Where the future stands after `i` operations. */
  ghost predicate Stands(w: World, id: nat, key: RecvKey, target: Bytes, bytes: Bytes, delivered: bool)
  {
    && id in w.futs && w.futs[id].key == key
    && if w.futs[id].done then delivered && w.futs[id].target == Overlay(target, bytes)
       else
         && w.futs[id].target == target
         && (if delivered then !w.futs[id].registered && key in w.slots && w.slots[key] == Early(bytes)
             else if w.futs[id].registered then key in w.slots && w.slots[key].Pending? && w.slots[key].owner == id
             else key !in w.slots)
  }

  lemma StandsStep(w: World, op: Op, id: nat, key: RecvKey, target: Bytes, bytes: Bytes, delivered: bool)
    requires Inv(w) && Enabled(w, op) && Stands(w, id, key, target, bytes, delivered)
    requires op != Drop(id) && (op.Arrive? && op.key == key ==> op.bytes == bytes && !delivered)
    ensures Stands(Apply(w, op), id, key, target, bytes, delivered || (op.Arrive? && op.key == key))
  {
  }

  lemma {:induction false} StandsInRun(worlds: seq<World>, ops: seq<Op>, a: nat, b: nat, d: nat, id: nat, key: RecvKey, target: Bytes, i: nat)
    requires OneDelivery(worlds, ops, a, b, d, id, key, target) && a < i <= b
    ensures Stands(worlds[i], id, key, target, ops[d].bytes, d < i)
    decreases i
  {
    if i > a + 1 {
      StandsInRun(worlds, ops, a, b, d, id, key, target, i - 1);
      RunInv(worlds, ops, i - 1);
      StandsStep(worlds[i - 1], ops[i - 1], id, key, target, ops[d].bytes, d < i - 1);
    }
  }

  lemma {:induction false} PolledStays(worlds: seq<World>, ops: seq<Op>, a: nat, b: nat, d: nat, id: nat, key: RecvKey, target: Bytes, p: nat, i: nat)
    requires OneDelivery(worlds, ops, a, b, d, id, key, target) && a < p < i <= b
    requires ops[p].Poll? && ops[p].id == id
    ensures id in worlds[i].futs && (worlds[i].futs[id].registered || worlds[i].futs[id].done)
    decreases i
  {
    StandsInRun(worlds, ops, a, b, d, id, key, target, i - 1);
    if i > p + 1 {
      PolledStays(worlds, ops, a, b, d, id, key, target, p, i - 1);
    }
  }

  /** Once polled and delivered to, in either order and with anything else in between, the future is done
      and its target holds the same bytes; with equal lengths these are exactly the bytes sent. */
  lemma DeliveryOrderInvisible(worlds: seq<World>, ops: seq<Op>, a: nat, b: nat, d: nat, id: nat, key: RecvKey, target: Bytes, p: nat)
    requires OneDelivery(worlds, ops, a, b, d, id, key, target) && a < p < b && ops[p].Poll? && ops[p].id == id
    ensures id in worlds[b].futs && worlds[b].futs[id].done
    ensures worlds[b].futs[id].target == Overlay(target, ops[d].bytes)
    ensures |ops[d].bytes| == |target| ==> worlds[b].futs[id].target == ops[d].bytes
  {
    StandsInRun(worlds, ops, a, b, d, id, key, target, b);
    PolledStays(worlds, ops, a, b, d, id, key, target, p, b);
  }

  /** The hypothesis of one unconsumed message per key is needed: a second early arrival loses both. */
  lemma TwoEarlyLoseBoth(slots: Slots<Bytes>, key: RecvKey, first: Bytes, second: Bytes)
    requires key !in slots
    ensures var (one, o1) := Deliver(slots, key, first);
      var (two, o2) := Deliver(one, key, second);
      o1 == Buffered && o2 == DroppedBoth && two == slots
  {
    assert slots[key := Early(first)] - {key} == slots;
  }
}
