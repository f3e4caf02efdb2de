/** The active-message router and its receive futures as objects: a mutable slot map, registrations that
    point at a future's target buffer and done cell, and futures that register on their first poll.
    `live` is the set of receive futures that exist; every method keeps `Consistent(router, live)`. */
module AmRouter {
  import opened Wire
  import opened RecvWorld
  import S = RouterSlots

  class DoneCell {
    var value: bool

    constructor ()
      ensures !value
    {
      value := false;
    }
  }

  /** `owner` names the registering future in the specification only. */
  class PendingRecv {
    const target: array<u8>
    const done: DoneCell
    var waker: S.Option<nat>
    ghost const owner: nat

    constructor (target: array<u8>, done: DoneCell, waker: S.Option<nat>, ghost owner: nat)
      ensures this.target == target && this.done == done && this.waker == waker && this.owner == owner
    {
      this.target, this.done, this.waker, this.owner := target, done, waker, owner;
    }
  }

  datatype Entry = Pending(recv: PendingRecv) | Early(bytes: Bytes)

  class Router {
    var slots: map<RecvKey, Entry>

    ghost function Recvs(): set<PendingRecv>
      reads this
    {
      set key | key in slots && slots[key].Pending? :: slots[key].recv
    }

    /** Two keys never share a registration. */
    ghost predicate Valid()
      reads this
    {
      forall key, other :: key in slots && other in slots && key != other && slots[key].Pending? && slots[other].Pending? ==>
        slots[key].recv != slots[other].recv
    }

    ghost function EntryView(e: Entry): S.Slot<Bytes>
      reads if e.Pending? then {e.recv} else {}
    {
      match e
      case Pending(p) => S.Pending(p.owner, p.waker)
      case Early(bytes) => S.Early(bytes)
    }

    ghost function View(): S.Slots<Bytes>
      reads this, Recvs()
    {
      map key | key in slots :: EntryView(slots[key])
    }

    constructor ()
      ensures slots == map[] && Valid() && View() == map[]
    {
      slots := map[];
    }

    method TakeEarly(key: RecvKey) returns (r: S.Option<Bytes>)
      requires Valid()
      modifies this
      ensures Valid() && View() == S.TakeEarly(old(View()), key).0 && r == S.TakeEarly(old(View()), key).1
      ensures slots == if r.Some? then old(slots) - {key} else old(slots)
    {
      r := S.None;
      if key in slots && slots[key].Early? {
        r := S.Some(slots[key].bytes);
        slots := slots - {key};
      }
    }

    method RegisterPending(key: RecvKey, recv: PendingRecv)
      requires Valid() && recv !in Recvs() && recv.waker.Some?
      modifies this
      ensures Valid() && slots == old(slots)[key := Pending(recv)]
      ensures View() == S.RegisterPending(old(View()), key, recv.owner, recv.waker.value)
    {
      slots := slots[key := Pending(recv)];
    }

    method UpdateWaker(key: RecvKey, waker: nat)
      requires Valid()
      modifies if key in slots && slots[key].Pending? then {slots[key].recv} else {}
      ensures Valid() && View() == S.UpdateWaker(old(View()), key, waker)
    {
      if key in slots && slots[key].Pending? {
        slots[key].recv.waker := S.Some(waker);
      }
    }

    method CancelPending(key: RecvKey)
      requires Valid()
      modifies this
      ensures Valid() && slots == old(slots) - {key} && View() == S.CancelPending(old(View()), key)
    {
      slots := slots - {key};
    }

    /** Copies into the target, sets the done flag and takes the waker. */
    method Complete(p: PendingRecv, bytes: Bytes) returns (woken: S.Option<nat>)
      modifies p, p.target, p.done
      ensures p.target[..] == Overlay(old(p.target[..]), bytes) && p.done.value && woken == old(p.waker)
    {
      CopyShorter(p.target, bytes);
      p.done.value := true;
      woken := p.waker;
      p.waker := S.None;
    }

    /** A registration found under the key is filled, marked done and its waker taken. */
    method FillPending(key: RecvKey, bytes: Bytes, ghost live: set<RecvFuture>) returns (woken: S.Option<nat>)
      requires Consistent(this, live) && key in slots && slots[key].Pending?
      modifies this, slots[key].recv, slots[key].recv.target, slots[key].recv.done
      ensures Consistent(this, live) && View() == old(View()) - {key}
      ensures woken == old(slots[key].recv.waker)
      ensures exists f :: f in live && f.id == old(slots[key].recv.owner) && old(Waits(f))
      ensures forall f :: f in live ==>
        f.View() == if f.id == old(slots[key].recv.owner) then Written(old(f.View()), bytes) else old(f.View())
    {
      var p := slots[key].recv;
      ghost var f :| f in live && Waits(f) && f.key == key;
      ghost var waiting := Waiting(live);
      TiedFill(slots, waiting, f);
      assert p.target == f.target && p.done == f.done && p.owner == f.id;
      slots := slots - {key};
      woken := Complete(p, bytes);
      assert forall g :: g in live && g != f ==> g.View() == old(g.View());
      assert Waiting(live) == waiting - {f};
    }

    /** The dispatcher's entry point. The future a message fills is live; other futures see nothing. */
    method Deliver(key: RecvKey, bytes: Bytes, ghost live: set<RecvFuture>) returns (woken: S.Option<nat>)
      requires Consistent(this, live)
      modifies this
      modifies if key in slots && slots[key].Pending? then {slots[key].recv, slots[key].recv.target, slots[key].recv.done} else {}
      ensures Consistent(this, live) && View() == S.Deliver(old(View()), key, bytes).0
      ensures match S.Deliver(old(View()), key, bytes).1
        case Filled(owner, waker) =>
          && woken == waker
          && (exists f :: f in live && f.id == owner && old(Waits(f)))
          && forall f :: f in live ==> f.View() == if f.id == owner then Written(old(f.View()), bytes) else old(f.View())
        case _ => woken == S.None && forall f :: f in live ==> f.View() == old(f.View())
    {
      woken := S.None;
      if key !in slots {
        slots := slots[key := Early(bytes)];
      } else if slots[key].Early? {
        slots := slots - {key};
      } else {
        woken := FillPending(key, bytes, live);
      }
    }
  }

  method CopyShorter(target: array<u8>, bytes: Bytes)
    modifies target
    ensures target[..] == Overlay(old(target[..]), bytes)
  {
    var len := if |bytes| < target.Length then |bytes| else target.Length;
    var i := 0;
    while i < len
      invariant 0 <= i <= len && target[..i] == bytes[..i] && target[i..] == old(target[i..])
    {
      target[i] := bytes[i];
      i := i + 1;
    }
  }

  class RecvFuture {
    const router: Router
    const key: RecvKey
    const done: DoneCell
    var registered: bool
    const target: array<u8>
    ghost const id: nat

    ghost function View(): Fut
      reads this, done, target
    {
      Fut(key, registered, done.value, target[..])
    }

    constructor (router: Router, key: RecvKey, target: array<u8>, ghost id: nat, ghost live: set<RecvFuture>)
      requires Consistent(router, live)
      requires forall f :: f in live ==> f.id != id && f.target != target && (!f.done.value ==> f.key != key)
      ensures this.router == router && this.id == id && View() == Fut(key, false, false, target[..])
      ensures Consistent(router, live + {this})
    {
      this.router, this.key, this.target, this.id := router, key, target, id;
      registered := false;
      done := new DoneCell();
    }

    /** Hands target and done cell to the router. */
    method Enlist(waker: nat) returns (recv: PendingRecv)
      requires router.Valid()
      modifies router
      ensures router.Valid() && fresh(recv) && router.slots == old(router.slots)[key := Pending(recv)]
      ensures recv.target == target && recv.done == done && recv.owner == id && recv.waker == S.Some(waker)
      ensures router.View() == S.RegisterPending(old(router.View()), key, id, waker)
    {
      recv := new PendingRecv(target, done, S.Some(waker), id);
      router.RegisterPending(key, recv);
    }

    /** Registers; nothing is stored under the key. */
    method Register(waker: nat, ghost live: set<RecvFuture>)
      requires Consistent(router, live) && this in live && !done.value && !registered && key !in router.slots
      modifies router, this
      ensures Consistent(router, live) && registered
      ensures Registers(router.slots, key, this) && router.slots[key].recv.waker == S.Some(waker)
      ensures router.View() == S.RegisterPending(old(router.View()), key, id, waker)
      ensures forall f :: f in live && f != this ==> f.registered == old(f.registered)
    {
      ghost var waiting := Waiting(live);
      ghost var was := router.slots;
      var recv := Enlist(waker);
      TiedRegister(was, waiting, this, recv);
      registered := true;
      assert Waiting(live) == waiting + {this};
    }

    /** Copies an early arrival into the target. */
    method Accept(bytes: Bytes, ghost live: set<RecvFuture>)
      requires Consistent(router, live) && this in live && !done.value && !registered
      modifies done, target
      ensures Consistent(router, live) && done.value && target[..] == Overlay(old(target[..]), bytes)
      ensures router.View() == old(router.View())
    {
      CopyShorter(target, bytes);
      done.value := true;
    }

    /** A future that is not registered has no registration under its key. */
    lemma NotPendingYet(live: set<RecvFuture>)
      requires Consistent(router, live) && this in live && !done.value && !registered
      ensures key in router.slots ==> router.slots[key].Early?
    {
    }

    /** An answer means what it says: ready, that the bytes have arrived; not ready, that the router holds
        this future's target and done cell, and will wake `waker`. */
    ghost predicate Answers(ready: bool, waker: nat)
      reads this, done, router
      reads if key in router.slots && router.slots[key].Pending? then {router.slots[key].recv} else {}
    {
      && ready == done.value
      && (!ready ==> registered && Registers(router.slots, key, this) && router.slots[key].recv.waker == S.Some(waker))
    }

    /** The first poll of an unfinished future takes an early arrival or registers. */
    method FirstPoll(waker: nat, ghost live: set<RecvFuture>) returns (ready: bool)
      requires Consistent(router, live) && this in live && !done.value && !registered
      modifies router, this, done, target
      ensures Consistent(router, live)
      ensures router.View() == PollFut(old(router.View()), id, old(View()), waker).0
      ensures View() == PollFut(old(router.View()), id, old(View()), waker).1
      ensures Answers(ready, waker)
      ensures ready <==> key in old(router.slots) && old(router.slots[key]).Early?
      ensures forall f :: f in live && f != this ==> f.View() == old(f.View())
    {
      NotPendingYet(live);
      var early := router.TakeEarly(key);
      ready := early.Some?;
      if early.Some? {
        Accept(early.value, live);
      } else {
        Register(waker, live);
      }
    }

    /** Ready at once when done; on the first poll takes an early arrival or registers; later polls only
        refresh the waker. */
    method Poll(waker: nat, ghost live: set<RecvFuture>) returns (ready: bool)
      requires Consistent(router, live) && this in live
      modifies router, this, done, target
      modifies if key in router.slots && router.slots[key].Pending? then {router.slots[key].recv} else {}
      ensures Consistent(router, live)
      ensures router.View() == PollFut(old(router.View()), id, old(View()), waker).0
      ensures View() == PollFut(old(router.View()), id, old(View()), waker).1
      ensures Answers(ready, waker)
      ensures ready <==> old(done.value) || (!old(registered) && key in old(router.slots) && old(router.slots[key]).Early?)
      ensures forall f :: f in live && f != this ==> f.View() == old(f.View())
    {
      if done.value {
        return true;
      }
      if registered {
        router.UpdateWaker(key, waker);
        return false;
      }
      ready := FirstPoll(waker, live);
    }

    /** Dropping a future that still waits removes its registration, so its target is never written again. */
    method Dropped(ghost live: set<RecvFuture>)
      requires Consistent(router, live) && this in live
      modifies router
      ensures Consistent(router, live - {this})
      ensures router.View() == DropFut(old(router.View()), old(View()))
      ensures forall k :: k in router.slots && router.slots[k].Pending? ==> router.slots[k].recv.target != target
    {
      if registered && !done.value {
        router.CancelPending(key);
      }
    }
  }

  ghost predicate Waits(f: RecvFuture)
    reads f, f.done
  {
    f.registered && !f.done.value
  }

  ghost function Waiting(live: set<RecvFuture>): set<RecvFuture>
    reads live, set f | f in live :: f.done
  {
    set f | f in live && Waits(f)
  }

  /** The registration under `key` is that of `f`. */
  ghost predicate Registers(slots: map<RecvKey, Entry>, key: RecvKey, f: RecvFuture) {
    && key in slots && slots[key].Pending?
    && var p := slots[key].recv; p.target == f.target && p.done == f.done && p.owner == f.id
  }

  /** The pending keys are exactly those of the waiting futures, each registered as itself. */
  ghost predicate Tied(slots: map<RecvKey, Entry>, waiting: set<RecvFuture>) {
    && (forall f :: f in waiting ==> Registers(slots, f.key, f))
    && (forall key :: key in slots && slots[key].Pending? ==> exists f :: f in waiting && f.key == key)
  }

  lemma TiedRegister(slots: map<RecvKey, Entry>, waiting: set<RecvFuture>, f: RecvFuture, recv: PendingRecv)
    requires Tied(slots, waiting) && f.key !in slots
    requires recv.target == f.target && recv.done == f.done && recv.owner == f.id
    ensures Tied(slots[f.key := Pending(recv)], waiting + {f})
  {
    var next := slots[f.key := Pending(recv)];
    forall g | g in waiting + {f} ensures Registers(next, g.key, g) {
      assert g in waiting ==> Registers(slots, g.key, g);
    }
    forall key | key in next && next[key].Pending? ensures exists g :: g in waiting + {f} && g.key == key {
      if key == f.key {
        assert f in waiting + {f};
      } else {
        var g :| g in waiting && g.key == key;
        assert g in waiting + {f};
      }
    }
  }

  /** Filling the receive of `f` ends its waiting and removes its key; no two waiting futures share one. */
  lemma TiedFill(slots: map<RecvKey, Entry>, waiting: set<RecvFuture>, f: RecvFuture)
    requires Tied(slots, waiting) && f in waiting
    requires forall g :: g in waiting && g != f ==> g.key != f.key
    ensures Registers(slots, f.key, f) && Tied(slots - {f.key}, waiting - {f})
  {
    var rest := slots - {f.key};
    forall g | g in waiting - {f} ensures Registers(rest, g.key, g) {
      assert Registers(slots, g.key, g);
    }
    forall key | key in rest && rest[key].Pending? ensures exists g :: g in waiting - {f} && g.key == key {
      var g :| g in waiting && g.key == key;
      assert g in waiting - {f};
    }
  }

  /** A key is pending exactly when one live, registered, unfinished future owns it, and the registration
      points at that future's target and done cell. */
  ghost predicate Consistent(router: Router, live: set<RecvFuture>)
    reads router, live, set f | f in live :: f.done
  {
    && router.Valid()
    && (forall f :: f in live ==> f.router == router)
    && Tied(router.slots, Waiting(live))
    && (forall f, g :: f in live && g in live && f != g ==>
          f.id != g.id && f.done != g.done && f.target != g.target && (!f.done.value && !g.done.value ==> f.key != g.key))
  }
}
