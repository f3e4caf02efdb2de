/** The run loop as a state machine: a slab of tasks that are taken out while polled, two id queues, the
    batch being processed, and the state each task shares with its join handle. Wakes, spawns and join
    polls happen at any moment; ids repeat in the queues and slab keys are reused. */
module Executor {
  datatype Option<+T> = None | Some(value: T)

  datatype Queue = NormalQueue | PollingQueue

  /** `uid` numbers the spawns. The program never sees it: it wakes and polls by slab key only. */
  datatype Task = Task(uid: nat, queue: Queue)

  /** A waker pushes `id` on `queue`; `uid` records whose it is. */
  datatype Waker = Waker(id: nat, queue: Queue, uid: nat)

  datatype Shared<+V> = Shared(result: Option<V>, waiter: Option<Waker>)

  /** Where the loop is: between iterations, or with the rest of a batch still to be polled. */
  datatype Phase = Top | PollingBatch(rest: seq<nat>) | NormalBatch(rest: seq<nat>)

  /** `slab[id]` is `None` while the task is taken out. `homes[uid]` is the key and queue of that spawn. */
  datatype State<+V> = State(slab: map<nat, Option<Task>>, normal: seq<nat>, polling: seq<nat>, phase: Phase,
                             running: Option<Waker>, shared: seq<Shared<V>>, homes: seq<(nat, Queue)>)

  datatype Event<+V> =
    | Spawn(key: nat, queue: Queue)
    | Wake(waker: Waker)
    | DrainPolling
    | DrainNormal
    | EndIteration
    | Next                       // takes the next id of the batch and polls its task, or skips it
    | PollJoin(uid: nat)         // by the running task
    | EndPoll(done: Option<V>)

  ghost predicate Genuine<V>(s: State<V>, w: Waker) {
    w.uid < |s.homes| && s.homes[w.uid] == (w.id, w.queue)
  }

  function Rest(p: Phase): seq<nat> { if p.Top? then [] else p.rest }

  function WithRest(p: Phase, rest: seq<nat>): Phase {
    match p
    case Top => Top
    case PollingBatch(_) => PollingBatch(rest)
    case NormalBatch(_) => NormalBatch(rest)
  }

  function Pushed<V>(s: State<V>, queue: Queue, id: nat): State<V> {
    match queue
    case NormalQueue => s.(normal := s.normal + [id])
    case PollingQueue => s.(polling := s.polling + [id])
  }

  function QueueOf<V>(s: State<V>, queue: Queue): seq<nat> {
    match queue
    case NormalQueue => s.normal
    case PollingQueue => s.polling
  }

  function Batch(size: nat, queue: seq<nat>): (b: seq<nat>)
    ensures b <= queue
  {
    if |queue| < size then queue else queue[..size]
  }

  ghost predicate Enabled<V>(s: State<V>, e: Event<V>) {
    match e
    case Spawn(key, _) => key !in s.slab
    case Wake(w) => Genuine(s, w)
    case DrainPolling => s.phase.Top? && s.running.None?
    case DrainNormal => s.phase == PollingBatch([]) && s.running.None?
    case EndIteration => s.phase == NormalBatch([]) && s.running.None?
    case Next => s.running.None? && Rest(s.phase) != []
    case PollJoin(uid) => s.running.Some? && uid < |s.shared|
    case EndPoll(_) => s.running.Some? && s.running.value.uid < |s.shared|
  }

  ghost function Apply<V>(size: nat, s: State<V>, e: Event<V>): State<V>
    requires Enabled(s, e)
  {
    match e
    case Spawn(key, queue) =>
      Pushed(s.(slab := s.slab[key := Some(Task(|s.homes|, queue))], shared := s.shared + [Shared(None, None)],
                homes := s.homes + [(key, queue)]), queue, key)
    case Wake(w) => Pushed(s, w.queue, w.id)
    case DrainPolling => s.(phase := PollingBatch(s.polling), polling := [])
    case DrainNormal =>
      var batch := Batch(size, s.normal);
      s.(phase := NormalBatch(batch), normal := s.normal[|batch|..])
    case EndIteration => s.(phase := Top)
    case Next =>
      var id := Rest(s.phase)[0];
      var rest := WithRest(s.phase, Rest(s.phase)[1..]);
      if id in s.slab && s.slab[id].Some? then
        s.(phase := rest, slab := s.slab[id := None],
           running := Some(Waker(id, s.slab[id].value.queue, s.slab[id].value.uid)))
      else s.(phase := rest)
    case PollJoin(uid) =>
      if s.shared[uid].result.Some? then s.(shared := s.shared[uid := s.shared[uid].(result := None)])
      else s.(shared := s.shared[uid := s.shared[uid].(waiter := s.running)])
    case EndPoll(done) =>
      var w := s.running.value;
      match done
      case None => s.(running := None, slab := s.slab[w.id := Some(Task(w.uid, w.queue))])
      case Some(v) =>
        var t := s.(running := None, slab := s.slab - {w.id}, shared := s.shared[w.uid := Shared(Some(v), None)]);
        if s.shared[w.uid].waiter.Some? then Pushed(t, s.shared[w.uid].waiter.value.queue, s.shared[w.uid].waiter.value.id) else t
  }

  ghost predicate IsRun<V>(size: nat, states: seq<State<V>>, events: seq<Event<V>>) {
    && |states| == |events| + 1
    && states[0] == State(map[], [], [], Top, None, [], [])
    && (forall i :: 0 <= i < |events| ==> Enabled(states[i], events[i]) && states[i + 1] == Apply(size, states[i], events[i]))
  }

  // ----- invariant of the state -----

  ghost predicate TaskAt<V>(s: State<V>, id: nat, t: Task) {
    t.uid < |s.homes| && s.homes[t.uid] == (id, t.queue)
  }

  /** Only the running task is out of the slab, none between iterations; every task and every waiter is what its spawn made it; a
      task that has not finished has no result. */
  ghost predicate Inv<V>(s: State<V>) {
    && |s.shared| == |s.homes|
    && (forall id :: id in s.slab && s.slab[id].Some? ==> TaskAt(s, id, s.slab[id].value) && s.shared[s.slab[id].value.uid].result.None?)
    && (forall id :: id in s.slab && s.slab[id].None? ==> s.running.Some? && s.running.value.id == id)
    && (s.running.Some? ==> Genuine(s, s.running.value) && s.running.value.id in s.slab
                            && s.slab[s.running.value.id].None? && s.shared[s.running.value.uid].result.None?)
    && (forall u :: 0 <= u < |s.shared| && s.shared[u].waiter.Some? ==> Genuine(s, s.shared[u].waiter.value))
    && (s.phase.Top? ==> s.running.None?)
  }

  lemma SpawnPreserves<V>(size: nat, s: State<V>, key: nat, queue: Queue)
    requires Inv(s) && key !in s.slab
    ensures Inv(Apply(size, s, Spawn(key, queue)))
  {
  }

  lemma NextPreserves<V>(size: nat, s: State<V>)
    requires Inv(s) && Enabled(s, Next)
    ensures Inv(Apply(size, s, Next))
  {
  }

  lemma EndPreserves<V>(size: nat, s: State<V>, done: Option<V>)
    requires Inv(s) && Enabled(s, EndPoll(done))
    ensures Inv(Apply(size, s, EndPoll(done)))
  {
  }

  lemma StepPreserves<V>(size: nat, s: State<V>, e: Event<V>)
    requires Inv(s) && Enabled(s, e)
    ensures Inv(Apply(size, s, e))
  {
    match e
    case Spawn(key, queue) => SpawnPreserves(size, s, key, queue);
    case Next => NextPreserves(size, s);
    case EndPoll(done) => EndPreserves(size, s, done);
    case _ =>
  }

  lemma {:induction false} RunInv<V>(size: nat, states: seq<State<V>>, events: seq<Event<V>>, i: nat)
    requires IsRun(size, states, events) && i < |states|
    ensures Inv(states[i])
  {
    if i > 0 {
      RunInv(size, states, events, i - 1);
      StepPreserves(size, states[i - 1], events[i - 1]);
    }
  }

  // ----- no lost wakeup -----

  /** The event wakes task `uid`: its spawn, a wake through its waker, or the completion of a task whose
      join handle holds its waker. */
  ghost predicate Wakes<V>(s: State<V>, e: Event<V>, uid: nat)
    requires Enabled(s, e)
  {
    match e
    case Spawn(_, _) => uid == |s.homes|
    case Wake(w) => w.uid == uid
    case EndPoll(done) => done.Some? && s.shared[s.running.value.uid].waiter.Some? && s.shared[s.running.value.uid].waiter.value.uid == uid
    case _ => false
  }

  ghost predicate StartsPoll<V>(s: State<V>, e: Event<V>, uid: nat)
    requires Enabled(s, e)
  {
    e.Next? && var id := Rest(s.phase)[0]; id in s.slab && s.slab[id].Some? && s.slab[id].value.uid == uid
  }

  /** Task `uid` has been woken since its last poll began. */
  ghost predicate Woken<V>(size: nat, states: seq<State<V>>, events: seq<Event<V>>, i: nat, uid: nat)
    requires IsRun(size, states, events) && i < |states|
    decreases i
  {
    i > 0 &&
    (Wakes(states[i - 1], events[i - 1], uid) ||
     (!StartsPoll(states[i - 1], events[i - 1], uid) && Woken(size, states, events, i - 1, uid)))
  }

  /** Not finished: in the slab, or out of it being polled. */
  ghost predicate Alive<V>(s: State<V>, uid: nat) {
    uid < |s.homes| &&
    var id := s.homes[uid].0;
    || (id in s.slab && s.slab[id].Some? && s.slab[id].value.uid == uid)
    || (s.running.Some? && s.running.value.uid == uid)
  }

  /** The id is in its queue or in the unprocessed rest of the current batch. */
  ghost predicate Scheduled<V>(s: State<V>, queue: Queue, id: nat) {
    id in QueueOf(s, queue) || id in Rest(s.phase)
  }

  lemma WakeSchedules<V>(size: nat, s: State<V>, e: Event<V>, uid: nat)
    requires Inv(s) && Enabled(s, e) && Wakes(s, e, uid)
    ensures var t := Apply(size, s, e); uid < |t.homes| && Scheduled(t, t.homes[uid].1, t.homes[uid].0)
  {
  }

  lemma DrainSchedules<V>(size: nat, s: State<V>, queue: Queue, id: nat)
    requires Enabled(s, DrainNormal) && Scheduled(s, queue, id)
    ensures Scheduled(Apply(size, s, DrainNormal), queue, id)
  {
    var batch := Batch(size, s.normal);
    assert s.normal == batch + s.normal[|batch|..];
  }

  lemma NextSchedules<V>(size: nat, s: State<V>, queue: Queue, id: nat)
    requires Enabled(s, Next) && Scheduled(s, queue, id) && Rest(s.phase)[0] != id
    ensures Scheduled(Apply(size, s, Next), queue, id)
  {
    assert Rest(s.phase) == [Rest(s.phase)[0]] + Rest(s.phase)[1..];
  }

  /** Only taking the id from a batch can unschedule it. */
  lemma ScheduledStays<V>(size: nat, s: State<V>, e: Event<V>, queue: Queue, id: nat)
    requires Enabled(s, e) && Scheduled(s, queue, id) && !(e.Next? && Rest(s.phase)[0] == id)
    ensures Scheduled(Apply(size, s, e), queue, id)
  {
    match e
    case DrainNormal => DrainSchedules(size, s, queue, id);
    case Next => NextSchedules(size, s, queue, id);
    case _ =>
  }

  /** The id at the head of a batch, while nothing is being polled, starts a poll of the task it names. */
  lemma HeadStartsPoll<V>(s: State<V>, uid: nat)
    requires Inv(s) && Enabled(s, Next) && Alive(s, uid) && Rest(s.phase)[0] == s.homes[uid].0
    ensures StartsPoll(s, Next, uid)
  {
  }

  /** No lost wakeup: at every moment of every run, an unfinished task that was woken since its last poll
      began is in its queue or in the rest of the current batch, whatever duplicates the queues hold and
      however often its slab key was used before. */
  lemma {:induction false} NoLostWakeup<V>(size: nat, states: seq<State<V>>, events: seq<Event<V>>, i: nat, uid: nat)
    requires IsRun(size, states, events) && i < |states| && Alive(states[i], uid) && Woken(size, states, events, i, uid)
    ensures Scheduled(states[i], states[i].homes[uid].1, states[i].homes[uid].0)
    decreases i
  {
    RunInv(size, states, events, i - 1);
    var s, e := states[i - 1], events[i - 1];
    if Wakes(s, e, uid) {
      WakeSchedules(size, s, e, uid);
    } else {
      AliveBefore(size, s, e, uid);
      NoLostWakeup(size, states, events, i - 1, uid);
      if e.Next? && Rest(s.phase)[0] == s.homes[uid].0 {
        HeadStartsPoll(s, uid);
        assert false;
      }
      ScheduledStays(size, s, e, s.homes[uid].1, s.homes[uid].0);
      HomeKept(size, s, e, uid);
    }
  }

  lemma HomeKept<V>(size: nat, s: State<V>, e: Event<V>, uid: nat)
    requires Enabled(s, e) && uid < |s.homes|
    ensures uid < |Apply(size, s, e).homes| && Apply(size, s, e).homes[uid] == s.homes[uid]
  {
  }

  lemma AliveBefore<V>(size: nat, s: State<V>, e: Event<V>, uid: nat)
    requires Inv(s) && Enabled(s, e) && Alive(Apply(size, s, e), uid) && !Wakes(s, e, uid)
    ensures Alive(s, uid)
  {
  }

  // ----- join handles -----

  /** The waker registered by the last pending join poll on `uid`. */
  ghost function LastWaiter<V>(size: nat, states: seq<State<V>>, events: seq<Event<V>>, i: nat, uid: nat): Option<Waker>
    requires IsRun(size, states, events) && i < |states|
    decreases i
  {
    if i == 0 then None
    else if events[i - 1] == PollJoin(uid) && states[i - 1].shared[uid].result.None? then states[i - 1].running
    else LastWaiter(size, states, events, i - 1, uid)
  }

  /** The event is the end of task `uid`'s last poll. */
  ghost predicate Finishes<V>(s: State<V>, e: Event<V>, uid: nat) {
    e.EndPoll? && e.done.Some? && s.running.Some? && s.running.value.uid == uid
  }

  lemma NextAlive<V>(size: nat, s: State<V>, uid: nat)
    requires Inv(s) && Enabled(s, Next) && uid < |s.homes|
    ensures Alive(Apply(size, s, Next), uid) == Alive(s, uid)
  {
  }

  lemma EndAlive<V>(size: nat, s: State<V>, done: Option<V>, uid: nat)
    requires Inv(s) && Enabled(s, EndPoll(done)) && uid < |s.homes|
    ensures Alive(Apply(size, s, EndPoll(done)), uid) == (Alive(s, uid) && !Finishes(s, EndPoll(done), uid))
    ensures Finishes(s, EndPoll(done), uid) ==> Alive(s, uid)
  {
  }

  /** A task lives until the poll that finishes it ends. */
  lemma AliveStep<V>(size: nat, s: State<V>, e: Event<V>, uid: nat)
    requires Inv(s) && Enabled(s, e) && uid < |s.homes|
    ensures Alive(Apply(size, s, e), uid) == (Alive(s, uid) && !Finishes(s, e, uid)) && (Finishes(s, e, uid) ==> Alive(s, uid))
  {
    match e
    case Next => NextAlive(size, s, uid);
    case EndPoll(done) => EndAlive(size, s, done, uid);
    case _ =>
  }

  /** What happens to the state a task shares with its handle. */
  lemma SharedStep<V>(size: nat, s: State<V>, e: Event<V>, uid: nat)
    requires |s.shared| == |s.homes| && Enabled(s, e) && uid < |s.shared|
    ensures var t := Apply(size, s, e);
      && uid < |t.shared| == |t.homes|
      && t.shared[uid] ==
         if Finishes(s, e, uid) then Shared(e.done, None)
         else if e != PollJoin(uid) then s.shared[uid]
         else if s.shared[uid].result.Some? then s.shared[uid].(result := None)
         else s.shared[uid].(waiter := s.running)
  {
  }

  lemma WaiterStep<V>(size: nat, s: State<V>, e: Event<V>, uid: nat)
    requires Inv(s) && Enabled(s, e) && uid < |s.homes| && Alive(Apply(size, s, e), uid)
    ensures var t := Apply(size, s, e);
      && |t.shared| == |t.homes| && Alive(s, uid) && uid < |t.shared|
      && t.shared[uid].waiter == (if e == PollJoin(uid) && s.shared[uid].result.None? then s.running else s.shared[uid].waiter)
  {
    AliveStep(size, s, e, uid);
    SharedStep(size, s, e, uid);
  }

  lemma NewTaskUnshared<V>(size: nat, s: State<V>, e: Event<V>, uid: nat)
    requires Inv(s) && Enabled(s, e) && uid >= |s.homes| && Alive(Apply(size, s, e), uid)
    ensures uid < |Apply(size, s, e).shared| && Apply(size, s, e).shared[uid] == Shared(None, None)
  {
  }

  lemma {:induction false} WaiterIsLast<V>(size: nat, states: seq<State<V>>, events: seq<Event<V>>, i: nat, uid: nat)
    requires IsRun(size, states, events) && i < |states| && Alive(states[i], uid)
    ensures Inv(states[i]) && states[i].shared[uid].waiter == LastWaiter(size, states, events, i, uid)
    decreases i
  {
    RunInv(size, states, events, i);
    if i > 0 {
      RunInv(size, states, events, i - 1);
      if uid < |states[i - 1].homes| {
        WaiterStep(size, states[i - 1], events[i - 1], uid);
        WaiterIsLast(size, states, events, i - 1, uid);
      } else {
        NewTaskUnshared(size, states[i - 1], events[i - 1], uid);
        NotYetSpawned(size, states, events, i - 1, uid);
      }
    }
  }

  /** Nothing happens to the handle of a task that has not been spawned. */
  lemma {:induction false} NotYetSpawned<V>(size: nat, states: seq<State<V>>, events: seq<Event<V>>, i: nat, uid: nat)
    requires IsRun(size, states, events) && i < |states| && uid >= |states[i].homes|
    ensures LastWaiter(size, states, events, i, uid) == None
    ensures Produced(size, states, events, i, uid) == [] && Taken(size, states, events, i, uid) == []
    decreases i
  {
    if i > 0 {
      RunInv(size, states, events, i - 1);
      UnspawnedUntouched(size, states[i - 1], events[i - 1], uid);
      NotYetSpawned(size, states, events, i - 1, uid);
    }
  }

  lemma UnspawnedUntouched<V>(size: nat, s: State<V>, e: Event<V>, uid: nat)
    requires Inv(s) && Enabled(s, e) && uid >= |Apply(size, s, e).homes|
    ensures uid >= |s.homes| && e != PollJoin(uid) && !(e.EndPoll? && s.running.value.uid == uid)
  {
  }

  /** Completion: the result is stored and the task that last saw the handle pending is enqueued. */
  lemma CompletionWakesWaiter<V>(size: nat, states: seq<State<V>>, events: seq<Event<V>>, i: nat)
    requires IsRun(size, states, events) && i < |events| && events[i].EndPoll? && events[i].done.Some?
    ensures var s, t := states[i], states[i + 1];
      var uid := s.running.value.uid;
      && uid < |t.shared| && t.shared[uid].result == events[i].done && !Alive(t, uid)
      && match LastWaiter(size, states, events, i, uid)
         case None => t.normal == s.normal && t.polling == s.polling
         case Some(w) => QueueOf(t, w.queue) == QueueOf(s, w.queue) + [w.id] && Woken(size, states, events, i + 1, w.uid)
  {
    RunInv(size, states, events, i);
    WaiterIsLast(size, states, events, i, states[i].running.value.uid);
  }

  /** The values task `uid` finished with, and the values join polls took, up to `i`. */
  ghost function Produced<V>(size: nat, states: seq<State<V>>, events: seq<Event<V>>, i: nat, uid: nat): seq<V>
    requires IsRun(size, states, events) && i < |states|
    decreases i
  {
    if i == 0 then []
    else
      Produced(size, states, events, i - 1, uid) +
      if events[i - 1].EndPoll? && events[i - 1].done.Some? && states[i - 1].running.value.uid == uid
      then [events[i - 1].done.value] else []
  }

  ghost function Taken<V>(size: nat, states: seq<State<V>>, events: seq<Event<V>>, i: nat, uid: nat): seq<V>
    requires IsRun(size, states, events) && i < |states|
    decreases i
  {
    if i == 0 then []
    else
      Taken(size, states, events, i - 1, uid) +
      if events[i - 1] == PollJoin(uid) && states[i - 1].shared[uid].result.Some?
      then [states[i - 1].shared[uid].result.value] else []
  }

  /** `Produced`, `Taken` and the stored result of one task, as a ledger. */
  ghost predicate Balanced<V>(size: nat, states: seq<State<V>>, events: seq<Event<V>>, i: nat, uid: nat)
    requires IsRun(size, states, events) && i < |states| && uid < |states[i].shared|
  {
    var p := Produced(size, states, events, i, uid);
    && p == Taken(size, states, events, i, uid) + Stored(states[i].shared[uid].result)
    && |p| == (if Alive(states[i], uid) then 0 else 1)
  }

  function Stored<V>(result: Option<V>): seq<V> { match result case Some(v) => [v] case None => [] }

  /** A task finishes at most once, and its result is taken at most once: what was produced is what was
      taken, followed by what still waits in the shared state. */
  lemma {:induction false} ResultTakenOnce<V>(size: nat, states: seq<State<V>>, events: seq<Event<V>>, i: nat, uid: nat)
    requires IsRun(size, states, events) && i < |states| && uid < |states[i].homes|
    ensures uid < |states[i].shared| && Balanced(size, states, events, i, uid)
    decreases i
  {
    RunInv(size, states, events, i);
    if i > 0 {
      RunInv(size, states, events, i - 1);
      if uid < |states[i - 1].homes| {
        ResultTakenOnce(size, states, events, i - 1, uid);
        BalancedStep(size, states, events, i - 1, uid);
      } else {
        NotYetSpawned(size, states, events, i - 1, uid);
        SpawnedNow(size, states[i - 1], events[i - 1], uid);
      }
    }
  }

  lemma SpawnedNow<V>(size: nat, s: State<V>, e: Event<V>, uid: nat)
    requires Inv(s) && Enabled(s, e) && |s.homes| <= uid < |Apply(size, s, e).homes|
    ensures e.Spawn? && Alive(Apply(size, s, e), uid) && Apply(size, s, e).shared[uid] == Shared(None, None)
  {
  }

  lemma BalancedStep<V>(size: nat, states: seq<State<V>>, events: seq<Event<V>>, i: nat, uid: nat)
    requires IsRun(size, states, events) && i < |events| && Inv(states[i]) && uid < |states[i].homes|
    requires Balanced(size, states, events, i, uid) && uid < |states[i + 1].shared|
    ensures Balanced(size, states, events, i + 1, uid)
  {
    var s, e := states[i], events[i];
    ResultStep(size, s, e, uid);
    var p, t := Produced(size, states, events, i, uid), Taken(size, states, events, i, uid);
    assert p + [] == p && t + [] == t;
    if e == PollJoin(uid) && s.shared[uid].result.Some? {
      assert t + [s.shared[uid].result.value] + [] == p;
    }
  }

  lemma ResultStep<V>(size: nat, s: State<V>, e: Event<V>, uid: nat)
    requires Inv(s) && Enabled(s, e) && uid < |s.homes|
    ensures var t := Apply(size, s, e);
      var takes := e == PollJoin(uid) && s.shared[uid].result.Some?;
      && uid < |t.homes| && uid < |t.shared|
      && Alive(t, uid) == (Alive(s, uid) && !Finishes(s, e, uid)) && (Finishes(s, e, uid) ==> Alive(s, uid))
      && t.shared[uid].result == (if Finishes(s, e, uid) then e.done else if takes then None else s.shared[uid].result)
      && (Alive(s, uid) ==> s.shared[uid].result.None?)
  {
    AliveStep(size, s, e, uid);
    SharedStep(size, s, e, uid);
  }
}
