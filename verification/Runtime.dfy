/** The run loop as the source runs it, on mutable queues, buffers and slab. The object records the events
    it goes through; `Valid` says that this record is a run of the machine in `Executor` that ends in the
    object's present state, so everything proved about runs holds of it. */
module Runtime {
  import opened Executor
  import opened LoopTrace
  import opened LoopEnds

  class Loop<V> {
    var slab: map<nat, Option<Task>>
    var normal: seq<nat>
    var polling: seq<nat>
    var pollingBuffer: seq<nat>
    var taskBuffer: seq<nat>
    var shared: seq<Shared<V>>
    var wakers: seq<(nat, Queue)>
    const batchSize: nat
    ghost var phase: Phase
    ghost var running: Option<Waker>
    ghost var states: seq<State<V>>
    ghost var events: seq<Event<V>>

    ghost function View(): State<V>
      reads this
    {
      State(slab, normal, polling, phase, running, shared, wakers)
    }

    ghost predicate Valid()
      reads this
    {
      && IsRun(batchSize, states, events)
      && states[|events|] == View()
    }

    constructor (batchSize: nat)
      ensures Valid() && this.batchSize == batchSize && events == [] && phase == Top
    {
      slab, normal, polling, pollingBuffer, taskBuffer, shared, wakers := map[], [], [], [], [], [], [];
      this.batchSize := batchSize;
      phase, running := Top, None;
      states := [State(map[], [], [], Top, None, [], [])];
      events := [];
    }

    /** Notes an event that has just been carried out. */
    ghost method Record(e: Event<V>)
      requires IsRun(batchSize, states, events) && Enabled(states[|events|], e)
      requires View() == Apply(batchSize, states[|events|], e)
      modifies `states, `events
      ensures Valid() && events == old(events) + [e]
    {
      states, events := states + [View()], events + [e];
    }

    /** `spawn` and `spawn_polling`: insert, then enqueue the key. */
    method Spawn(queue: Queue) returns (key: nat)
      requires Valid()
      modifies `slab, `shared, `wakers, `normal, `polling, `states, `events
      ensures Valid() && events == old(events) + [Event.Spawn(key, queue)] && wakers == old(wakers) + [(key, queue)]
    {
      key := VacantKey();
      slab := slab[key := Some(Task(|wakers|, queue))];
      shared := shared + [Shared(None, None)];
      wakers := wakers + [(key, queue)];
      Push(queue, key);
      Record(Event.Spawn(key, queue));
    }

    /** The slab gives out some key that is not in use. */
    method VacantKey() returns (key: nat)
      ensures key !in slab
    {
      key := 0;
      ghost var seen: set<nat> := {};
      while key in slab
        invariant seen <= slab.Keys && |seen| == key && (forall k: nat :: k in seen <==> k < key)
        decreases |slab.Keys| - key
      {
        seen := seen + {key};
        Subset(seen, slab.Keys);
        key := key + 1;
      }
    }

    static lemma Subset(a: set<nat>, b: set<nat>)
      requires a <= b
      ensures |a| <= |b|
    {
      assert b == a + (b - a);
    }

    method Push(queue: Queue, id: nat)
      modifies `normal, `polling
      ensures View() == Pushed(old(View()), queue, id)
    {
      match queue
      case NormalQueue => normal := normal + [id];
      case PollingQueue => polling := polling + [id];
    }

    /** `wake`, `wake_by_ref`: send the id on the task's own queue. */
    method Wake(w: Waker)
      requires Valid() && Genuine(View(), w)
      modifies `normal, `polling, `states, `events
      ensures Valid() && events == old(events) + [Event.Wake(w)]
    {
      Push(w.queue, w.id);
      Record(Event.Wake(w));
    }

    /** `JoinHandle::poll` by the running task. */
    method PollJoin(uid: nat, waker: Waker) returns (r: Option<V>)
      requires Valid() && running == Some(waker) && uid < |shared|
      modifies `shared, `states, `events
      ensures Valid() && events == old(events) + [Event.PollJoin(uid)]
      ensures r == old(shared[uid].result)
    {
      r := shared[uid].result;
      if r.Some? {
        shared := shared[uid := shared[uid].(result := None)];
      } else {
        shared := shared[uid := shared[uid].(waiter := Some(waker))];
      }
      Record(Event.PollJoin(uid));
    }

    /** Everything in the polling queue now, and nothing that is enqueued later. */
    method DrainPollingQueue()
      requires Valid() && phase == Top && running == None
      modifies `polling, `pollingBuffer, `phase, `states, `events
      ensures Valid() && events == old(events) + [DrainPolling] && phase == PollingBatch(pollingBuffer)
      ensures pollingBuffer == old(polling)
    {
      ghost var all := polling;
      pollingBuffer := [];
      while polling != []
        invariant |pollingBuffer| <= |all| && pollingBuffer == all[..|pollingBuffer|] && polling == all[|pollingBuffer|..]
        invariant phase == old(phase) && states == old(states) && events == old(events)
        decreases |polling|
      {
        pollingBuffer := pollingBuffer + [polling[0]];
        polling := polling[1..];
      }
      assert pollingBuffer == all && polling == [];
      phase := PollingBatch(pollingBuffer);
      Record(DrainPolling);
    }

    /** Up to one batch from the front of the normal queue. */
    method DrainNormalQueue()
      requires Valid() && phase == PollingBatch([]) && running == None
      modifies `normal, `taskBuffer, `phase, `states, `events
      ensures Valid() && events == old(events) + [DrainNormal] && phase == NormalBatch(taskBuffer)
      ensures taskBuffer == Batch(batchSize, old(normal))
    {
      ghost var all := normal;
      taskBuffer := [];
      var i := 0;
      while i < batchSize && normal != []
        invariant 0 <= i <= batchSize && i <= |all| && taskBuffer == all[..i] && normal == all[i..]
        invariant phase == old(phase) && states == old(states) && events == old(events)
      {
        taskBuffer := taskBuffer + [normal[0]];
        normal := normal[1..];
        i := i + 1;
      }
      assert taskBuffer == Batch(batchSize, all);
      phase := NormalBatch(taskBuffer);
      Record(DrainNormal);
    }

    /** One effect. */
    method Effectuate(effect: Effect, waker: Waker)
      requires Valid() && running == Some(waker)
      modifies `slab, `shared, `wakers, `normal, `polling, `states, `events
      ensures Valid() && old(wakers) <= wakers && |wakers| == |old(wakers)| + (if effect.SpawnTask? then 1 else 0)
      ensures events == old(events) + EventOf(|old(wakers)|, wakers, effect)
    {
      RunInv(batchSize, states, events, |events|);
      assert events + [] == events;
      match effect
      case WakeTask(uid) =>
        if uid < |wakers| {
          Wake(Waker(wakers[uid].0, wakers[uid].1, uid));
        }
      case SpawnTask(queue) =>
        var key := Spawn(queue);
      case Await(uid) =>
        if uid < |shared| {
          var r := PollJoin(uid, waker);
        }
    }

    /** What the future does before its poll returns. */
    method Perform(effects: seq<Effect>, waker: Waker)
      requires Valid() && running == Some(waker)
      modifies `slab, `shared, `wakers, `normal, `polling, `states, `events
      ensures Valid() && |wakers| == |old(wakers)| + Spawns(effects)
      ensures events == old(events) + Performed(|old(wakers)|, wakers, effects)
    {
      ghost var before, known := events, |wakers|;
      for i := 0 to |effects|
        invariant Valid() && |wakers| == known + Spawns(effects[..i])
        invariant events == before + Performed(known, wakers, effects[..i])
      {
        ghost var was := wakers;
        Effectuate(effects[i], waker);
        PerformedGrows<V>(known, was, wakers, effects[..i]);
        OneMoreEffect(before, known, wakers, effects, i);
      }
      assert effects[..|effects|] == effects;
    }

    /** Wakes from outside any poll: reactors call the wakers they hold. */
    method WakeAll(uids: seq<nat>)
      requires Valid() && running == None
      modifies `normal, `polling, `states, `events
      ensures Valid() && events == old(events) + Performed(|wakers|, wakers, Wakeups(uids))
    {
      ghost var before := events;
      assert before + [] == before;
      for i := 0 to |uids|
        invariant Valid()
        invariant events == before + Performed(|wakers|, wakers, Wakeups(uids[..i]))
      {
        assert Wakeups(uids[..i + 1])[..i] == Wakeups(uids[..i]);
        assert events + [] == events;
        if uids[i] < |wakers| {
          Wake(Waker(wakers[uids[i]].0, wakers[uids[i]].1, uids[i]));
        }
      }
      assert uids[..|uids|] == uids;
    }

    /** One id of a batch: skipped, or its task is polled. */
    method ProcessId(id: nat, polls: nat, behaviour: Behaviour<V>) returns (after: nat)
      requires Valid() && running == None && Rest(phase) != [] && Rest(phase)[0] == id
      modifies this
      ensures Valid() && running == None && phase == WithRest(old(phase), Rest(old(phase))[1..])
      ensures old(events) <= events
      ensures Served(states, events, Mark(|old(events)|, polls), Mark(|events|, after), id, behaviour)
    {
      if id !in slab || slab[id].None? {
        ghost var was, before := states, events;
        phase := WithRest(phase, Rest(phase)[1..]);
        Record(Next);
        RecordGrows(batchSize, was, before, states, events);
        return polls;
      }
      PollTask(id, polls, behaviour(slab[id].value.uid, polls));
      after := polls + 1;
    }

    /** `poll_task` on an id that has a task, and the removal of a finished task. */
    method PollTask(id: nat, ghost polls: nat, script: PollScript<V>)
      requires Valid() && running == None && Rest(phase) != [] && Rest(phase)[0] == id && HoldsTask(View(), id)
      modifies this
      ensures Valid() && running == None && phase == WithRest(old(phase), Rest(old(phase))[1..])
      ensures old(events) < events && old(View()) == states[|old(events)|]
      ensures Polled(states, events, Mark(|old(events)|, polls), Mark(|events|, polls + 1), script)
    {
      ghost var was, before, known := states, events, |wakers|;
      var task := slab[id].value;
      var waker := Waker(id, task.queue, task.uid);
      slab := slab[id := None];
      phase, running := WithRest(phase, Rest(phase)[1..]), Some(waker);
      Record(Next);
      Perform(script.effects, waker);
      var completed := FinishPoll(waker, script.done);
      RecordGrows(batchSize, was, before, states, events);
      PollRecorded(states, events, before, known, wakers, polls, script);
    }

    /** The end of a poll: the task goes back into its slot, or stores its result, wakes whoever joins it
        and is removed. */
    method FinishPoll(waker: Waker, done: Option<V>) returns (completed: bool)
      requires Valid() && running == Some(waker)
      modifies `slab, `shared, `normal, `polling, `running, `states, `events
      ensures Valid() && running == None
      ensures events == old(events) + [EndPoll(done)] && completed == done.Some?
    {
      RunInv(batchSize, states, events, |events|);
      running := None;
      slab := slab[waker.id := Some(Task(waker.uid, waker.queue))];
      if done.Some? {
        var joined := shared[waker.uid].waiter;
        shared := shared[waker.uid := Shared(done, None)];
        slab := slab - {waker.id};
        assert slab == old(slab) - {waker.id};
        if joined.Some? {
          Push(joined.value.queue, joined.value.id);
        }
      }
      Record(EndPoll(done));
      completed := done.Some?;
    }

    /** Polls every id of a drained buffer in order. */
    method RunBatch(buffer: seq<nat>, polls: nat, behaviour: Behaviour<V>) returns (after: nat, ghost marks: seq<Mark>)
      requires Valid() && running == None && !phase.Top? && Rest(phase) == buffer
      modifies this
      ensures Valid() && running == None && phase == WithRest(old(phase), []) && old(events) <= events
      ensures BatchServed(states, events, marks, buffer, behaviour)
      ensures marks[0] == Mark(|old(events)|, polls) && marks[|buffer|] == Mark(|events|, after)
    {
      after, marks := polls, [Mark(|events|, polls)];
      for i := 0 to |buffer|
        invariant Valid() && running == None && phase == WithRest(old(phase), buffer[i..]) && old(events) <= events
        invariant BatchServed(states, events, marks, buffer[..i], behaviour)
        invariant marks[0] == Mark(|old(events)|, polls) && marks[i] == Mark(|events|, after)
      {
        ghost var was, before := states, events;
        after := ProcessId(buffer[i], after, behaviour);
        RecordGrows(batchSize, was, before, states, events);
        BatchExtends(was, before, states, events, marks, buffer[..i], Mark(|events|, after), buffer[i], behaviour);
        marks := marks + [Mark(|events|, after)];
        assert buffer[..i + 1] == buffer[..i] + [buffer[i]];
      }
      assert buffer[..|buffer|] == buffer;
    }

    /** The first half of an iteration; `woken` are the tasks the reactors wake. */
    method RunPolling(polls: nat, behaviour: Behaviour<V>, woken: seq<nat>) returns (after: nat, ghost marks: seq<Mark>)
      requires Valid() && phase == Top && running == None
      modifies this
      ensures Valid() && phase == PollingBatch([]) && running == None && old(events) <= events
      ensures PollingServed(states, events, Mark(|old(events)|, polls), marks, woken, behaviour)
      ensures marks[|marks| - 1] == Mark(|events|, after)
    {
      ghost var was, before := states, events;
      DrainPollingQueue();
      WakeAll(woken);
      ghost var woke := events;
      after, marks := RunBatch(pollingBuffer, polls, behaviour);
      RecordGrows(batchSize, was, before, states, events);
      assert events[|before| + 1..|woke|] == woke[|before| + 1..];
    }

    /** The second half. */
    method RunNormal(polls: nat, behaviour: Behaviour<V>) returns (after: nat, ghost marks: seq<Mark>)
      requires Valid() && phase == PollingBatch([]) && running == None
      modifies this
      ensures Valid() && phase == NormalBatch([]) && running == None && old(events) <= events
      ensures NormalServed(batchSize, states, events, Mark(|old(events)|, polls), marks, behaviour)
      ensures marks[|marks| - 1] == Mark(|events|, after)
    {
      ghost var was, before := states, events;
      DrainNormalQueue();
      after, marks := RunBatch(taskBuffer, polls, behaviour);
      RecordGrows(batchSize, was, before, states, events);
    }

    /** One iteration of the loop. */
    method RunIteration(polls: nat, behaviour: Behaviour<V>, woken: seq<nat>) returns (after: nat, ghost turn: Turn)
      requires Valid() && phase == Top && running == None
      modifies this
      ensures Valid() && phase == Top && running == None && old(events) <= events
      ensures Iteration(batchSize, states, events, turn, woken, behaviour)
      ensures turn.start == Mark(|old(events)|, polls) && turn.end == Mark(|events|, after)
    {
      ghost var start, ps, ns := Mark(|events|, polls), [], [];
      after, ps := RunPolling(polls, behaviour, woken);
      ghost var was, before := states, events;
      after, ns := RunNormal(after, behaviour);
      RecordGrows(batchSize, was, before, states, events);
      PollingGrows(was, before, states, events, start, ps, woken, behaviour);
      was, before := states, events;
      phase := Top;
      Record(EndIteration);
      RecordGrows(batchSize, was, before, states, events);
      PollingGrows(was, before, states, events, start, ps, woken, behaviour);
      NormalGrows(batchSize, was, before, states, events, ps[|ps| - 1], ns, behaviour);
      turn := Turn(start, ps, ns, Mark(|events|, after));
    }

    /** `run_queue`, for at most `limit` iterations: until the slab is empty. `reactors(i)` are the tasks the
        reactors wake in iteration `i`. */
    method RunQueue(limit: nat, behaviour: Behaviour<V>, reactors: nat -> seq<nat>, ghost first: nat, ghost most: nat, ghost silent: nat)
      returns (iterations: nat, ghost turns: seq<Turn>)
      requires Valid() && phase == Top && running == None
      modifies this
      ensures Valid() && phase == Top && running == None && old(events) <= events
      ensures Looped(batchSize, states, events, |old(events)|, turns, behaviour, reactors) && |turns| == iterations <= limit
      ensures slab == map[] || iterations == limit
      ensures EndsIn(limit, behaviour, reactors, first, most, silent, old(View())) ==> slab == map[] || (normal == [] && polling == [])
      ensures EndsIn(limit, behaviour, reactors, first, most, silent, old(View())) && WakesItself(behaviour) && AllQueued(old(View())) ==>
        slab == map[]
    {
      iterations, turns := 0, [];
      var polls := 0;
      while slab != map[] && iterations < limit
        invariant Valid() && phase == Top && running == None && old(events) <= events && |turns| == iterations <= limit
        invariant Looped(batchSize, states, events, |old(events)|, turns, behaviour, reactors)
        invariant Reached(|old(events)|, turns, iterations) == Mark(|events|, polls)
        invariant states[|old(events)|] == old(View())
      {
        ghost var was, before := states, events;
        ghost var turn;
        polls, turn := RunIteration(polls, behaviour, reactors(iterations));
        RecordGrows(batchSize, was, before, states, events);
        LoopedExtends(batchSize, was, before, states, events, |old(events)|, turns, turn, behaviour, reactors);
        turns := turns + [turn];
        iterations := iterations + 1;
      }
      Ends(old(View()), |old(events)|, turns, limit, behaviour, reactors, first, most, silent);
    }

    /** Futures that settle, reactors that fall silent, and iterations enough for the work there is. */
    ghost predicate EndsIn(limit: nat, behaviour: Behaviour<V>, reactors: nat -> seq<nat>, first: nat, most: nat, silent: nat, start: State<V>)
    {
      && batchSize > 0 && Tame(behaviour, first, most) && (forall k :: k >= silent ==> reactors(k) == [])
      && limit >= Enough(first, most, reactors, silent, start)
    }

    lemma Ends(start: State<V>, from: nat, turns: seq<Turn>, limit: nat, behaviour: Behaviour<V>, reactors: nat -> seq<nat>,
               first: nat, most: nat, silent: nat)
      requires Valid() && phase == Top && from <= |events| && states[from] == start
      requires Looped(batchSize, states, events, from, turns, behaviour, reactors) && (slab == map[] || |turns| == limit)
      ensures EndsIn(limit, behaviour, reactors, first, most, silent, start) ==> slab == map[] || (normal == [] && polling == [])
      ensures EndsIn(limit, behaviour, reactors, first, most, silent, start) && WakesItself(behaviour) && AllQueued(start) ==> slab == map[]
    {
      if EndsIn(limit, behaviour, reactors, first, most, silent, start) && slab != map[] {
        LoopComesToRest(batchSize, states, events, from, turns, behaviour, reactors, first, most, silent);
        if WakesItself(behaviour) && AllQueued(start) {
          LoopCompletes(batchSize, states, events, from, turns, behaviour, reactors, first, most, silent);
        }
      }
    }
  }
}
