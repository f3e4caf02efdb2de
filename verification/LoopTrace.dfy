/** What the run loop does with the futures it polls: the events of one poll, of a batch, of an iteration and
    of a whole run of the loop, and why the loop comes to an end. A future is given by its behaviour: what
    task `uid` does when its poll is the `k`-th of the run. */
module LoopTrace {
  import opened Executor

  /** What a future does during one poll. It may wake any task it could hold a waker of. */
  datatype Effect = WakeTask(uid: nat) | SpawnTask(queue: Queue) | Await(uid: nat)

  /** `done` is the output if this poll finishes the future. */
  datatype PollScript<+V> = PollScript(effects: seq<Effect>, done: Option<V>)

  type Behaviour<V> = (nat, nat) -> PollScript<V>

  function Spawns(effects: seq<Effect>): nat {
    if effects == [] then 0
    else Spawns(effects[..|effects| - 1]) + (if effects[|effects| - 1].SpawnTask? then 1 else 0)
  }

  /** The events of the effects, in order; `known` tasks exist before and `wakers` lists all that exist
      after. */
  ghost function Performed<V>(known: nat, wakers: seq<(nat, Queue)>, effects: seq<Effect>): seq<Event<V>>
    requires |wakers| >= known + Spawns(effects)
  {
    if effects == [] then []
    else
      var init := effects[..|effects| - 1];
      var n := known + Spawns(init);
      Performed(known, wakers, init) + EventOf(n, wakers, effects[|effects| - 1])
  }

  /** The event of one effect when `n` tasks exist before it; an effect on a task that does not exist yet
      is none. */
  ghost function EventOf<V>(n: nat, wakers: seq<(nat, Queue)>, effect: Effect): seq<Event<V>>
    requires |wakers| >= n + if effect.SpawnTask? then 1 else 0
  {
    match effect
    case WakeTask(uid) => if uid < n then [Event.Wake(Waker(wakers[uid].0, wakers[uid].1, uid))] else []
    case SpawnTask(queue) => [Event.Spawn(wakers[n].0, queue)]
    case Await(uid) => if uid < n then [Event.PollJoin(uid)] else []
  }

  lemma OneMoreEffect<V>(before: seq<Event<V>>, known: nat, wakers: seq<(nat, Queue)>, effects: seq<Effect>, i: nat)
    requires i < |effects| && |wakers| >= known + Spawns(effects[..i]) + (if effects[i].SpawnTask? then 1 else 0)
    ensures Spawns(effects[..i + 1]) == Spawns(effects[..i]) + (if effects[i].SpawnTask? then 1 else 0)
    ensures before + Performed(known, wakers, effects[..i]) + EventOf(known + Spawns(effects[..i]), wakers, effects[i]) ==
            before + Performed(known, wakers, effects[..i + 1])
  {
    assert effects[..i + 1][..i] == effects[..i];
  }

  /** The event carries the effect out. */
  ghost predicate Carries<V>(e: Event<V>, wakers: seq<(nat, Queue)>, effect: Effect) {
    match effect
    case WakeTask(uid) => uid < |wakers| && e == Event.Wake(Waker(wakers[uid].0, wakers[uid].1, uid))
    case SpawnTask(queue) => e.Spawn? && e.queue == queue
    case Await(uid) => e == Event.PollJoin(uid)
  }

  /** No effect on an existing task is lost, and no spawn. */
  lemma {:induction false} EffectHappens<V>(known: nat, wakers: seq<(nat, Queue)>, effects: seq<Effect>, k: nat) returns (i: nat)
    requires |wakers| >= known + Spawns(effects) && k < |effects|
    requires effects[k].SpawnTask? || effects[k].uid < known
    ensures i < |Performed<V>(known, wakers, effects)| && Carries(Performed<V>(known, wakers, effects)[i], wakers, effects[k])
  {
    var last := |effects| - 1;
    if k < last {
      i := EffectHappens<V>(known, wakers, effects[..last], k);
    } else {
      i := |Performed<V>(known, wakers, effects[..last])|;
    }
  }

  function Wakeups(uids: seq<nat>): (effects: seq<Effect>)
    ensures Spawns(effects) == 0 && |effects| == |uids| && forall i :: 0 <= i < |uids| ==> effects[i] == WakeTask(uids[i])
  {
    WakeupsSpawnNothing(seq(|uids|, i requires 0 <= i < |uids| => WakeTask(uids[i])));
    seq(|uids|, i requires 0 <= i < |uids| => WakeTask(uids[i]))
  }

  lemma {:induction false} WakeupsSpawnNothing(effects: seq<Effect>)
    requires forall i :: 0 <= i < |effects| ==> effects[i].WakeTask?
    ensures Spawns(effects) == 0
  {
    if effects != [] {
      WakeupsSpawnNothing(effects[..|effects| - 1]);
    }
  }

  lemma {:induction false} PerformedGrows<V>(known: nat, ws: seq<(nat, Queue)>, longer: seq<(nat, Queue)>, effects: seq<Effect>)
    requires |ws| >= known + Spawns(effects) && ws <= longer
    ensures Performed<V>(known, ws, effects) == Performed<V>(known, longer, effects)
  {
    if effects != [] {
      PerformedGrows<V>(known, ws, longer, effects[..|effects| - 1]);
    }
  }

  // ----- the record of a run -----

  /** A place in a run, and the number of polls made before it. */
  datatype Mark = Mark(at: nat, polls: nat)

  ghost predicate HoldsTask<V>(s: State<V>, id: nat) { id in s.slab && s.slab[id].Some? }

  /** From `a` to `b` the loop served `id`, the head of its batch: it skipped an id without a task, and
      otherwise took the task out, did all that the behaviour says, and ended the poll as it says. */
  ghost predicate Served<V>(states: seq<State<V>>, events: seq<Event<V>>, a: Mark, b: Mark, id: nat, behaviour: Behaviour<V>) {
    && a.at < b.at <= |events| < |states|
    && Rest(states[a.at].phase) != [] && Rest(states[a.at].phase)[0] == id
    && if HoldsTask(states[a.at], id) then
         Polled(states, events, a, b, behaviour(states[a.at].slab[id].value.uid, a.polls))
       else
         b == Mark(a.at + 1, a.polls) && events[a.at] == Next
  }

  ghost predicate Polled<V>(states: seq<State<V>>, events: seq<Event<V>>, a: Mark, b: Mark, script: PollScript<V>)
    requires a.at < b.at <= |events| < |states|
  {
    var known, wakers := |states[a.at].homes|, states[b.at].homes;
    && b.polls == a.polls + 1 && |wakers| >= known + Spawns(script.effects)
    && events[a.at..b.at] == [Next] + Performed(known, wakers, script.effects) + [EndPoll(script.done)]
  }

  /** The ids of a batch, one after the other. */
  ghost predicate BatchServed<V>(states: seq<State<V>>, events: seq<Event<V>>, marks: seq<Mark>, ids: seq<nat>, behaviour: Behaviour<V>) {
    |marks| == |ids| + 1 && forall i :: 0 <= i < |ids| ==> Served(states, events, marks[i], marks[i + 1], ids[i], behaviour)
  }

  /** Where the parts of one iteration lie. */
  datatype Turn = Turn(start: Mark, polling: seq<Mark>, normal: seq<Mark>, end: Mark)

  /** The polling queue is drained, the reactors wake `woken`, the drained ids are served. */
  ghost predicate PollingServed<V>(states: seq<State<V>>, events: seq<Event<V>>, start: Mark, marks: seq<Mark>,
                                   woken: seq<nat>, behaviour: Behaviour<V>) {
    && |states| == |events| + 1 && |marks| > 0 && start.at < marks[0].at <= |events| && marks[0].polls == start.polls
    && events[start.at] == DrainPolling
    && events[start.at + 1..marks[0].at] ==
         Performed(|states[start.at].homes|, states[start.at].homes, Wakeups(woken))
    && BatchServed(states, events, marks, states[start.at].polling, behaviour)
  }

  /** One batch of the normal queue is drained and served. */
  ghost predicate NormalServed<V>(size: nat, states: seq<State<V>>, events: seq<Event<V>>, start: Mark, marks: seq<Mark>,
                                  behaviour: Behaviour<V>) {
    && |states| == |events| + 1 && start.at < |events| && |marks| > 0 && marks[0] == Mark(start.at + 1, start.polls)
    && events[start.at] == DrainNormal
    && BatchServed(states, events, marks, Batch(size, states[start.at].normal), behaviour)
  }

  ghost predicate Iteration<V>(size: nat, states: seq<State<V>>, events: seq<Event<V>>, t: Turn, woken: seq<nat>, behaviour: Behaviour<V>) {
    && PollingServed(states, events, t.start, t.polling, woken, behaviour)
    && NormalServed(size, states, events, t.polling[|t.polling| - 1], t.normal, behaviour)
    && var last := t.normal[|t.normal| - 1];
    && last.at < |events| && events[last.at] == EndIteration && t.end == Mark(last.at + 1, last.polls)
  }

  /** A run of the loop from event `from` to the end of the record: iteration after iteration. */
  ghost predicate Looped<V>(size: nat, states: seq<State<V>>, events: seq<Event<V>>, from: nat, turns: seq<Turn>,
                            behaviour: Behaviour<V>, reactors: nat -> seq<nat>) {
    && (forall i :: 0 <= i < |turns| ==> Turned(size, states, events, from, turns, i, behaviour, reactors))
    && Reached(from, turns, |turns|).at == |events|
  }

  ghost predicate Turned<V>(size: nat, states: seq<State<V>>, events: seq<Event<V>>, from: nat, turns: seq<Turn>, i: nat,
                            behaviour: Behaviour<V>, reactors: nat -> seq<nat>)
    requires i < |turns|
  {
    turns[i].start == Reached(from, turns, i) && Iteration(size, states, events, turns[i], reactors(i), behaviour)
  }

  /** Where iteration `i` starts. */
  ghost function Reached(from: nat, turns: seq<Turn>, i: nat): Mark
    requires i <= |turns|
  {
    if i == 0 then Mark(from, 0) else turns[i - 1].end
  }

  // ----- a record can only grow -----

  /** The events determine the states. */
  lemma {:induction false} SameStates<V>(size: nat, states: seq<State<V>>, events: seq<Event<V>>,
                                         states': seq<State<V>>, events': seq<Event<V>>, i: nat)
    requires IsRun(size, states, events) && IsRun(size, states', events') && events <= events' && i <= |events|
    ensures states[i] == states'[i]
  {
    if i > 0 {
      SameStates(size, states, events, states', events', i - 1);
      assert events[i - 1] == events'[i - 1];
    }
  }

  /** One record is the beginning of another. */
  ghost predicate Grown<V>(states: seq<State<V>>, events: seq<Event<V>>, states': seq<State<V>>, events': seq<Event<V>>) {
    |states| == |events| + 1 && |states'| == |events'| + 1 && events <= events' && states <= states'
  }

  lemma RecordGrows<V>(size: nat, states: seq<State<V>>, events: seq<Event<V>>, states': seq<State<V>>, events': seq<Event<V>>)
    requires IsRun(size, states, events) && IsRun(size, states', events') && events <= events'
    ensures Grown(states, events, states', events')
  {
    forall i | 0 <= i < |states| ensures states[i] == states'[i] {
      SameStates(size, states, events, states', events', i);
    }
  }

  lemma ServedGrows<V>(states: seq<State<V>>, events: seq<Event<V>>, states': seq<State<V>>, events': seq<Event<V>>,
                       a: Mark, b: Mark, id: nat, behaviour: Behaviour<V>)
    requires Grown(states, events, states', events') && Served(states, events, a, b, id, behaviour)
    ensures Served(states', events', a, b, id, behaviour)
  {
    assert events[a.at..b.at] == events'[a.at..b.at];
  }

  lemma BatchGrows<V>(states: seq<State<V>>, events: seq<Event<V>>, states': seq<State<V>>, events': seq<Event<V>>,
                      marks: seq<Mark>, ids: seq<nat>, behaviour: Behaviour<V>)
    requires Grown(states, events, states', events') && BatchServed(states, events, marks, ids, behaviour)
    ensures BatchServed(states', events', marks, ids, behaviour)
  {
    forall i | 0 <= i < |ids| ensures Served(states', events', marks[i], marks[i + 1], ids[i], behaviour) {
      ServedGrows(states, events, states', events', marks[i], marks[i + 1], ids[i], behaviour);
    }
  }

  lemma PollingGrows<V>(states: seq<State<V>>, events: seq<Event<V>>, states': seq<State<V>>, events': seq<Event<V>>,
                        start: Mark, marks: seq<Mark>, woken: seq<nat>, behaviour: Behaviour<V>)
    requires Grown(states, events, states', events') && PollingServed(states, events, start, marks, woken, behaviour)
    ensures PollingServed(states', events', start, marks, woken, behaviour)
  {
    BatchGrows(states, events, states', events', marks, states[start.at].polling, behaviour);
    assert events[start.at + 1..marks[0].at] == events'[start.at + 1..marks[0].at];
  }

  lemma NormalGrows<V>(size: nat, states: seq<State<V>>, events: seq<Event<V>>, states': seq<State<V>>, events': seq<Event<V>>,
                       start: Mark, marks: seq<Mark>, behaviour: Behaviour<V>)
    requires Grown(states, events, states', events') && NormalServed(size, states, events, start, marks, behaviour)
    ensures NormalServed(size, states', events', start, marks, behaviour)
  {
    BatchGrows(states, events, states', events', marks, Batch(size, states[start.at].normal), behaviour);
  }

  lemma IterationGrows<V>(size: nat, states: seq<State<V>>, events: seq<Event<V>>, states': seq<State<V>>, events': seq<Event<V>>,
                          t: Turn, woken: seq<nat>, behaviour: Behaviour<V>)
    requires Grown(states, events, states', events') && Iteration(size, states, events, t, woken, behaviour)
    ensures Iteration(size, states', events', t, woken, behaviour)
  {
    PollingGrows(states, events, states', events', t.start, t.polling, woken, behaviour);
    NormalGrows(size, states, events, states', events', t.polling[|t.polling| - 1], t.normal, behaviour);
  }

  lemma PollRecorded<V>(states: seq<State<V>>, events: seq<Event<V>>, before: seq<Event<V>>, known: nat, wakers: seq<(nat, Queue)>,
                        polls: nat, script: PollScript<V>)
    requires |states| == |events| + 1 && |wakers| >= known + Spawns(script.effects)
    requires events == before + [Next] + Performed(known, wakers, script.effects) + [EndPoll(script.done)]
    requires |states[|before|].homes| == known && states[|events|].homes == wakers
    ensures Polled(states, events, Mark(|before|, polls), Mark(|events|, polls + 1), script)
  {
  }

  /** One more id of a batch. */
  lemma BatchExtends<V>(states: seq<State<V>>, events: seq<Event<V>>, states': seq<State<V>>, events': seq<Event<V>>,
                        marks: seq<Mark>, ids: seq<nat>, next: Mark, id: nat, behaviour: Behaviour<V>)
    requires Grown(states, events, states', events') && BatchServed(states, events, marks, ids, behaviour)
    requires Served(states', events', marks[|ids|], next, id, behaviour)
    ensures BatchServed(states', events', marks + [next], ids + [id], behaviour)
  {
    BatchGrows(states, events, states', events', marks, ids, behaviour);
  }

  lemma TurnedGrows<V>(size: nat, states: seq<State<V>>, events: seq<Event<V>>, states': seq<State<V>>, events': seq<Event<V>>,
                       from: nat, turns: seq<Turn>, t: Turn, i: nat, behaviour: Behaviour<V>, reactors: nat -> seq<nat>)
    requires Grown(states, events, states', events') && i < |turns|
    requires Turned(size, states, events, from, turns, i, behaviour, reactors)
    ensures Turned(size, states', events', from, turns + [t], i, behaviour, reactors)
  {
    IterationGrows(size, states, events, states', events', turns[i], reactors(i), behaviour);
  }

  /** One more iteration. */
  lemma LoopedExtends<V>(size: nat, states: seq<State<V>>, events: seq<Event<V>>, states': seq<State<V>>, events': seq<Event<V>>,
                         from: nat, turns: seq<Turn>, t: Turn, behaviour: Behaviour<V>, reactors: nat -> seq<nat>)
    requires Grown(states, events, states', events') && Looped(size, states, events, from, turns, behaviour, reactors)
    requires t.start == Reached(from, turns, |turns|) && t.end.at == |events'|
    requires Turned(size, states', events', from, turns + [t], |turns|, behaviour, reactors)
    ensures Looped(size, states', events', from, turns + [t], behaviour, reactors)
  {
    var more := turns + [t];
    forall i | 0 <= i < |more| ensures Turned(size, states', events', from, more, i, behaviour, reactors) {
      if i < |turns| {
        TurnedGrows(size, states, events, states', events', from, turns, t, i, behaviour, reactors);
      }
    }
  }
}
