/** Why the run loop comes to an end: every id it serves lowers a measure of the work that is left, and only
    reactors raise it. */
module LoopEnds {
  import opened Executor
  import opened LoopTrace

  /** No poll has more than `most` effects, and from poll number `first` on every poll finishes its task and
      spawns none. Before that, futures may stay pending, spawn, wake and join as they like. */
  ghost predicate Tame<V>(behaviour: Behaviour<V>, first: nat, most: nat) {
    && (forall uid, k :: |behaviour(uid, k).effects| <= most)
    && (forall uid, k :: k >= first ==> behaviour(uid, k).done.Some? && Spawns(behaviour(uid, k).effects) == 0)
  }

  /** A poll that does not finish its task wakes it, as a task that yields does. */
  ghost predicate WakesItself<V>(behaviour: Behaviour<V>) {
    forall uid, k :: behaviour(uid, k).done.Some? || WakeTask(uid) in behaviour(uid, k).effects
  }

  /** Ids in the queues and in the rest of the batch. */
  ghost function Load<V>(s: State<V>): nat { |s.normal| + |s.polling| + |Rest(s.phase)| }

  ghost function Left(first: nat, polls: nat): nat { if polls < first then first - polls else 0 }

  /** How many polls can still happen. */
  ghost function Credit<V>(first: nat, most: nat, polls: nat, s: State<V>): nat {
    Left(first, polls) * (most + 1) + |s.slab|
  }

  /** How many ids can still be served. */
  ghost function Work<V>(first: nat, most: nat, polls: nat, s: State<V>): nat {
    Load(s) + (most + 1) * Credit(first, most, polls, s)
  }

  // ----- one poll -----

  lemma {:induction false} SpawnsAreEffects(effects: seq<Effect>)
    ensures Spawns(effects) <= |effects|
  {
    if effects != [] {
      SpawnsAreEffects(effects[..|effects| - 1]);
    }
  }

  /** One effect enqueues at most one id. */
  lemma EffectStep<V>(size: nat, s: State<V>, e: Event<V>)
    requires Enabled(s, e) && (e.Spawn? || e.Wake? || e.PollJoin?)
    ensures var t := Apply(size, s, e);
      && Load(t) <= Load(s) + 1 && |t.normal| >= |s.normal| && |t.slab| == |s.slab| + (if e.Spawn? then 1 else 0)
      && t.running == s.running && t.phase == s.phase
  {
  }

  lemma SliceSplit<T>(s: seq<T>, p: nat, q: nat, x: seq<T>, y: seq<T>)
    requires p <= q <= |s| && s[p..q] == x + y
    ensures p + |x| <= q && s[p..p + |x|] == x && s[p + |x|..q] == y
  {
    forall i | 0 <= i < |x| ensures s[p..p + |x|][i] == x[i] {
      assert s[p..q][i] == (x + y)[i];
    }
    forall i | 0 <= i < |y| ensures s[p + |x|..q][i] == y[i] {
      assert s[p..q][|x| + i] == (x + y)[|x| + i];
    }
  }

  /** The record of some effects ends with the event of the last, if there is one. */
  lemma LastEffect<V>(events: seq<Event<V>>, p: nat, q: nat, known: nat, wakers: seq<(nat, Queue)>, effects: seq<Effect>) returns (mid: nat)
    requires p <= q <= |events| && |wakers| >= known + Spawns(effects) && effects != []
    requires events[p..q] == Performed(known, wakers, effects)
    ensures p <= mid <= q <= mid + 1 && events[p..mid] == Performed(known, wakers, effects[..|effects| - 1])
    ensures mid < q ==> [events[mid]] == EventOf(known + Spawns(effects[..|effects| - 1]), wakers, effects[|effects| - 1])
    ensures mid == q ==> EventOf<V>(known + Spawns(effects[..|effects| - 1]), wakers, effects[|effects| - 1]) == []
  {
    var init, last := effects[..|effects| - 1], effects[|effects| - 1];
    var before, event := Performed<V>(known, wakers, init), EventOf<V>(known + Spawns(init), wakers, last);
    SliceSplit(events, p, q, before, event);
    mid := p + |before|;
    AtMostOne(events, mid, q);
  }

  lemma AtMostOne<T>(s: seq<T>, p: nat, q: nat)
    requires p <= q <= |s|
    ensures q == p + 1 ==> s[p..q] == [s[p]]
    ensures |s[p..q]| == q - p
  {
  }

  lemma {:induction false} AfterEffects<V>(size: nat, states: seq<State<V>>, events: seq<Event<V>>, p: nat, q: nat,
                                           known: nat, wakers: seq<(nat, Queue)>, effects: seq<Effect>)
    requires IsRun(size, states, events) && p <= q <= |events| && |wakers| >= known + Spawns(effects)
    requires events[p..q] == Performed(known, wakers, effects)
    ensures Load(states[q]) <= Load(states[p]) + |effects|
    ensures |states[q].slab| == |states[p].slab| + Spawns(effects)
    ensures states[q].running == states[p].running && states[q].phase == states[p].phase
    decreases |effects|
  {
    if effects != [] {
      var mid := LastEffect(events, p, q, known, wakers, effects);
      AfterEffects(size, states, events, p, mid, known, wakers, effects[..|effects| - 1]);
      if mid < q {
        assert events[mid] == [events[mid]][0];
        EffectStep(size, states[mid], events[mid]);
      }
    }
  }

  lemma PollParts<V>(states: seq<State<V>>, events: seq<Event<V>>, a: Mark, b: Mark, script: PollScript<V>)
    requires a.at < b.at <= |events| < |states| && Polled(states, events, a, b, script)
    ensures a.at + 2 <= b.at && events[a.at] == Next && events[b.at - 1] == EndPoll(script.done)
    ensures events[a.at + 1..b.at - 1] == Performed(|states[a.at].homes|, states[b.at].homes, script.effects)
  {
    var did := Performed<V>(|states[a.at].homes|, states[b.at].homes, script.effects);
    SliceSplit(events, a.at, b.at, [Next] + did, [EndPoll(script.done)]);
    assert events[b.at - 1] == events[b.at - 1..b.at][0];
    SliceSplit(events, a.at, b.at - 1, [Next], did);
    assert events[a.at] == events[a.at..a.at + 1][0];
  }

  lemma TakeStep<V>(size: nat, s: State<V>)
    requires Enabled(s, Next) && HoldsTask(s, Rest(s.phase)[0])
    ensures var t := Apply(size, s, Next); Load(t) + 1 == Load(s) && |t.slab| == |s.slab|
  {
    var id := Rest(s.phase)[0];
    assert s.slab[id := None].Keys == s.slab.Keys;
    SameSize(s.slab, s.slab[id := None]);
  }

  lemma {:induction false} SameSize<K, U>(a: map<K, U>, b: map<K, U>)
    requires a.Keys == b.Keys
    ensures |a| == |b|
  {
    assert |a.Keys| == |a| && |b.Keys| == |b|;
  }

  lemma EndLoad<V>(size: nat, s: State<V>, done: Option<V>)
    requires Enabled(s, EndPoll(done))
    ensures Load(Apply(size, s, EndPoll(done))) <= Load(s) + 1
  {
  }

  lemma OneKeyLess<K, U>(a: map<K, U>, k: K)
    requires k in a
    ensures |a - {k}| + 1 == |a|
  {
    assert a.Keys == (a - {k}).Keys + {k};
    assert |a.Keys| == |a| && |(a - {k}).Keys| == |a - {k}|;
  }

  lemma EndSlab<V>(size: nat, s: State<V>, done: Option<V>)
    requires Enabled(s, EndPoll(done)) && s.running.value.id in s.slab
    ensures |Apply(size, s, EndPoll(done)).slab| + (if done.Some? then 1 else 0) == |s.slab|
  {
    var w := s.running.value;
    if done.Some? {
      OneKeyLess(s.slab, w.id);
    } else {
      SameSize(s.slab, s.slab[w.id := Some(Task(w.uid, w.queue))]);
    }
  }

  /** What a poll leaves: at most its effects and one woken joiner more to serve, and one task less if it
      finished. */
  lemma PollCosts<V>(size: nat, states: seq<State<V>>, events: seq<Event<V>>, a: Mark, b: Mark, id: nat, script: PollScript<V>)
    requires IsRun(size, states, events) && a.at < b.at <= |events| && Polled(states, events, a, b, script)
    requires Rest(states[a.at].phase) != [] && Rest(states[a.at].phase)[0] == id && HoldsTask(states[a.at], id)
    ensures Load(states[b.at]) <= Load(states[a.at]) + |script.effects|
    ensures |states[b.at].slab| + (if script.done.Some? then 1 else 0) == |states[a.at].slab| + Spawns(script.effects)
  {
    PollParts(states, events, a, b, script);
    PollCostsFrom(size, states, events, a.at, b.at - 1, |states[a.at].homes|, states[b.at].homes, script.effects);
  }

  lemma PollCostsFrom<V>(size: nat, states: seq<State<V>>, events: seq<Event<V>>, p: nat, q: nat,
                         known: nat, wakers: seq<(nat, Queue)>, effects: seq<Effect>)
    requires IsRun(size, states, events) && p < q < |events| && |wakers| >= known + Spawns(effects)
    requires events[p].Next? && HoldsTask(states[p], Rest(states[p].phase)[0]) && events[q].EndPoll?
    requires events[p + 1..q] == Performed(known, wakers, effects)
    ensures Load(states[q + 1]) <= Load(states[p]) + |effects|
    ensures |states[q + 1].slab| + (if events[q].done.Some? then 1 else 0) == |states[p].slab| + Spawns(effects)
  {
    TakeStepInRun(size, states, events, p);
    AfterEffects(size, states, events, p + 1, q, known, wakers, effects);
    EndStepInRun(size, states, events, q);
  }

  lemma TakeStepInRun<V>(size: nat, states: seq<State<V>>, events: seq<Event<V>>, i: nat)
    requires IsRun(size, states, events) && i < |events| && events[i].Next? && HoldsTask(states[i], Rest(states[i].phase)[0])
    ensures Load(states[i + 1]) + 1 == Load(states[i]) && |states[i + 1].slab| == |states[i].slab|
  {
    TakeStep(size, states[i]);
  }

  lemma EndStepInRun<V>(size: nat, states: seq<State<V>>, events: seq<Event<V>>, i: nat)
    requires IsRun(size, states, events) && i < |events| && events[i].EndPoll?
    ensures Load(states[i + 1]) <= Load(states[i]) + 1
    ensures |states[i + 1].slab| + (if events[i].done.Some? then 1 else 0) == |states[i].slab|
  {
    RunInv(size, states, events, i);
    EndLoad(size, states[i], events[i].done);
    EndSlab(size, states[i], events[i].done);
  }

  lemma LessCredit(first: nat, most: nat, polls: nat, before: nat, after: nat, spawned: nat, finished: bool)
    requires spawned <= most && after + (if finished then 1 else 0) == before + spawned
    requires polls >= first ==> finished && spawned == 0
    ensures Left(first, polls + 1) * (most + 1) + after + 1 <= Left(first, polls) * (most + 1) + before
  {
    if polls < first {
      var left := Left(first, polls + 1);
      assert (left + 1) * (most + 1) == left * (most + 1) + most + 1;
    }
  }

  lemma ScaledDown(k: nat, low: nat, high: nat)
    requires low + 1 <= high
    ensures k * low + k <= k * high
  {
    assert k * high == k * low + k + k * (high - low - 1);
    assert k * (high - low - 1) >= 0;
  }

  /** Every id served, skipped ones included, leaves less work. */
  lemma ServingWorks<V>(size: nat, states: seq<State<V>>, events: seq<Event<V>>, a: Mark, b: Mark, id: nat,
                        behaviour: Behaviour<V>, first: nat, most: nat)
    requires IsRun(size, states, events) && Served(states, events, a, b, id, behaviour) && Tame(behaviour, first, most)
    ensures Work(first, most, b.polls, states[b.at]) < Work(first, most, a.polls, states[a.at])
  {
    var s, t := states[a.at], states[b.at];
    if HoldsTask(s, id) {
      var script := behaviour(s.slab[id].value.uid, a.polls);
      PollCosts(size, states, events, a, b, id, script);
      SpawnsAreEffects(script.effects);
      LessCredit(first, most, a.polls, |s.slab|, |t.slab|, Spawns(script.effects), script.done.Some?);
      ScaledDown(most + 1, Credit(first, most, b.polls, t), Credit(first, most, a.polls, s));
    } else {
      assert t == Apply(size, s, Next);
    }
  }

  lemma {:induction false} BatchWorks<V>(size: nat, states: seq<State<V>>, events: seq<Event<V>>, marks: seq<Mark>, ids: seq<nat>,
                                         behaviour: Behaviour<V>, first: nat, most: nat, i: nat)
    requires IsRun(size, states, events) && BatchServed(states, events, marks, ids, behaviour) && Tame(behaviour, first, most)
    requires i <= |ids| && marks[0].at <= |events|
    ensures marks[0].at <= marks[i].at <= |events|
    ensures Work(first, most, marks[i].polls, states[marks[i].at]) + i <= Work(first, most, marks[0].polls, states[marks[0].at])
  {
    if i > 0 {
      BatchWorks(size, states, events, marks, ids, behaviour, first, most, i - 1);
      ServingWorks(size, states, events, marks[i - 1], marks[i], ids[i - 1], behaviour, first, most);
    }
  }

  // ----- one iteration -----

  /** Draining moves ids, and nothing else. */
  lemma DrainKeeps<V>(size: nat, s: State<V>, e: Event<V>)
    requires Enabled(s, e) && (e.DrainPolling? || e.DrainNormal? || e.EndIteration?)
    ensures Load(Apply(size, s, e)) == Load(s) && Apply(size, s, e).slab == s.slab
  {
  }

  /** The drain of the polling queue and the wakes of the reactors. */
  lemma WakingWorks<V>(size: nat, states: seq<State<V>>, events: seq<Event<V>>, p: nat, q: nat, woken: seq<nat>)
    requires IsRun(size, states, events) && p < q <= |events| && events[p] == DrainPolling
    requires events[p + 1..q] == Performed(|states[p].homes|, states[p].homes, Wakeups(woken))
    ensures Load(states[q]) <= Load(states[p]) + |woken| && |states[q].slab| == |states[p].slab|
    ensures |states[q].normal| >= |states[p].normal|
    ensures woken == [] ==> states[q].normal == states[p].normal && states[q].polling == []
  {
    var homes := states[p].homes;
    DrainKeeps(size, states[p], DrainPolling);
    assert states[p + 1] == Apply(size, states[p], DrainPolling);
    AfterEffects(size, states, events, p + 1, q, |homes|, homes, Wakeups(woken));
    EffectsOnlyAdd(size, states, events, p + 1, q, |homes|, homes, Wakeups(woken));
  }

  lemma PollingWorks<V>(size: nat, states: seq<State<V>>, events: seq<Event<V>>, start: Mark, marks: seq<Mark>, woken: seq<nat>,
                        behaviour: Behaviour<V>, first: nat, most: nat)
    requires IsRun(size, states, events) && PollingServed(states, events, start, marks, woken, behaviour) && Tame(behaviour, first, most)
    ensures var end := marks[|marks| - 1];
      && start.at <= end.at <= |events|
      && Work(first, most, end.polls, states[end.at]) + |states[start.at].polling| <= Work(first, most, start.polls, states[start.at]) + |woken|
      && (states[start.at].polling == [] ==> |states[end.at].normal| >= |states[start.at].normal|)
      && (states[start.at].polling == [] && woken == [] ==>
            states[end.at].normal == states[start.at].normal && states[end.at].polling == [])
  {
    WakingWorks(size, states, events, start.at, marks[0].at, woken);
    SameCredit(first, most, start.polls, states[start.at], states[marks[0].at]);
    BatchWorks(size, states, events, marks, states[start.at].polling, behaviour, first, most, |marks| - 1);
  }

  lemma SameCredit<V>(first: nat, most: nat, polls: nat, s: State<V>, t: State<V>)
    requires |t.slab| == |s.slab|
    ensures Work(first, most, polls, t) - Load(t) == Work(first, most, polls, s) - Load(s)
  {
  }

  /** Effects only add to the queues. */
  lemma {:induction false} EffectsOnlyAdd<V>(size: nat, states: seq<State<V>>, events: seq<Event<V>>, p: nat, q: nat,
                                             known: nat, wakers: seq<(nat, Queue)>, effects: seq<Effect>)
    requires IsRun(size, states, events) && p <= q <= |events| && |wakers| >= known + Spawns(effects)
    requires events[p..q] == Performed(known, wakers, effects)
    ensures |states[q].normal| >= |states[p].normal|
    ensures effects == [] ==> q == p
    decreases |effects|
  {
    if effects != [] {
      var mid := LastEffect(events, p, q, known, wakers, effects);
      EffectsOnlyAdd(size, states, events, p, mid, known, wakers, effects[..|effects| - 1]);
      if mid < q {
        assert events[mid] == [events[mid]][0];
        EffectStep(size, states[mid], events[mid]);
      }
    }
  }

  lemma NormalWorks<V>(size: nat, states: seq<State<V>>, events: seq<Event<V>>, start: Mark, marks: seq<Mark>,
                       behaviour: Behaviour<V>, first: nat, most: nat)
    requires IsRun(size, states, events) && NormalServed(size, states, events, start, marks, behaviour) && Tame(behaviour, first, most)
    requires size > 0
    ensures var end := marks[|marks| - 1];
      && start.at <= end.at <= |events|
      && Work(first, most, end.polls, states[end.at]) + (if states[start.at].normal == [] then 0 else 1)
         <= Work(first, most, start.polls, states[start.at])
      && (states[start.at].normal == [] && states[start.at].polling == [] ==>
            states[end.at].normal == [] && states[end.at].polling == [])
  {
    DrainKeeps(size, states[start.at], events[start.at]);
    assert states[start.at + 1] == Apply(size, states[start.at], events[start.at]);
    BatchWorks(size, states, events, marks, Batch(size, states[start.at].normal), behaviour, first, most, |marks| - 1);
  }

  ghost predicate Quiet<V>(s: State<V>) { s.normal == [] && s.polling == [] }

  ghost function WorkAt<V>(first: nat, most: nat, states: seq<State<V>>, m: Mark): nat
    requires m.at < |states|
  {
    Work(first, most, m.polls, states[m.at])
  }

  /** An iteration that finds an id in a queue leaves less work, up to what the reactors woke. */
  lemma IterationWorks<V>(size: nat, states: seq<State<V>>, events: seq<Event<V>>, t: Turn, woken: seq<nat>,
                          behaviour: Behaviour<V>, first: nat, most: nat)
    requires IsRun(size, states, events) && Iteration(size, states, events, t, woken, behaviour) && Tame(behaviour, first, most)
    requires size > 0
    ensures t.end.at <= |events|
    ensures WorkAt(first, most, states, t.end) + (if Quiet(states[t.start.at]) then 0 else 1) <= WorkAt(first, most, states, t.start) + |woken|
    ensures Quiet(states[t.start.at]) && woken == [] ==> Quiet(states[t.end.at])
  {
    var mid := t.polling[|t.polling| - 1];
    var last := t.normal[|t.normal| - 1];
    PollingWorks(size, states, events, t.start, t.polling, woken, behaviour, first, most);
    NormalWorks(size, states, events, mid, t.normal, behaviour, first, most);
    DrainKeeps(size, states[last.at], events[last.at]);
    assert states[last.at + 1] == Apply(size, states[last.at], EndIteration);
  }

  // ----- the whole loop -----

  /** Ids the reactors wake in the first `i` iterations. */
  ghost function Stirred(reactors: nat -> seq<nat>, i: nat): nat {
    if i == 0 then 0 else Stirred(reactors, i - 1) + |reactors(i - 1)|
  }

  lemma TurnWorks<V>(size: nat, states: seq<State<V>>, events: seq<Event<V>>, from: nat, turns: seq<Turn>,
                     behaviour: Behaviour<V>, reactors: nat -> seq<nat>, first: nat, most: nat, i: nat)
    requires IsRun(size, states, events) && Looped(size, states, events, from, turns, behaviour, reactors)
    requires Tame(behaviour, first, most) && size > 0 && i < |turns|
    ensures var m, next := Reached(from, turns, i), Reached(from, turns, i + 1);
      && m.at <= |events| && next.at <= |events|
      && WorkAt(first, most, states, next) + (if Quiet(states[m.at]) then 0 else 1) <= WorkAt(first, most, states, m) + |reactors(i)|
      && (Quiet(states[m.at]) && reactors(i) == [] ==> Quiet(states[next.at]))
  {
    assert Turned(size, states, events, from, turns, i, behaviour, reactors);
    IterationWorks(size, states, events, turns[i], reactors(i), behaviour, first, most);
  }

  /** After `i` iterations with `work` left of `start`: before the reactors fall silent the work has not grown
      beyond what they woke; from then on every iteration has lowered it, or both queues are empty. */
  ghost predicate Dwindles(start: nat, work: nat, quiet: bool, reactors: nat -> seq<nat>, silent: nat, i: nat) {
    && (i <= silent ==> work <= start + Stirred(reactors, i))
    && (i >= silent ==> quiet || work + (i - silent) <= start + Stirred(reactors, silent))
  }

  lemma DwindlesOn(start: nat, work: nat, quiet: bool, work': nat, quiet': bool, reactors: nat -> seq<nat>, silent: nat, i: nat)
    requires Dwindles(start, work, quiet, reactors, silent, i)
    requires work' + (if quiet then 0 else 1) <= work + |reactors(i)| && (quiet && reactors(i) == [] ==> quiet')
    requires i >= silent ==> reactors(i) == []
    ensures Dwindles(start, work', quiet', reactors, silent, i + 1)
  {
  }

  lemma {:induction false} WorkInRun<V>(size: nat, states: seq<State<V>>, events: seq<Event<V>>, from: nat, turns: seq<Turn>,
                                        behaviour: Behaviour<V>, reactors: nat -> seq<nat>, first: nat, most: nat, silent: nat, i: nat)
    requires IsRun(size, states, events) && Looped(size, states, events, from, turns, behaviour, reactors)
    requires Tame(behaviour, first, most) && size > 0 && from <= |events| && i <= |turns|
    requires forall k :: k >= silent ==> reactors(k) == []
    ensures var m := Reached(from, turns, i);
      && m.at <= |events|
      && Dwindles(Work(first, most, 0, states[from]), WorkAt(first, most, states, m), Quiet(states[m.at]), reactors, silent, i)
  {
    if i > 0 {
      WorkInRun(size, states, events, from, turns, behaviour, reactors, first, most, silent, i - 1);
      TurnWorks(size, states, events, from, turns, behaviour, reactors, first, most, i - 1);
      var m, next := Reached(from, turns, i - 1), Reached(from, turns, i);
      DwindlesOn(Work(first, most, 0, states[from]), WorkAt(first, most, states, m), Quiet(states[m.at]),
                 WorkAt(first, most, states, next), Quiet(states[next.at]), reactors, silent, i - 1);
    }
  }

  /** The number of iterations after which the loop has nothing left to serve. */
  ghost function Enough<V>(first: nat, most: nat, reactors: nat -> seq<nat>, silent: nat, s: State<V>): nat {
    silent + Stirred(reactors, silent) + Work(first, most, 0, s)
  }

  /** Quiescence: with tame futures and reactors that fall silent, after enough iterations no id is queued. A
      task that is still there then waits for a wake that nobody has issued. */
  lemma LoopComesToRest<V>(size: nat, states: seq<State<V>>, events: seq<Event<V>>, from: nat, turns: seq<Turn>,
                           behaviour: Behaviour<V>, reactors: nat -> seq<nat>, first: nat, most: nat, silent: nat)
    requires IsRun(size, states, events) && Looped(size, states, events, from, turns, behaviour, reactors)
    requires Tame(behaviour, first, most) && size > 0 && from <= |events|
    requires forall k :: k >= silent ==> reactors(k) == []
    requires |turns| >= Enough(first, most, reactors, silent, states[from])
    ensures Quiet(states[|events|])
  {
    WorkInRun(size, states, events, from, turns, behaviour, reactors, first, most, silent, |turns|);
    var m := Reached(from, turns, |turns|);
    if !Quiet(states[m.at]) {
      WorkedOff(first, most, m.polls, states[m.at]);
    }
  }

  lemma WorkedOff<V>(first: nat, most: nat, polls: nat, s: State<V>)
    requires !Quiet(s)
    ensures Work(first, most, polls, s) > 0
  {
  }

  // ----- no task is forgotten -----

  /** Every task in the slab is due to be served. */
  ghost predicate AllQueued<V>(s: State<V>) {
    forall id :: HoldsTask(s, id) ==> Scheduled(s, s.slab[id].value.queue, id)
  }

  /** Only the end of a poll that stays pending can put a task back that is not due. */
  lemma QueuedStep<V>(size: nat, s: State<V>, e: Event<V>)
    requires Inv(s) && Enabled(s, e) && AllQueued(s)
    requires e == EndPoll(None) ==> Scheduled(s, s.running.value.queue, s.running.value.id)
    ensures AllQueued(Apply(size, s, e))
  {
    var t := Apply(size, s, e);
    forall id | HoldsTask(t, id) ensures Scheduled(t, t.slab[id].value.queue, id) {
      if HoldsTask(s, id) {
        assert s.slab[id] == t.slab[id];
        ScheduledStays(size, s, e, s.slab[id].value.queue, id);
      } else if e == EndPoll(None) {
        ScheduledStays(size, s, e, s.running.value.queue, id);
      }
    }
  }

  lemma QueuedStepInRun<V>(size: nat, states: seq<State<V>>, events: seq<Event<V>>, i: nat)
    requires IsRun(size, states, events) && i < |events| && AllQueued(states[i])
    requires events[i] == EndPoll(None) ==> Scheduled(states[i], states[i].running.value.queue, states[i].running.value.id)
    ensures AllQueued(states[i + 1])
  {
    RunInv(size, states, events, i);
    QueuedStep(size, states[i], events[i]);
  }

  /** Effects forget nobody. */
  lemma {:induction false} EffectsForgetNone<V>(size: nat, states: seq<State<V>>, events: seq<Event<V>>, p: nat, q: nat,
                                                known: nat, wakers: seq<(nat, Queue)>, effects: seq<Effect>)
    requires IsRun(size, states, events) && p <= q <= |events| && |wakers| >= known + Spawns(effects)
    requires events[p..q] == Performed(known, wakers, effects) && AllQueued(states[p])
    ensures AllQueued(states[q])
    decreases |effects|
  {
    if effects != [] {
      var mid := LastEffect(events, p, q, known, wakers, effects);
      EffectsForgetNone(size, states, events, p, mid, known, wakers, effects[..|effects| - 1]);
      if mid < q {
        assert events[mid] == [events[mid]][0];
        QueuedStepInRun(size, states, events, mid);
      }
    }
  }

  /** Whom the effects of a poll wake is due afterwards. */
  lemma {:induction false} EffectsQueue<V>(size: nat, states: seq<State<V>>, events: seq<Event<V>>, p: nat, q: nat,
                                           known: nat, wakers: seq<(nat, Queue)>, effects: seq<Effect>, uid: nat)
    requires IsRun(size, states, events) && p <= q <= |events| && |wakers| >= known + Spawns(effects)
    requires events[p..q] == Performed(known, wakers, effects) && uid < known && WakeTask(uid) in effects
    ensures Scheduled(states[q], wakers[uid].1, wakers[uid].0)
    decreases |effects|
  {
    var init, last := effects[..|effects| - 1], effects[|effects| - 1];
    var mid := LastEffect(events, p, q, known, wakers, effects);
    assert effects == init + [last];
    if WakeTask(uid) in init {
      EffectsQueue(size, states, events, p, mid, known, wakers, init, uid);
    }
    if mid < q {
      LastQueues(size, states[mid], events[mid], known + Spawns(init), wakers, last, WakeTask(uid) in init, uid);
    }
  }

  lemma LastQueues<V>(size: nat, s: State<V>, e: Event<V>, n: nat, wakers: seq<(nat, Queue)>, last: Effect, earlier: bool, uid: nat)
    requires Enabled(s, e) && |wakers| >= n + (if last.SpawnTask? then 1 else 0) && [e] == EventOf(n, wakers, last) && uid < n
    requires earlier ==> Scheduled(s, wakers[uid].1, wakers[uid].0)
    ensures earlier || last == WakeTask(uid) ==> Scheduled(Apply(size, s, e), wakers[uid].1, wakers[uid].0)
  {
    assert e == [e][0];
    if earlier {
      ScheduledStays(size, s, e, wakers[uid].1, wakers[uid].0);
    }
  }

  /** A poll that finishes its task or wakes it forgets nobody. */
  lemma PollForgetsNone<V>(size: nat, states: seq<State<V>>, events: seq<Event<V>>, p: nat, q: nat,
                           known: nat, wakers: seq<(nat, Queue)>, script: PollScript<V>)
    requires IsRun(size, states, events) && p < q < |events| && |wakers| >= known + Spawns(script.effects)
    requires events[p].Next? && HoldsTask(states[p], Rest(states[p].phase)[0]) && events[q] == EndPoll(script.done)
    requires events[p + 1..q] == Performed(known, wakers, script.effects)
    requires known == |states[p].homes| && wakers == states[q + 1].homes && AllQueued(states[p])
    requires var uid := states[p].slab[Rest(states[p].phase)[0]].value.uid;
      script.done.Some? || WakeTask(uid) in script.effects
    ensures AllQueued(states[q + 1])
  {
    var uid := states[p].slab[Rest(states[p].phase)[0]].value.uid;
    RunInv(size, states, events, p);
    QueuedStepInRun(size, states, events, p);
    AfterEffects(size, states, events, p + 1, q, known, wakers, script.effects);
    EffectsForgetNone(size, states, events, p + 1, q, known, wakers, script.effects);
    if script.done.None? {
      EffectsQueue(size, states, events, p + 1, q, known, wakers, script.effects, uid);
    }
    RunInv(size, states, events, q);
    QueuedStepInRun(size, states, events, q);
  }

  lemma ServingForgetsNone<V>(size: nat, states: seq<State<V>>, events: seq<Event<V>>, a: Mark, b: Mark, id: nat, behaviour: Behaviour<V>)
    requires IsRun(size, states, events) && Served(states, events, a, b, id, behaviour)
    requires WakesItself(behaviour) && AllQueued(states[a.at])
    ensures AllQueued(states[b.at])
  {
    if HoldsTask(states[a.at], id) {
      var script := behaviour(states[a.at].slab[id].value.uid, a.polls);
      PollParts(states, events, a, b, script);
      PollForgetsNone(size, states, events, a.at, b.at - 1, |states[a.at].homes|, states[b.at].homes, script);
    } else {
      QueuedStepInRun(size, states, events, a.at);
    }
  }

  lemma {:induction false} BatchForgetsNone<V>(size: nat, states: seq<State<V>>, events: seq<Event<V>>, marks: seq<Mark>, ids: seq<nat>,
                                               behaviour: Behaviour<V>, i: nat)
    requires IsRun(size, states, events) && BatchServed(states, events, marks, ids, behaviour) && WakesItself(behaviour)
    requires i <= |ids| && marks[0].at <= |events| && AllQueued(states[marks[0].at])
    ensures marks[i].at <= |events| && AllQueued(states[marks[i].at])
  {
    if i > 0 {
      BatchForgetsNone(size, states, events, marks, ids, behaviour, i - 1);
      ServingForgetsNone(size, states, events, marks[i - 1], marks[i], ids[i - 1], behaviour);
    }
  }

  lemma PollingForgetsNone<V>(size: nat, states: seq<State<V>>, events: seq<Event<V>>, start: Mark, marks: seq<Mark>, woken: seq<nat>,
                              behaviour: Behaviour<V>)
    requires IsRun(size, states, events) && PollingServed(states, events, start, marks, woken, behaviour) && WakesItself(behaviour)
    requires AllQueued(states[start.at])
    ensures marks[|marks| - 1].at <= |events| && AllQueued(states[marks[|marks| - 1].at])
  {
    var homes := states[start.at].homes;
    QueuedStepInRun(size, states, events, start.at);
    EffectsForgetNone(size, states, events, start.at + 1, marks[0].at, |homes|, homes, Wakeups(woken));
    BatchForgetsNone(size, states, events, marks, states[start.at].polling, behaviour, |marks| - 1);
  }

  lemma NormalForgetsNone<V>(size: nat, states: seq<State<V>>, events: seq<Event<V>>, start: Mark, marks: seq<Mark>, behaviour: Behaviour<V>)
    requires IsRun(size, states, events) && NormalServed(size, states, events, start, marks, behaviour) && WakesItself(behaviour)
    requires AllQueued(states[start.at])
    ensures marks[|marks| - 1].at <= |events| && AllQueued(states[marks[|marks| - 1].at])
  {
    QueuedStepInRun(size, states, events, start.at);
    BatchForgetsNone(size, states, events, marks, Batch(size, states[start.at].normal), behaviour, |marks| - 1);
  }

  lemma TurnForgetsNone<V>(size: nat, states: seq<State<V>>, events: seq<Event<V>>, t: Turn, woken: seq<nat>, behaviour: Behaviour<V>)
    requires IsRun(size, states, events) && Iteration(size, states, events, t, woken, behaviour) && WakesItself(behaviour)
    requires AllQueued(states[t.start.at])
    ensures t.end.at <= |events| && AllQueued(states[t.end.at])
  {
    PollingForgetsNone(size, states, events, t.start, t.polling, woken, behaviour);
    NormalForgetsNone(size, states, events, t.polling[|t.polling| - 1], t.normal, behaviour);
    QueuedStepInRun(size, states, events, t.normal[|t.normal| - 1].at);
  }

  lemma {:induction false} LoopForgetsNone<V>(size: nat, states: seq<State<V>>, events: seq<Event<V>>, from: nat, turns: seq<Turn>,
                                              behaviour: Behaviour<V>, reactors: nat -> seq<nat>, i: nat)
    requires IsRun(size, states, events) && Looped(size, states, events, from, turns, behaviour, reactors) && WakesItself(behaviour)
    requires from <= |events| && AllQueued(states[from]) && i <= |turns|
    ensures Reached(from, turns, i).at <= |events| && AllQueued(states[Reached(from, turns, i).at])
  {
    if i > 0 {
      LoopForgetsNone(size, states, events, from, turns, behaviour, reactors, i - 1);
      assert Turned(size, states, events, from, turns, i - 1, behaviour, reactors);
      TurnForgetsNone(size, states, events, turns[i - 1], reactors(i - 1), behaviour);
    }
  }

  /** Completion: if moreover every task is due at the start, and no poll stays pending without waking its
      task, then after enough iterations every task has finished. */
  lemma LoopCompletes<V>(size: nat, states: seq<State<V>>, events: seq<Event<V>>, from: nat, turns: seq<Turn>,
                         behaviour: Behaviour<V>, reactors: nat -> seq<nat>, first: nat, most: nat, silent: nat)
    requires IsRun(size, states, events) && Looped(size, states, events, from, turns, behaviour, reactors)
    requires Tame(behaviour, first, most) && size > 0 && from <= |events| && states[|events|].phase.Top?
    requires forall k :: k >= silent ==> reactors(k) == []
    requires WakesItself(behaviour) && AllQueued(states[from])
    requires |turns| >= Enough(first, most, reactors, silent, states[from])
    ensures states[|events|].slab == map[]
  {
    LoopComesToRest(size, states, events, from, turns, behaviour, reactors, first, most, silent);
    LoopForgetsNone(size, states, events, from, turns, behaviour, reactors, |turns|);
    RunInv(size, states, events, |events|);
    NothingLeft(states[|events|]);
  }

  lemma DueMeansBusy<V>(s: State<V>, id: nat)
    requires Inv(s) && s.phase.Top? && AllQueued(s)
    ensures id in s.slab ==> !Quiet(s)
  {
    assert id in s.slab ==> HoldsTask(s, id);
  }

  lemma NothingLeft<V>(s: State<V>)
    requires Inv(s) && s.phase.Top? && AllQueued(s) && Quiet(s)
    ensures s.slab == map[]
  {
    forall id: nat ensures id !in s.slab {
      DueMeansBusy(s, id);
    }
  }
}
