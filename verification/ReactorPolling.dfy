/** When the run loop polls its reactors: interval, early iterations, pending polling tasks, cached status,
    and the safety bound on iterations without a completed task. */
module ReactorPolling {
  import opened Division

  datatype Status = Running | Stopped

  /** `interval`, `cache` and `bound` are `reactor_poll_interval`, `status_cache_iterations` and the safety
      bound. An interval of zero is a division by zero in the loop. */
  datatype Config = Config(interval: nat, cache: nat, bound: nat)

  datatype Wrapper = Wrapper(enable: bool, cached: Status, validUntil: nat, polls: nat)

  /** What one iteration meets: whether polling tasks were drained, whether a normal task completed, and
      what every reactor's `status()` would answer. */
  datatype Input = Input(hasPolling: bool, completed: bool, statuses: seq<Status>)

  datatype State = State(iteration: nat, reactorOnly: nat, reactors: seq<Wrapper>)

  function Fresh(enable: bool): Wrapper { Wrapper(enable, Stopped, 0, 0) }

  function Refreshed(c: Config, w: Wrapper, now: nat, status: Status): Wrapper
  {
    if now < w.validUntil then w else w.(cached := status, validUntil := now + c.cache)
  }

  function Visited(c: Config, w: Wrapper, now: nat, status: Status): Wrapper
  {
    if !w.enable then w
    else
      var r := Refreshed(c, w, now, status);
      if r.cached.Running? then r.(polls := r.polls + 1) else r
  }

  predicate Overridden(c: Config, s: State) { s.reactorOnly >= c.bound }

  predicate ShouldPoll(c: Config, s: State, hasPolling: bool)
    requires c.interval > 0
  {
    !Overridden(c, s) && (hasPolling || s.iteration <= 1 || s.iteration % c.interval == 0)
  }

  function CountAfter(c: Config, s: State, inp: Input): nat
    requires c.interval > 0
  {
    var count := if Overridden(c, s) then 0 else s.reactorOnly;
    if !inp.completed && ShouldPoll(c, s, inp.hasPolling) then count + 1
    else if inp.completed then 0
    else count
  }

  function Iterate(c: Config, s: State, inp: Input): (t: State)
    requires c.interval > 0 && |inp.statuses| == |s.reactors|
    ensures |t.reactors| == |s.reactors|
  {
    State(s.iteration + 1, CountAfter(c, s, inp),
          if ShouldPoll(c, s, inp.hasPolling)
          then seq(|s.reactors|, k requires 0 <= k < |s.reactors| => Visited(c, s.reactors[k], s.iteration, inp.statuses[k]))
          else s.reactors)
  }

  ghost predicate IsRun(c: Config, states: seq<State>, inputs: seq<Input>)
    requires c.interval > 0
  {
    && |states| == |inputs| + 1
    && states[0].iteration == 0 && states[0].reactorOnly == 0
    && (forall k :: 0 <= k < |states[0].reactors| ==> states[0].reactors[k] == Fresh(states[0].reactors[k].enable))
    && (forall t :: 0 <= t < |inputs| ==>
          |inputs[t].statuses| == |states[t].reactors| && states[t + 1] == Iterate(c, states[t], inputs[t]))
  }

  ghost predicate PolledAt(states: seq<State>, k: nat, t: nat)
    requires t + 1 < |states| && k < |states[t].reactors| && k < |states[t + 1].reactors|
  {
    states[t + 1].reactors[k].polls > states[t].reactors[k].polls
  }

  /** The iteration number is the index, and a cached status is at most one cache period old. */
  lemma {:induction false} Indexed(c: Config, states: seq<State>, inputs: seq<Input>, k: nat, t: nat)
    requires c.interval > 0 && IsRun(c, states, inputs) && t < |states| && k < |states[0].reactors|
    ensures states[t].iteration == t && |states[t].reactors| == |states[0].reactors|
    ensures states[t].reactors[k].enable == states[0].reactors[k].enable
    ensures states[t].reactors[k].validUntil <= if t == 0 then 0 else t - 1 + c.cache
  {
    if t > 0 {
      Indexed(c, states, inputs, k, t - 1);
      assert states[t] == Iterate(c, states[t - 1], inputs[t - 1]);
    }
  }

  /** The reactor's status is `Running` from iteration `i` on. */
  ghost predicate RunsFrom(inputs: seq<Input>, k: nat, i: nat) {
    forall t :: i <= t < |inputs| ==> k < |inputs[t].statuses| && inputs[t].statuses[k].Running?
  }

  function FirstFreshCheck(c: Config, i: nat): nat { if c.cache > 1 then i + c.cache - 1 else i }

  /** Whatever was cached before `i` has expired; what is cached since is `Running`. */
  lemma {:induction false} NoStaleStop(c: Config, states: seq<State>, inputs: seq<Input>, k: nat, i: nat, t: nat)
    requires c.interval > 0 && IsRun(c, states, inputs) && k < |states[0].reactors| && RunsFrom(inputs, k, i)
    requires i <= t < |states|
    ensures k < |states[t].reactors|
    ensures states[t].reactors[k].validUntil > FirstFreshCheck(c, i) ==> states[t].reactors[k].cached.Running?
  {
    Indexed(c, states, inputs, k, t);
    if t > i {
      Indexed(c, states, inputs, k, t - 1);
      NoStaleStop(c, states, inputs, k, i, t - 1);
      assert states[t] == Iterate(c, states[t - 1], inputs[t - 1]);
      assert inputs[t - 1].statuses[k].Running?;
    }
  }

  /** From then on, every iteration that polls reactors polls this one. */
  lemma CheckMeansPoll(c: Config, states: seq<State>, inputs: seq<Input>, k: nat, i: nat, t: nat)
    requires c.interval > 0 && IsRun(c, states, inputs) && k < |states[0].reactors| && RunsFrom(inputs, k, i)
    requires states[0].reactors[k].enable && FirstFreshCheck(c, i) <= t < |inputs|
    requires ShouldPoll(c, states[t], inputs[t].hasPolling)
    ensures k < |states[t].reactors| && k < |states[t + 1].reactors| && PolledAt(states, k, t)
  {
    Indexed(c, states, inputs, k, t);
    NoStaleStop(c, states, inputs, k, i, t);
    assert states[t + 1] == Iterate(c, states[t], inputs[t]);
    assert inputs[t].statuses[k].Running?;
  }

  /** Without a polling iteration the counter does not grow. */
  lemma {:induction false} CountStaysZero(c: Config, states: seq<State>, inputs: seq<Input>, a: nat, t: nat)
    requires c.interval > 0 && IsRun(c, states, inputs) && a < t < |states| && Overridden(c, states[a])
    requires forall u :: a < u < t ==> !ShouldPoll(c, states[u], inputs[u].hasPolling)
    ensures states[t].reactorOnly == 0
  {
    assert states[t] == Iterate(c, states[t - 1], inputs[t - 1]);
    if t > a + 1 {
      CountStaysZero(c, states, inputs, a, t - 1);
    }
  }

  /** The first multiple of `interval` at or after `e`. */
  function NextMultiple(interval: nat, e: nat): (m: nat)
    requires interval > 0
  {
    interval * (if e % interval == 0 then e / interval else e / interval + 1)
  }

  lemma NextMultipleClose(interval: nat, e: nat)
    requires interval > 0
    ensures e <= NextMultiple(interval, e) < e + interval
  {
    DivBounds(e, interval);
  }

  lemma NextMultipleDivides(interval: nat, e: nat)
    requires interval > 0
    ensures NextMultiple(interval, e) % interval == 0 && (NextMultiple(interval, e) + interval) % interval == 0
  {
    var q := if e % interval == 0 then e / interval else e / interval + 1;
    DivUnique(interval * q, interval, q, 0);
    DivUnique(interval * q + interval, interval, q + 1, 0);
  }

  function Latency(c: Config): nat
    requires c.interval > 0
  {
    (if c.cache > 1 then c.cache else 1) + c.interval - 1
  }

  /** An override only ever follows an iteration that was due to poll: the counter has just reached the
      bound, or it would have been reset before. */
  lemma {:induction false} OverrideFollowsPoll(c: Config, states: seq<State>, inputs: seq<Input>, t: nat)
    requires c.interval > 0 && c.bound > 0 && IsRun(c, states, inputs) && t < |states| && Overridden(c, states[t])
    ensures t > 0 && ShouldPoll(c, states[t - 1], inputs[t - 1].hasPolling)
  {
    if t > 0 {
      assert states[t] == Iterate(c, states[t - 1], inputs[t - 1]);
    }
  }

  /** Bounded latency: an enabled reactor that reports `Running` from iteration `i` on is polled no later
      than `max(cache, 1) + interval - 1` iterations later, a stale `Stopped` and a safety override in
      between included. */
  lemma ReactorLatency(c: Config, states: seq<State>, inputs: seq<Input>, k: nat, i: nat) returns (j: nat)
    requires c.interval > 0 && c.bound > 0 && IsRun(c, states, inputs) && k < |states[0].reactors|
    requires states[0].reactors[k].enable && RunsFrom(inputs, k, i) && i + Latency(c) < |inputs|
    ensures i <= j <= i + Latency(c)
    ensures k < |states[j].reactors| && k < |states[j + 1].reactors| && PolledAt(states, k, j)
  {
    var e := FirstFreshCheck(c, i);
    var first := NextMultiple(c.interval, e);
    NextMultipleClose(c.interval, e);
    NextMultipleDivides(c.interval, e);
    Indexed(c, states, inputs, k, first);
    if !Overridden(c, states[first]) {
      CheckMeansPoll(c, states, inputs, k, i, first);
      return first;
    }
    OverrideFollowsPoll(c, states, inputs, first);
    if first > e {
      CheckMeansPoll(c, states, inputs, k, i, first - 1);
      return first - 1;
    }
    var second := first + c.interval;
    if u :| first < u < second && ShouldPoll(c, states[u], inputs[u].hasPolling) {
      CheckMeansPoll(c, states, inputs, k, i, u);
      return u;
    }
    CountStaysZero(c, states, inputs, first, second);
    Indexed(c, states, inputs, k, second);
    CheckMeansPoll(c, states, inputs, k, i, second);
    return second;
  }

  /** The safety bound must be positive: with bound zero every iteration is overridden and no reactor is
      ever polled. */
  lemma {:induction false} ZeroBoundStarves(c: Config, states: seq<State>, inputs: seq<Input>, k: nat, t: nat)
    requires c.interval > 0 && c.bound == 0 && IsRun(c, states, inputs) && k < |states[0].reactors| && t < |states|
    ensures k < |states[t].reactors| && states[t].reactors[k].polls == 0
  {
    if t > 0 {
      ZeroBoundStarves(c, states, inputs, k, t - 1);
    }
  }

  /** Iterations 0 and 1 poll whatever the interval and the cache: a reactor that runs from the start is
      polled in the first unless the bound is zero, and in the second unless the bound is reached by then. */
  lemma EarlyPolls(c: Config, states: seq<State>, inputs: seq<Input>, k: nat)
    requires c.interval > 0 && IsRun(c, states, inputs) && k < |states[0].reactors| && states[0].reactors[k].enable
    requires RunsFrom(inputs, k, 0) && |inputs| >= 2
    ensures k < |states[1].reactors| && k < |states[2].reactors|
    ensures PolledAt(states, k, 0) <==> c.bound > 0
    ensures PolledAt(states, k, 1) <==> c.bound > 1 || (c.bound == 1 && inputs[0].completed)
  {
    Indexed(c, states, inputs, k, 1);
    Indexed(c, states, inputs, k, 2);
    assert inputs[0].statuses[k].Running? && inputs[1].statuses[k].Running?;
    assert states[1] == Iterate(c, states[0], inputs[0]) && states[2] == Iterate(c, states[1], inputs[1]);
  }

  /** A cached status that is still valid was reported less than a cache period ago. */
  lemma {:induction false} CachedSince(c: Config, states: seq<State>, inputs: seq<Input>, k: nat, t: nat) returns (u: nat)
    requires c.interval > 0 && IsRun(c, states, inputs) && k < |states[0].reactors| && t < |states|
    ensures k < |states[t].reactors|
    ensures states[t].reactors[k].validUntil > t ==>
      u < t && states[t].reactors[k].validUntil == u + c.cache && k < |inputs[u].statuses| && states[t].reactors[k].cached == inputs[u].statuses[k]
  {
    u := 0;
    Indexed(c, states, inputs, k, t);
    if t > 0 {
      Indexed(c, states, inputs, k, t - 1);
      assert states[t] == Iterate(c, states[t - 1], inputs[t - 1]);
      u := CachedSince(c, states, inputs, k, t - 1);
      if states[t].reactors[k].validUntil != states[t - 1].reactors[k].validUntil || states[t - 1].reactors[k].validUntil <= t - 1 {
        u := t - 1;
      }
    }
  }

  /** No reactor is polled without cause: a poll means that the reactor is enabled, that the iteration is due,
      and that the reactor reported `Running` now or less than a cache period ago; and it is polled once. */
  lemma PolledMeansRunning(c: Config, states: seq<State>, inputs: seq<Input>, k: nat, t: nat) returns (u: nat)
    requires c.interval > 0 && IsRun(c, states, inputs) && k < |states[0].reactors| && t < |inputs|
    ensures k < |states[t].reactors| && k < |states[t + 1].reactors|
    ensures PolledAt(states, k, t) ==>
      && states[0].reactors[k].enable
      && states[t].reactorOnly < c.bound && (inputs[t].hasPolling || t <= 1 || t % c.interval == 0)
      && u <= t && (u == t || t < u + c.cache) && k < |inputs[u].statuses| && inputs[u].statuses[k].Running?
      && states[t + 1].reactors[k].polls == states[t].reactors[k].polls + 1
  {
    Indexed(c, states, inputs, k, t);
    Indexed(c, states, inputs, k, t + 1);
    assert states[t + 1] == Iterate(c, states[t], inputs[t]);
    u := CachedSince(c, states, inputs, k, t);
    if states[t].reactors[k].validUntil <= t {
      u := t;
    }
  }

  // ----- when the safety override strikes -----

  /** Iterations from `a` up to `t` that were due to poll reactors. */
  ghost function DueIn(c: Config, states: seq<State>, inputs: seq<Input>, a: nat, t: nat): nat
    requires c.interval > 0 && a <= t <= |inputs| && |states| == |inputs| + 1
  {
    if a == t then 0
    else DueIn(c, states, inputs, a, t - 1) + (if ShouldPoll(c, states[t - 1], inputs[t - 1].hasPolling) then 1 else 0)
  }

  /** From `a` up to `t` no normal task completed and no override struck. */
  ghost predicate Barren(c: Config, states: seq<State>, inputs: seq<Input>, a: nat, t: nat)
    requires a <= t <= |inputs| && |states| == |inputs| + 1
  {
    forall u :: a <= u < t ==> !inputs[u].completed && !Overridden(c, states[u])
  }

  lemma {:induction false} DueGrows(c: Config, states: seq<State>, inputs: seq<Input>, a: nat, b: nat, t: nat)
    requires c.interval > 0 && a <= b <= t <= |inputs| && |states| == |inputs| + 1
    ensures DueIn(c, states, inputs, b, t) <= DueIn(c, states, inputs, a, t)
    decreases t
  {
    if b < t {
      DueGrows(c, states, inputs, a, b, t - 1);
    }
  }

  /** The counter is the number of due iterations since the last completion or override. */
  lemma {:induction false} CounterCounts(c: Config, states: seq<State>, inputs: seq<Input>, t: nat) returns (a: nat)
    requires c.interval > 0 && c.bound > 0 && IsRun(c, states, inputs) && t <= |inputs|
    ensures a <= t && Barren(c, states, inputs, a, t) && states[t].reactorOnly == DueIn(c, states, inputs, a, t)
    ensures a > 0 ==> inputs[a - 1].completed || Overridden(c, states[a - 1])
  {
    a := 0;
    if t > 0 {
      a := CounterCounts(c, states, inputs, t - 1);
      assert states[t] == Iterate(c, states[t - 1], inputs[t - 1]);
      if inputs[t - 1].completed || Overridden(c, states[t - 1]) {
        a := t;
      }
    }
  }

  /** The override strikes exactly when `bound` due iterations have gone by without a completed normal task
      and without an override. */
  lemma OverrideExact(c: Config, states: seq<State>, inputs: seq<Input>, t: nat)
    requires c.interval > 0 && c.bound > 0 && IsRun(c, states, inputs) && t <= |inputs|
    ensures Overridden(c, states[t]) <==>
      exists a :: 0 <= a <= t && Barren(c, states, inputs, a, t) && DueIn(c, states, inputs, a, t) >= c.bound
  {
    var a := CounterCounts(c, states, inputs, t);
    if b :| 0 <= b <= t && Barren(c, states, inputs, b, t) && DueIn(c, states, inputs, b, t) >= c.bound {
      assert a <= b;
      DueGrows(c, states, inputs, a, b, t);
    }
  }

  // ----- the bound is attained -----

  /** A cache period of at least one iteration. */
  function Period(cache: nat): nat { if cache > 1 then cache else 1 }

  /** Polling tasks keep every iteration before `over` due; the last of them completes no task, so that
      `over` is overridden, and nothing is due after it but multiples of the interval. The reactor runs
      from iteration `from` on. */
  function LateInput(over: nat, from: nat, t: nat): Input {
    Input(t < over, t + 1 < over, [if t < from then Stopped else Running])
  }

  /** The state of that execution at the start of iteration `t`. */
  function LateState(c: Config, over: nat, from: nat, t: nat): (s: State)
    requires c.interval > 0
    ensures |s.reactors| == 1
  {
    if t == 0 then State(0, 0, [Fresh(true)])
    else Iterate(c, LateState(c, over, from, t - 1), LateInput(over, from, t - 1))
  }

  ghost predicate Late(c: Config, over: nat, from: nat) {
    c.interval > 0 && c.bound == 1 && over == c.interval * Period(c.cache) && from + Period(c.cache) == over + 1
  }

  /** Up to the override: never polled, `Stopped` cached, and the cache refreshed every period, `q` times. */
  ghost predicate Early(c: Config, over: nat, s: State, t: nat, q: nat) {
    && s.iteration == t && |s.reactors| == 1
    && s.reactorOnly == (if t == over then 1 else 0)
    && s.reactors[0].enable && s.reactors[0].polls == 0 && s.reactors[0].cached.Stopped?
    && (c.cache <= 1 ==> s.reactors[0].validUntil <= t)
    && (c.cache > 1 ==> s.reactors[0].validUntil == c.cache * q && c.cache * q < t + c.cache && t <= c.cache * q)
  }

  lemma EarlyStep(c: Config, over: nat, from: nat, s: State, t: nat, q: nat) returns (p: nat)
    requires Late(c, over, from) && t < over && Early(c, over, s, t, q)
    requires c.cache > 1 && t >= from ==> t < c.cache * q
    ensures Early(c, over, Iterate(c, s, LateInput(over, from, t)), t + 1, p)
  {
    p := if c.cache > 1 && c.cache * q <= t then q + 1 else q;
    assert c.cache * (q + 1) == c.cache * q + c.cache;
  }

  lemma {:induction false} EarlyStates(c: Config, over: nat, from: nat, t: nat) returns (q: nat)
    requires Late(c, over, from) && t <= over
    ensures Early(c, over, LateState(c, over, from, t), t, q)
  {
    q := 0;
    if t == 0 {
      MulStep(Period(c.cache), 0, c.interval);
    } else {
      q := EarlyStates(c, over, from, t - 1);
      if c.cache > 1 && t - 1 >= from {
        LastPeriod(c.cache, c.interval, q, t - 1);
      }
      q := EarlyStep(c, over, from, LateState(c, over, from, t - 1), t - 1, q);
    }
  }

  /** Between `from` and the override the cache is not refreshed: it was in the iteration before `from`. */
  lemma LastPeriod(cache: nat, interval: nat, q: nat, t: nat)
    requires cache > 1 && interval * cache + 1 <= t + cache && t < interval * cache
    requires cache * q < t + cache && t <= cache * q
    ensures t < cache * q
  {
    if q < interval {
      MulStep(cache, q, interval);
    } else if q > interval {
      MulStep(cache, interval, q);
    }
  }

  /** After the override: not due before the next multiple of the interval, so neither polled nor counted. */
  ghost predicate Calm(over: nat, s: State, t: nat) {
    && s.iteration == t && s.reactorOnly == 0 && |s.reactors| == 1
    && s.reactors[0].enable && s.reactors[0].polls == 0 && s.reactors[0].validUntil <= over
  }

  lemma AfterOverride(c: Config, over: nat, from: nat, s: State, q: nat)
    requires Late(c, over, from) && Early(c, over, s, over, q)
    ensures Calm(over, Iterate(c, s, LateInput(over, from, over)), over + 1)
  {
    if c.cache > 1 && q > c.interval {
      MulStep(c.cache, c.interval, q);
    }
  }

  lemma CalmStep(c: Config, over: nat, from: nat, s: State, t: nat)
    requires Late(c, over, from) && over < t < over + c.interval && Calm(over, s, t)
    ensures Calm(over, Iterate(c, s, LateInput(over, from, t)), t + 1)
  {
    Multiples(c.interval, Period(c.cache), t - over);
  }

  lemma {:induction false} CalmStates(c: Config, over: nat, from: nat, t: nat)
    requires Late(c, over, from) && over < t <= over + c.interval
    ensures Calm(over, LateState(c, over, from, t), t)
  {
    if t == over + 1 {
      var q := EarlyStates(c, over, from, over);
      AfterOverride(c, over, from, LateState(c, over, from, over), q);
    } else {
      CalmStates(c, over, from, t - 1);
      CalmStep(c, over, from, LateState(c, over, from, t - 1), t - 1);
    }
  }

  /** Strictly between two consecutive multiples lies no multiple, and no early iteration either. */
  lemma Multiples(interval: nat, period: nat, d: nat)
    requires 0 < d < interval && period > 0
    ensures (interval * period + d) % interval != 0 && interval * period + d > 1
  {
    DivUnique(interval * period + d, interval, period, d);
    MulStep(interval, 0, period);
  }

  /** The next multiple of the interval is due, finds the cache expired and polls. */
  lemma FirstPoll(c: Config, over: nat, from: nat, s: State)
    requires Late(c, over, from) && Calm(over, s, over + c.interval)
    ensures Iterate(c, s, LateInput(over, from, over + c.interval)).reactors[0].polls == 1
  {
    DivUnique(over + c.interval, c.interval, Period(c.cache) + 1, 0);
  }

  lemma NotPolledYet(c: Config, over: nat, from: nat, t: nat)
    requires Late(c, over, from) && t <= over + c.interval
    ensures LateState(c, over, from, t).reactors[0].polls == 0
  {
    if t <= over {
      var q := EarlyStates(c, over, from, t);
    } else {
      CalmStates(c, over, from, t);
    }
  }

  /** For every interval and cache period some execution attains the bound: its reactor reports `Running`
      from iteration `i` on and is polled for the first time exactly `Latency` iterations later. */
  lemma LatencyAttained(interval: nat, cache: nat) returns (c: Config, states: seq<State>, inputs: seq<Input>, i: nat)
    requires interval > 0
    ensures c.interval == interval && c.cache == cache && c.bound > 0
    ensures IsRun(c, states, inputs) && i + Latency(c) < |inputs| && RunsFrom(inputs, 0, i)
    ensures |states[0].reactors| == 1 && states[0].reactors[0].enable
    ensures forall t :: 0 <= t <= i + Latency(c) ==> |states[t].reactors| == 1 && states[t].reactors[0].polls == 0
    ensures |states[i + Latency(c) + 1].reactors| == 1 && PolledAt(states, 0, i + Latency(c))
  {
    c := Config(interval, cache, 1);
    var over := interval * Period(cache);
    MulStep(Period(cache), 0, interval);
    i := over + 1 - Period(cache);
    var last, from, cfg := over + interval, i, c;
    inputs := seq(last + 1, t requires 0 <= t < last + 1 => LateInput(over, from, t));
    states := seq(last + 2, t requires 0 <= t < last + 2 => LateState(cfg, over, from, t));
    forall t | 0 <= t <= last ensures states[t].reactors[0].polls == 0 {
      NotPolledYet(c, over, i, t);
    }
    CalmStates(c, over, i, last);
    FirstPoll(c, over, i, states[last]);
    assert i + Latency(c) == last;
  }

  // ----- the loop's own fields -----

  /** The part of the runtime that the reactor section of an iteration reads and writes. */
  class Reactors {
    const config: Config
    var iteration: nat
    var reactorOnly: nat
    const wrappers: array<Wrapper>

    ghost function View(): State
      reads this, wrappers
    {
      State(iteration, reactorOnly, wrappers[..])
    }

    constructor (config: Config, enabled: seq<bool>)
      ensures this.config == config && fresh(wrappers)
      ensures View() == State(0, 0, seq(|enabled|, k requires 0 <= k < |enabled| => Fresh(enabled[k])))
    {
      this.config := config;
      iteration, reactorOnly := 0, 0;
      wrappers := new Wrapper[|enabled|](k requires 0 <= k < |enabled| => Fresh(enabled[k]));
    }

    /** `get_cached_reactor_status`. */
    method GetCachedStatus(k: nat, now: nat, answer: Status) returns (status: Status)
      requires k < wrappers.Length
      modifies wrappers
      ensures wrappers[..] == old(wrappers[..])[k := Refreshed(config, old(wrappers[k]), now, answer)]
      ensures status == wrappers[k].cached
    {
      if now < wrappers[k].validUntil {
        return wrappers[k].cached;
      }
      wrappers[k] := wrappers[k].(cached := answer, validUntil := now + config.cache);
      status := answer;
    }

    /** The reactor section of one iteration. */
    method PollReactors(now: nat, statuses: seq<Status>)
      requires |statuses| == wrappers.Length
      modifies wrappers
      ensures forall k :: 0 <= k < wrappers.Length ==> wrappers[k] == Visited(config, old(wrappers[k]), now, statuses[k])
    {
      var k := 0;
      while k < wrappers.Length
        invariant 0 <= k <= wrappers.Length
        invariant forall i :: 0 <= i < wrappers.Length ==>
          wrappers[i] == if i < k then Visited(config, old(wrappers[i]), now, statuses[i]) else old(wrappers[i])
      {
        if wrappers[k].enable {
          var status := GetCachedStatus(k, now, statuses[k]);
          if status == Running {
            wrappers[k] := wrappers[k].(polls := wrappers[k].polls + 1);
          }
        }
        k := k + 1;
      }
    }

    /** One iteration, as far as the reactors are concerned. */
    method RunIteration(inp: Input)
      requires config.interval > 0 && |inp.statuses| == wrappers.Length
      modifies this, wrappers
      ensures View() == Iterate(config, old(View()), inp)
    {
      ghost var was := View();
      var now := iteration;
      iteration := iteration + 1;
      var overridden := reactorOnly >= config.bound;
      if overridden {
        reactorOnly := 0;
      }
      var should := !overridden && (inp.hasPolling || now <= 1 || now % config.interval == 0);
      if should {
        PollReactors(now, inp.statuses);
      }
      if !inp.completed && should {
        reactorOnly := reactorOnly + 1;
      } else if inp.completed {
        reactorOnly := 0;
      }
      assert wrappers[..] == Iterate(config, was, inp).reactors;
    }
  }
}
