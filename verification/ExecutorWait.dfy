/** Bounded waiting in the run loop: how many iterations pass before an id is dequeued, and how much work an
    iteration does. */
module ExecutorWait {
  import opened Division
  import opened Executor

  /** `DrainNormal` events, `EndIteration` events and `Next` events in `events[i..j]`. */
  ghost function Drains<V>(events: seq<Event<V>>, i: nat, j: nat): nat
    requires i <= j <= |events|
  {
    if i == j then 0 else Drains(events, i, j - 1) + (if events[j - 1].DrainNormal? then 1 else 0)
  }

  ghost function Iterations<V>(events: seq<Event<V>>, i: nat, j: nat): nat
    requires i <= j <= |events|
  {
    if i == j then 0 else Iterations(events, i, j - 1) + (if events[j - 1].EndIteration? then 1 else 0)
  }

  ghost function Nexts<V>(events: seq<Event<V>>, i: nat, j: nat): nat
    requires i <= j <= |events|
    decreases j - i
  {
    if i == j then 0 else (if events[i].Next? then 1 else 0) + Nexts(events, i + 1, j)
  }

  /** What the drains in `events[i..j]` remove from a queue that is long enough. */
  ghost function Removed<V>(size: nat, events: seq<Event<V>>, i: nat, j: nat): nat
    requires i <= j <= |events|
  {
    if i == j then 0 else Removed(size, events, i, j - 1) + (if events[j - 1].DrainNormal? then size else 0)
  }

  lemma {:induction false} RemovedIsProduct<V>(size: nat, events: seq<Event<V>>, i: nat, j: nat)
    requires i <= j <= |events|
    ensures Removed(size, events, i, j) == size * Drains(events, i, j)
  {
    if i < j {
      RemovedIsProduct(size, events, i, j - 1);
      if events[j - 1].DrainNormal? {
        assert size * (Drains(events, i, j - 1) + 1) == size * Drains(events, i, j - 1) + size;
      }
    }
  }

  /** One event moves the id at position `p` forward by one batch if it is a drain, and not at all otherwise. */
  lemma PositionStep<V>(size: nat, s: State<V>, e: Event<V>, p: nat)
    requires Enabled(s, e) && p < |s.normal| && (e.DrainNormal? ==> size <= p)
    ensures var t := Apply(size, s, e); var q := if e.DrainNormal? then p - size else p;
      q < |t.normal| && t.normal[q] == s.normal[p]
  {
  }

  lemma RemovedGrows<V>(size: nat, events: seq<Event<V>>, i: nat, j: nat)
    requires i <= j < |events|
    ensures Removed(size, events, i, j + 1) == Removed(size, events, i, j) + (if events[j].DrainNormal? then size else 0)
  {
  }

  /** Where the id at position `k` of `s` has got to when `gone` ids have been removed before it. */
  ghost predicate MovedTo<V>(s: State<V>, t: State<V>, k: nat, gone: nat)
    requires k < |s.normal|
  {
    gone <= k && k - gone < |t.normal| && t.normal[k - gone] == s.normal[k]
  }

  lemma MovedOn<V>(size: nat, s: State<V>, t: State<V>, e: Event<V>, k: nat, gone: nat, next: nat)
    requires k < |s.normal| && MovedTo(s, t, k, gone) && Enabled(t, e)
    requires next == gone + (if e.DrainNormal? then size else 0) && next <= k
    ensures MovedTo(s, Apply(size, t, e), k, next)
  {
    PositionStep(size, t, e, k - gone);
  }

  lemma {:induction false} QueueAdvances<V>(size: nat, states: seq<State<V>>, events: seq<Event<V>>, i: nat, j: nat, k: nat, gone: nat)
    requires IsRun(size, states, events) && i <= j <= |events| && k < |states[i].normal|
    requires gone == Removed(size, events, i, j) && gone <= k
    ensures MovedTo(states[i], states[j], k, gone)
    decreases j
  {
    if i < j {
      var before := Removed(size, events, i, j - 1);
      RemovedGrows(size, events, i, j - 1);
      QueueAdvances(size, states, events, i, j - 1, k, before);
      MovedOn(size, states[i], states[j - 1], events[j - 1], k, before, gone);
    }
  }

  lemma DrainTakes<V>(size: nat, s: State<V>, p: nat)
    requires Enabled(s, DrainNormal) && p < size && p < |s.normal|
    ensures var phase := Apply(size, s, DrainNormal).phase;
      phase.NormalBatch? && p < |phase.rest| && phase.rest[p] == s.normal[p]
  {
  }

  /** An id at position `k` of the normal queue is put in a batch by the drain number `k / size + 1` from
      then on, whatever is enqueued behind it. */
  lemma DequeuedByDrain<V>(size: nat, states: seq<State<V>>, events: seq<Event<V>>, i: nat, j: nat, k: nat)
    requires size > 0 && IsRun(size, states, events) && i <= j < |events| && k < |states[i].normal|
    requires events[j].DrainNormal? && Drains(events, i, j) == k / size
    ensures var phase := states[j + 1].phase;
      phase.NormalBatch? && k % size < |phase.rest| && phase.rest[k % size] == states[i].normal[k]
  {
    DivBounds(k, size);
    RemovedIsProduct(size, events, i, j);
    var gone := Removed(size, events, i, j);
    assert k - gone == k % size;
    QueueAdvances(size, states, events, i, j, k, gone);
    DrainTakes(size, states[j], k % size);
  }

  ghost predicate SameBatch(p: Phase, q: Phase) {
    (p.PollingBatch? && q.PollingBatch?) || (p.NormalBatch? && q.NormalBatch?)
  }

  /** A batch loses its front with each `Next`, and nothing else touches it until it is empty. */
  lemma BatchStep<V>(size: nat, s: State<V>, e: Event<V>)
    requires Enabled(s, e) && Rest(s.phase) != []
    ensures var t := Apply(size, s, e);
      SameBatch(s.phase, t.phase) && Rest(t.phase) == if e.Next? then Rest(s.phase)[1..] else Rest(s.phase)
  {
  }

  /** Every id of a batch is taken before the loop leaves the batch. */
  lemma {:induction false} BatchTaken<V>(size: nat, states: seq<State<V>>, events: seq<Event<V>>, a: nat, b: nat, k: nat)
    returns (t: nat)
    requires IsRun(size, states, events) && a <= b < |states| && k < |Rest(states[a].phase)|
    requires !SameBatch(states[a].phase, states[b].phase)
    ensures a <= t < b && events[t].Next? && Rest(states[t].phase) == Rest(states[a].phase)[k..]
    decreases b - a
  {
    BatchStep(size, states[a], events[a]);
    if events[a].Next? && k == 0 {
      return a;
    }
    t := BatchTaken(size, states, events, a + 1, b, if events[a].Next? then k - 1 else k);
  }

  /** A batch costs exactly one `Next` for each id it was drained with: what is enqueued meanwhile waits for
      a later batch, so the work of an iteration is finite. */
  lemma {:induction false} BatchWork<V>(size: nat, states: seq<State<V>>, events: seq<Event<V>>, a: nat, b: nat)
    requires IsRun(size, states, events) && a < b < |states| && !states[a].phase.Top?
    requires forall t :: a <= t < b ==> SameBatch(states[a].phase, states[t].phase)
    requires !SameBatch(states[a].phase, states[b].phase)
    ensures Nexts(events, a, b) == |Rest(states[a].phase)|
    decreases b - a
  {
    if Rest(states[a].phase) == [] {
      if a + 1 < b {
        assert SameBatch(states[a].phase, states[a + 1].phase);
        BatchWork(size, states, events, a + 1, b);
      }
    } else {
      BatchStep(size, states[a], events[a]);
      BatchWork(size, states, events, a + 1, b);
    }
  }

  lemma NormalPhaseStep<V>(size: nat, s: State<V>, e: Event<V>)
    requires Enabled(s, e)
    ensures var t := Apply(size, s, e);
      && (e.DrainNormal? ==> !s.phase.NormalBatch? && t.phase.NormalBatch?)
      && (e.EndIteration? ==> s.phase.NormalBatch? && !t.phase.NormalBatch?)
      && (!e.DrainNormal? && !e.EndIteration? ==> (s.phase.NormalBatch? <==> t.phase.NormalBatch?))
  {
  }

  /** Each iteration has exactly one drain of the normal queue. */
  lemma {:induction false} OneDrainPerIteration<V>(size: nat, states: seq<State<V>>, events: seq<Event<V>>, i: nat, j: nat)
    requires IsRun(size, states, events) && i <= j <= |events| && states[i].phase.Top?
    ensures Drains(events, i, j) == Iterations(events, i, j) + (if states[j].phase.NormalBatch? then 1 else 0)
    decreases j
  {
    if i < j {
      OneDrainPerIteration(size, states, events, i, j - 1);
      NormalPhaseStep(size, states[j - 1], events[j - 1]);
    }
  }

  lemma {:induction false} DrainNumber<V>(events: seq<Event<V>>, i: nat, j: nat, d: nat) returns (t: nat)
    requires i <= j <= |events| && d < Drains(events, i, j)
    ensures i <= t < j && events[t].DrainNormal? && Drains(events, i, t) == d
    decreases j
  {
    if d < Drains(events, i, j - 1) {
      t := DrainNumber(events, i, j - 1, d);
    } else {
      t := j - 1;
    }
  }

  /** Bounded wait: an id at position `k` of the normal queue at the top of an iteration has been taken from
      a batch by the end of iteration `k / size + 1`. */
  lemma BoundedWait<V>(size: nat, states: seq<State<V>>, events: seq<Event<V>>, i: nat, j: nat, k: nat) returns (t: nat)
    requires size > 0 && IsRun(size, states, events) && i <= j <= |events| && k < |states[i].normal|
    requires states[i].phase.Top? && states[j].phase.Top? && Iterations(events, i, j) >= k / size + 1
    ensures i <= t < j && events[t].Next? && Rest(states[t].phase) != [] && Rest(states[t].phase)[0] == states[i].normal[k]
  {
    OneDrainPerIteration(size, states, events, i, j);
    var d := DrainNumber(events, i, j, k / size);
    DequeuedByDrain(size, states, events, i, d, k);
    t := BatchTaken(size, states, events, d + 1, j, k % size);
  }

  /** Every id that is in the polling queue at the top of an iteration is taken in that iteration. */
  lemma PollingQueueServed<V>(size: nat, states: seq<State<V>>, events: seq<Event<V>>, i: nat, j: nat, k: nat) returns (t: nat)
    requires IsRun(size, states, events) && i < j <= |events| && events[i].DrainPolling?
    requires k < |states[i].polling| && !states[j].phase.PollingBatch?
    ensures i < t < j && events[t].Next? && Rest(states[t].phase) != [] && Rest(states[t].phase)[0] == states[i].polling[k]
  {
    t := BatchTaken(size, states, events, i + 1, j, k);
  }

  // ----- from wakeup to poll -----

  ghost predicate InSlab<V>(s: State<V>, id: nat, uid: nat) {
    id in s.slab && s.slab[id].Some? && s.slab[id].value.uid == uid
  }

  /** A task stays in its slot until a poll of it starts. */
  lemma StaysInSlab<V>(size: nat, s: State<V>, e: Event<V>, id: nat, uid: nat)
    requires Inv(s) && Enabled(s, e) && InSlab(s, id, uid) && !StartsPoll(s, e, uid)
    ensures InSlab(Apply(size, s, e), id, uid)
  {
  }

  lemma {:induction false} PolledOrInSlab<V>(size: nat, states: seq<State<V>>, events: seq<Event<V>>, i: nat, t: nat, id: nat, uid: nat)
    returns (u: nat)
    requires IsRun(size, states, events) && i <= t <= |events| && InSlab(states[i], id, uid)
    ensures (i <= u < t && StartsPoll(states[u], events[u], uid)) || InSlab(states[t], id, uid)
    decreases t - i
  {
    u := i;
    if i < t {
      RunInv(size, states, events, i);
      if !StartsPoll(states[i], events[i], uid) {
        StaysInSlab(size, states[i], events[i], id, uid);
        u := PolledOrInSlab(size, states, events, i + 1, t, id, uid);
      }
    }
  }

  lemma {:induction false} FirstDrain<V>(size: nat, states: seq<State<V>>, events: seq<Event<V>>, i: nat, j: nat, k: nat) returns (d: nat)
    requires IsRun(size, states, events) && i <= j <= |events| && states[i].phase.Top? && k < |states[i].polling|
    requires Iterations(events, i, j) > 0
    ensures i <= d < j && events[d].DrainPolling? && k < |states[d].polling| && states[d].polling[k] == states[i].polling[k]
    decreases j - i
  {
    IterationsFrom(events, i, j);
    if events[i].DrainPolling? {
      return i;
    }
    d := FirstDrain(size, states, events, i + 1, j, k);
  }

  lemma {:induction false} IterationsFrom<V>(events: seq<Event<V>>, i: nat, j: nat)
    requires i <= j <= |events|
    ensures i < j ==> Iterations(events, i, j) == (if events[i].EndIteration? then 1 else 0) + Iterations(events, i + 1, j)
    decreases j
  {
    if i + 1 < j {
      IterationsFrom(events, i, j - 1);
    }
  }

  /** Iterations after which a task of this queue, woken by now, has been polled. */
  ghost function WaitBound<V>(size: nat, s: State<V>, queue: Queue): nat
    requires size > 0
  {
    match queue
    case PollingQueue => 1
    case NormalQueue => |s.normal| / size + 1
  }

  lemma SmallerQuotient(a: nat, b: nat, d: nat)
    requires a <= b && d > 0
    ensures a / d <= b / d
  {
    DivBounds(a, d);
    DivBounds(b, d);
    if b / d < a / d {
      MulStep(d, b / d, a / d);
    }
  }

  /** Liveness: a task that, at the top of an iteration, has been woken since its last poll began is polled
      again within one iteration on the polling queue, and within `|queue| / size + 1` iterations on the
      normal queue, as long as the loop runs that long. */
  lemma WokenTaskIsPolled<V>(size: nat, states: seq<State<V>>, events: seq<Event<V>>, i: nat, j: nat, uid: nat) returns (u: nat)
    requires size > 0 && IsRun(size, states, events) && i <= j <= |events|
    requires states[i].phase.Top? && states[j].phase.Top?
    requires Alive(states[i], uid) && Woken(size, states, events, i, uid)
    requires Iterations(events, i, j) >= WaitBound(size, states[i], states[i].homes[uid].1)
    ensures i <= u < j && StartsPoll(states[u], events[u], uid)
  {
    var s := states[i];
    var id, queue := s.homes[uid].0, s.homes[uid].1;
    RunInv(size, states, events, i);
    NoLostWakeup(size, states, events, i, uid);
    var k :| 0 <= k < |QueueOf(s, queue)| && QueueOf(s, queue)[k] == id;
    var t;
    if queue == NormalQueue {
      SmallerQuotient(k, |s.normal|, size);
      t := BoundedWait(size, states, events, i, j, k);
    } else {
      var d := FirstDrain(size, states, events, i, j, k);
      t := PollingQueueServed(size, states, events, d, j, k);
    }
    u := PolledOrInSlab(size, states, events, i, t, id, uid);
    if !(i <= u < t && StartsPoll(states[u], events[u], uid)) {
      u := t;
    }
  }
}
