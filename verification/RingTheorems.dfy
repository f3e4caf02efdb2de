/** What the pipelined ring guarantees on every run: for every number of ranks and every sequence of calls,
    each with its own micro-chunks and windows, every interleaving, and an operator of which nothing at all
    is assumed. */
module RingTheorems {
  import opened RingIndex
  import opened RingFold
  import opened Wire
  import opened RouterSlots
  import opened RingNet
  import opened RingRows
  import opened RingInvariant
  import opened RingPreserved

  // ----- results -----

  /** Every result any rank has returned is, chunk by chunk, the fold of all contributions in ring order
      starting at the rank the chunk is numbered after. */
  lemma ResultIsRingFold<V>(c: Config<V>, states: seq<State<V>>, events: seq<Event<V>>, i: nat, r: nat, call: nat)
    requires c.Valid() && IsRun(c, states, events) && i < |states|
    requires r < c.n && r < |states[i].ranks| && call < |states[i].ranks[r].results|
    ensures call < |c.calls|
    ensures var rows := states[i].ranks[r].results[call];
      && |rows| == c.calls[call].micros
      && (forall m :: 0 <= m < |rows| ==> |rows[m]| == c.n)
      && (forall m, k :: 0 <= m < |rows| && 0 <= k < c.n ==>
            rows[m][k] == RingTotal(c.op, Column(c, call, m, k), k))
  {
    RunInv(c, states, events, i);
    assert RankOk(c, r, states[i].ranks[r]);
    assert Reduced(c, call, states[i].ranks[r].results[call]);
  }

  /** Hence all ranks return identical buffers, call by call. */
  lemma ResultsAgree<V>(c: Config<V>, states: seq<State<V>>, events: seq<Event<V>>, i: nat, a: nat, b: nat, call: nat)
    requires c.Valid() && IsRun(c, states, events) && i < |states|
    requires a < c.n && b < c.n && |states[i].ranks| == c.n
    requires call < |states[i].ranks[a].results| && call < |states[i].ranks[b].results|
    ensures states[i].ranks[a].results[call] == states[i].ranks[b].results[call]
  {
    ResultIsRingFold(c, states, events, i, a, call);
    ResultIsRingFold(c, states, events, i, b, call);
    var x := states[i].ranks[a].results[call];
    var y := states[i].ranks[b].results[call];
    forall m | 0 <= m < |x| ensures x[m] == y[m] {
      assert forall k :: 0 <= k < c.n ==> x[m][k] == y[m][k];
    }
  }

  /** Reduce-scatter at any moment of any run: once a chain has done more than `s` steps, the chunk it
      received in step `s`, `(r - s - 1) mod n`, holds the fold of `s + 2` consecutive ranks' inputs; after
      the last step the rank owns the full fold of chunk `(r + 1) mod n`. */
  lemma PartialFoldsInRun<V>(c: Config<V>, states: seq<State<V>>, events: seq<Event<V>>, i: nat, r: nat, m: nat, s: nat)
    requires c.Valid() && IsRun(c, states, events) && i < |states| && r < c.n
    requires r < |states[i].ranks| && m < |states[i].ranks[r].chains|
    requires var rk := states[i].ranks[r]; rk.g < 2 * |c.calls| && m < c.Micros(rk.g) && rk.g % 2 == 0 && s < rk.chains[m].done < c.n
    ensures var rk := states[i].ranks[r]; var row := rk.chains[m].row; var k := RecvIdx(c.n, r, 0, s);
      && |row| == c.n && k == (r + c.n - s - 1) % c.n
      && row[k] == Partial(c.op, Column(c, rk.g / 2, m, k), k, s + 1)
      && (rk.chains[m].done == c.n - 1 ==>
            row[(r + 1) % c.n] == RingTotal(c.op, Column(c, rk.g / 2, m, (r + 1) % c.n), (r + 1) % c.n))
  {
    RowInRun(c, states, events, i, r, m);
    var rk := states[i].ranks[r];
    FoldInRow(c, r, m, rk.g, rk.chains[m].done, rk.chains[m].row, s);
    if rk.chains[m].done == c.n - 1 {
      FoldInRow(c, r, m, rk.g, c.n - 1, rk.chains[m].row, c.n - 2);
      LastRecv(c.n, r);
    }
  }

  lemma LastRecv(n: nat, r: nat)
    requires n >= 2 && r < n
    ensures RecvIdx(n, r, 0, n - 2) == (r + 1) % n
  {
  }

  /** The closed form of a row in reduce-scatter. */
  lemma RowInRun<V>(c: Config<V>, states: seq<State<V>>, events: seq<Event<V>>, i: nat, r: nat, m: nat)
    requires c.Valid() && IsRun(c, states, events) && i < |states| && r < c.n
    requires r < |states[i].ranks| && m < |states[i].ranks[r].chains|
    requires var rk := states[i].ranks[r]; rk.g < 2 * |c.calls| && m < c.Micros(rk.g) && rk.g % 2 == 0
    ensures var rk := states[i].ranks[r]; RowIs(c, r, m, rk.g, rk.chains[m].done, rk.chains[m].row)
  {
    RunInv(c, states, events, i);
    assert RankOk(c, r, states[i].ranks[r]) && MemoryOk(c, r, states[i].ranks[r], m);
  }

  lemma FoldInRow<V>(c: Config<V>, r: nat, m: nat, g: nat, d: nat, row: seq<V>, s: nat)
    requires c.Valid() && r < c.n && g < 2 * |c.calls| && m < c.Micros(g) && g % 2 == 0 && s < d < c.n
    requires RowIs(c, r, m, g, d, row)
    ensures var k := RecvIdx(c.n, r, 0, s);
      |row| == c.n && row[k] == Partial(c.op, Column(c, g / 2, m, k), k, s + 1)
  {
    StepIdx(c.n, r, 0, s);
    DistanceOfBack(c.n, r, s + 1);
  }

  // ----- drift and keys -----

  lemma PhasesStayTogether<V>(c: Config<V>, states: seq<State<V>>, events: seq<Event<V>>, i: nat, a: nat, b: nat)
    requires c.Valid() && IsRun(c, states, events) && i < |states|
    requires a < c.n && b < c.n && |states[i].ranks| == c.n
    ensures -1 <= states[i].ranks[a].g - states[i].ranks[b].g <= 1
  {
    RunInv(c, states, events, i);
    PhaseSkew(c, states[i], a, b);
    PhaseSkew(c, states[i], b, a);
  }

  /** No receiver ever has two unconsumed messages under one key: not two on the wire, and not one on
      the wire while another is buffered. The key does not name the call, so this spans calls. */
  lemma OneMessagePerKey<V>(c: Config<V>, states: seq<State<V>>, events: seq<Event<V>>, i: nat, x: Msg<V>, y: Msg<V>)
    requires c.Valid() && IsRun(c, states, events) && i < |states|
    requires x in states[i].net && y in states[i].net && MsgKey(x) == MsgKey(y)
    ensures x == y
    ensures |states[i].ranks| == c.n && x.src < c.n
    ensures var slots := states[i].ranks[Next(c.n, x.src)].slots; MsgKey(x) in slots ==> slots[MsgKey(x)].Pending?
  {
    var s := states[i];
    RunInv(c, states, events, i);
    assert FlightOk(c, s, x) && FlightOk(c, s, y);
    MicrosFit(c, x.g);
    MicrosFit(c, y.g);
    ChainKeyInjective(x.src, x.step, x.g % 2, x.m, y.src, y.step, y.g % 2, y.m);
    ArrivingKey(c, s, x, y.src, y.m, y.g, y.step);
  }

  /** The router's two hazards never materialise: no arrival takes the branch that drops two messages,
      and no receive is registered over another. */
  lemma RouterNeverDrops<V>(c: Config<V>, states: seq<State<V>>, events: seq<Event<V>>, i: nat)
    requires c.Valid() && IsRun(c, states, events) && i < |events|
    ensures events[i].Arrive? ==>
      var msg := events[i].msg;
      msg.src < c.n && |states[i].ranks| == c.n &&
      !Deliver(states[i].ranks[Next(c.n, msg.src)].slots, MsgKey(msg), msg.payload).1.DroppedBoth?
    ensures events[i].Post? ==>
      var r := events[i].r; var m := events[i].m;
      r < c.n && |states[i].ranks| == c.n && m < |states[i].ranks[r].chains| &&
      var rk := states[i].ranks[r];
      var key := ChainKey(Prev(c.n, r), rk.chains[m].done, rk.g % 2, m);
      key in rk.slots ==> rk.slots[key].Early?
  {
    RunInv(c, states, events, i);
    match events[i]
    case Arrive(msg) => ArrivalOutcome(c, states[i], msg);
    case Post(r, m) => IdleNotPending(c, states[i], r, m);
    case _ =>
  }

  // ----- window and zero copy -----

  /** At most as many chains of a rank as its window of the present call allows are pushed and unfinished. */
  lemma WindowRespected<V>(c: Config<V>, states: seq<State<V>>, events: seq<Event<V>>, i: nat, r: nat)
    requires c.Valid() && IsRun(c, states, events) && i < |states| && r < c.n
    ensures |states[i].ranks| == c.n && states[i].ranks[r].launched <= |states[i].ranks[r].chains|
    ensures var rk := states[i].ranks[r];
      if rk.g < 2 * |c.calls|
      then r < |c.calls[rk.g / 2].window| && Open(c, rk.chains, rk.launched) <= c.calls[rk.g / 2].window[r]
      else Open(c, rk.chains, rk.launched) == 0
  {
    RunInv(c, states, events, i);
    assert RankOk(c, r, states[i].ranks[r]);
  }

  /** And the window is used: no chain of a rank moves before as many are open as the call's window allows,
      or all are pushed. */
  lemma WindowFilled<V>(c: Config<V>, states: seq<State<V>>, events: seq<Event<V>>, i: nat)
    requires c.Valid() && IsRun(c, states, events) && i < |events| && (events[i].Post? || events[i].Advance?)
    ensures var r := events[i].r;
      && r < c.n && r < |states[i].ranks|
      && var rk := states[i].ranks[r];
      && rk.launched <= |rk.chains| && rk.g < 2 * |c.calls| && r < |c.calls[rk.g / 2].window|
      && |rk.chains| == c.calls[rk.g / 2].micros
      && (rk.launched == |rk.chains| || Open(c, rk.chains, rk.launched) == c.calls[rk.g / 2].window[r])
  {
    RunInv(c, states, events, i);
    var r := events[i].r;
    WindowRespected(c, states, events, i, r);
    assert RankOk(c, r, states[i].ranks[r]) && c.calls[states[i].ranks[r].g / 2].Valid(c.n);
  }

  /** While a send is outstanding the chunk it reads still holds what it held when the send was posted,
      even after the receive half of the same step has landed in the same row. */
  lemma SendBufferStable<V>(c: Config<V>, states: seq<State<V>>, events: seq<Event<V>>, i: nat, r: nat, m: nat)
    requires c.Valid() && IsRun(c, states, events) && i < |states| && r < c.n
    requires r < |states[i].ranks| && m < |states[i].ranks[r].chains|
    ensures var rk := states[i].ranks[r]; var ch := rk.chains[m];
      ch.busy ==>
        && ch.done + 1 < c.n && |ch.row| == c.n
        && ch.row[SendIdx(c.n, r, rk.g % 2, ch.done)] == ch.sent
        && (forall msg :: msg in states[i].net && msg.src == r && msg.m == m && msg.g == rk.g && msg.step == ch.done
              ==> msg.payload == ch.sent)
  {
    var s := states[i];
    RunInv(c, states, events, i);
    var rk := s.ranks[r];
    assert RankOk(c, r, rk) && MemoryOk(c, r, rk, m);
    var ch := rk.chains[m];
    if ch.busy {
      SendCell(c, r, m, rk.g, ch.done, if rk.g % 2 == 1 && ch.recvDone then ch.done + 1 else ch.done, ch.row);
      forall msg | msg in s.net && msg.src == r && msg.m == m && msg.g == rk.g && msg.step == ch.done
        ensures msg.payload == ch.sent
      {
        assert FlightOk(c, s, msg);
      }
    }
  }

  // ----- progress -----

  ghost predicate Unfinished<V>(c: Config<V>, s: State<V>, r: nat) {
    r < c.n && |s.ranks| == c.n && s.ranks[r].g < 2 * |c.calls|
  }

  /** The message of the outstanding send of chain `m` is still on the wire, or lies buffered at its
      receiver because no receive asks for it yet. */
  ghost predicate Unmatched<V>(c: Config<V>, s: State<V>, r: nat, m: nat)
    requires c.Valid() && StateShaped(c, s) && r < c.n && m < |s.ranks[r].chains|
  {
    var rk := s.ranks[r];
    var key := ChainKey(r, rk.chains[m].done, rk.g % 2, m);
    var slots := s.ranks[Next(c.n, r)].slots;
    || (exists msg :: msg in s.net && msg.src == r && msg.m == m && msg.g == rk.g && msg.step == rk.chains[m].done)
    || (key in slots && slots[key].Early?)
  }

  /** The event completes a send that no receive has matched, as only a buffering transport may. */
  ghost predicate Eager<V>(c: Config<V>, s: State<V>, e: Event<V>)
    requires c.Valid() && StateShaped(c, s) && Enabled(c, s, e)
  {
    e.SendDone? && Unmatched(c, s, e.r, e.m)
  }

  /** The first chain of the phase that still has steps to do. */
  ghost function Front<V>(c: Config<V>, chains: seq<Chain<V>>, from: nat): (m: nat)
    requires from <= |chains|
    ensures from <= m <= |chains|
    ensures forall k :: from <= k < m ==> chains[k].done + 1 >= c.n
    ensures m < |chains| ==> chains[m].done + 1 < c.n
    decreases |chains| - from
  {
    if from == |chains| || chains[from].done + 1 < c.n then from else Front(c, chains, from + 1)
  }

  /** If a chain is open, the front chain is one of the launched ones. */
  lemma OpenHasFront<V>(c: Config<V>, chains: seq<Chain<V>>, launched: nat)
    requires launched <= |chains| && Open(c, chains, launched) > 0
    ensures Front(c, chains, 0) < launched
  {
    if chains[launched - 1].done + 1 >= c.n {
      OpenHasFront(c, chains, launched - 1);
    }
  }

  /** A suspended unfinished rank either can end its phase or has a runnable front chain. */
  lemma FrontRunnable<V>(c: Config<V>, s: State<V>, r: nat)
    requires c.Valid() && Inv(c, s) && Unfinished(c, s, r) && Awaiting(c, r, s.ranks[r])
    ensures var m := Front(c, s.ranks[r].chains, 0);
      if m == |s.ranks[r].chains| then Enabled(c, s, EndPhase(r)) else Runnable(c, s, r, m)
  {
    var rk := s.ranks[r];
    var m := Front(c, rk.chains, 0);
    assert RankOk(c, r, rk);
    if rk.launched < |rk.chains| {
      OpenHasFront(c, rk.chains, rk.launched);
    }
  }

  /** Rank `p` has not come as far as chain `m` of rank `r`: it is in an earlier phase, or its front chain is
      earlier or at an earlier step, or is about to start the same step. */
  ghost predicate Behind<V>(c: Config<V>, s: State<V>, p: nat, r: nat, m: nat)
    requires r < |s.ranks| && p < |s.ranks| && m < |s.ranks[r].chains|
  {
    var a, b := s.ranks[p], s.ranks[r];
    var f := Front(c, a.chains, 0);
    && Unfinished(c, s, p)
    && a.g <= b.g
    && (a.g == b.g ==>
          && f <= m < |a.chains|
          && (f == m ==> a.chains[m].done <= b.chains[m].done &&
                         (a.chains[m].done == b.chains[m].done ==> !a.chains[m].busy)))
  }

  /** A chain that waits for a message nobody has posted yet has its predecessor behind it. */
  lemma PredecessorBehind<V>(c: Config<V>, s: State<V>, r: nat, m: nat)
    requires c.Valid() && Inv(c, s) && Unfinished(c, s, r) && m < |s.ranks[r].chains| && s.net == {}
    requires s.ranks[r].chains[m].busy && !s.ranks[r].chains[m].recvDone
    ensures Behind(c, s, Prev(c.n, r), r, m)
  {
    var p := Prev(c.n, r);
    var rk := s.ranks[r];
    NextPrev(c.n, r);
    assert Linked(c, s, r, m) && WaiterOk(c, s, r, m);
    assert Somewhere(c, s, p, m, rk.g, rk.chains[m].done);
    if s.ranks[p].g > rk.g {
      TicksMonotone(c, m, rk.g, s.ranks[p].g);
    }
    assert RankOk(c, p, s.ranks[p]);
  }

  /** A send whose message lies buffered has its receiver behind it. */
  lemma ReceiverBehind<V>(c: Config<V>, s: State<V>, r: nat, m: nat)
    requires c.Valid() && Inv(c, s) && Unfinished(c, s, r) && m < |s.ranks[r].chains|
    requires s.ranks[r].chains[m].busy && s.ranks[r].chains[m].done + 1 < c.n
    requires var key := ChainKey(r, s.ranks[r].chains[m].done, s.ranks[r].g % 2, m); var slots := s.ranks[Next(c.n, r)].slots;
      key in slots && slots[key].Early?
    ensures Behind(c, s, Next(c.n, r), r, m)
  {
    var q := Next(c.n, r);
    var rk := s.ranks[r];
    var step := rk.chains[m].done;
    var key := ChainKey(r, step, rk.g % 2, m);
    NextPrev(c.n, r);
    MicrosFit(c, rk.g);
    assert SlotOk(c, s, q, key);
    KeyFields(r, step, rk.g % 2, m);
    RecentPhase(c, s, r, m, PhaseOf(s.ranks[q].g, key), step);
    PhaseSkew(c, s, q, r);
    BufferedPhase(c, s, r, m);
    assert RankOk(c, q, s.ranks[q]);
    if s.ranks[q].g == rk.g && s.ranks[q].chains[m].busy {
      assert WaiterOk(c, s, q, m);
    }
  }

  /** A buffered message that carries the key of an outstanding send is that send's. */
  lemma BufferedPhase<V>(c: Config<V>, s: State<V>, r: nat, m: nat)
    requires c.Valid() && Inv(c, s) && Unfinished(c, s, r) && m < |s.ranks[r].chains|
    requires s.ranks[r].chains[m].busy && s.ranks[r].chains[m].done + 1 < c.n
    requires var key := ChainKey(r, s.ranks[r].chains[m].done, s.ranks[r].g % 2, m); var slots := s.ranks[Next(c.n, r)].slots;
      key in slots && slots[key].Early?
    ensures s.ranks[Next(c.n, r)].g <= s.ranks[r].g
    ensures Outstanding(c, s, r, m, s.ranks[r].g, s.ranks[r].chains[m].done)
  {
    var q := Next(c.n, r);
    var rk := s.ranks[r];
    var key := ChainKey(r, rk.chains[m].done, rk.g % 2, m);
    NextPrev(c.n, r);
    MicrosFit(c, rk.g);
    KeyFields(r, rk.chains[m].done, rk.g % 2, m);
    assert SlotOk(c, s, q, key);
    PhaseSkew(c, s, q, r);
    PhaseSkew(c, s, r, q);
    RecentPhase(c, s, r, m, PhaseOf(s.ranks[q].g, key), rk.chains[m].done);
  }

  /** Deadlock freedom: an unfinished rank means that some event is enabled, and one that does not complete
      a send before a receive matches it. The search walks round the ring, to the predecessor whose message
      is missing or to the successor whose receive is; each move meets an earlier phase, an earlier chain or
      an earlier step, so it ends. */
  lemma {:induction false} SomethingEnabled<V>(c: Config<V>, s: State<V>, r: nat) returns (e: Event<V>)
    requires c.Valid() && Inv(c, s) && Unfinished(c, s, r)
    ensures Enabled(c, s, e) && !Eager(c, s, e)
    decreases s.ranks[r].g, Front(c, s.ranks[r].chains, 0),
      if Front(c, s.ranks[r].chains, 0) < |s.ranks[r].chains| then s.ranks[r].chains[Front(c, s.ranks[r].chains, 0)].done else 0
  {
    var rk := s.ranks[r];
    if s.net != {} {
      var msg :| msg in s.net;
      assert FlightOk(c, s, msg);
      return Arrive(msg);
    }
    if !Awaiting(c, r, rk) {
      return Launch(r);
    }
    FrontRunnable(c, s, r);
    var m := Front(c, rk.chains, 0);
    if m == |rk.chains| {
      return EndPhase(r);
    }
    var ch := rk.chains[m];
    if !ch.busy {
      return Post(r, m);
    }
    if ch.sendDone && ch.recvDone {
      return Advance(r, m);
    }
    if !ch.sendDone && !Unmatched(c, s, r, m) {
      return SendDone(r, m);
    }
    var p := if !ch.sendDone then Next(c.n, r) else Prev(c.n, r);
    if !ch.sendDone {
      ReceiverBehind(c, s, r, m);
    } else {
      PredecessorBehind(c, s, r, m);
    }
    if s.ranks[p].g == rk.g && Front(c, s.ranks[p].chains, 0) == m && s.ranks[p].chains[m].done == ch.done {
      if !Awaiting(c, p, s.ranks[p]) {
        return Launch(p);
      }
      FrontRunnable(c, s, p);
      return Post(p, m);
    }
    e := SomethingEnabled(c, s, p);
  }

  /** Hence no reachable state with an unfinished rank is a deadlock, even if sends complete only once a receive has
      matched them, as rendezvous transports and tag matching may require. */
  lemma NeverDeadlocked<V>(c: Config<V>, states: seq<State<V>>, events: seq<Event<V>>, i: nat, r: nat) returns (e: Event<V>)
    requires c.Valid() && IsRun(c, states, events) && i < |states| && Unfinished(c, states[i], r)
    ensures StateShaped(c, states[i]) && Enabled(c, states[i], e) && !Eager(c, states[i], e)
  {
    RunInv(c, states, events, i);
    e := SomethingEnabled(c, states[i], r);
  }

  // ----- termination -----

  /** Events of a chain so far, each post counted with its delivery. */
  ghost function ChainWork<V>(ch: Chain<V>): nat {
    4 * ch.done + (if ch.busy then 2 else 0) + (if ch.sendDone then 1 else 0)
  }

  ghost function Work<V>(chains: seq<Chain<V>>): nat {
    if chains == [] then 0 else Work(chains[..|chains| - 1]) + ChainWork(chains[|chains| - 1])
  }

  lemma WorkUpdate<V>(chains: seq<Chain<V>>, m: nat, ch: Chain<V>)
    requires m < |chains|
    ensures Work(chains[m := ch]) == Work(chains) - ChainWork(chains[m]) + ChainWork(ch)
  {
    var last := |chains| - 1;
    var next := chains[m := ch];
    if m == last {
      assert next[..last] == chains[..last];
    } else {
      assert next[..last] == chains[..last][m := ch];
      WorkUpdate(chains[..last], m, ch);
    }
  }

  lemma WorkUniform<V>(chains: seq<Chain<V>>, w: nat)
    requires forall m :: 0 <= m < |chains| ==> ChainWork(chains[m]) == w
    ensures Work(chains) == |chains| * w
  {
    if chains != [] {
      WorkUniform(chains[..|chains| - 1], w);
      assert |chains| * w == (|chains| - 1) * w + w;
    }
  }

  lemma WorkBounded<V>(chains: seq<Chain<V>>, w: nat)
    requires forall m :: 0 <= m < |chains| ==> ChainWork(chains[m]) <= w
    ensures Work(chains) <= |chains| * w
  {
    if chains != [] {
      WorkBounded(chains[..|chains| - 1], w);
      assert |chains| * w == (|chains| - 1) * w + w;
    }
  }

  /** Events of one rank in one phase: per chain a launch and four events a step, and the end of the phase. */
  ghost function PhaseWork<V>(c: Config<V>, g: nat): nat
    requires c.n >= 1
  {
    c.Micros(g) * (4 * (c.n - 1)) + c.Micros(g) + 1
  }

  /** Events of one rank from phase `g` on. */
  ghost function Remaining<V>(c: Config<V>, g: nat): nat
    requires c.n >= 1
    decreases 2 * |c.calls| - g
  {
    if g < 2 * |c.calls| then PhaseWork(c, g) + Remaining(c, g + 1) else 0
  }

  ghost function RankLeft<V>(c: Config<V>, rk: Rank<V>): int
    requires c.n >= 1
  {
    Remaining(c, rk.g) - rk.launched - Work(rk.chains)
  }

  ghost function TotalLeft<V>(c: Config<V>, ranks: seq<Rank<V>>): int
    requires c.n >= 1
  {
    if ranks == [] then 0 else TotalLeft(c, ranks[..|ranks| - 1]) + RankLeft(c, ranks[|ranks| - 1])
  }

  /** Events still to come, each post counted with its delivery. */
  ghost function Measure<V>(c: Config<V>, s: State<V>): int
    requires c.n >= 1
  {
    TotalLeft(c, s.ranks) + |s.net|
  }

  lemma TotalUpdate<V>(c: Config<V>, ranks: seq<Rank<V>>, r: nat, rk: Rank<V>)
    requires c.n >= 1 && r < |ranks|
    ensures TotalLeft(c, ranks[r := rk]) == TotalLeft(c, ranks) - RankLeft(c, ranks[r]) + RankLeft(c, rk)
  {
    var last := |ranks| - 1;
    var next := ranks[r := rk];
    if r == last {
      assert next[..last] == ranks[..last];
    } else {
      assert next[..last] == ranks[..last][r := rk];
      TotalUpdate(c, ranks[..last], r, rk);
    }
  }

  lemma LeftNonNegative<V>(c: Config<V>, r: nat, rk: Rank<V>)
    requires c.Valid() && r < c.n && RankOk(c, r, rk)
    ensures RankLeft(c, rk) >= 0
    ensures rk.g == 2 * |c.calls| ==> RankLeft(c, rk) == 0
  {
    forall m | 0 <= m < |rk.chains| ensures ChainWork(rk.chains[m]) <= 4 * (c.n - 1) {
      assert ChainFlags(rk, m);
    }
    WorkBounded(rk.chains, 4 * (c.n - 1));
  }

  lemma TotalNonNegative<V>(c: Config<V>, ranks: seq<Rank<V>>)
    requires c.Valid() && |ranks| <= c.n && forall r :: 0 <= r < |ranks| ==> RankOk(c, r, ranks[r])
    ensures TotalLeft(c, ranks) >= 0
  {
    if ranks != [] {
      TotalNonNegative(c, ranks[..|ranks| - 1]);
      LeftNonNegative(c, |ranks| - 1, ranks[|ranks| - 1]);
    }
  }

  lemma EndPhaseLeft<V>(c: Config<V>, rk: Rank<V>, rk': Rank<V>)
    requires c.n >= 1 && rk.g < 2 * |c.calls| && |rk.chains| == c.Micros(rk.g) == rk.launched
    requires rk'.g == rk.g + 1 && rk'.launched == 0
    requires forall m :: 0 <= m < |rk.chains| ==> ChainWork(rk.chains[m]) == 4 * (c.n - 1)
    requires forall m :: 0 <= m < |rk'.chains| ==> ChainWork(rk'.chains[m]) == 0
    ensures RankLeft(c, rk') == RankLeft(c, rk) - 1
  {
    WorkUniform(rk.chains, 4 * (c.n - 1));
    WorkUniform(rk'.chains, 0);
  }

  /** Remaining work after one chain of a rank changes and nothing else that is counted. */
  lemma ChainLeft<V>(c: Config<V>, rk: Rank<V>, rk': Rank<V>, m: nat)
    requires c.n >= 1 && m < |rk.chains| && |rk'.chains| == |rk.chains|
    requires rk'.g == rk.g && rk'.launched == rk.launched
    requires forall k :: 0 <= k < |rk.chains| && k != m ==> rk'.chains[k] == rk.chains[k]
    ensures RankLeft(c, rk') == RankLeft(c, rk) + ChainWork(rk.chains[m]) - ChainWork(rk'.chains[m])
  {
    WorkUpdate(rk.chains, m, rk'.chains[m]);
    assert rk'.chains == rk.chains[m := rk'.chains[m]];
  }

  lemma PostLeft<V>(c: Config<V>, s: State<V>, r: nat, m: nat)
    requires c.Valid() && Inv(c, s) && Enabled(c, s, Post(r, m)) && StateShaped(c, Apply(c, s, Post(r, m)))
    ensures var s' := Apply(c, s, Post(r, m));
      RankLeft(c, s'.ranks[r]) == RankLeft(c, s.ranks[r]) - 2 && |s'.net| == |s.net| + 1
  {
    var s' := Apply(c, s, Post(r, m));
    var rk := s.ranks[r];
    PostEffect(c, s, r, m);
    assert RankOk(c, r, rk) && ChainFlags(rk, m);
    ChainLeft(c, rk, s'.ranks[r], m);
    var msg := Msg(r, m, rk.g, rk.chains[m].done, Payload(c, r, m, rk.g, rk.chains[m].done));
    FlightIsOutstanding(c, s, msg);
  }

  lemma ArriveLeft<V>(c: Config<V>, s: State<V>, msg: Msg<V>)
    requires c.Valid() && Inv(c, s) && Enabled(c, s, Arrive(msg)) && StateShaped(c, Apply(c, s, Arrive(msg)))
    ensures var s' := Apply(c, s, Arrive(msg)); var r := Next(c.n, msg.src);
      RankLeft(c, s'.ranks[r]) == RankLeft(c, s.ranks[r]) && |s'.net| == |s.net| - 1
  {
    var s' := Apply(c, s, Arrive(msg));
    var r := Next(c.n, msg.src);
    ArriveEffect(c, s, msg);
    if MsgKey(msg) in s.ranks[r].slots {
      ChainLeft(c, s.ranks[r], s'.ranks[r], msg.m);
    }
  }

  lemma QuietLeft<V>(c: Config<V>, s: State<V>, e: Event<V>)
    requires c.Valid() && Inv(c, s) && Enabled(c, s, e) && !e.Post? && !e.Arrive?
    ensures RankLeft(c, Apply(c, s, e).ranks[e.r]) == RankLeft(c, s.ranks[e.r]) - 1
  {
    var rk := s.ranks[e.r];
    var rk' := Apply(c, s, e).ranks[e.r];
    assert RankOk(c, e.r, rk);
    match e
    case Launch(_) =>
    case SendDone(_, m) => ChainLeft(c, rk, rk', m);
    case Advance(_, m) => ChainLeft(c, rk, rk', m);
    case EndPhase(r) =>
      forall m | 0 <= m < |rk.chains| ensures ChainWork(rk.chains[m]) == 4 * (c.n - 1) {
        assert ChainFlags(rk, m);
      }
      EndPhaseLeft(c, rk, rk');
  }

  /** Every event uses up exactly one of the events still to come. */
  lemma MeasureDecreases<V>(c: Config<V>, s: State<V>, e: Event<V>)
    requires c.Valid() && Inv(c, s) && Enabled(c, s, e) && StateShaped(c, Apply(c, s, e))
    ensures Measure(c, Apply(c, s, e)) == Measure(c, s) - 1
  {
    var s' := Apply(c, s, e);
    var r := if e.Arrive? then Next(c.n, e.msg.src) else e.r;
    TotalUpdate(c, s.ranks, r, s'.ranks[r]);
    assert s'.ranks == s.ranks[r := s'.ranks[r]];
    match e
    case Post(_, m) => PostLeft(c, s, r, m);
    case Arrive(msg) => ArriveLeft(c, s, msg);
    case _ => QuietLeft(c, s, e);
  }

  lemma OneEventLess<V>(c: Config<V>, states: seq<State<V>>, events: seq<Event<V>>, i: nat)
    requires c.Valid() && IsRun(c, states, events) && i < |events|
    ensures Measure(c, states[i + 1]) == Measure(c, states[i]) - 1
  {
    RunInv(c, states, events, i);
    RunInv(c, states, events, i + 1);
    MeasureDecreases(c, states[i], events[i]);
  }

  lemma {:induction false} MeasureAlongRun<V>(c: Config<V>, states: seq<State<V>>, events: seq<Event<V>>, i: nat)
    requires c.Valid() && IsRun(c, states, events) && i < |states|
    ensures i + Measure(c, states[i]) == Measure(c, Init(c))
  {
    if i > 0 {
      MeasureAlongRun(c, states, events, i - 1);
      OneEventLess(c, states, events, i - 1);
    }
  }

  /** Events of one rank in the calls from number `k` on: twice per call, for its two phases, a launch and
      `4 * (n - 1)` step events for each micro-chunk and the end of the phase. */
  ghost function CallEvents<V>(n: nat, calls: seq<Call<V>>, k: nat): nat
    requires n >= 1 && k <= |calls|
    decreases |calls| - k
  {
    if k == |calls| then 0 else 2 * (calls[k].micros * (4 * n - 3) + 1) + CallEvents(n, calls, k + 1)
  }

  lemma {:induction false} RemainingIsCallEvents<V>(c: Config<V>, k: nat)
    requires c.n >= 1 && k <= |c.calls|
    ensures Remaining(c, 2 * k) == CallEvents(c.n, c.calls, k)
    decreases |c.calls| - k
  {
    if k < |c.calls| {
      RemainingIsCallEvents(c, k + 1);
      var micros := c.calls[k].micros;
      assert c.Micros(2 * k) == micros && c.Micros(2 * k + 1) == micros;
      assert micros * (4 * (c.n - 1)) + micros == micros * (4 * c.n - 3);
      assert Remaining(c, 2 * k) == PhaseWork(c, 2 * k) + (PhaseWork(c, 2 * k + 1) + Remaining(c, 2 * k + 2));
    }
  }

  lemma FreshTotal<V>(c: Config<V>, ranks: seq<Rank<V>>)
    requires c.n >= 1 && forall r :: 0 <= r < |ranks| ==> RankLeft(c, ranks[r]) == Remaining(c, 0)
    ensures TotalLeft(c, ranks) == |ranks| * Remaining(c, 0)
  {
    if ranks != [] {
      FreshTotal(c, ranks[..|ranks| - 1]);
      assert |ranks| * Remaining(c, 0) == (|ranks| - 1) * Remaining(c, 0) + Remaining(c, 0);
    }
  }

  lemma InitMeasure<V>(c: Config<V>)
    requires c.Valid()
    ensures Measure(c, Init(c)) == c.n * CallEvents(c.n, c.calls, 0)
  {
    var s := Init(c);
    forall r | 0 <= r < c.n ensures RankLeft(c, s.ranks[r]) == Remaining(c, 0) {
      InitRankOk(c, r);
      forall m | 0 <= m < |s.ranks[r].chains| ensures ChainWork(s.ranks[r].chains[m]) == 0 {
        assert RankOk(c, r, s.ranks[r]) && ChainFlags(s.ranks[r], m);
      }
      WorkUniform(s.ranks[r].chains, 0);
    }
    FreshTotal(c, s.ranks);
    RemainingIsCallEvents(c, 0);
  }

  /** Termination: no run is longer than `CallEvents` for each rank. */
  lemma RunsEnd<V>(c: Config<V>, states: seq<State<V>>, events: seq<Event<V>>)
    requires c.Valid() && IsRun(c, states, events)
    ensures |events| <= c.n * CallEvents(c.n, c.calls, 0)
  {
    MeasureAlongRun(c, states, events, |events|);
    RunInv(c, states, events, |events|);
    TotalNonNegative(c, states[|events|].ranks);
    InitMeasure(c);
  }

  /** A rank that has returned from all calls keeps no entry in its router. */
  lemma RouterDrained<V>(c: Config<V>, s: State<V>, r: nat, key: RecvKey)
    requires c.Valid() && Inv(c, s) && r < c.n && forall q :: 0 <= q < c.n ==> s.ranks[q].g == 2 * |c.calls|
    ensures key !in s.ranks[r].slots
  {
    if key in s.ranks[r].slots {
      assert SlotOk(c, s, r, key);
      if s.ranks[r].slots[key].Early? {
        NextPrev(c.n, r);
        RecentPhase(c, s, Prev(c.n, r), key.microChunk, PhaseOf(s.ranks[r].g, key), key.step);
      }
    }
  }

  lemma {:induction false} NothingLeft<V>(c: Config<V>, ranks: seq<Rank<V>>)
    requires c.Valid() && |ranks| <= c.n
    requires forall r :: 0 <= r < |ranks| ==> RankOk(c, r, ranks[r]) && ranks[r].g == 2 * |c.calls|
    ensures TotalLeft(c, ranks) == 0
  {
    if ranks != [] {
      NothingLeft(c, ranks[..|ranks| - 1]);
      LeftNonNegative(c, |ranks| - 1, ranks[|ranks| - 1]);
    }
  }

  lemma FlightCanArrive<V>(c: Config<V>, s: State<V>, msg: Msg<V>)
    requires c.Valid() && Inv(c, s) && msg in s.net
    ensures Enabled(c, s, Arrive(msg)) && !Eager(c, s, Arrive(msg))
  {
    assert FlightOk(c, s, msg);
  }

  /** A run that no event but the completion of unmatched sends could extend has exactly that many events; every rank has returned every call, and
      nothing is left behind. */
  lemma StuckMeansDone<V>(c: Config<V>, states: seq<State<V>>, events: seq<Event<V>>)
    requires c.Valid() && IsRun(c, states, events) && StateShaped(c, states[|events|])
    requires forall e :: Enabled(c, states[|events|], e) ==> Eager(c, states[|events|], e)
    ensures var s := states[|events|];
      && s.net == {}
      && (forall r :: 0 <= r < c.n ==> |s.ranks[r].results| == |c.calls| && s.ranks[r].slots == map[])
    ensures |events| == c.n * CallEvents(c.n, c.calls, 0)
  {
    var s := states[|events|];
    RunInv(c, states, events, |events|);
    forall r | 0 <= r < c.n ensures s.ranks[r].g == 2 * |c.calls| && RankOk(c, r, s.ranks[r]) {
      assert RankOk(c, r, s.ranks[r]);
      if Unfinished(c, s, r) {
        var e := SomethingEnabled(c, s, r);
      }
    }
    forall msg ensures msg !in s.net {
      if msg in s.net {
        FlightCanArrive(c, s, msg);
      }
    }
    forall r | 0 <= r < c.n ensures s.ranks[r].slots == map[] {
      forall key ensures key !in s.ranks[r].slots {
        RouterDrained(c, s, r, key);
      }
    }
    NothingLeft(c, s.ranks);
    MeasureAlongRun(c, states, events, |events|);
    InitMeasure(c);
  }
}
