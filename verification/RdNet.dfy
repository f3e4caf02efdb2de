/** `2^k` ranks running back-to-back recursive-doubling allreduces over tag-matched messages.

    Messages of one sender, destination and tag are matched in the order they were sent, as the tag
    matching layer promises; nothing else is assumed about timing. `out[r]` holds the messages a rank
    has posted for round `r` that its peer of that round has not matched yet. */
module RdNet {
  import opened Ops
  import opened Doubling

  datatype Config<!V> = Config(k: nat, op: (V, V) -> V, input: seq<seq<V>>, blank: V)
  {
    /** At least two ranks, and one buffer per rank and call. */
    ghost predicate Valid() {
      k >= 1 && forall call :: 0 <= call < |input| ==> |input[call]| == Pow2(k)
    }
  }

  datatype Rank<V> = Rank(call: nat, round: nat, busy: bool, sendDone: bool, recvDone: bool,
                          buf: V, tmp: V, sent: V, out: seq<seq<V>>, results: seq<V>)

  datatype Event = Post(p: nat) | SendDone(p: nat) | Receive(p: nat) | Advance(p: nat) | EndCall(p: nat)

  ghost predicate Shaped<V>(c: Config<V>, s: seq<Rank<V>>) {
    && |s| == Pow2(c.k)
    && (forall p :: 0 <= p < |s| ==> |s[p].out| == c.k && s[p].round <= c.k)
  }

  ghost predicate Live<V>(c: Config<V>, s: seq<Rank<V>>, p: nat)
    requires Shaped(c, s)
  {
    p < |s| && s[p].call < |c.input|
  }

  ghost predicate Enabled<V>(c: Config<V>, s: seq<Rank<V>>, e: Event)
    requires Shaped(c, s)
  {
    Live(c, s, e.p) &&
    var rk := s[e.p];
    match e
    case Post(_) => rk.round < c.k && !rk.busy
    case SendDone(_) => rk.busy && !rk.sendDone
    case Receive(p) =>
      && rk.round < c.k && rk.busy && !rk.recvDone
      && PeerOf(c, s, p, rk.round) < |s| && |s[PeerOf(c, s, p, rk.round)].out[rk.round]| > 0
    case Advance(_) => rk.round < c.k && rk.busy && rk.sendDone && rk.recvDone
    case EndCall(_) => rk.round == c.k
  }

  ghost function PeerOf<V>(c: Config<V>, s: seq<Rank<V>>, p: nat, r: nat): (q: nat)
    requires Shaped(c, s) && p < |s| && r < c.k
    ensures q == Peer(p, r) && q < |s| && q != p
  {
    PeerInRange(p, r, c.k);
    PeerBlock(p, r);
    Peer(p, r)
  }

  ghost function Apply<V>(c: Config<V>, s: seq<Rank<V>>, e: Event): seq<Rank<V>>
    requires Shaped(c, s) && Enabled(c, s, e) && c.Valid()
  {
    var rk := s[e.p];
    match e
    case Post(p) => s[p := rk.(busy := true, sent := rk.buf, out := rk.out[rk.round := rk.out[rk.round] + [rk.buf]])]
    case SendDone(p) => s[p := rk.(sendDone := true)]
    case Receive(p) =>
      var q := PeerOf(c, s, p, rk.round);
      var queue := s[q].out[rk.round];
      s[p := rk.(recvDone := true, tmp := queue[0])][q := s[q].(out := s[q].out[rk.round := queue[1..]])]
    case Advance(p) =>
      s[p := rk.(round := rk.round + 1, busy := false, sendDone := false, recvDone := false, buf := c.op(rk.buf, rk.tmp))]
    case EndCall(p) =>
      var next := if rk.call + 1 < |c.input| then c.input[rk.call + 1][p] else rk.buf;
      s[p := rk.(call := rk.call + 1, round := 0, buf := next, results := rk.results + [rk.buf])]
  }

  ghost function Init<V>(c: Config<V>): (s: seq<Rank<V>>)
    requires c.Valid()
    ensures Shaped(c, s)
  {
    seq(Pow2(c.k), p requires 0 <= p < Pow2(c.k) =>
      Rank(0, 0, false, false, false, if |c.input| > 0 then c.input[0][p] else c.blank, c.blank, c.blank,
           seq(c.k, _ => []), []))
  }

  ghost predicate IsRun<V>(c: Config<V>, states: seq<seq<Rank<V>>>, events: seq<Event>)
    requires c.Valid()
  {
    && |states| == |events| + 1
    && states[0] == Init(c)
    && (forall i :: 0 <= i < |events| ==>
          Shaped(c, states[i]) && Enabled(c, states[i], events[i]) && states[i + 1] == Apply(c, states[i], events[i]))
  }

  // ----- invariant -----

  ghost function Posted<V>(rk: Rank<V>, r: nat): nat {
    rk.call + (if rk.round > r || (rk.round == r && rk.busy) then 1 else 0)
  }

  ghost function Taken<V>(rk: Rank<V>, r: nat): nat {
    rk.call + (if rk.round > r || (rk.round == r && rk.busy && rk.recvDone) then 1 else 0)
  }

  ghost predicate RankOk<V>(c: Config<V>, rk: Rank<V>, p: nat)
    requires c.Valid() && p < Pow2(c.k) && rk.round <= c.k
  {
    && rk.call <= |c.input|
    && (!rk.busy ==> !rk.sendDone && !rk.recvDone)
    && (rk.busy ==> rk.round < c.k && rk.sent == rk.buf)
    && (rk.call == |c.input| ==> rk.round == 0 && !rk.busy)
    && (rk.call < |c.input| ==> rk.buf == Val(c.op, c.input[rk.call], c.k, p, rk.round))
    && (rk.call < |c.input| && rk.busy && rk.recvDone ==>
          && Peer(p, rk.round) < Pow2(c.k)
          && rk.tmp == Val(c.op, c.input[rk.call], c.k, Peer(p, rk.round), rk.round))
    && |rk.results| == rk.call
    && (forall call :: 0 <= call < |rk.results| ==> rk.results[call] == Val(c.op, c.input[call], c.k, p, c.k))
  }

  /** The queue from `p` to its peer of round `r` holds exactly the posted and unmatched messages, in order. */
  ghost predicate QueueOk<V>(c: Config<V>, s: seq<Rank<V>>, p: nat, r: nat)
    requires c.Valid() && Shaped(c, s) && p < |s| && r < c.k
  {
    var taken := Taken(s[PeerOf(c, s, p, r)], r);
    && taken <= Posted(s[p], r) <= |c.input|
    && |s[p].out[r]| == Posted(s[p], r) - taken
    && (forall i :: 0 <= i < |s[p].out[r]| ==> s[p].out[r][i] == Val(c.op, c.input[taken + i], c.k, p, r))
  }

  ghost predicate Inv<V>(c: Config<V>, s: seq<Rank<V>>)
    requires c.Valid()
  {
    && Shaped(c, s)
    && (forall p :: 0 <= p < |s| ==> RankOk(c, s[p], p))
    && (forall p, r :: 0 <= p < |s| && 0 <= r < c.k ==> QueueOk(c, s, p, r))
  }

  lemma InitInv<V>(c: Config<V>)
    requires c.Valid()
    ensures Inv(c, Init(c))
  {
  }

  /** An event that leaves queues and counters alone. */
  lemma QuietStep<V>(c: Config<V>, s: seq<Rank<V>>, p: nat, rk: Rank<V>)
    requires c.Valid() && Inv(c, s) && p < |s| && rk.out == s[p].out && rk.round <= c.k && RankOk(c, rk, p)
    requires forall r :: 0 <= r < c.k ==> Posted(rk, r) == Posted(s[p], r) && Taken(rk, r) == Taken(s[p], r)
    ensures Inv(c, s[p := rk])
  {
    var s' := s[p := rk];
    assert Shaped(c, s');
    forall q, r | 0 <= q < |s'| && 0 <= r < c.k ensures QueueOk(c, s', q, r) {
      QueueKept(c, s, s', q, r);
    }
  }

  /** A queue depends on its messages and on the two counters at its ends. */
  lemma QueueKept<V>(c: Config<V>, s: seq<Rank<V>>, s': seq<Rank<V>>, q: nat, r: nat)
    requires c.Valid() && Shaped(c, s) && Shaped(c, s') && q < |s| && r < c.k && QueueOk(c, s, q, r)
    requires s'[q].out[r] == s[q].out[r] && Posted(s'[q], r) == Posted(s[q], r)
    requires var p := PeerOf(c, s, q, r); Taken(s'[p], r) == Taken(s[p], r)
    ensures QueueOk(c, s', q, r)
  {
  }

  lemma PostInv<V>(c: Config<V>, s: seq<Rank<V>>, p: nat)
    requires c.Valid() && Inv(c, s) && Enabled(c, s, Post(p))
    ensures Inv(c, Apply(c, s, Post(p)))
  {
    var s' := Apply(c, s, Post(p));
    assert RankOk(c, s[p], p);
    forall q, r | 0 <= q < |s'| && 0 <= r < c.k ensures QueueOk(c, s', q, r) {
      assert QueueOk(c, s, q, r);
      PostQueue(c, s, p, q, r);
    }
  }

  lemma ReceiveRanks<V>(c: Config<V>, s: seq<Rank<V>>, p: nat)
    requires c.Valid() && Inv(c, s) && Enabled(c, s, Receive(p))
    ensures var s' := Apply(c, s, Receive(p)); forall x :: 0 <= x < |s'| ==> RankOk(c, s'[x], x)
  {
    var q := PeerOf(c, s, p, s[p].round);
    PeerBlock(p, s[p].round);
    assert RankOk(c, s[p], p) && RankOk(c, s[q], q);
    assert QueueOk(c, s, q, s[p].round);
  }

  /** A queue whose contents and counters are unchanged. */
  lemma SameQueue<V>(c: Config<V>, s: seq<Rank<V>>, s': seq<Rank<V>>, x: nat, r: nat)
    requires c.Valid() && Shaped(c, s) && Shaped(c, s') && x < |s| && r < c.k && QueueOk(c, s, x, r)
    requires Posted(s'[x], r) == Posted(s[x], r) && s'[x].out[r] == s[x].out[r]
    requires Taken(s'[PeerOf(c, s', x, r)], r) == Taken(s[PeerOf(c, s, x, r)], r)
    ensures QueueOk(c, s', x, r)
  {
  }

  /** A queue that lost its head to its reader. */
  lemma PoppedQueue<V>(c: Config<V>, s: seq<Rank<V>>, s': seq<Rank<V>>, x: nat, r: nat)
    requires c.Valid() && Shaped(c, s) && Shaped(c, s') && x < |s| && r < c.k && QueueOk(c, s, x, r)
    requires |s[x].out[r]| > 0 && Posted(s'[x], r) == Posted(s[x], r) && s'[x].out[r] == s[x].out[r][1..]
    requires Taken(s'[PeerOf(c, s', x, r)], r) == Taken(s[PeerOf(c, s, x, r)], r) + 1
    ensures QueueOk(c, s', x, r)
  {
  }

  /** A queue that gained the value its owner holds. */
  lemma PushedQueue<V>(c: Config<V>, s: seq<Rank<V>>, s': seq<Rank<V>>, x: nat, r: nat, v: V)
    requires c.Valid() && Shaped(c, s) && Shaped(c, s') && x < |s| && r < c.k && QueueOk(c, s, x, r)
    requires Posted(s'[x], r) == Posted(s[x], r) + 1 <= |c.input| && s'[x].out[r] == s[x].out[r] + [v]
    requires v == Val(c.op, c.input[Posted(s[x], r)], c.k, x, r)
    requires Taken(s'[PeerOf(c, s', x, r)], r) == Taken(s[PeerOf(c, s, x, r)], r)
    ensures QueueOk(c, s', x, r)
  {
  }

  lemma ReceiveQueue<V>(c: Config<V>, s: seq<Rank<V>>, p: nat, x: nat, r: nat)
    requires c.Valid() && Shaped(c, s) && Enabled(c, s, Receive(p)) && x < |s| && r < c.k && QueueOk(c, s, x, r)
    requires Shaped(c, Apply(c, s, Receive(p)))
    ensures QueueOk(c, Apply(c, s, Receive(p)), x, r)
  {
    var s' := Apply(c, s, Receive(p));
    var q := PeerOf(c, s, p, s[p].round);
    PeerBlock(p, s[p].round);
    PeerBlock(x, r);
    if x == q && r == s[p].round {
      PoppedQueue(c, s, s', x, r);
    } else {
      SameQueue(c, s, s', x, r);
    }
  }

  lemma PostQueue<V>(c: Config<V>, s: seq<Rank<V>>, p: nat, x: nat, r: nat)
    requires c.Valid() && Shaped(c, s) && Enabled(c, s, Post(p)) && x < |s| && r < c.k && QueueOk(c, s, x, r)
    requires RankOk(c, s[p], p) && Shaped(c, Apply(c, s, Post(p)))
    ensures QueueOk(c, Apply(c, s, Post(p)), x, r)
  {
    var s' := Apply(c, s, Post(p));
    if x == p && r == s[p].round {
      PushedQueue(c, s, s', x, r, s[p].buf);
    } else {
      SameQueue(c, s, s', x, r);
    }
  }

  lemma ReceiveInv<V>(c: Config<V>, s: seq<Rank<V>>, p: nat)
    requires c.Valid() && Inv(c, s) && Enabled(c, s, Receive(p))
    ensures Inv(c, Apply(c, s, Receive(p)))
  {
    var s' := Apply(c, s, Receive(p));
    ReceiveRanks(c, s, p);
    forall x, r | 0 <= x < |s'| && 0 <= r < c.k ensures QueueOk(c, s', x, r) {
      assert QueueOk(c, s, x, r);
      ReceiveQueue(c, s, p, x, r);
    }
  }

  lemma AdvanceInv<V>(c: Config<V>, s: seq<Rank<V>>, p: nat)
    requires c.Valid() && Inv(c, s) && Enabled(c, s, Advance(p))
    ensures Inv(c, Apply(c, s, Advance(p)))
  {
    assert RankOk(c, s[p], p);
    QuietStep(c, s, p, Apply(c, s, Advance(p))[p]);
  }

  lemma EndCallInv<V>(c: Config<V>, s: seq<Rank<V>>, p: nat)
    requires c.Valid() && Inv(c, s) && Enabled(c, s, EndCall(p))
    ensures Inv(c, Apply(c, s, EndCall(p)))
  {
    assert RankOk(c, s[p], p);
    QuietStep(c, s, p, Apply(c, s, EndCall(p))[p]);
  }

  lemma StepPreserves<V>(c: Config<V>, s: seq<Rank<V>>, e: Event)
    requires c.Valid() && Inv(c, s) && Enabled(c, s, e)
    ensures Inv(c, Apply(c, s, e))
  {
    match e
    case Post(p) => PostInv(c, s, p);
    case Receive(p) => ReceiveInv(c, s, p);
    case Advance(p) => AdvanceInv(c, s, p);
    case EndCall(p) => EndCallInv(c, s, p);
    case SendDone(p) =>
      assert RankOk(c, s[p], p);
      QuietStep(c, s, p, s[p].(sendDone := true));
  }

  lemma {:induction false} RunInv<V>(c: Config<V>, states: seq<seq<Rank<V>>>, events: seq<Event>, i: nat)
    requires c.Valid() && IsRun(c, states, events) && i < |states|
    ensures Inv(c, states[i])
  {
    if i == 0 {
      InitInv(c);
    } else {
      RunInv(c, states, events, i - 1);
      StepPreserves(c, states[i - 1], events[i - 1]);
    }
  }

  // ----- theorems -----

  /** In the middle of a run, any two ranks of an aligned block of `2^round` that are at the same round of
      the same call hold the same value; only commutativity is used. Finished calls agree everywhere. */
  lemma BlocksAgreeInRun<V(!new)>(c: Config<V>, states: seq<seq<Rank<V>>>, events: seq<Event>, i: nat, p: nat, q: nat)
    requires c.Valid() && IsRun(c, states, events) && i < |states| && Commutative(c.op)
    requires p < |states[i]| && q < |states[i]|
    ensures var a, b := states[i][p], states[i][q];
      && (a.call == b.call < |c.input| && a.round == b.round && p / Pow2(a.round) == q / Pow2(a.round) ==> a.buf == b.buf)
      && (forall call :: 0 <= call < |a.results| && call < |b.results| ==> a.results[call] == b.results[call])
  {
    var s := states[i];
    RunInv(c, states, events, i);
    var a, b := s[p], s[q];
    assert RankOk(c, a, p) && RankOk(c, b, q);
    if a.call == b.call < |c.input| && a.round == b.round && p / Pow2(a.round) == q / Pow2(a.round) {
      BlockAgrees(c.op, c.input[a.call], c.k, p, q, a.round);
    }
    forall call | 0 <= call < |a.results| && call < |b.results| ensures a.results[call] == b.results[call] {
      AllAgree(c.op, c.input[call], c.k, p, q);
    }
  }

  /** Without any law, a result is the value of the exchange tree of its rank. */
  lemma ResultIsTree<V>(c: Config<V>, states: seq<seq<Rank<V>>>, events: seq<Event>, i: nat, p: nat, call: nat)
    requires c.Valid() && IsRun(c, states, events) && i < |states|
    requires p < |states[i]| && call < |states[i][p].results|
    ensures call < |c.input| && |c.input[call]| == Pow2(c.k) && p < Pow2(c.k)
    ensures states[i][p].results[call] == Val(c.op, c.input[call], c.k, p, c.k)
  {
    RunInv(c, states, events, i);
    assert RankOk(c, states[i][p], p);
  }

  /** The event completes a send that its peer has not matched, as only a buffering transport may. */
  ghost predicate Eager<V>(c: Config<V>, s: seq<Rank<V>>, e: Event)
    requires Shaped(c, s)
  {
    e.SendDone? && e.p < |s| && s[e.p].round < c.k && s[e.p].out[s[e.p].round] != []
  }

  /** The peer a rank waits for, to send or to receive, is not past the rank's call and round. */
  lemma PeerBehind<V>(c: Config<V>, s: seq<Rank<V>>, p: nat)
    requires c.Valid() && Inv(c, s) && Live(c, s, p) && s[p].round < c.k && s[p].busy
    requires var q := PeerOf(c, s, p, s[p].round);
      if s[p].sendDone then !s[p].recvDone && s[q].out[s[p].round] == [] else s[p].out[s[p].round] != []
    ensures var q := PeerOf(c, s, p, s[p].round); var a, b := s[p], s[q];
      && PeerOf(c, s, q, a.round) == p
      && (b.call < a.call || (b.call == a.call && b.round <= a.round))
      && (b.call == a.call && b.round == a.round ==> !b.busy || (!b.recvDone && !a.sendDone))
  {
    var r := s[p].round;
    var q := PeerOf(c, s, p, r);
    PeerBlock(p, r);
    assert QueueOk(c, s, p, r) && QueueOk(c, s, q, r);
    assert RankOk(c, s[p], p) && RankOk(c, s[q], q);
  }

  /** Deadlock freedom: behind every unfinished rank there is one that can move, and without completing a
      send before it is matched; the search steps to the peer the rank waits for, which is at an earlier
      call or round, or about to join this one. */
  lemma {:induction false} SomethingEnabled<V>(c: Config<V>, s: seq<Rank<V>>, p: nat) returns (e: Event)
    requires c.Valid() && Inv(c, s) && Live(c, s, p)
    ensures Enabled(c, s, e) && !Eager(c, s, e)
    decreases s[p].call, s[p].round
  {
    var rk := s[p];
    assert RankOk(c, rk, p);
    if rk.round == c.k {
      return EndCall(p);
    }
    if !rk.busy {
      return Post(p);
    }
    if rk.sendDone && rk.recvDone {
      return Advance(p);
    }
    var q := PeerOf(c, s, p, rk.round);
    if !rk.sendDone && rk.out[rk.round] == [] {
      return SendDone(p);
    }
    if rk.sendDone && s[q].out[rk.round] != [] {
      return Receive(p);
    }
    PeerBehind(c, s, p);
    assert RankOk(c, s[q], q);
    if s[q].call == rk.call && s[q].round == rk.round {
      return if s[q].busy then Receive(q) else Post(q);
    }
    e := SomethingEnabled(c, s, q);
  }

  lemma NeverDeadlocked<V>(c: Config<V>, states: seq<seq<Rank<V>>>, events: seq<Event>, i: nat, p: nat) returns (e: Event)
    requires c.Valid() && IsRun(c, states, events) && i < |states| && Shaped(c, states[i]) && Live(c, states[i], p)
    ensures Enabled(c, states[i], e) && !Eager(c, states[i], e)
  {
    RunInv(c, states, events, i);
    e := SomethingEnabled(c, states[i], p);
  }

  /** Events a rank has taken part in: four per round and one per call. */
  ghost function Progress<V>(c: Config<V>, rk: Rank<V>): nat {
    rk.call * (4 * c.k + 1) + 4 * rk.round
    + (if rk.busy then 1 else 0) + (if rk.sendDone then 1 else 0) + (if rk.recvDone then 1 else 0)
  }

  ghost function Total<V>(c: Config<V>, s: seq<Rank<V>>): nat {
    if s == [] then 0 else Total(c, s[..|s| - 1]) + Progress(c, s[|s| - 1])
  }

  lemma TotalUpdate<V>(c: Config<V>, s: seq<Rank<V>>, p: nat, rk: Rank<V>)
    requires p < |s|
    ensures Total(c, s[p := rk]) == Total(c, s) - Progress(c, s[p]) + Progress(c, rk)
  {
    var last := |s| - 1;
    var t := s[p := rk];
    if p == last {
      assert t[..last] == s[..last];
    } else {
      assert t[..last] == s[..last][p := rk];
      TotalUpdate(c, s[..last], p, rk);
    }
  }

  lemma TotalBound<V>(c: Config<V>, s: seq<Rank<V>>, bound: nat)
    requires forall p :: 0 <= p < |s| ==> Progress(c, s[p]) <= bound
    ensures Total(c, s) <= |s| * bound
    ensures (forall p :: 0 <= p < |s| ==> Progress(c, s[p]) == bound) ==> Total(c, s) == |s| * bound
  {
    if s != [] {
      TotalBound(c, s[..|s| - 1], bound);
      assert |s| * bound == (|s| - 1) * bound + bound;
    }
  }

  lemma Scaled(a: nat, b: nat, w: nat)
    ensures a <= b ==> a * w <= b * w
    ensures (a + 1) * w == a * w + w
  {
    if a <= b {
      assert b * w == a * w + (b - a) * w;
    }
  }

  lemma RankStep<V>(c: Config<V>, s: seq<Rank<V>>, e: Event)
    requires c.Valid() && Shaped(c, s) && Enabled(c, s, e) && RankOk(c, s[e.p], e.p)
    ensures Progress(c, Apply(c, s, e)[e.p]) == Progress(c, s[e.p]) + 1
  {
    var rk := s[e.p];
    if e.EndCall? {
      Scaled(rk.call, 0, 4 * c.k + 1);
    } else if e.Receive? {
      var q := PeerOf(c, s, e.p, rk.round);
      assert Apply(c, s, e)[e.p].recvDone;
    }
  }

  lemma OneStep<V>(c: Config<V>, s: seq<Rank<V>>, e: Event)
    requires c.Valid() && Inv(c, s) && Enabled(c, s, e)
    ensures Total(c, Apply(c, s, e)) == Total(c, s) + 1
  {
    var s' := Apply(c, s, e);
    assert RankOk(c, s[e.p], e.p);
    RankStep(c, s, e);
    TotalUpdate(c, s, e.p, s'[e.p]);
    if e.Receive? {
      var q := PeerOf(c, s, e.p, s[e.p].round);
      TotalUpdate(c, s[e.p := s'[e.p]], q, s'[q]);
    }
  }

  /** Termination: a run never exceeds `2^k * calls * (4k + 1)` events. */
  lemma RunsEnd<V>(c: Config<V>, states: seq<seq<Rank<V>>>, events: seq<Event>)
    requires c.Valid() && IsRun(c, states, events)
    ensures |events| <= Pow2(c.k) * (|c.input| * (4 * c.k + 1))
  {
    var s := states[|events|];
    CountEvents(c, states, events, |events|);
    RunInv(c, states, events, |events|);
    forall p | 0 <= p < |s| ensures Progress(c, s[p]) <= |c.input| * (4 * c.k + 1) {
      ProgressBound(c, s[p], p);
    }
    TotalBound(c, s, |c.input| * (4 * c.k + 1));
  }

  /** A run that no event but the completion of unmatched sends could extend has exactly that many, every rank having returned every call. */
  lemma StuckMeansDone<V>(c: Config<V>, states: seq<seq<Rank<V>>>, events: seq<Event>)
    requires c.Valid() && IsRun(c, states, events) && Shaped(c, states[|events|])
    requires forall e :: Enabled(c, states[|events|], e) ==> Eager(c, states[|events|], e)
    ensures |events| == Pow2(c.k) * (|c.input| * (4 * c.k + 1))
    ensures forall p :: 0 <= p < Pow2(c.k) ==> |states[|events|][p].results| == |c.input|
  {
    var s := states[|events|];
    CountEvents(c, states, events, |events|);
    RunInv(c, states, events, |events|);
    forall p | 0 <= p < |s|
      ensures Progress(c, s[p]) == |c.input| * (4 * c.k + 1) && |s[p].results| == |c.input|
    {
      assert RankOk(c, s[p], p);
      if Live(c, s, p) {
        var e := SomethingEnabled(c, s, p);
      }
    }
    TotalBound(c, s, |c.input| * (4 * c.k + 1));
  }

  lemma ProgressBound<V>(c: Config<V>, rk: Rank<V>, p: nat)
    requires c.Valid() && p < Pow2(c.k) && rk.round <= c.k && RankOk(c, rk, p)
    ensures Progress(c, rk) <= |c.input| * (4 * c.k + 1)
  {
    Scaled(rk.call, |c.input|, 4 * c.k + 1);
    Scaled(rk.call + 1, |c.input|, 4 * c.k + 1);
  }

  lemma FirstTotal<V>(c: Config<V>)
    requires c.Valid()
    ensures Total(c, Init(c)) == 0
  {
    TotalBound(c, Init(c), 0);
  }

  lemma OneEventCounted<V>(c: Config<V>, states: seq<seq<Rank<V>>>, events: seq<Event>, i: nat)
    requires c.Valid() && IsRun(c, states, events) && i < |events|
    ensures Total(c, states[i + 1]) == Total(c, states[i]) + 1
  {
    RunInv(c, states, events, i);
    OneStep(c, states[i], events[i]);
  }

  lemma {:induction false} CountEvents<V>(c: Config<V>, states: seq<seq<Rank<V>>>, events: seq<Event>, i: nat)
    requires c.Valid() && IsRun(c, states, events) && i < |states|
    ensures Total(c, states[i]) == i
  {
    if i == 0 {
      FirstTotal(c);
    } else {
      CountEvents(c, states, events, i - 1);
      OneEventCounted(c, states, events, i - 1);
    }
  }
}
