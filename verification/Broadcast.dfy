/** The binomial-tree broadcast: the schedule, the asynchronous protocol, and one rank's loop. */
module Broadcast {
  import opened Wire
  import opened RouterSlots
  import opened RingIndex
  import opened Division
  import opened Doubling
  import X = ExchangeNet
  import R = RingRank
  import W = RecvWorld

  const PHASE_BCAST: u8 := 5

  // ----- the schedule -----

  /** Ranks renumbered so that the root is 0, and back. */
  function Logical(n: nat, root: nat, rank: nat): (l: nat)
    requires root < n && rank < n
    ensures l < n
  {
    (rank + n - root) % n
  }

  function Physical(n: nat, root: nat, logical: nat): (r: nat)
    requires root < n && logical < n
    ensures r < n
  {
    (logical + root) % n
  }

  lemma Renumbering(n: nat, root: nat, x: nat)
    requires root < n && x < n
    ensures Physical(n, root, Logical(n, root, x)) == x && Logical(n, root, Physical(n, root, x)) == x
    ensures Logical(n, root, x) == 0 <==> x == root
  {
    ModOnce(n, x + n - root);
    ModOnce(n, Logical(n, root, x) + root);
    ModOnce(n, x + root);
    ModOnce(n, Physical(n, root, x) + n - root);
  }

  function Rounds(n: nat): nat
    requires n >= 1
  {
    if BitLen(n - 1) > 1 then BitLen(n - 1) else 1
  }

  /** `logical | (1 << j)` and `logical & !(1 << j)`. */
  function SetBit(x: nat, j: nat): nat { if Bit(x, j) == 1 then x else x + Pow2(j) }

  function ClearBit(x: nat, j: nat): (y: nat)
    ensures y <= x
  {
    if Bit(x, j) == 1 then x - LowPart(x, j) else x
  }

  /** `have_data` at the start of round `j`. */
  function HaveData(logical: nat, j: nat): bool
  {
    if j == 0 then logical == 0 else HaveData(logical, j - 1) || (logical > 0 && BitLen(logical) - 1 == j - 1)
  }

  /** A rank has the data at the start of round `j` exactly when its logical number is below `2^j`. */
  lemma {:induction false} HaveDataExact(logical: nat, j: nat)
    ensures HaveData(logical, j) <==> logical < Pow2(j)
  {
    if j > 0 {
      HaveDataExact(logical, j - 1);
      if logical > 0 {
        HighestBit(logical, j - 1);
      }
    }
  }

  lemma HighestBit(x: nat, j: nat)
    requires x > 0
    ensures BitLen(x) - 1 == j <==> Pow2(j) <= x < Pow2(j + 1)
  {
    BitLenBounds(x);
    var h := BitLen(x) - 1;
    if j < h {
      Pow2Grows(j + 1, h);
    } else if h < j {
      Pow2Grows(h + 1, j);
    }
  }

  lemma BitBelow(x: nat, j: nat)
    ensures x < Pow2(j) ==> Bit(x, j) == 0
    ensures Pow2(j) <= x < Pow2(j + 1) ==> Bit(x, j) == 1
  {
    if x < Pow2(j) {
      DivUnique(x, Pow2(j), 0, x);
    } else if x < Pow2(j + 1) {
      DivUnique(x, Pow2(j), 1, x - Pow2(j));
    }
  }

  function To(n: nat, root: nat, r: nat, j: nat): Option<nat>
  {
    if !(root < n && r < n) then None
    else
      var peer := SetBit(Logical(n, root, r), j);
      if HaveData(Logical(n, root, r), j) && peer != Logical(n, root, r) && peer < n then Some(Physical(n, root, peer)) else None
  }

  function From(n: nat, root: nat, r: nat, j: nat): Option<nat>
  {
    if !(root < n && r < n) then None
    else
      var logical := Logical(n, root, r);
      if !HaveData(logical, j) && logical > 0 && BitLen(logical) - 1 == j then Some(Physical(n, root, ClearBit(logical, j))) else None
  }

  /** The schedule without bits: in round `j`, logical rank `l < 2^j` sends to `l + 2^j` if there is one. */
  lemma ScheduleExact(n: nat, root: nat, r: nat, j: nat)
    requires root < n && r < n
    ensures var l := Logical(n, root, r);
      && To(n, root, r, j) == (if l < Pow2(j) && l + Pow2(j) < n then Some(Physical(n, root, l + Pow2(j))) else None)
      && From(n, root, r, j) == (if Pow2(j) <= l < Pow2(j + 1) then Some(Physical(n, root, l - Pow2(j))) else None)
  {
    var l := Logical(n, root, r);
    HaveDataExact(l, j);
    BitBelow(l, j);
    if l > 0 {
      HighestBit(l, j);
    }
  }

  /** Sends and receives match one to one. */
  lemma SendsMeetReceives(n: nat, root: nat, r: nat, j: nat)
    requires root < n && r < n
    ensures To(n, root, r, j).Some? ==>
      var q := To(n, root, r, j).value; q < n && q != r && From(n, root, q, j) == Some(r)
    ensures From(n, root, r, j).Some? ==>
      var q := From(n, root, r, j).value; q < n && q != r && To(n, root, q, j) == Some(r)
  {
    ScheduleExact(n, root, r, j);
    Renumbering(n, root, r);
    if To(n, root, r, j).Some? {
      Renumbering(n, root, Logical(n, root, r) + Pow2(j));
      ScheduleExact(n, root, To(n, root, r, j).value, j);
    }
    if From(n, root, r, j).Some? {
      Renumbering(n, root, Logical(n, root, r) - Pow2(j));
      ScheduleExact(n, root, From(n, root, r, j).value, j);
    }
  }

  lemma ReceivesAt(n: nat, root: nat, r: nat, j: nat)
    requires root < n && r < n
    ensures From(n, root, r, j).Some? <==> r != root && j == BitLen(Logical(n, root, r)) - 1
  {
    Renumbering(n, root, r);
    ScheduleExact(n, root, r, j);
    if Logical(n, root, r) > 0 {
      HighestBit(Logical(n, root, r), j);
    }
  }

  /** The root never receives; every other rank receives in exactly one round, which is one the loop runs. */
  lemma ReceivesOnce(n: nat, root: nat, r: nat)
    requires root < n && r < n
    ensures forall j: nat :: From(n, root, r, j).Some? <==> r != root && j == BitLen(Logical(n, root, r)) - 1
    ensures r != root ==> BitLen(Logical(n, root, r)) - 1 < Rounds(n)
  {
    forall j: nat ensures From(n, root, r, j).Some? <==> r != root && j == BitLen(Logical(n, root, r)) - 1 {
      ReceivesAt(n, root, r, j);
    }
    ReceiveRoundRuns(n, root, r);
  }

  lemma ReceiveRoundRuns(n: nat, root: nat, r: nat)
    requires root < n && r < n
    ensures r != root ==> BitLen(Logical(n, root, r)) >= 1 && BitLen(Logical(n, root, r)) - 1 < Rounds(n)
  {
    var l := Logical(n, root, r);
    Renumbering(n, root, r);
    if r != root {
      BitLenBounds(l);
      BitLenBounds(n - 1);
      if BitLen(n - 1) <= BitLen(l) - 1 {
        Pow2Grows(BitLen(n - 1), BitLen(l) - 1);
      }
    }
  }

  /** The loop runs `ceil(log2 n)` rounds, no more and no fewer. */
  lemma RoundsExact(n: nat)
    requires n >= 2
    ensures Rounds(n) >= 1 && Pow2(Rounds(n) - 1) < n <= Pow2(Rounds(n))
  {
    BitLenBounds(n - 1);
  }

  // ----- the protocol -----

  ghost function Tree<V>(n: nat, root: nat, init: seq<V>): X.Config<V, V>
    requires n >= 1
  {
    X.Config(n, Rounds(n), PHASE_BCAST, (r, j) => To(n, root, r, j), (r, j) => From(n, root, r, j),
             (r, j, mem) => mem, (r, j, mem, bytes) => bytes, init)
  }

  lemma TreeMatched<V>(n: nat, root: nat, init: seq<V>)
    requires root < n <= 0x1_0000 && |init| == n
    ensures Tree(n, root, init).Matched()
  {
    var c := Tree(n, root, init);
    BitLenBounds(n - 1);
    forall r, j | 0 <= r < n && 0 <= j < c.rounds
      ensures c.dst(r, j).Some? ==> c.dst(r, j).value < n && c.dst(r, j).value != r && c.src(c.dst(r, j).value, j) == Some(r)
      ensures c.src(r, j).Some? ==> c.src(r, j).value < n && c.dst(c.src(r, j).value, j) == Some(r)
    {
      SendsMeetReceives(n, root, r, j);
    }
  }

  /** No rank sends and receives in the same round, so its buffer is never written while it is sent. */
  lemma TreeApart<V>(n: nat, root: nat, init: seq<V>)
    requires root < n <= 0x1_0000 && |init| == n
    ensures Tree(n, root, init).Matched() && Tree(n, root, init).Apart()
  {
    var c := Tree(n, root, init);
    TreeMatched(n, root, init);
    forall r, j | 0 <= r < n && 0 <= j < c.rounds ensures !(c.dst(r, j).Some? && c.src(r, j).Some?) {
      ScheduleExact(n, root, r, j);
    }
  }

  lemma LockstepRound<V>(n: nat, root: nat, init: seq<V>, r: nat, j: nat)
    requires root < n && |init| == n && r < n
    ensures var from := From(n, root, r, j);
      && (from.Some? ==> from.value < n)
      && X.Lockstep(Tree(n, root, init), r, j + 1) == X.Lockstep(Tree(n, root, init), if from.Some? then from.value else r, j)
  {
  }

  /** In lockstep, after `j` rounds the logical ranks below `2^j` hold the root's buffer, the others their own. */
  lemma {:induction false} LockstepSpreads<V>(n: nat, root: nat, init: seq<V>, r: nat, j: nat)
    requires root < n && |init| == n && r < n
    ensures X.Lockstep(Tree(n, root, init), r, j) == if Logical(n, root, r) < Pow2(j) then init[root] else init[r]
    decreases j
  {
    var l := Logical(n, root, r);
    Renumbering(n, root, r);
    if j > 0 {
      ScheduleExact(n, root, r, j - 1);
      LockstepRound(n, root, init, r, j - 1);
      if Pow2(j - 1) <= l < Pow2(j) {
        Renumbering(n, root, l - Pow2(j - 1));
        LockstepSpreads(n, root, init, Physical(n, root, l - Pow2(j - 1)), j - 1);
      } else {
        LockstepSpreads(n, root, init, r, j - 1);
      }
    }
  }

  /** In every reachable state of every interleaving a rank holds the root's buffer if its
      logical number is below `2^k`, `k` counting the rounds it has been through, and its own otherwise. */
  lemma SpreadsInRun<V>(n: nat, root: nat, init: seq<V>, states: seq<X.State<V, V>>, events: seq<X.Event<V>>, i: nat, r: nat)
    requires root < n <= 0x1_0000 && |init| == n && r < n
    requires X.IsRun(Tree(n, root, init), states, events) && i < |states|
    ensures |states[i].ranks| == n
    ensures var rk := states[i].ranks[r];
      rk.mem == if Logical(n, root, r) < Pow2(X.Consumed(rk)) then init[root] else init[r]
  {
    TreeMatched(n, root, init);
    X.AsyncIsLockstep(Tree(n, root, init), states, events, i, r);
    LockstepSpreads(n, root, init, r, X.Consumed(states[i].ranks[r]));
  }

  lemma RoundsSuffice(n: nat, l: nat)
    requires l < n
    ensures l < Pow2(Rounds(n))
  {
    BitLenBounds(n - 1);
    Pow2Grows(BitLen(n - 1), Rounds(n));
  }

  lemma {:induction false} Bijection<A(!new), B(!new)>(a: set<A>, b: set<B>, f: A -> B)
    requires forall x :: x in a ==> f(x) in b
    requires forall x, y :: x in a && y in a && f(x) == f(y) ==> x == y
    requires forall z :: z in b ==> exists x :: x in a && f(x) == z
    ensures |a| == |b|
  {
    if a != {} {
      var x :| x in a;
      Bijection(a - {x}, b - {f(x)}, f);
    }
  }

  ghost function Below(n: nat): (s: set<nat>)
    ensures |s| == n && forall r: nat :: r in s <==> r < n
  {
    if n == 0 then {} else Below(n - 1) + {n - 1}
  }

  ghost predicate Reaches(n: nat, root: nat, p: (nat, nat), r: nat) { To(n, root, p.0, p.1) == Some(r) }

  lemma SenderOf(n: nat, root: nat, r: nat) returns (q: nat, j: nat)
    requires root < n && r < n && r != root
    ensures q < n && j < Rounds(n) && To(n, root, q, j) == Some(r)
  {
    ReceiveRoundRuns(n, root, r);
    j := BitLen(Logical(n, root, r)) - 1;
    ReceivesAt(n, root, r, j);
    SendsMeetReceives(n, root, r, j);
    q := From(n, root, r, j).value;
  }

  lemma SomeSendReaches<V>(n: nat, root: nat, init: seq<V>, r: nat)
    requires root < n <= 0x1_0000 && |init| == n && r < n && r != root
    ensures exists p :: p in X.AllSends(Tree(n, root, init)) && Reaches(n, root, p, r)
  {
    var q, j := SenderOf(n, root, r);
    assert (q, j) in X.AllSends(Tree(n, root, init)) && Reaches(n, root, (q, j), r);
  }

  lemma SendReachesOther(n: nat, root: nat, p: (nat, nat))
    requires root < n && p.0 < n && To(n, root, p.0, p.1).Some?
    ensures To(n, root, p.0, p.1).value < n && To(n, root, p.0, p.1).value != root
  {
    SendsMeetReceives(n, root, p.0, p.1);
    ReceivesOnce(n, root, To(n, root, p.0, p.1).value);
  }

  lemma SendsReachApart(n: nat, root: nat, p: (nat, nat), q: (nat, nat))
    requires root < n && p.0 < n && q.0 < n && To(n, root, p.0, p.1).Some?
    requires To(n, root, p.0, p.1) == To(n, root, q.0, q.1)
    ensures p == q
  {
    SendsMeetReceives(n, root, p.0, p.1);
    SendsMeetReceives(n, root, q.0, q.1);
    ReceivesOnce(n, root, To(n, root, p.0, p.1).value);
  }

  function Receiver(n: nat, root: nat): ((nat, nat)) -> nat {
    (p: (nat, nat)) => match To(n, root, p.0, p.1) case Some(r) => r case None => n
  }

  /** One send for each rank but the root. */
  lemma OneSendPerReceiver<V>(n: nat, root: nat, init: seq<V>)
    requires root < n <= 0x1_0000 && |init| == n
    ensures |X.AllSends(Tree(n, root, init))| == n - 1
  {
    var sends := X.AllSends(Tree(n, root, init));
    var f := Receiver(n, root);
    forall r: nat | r in Below(n) - {root} ensures exists p :: p in sends && f(p) == r {
      SomeSendReaches(n, root, init, r);
      var p :| p in sends && Reaches(n, root, p, r);
      assert f(p) == r;
    }
    forall p | p in sends ensures f(p) in Below(n) - {root} {
      SendReachesOther(n, root, p);
    }
    forall p, q | p in sends && q in sends && f(p) == f(q) ensures p == q {
      SendsReachApart(n, root, p, q);
    }
    Bijection(sends, Below(n) - {root}, f);
  }

  /** Broadcast for every number of ranks, every root and every interleaving: a run that cannot continue
      has delivered exactly `n - 1` messages, leaves none in flight or in a router, and every rank holds
      the root's buffer. */
  lemma BroadcastCorrect<V>(n: nat, root: nat, init: seq<V>, states: seq<X.State<V, V>>, events: seq<X.Event<V>>, r: nat)
    requires root < n <= 0x1_0000 && |init| == n && r < n
    requires X.IsRun(Tree(n, root, init), states, events)
    requires forall e :: X.Enabled(Tree(n, root, init), states[|events|], e) ==> e.SendDone? && states[|events|].net != {}
    ensures var s := states[|events|];
      && |s.ranks| == n && s.net == {} && s.ranks[r].slots == map[] && s.ranks[r].mem == init[root]
    ensures X.Arrivals(events) == n - 1
  {
    var c := Tree(n, root, init);
    TreeMatched(n, root, init);
    X.StuckMeansDone(c, states, events);
    X.EverySendArrives(c, states, events);
    OneSendPerReceiver(n, root, init);
    LockstepSpreads(n, root, init, r, Rounds(n));
    RoundsSuffice(n, Logical(n, root, r));
  }

  /** No rank waits forever, and no run is longer than four events per rank and round. */
  lemma BroadcastEnds<V>(n: nat, root: nat, init: seq<V>, states: seq<X.State<V, V>>, events: seq<X.Event<V>>, r: nat)
    returns (e: X.Event<V>)
    requires root < n <= 0x1_0000 && |init| == n && r < n
    requires X.IsRun(Tree(n, root, init), states, events)
    ensures |states[|events|].ranks| == n && |events| <= 4 * Rounds(n) * n
    ensures states[|events|].ranks[r].round < Rounds(n) ==>
      X.Enabled(Tree(n, root, init), states[|events|], e) && (e.SendDone? ==> states[|events|].net == {})
  {
    var c := Tree(n, root, init);
    TreeMatched(n, root, init);
    X.RunsEnd(c, states, events);
    X.RunInv(c, states, events, |events|);
    e := X.Begin(0);
    if states[|events|].ranks[r].round < Rounds(n) {
      e := X.SomethingEnabled(c, states[|events|], r);
    }
  }

  // ----- one rank -----

  datatype Outcome = Done | RootOutOfRange | NoEndpoint

  datatype Post<T> = Post(dst: nat, key: RecvKey, bytes: seq<T>)

  /** The data a rank sends: the root's own buffer, anybody else's received one. */
  function Held<T>(n: nat, root: nat, rank: nat, x: seq<T>, arriving: seq<T>): seq<T>
    requires root < n && rank < n
  {
    if rank == root then x else arriving
  }

  /** The sends of the first `upto` rounds, in order. */
  function Posts<T>(n: nat, root: nat, rank: nat, bytes: seq<T>, upto: nat): seq<Post<T>>
  {
    if upto == 0 then []
    else
      var before := Posts(n, root, rank, bytes, upto - 1);
      match To(n, root, rank, upto - 1)
      case None => before
      case Some(d) => before + [Post(d, ChainKey(rank, upto - 1, PHASE_BCAST, 0), bytes)]
  }

  /** The key under which a rank other than the root awaits its parent's message. */
  function ParentKey(n: nat, root: nat, logical: nat): RecvKey
    requires 0 < logical < n && root < n
  {
    var j := BitLen(logical) - 1;
    ChainKey(Physical(n, root, ClearBit(logical, j)), j, PHASE_BCAST, 0)
  }

  lemma {:induction false} PostsGrow<T>(n: nat, root: nat, rank: nat, bytes: seq<T>, j: nat, k: nat)
    requires j <= k
    ensures Posts(n, root, rank, bytes, j) <= Posts(n, root, rank, bytes, k)
  {
    if j < k {
      PostsGrow(n, root, rank, bytes, j, k - 1);
    }
  }

  lemma Posted<T>(n: nat, root: nat, p: nat, bytes: seq<T>, j: nat, d: nat, upto: nat)
    requires To(n, root, p, j) == Some(d) && j < upto
    ensures Post(d, ChainKey(p, j, PHASE_BCAST, 0), bytes) in Posts(n, root, p, bytes, upto)
  {
    PostsGrow(n, root, p, bytes, j + 1, upto);
    var first := Posts(n, root, p, bytes, j + 1);
    assert first[|first| - 1] == Post(d, ChainKey(p, j, PHASE_BCAST, 0), bytes);
  }

  /** The key a rank awaits is one under which another rank, running the same loop, sends to it. */
  lemma AwaitedIsSent<T>(n: nat, root: nat, r: nat, bytes: seq<T>) returns (p: nat)
    requires root < n && r < n && r != root
    ensures Logical(n, root, r) > 0 && p < n && p != r
    ensures Post(r, ParentKey(n, root, Logical(n, root, r)), bytes) in Posts(n, root, p, bytes, Rounds(n))
  {
    Renumbering(n, root, r);
    var j := BitLen(Logical(n, root, r)) - 1;
    ReceiveRoundRuns(n, root, r);
    ReceivesAt(n, root, r, j);
    SendsMeetReceives(n, root, r, j);
    p := From(n, root, r, j).value;
    Posted(n, root, p, bytes, j, r, Rounds(n));
  }

  /** One round of the loop. */
  method Round<T>(buf: array<T>, n: nat, rank: nat, root: nat, logical: nat, haveData: bool, round: nat,
                  reachable: set<nat>, arriving: seq<T>)
    returns (ok: bool, have: bool, posts: seq<Post<T>>, awaits: seq<RecvKey>)
    requires rank < n && root < n && logical == Logical(n, root, rank) && |arriving| == buf.Length
    requires haveData == HaveData(logical, round) && (logical == 0 ==> haveData)
    modifies buf
    ensures ok ==> have == HaveData(logical, round + 1)
    ensures !ok ==> To(n, root, rank, round).Some? && To(n, root, rank, round).value !in reachable
                    && have == haveData && posts == [] && awaits == [] && buf[..] == old(buf[..])
    ensures ok ==> posts == match To(n, root, rank, round)
                            case Some(d) => [Post(d, ChainKey(rank, round, PHASE_BCAST, 0), buf[..])]
                            case None => []
    ensures have ==> haveData || (logical > 0 && awaits == [ParentKey(n, root, logical)])
    ensures have == haveData ==> awaits == []
    ensures buf[..] == if have == haveData then old(buf[..]) else arriving
  {
    ok, have, posts, awaits := true, haveData, [], [];
    if haveData {
      var peerLogical := SetBit(logical, round);
      if peerLogical != logical && peerLogical < n {
        var peer := (peerLogical + root) % n;
        if peer !in reachable {
          return false, have, posts, awaits;
        }
        posts := [Post(peer, ChainKey(rank, round, PHASE_BCAST, 0), buf[..])];
      }
    } else if round == BitLen(logical) - 1 {
      var parent := (ClearBit(logical, round) + root) % n;
      awaits := [ChainKey(parent, round, PHASE_BCAST, 0)];
      R.Fill(buf, arriving);
      have := true;
    }
  }

  lemma RootHasData(j: nat)
    ensures HaveData(0, j)
  {
  }

  /** `broadcast`. `arriving` is the message the rank receives in its round; `awaited` lists the keys it
      registers a receive for. */
  method Run<T>(buf: array<T>, n: nat, rank: nat, root: nat, reachable: set<nat>, arriving: seq<T>)
    returns (res: Outcome, log: seq<Post<T>>, awaited: seq<RecvKey>, rounds: nat)
    requires rank < n && |arriving| == buf.Length
    modifies buf
    ensures n == 1 ==> res == Done && log == [] && awaited == [] && buf[..] == old(buf[..])
    ensures n > 1 && root >= n ==> res == RootOutOfRange && log == [] && awaited == [] && buf[..] == old(buf[..])
    ensures n > 1 && root < n ==>
      var l := Logical(n, root, rank);
      && log == Posts(n, root, rank, Held(n, root, rank, old(buf[..]), arriving), rounds)
      && buf[..] == (if l < Pow2(rounds) then Held(n, root, rank, old(buf[..]), arriving) else old(buf[..]))
      && awaited == (if 0 < l < Pow2(rounds) then [ParentKey(n, root, l)] else [])
      && (match res
          case Done => rounds == Rounds(n)
          case NoEndpoint => rounds < Rounds(n) && To(n, root, rank, rounds).Some? && To(n, root, rank, rounds).value !in reachable
          case RootOutOfRange => false)
  {
    log, awaited, rounds := [], [], 0;
    if n == 1 {
      return Done, log, awaited, rounds;
    }
    if root >= n {
      return RootOutOfRange, log, awaited, rounds;
    }
    var logical := (rank + n - root) % n;
    var total := if BitLen(n - 1) > 1 then BitLen(n - 1) else 1;
    var haveData := logical == 0;
    Renumbering(n, root, rank);
    ghost var x := buf[..];
    ghost var held := Held(n, root, rank, x, arriving);
    while rounds < total
      invariant rounds <= total && haveData == HaveData(logical, rounds)
      invariant log == Posts(n, root, rank, held, rounds)
      invariant buf[..] == if haveData then held else x
      invariant awaited == if haveData && logical > 0 then [ParentKey(n, root, logical)] else []
    {
      RootHasData(rounds);
      var ok, have, posts, awaits := Round(buf, n, rank, root, logical, haveData, rounds, reachable, arriving);
      if !ok {
        HaveDataExact(logical, rounds);
        return NoEndpoint, log, awaited, rounds;
      }
      assert posts == [] || buf[..] == held;
      log, awaited, haveData := log + posts, awaited + awaits, have;
      rounds := rounds + 1;
    }
    HaveDataExact(logical, rounds);
    res := Done;
  }

  // ----- two calls in a row -----

  /** The first send of the root, and the receive that waits for it, are the same in every call. */
  lemma FirstExchange<T>(n: nat, root: nat, bytes: seq<T>)
    requires 2 <= n && root < n
    ensures var q := Physical(n, root, 1);
      && Logical(n, root, q) == 1 && ParentKey(n, root, 1) == ChainKey(root, 0, PHASE_BCAST, 0)
      && Posts(n, root, root, bytes, 1) == [Post(q, ParentKey(n, root, 1), bytes)]
    ensures forall j: nat :: From(n, root, root, j).None?
  {
    Renumbering(n, root, 1);
    Renumbering(n, root, root);
    Renumbering(n, root, 0);
    ScheduleExact(n, root, root, 0);
    ReceivesOnce(n, root, root);
    BitBelow(1, 0);
    assert Posts(n, root, root, bytes, 0) == [];
  }

  /** Back-to-back broadcasts from one root are not safe: for every number of ranks and every root there is
      a run in which the root posts to logical rank 1 in two calls, waiting for nothing in between, both
      messages arrive under the one key before that rank first polls, and the rank then waits with
      neither of them left anywhere. */
  lemma TwoCallsLoseBoth(n: nat, root: nat, x: W.Bytes, y: W.Bytes, target: W.Bytes, waker: nat)
    returns (key: RecvKey, worlds: seq<W.World>, ops: seq<W.Op>)
    requires 2 <= n && root < n
    ensures var q := Physical(n, root, 1);
      && Posts(n, root, root, x, 1) == [Post(q, key, x)] && Posts(n, root, root, y, 1) == [Post(q, key, y)]
      && Logical(n, root, q) == 1 && key == ParentKey(n, root, 1) && forall j: nat :: From(n, root, root, j).None?
    ensures ops == [W.Arrive(key, x), W.Arrive(key, y), W.Create(0, key, target), W.Poll(0, waker)]
    ensures W.IsRun(worlds, ops) && |worlds| == 5
    ensures worlds[4] == W.World(map[key := Pending(0, Some(waker))], map[0 := W.Fut(key, true, false, target)], [])
  {
    FirstExchange(n, root, x);
    FirstExchange(n, root, y);
    key := ParentKey(n, root, 1);
    worlds, ops := LosingRun(key, x, y, target, waker);
  }

  lemma LosingRun(key: RecvKey, x: W.Bytes, y: W.Bytes, target: W.Bytes, waker: nat) returns (worlds: seq<W.World>, ops: seq<W.Op>)
    ensures ops == [W.Arrive(key, x), W.Arrive(key, y), W.Create(0, key, target), W.Poll(0, waker)]
    ensures W.IsRun(worlds, ops) && |worlds| == 5
    ensures worlds[4] == W.World(map[key := Pending(0, Some(waker))], map[0 := W.Fut(key, true, false, target)], [])
  {
    ops := [W.Arrive(key, x), W.Arrive(key, y), W.Create(0, key, target), W.Poll(0, waker)];
    var w0 := W.World(map[], map[], []);
    var w1 := W.Apply(w0, ops[0]);
    assert w1 == W.World(map[key := Early(x)], map[], []);
    var w2 := W.Apply(w1, ops[1]);
    assert w2 == w0;
    var w3 := W.Apply(w2, ops[2]);
    var w4 := W.Apply(w3, ops[3]);
    worlds := [w0, w1, w2, w3, w4];
  }
}
