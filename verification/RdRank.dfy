/** One rank's recursive doubling as the source runs it, with the ring as fallback. */
module RdRank {
  import opened Ops
  import opened Doubling
  import opened RingBuffers
  import opened RingLocal
  import opened RingRank
  import opened RingResult
  import opened RingCall
  import opened Wire

  const PHASE_RD: u8 := 3

  /** The buffer after reducing the received buffers into it one after the other. */
  function Rounds<T>(op: (T, T) -> T, x: seq<T>, inbox: seq<seq<T>>): (r: seq<T>)
    ensures |r| == |x|
  {
    if inbox == [] then x
    else Combined(op, Rounds(op, x, inbox[..|inbox| - 1]), inbox[|inbox| - 1])
  }

  ghost predicate RoundLog<T>(log: seq<Exchange<T>>, op: (T, T) -> T, x: seq<T>, rank: nat, inbox: seq<seq<T>>) {
    |log| <= |inbox| &&
    forall r :: 0 <= r < |log| ==>
      log[r] == Exchange(ChainKey(rank, r, PHASE_RD, 0), Rounds(op, x, inbox[..r]), ChainKey(Peer(rank, r), r, PHASE_RD, 0))
  }

  /** In every round two peers await what the other sends. */
  lemma AwaitsPeer<T>(op: (T, T) -> T, rank: nat, r: nat, mine: seq<Exchange<T>>, x: seq<T>, inbox: seq<seq<T>>,
                      theirs: seq<Exchange<T>>, x': seq<T>, inbox': seq<seq<T>>)
    requires RoundLog(mine, op, x, rank, inbox) && RoundLog(theirs, op, x', Peer(rank, r), inbox') && r < |mine| && r < |theirs|
    ensures mine[r].awaited == theirs[r].key && theirs[r].awaited == mine[r].key
  {
    PeerBlock(rank, r);
    var key, key' := ChainKey(rank, r, PHASE_RD, 0), ChainKey(Peer(rank, r), r, PHASE_RD, 0);
    assert mine[r].key == key && mine[r].awaited == key';
    assert theirs[r].key == key' && theirs[r].awaited == key;
  }

  /** No two rounds share a key. */
  lemma RoundsHaveDistinctKeys<T>(op: (T, T) -> T, rank: nat, r: nat, k: nat, log: seq<Exchange<T>>, x: seq<T>, inbox: seq<seq<T>>)
    requires RoundLog(log, op, x, rank, inbox) && r < |log| && k < |log| <= 0x1_0000 && k != r
    ensures log[k].key != log[r].key && log[k].awaited != log[r].awaited
  {
    StepOf(rank, r);
    StepOf(rank, k);
    StepOf(Peer(rank, r), r);
    StepOf(Peer(rank, k), k);
    assert log[r].key == ChainKey(rank, r, PHASE_RD, 0) && log[r].awaited == ChainKey(Peer(rank, r), r, PHASE_RD, 0);
    assert log[k].key == ChainKey(rank, k, PHASE_RD, 0) && log[k].awaited == ChainKey(Peer(rank, k), k, PHASE_RD, 0);
  }

  lemma StepOf(src: nat, step: nat)
    requires step < 0x1_0000
    ensures ChainKey(src, step, PHASE_RD, 0).step == step
  {
  }

  /** `reachable` are the ranks an endpoint exists for; the ring fallback asks for its successor. */
  method RecursiveDoubling<T>(op: (T, T) -> T, blank: T, buf: array<T>, n: nat, rank: nat, reachable: set<nat>,
                              inbox: seq<seq<T>>, scatterIn: seq<seq<T>>, gatherIn: seq<seq<T>>)
    returns (res: RingRank.Outcome, log: seq<Exchange<T>>)
    requires rank < n || n == 0
    requires n >= 2 && IsPowerOfTwo(n) ==>
      |inbox| == TrailingZeros(n) && forall r :: 0 <= r < |inbox| ==> |inbox[r]| == buf.Length
    requires n >= 2 && !IsPowerOfTwo(n) && buf.Length % n == 0 ==>
      InboxOk(scatterIn, n, buf.Length / n) && InboxOk(gatherIn, n, buf.Length / n)
    modifies buf
    ensures n <= 1 ==> res == Done && buf[..] == old(buf[..]) && log == []
    ensures n >= 2 && IsPowerOfTwo(n) ==>
      && RoundLog(log, op, old(buf[..]), rank, inbox)
      && buf[..] == Rounds(op, old(buf[..]), inbox[..|log|])
      && (forall r :: 0 <= r < |log| ==> Peer(rank, r) in reachable)
      && (if |log| == TrailingZeros(n) then res == Done
          else res == Failed(NoEndpoint) && Peer(rank, |log|) !in reachable)
    ensures n >= 2 && IsPowerOfTwo(n) && res == Done ==>
      forall xs :: AmongPeers(op, xs, n, rank, old(buf[..]), inbox) ==>
        buf[..] == Val(Lift(op), xs, TrailingZeros(n), rank, TrailingZeros(n))
    ensures n >= 2 && !IsPowerOfTwo(n) && buf.Length % n != 0 ==> res == Failed(BadShape)
    ensures n >= 2 && !IsPowerOfTwo(n) && buf.Length % n == 0 && (rank + 1) % n !in reachable ==> res == Failed(NoEndpoint)
    ensures n >= 2 && !IsPowerOfTwo(n) && res.Failed? ==> buf[..] == old(buf[..]) && log == []
    ensures n >= 2 && !IsPowerOfTwo(n) && buf.Length % n == 0 && (rank + 1) % n in reachable ==>
      var chunk := buf.Length / n;
      && res == Done && Tiled(buf.Length, n, 1, chunk)
      && (var row := old(Row(buf[..], n, 1, chunk, 0));
          && Row(buf[..], n, 1, chunk, 0) == AfterCall(op, n, rank, row, scatterIn, gatherIn)
          && |log| == 2 * (n - 1)
          && Exchanged(log[..n - 1], op, n, rank, 0, 0, row, scatterIn)
          && Exchanged(log[n - 1..], op, n, rank, 1, 0, RunChain(Lift(op), n, rank, 0, row, scatterIn), gatherIn))
      && (forall bufs :: InRing(op, bufs, n, rank, 1, chunk, old(buf[..]), [scatterIn], [gatherIn]) ==>
            buf[..] == RingBuffer(op, bufs, chunk))
  {
    log := [];
    if n <= 1 {
      return Done, [];
    }
    if !IsPowerOfTwo(n) {
      var scatterLog, gatherLog;
      res, scatterLog, gatherLog := RingAllreduce(op, blank, buf, n, rank, (rank + 1) % n in reachable, scatterIn, gatherIn);
      log := scatterLog + gatherLog;
      assert res == Done ==> log[..n - 1] == scatterLog && log[n - 1..] == gatherLog;
      return;
    }
    var rounds := TrailingZeros(n);
    var tmp := new T[buf.Length](_ => blank);
    ghost var x := buf[..];
    assert inbox[..0] == [];
    for r := 0 to rounds
      invariant |log| == r
      invariant RoundLog(log, op, x, rank, inbox)
      invariant buf[..] == Rounds(op, x, inbox[..r])
      invariant forall q :: 0 <= q < r ==> Peer(rank, q) in reachable
    {
      var peer := Peer(rank, r);
      if peer !in reachable {
        return Failed(NoEndpoint), log;
      }
      log := log + [Exchange(ChainKey(rank, r, PHASE_RD, 0), buf[..], ChainKey(peer, r, PHASE_RD, 0))];
      Fill(tmp, inbox[r]);
      ghost var was := buf[..];
      assert was[0..|was|] == was;
      ReduceInPlace(op, buf, 0, tmp);
      assert buf[..] == buf[0..tmp.Length];
      assert inbox[..r + 1][..r] == inbox[..r];
    }
    assert inbox[..rounds] == inbox;
    ClimbsAmongPeers(op, x, buf[..], n, rank, inbox);
    res := Done;
  }

  /** The message of round `r` is what the round's peer holds. */
  ghost predicate FromPeer<T>(op: (T, T) -> T, xs: seq<seq<T>>, k: nat, rank: nat, inbox: seq<seq<T>>, r: nat)
    requires |xs| == Pow2(k) && rank < |xs| && r < |inbox| <= k
  {
    PeerInRange(rank, r, k);
    inbox[r] == Val(Lift(op), xs, k, Peer(rank, r), r)
  }

  /** Rounds that receive what the peers' exchange trees hold climb the rank's own tree. */
  lemma {:induction false} RoundsClimbTree<T>(op: (T, T) -> T, xs: seq<seq<T>>, k: nat, rank: nat, inbox: seq<seq<T>>)
    requires |xs| == Pow2(k) && rank < |xs| && |inbox| <= k
    requires forall r :: 0 <= r < |inbox| ==> FromPeer(op, xs, k, rank, inbox, r)
    ensures Rounds(op, xs[rank], inbox) == Val(Lift(op), xs, k, rank, |inbox|)
  {
    if inbox != [] {
      var last := |inbox| - 1;
      forall r | 0 <= r < last ensures FromPeer(op, xs, k, rank, inbox[..last], r) {
        assert FromPeer(op, xs, k, rank, inbox, r);
      }
      RoundsClimbTree(op, xs, k, rank, inbox[..last]);
      assert FromPeer(op, xs, k, rank, inbox, last);
      ValUnfolds(Lift(op), xs, k, rank, last + 1);
    }
  }

  /** Rank `rank`, its own buffer being `own`, hears in every round what that round's peer holds. */
  ghost predicate AmongPeers<T>(op: (T, T) -> T, xs: seq<seq<T>>, n: nat, rank: nat, own: seq<T>, inbox: seq<seq<T>>)
  {
    && n > 0 && IsPowerOfTwo(n) && |xs| == n && rank < n && own == xs[rank] && |inbox| == TrailingZeros(n)
    && forall r :: 0 <= r < |inbox| ==> FromPeer(op, xs, TrailingZeros(n), rank, inbox, r)
  }

  lemma ClimbsAmongPeers<T>(op: (T, T) -> T, start: seq<T>, end: seq<T>, n: nat, rank: nat, inbox: seq<seq<T>>)
    requires n > 0 && IsPowerOfTwo(n) && end == Rounds(op, start, inbox)
    ensures forall xs :: AmongPeers(op, xs, n, rank, start, inbox) ==>
      end == Val(Lift(op), xs, TrailingZeros(n), rank, TrailingZeros(n))
  {
    forall xs | AmongPeers(op, xs, n, rank, start, inbox) ensures end == Val(Lift(op), xs, TrailingZeros(n), rank, TrailingZeros(n)) {
      RoundsClimbTree(op, xs, TrailingZeros(n), rank, inbox);
    }
  }

  /** Combining whole buffers is combining elements, round by round. */
  lemma {:induction false} ValPointwise<T>(op: (T, T) -> T, xs: seq<seq<T>>, ys: seq<T>, k: nat, p: nat, r: nat, len: nat, e: nat)
    requires |xs| == |ys| == Pow2(k) && p < |xs| && r <= k && e < len
    requires forall q :: 0 <= q < |xs| ==> |xs[q]| == len && ys[q] == xs[q][e]
    ensures |Val(Lift(op), xs, k, p, r)| == len
    ensures Val(Lift(op), xs, k, p, r)[e] == Val(op, ys, k, p, r)
    decreases r
  {
    if r > 0 {
      ValUnfolds(Lift(op), xs, k, p, r);
      ValUnfolds(op, ys, k, p, r);
      ValPointwise(op, xs, ys, k, p, r - 1, len, e);
      ValPointwise(op, xs, ys, k, Peer(p, r - 1), r - 1, len, e);
    }
  }
}
