/** The adaptive allreduce of one rank: the cut-over points of the policy, and the call it makes. */
module Adaptive {
  import opened Ops
  import opened Doubling
  import opened RingBuffers
  import opened RingResult
  import opened RingCall
  import opened RingRank
  import opened RdRank
  import opened Allreduce
  import opened AllreduceRuns
  import opened Wire
  import Bruck
  import Broadcast

  const DEFAULT_POLICY: Policy := Policy(2048, 65536, PipelineConfig(4, 8))

  /** Where the choice changes: recursive doubling exactly below the small threshold on two, four, eight, ...
      ranks; pipelining only from the large threshold on, and then with the policy's own configuration;
      between the thresholds, and below both on other rank counts, the plain ring. */
  lemma CutOver(policy: Policy, msgBytes: nat, n: nat)
    ensures var a := ChooseAllreduce(policy, msgBytes, n);
      && (a.RecursiveDoubling? <==> msgBytes < policy.smallThreshold && exists k :: k >= 1 && n == Pow2(k))
      && (a.PipelinedRing? ==> policy.largeThreshold <= msgBytes && a.config == policy.pipelineConfig)
      && (a.PlainRing? ==> msgBytes < policy.largeThreshold)
      && (policy.smallThreshold <= msgBytes && policy.largeThreshold <= msgBytes ==> a == Algo.PipelinedRing(policy.pipelineConfig))
      && (policy.smallThreshold <= msgBytes < policy.largeThreshold ==> a == PlainRing)
  {
    if k :| k >= 1 && n == Pow2(k) {
      PowerOfTwoExact(k);
      Pow2Grows(1, k);
    }
    if IsPowerOfTwo(n) && n >= 2 {
      var k := TrailingZeros(n);
      assert k == 0 ==> Pow2(k) == 1;
      assert k >= 1 && n == Pow2(k);
    }
  }

  /** Messages of a ring (phases 0 and 1), of recursive doubling, of Bruck and of broadcast never share a key,
      whatever their sources, steps and micro-chunks: collectives of different kinds cannot take each
      other's messages. */
  lemma KindsApart(phase: u8, phase': u8, src: nat, step: nat, m: nat, src': nat, step': nat, m': nat)
    requires phase in {0, 1, PHASE_RD, Bruck.PHASE_BRUCK, Broadcast.PHASE_BCAST}
    requires phase' in {0, 1, PHASE_RD, Bruck.PHASE_BRUCK, Broadcast.PHASE_BCAST}
    requires ChainKey(src, step, phase, m) == ChainKey(src', step', phase', m')
    ensures phase == phase' && |{0, 1, PHASE_RD, Bruck.PHASE_BRUCK, Broadcast.PHASE_BCAST}| == 5
  {
    assert {0, 1, PHASE_RD, Bruck.PHASE_BRUCK, Broadcast.PHASE_BCAST} == {0, 1, 3, 4, 5};
  }

  /** A small message on a power of two of ranks is reduced whatever its length: no divisibility is asked. */
  lemma SmallNeverRejected(policy: Policy, msgBytes: nat, k: nat, len: nat)
    requires msgBytes < policy.smallThreshold && k >= 1
    ensures Accepts(ChooseAllreduce(policy, msgBytes, Pow2(k)), Pow2(k), len)
  {
    PowerOfTwoExact(k);
    Pow2Grows(1, k);
    CutOver(policy, msgBytes, Pow2(k));
  }

  /** What the default policy accepts: anything short of 2 KiB on a power of two of ranks, otherwise what
      divides among the ranks, from 64 KiB on into four micro-chunks each. */
  lemma DefaultAccepts(msgBytes: nat, n: nat, len: nat)
    requires n >= 2
    ensures Accepts(ChooseAllreduce(DEFAULT_POLICY, msgBytes, n), n, len) <==>
            || (msgBytes < 2048 && exists k :: k >= 1 && n == Pow2(k))
            || (len % n == 0 && (msgBytes >= 65536 ==> len / n % 4 == 0))
  {
    CutOver(DEFAULT_POLICY, msgBytes, n);
    if k :| k >= 1 && n == Pow2(k) {
      PowerOfTwoExact(k);
    }
  }

  /** An endpoint exists for every rank the algorithm sends to. */
  ghost predicate Connected(algo: Algo, n: nat, rank: nat, reachable: set<nat>)
    requires n > 0
  {
    if algo.RecursiveDoubling? && IsPowerOfTwo(n) then forall r :: 0 <= r < TrailingZeros(n) ==> Peer(rank, r) in reachable
    else (rank + 1) % n in reachable
  }

  /** The rank hears what the other ranks of an allreduce of `bufs` send by this algorithm. */
  ghost predicate Joins<T>(algo: Algo, op: (T, T) -> T, bufs: seq<seq<T>>, n: nat, rank: nat, own: seq<T>,
                           inbox: seq<seq<T>>, scatterIn: seq<seq<seq<T>>>, gatherIn: seq<seq<seq<T>>>)
  {
    && n >= 2 && |bufs| == n && Accepts(algo, n, |own|) && (forall q :: 0 <= q < n ==> |bufs[q]| == |own|)
    && match algo
       case RecursiveDoubling =>
         if IsPowerOfTwo(n) then AmongPeers(op, bufs, n, rank, own, inbox)
         else InRing(op, bufs, n, rank, 1, |own| / n, own, scatterIn, gatherIn)
       case PlainRing => InRing(op, bufs, n, rank, 1, |own| / n, own, scatterIn, gatherIn)
       case PipelinedRing(c) => InRing(op, bufs, n, rank, c.microChunks, |own| / n / c.microChunks, own, scatterIn, gatherIn)
  }

  /** Messages of the lengths the algorithm exchanges. */
  ghost predicate Sized<T>(algo: Algo, n: nat, len: nat, inbox: seq<seq<T>>, scatterIn: seq<seq<seq<T>>>, gatherIn: seq<seq<seq<T>>>)
  {
    n >= 2 && Accepts(algo, n, len) ==>
      match algo
      case RecursiveDoubling =>
        if IsPowerOfTwo(n) then |inbox| == TrailingZeros(n) && forall r :: 0 <= r < |inbox| ==> |inbox[r]| == len
        else InboxesOk(scatterIn, n, 1, len / n) && InboxesOk(gatherIn, n, 1, len / n)
      case PlainRing => InboxesOk(scatterIn, n, 1, len / n) && InboxesOk(gatherIn, n, 1, len / n)
      case PipelinedRing(c) =>
        InboxesOk(scatterIn, n, c.microChunks, len / n / c.microChunks) && InboxesOk(gatherIn, n, c.microChunks, len / n / c.microChunks)
  }

  /** The inboxes of a ring with a single micro-chunk. */
  function First<T>(inboxes: seq<seq<seq<T>>>): seq<seq<T>> { if |inboxes| == 1 then inboxes[0] else [] }

  /** Every position holds the fold of the ranks' elements in rank order. */
  ghost predicate Folded<T>(op: (T, T) -> T, bufs: seq<seq<T>>, end: seq<T>) {
    && |bufs| >= 1 && (forall q :: 0 <= q < |bufs| ==> |bufs[q]| == |end|)
    && forall e :: 0 <= e < |end| ==> end[e] == Range(op, At(bufs, e), 0, |bufs|)
  }

  lemma RingFolded<T(!new)>(op: (T, T) -> T, bufs: seq<seq<T>>, chunk: nat)
    requires Associative(op) && Commutative(op)
    requires |bufs| >= 1 && forall q :: 0 <= q < |bufs| ==> |bufs[q]| == |bufs| * chunk
    ensures Folded(op, bufs, RingBuffer(op, bufs, chunk))
  {
    forall e | 0 <= e < |bufs| * chunk ensures RingBuffer(op, bufs, chunk)[e] == Range(op, At(bufs, e), 0, |bufs|) {
      RingRunFolds(op, bufs, chunk, e);
    }
  }

  /** A ring call, of either kind, that turned `own` into `end`. */
  lemma RingCallFolded<T(!new)>(op: (T, T) -> T, bufs: seq<seq<T>>, n: nat, rank: nat, micros: nat, micro: nat, own: seq<T>, end: seq<T>,
                                scatterIn: seq<seq<seq<T>>>, gatherIn: seq<seq<seq<T>>>)
    requires Associative(op) && Commutative(op) && n >= 2 && InRing(op, bufs, n, rank, micros, micro, own, scatterIn, gatherIn)
    requires end == RingBuffer(op, bufs, micros * micro)
    ensures Folded(op, bufs, end)
  {
    RingFolded(op, bufs, micros * micro);
  }

  lemma TreeFolded<T(!new)>(op: (T, T) -> T, bufs: seq<seq<T>>, rank: nat, end: seq<T>)
    requires Associative(op) && Commutative(op) && IsPowerOfTwo(|bufs|) && rank < |bufs|
    requires forall q :: 0 <= q < |bufs| ==> |bufs[q]| == |end|
    requires end == Val(Lift(op), bufs, TrailingZeros(|bufs|), rank, TrailingZeros(|bufs|))
    ensures Folded(op, bufs, end)
  {
    TreeResult(op, bufs, rank, |end|);
  }

  /** What a call by `algo` that turned `own` into `end` owes its caller. */
  ghost predicate Fulfilled<T(!new)>(algo: Algo, op: (T, T) -> T, n: nat, rank: nat, reachable: set<nat>, own: seq<T>, end: seq<T>, res: Outcome,
                                     inbox: seq<seq<T>>, scatterIn: seq<seq<seq<T>>>, gatherIn: seq<seq<seq<T>>>) {
    && (n <= 1 ==> res == Done && end == own)
    && (n >= 2 ==> (res == Done <==> Accepts(algo, n, |own|) && Connected(algo, n, rank, reachable)))
    && (n >= 2 && !Accepts(algo, n, |own|) ==> end == own)
    && (n >= 2 && res == Done && Associative(op) && Commutative(op) ==>
          forall bufs :: Joins(algo, op, bufs, n, rank, own, inbox, scatterIn, gatherIn) ==> Folded(op, bufs, end))
  }

  method RunPlain<T(!new)>(op: (T, T) -> T, blank: T, buf: array<T>, n: nat, rank: nat, reachable: set<nat>,
                           ghost inbox: seq<seq<T>>, scatterIn: seq<seq<seq<T>>>, gatherIn: seq<seq<seq<T>>>)
    returns (res: Outcome)
    requires rank < n || n == 0
    requires Sized(PlainRing, n, buf.Length, inbox, scatterIn, gatherIn)
    modifies buf
    ensures Fulfilled(PlainRing, op, n, rank, reachable, old(buf[..]), buf[..], res, inbox, scatterIn, gatherIn)
  {
    ghost var own := buf[..];
    var log0, log1;
    res, log0, log1 := RingAllreduce(op, blank, buf, n, rank, n > 0 && (rank + 1) % n in reachable, First(scatterIn), First(gatherIn));
    if n >= 2 && res == Done && Associative(op) && Commutative(op) {
      forall bufs | Joins(PlainRing, op, bufs, n, rank, own, inbox, scatterIn, gatherIn) ensures Folded(op, bufs, buf[..]) {
        assert scatterIn == [First(scatterIn)] && gatherIn == [First(gatherIn)];
        RingCallFolded(op, bufs, n, rank, 1, |own| / n, own, buf[..], scatterIn, gatherIn);
      }
    }
  }

  method RunPipelined<T(!new)>(config: PipelineConfig, op: (T, T) -> T, blank: T, buf: array<T>, n: nat, rank: nat, reachable: set<nat>,
                               ghost inbox: seq<seq<T>>, scatterIn: seq<seq<seq<T>>>, gatherIn: seq<seq<seq<T>>>)
    returns (res: Outcome)
    requires rank < n || n == 0
    requires Sized(Algo.PipelinedRing(config), n, buf.Length, inbox, scatterIn, gatherIn)
    modifies buf
    ensures Fulfilled(Algo.PipelinedRing(config), op, n, rank, reachable, old(buf[..]), buf[..], res, inbox, scatterIn, gatherIn)
  {
    ghost var own := buf[..];
    var sent;
    res, sent := RingRank.PipelinedRing(op, blank, buf, n, rank, config.microChunks, config.maxInFlight,
                                        n > 0 && (rank + 1) % n in reachable, scatterIn, gatherIn);
    if n >= 2 && res == Done && Associative(op) && Commutative(op) {
      forall bufs | Joins(Algo.PipelinedRing(config), op, bufs, n, rank, own, inbox, scatterIn, gatherIn) ensures Folded(op, bufs, buf[..]) {
        RingCallFolded(op, bufs, n, rank, config.microChunks, |own| / n / config.microChunks, own, buf[..], scatterIn, gatherIn);
      }
    }
  }

  method RunDoubling<T(!new)>(op: (T, T) -> T, blank: T, buf: array<T>, n: nat, rank: nat, reachable: set<nat>,
                              inbox: seq<seq<T>>, scatterIn: seq<seq<seq<T>>>, gatherIn: seq<seq<seq<T>>>)
    returns (res: Outcome)
    requires rank < n || n == 0
    requires Sized(Algo.RecursiveDoubling, n, buf.Length, inbox, scatterIn, gatherIn)
    modifies buf
    ensures Fulfilled(Algo.RecursiveDoubling, op, n, rank, reachable, old(buf[..]), buf[..], res, inbox, scatterIn, gatherIn)
  {
    ghost var own := buf[..];
    var log;
    res, log := RdRank.RecursiveDoubling(op, blank, buf, n, rank, reachable, inbox, First(scatterIn), First(gatherIn));
    if n >= 2 && res == Done && Associative(op) && Commutative(op) {
      forall bufs | Joins(Algo.RecursiveDoubling, op, bufs, n, rank, own, inbox, scatterIn, gatherIn) ensures Folded(op, bufs, buf[..]) {
        if IsPowerOfTwo(n) {
          TreeFolded(op, bufs, rank, buf[..]);
        } else {
          assert scatterIn == [First(scatterIn)] && gatherIn == [First(gatherIn)];
          RingCallFolded(op, bufs, n, rank, 1, |own| / n, own, buf[..], scatterIn, gatherIn);
        }
      }
    }
  }

  /** `AdaptiveCommunicator::allreduce`. It succeeds exactly when the chosen algorithm accepts the buffer and
      has its endpoints; with an associative and commutative operator the result does not show the choice. */
  method AllreduceAdaptively<T(!new)>(policy: Policy, size: nat, op: (T, T) -> T, blank: T, buf: array<T>, n: nat, rank: nat,
                                      reachable: set<nat>, inbox: seq<seq<T>>, scatterIn: seq<seq<seq<T>>>, gatherIn: seq<seq<seq<T>>>)
    returns (res: Outcome)
    requires rank < n || n == 0
    requires Sized(ChooseAllreduce(policy, buf.Length * size, n), n, buf.Length, inbox, scatterIn, gatherIn)
    modifies buf
    ensures Fulfilled(ChooseAllreduce(policy, buf.Length * size, n), op, n, rank, reachable, old(buf[..]), buf[..], res,
                      inbox, scatterIn, gatherIn)
  {
    var algo := ChooseAllreduce(policy, buf.Length * size, n);
    match algo
    case PlainRing => res := RunPlain(op, blank, buf, n, rank, reachable, inbox, scatterIn, gatherIn);
    case PipelinedRing(c) => res := RunPipelined(c, op, blank, buf, n, rank, reachable, inbox, scatterIn, gatherIn);
    case RecursiveDoubling => res := RunDoubling(op, blank, buf, n, rank, reachable, inbox, scatterIn, gatherIn);
  }
}
