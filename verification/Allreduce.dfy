/** The adaptive choice between the allreduce algorithms, and why it does not show in the result. */
module Allreduce {
  import opened RingIndex
  import opened RingFold
  import opened Ops
  import opened Division
  import opened Doubling
  import opened RingBuffers
  import opened RingResult
  import opened RdRank

  datatype PipelineConfig = PipelineConfig(microChunks: nat, maxInFlight: nat)
  datatype Algo = PlainRing | PipelinedRing(config: PipelineConfig) | RecursiveDoubling
  datatype Policy = Policy(smallThreshold: nat, largeThreshold: nat, pipelineConfig: PipelineConfig)

  function ChooseAllreduce(policy: Policy, msgBytes: nat, n: nat): Algo
  {
    if msgBytes < policy.smallThreshold && IsPowerOfTwo(n) && n >= 2 then Algo.RecursiveDoubling
    else if msgBytes >= policy.largeThreshold then Algo.PipelinedRing(policy.pipelineConfig)
    else PlainRing
  }

  // ----- one value for every order of reduction -----

  /** `op(x[lo+len-1], op(..., op(x[lo+1], x[lo])))`. */
  function Range<V>(op: (V, V) -> V, xs: seq<V>, lo: nat, len: nat): V
    requires len >= 1 && lo + len <= |xs|
  {
    if len == 1 then xs[lo] else op(xs[lo + len - 1], Range(op, xs, lo, len - 1))
  }

  lemma {:induction false} RangeSplit<V(!new)>(op: (V, V) -> V, xs: seq<V>, lo: nat, a: nat, b: nat)
    requires Associative(op) && a >= 1 && b >= 1 && lo + a + b <= |xs|
    ensures Range(op, xs, lo, a + b) == op(Range(op, xs, lo + a, b), Range(op, xs, lo, a))
  {
    if b > 1 {
      RangeSplit(op, xs, lo, a, b - 1);
      assert Regroups(op, xs[lo + a + b - 1], Range(op, xs, lo + a, b - 1), Range(op, xs, lo, a));
    }
  }

  /** The first rank of the aligned block of `2^r` that `p` is in: `p` with its low `r` bits cleared. */
  function BlockStart(p: nat, r: nat): int
  {
    if r == 0 then p else BlockStart(p, r - 1) - (if Bit(p, r - 1) == 1 then Pow2(r - 1) else 0)
  }

  lemma {:induction false} StartLow(p: nat, r: nat)
    ensures BlockStart(p, r) == p - p % Pow2(r) >= 0
  {
    ModLe(p, Pow2(r));
    if r > 0 {
      StartLow(p, r - 1);
      HalfBlock(p, r - 1);
    }
  }

  lemma ModLe(x: nat, d: nat)
    requires d > 0
    ensures x % d <= x
  {
    DivBounds(x, d);
    MulNonNegative(d, x / d);
  }

  lemma MulNonNegative(a: nat, b: nat)
    ensures a * b >= 0
  {
  }

  lemma {:induction false} BlockFits(p: nat, r: nat, k: nat)
    requires p < Pow2(k) && r <= k
    ensures 0 <= BlockStart(p, r) && BlockStart(p, r) + Pow2(r) <= Pow2(k)
    decreases k - r
  {
    StartLow(p, r);
    if r == k {
      DivUnique(p, Pow2(k), 0, p);
    } else {
      BlockFits(p, r + 1, k);
    }
  }

  /** A block starts where its even half starts, and its odd half `2^r` later. */
  lemma HalvesOfBlock(p: nat, r: nat)
    ensures var lo := BlockStart(p, r + 1); var q := Peer(p, r);
      if Bit(p, r) == 0 then BlockStart(p, r) == lo && BlockStart(q, r) == lo + Pow2(r)
      else BlockStart(q, r) == lo && BlockStart(p, r) == lo + Pow2(r)
  {
    StartLow(p, r);
    StartLow(Peer(p, r), r);
    PeerQuotient(p, r);
  }

  /** The tree of rank `p` after `r` rounds folds its aligned block in rank order. */
  ghost predicate FoldsBlock<V>(op: (V, V) -> V, xs: seq<V>, k: nat, p: nat, r: nat)
    requires |xs| == Pow2(k) && p < |xs| && r <= k
  {
    && 0 <= BlockStart(p, r) && BlockStart(p, r) + Pow2(r) <= |xs|
    && Val(op, xs, k, p, r) == Range(op, xs, BlockStart(p, r), Pow2(r))
  }

  /** The exchange tree of recursive doubling, re-associated and re-ordered, folds its block in rank order. */
  lemma {:induction false} TreeIsRange<V(!new)>(op: (V, V) -> V, xs: seq<V>, k: nat, p: nat, r: nat)
    requires Associative(op) && Commutative(op) && |xs| == Pow2(k) && p < |xs| && r <= k
    ensures FoldsBlock(op, xs, k, p, r)
    decreases r
  {
    if r == 0 {
      assert Pow2(0) == 1;
    } else {
      PeerInRange(p, r - 1, k);
      TreeIsRange(op, xs, k, p, r - 1);
      TreeIsRange(op, xs, k, Peer(p, r - 1), r - 1);
      FoldsTwice(op, xs, k, p, r - 1);
    }
  }

  /** The halves of the block twice as large, and that it fits. */
  lemma TwoHalves(p: nat, r: nat, k: nat)
    requires p < Pow2(k) && r < k
    ensures var lo := BlockStart(p, r + 1); var mine := BlockStart(p, r); var theirs := BlockStart(Peer(p, r), r); var h := Pow2(r);
      && 0 <= lo && lo + h + h <= Pow2(k) && Pow2(r + 1) == h + h
      && ((mine == lo && theirs == lo + h) || (theirs == lo && mine == lo + h))
  {
    BlockFits(p, r + 1, k);
    HalvesOfBlock(p, r);
    Pow2Double(r);
  }

  lemma FoldsTwice<V(!new)>(op: (V, V) -> V, xs: seq<V>, k: nat, p: nat, r: nat)
    requires Associative(op) && Commutative(op) && |xs| == Pow2(k) && p < |xs| && r < k && Peer(p, r) < |xs|
    requires FoldsBlock(op, xs, k, p, r) && FoldsBlock(op, xs, k, Peer(p, r), r)
    ensures FoldsBlock(op, xs, k, p, r + 1)
  {
    var q := Peer(p, r);
    TwoHalves(p, r, k);
    ValUnfolds(op, xs, k, p, r + 1);
    JoinEither(op, xs, BlockStart(p, r + 1), Pow2(r), BlockStart(p, r), BlockStart(q, r), Val(op, xs, k, p, r), Val(op, xs, k, q, r));
  }

  lemma JoinEither<V(!new)>(op: (V, V) -> V, xs: seq<V>, lo: nat, h: nat, mine: nat, theirs: nat, a: V, b: V)
    requires Associative(op) && Commutative(op) && h >= 1 && lo + h + h <= |xs|
    requires (mine == lo && theirs == lo + h) || (theirs == lo && mine == lo + h)
    requires a == Range(op, xs, mine, h) && b == Range(op, xs, theirs, h)
    ensures op(a, b) == Range(op, xs, lo, h + h)
  {
    if mine == lo {
      JoinHalves(op, xs, lo, h, a, b);
    } else {
      JoinHalves(op, xs, lo, h, b, a);
    }
  }

  lemma JoinHalves<V(!new)>(op: (V, V) -> V, xs: seq<V>, lo: nat, h: nat, low: V, high: V)
    requires Associative(op) && Commutative(op) && h >= 1 && lo + h + h <= |xs|
    requires low == Range(op, xs, lo, h) && high == Range(op, xs, lo + h, h)
    ensures op(low, high) == op(high, low) == Range(op, xs, lo, h + h)
  {
    RangeSplit(op, xs, lo, h, h);
  }

  /** Dropping the first hop of a ring fold moves its value to the right-hand end. */
  lemma {:induction false} DropFirstHop<V(!new)>(op: (V, V) -> V, xs: seq<V>, c: nat, j: nat)
    requires Associative(op) && c < |xs| && 1 <= j < |xs|
    ensures Partial(op, xs, c, j) == op(Partial(op, xs, (c + 1) % |xs|, j - 1), xs[c])
  {
    var n := |xs|;
    ModOnce(n, c + 1);
    ModOnce(n, c + j);
    ModOnce(n, (c + 1) % n + (j - 1));
    if j > 1 {
      DropFirstHop(op, xs, c, j - 1);
      assert Regroups(op, xs[(c + j) % n], Partial(op, xs, (c + 1) % n, j - 2), xs[c]);
    }
  }

  /** With both laws the starting rank of a ring fold does not matter. */
  lemma RotateFold<V(!new)>(op: (V, V) -> V, xs: seq<V>, c: nat)
    requires Associative(op) && Commutative(op) && c + 1 < |xs|
    ensures RingTotal(op, xs, c) == RingTotal(op, xs, c + 1)
  {
    var n := |xs|;
    DropFirstHop(op, xs, c, n - 1);
    ModOnce(n, c + 1);
    ModOnce(n, c + 1 + (n - 1));
    var rest := Partial(op, xs, c + 1, n - 2);
    assert RingTotal(op, xs, c + 1) == op(xs[c], rest);
  }

  lemma {:induction false} PrefixFold<V>(op: (V, V) -> V, xs: seq<V>, j: nat)
    requires j < |xs|
    ensures Partial(op, xs, 0, j) == Range(op, xs, 0, j + 1)
  {
    if j > 0 {
      PrefixFold(op, xs, j - 1);
      ModOnce(|xs|, j);
    }
  }

  /** Ring order, from any chunk, folds to rank order. */
  lemma {:induction false} RingIsRange<V(!new)>(op: (V, V) -> V, xs: seq<V>, c: nat)
    requires Associative(op) && Commutative(op) && c < |xs|
    ensures RingTotal(op, xs, c) == Range(op, xs, 0, |xs|)
  {
    if c == 0 {
      PrefixFold(op, xs, |xs| - 1);
    } else {
      RingIsRange(op, xs, c - 1);
      RotateFold(op, xs, c - 1);
    }
  }

  // ----- the choice -----

  /** Whether the chosen algorithm accepts a buffer of `len` elements on `n` ranks. */
  ghost predicate Accepts(algo: Algo, n: nat, len: nat)
  {
    n >= 2 &&
    match algo
    case RecursiveDoubling => IsPowerOfTwo(n) || len % n == 0
    case PlainRing => len % n == 0
    case PipelinedRing(c) => len % n == 0 && 0 < c.microChunks <= 255 && c.maxInFlight > 0 && (len / n) % c.microChunks == 0
  }

  /** What rank `p` holds after the chosen algorithm, by the theorems about each of them: the ring result
      for both rings (see `MicroChunksInvisible`), the exchange tree for recursive doubling. */
  ghost function Result<T>(algo: Algo, op: (T, T) -> T, bufs: seq<seq<T>>, p: nat, len: nat): seq<T>
    requires p < |bufs| && Accepts(algo, |bufs|, len) && forall q :: 0 <= q < |bufs| ==> |bufs[q]| == len
  {
    if algo.RecursiveDoubling? && IsPowerOfTwo(|bufs|) then Val(Lift(op), bufs, TrailingZeros(|bufs|), p, TrailingZeros(|bufs|))
    else
      ExactChunks(|bufs|, len);
      RingBuffer(op, bufs, len / |bufs|)
  }

  lemma ExactChunks(n: nat, len: nat)
    requires n > 0 && len % n == 0
    ensures len == n * (len / n)
  {
  }

  /** For an associative and commutative operator every accepted choice, on every rank, leaves the
      pointwise fold of the inputs in rank order: thresholds, micro-chunks and rank do not show. */
  lemma ChoiceInvisible<T(!new)>(policy: Policy, msgBytes: nat, op: (T, T) -> T, bufs: seq<seq<T>>, p: nat, len: nat)
    requires Associative(op) && Commutative(op)
    requires p < |bufs| && forall q :: 0 <= q < |bufs| ==> |bufs[q]| == len
    requires Accepts(ChooseAllreduce(policy, msgBytes, |bufs|), |bufs|, len)
    ensures var out := Result(ChooseAllreduce(policy, msgBytes, |bufs|), op, bufs, p, len);
      && |out| == len
      && forall e :: 0 <= e < len ==> out[e] == Range(op, At(bufs, e), 0, |bufs|)
  {
    var n := |bufs|;
    var algo := ChooseAllreduce(policy, msgBytes, n);
    if algo.RecursiveDoubling? {
      TreeResult(op, bufs, p, len);
    } else {
      ExactChunks(n, len);
      var out := RingBuffer(op, bufs, len / n);
      forall e | 0 <= e < len ensures out[e] == Range(op, At(bufs, e), 0, n) {
        BufferElement(op, bufs, len / n, e);
        RingIsRange(op, At(bufs, e), ChunkOf(n, len / n, e));
      }
    }
  }

  lemma TreeResult<T(!new)>(op: (T, T) -> T, bufs: seq<seq<T>>, p: nat, len: nat)
    requires Associative(op) && Commutative(op) && IsPowerOfTwo(|bufs|)
    requires p < |bufs| && forall q :: 0 <= q < |bufs| ==> |bufs[q]| == len
    ensures var k := TrailingZeros(|bufs|); var out := Val(Lift(op), bufs, k, p, k);
      && |out| == len
      && forall e :: 0 <= e < len ==> out[e] == Range(op, At(bufs, e), 0, |bufs|)
  {
    var k := TrailingZeros(|bufs|);
    var out := Val(Lift(op), bufs, k, p, k);
    ValLength(op, bufs, k, p, k, len);
    DivUnique(p, Pow2(k), 0, p);
    forall e | 0 <= e < len ensures out[e] == Range(op, At(bufs, e), 0, |bufs|) {
      ValPointwise(op, bufs, At(bufs, e), k, p, k, len, e);
      TreeIsRange(op, At(bufs, e), k, p, k);
      StartLow(p, k);
    }
  }

  lemma ValLength<T>(op: (T, T) -> T, xs: seq<seq<T>>, k: nat, p: nat, r: nat, len: nat)
    requires |xs| == Pow2(k) && p < |xs| && r <= k && forall q :: 0 <= q < |xs| ==> |xs[q]| == len
    ensures |Val(Lift(op), xs, k, p, r)| == len
    decreases r
  {
    if r > 0 {
      PeerInRange(p, r - 1, k);
      ValLength(op, xs, k, p, r - 1, len);
    }
  }

  /** The two integer operators of the bit-exact tests meet the hypotheses. */
  lemma IntegerOperatorsQualify()
    ensures Associative(WrappingAdd) && Commutative(WrappingAdd)
    ensures Associative(BitXor) && Commutative(BitXor)
  {
    WrappingAddLaws();
    BitXorLaws();
  }
}
