/** Powers of two, single-bit flips, and the values recursive doubling computes. */
module Doubling {
  import opened Ops
  import opened Division

  function Pow2(k: nat): (p: nat)
    ensures p >= 1
  {
    if k == 0 then 1 else 2 * Pow2(k - 1)
  }

  function TrailingZeros(n: nat): nat
    requires n > 0
  {
    if n % 2 == 1 then 0 else 1 + TrailingZeros(n / 2)
  }

  /** The number of bits of `x`: `usize::BITS - x.leading_zeros()`. */
  function BitLen(x: nat): nat { if x == 0 then 0 else 1 + BitLen(x / 2) }

  lemma {:induction false} BitLenBounds(x: nat)
    ensures x < Pow2(BitLen(x)) && BitLen(x) <= x
    ensures x > 0 ==> Pow2(BitLen(x) - 1) <= x
  {
    if x > 0 {
      BitLenBounds(x / 2);
    }
  }

  lemma Pow2Double(k: nat)
    ensures Pow2(k + 1) == Pow2(k) + Pow2(k)
  {
  }

  lemma {:induction false} Pow2Grows(a: nat, b: nat)
    requires a <= b
    ensures Pow2(a) <= Pow2(b) && (a < b ==> 2 * Pow2(a) <= Pow2(b))
  {
    if a < b {
      Pow2Grows(a, b - 1);
    }
  }

  predicate IsPowerOfTwo(n: nat) { n > 0 && n == Pow2(TrailingZeros(n)) }

  /** The test accepts exactly the powers of two, and then counts the exponent. */
  lemma {:induction false} PowerOfTwoExact(k: nat)
    ensures IsPowerOfTwo(Pow2(k)) && TrailingZeros(Pow2(k)) == k
  {
    if k > 0 {
      PowerOfTwoExact(k - 1);
    }
  }

  function Bit(x: nat, b: nat): nat { (x / Pow2(b)) % 2 }

  /** `rank ^ (1 << r)`. */
  function Peer(rank: nat, r: nat): nat
  {
    if Bit(rank, r) == 0 then rank + Pow2(r) else rank - LowPart(rank, r)
  }

  /** `Pow2(r)`, known not to exceed a number whose bit `r` is set. */
  function LowPart(rank: nat, r: nat): (p: nat)
    requires Bit(rank, r) == 1
    ensures p == Pow2(r) && p <= rank
  {
    DivBounds(rank, Pow2(r));
    Pow2(r)
  }

  lemma HalfDiv(x: nat, d: nat)
    requires d > 0
    ensures x / (2 * d) == (x / d) / 2
    ensures x % (2 * d) == if (x / d) % 2 == 1 then d + x % d else x % d
  {
    var q := x / d;
    var h := q / 2;
    DivBounds(x, d);
    if q % 2 == 1 {
      assert d * q == (2 * d) * h + d by {
        assert q == 2 * h + 1;
        assert d * (2 * h + 1) == (2 * d) * h + d;
      }
      DivUnique(x, 2 * d, h, d + x % d);
    } else {
      assert d * q == (2 * d) * h by {
        assert q == 2 * h;
        assert d * (2 * h) == (2 * d) * h;
      }
      DivUnique(x, 2 * d, h, x % d);
    }
  }

  /** Halving the quotient: the aligned block twice as large, and the offset in it. */
  lemma HalfBlock(x: nat, r: nat)
    ensures x / Pow2(r + 1) == (x / Pow2(r)) / 2
    ensures x % Pow2(r + 1) == if Bit(x, r) == 1 then Pow2(r) + x % Pow2(r) else x % Pow2(r)
  {
    HalfDiv(x, Pow2(r));
  }

  lemma PeerQuotient(rank: nat, r: nat)
    ensures Peer(rank, r) / Pow2(r) == (if Bit(rank, r) == 0 then rank / Pow2(r) + 1 else rank / Pow2(r) - 1)
    ensures Peer(rank, r) % Pow2(r) == rank % Pow2(r)
  {
    if Bit(rank, r) == 0 {
      ShiftQuotient(rank, Pow2(r), 1);
    } else {
      ShiftQuotient(rank - LowPart(rank, r), Pow2(r), 1);
    }
  }

  /** Peers are mutual, differ in bit `r`, and share the block twice as large. */
  lemma PeerBlock(rank: nat, r: nat)
    ensures Bit(Peer(rank, r), r) == 1 - Bit(rank, r)
    ensures Peer(Peer(rank, r), r) == rank && Peer(rank, r) != rank
    ensures Peer(rank, r) / Pow2(r + 1) == rank / Pow2(r + 1)
  {
    PeerQuotient(rank, r);
    HalfBlock(rank, r);
    HalfBlock(Peer(rank, r), r);
  }

  /** `Peer` is exclusive-or with `1 << r`: it flips bit `r` and no other. */
  lemma PeerFlipsOneBit(rank: nat, r: nat, b: nat)
    ensures Bit(Peer(rank, r), b) == if b == r then 1 - Bit(rank, b) else Bit(rank, b)
  {
    PeerBlock(rank, r);
    if b > r {
      BlockOfBlock(Peer(rank, r), rank, r + 1, b);
    } else if b < r {
      if Bit(rank, r) == 0 {
        LowBitsKept(rank, r, b);
      } else {
        LowBitsKept(rank - LowPart(rank, r), r, b);
      }
    }
  }

  lemma LowBitsKept(x: nat, r: nat, b: nat)
    requires b < r
    ensures Bit(x + Pow2(r), b) == Bit(x, b)
  {
    Pow2Times(b, r);
    var h := Pow2(r - b);
    EvenPower(r - b);
    Commute(h, Pow2(b));
    ShiftQuotient(x, Pow2(b), h);
    EvenShift(x / Pow2(b), h);
  }

  lemma EvenPower(k: nat)
    requires k > 0
    ensures Pow2(k) % 2 == 0
  {
  }

  lemma Commute(a: nat, b: nat)
    ensures a * b == b * a
  {
  }

  lemma EvenShift(q: nat, h: nat)
    requires h % 2 == 0
    ensures (q + h) % 2 == q % 2
  {
  }

  /** Two ranks of one block of `2^(r+1)` are in the same half with their peers, or in opposite halves. */
  lemma Siblings(p: nat, q: nat, r: nat)
    requires p / Pow2(r + 1) == q / Pow2(r + 1)
    ensures if p / Pow2(r) == q / Pow2(r) then Peer(p, r) / Pow2(r) == Peer(q, r) / Pow2(r)
            else p / Pow2(r) == Peer(q, r) / Pow2(r) && Peer(p, r) / Pow2(r) == q / Pow2(r)
  {
    HalfBlock(p, r);
    HalfBlock(q, r);
    PeerQuotient(p, r);
    PeerQuotient(q, r);
  }

  lemma Pow2Times(r: nat, b: nat)
    requires r <= b
    ensures Pow2(b) == Pow2(b - r) * Pow2(r)
  {
    if r < b {
      Pow2Times(r, b - 1);
    }
  }

  /** `x / 2^b`, for a block at least as large as the one of size `2^r`. */
  lemma BlockOfBlock(x: nat, y: nat, r: nat, b: nat)
    requires r <= b && x / Pow2(r) == y / Pow2(r)
    ensures x / Pow2(b) == y / Pow2(b)
    decreases b - r
  {
    if r < b {
      HalfBlock(x, r);
      HalfBlock(y, r);
      BlockOfBlock(x, y, r + 1, b);
    }
  }

  /** The peer of a rank below `2^k` stays below it in every round before the `k`-th. */
  lemma PeerInRange(rank: nat, r: nat, k: nat)
    requires r < k && rank < Pow2(k)
    ensures Peer(rank, r) < Pow2(k)
  {
    PeerBlock(rank, r);
    BlockOfBlock(Peer(rank, r), rank, r + 1, k);
    DivUnique(rank, Pow2(k), 0, rank);
    DivBounds(Peer(rank, r), Pow2(k));
  }

  // ----- values -----

  /** What rank `p` holds after `r` rounds. */
  function Val<V>(op: (V, V) -> V, xs: seq<V>, k: nat, p: nat, r: nat): V
    requires |xs| == Pow2(k) && p < |xs| && r <= k
    decreases r
  {
    if r == 0 then xs[p]
    else
      PeerInRange(p, r - 1, k);
      op(Val(op, xs, k, p, r - 1), Val(op, xs, k, Peer(p, r - 1), r - 1))
  }

  lemma ValUnfolds<V>(op: (V, V) -> V, xs: seq<V>, k: nat, p: nat, r: nat)
    requires |xs| == Pow2(k) && p < |xs| && 1 <= r <= k
    ensures Peer(p, r - 1) < |xs|
    ensures Val(op, xs, k, p, r) == op(Val(op, xs, k, p, r - 1), Val(op, xs, k, Peer(p, r - 1), r - 1))
  {
    PeerInRange(p, r - 1, k);
  }

  /** Commutativity alone makes a whole aligned block of `2^r` ranks agree after `r` rounds. */
  lemma {:induction false} BlockAgrees<V(!new)>(op: (V, V) -> V, xs: seq<V>, k: nat, p: nat, q: nat, r: nat)
    requires Commutative(op) && |xs| == Pow2(k) && p < |xs| && q < |xs| && r <= k
    requires p / Pow2(r) == q / Pow2(r)
    ensures Val(op, xs, k, p, r) == Val(op, xs, k, q, r)
    decreases r
  {
    if r == 0 {
      BlockOfOne(p, q);
    } else {
      var p', q' := Peer(p, r - 1), Peer(q, r - 1);
      PeerInRange(p, r - 1, k);
      PeerInRange(q, r - 1, k);
      assert Val(op, xs, k, p, r) == op(Val(op, xs, k, p, r - 1), Val(op, xs, k, p', r - 1));
      assert Val(op, xs, k, q, r) == op(Val(op, xs, k, q, r - 1), Val(op, xs, k, q', r - 1));
      Siblings(p, q, r - 1);
      if p / Pow2(r - 1) == q / Pow2(r - 1) {
        BlockAgrees(op, xs, k, p, q, r - 1);
        BlockAgrees(op, xs, k, p', q', r - 1);
      } else {
        BlockAgrees(op, xs, k, p, q', r - 1);
        BlockAgrees(op, xs, k, p', q, r - 1);
      }
    }
  }

  lemma BlockOfOne(p: nat, q: nat)
    requires p / Pow2(0) == q / Pow2(0)
    ensures p == q
  {
    assert Pow2(0) == 1;
  }

  lemma AllAgree<V(!new)>(op: (V, V) -> V, xs: seq<V>, k: nat, p: nat, q: nat)
    requires Commutative(op) && |xs| == Pow2(k) && p < |xs| && q < |xs|
    ensures Val(op, xs, k, p, k) == Val(op, xs, k, q, k)
  {
    DivUnique(p, Pow2(k), 0, p);
    DivUnique(q, Pow2(k), 0, q);
    BlockAgrees(op, xs, k, p, q, k);
  }
}
