/** Reduction operators: the bulk in-place reduce, and the two integer operators used for bit-exact checks. */
module Ops {

  /** The pointwise combination of two equally long buffers. */
  function Combined<T>(op: (T, T) -> T, a: seq<T>, b: seq<T>): (r: seq<T>)
    ensures |r| == |a|
  {
    seq(|a|, i requires 0 <= i < |a| => if i < |b| then op(a[i], b[i]) else a[i])
  }

  const LANES: nat := 8

  /** Blocks of eight lanes, then the remainder. `dst[lo..lo + src.Length]` is the destination slice. */
  method ReduceInPlace<T>(op: (T, T) -> T, dst: array<T>, lo: nat, src: array<T>)
    requires dst != src && lo + src.Length <= dst.Length
    modifies dst
    ensures dst[lo..lo + src.Length] == Combined(op, old(dst[lo..lo + src.Length]), src[..])
    ensures dst[..lo] == old(dst[..lo]) && dst[lo + src.Length..] == old(dst[lo + src.Length..])
  {
    var len := src.Length;
    var whole := len / LANES;
    var k := 0;
    while k < whole
      invariant 0 <= k <= whole
      invariant Progress(op, dst[..], old(dst[..]), lo, src[..], LANES * k)
    {
      var i := 0;
      while i < LANES
        invariant 0 <= i <= LANES
        invariant Progress(op, dst[..], old(dst[..]), lo, src[..], LANES * k + i)
      {
        var at := LANES * k + i;
        dst[lo + at] := op(dst[lo + at], src[at]);
        i := i + 1;
      }
      k := k + 1;
    }
    var j := LANES * whole;
    while j < len
      invariant LANES * whole <= j <= len
      invariant Progress(op, dst[..], old(dst[..]), lo, src[..], j)
    {
      dst[lo + j] := op(dst[lo + j], src[j]);
      j := j + 1;
    }
  }

  /** The first `done` elements of the destination slice are combined, everything else is as before. */
  ghost predicate Progress<T>(op: (T, T) -> T, now: seq<T>, was: seq<T>, lo: nat, src: seq<T>, done: nat) {
    && |now| == |was| && lo + |src| <= |was| && done <= |src|
    && (forall i :: 0 <= i < |was| ==> now[i] == if lo <= i < lo + done then op(was[i], src[i - lo]) else was[i])
  }

  // ----- algebra -----

  ghost predicate Commutative<V(!new)>(op: (V, V) -> V) { forall a, b :: op(a, b) == op(b, a) }

  ghost predicate Associative<V(!new)>(op: (V, V) -> V) { forall a, b, c :: Regroups(op, a, b, c) }

  ghost predicate Regroups<V>(op: (V, V) -> V, a: V, b: V, c: V) { op(op(a, b), c) == op(a, op(b, c)) }

  type u32 = x: int | 0 <= x < 0x1_0000_0000

  function WrappingAdd(a: u32, b: u32): u32 { (a + b) % 0x1_0000_0000 }

  function BitXor(a: bv32, b: bv32): bv32 { a ^ b }

  lemma WrappingAddLaws()
    ensures Commutative(WrappingAdd) && Associative(WrappingAdd)
    ensures forall a: u32 :: WrappingAdd(0, a) == a && WrappingAdd(a, 0) == a
    ensures forall a: u32, b: u32 :: WrappingAdd(a, b) == if a + b < 0x1_0000_0000 then a + b else a + b - 0x1_0000_0000
  {
    forall a: u32, b: u32 ensures WrappingAdd(a, b) == if a + b < 0x1_0000_0000 then a + b else a + b - 0x1_0000_0000 {
      WrapOnce(a + b);
    }
    forall a: u32, b: u32, c: u32 ensures Regroups(WrappingAdd, a, b, c) {
      WrapOnce(a + b);
      WrapOnce(b + c);
      WrapOnce(WrappingAdd(a, b) + c);
      WrapOnce(a + WrappingAdd(b, c));
    }
  }

  lemma WrapOnce(x: int)
    requires 0 <= x < 0x2_0000_0000
    ensures x % 0x1_0000_0000 == if x < 0x1_0000_0000 then x else x - 0x1_0000_0000
  {
  }

  lemma BitXorLaws()
    ensures Commutative(BitXor) && Associative(BitXor)
    ensures forall a: bv32 :: BitXor(0, a) == a && BitXor(a, a) == 0
  {
    forall a: bv32, b: bv32 ensures BitXor(a, b) == BitXor(b, a) {
    }
    forall a: bv32 ensures BitXor(0, a) == a && BitXor(a, a) == 0 {
      XorRegroups(a, a, a);
    }
    forall a: bv32, b: bv32, c: bv32 ensures Regroups(BitXor, a, b, c) {
      XorRegroups(a, b, c);
    }
  }

  lemma XorRegroups(a: bv32, b: bv32, c: bv32)
    ensures BitXor(BitXor(a, b), c) == BitXor(a, BitXor(b, c))
    ensures BitXor(0, a) == a && BitXor(a, a) == 0
  {
  }
}
