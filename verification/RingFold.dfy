/** Reductions over one value per rank. */
module RingFold {
  import opened RingIndex

  /** What chunk `c` holds after travelling `j` hops from rank `c`, the value of the rank it stops at
      being the left operand: `op(x[c+j], op(..., op(x[c+1], x[c])))`, ranks modulo `|xs|`. */
  function Partial<V>(op: (V, V) -> V, xs: seq<V>, c: nat, j: nat): V
    requires c < |xs|
  {
    if j == 0 then xs[c] else op(xs[(c + j) % |xs|], Partial(op, xs, c, j - 1))
  }

  /** The value a ring allreduce leaves in chunk `c`: every rank's contribution, starting at rank `c`. */
  function RingTotal<V>(op: (V, V) -> V, xs: seq<V>, c: nat): V
    requires c < |xs|
  {
    Partial(op, xs, c, |xs| - 1)
  }
}
