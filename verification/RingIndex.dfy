/** Rank arithmetic shared by the collectives.

    The source writes every neighbour and chunk index as `(rank + n - k) % n`. `Back(n, rank, k)` is the
    same position reached by walking `k` ranks backwards round the ring, written without a modulus; the
    lemmas below connect the two, so that no later proof has to reason about `%` with a variable divisor. */
module RingIndex {

  /** The rank `k` places before `rank` on a ring of `n`. */
  function Back(n: nat, rank: nat, k: nat): (b: nat)
    requires rank < n && k < n
    ensures b < n
  {
    if k <= rank then rank - k else rank + n - k
  }

  /** How many places one walks backwards from `from` to meet `to`; the inverse of `Back`. */
  function Distance(n: nat, from: nat, to: nat): (d: nat)
    requires from < n && to < n
    ensures d < n && Back(n, from, d) == to
  {
    if to <= from then from - to else from + n - to
  }

  function Next(n: nat, rank: nat): (r: nat)
    requires rank < n
    ensures r < n
  {
    (rank + 1) % n
  }

  function Prev(n: nat, rank: nat): (r: nat)
    requires rank < n
    ensures r < n
  {
    (rank + n - 1) % n
  }

  lemma ModOnce(n: nat, a: nat)
    requires 0 < n && a < 2 * n
    ensures a % n == if a < n then a else a - n
  {
    if a >= n {
      assert a / n == 1;
    }
  }

  /** `(rank + n - k) % n` walks `k` places back. */
  lemma BackMod(n: nat, rank: nat, k: nat)
    requires rank < n && k < n
    ensures (rank + n - k) % n == Back(n, rank, k)
  {
    ModOnce(n, rank + n - k);
  }

  lemma PrevBack(n: nat, rank: nat)
    requires 2 <= n && rank < n
    ensures Prev(n, rank) == Back(n, rank, 1)
  {
    BackMod(n, rank, 1);
  }

  /** Following the ring and coming back is the identity, in both orders. */
  lemma NextPrev(n: nat, rank: nat)
    requires 2 <= n && rank < n
    ensures Next(n, Prev(n, rank)) == rank && Prev(n, Next(n, rank)) == rank
    ensures Next(n, rank) != rank && Prev(n, rank) != rank
    ensures Next(n, rank) == Back(n, rank, n - 1)
  {
    PrevBack(n, rank);
    ModOnce(n, rank + 1);
    PrevBack(n, Next(n, rank));
    ModOnce(n, Prev(n, rank) + 1);
  }

  // ----- chunk indices of one ring step (phase 0 = reduce-scatter, phase 1 = allgather) -----

  function SendIdx(n: nat, rank: nat, phase: nat, step: nat): (i: nat)
    requires rank < n && step + 1 < n
    ensures i < n
  {
    if phase == 0 then (rank + n - step) % n else (rank + n - step + 1) % n
  }

  function RecvIdx(n: nat, rank: nat, phase: nat, step: nat): (i: nat)
    requires rank < n && step + 1 < n
    ensures i < n
  {
    if phase == 0 then (rank + n - step - 1) % n else (rank + n - step) % n
  }

  /** The two chunks of a step as walks from `rank`: reduce-scatter sends the chunk `step` back and
      receives the one behind it; allgather first sends the chunk the rank has just completed. */
  lemma StepIdx(n: nat, rank: nat, phase: nat, step: nat)
    requires rank < n && step + 1 < n
    ensures SendIdx(n, rank, phase, step) == Back(n, rank, SendHop(n, phase, step))
    ensures RecvIdx(n, rank, phase, step) == Back(n, rank, RecvHop(phase, step))
    ensures SendIdx(n, rank, phase, step) != RecvIdx(n, rank, phase, step)
  {
    BackMod(n, rank, step);
    BackMod(n, rank, step + 1);
    if step > 0 {
      BackMod(n, rank, step - 1);
    } else {
      NextPrev(n, rank);
      FullTurn(n, rank + 1);
    }
  }

  function SendHop(n: nat, phase: nat, step: nat): nat
    requires 0 < n
  {
    if phase == 0 then step else if step == 0 then n - 1 else step - 1
  }

  function RecvHop(phase: nat, step: nat): nat { if phase == 0 then step + 1 else step }

  lemma FullTurn(n: nat, a: nat)
    requires 0 < n && a <= n
    ensures (a + n) % n == a % n
  {
    if a < n {
      ModOnce(n, a + n);
      ModOnce(n, a);
    } else {
      assert (a + n) == 2 * n;
      assert (2 * n) / n == 2;
      ModOnce(n, a);
    }
  }

  /** What a rank sends in a step is the chunk its successor receives in that step. */
  lemma SenderMatchesReceiver(n: nat, rank: nat, phase: nat, step: nat)
    requires rank < n && step + 1 < n
    ensures SendIdx(n, Prev(n, rank), phase, step) == RecvIdx(n, rank, phase, step)
  {
    StepIdx(n, rank, phase, step);
    StepIdx(n, Prev(n, rank), phase, step);
    PrevBack(n, rank);
  }
}
