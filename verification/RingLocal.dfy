/** What one ring step does to the row of chunks a chain works on. The asynchronous machine and the
    in-place methods both run on these two functions. */
module RingLocal {
  import opened RingIndex

  /** Reduce-scatter: combine the received chunk into the chunk of this step. */
  function ReduceStep<V>(op: (V, V) -> V, n: nat, rank: nat, step: nat, row: seq<V>, bytes: V): (r: seq<V>)
    requires rank < n && step + 1 < n && |row| == n
    ensures |r| == n
  {
    var i := RecvIdx(n, rank, 0, step);
    row[i := op(row[i], bytes)]
  }

  /** Allgather: the received chunk replaces the chunk of this step. */
  function StoreStep<V>(n: nat, rank: nat, step: nat, row: seq<V>, bytes: V): (r: seq<V>)
    requires rank < n && step + 1 < n && |row| == n
    ensures |r| == n
  {
    row[RecvIdx(n, rank, 1, step) := bytes]
  }

  /** The row after a chain of `phase` has received `inbox`, one message a step. */
  function RunChain<V>(op: (V, V) -> V, n: nat, rank: nat, phase: nat, row: seq<V>, inbox: seq<V>): (r: seq<V>)
    requires rank < n && |row| == n && |inbox| < n
    ensures |r| == n
  {
    if inbox == [] then row
    else
      var step := |inbox| - 1;
      var before := RunChain(op, n, rank, phase, row, inbox[..step]);
      if phase == 0 then ReduceStep(op, n, rank, step, before, inbox[step]) else StoreStep(n, rank, step, before, inbox[step])
  }

  /** What a chain sends in each step, given what it received before. */
  function Sent<V>(op: (V, V) -> V, n: nat, rank: nat, phase: nat, row: seq<V>, inbox: seq<V>, step: nat): V
    requires rank < n && |row| == n && step <= |inbox| < n && step + 1 < n
  {
    RunChain(op, n, rank, phase, row, inbox[..step])[SendIdx(n, rank, phase, step)]
  }
}
