/** What the asynchronous runs return, as flat buffers: the two ring variants, recursive doubling, and the
    value they share for an associative and commutative operator. */
module AllreduceRuns {
  import opened Division
  import opened Ops
  import opened Doubling
  import opened RingBuffers
  import opened RingFold
  import opened RingResult
  import opened Allreduce
  import Ring = RingNet
  import Rows = RingRows
  import RingTheorems
  import Rd = RdNet

  /** Every result of every run of the ring machine is the flat ring result, slot by slot. The right-hand
      side names neither micro-chunks nor windows nor timing, so the plain ring (one micro-chunk) and every
      pipelining return the same elements, and nothing is assumed of the operator. */
  lemma RingRunReturnsBuffer<T>(c: Ring.Config<seq<T>>, states: seq<Ring.State<seq<T>>>, events: seq<Ring.Event<seq<T>>>,
                                i: nat, r: nat, call: nat, op: (T, T) -> T, bufs: seq<seq<T>>, micro: nat, m: nat, k: nat)
    requires c.Valid() && Cuts(c, call, bufs, micro) && c.op == Lift(op) && m < c.calls[call].micros && k < c.n
    requires Ring.IsRun(c, states, events) && i < |states|
    requires r < c.n && r < |states[i].ranks| && call < |states[i].ranks[r].results|
    ensures forall q :: 0 <= q < c.n ==> |bufs[q]| == c.n * (c.calls[call].micros * micro)
    ensures Tiled(|RingBuffer(op, bufs, c.calls[call].micros * micro)|, c.n, c.calls[call].micros, micro)
    ensures var rows := states[i].ranks[r].results[call];
      && m < |rows| && k < |rows[m]|
      && rows[m][k] == RowCell(RingBuffer(op, bufs, c.calls[call].micros * micro), c.n, c.calls[call].micros, micro, m, k)
  {
    RingTheorems.ResultIsRingFold(c, states, events, i, r, call);
    MicroChunksInvisible(c, op, call, bufs, micro, m, k);
  }

  /** Every element a ring run returns is the fold of that position in rank order. */
  lemma RingRunFolds<T(!new)>(op: (T, T) -> T, bufs: seq<seq<T>>, chunk: nat, e: nat)
    requires Associative(op) && Commutative(op)
    requires (forall q :: 0 <= q < |bufs| ==> |bufs[q]| == |bufs| * chunk) && e < |bufs| * chunk
    ensures RingBuffer(op, bufs, chunk)[e] == Range(op, At(bufs, e), 0, |bufs|)
  {
    BufferElement(op, bufs, chunk, e);
    RingIsRange(op, At(bufs, e), ChunkOf(|bufs|, chunk, e));
  }

  /** Every result of every run of recursive doubling is the same fold. */
  lemma RdRunFolds<T(!new)>(c: Rd.Config<seq<T>>, states: seq<seq<Rd.Rank<seq<T>>>>, events: seq<Rd.Event>,
                            i: nat, p: nat, call: nat, op: (T, T) -> T, len: nat)
    requires c.Valid() && c.op == Lift(op) && Associative(op) && Commutative(op)
    requires Rd.IsRun(c, states, events) && i < |states|
    requires p < |states[i]| && call < |states[i][p].results| && call < |c.input|
    requires forall q :: 0 <= q < |c.input[call]| ==> |c.input[call][q]| == len
    ensures |c.input[call]| == Pow2(c.k) && |states[i][p].results[call]| == len
    ensures forall e :: 0 <= e < len ==>
      states[i][p].results[call][e] == Range(op, At(c.input[call], e), 0, Pow2(c.k))
  {
    Rd.ResultIsTree(c, states, events, i, p, call);
    PowerOfTwoExact(c.k);
    TreeResult(op, c.input[call], p, len);
  }

  // ----- the adaptive choice, over runs -----

  /** A run of one of the two machines an allreduce can be part of. The ring machine carries plain and
      pipelined calls in any mixture. */
  datatype Machine<!T(==)> =
    | OnRing(ring: Ring.Config<seq<T>>, ringStates: seq<Ring.State<seq<T>>>, ringEvents: seq<Ring.Event<seq<T>>>)
    | OnRd(rd: Rd.Config<seq<T>>, rdStates: seq<seq<Rd.Rank<seq<T>>>>, rdEvents: seq<Rd.Event>)

  /** The ring call that an algorithm makes of an allreduce; a plain ring is a ring of one micro-chunk. */
  ghost predicate Picks<V>(algo: Algo, call: Ring.Call<V>) {
    match algo
    case RecursiveDoubling => false
    case PlainRing => call.micros == 1
    case PipelinedRing(config) =>
      call.micros == config.microChunks && forall r :: 0 <= r < |call.window| ==> call.window[r] == config.maxInFlight
  }

  /** Call `call` of the run is an allreduce of `bufs` by algorithm `algo`; in a ring the slots have `micro` elements. */
  ghost predicate Executes<T>(w: Machine<T>, algo: Algo, op: (T, T) -> T, call: nat, bufs: seq<seq<T>>, micro: nat)
  {
    match w
    case OnRing(c, states, events) =>
      && c.Valid() && Cuts(c, call, bufs, micro) && c.op == Lift(op) && Ring.IsRun(c, states, events) && Picks(algo, c.calls[call])
    case OnRd(c, states, events) =>
      && algo.RecursiveDoubling? && c.Valid() && c.op == Lift(op) && Rd.IsRun(c, states, events)
      && call < |c.input| && c.input[call] == bufs
  }

  /** In state `i` of the run rank `r` has returned from the call with buffer `out`. */
  ghost predicate Returned<T>(w: Machine<T>, i: nat, r: nat, call: nat, micro: nat, out: seq<T>)
  {
    match w
    case OnRing(c, states, events) =>
      && i < |states| && r < c.n && r < |states[i].ranks| && call < |states[i].ranks[r].results|
      && Flattens(out, states[i].ranks[r].results[call], c.n, |states[i].ranks[r].results[call]|, micro)
    case OnRd(c, states, events) =>
      i < |states| && r < |states[i]| && call < |states[i][r].results| && out == states[i][r].results[call]
  }

  /** `out` is the flat buffer whose rows are `rows`. */
  ghost predicate Flattens<T>(out: seq<T>, rows: seq<seq<seq<T>>>, n: nat, micros: nat, micro: nat) {
    && Tiled(|out|, n, micros, micro) && |rows| == micros
    && forall m :: 0 <= m < micros ==> rows[m] == Row(out, n, micros, micro, m)
  }

  lemma RingFlatResult<T>(c: Ring.Config<seq<T>>, states: seq<Ring.State<seq<T>>>, events: seq<Ring.Event<seq<T>>>,
                          i: nat, r: nat, call: nat, op: (T, T) -> T, bufs: seq<seq<T>>, micro: nat, out: seq<T>)
    requires c.Valid() && Cuts(c, call, bufs, micro) && c.op == Lift(op)
    requires Ring.IsRun(c, states, events) && i < |states|
    requires r < c.n && r < |states[i].ranks| && call < |states[i].ranks[r].results|
    requires Flattens(out, states[i].ranks[r].results[call], c.n, |states[i].ranks[r].results[call]|, micro)
    ensures forall q :: 0 <= q < c.n ==> |bufs[q]| == c.n * (c.calls[call].micros * micro)
    ensures out == RingBuffer(op, bufs, c.calls[call].micros * micro)
  {
    var micros := c.calls[call].micros;
    assert c.calls[call].Valid(c.n);
    RingTheorems.ResultIsRingFold(c, states, events, i, r, call);
    assert c.n * (micros * micro) == c.n * micros * micro;
    var flat := RingBuffer(op, bufs, micros * micro);
    forall m, k | 0 <= m < micros && 0 <= k < c.n
      ensures RowCell(out, c.n, micros, micro, m, k) == RowCell(flat, c.n, micros, micro, m, k)
    {
      RingRunReturnsBuffer(c, states, events, i, r, call, op, bufs, micro, m, k);
      assert states[i].ranks[r].results[call][m] == Row(out, c.n, micros, micro, m);
    }
    RowsDetermine(out, flat, c.n, micros, micro);
  }

  lemma RingCallFolds<T(!new)>(c: Ring.Config<seq<T>>, states: seq<Ring.State<seq<T>>>, events: seq<Ring.Event<seq<T>>>,
                               i: nat, r: nat, call: nat, op: (T, T) -> T, bufs: seq<seq<T>>, len: nat, micro: nat, out: seq<T>)
    requires Associative(op) && Commutative(op)
    requires c.Valid() && Cuts(c, call, bufs, micro) && c.op == Lift(op) && forall q :: 0 <= q < |bufs| ==> |bufs[q]| == len
    requires Ring.IsRun(c, states, events) && i < |states|
    requires r < c.n && r < |states[i].ranks| && call < |states[i].ranks[r].results|
    requires Flattens(out, states[i].ranks[r].results[call], c.n, |states[i].ranks[r].results[call]|, micro)
    ensures |out| == len && forall e :: 0 <= e < len ==> out[e] == Range(op, At(bufs, e), 0, |bufs|)
  {
    var chunk := c.calls[call].micros * micro;
    RingFlatResult(c, states, events, i, r, call, op, bufs, micro, out);
    assert |bufs[0]| == len;
    forall e | 0 <= e < len ensures out[e] == Range(op, At(bufs, e), 0, |bufs|) {
      RingRunFolds(op, bufs, chunk, e);
    }
  }

  /** Whichever algorithm the policy picks, in every run of it, every buffer any rank returns holds at every
      position the fold of all ranks' elements in rank order: neither thresholds, micro-chunks, windows nor
      timing show in the result. */
  lemma PolicyRunFolds<T(!new)>(w: Machine<T>, policy: Policy, size: nat, op: (T, T) -> T, call: nat, bufs: seq<seq<T>>,
                                len: nat, micro: nat, i: nat, r: nat, out: seq<T>)
    requires Associative(op) && Commutative(op) && forall q :: 0 <= q < |bufs| ==> |bufs[q]| == len
    requires Executes(w, ChooseAllreduce(policy, len * size, |bufs|), op, call, bufs, micro)
    requires Returned(w, i, r, call, micro, out)
    ensures |out| == len && forall e :: 0 <= e < len ==> out[e] == Range(op, At(bufs, e), 0, |bufs|)
  {
    match w
    case OnRing(c, states, events) => RingCallFolds(c, states, events, i, r, call, op, bufs, len, micro, out);
    case OnRd(c, states, events) => RdRunFolds(c, states, events, i, r, call, op, len);
  }
}
