/** One call of a ring allreduce on one rank, seen from outside: what the rank must hear from its predecessor,
    and what it then returns. */
module RingCall {
  import opened RingIndex
  import opened RingLocal
  import opened RingFold
  import opened Division
  import opened RingBuffers
  import opened RingResult
  import N = RingNet
  import Rows = RingRows

  /** Every rank's slot `(m, i)`. */
  ghost function Cells<T>(bufs: seq<seq<T>>, micros: nat, micro: nat, m: nat, i: nat): (xs: seq<seq<T>>)
    requires m < micros && i < |bufs| && forall q :: 0 <= q < |bufs| ==> Tiled(|bufs[q]|, |bufs|, micros, micro)
    ensures |xs| == |bufs|
  {
    seq(|bufs|, q requires 0 <= q < |bufs| => RowCell(bufs[q], |bufs|, micros, micro, m, i))
  }

  /** Chain `m` of `rank` hears in step `s` of the reduce-scatter the fold of `s + 1` ranks' contributions to
      the chunk it is to reduce next, and in step `s` of the allgather the whole fold of the chunk it lacks. */
  ghost predicate Hears<T>(op: (T, T) -> T, bufs: seq<seq<T>>, rank: nat, micros: nat, micro: nat, m: nat,
                           scatterIn: seq<seq<T>>, gatherIn: seq<seq<T>>)
    requires rank < |bufs| && m < micros && forall q :: 0 <= q < |bufs| ==> Tiled(|bufs[q]|, |bufs|, micros, micro)
  {
    var n := |bufs|;
    && |scatterIn| + 1 == n && |gatherIn| + 1 == n
    && forall s :: 0 <= s < n - 1 ==>
         && scatterIn[s] == Partial(Lift(op), Cells(bufs, micros, micro, m, RecvIdx(n, rank, 0, s)), RecvIdx(n, rank, 0, s), s)
         && gatherIn[s] == RingTotal(Lift(op), Cells(bufs, micros, micro, m, RecvIdx(n, rank, 1, s)), RecvIdx(n, rank, 1, s))
  }

  /** Rank `rank` of a ring with the buffers `bufs`, its own being `own`, hears what the ring sends. */
  ghost predicate InRing<T>(op: (T, T) -> T, bufs: seq<seq<T>>, n: nat, rank: nat, micros: nat, micro: nat, own: seq<T>,
                            scatterIn: seq<seq<seq<T>>>, gatherIn: seq<seq<seq<T>>>) {
    && |bufs| == n && rank < n && own == bufs[rank] && |scatterIn| == micros && |gatherIn| == micros
    && (forall q :: 0 <= q < n ==> |bufs[q]| == n * (micros * micro) && Tiled(|bufs[q]|, n, micros, micro))
    && (forall m :: 0 <= m < micros ==> Hears(op, bufs, rank, micros, micro, m, scatterIn[m], gatherIn[m]))
  }

  /** The rows a whole call leaves: reduce-scatter, then allgather on its result. */
  ghost function AfterCall<T>(op: (T, T) -> T, n: nat, rank: nat, row: seq<seq<T>>,
                              scatterIn: seq<seq<T>>, gatherIn: seq<seq<T>>): (r: seq<seq<T>>)
    requires rank < n && |row| == n && |scatterIn| < n && |gatherIn| < n
    ensures |r| == n
  {
    RunChain(Lift(op), n, rank, 1, RunChain(Lift(op), n, rank, 0, row, scatterIn), gatherIn)
  }

  /** The ring machine with this one call. */
  ghost function Alone<T>(op: (T, T) -> T, bufs: seq<seq<T>>, micros: nat, micro: nat, maxInFlight: nat): (c: N.Config<seq<T>>)
    requires forall q :: 0 <= q < |bufs| ==> Tiled(|bufs[q]|, |bufs|, micros, micro)
  {
    N.Config(|bufs|, Lift(op), [CallOf(bufs, micros, micro, maxInFlight)], [])
  }

  /** The call in which every rank passes the same micro-chunk count and window. */
  ghost function CallOf<T>(bufs: seq<seq<T>>, micros: nat, micro: nat, maxInFlight: nat): N.Call<seq<T>>
    requires forall q :: 0 <= q < |bufs| ==> Tiled(|bufs[q]|, |bufs|, micros, micro)
  {
    var n := |bufs|;
    N.Call(micros, seq(n, _ => maxInFlight),
           seq(n, q requires 0 <= q < n => seq(micros, m requires 0 <= m < micros => Row(bufs[q], n, micros, micro, m))))
  }

  /** A call is one of the ring machine's exactly when its configuration is what the source admits. */
  lemma CallValid<T>(bufs: seq<seq<T>>, micros: nat, micro: nat, maxInFlight: nat)
    requires |bufs| > 0 && forall q :: 0 <= q < |bufs| ==> Tiled(|bufs[q]|, |bufs|, micros, micro)
    ensures CallOf(bufs, micros, micro, maxInFlight).Valid(|bufs|) <==> 1 <= micros <= 255 && maxInFlight >= 1
  {
    var call := CallOf(bufs, micros, micro, maxInFlight);
    assert call.window[0] == maxInFlight;
    forall r | 0 <= r < |bufs| ensures call.RowsOk(|bufs|, call.input[r]) {
    }
  }

  /** The source's two divisibility checks pass exactly when some slot length tiles the buffer. */
  lemma TilesExactly(len: nat, n: nat, micros: nat)
    requires n > 0 && micros > 0
    ensures len % n == 0 && (len / n) % micros == 0 <==> exists micro :: Tiled(len, n, micros, micro)
    ensures len % n == 0 && (len / n) % micros == 0 ==> Tiled(len, n, micros, len / n / micros)
  {
    if len % n == 0 && (len / n) % micros == 0 {
      var chunk := len / n;
      assert chunk == (chunk / micros) * micros;
      assert n * micros * (chunk / micros) == n * (micros * (chunk / micros));
      assert Tiled(len, n, micros, chunk / micros);
    }
    if micro :| Tiled(len, n, micros, micro) {
      assert len == n * (micros * micro);
      DivUnique(len, n, micros * micro, 0);
      DivUnique(micros * micro, micros, micro, 0);
    }
  }

  /** A call that hears the ring returns, row by row, the ring result of the flat buffers. */
  lemma RowReduced<T>(op: (T, T) -> T, bufs: seq<seq<T>>, n: nat, rank: nat, micros: nat, micro: nat, own: seq<T>,
                      scatterIn: seq<seq<seq<T>>>, gatherIn: seq<seq<seq<T>>>, m: nat, i: nat)
    requires 2 <= n && m < micros <= 255 && i < n && InRing(op, bufs, n, rank, micros, micro, own, scatterIn, gatherIn)
    ensures Tiled(|RingBuffer(op, bufs, micros * micro)|, n, micros, micro)
    ensures AfterCall(op, n, rank, Row(own, n, micros, micro, m), scatterIn[m], gatherIn[m])[i] ==
            RowCell(RingBuffer(op, bufs, micros * micro), n, micros, micro, m, i)
  {
    var c := Alone(op, bufs, micros, micro, 1);
    CallValid(bufs, micros, micro, 1);
    assert c.calls[0].Valid(c.n) && Cuts(c, 0, bufs, micro);
    forall s | 0 <= s < n - 1
      ensures scatterIn[m][s] == Rows.Payload(c, Prev(n, rank), m, 0, s) && gatherIn[m][s] == Rows.Payload(c, Prev(n, rank), m, 1, s)
    {
      assert Hears(op, bufs, rank, micros, micro, m, scatterIn[m], gatherIn[m]);
      PayloadOf(c, op, bufs, rank, micros, micro, m, s);
    }
    CallReduces(c, rank, m, 0, scatterIn[m], gatherIn[m], i);
    MicroChunksInvisible(c, op, 0, bufs, micro, m, i);
  }

  lemma PayloadOf<T>(c: N.Config<seq<T>>, op: (T, T) -> T, bufs: seq<seq<T>>, rank: nat, micros: nat, micro: nat, m: nat, s: nat)
    requires Cuts(c, 0, bufs, micro) && c.op == Lift(op) && c.calls[0].micros == micros && m < micros && rank < c.n && s + 1 < c.n
    ensures var i := RecvIdx(c.n, rank, 0, s);
      Rows.Payload(c, Prev(c.n, rank), m, 0, s) == Partial(Lift(op), Cells(bufs, micros, micro, m, i), i, s)
    ensures var i := RecvIdx(c.n, rank, 1, s);
      Rows.Payload(c, Prev(c.n, rank), m, 1, s) == RingTotal(Lift(op), Cells(bufs, micros, micro, m, i), i)
  {
    SenderMatchesReceiver(c.n, rank, 0, s);
    SenderMatchesReceiver(c.n, rank, 1, s);
    forall i | 0 <= i < c.n ensures Rows.Column(c, 0, m, i) == Cells(bufs, micros, micro, m, i) {
      CutColumn(c, 0, bufs, micro, m, i);
    }
  }

  /** The whole buffer. */
  lemma CallReturns<T>(op: (T, T) -> T, bufs: seq<seq<T>>, n: nat, rank: nat, micros: nat, micro: nat, own: seq<T>,
                       scatterIn: seq<seq<seq<T>>>, gatherIn: seq<seq<seq<T>>>, end: seq<T>)
    requires 2 <= n && 1 <= micros <= 255 && InRing(op, bufs, n, rank, micros, micro, own, scatterIn, gatherIn)
    requires Tiled(|end|, n, micros, micro)
    requires forall m :: 0 <= m < micros ==>
      Row(end, n, micros, micro, m) == AfterCall(op, n, rank, Row(own, n, micros, micro, m), scatterIn[m], gatherIn[m])
    ensures end == RingBuffer(op, bufs, micros * micro)
  {
    var flat := RingBuffer(op, bufs, micros * micro);
    assert |flat| == |bufs[rank]|;
    forall m, i | 0 <= m < micros && 0 <= i < n ensures RowCell(end, n, micros, micro, m, i) == RowCell(flat, n, micros, micro, m, i) {
      RowReduced(op, bufs, n, rank, micros, micro, own, scatterIn, gatherIn, m, i);
      assert Row(end, n, micros, micro, m)[i] == RowCell(end, n, micros, micro, m, i);
    }
    RowsDetermine(end, flat, n, micros, micro);
  }
}
