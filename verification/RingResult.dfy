/** From one rank's loops to the whole ring, and from slots to single elements. */
module RingResult {
  import opened RingIndex
  import opened RingLocal
  import opened RingFold
  import opened RingBuffers
  import opened RingNet
  import opened RingRows
  import opened Ops
  import opened Division

  /** A chain that receives the ring's payloads steps through the ring's closed form and sends its payloads. */
  lemma {:induction false} ChainFollowsRing<V>(c: Config<V>, r: nat, m: nat, g: nat, row: seq<V>, inbox: seq<V>)
    requires c.Accepted() && r < c.n && g < 2 * |c.calls| && m < c.Micros(g) && |inbox| < c.n
    requires RowIs(c, r, m, g, 0, row)
    requires forall s :: 0 <= s < |inbox| ==> inbox[s] == Payload(c, Prev(c.n, r), m, g, s)
    ensures RowIs(c, r, m, g, |inbox|, RunChain(c.op, c.n, r, g % 2, row, inbox))
    ensures |inbox| + 1 < c.n ==> Sent(c.op, c.n, r, g % 2, row, inbox, |inbox|) == Payload(c, r, m, g, |inbox|)
  {
    if inbox != [] {
      var step := |inbox| - 1;
      ChainFollowsRing(c, r, m, g, row, inbox[..step]);
      var before := RunChain(c.op, c.n, r, g % 2, row, inbox[..step]);
      if g % 2 == 0 {
        ReduceRow(c, r, m, g, step, before);
      } else {
        StoreRow(c, r, m, g, step, before);
      }
    }
    if |inbox| + 1 < c.n {
      assert inbox[..|inbox|] == inbox;
      SendCell(c, r, m, g, |inbox|, |inbox|, RunChain(c.op, c.n, r, g % 2, row, inbox));
    }
  }

  /** The local loops determine the traffic: if each rank receives exactly what its predecessor's loop
      sends, then step by step those messages are the ring's payloads, whatever the timing. */
  lemma {:induction false} TrafficIsDetermined<V>(c: Config<V>, m: nat, g: nat, rows: seq<seq<V>>, inboxes: seq<seq<V>>,
                                                  r: nat, s: nat)
    requires c.Accepted() && g < 2 * |c.calls| && m < c.Micros(g) && r < c.n && s + 1 < c.n
    requires |rows| == |inboxes| == c.n
    requires forall q :: 0 <= q < c.n ==> |inboxes[q]| + 1 == c.n && |rows[q]| == c.n && RowIs(c, q, m, g, 0, rows[q])
    requires forall q, k :: 0 <= q < c.n && 0 <= k < c.n - 1 ==>
      inboxes[q][k] == Sent(c.op, c.n, Prev(c.n, q), g % 2, rows[Prev(c.n, q)], inboxes[Prev(c.n, q)], k)
    ensures inboxes[r][s] == Payload(c, Prev(c.n, r), m, g, s)
    decreases s
  {
    var p := Prev(c.n, r);
    forall k | 0 <= k < s ensures inboxes[p][k] == Payload(c, Prev(c.n, p), m, g, k) {
      TrafficIsDetermined(c, m, g, rows, inboxes, p, k);
    }
    var prefix := inboxes[p][..s];
    ChainFollowsRing(c, p, m, g, rows[p], prefix);
    assert inboxes[p][..s] == prefix && prefix[..s] == prefix;
  }

  /** A whole call of one rank's loops, fed with the ring's payloads, leaves every chunk reduced. */
  lemma CallReduces<V>(c: Config<V>, r: nat, m: nat, call: nat, scatterIn: seq<V>, gatherIn: seq<V>, i: nat)
    requires c.Accepted() && r < c.n && call < |c.calls| && m < c.calls[call].micros && i < c.n
    requires |c.calls[call].input| == c.n && m < |c.calls[call].input[r]| && |c.calls[call].input[r][m]| == c.n
    requires |scatterIn| + 1 == c.n && |gatherIn| + 1 == c.n
    requires forall s :: 0 <= s < c.n - 1 ==>
      && scatterIn[s] == Payload(c, Prev(c.n, r), m, 2 * call, s)
      && gatherIn[s] == Payload(c, Prev(c.n, r), m, 2 * call + 1, s)
    ensures RunChain(c.op, c.n, r, 1, RunChain(c.op, c.n, r, 0, c.calls[call].input[r][m], scatterIn), gatherIn)[i] ==
            Total(c, call, m, i)
  {
    var g := 2 * call;
    assert g % 2 == 0 && g / 2 == call && (g + 1) % 2 == 1 && (g + 1) / 2 == call;
    FirstRow(c, r, m, g);
    ChainFollowsRing(c, r, m, g, c.calls[call].input[r][m], scatterIn);
    var reduced := RunChain(c.op, c.n, r, 0, c.calls[call].input[r][m], scatterIn);
    ScatterThenGather(c, r, m, g, reduced);
    ChainFollowsRing(c, r, m, g + 1, reduced, gatherIn);
    GatheredRow(c, r, m, g + 1, RunChain(c.op, c.n, r, 1, reduced, gatherIn), i);
  }

  // ----- elements -----

  /** Folding slots is folding their elements, position by position. */
  lemma {:induction false} PartialPointwise<T>(op: (T, T) -> T, xs: seq<seq<T>>, c: nat, j: nat, len: nat, e: nat)
    requires c < |xs| && e < len && forall q :: 0 <= q < |xs| ==> |xs[q]| == len
    ensures |Partial(Lift(op), xs, c, j)| == len
    ensures Partial(Lift(op), xs, c, j)[e] == Partial(op, seq(|xs|, q requires 0 <= q < |xs| => xs[q][e]), c, j)
  {
    if j > 0 {
      PartialPointwise(op, xs, c, j - 1, len, e);
    }
  }

  /** Every rank's contribution to one buffer position. */
  ghost function At<T>(xs: seq<seq<T>>, e: nat): (ys: seq<T>)
    requires forall q :: 0 <= q < |xs| ==> e < |xs[q]|
    ensures |ys| == |xs|
  {
    seq(|xs|, q requires 0 <= q < |xs| => xs[q][e])
  }

  /** The chunk a buffer position lies in. */
  ghost function ChunkOf(n: nat, chunk: nat, e: nat): (c: nat)
    requires e < n * chunk
    ensures c < n
  {
    SlotsPartition(n, chunk, e);
    e / chunk
  }

  /** The ring result of `n` flat buffers of `n` chunks each. No micro-chunks here. */
  ghost function RingBuffer<T>(op: (T, T) -> T, bufs: seq<seq<T>>, chunk: nat): (out: seq<T>)
    requires forall q :: 0 <= q < |bufs| ==> |bufs[q]| == |bufs| * chunk
    ensures |out| == |bufs| * chunk
  {
    seq(|bufs| * chunk, e requires 0 <= e < |bufs| * chunk => RingTotal(op, At(bufs, e), ChunkOf(|bufs|, chunk, e)))
  }

  /** Position `k` of slot `(c, m)`; it lies in chunk `c` of the undivided buffer. */
  ghost function Position(n: nat, micros: nat, micro: nat, c: nat, m: nat, k: nat): (e: nat)
    requires c < n && m < micros && k < micro
    ensures n * (micros * micro) == n * micros * micro
    ensures e < n * (micros * micro) && ChunkOf(n, micros * micro, e) == c
  {
    var chunk := micros * micro;
    Scaled(1, micros, micro);
    SlotFits(m, micros, micro);
    assert (c * micros + m) * micro == c * chunk + m * micro;
    SlotNumber(chunk, c, m * micro + k);
    SlotFits(c, n, chunk);
    (c * micros + m) * micro + k
  }

  lemma CellElement<T>(buf: seq<T>, n: nat, micros: nat, micro: nat, m: nat, c: nat, k: nat)
    requires Tiled(|buf|, n, micros, micro) && m < micros && c < n && k < micro
    ensures |RowCell(buf, n, micros, micro, m, c)| == micro
    ensures Position(n, micros, micro, c, m, k) < |buf|
    ensures RowCell(buf, n, micros, micro, m, c)[k] == buf[Position(n, micros, micro, c, m, k)]
  {
    SlotInRange(n, micros, c, m);
    SlotFits(c * micros + m, n * micros, micro);
  }

  /** The call `call` of `c` is an allreduce of the flat buffers `bufs`, cut as the call says. */
  ghost predicate Cuts<T>(c: Config<seq<T>>, call: nat, bufs: seq<seq<T>>, micro: nat) {
    && c.Accepted() && call < |c.calls| && |bufs| == c.n
    && (forall q :: 0 <= q < c.n ==> Tiled(|bufs[q]|, c.n, c.calls[call].micros, micro))
    && (forall q, m :: 0 <= q < c.n && 0 <= m < c.calls[call].micros ==> c.calls[call].input[q][m] == Row(bufs[q], c.n, c.calls[call].micros, micro, m))
  }

  lemma CutColumn<T>(c: Config<seq<T>>, call: nat, bufs: seq<seq<T>>, micro: nat, m: nat, i: nat)
    requires Cuts(c, call, bufs, micro) && m < c.calls[call].micros && i < c.n
    ensures forall q :: 0 <= q < c.n ==> Column(c, call, m, i)[q] == RowCell(bufs[q], c.n, c.calls[call].micros, micro, m, i)
    ensures forall q :: 0 <= q < c.n ==> |Column(c, call, m, i)[q]| == micro
  {
    forall q | 0 <= q < c.n
      ensures Column(c, call, m, i)[q] == RowCell(bufs[q], c.n, c.calls[call].micros, micro, m, i)
      ensures |Column(c, call, m, i)[q]| == micro
    {
      assert c.calls[call].input[q][m] == Row(bufs[q], c.n, c.calls[call].micros, micro, m);
    }
  }

  lemma TotalElement<T>(op: (T, T) -> T, bufs: seq<seq<T>>, xs: seq<seq<T>>, n: nat, micros: nat, micro: nat,
                        m: nat, i: nat, k: nat)
    requires |bufs| == |xs| == n && m < micros && i < n && k < micro
    requires forall q :: 0 <= q < n ==> Tiled(|bufs[q]|, n, micros, micro)
    requires forall q :: 0 <= q < n ==> xs[q] == RowCell(bufs[q], n, micros, micro, m, i) && |xs[q]| == micro
    ensures forall q :: 0 <= q < n ==> Position(n, micros, micro, i, m, k) < |bufs[q]|
    ensures |RingTotal(Lift(op), xs, i)| == micro
    ensures RingTotal(Lift(op), xs, i)[k] == RingTotal(op, At(bufs, Position(n, micros, micro, i, m, k)), i)
  {
    var e := Position(n, micros, micro, i, m, k);
    var ys := seq(|xs|, q requires 0 <= q < |xs| => xs[q][k]);
    forall q | 0 <= q < n ensures e < |bufs[q]| && ys[q] == bufs[q][e] {
      CellElement(bufs[q], n, micros, micro, m, i, k);
    }
    assert ys == At(bufs, e);
    PartialPointwise(op, xs, i, n - 1, micro, k);
  }

  lemma BufferElement<T>(op: (T, T) -> T, bufs: seq<seq<T>>, chunk: nat, e: nat)
    requires (forall q :: 0 <= q < |bufs| ==> |bufs[q]| == |bufs| * chunk) && e < |bufs| * chunk
    ensures RingBuffer(op, bufs, chunk)[e] == RingTotal(op, At(bufs, e), ChunkOf(|bufs|, chunk, e))
  {
  }

  lemma TotalCell<T>(op: (T, T) -> T, bufs: seq<seq<T>>, xs: seq<seq<T>>, n: nat, micros: nat, micro: nat, m: nat, i: nat)
    requires |bufs| == |xs| == n && m < micros && i < n
    requires forall q :: 0 <= q < n ==> |bufs[q]| == n * (micros * micro) && Tiled(|bufs[q]|, n, micros, micro)
    requires forall q :: 0 <= q < n ==> xs[q] == RowCell(bufs[q], n, micros, micro, m, i) && |xs[q]| == micro
    requires Tiled(n * (micros * micro), n, micros, micro)
    ensures RingTotal(Lift(op), xs, i) == RowCell(RingBuffer(op, bufs, micros * micro), n, micros, micro, m, i)
  {
    var out := RingBuffer(op, bufs, micros * micro);
    var cell := RowCell(out, n, micros, micro, m, i);
    TotalLength(op, xs, i, n - 1, micro);
    CellLength(out, n, micros, micro, m, i);
    forall k | 0 <= k < micro ensures RingTotal(Lift(op), xs, i)[k] == cell[k] {
      TotalElement(op, bufs, xs, n, micros, micro, m, i, k);
      CellElement(out, n, micros, micro, m, i, k);
      BufferElement(op, bufs, micros * micro, Position(n, micros, micro, i, m, k));
    }
  }

  /** The chunk totals of a call, read as one flat buffer, are the ring result of the flat inputs. The
      right-hand side does not mention micro-chunks: every division of the buffer, the plain ring's
      single one included, returns the same elements, with nothing assumed of the operator. */
  lemma MicroChunksInvisible<T>(c: Config<seq<T>>, op: (T, T) -> T, call: nat, bufs: seq<seq<T>>, micro: nat, m: nat, i: nat)
    requires Cuts(c, call, bufs, micro) && c.op == Lift(op) && m < c.calls[call].micros && i < c.n
    ensures forall q :: 0 <= q < c.n ==> |bufs[q]| == c.n * (c.calls[call].micros * micro)
    ensures Tiled(|RingBuffer(op, bufs, c.calls[call].micros * micro)|, c.n, c.calls[call].micros, micro)
    ensures Total(c, call, m, i) == RowCell(RingBuffer(op, bufs, c.calls[call].micros * micro), c.n, c.calls[call].micros, micro, m, i)
  {
    assert c.n * (c.calls[call].micros * micro) == c.n * c.calls[call].micros * micro;
    CutColumn(c, call, bufs, micro, m, i);
    TotalCell(op, bufs, Column(c, call, m, i), c.n, c.calls[call].micros, micro, m, i);
  }

  lemma CellLength<T>(buf: seq<T>, n: nat, micros: nat, micro: nat, m: nat, c: nat)
    requires Tiled(|buf|, n, micros, micro) && m < micros && c < n
    ensures |RowCell(buf, n, micros, micro, m, c)| == micro
  {
  }

  lemma TotalLength<T>(op: (T, T) -> T, xs: seq<seq<T>>, c: nat, j: nat, len: nat)
    requires c < |xs| && forall q :: 0 <= q < |xs| ==> |xs[q]| == len
    ensures |Partial(Lift(op), xs, c, j)| == len
  {
  }

  /** A buffer is determined by its rows. */
  lemma RowsDetermine<T>(a: seq<T>, b: seq<T>, n: nat, micros: nat, micro: nat)
    requires micros > 0 && Tiled(|a|, n, micros, micro) && |b| == |a|
    requires forall m, k :: 0 <= m < micros && 0 <= k < n ==> RowCell(a, n, micros, micro, m, k) == RowCell(b, n, micros, micro, m, k)
    ensures a == b
  {
    forall e | 0 <= e < |a| ensures a[e] == b[e] {
      SameElement(a, b, n, micros, micro, e);
    }
  }

  lemma SameElement<T>(a: seq<T>, b: seq<T>, n: nat, micros: nat, micro: nat, e: nat)
    requires micros > 0 && Tiled(|a|, n, micros, micro) && |b| == |a| && e < |a|
    requires forall m, k :: 0 <= m < micros && 0 <= k < n ==> RowCell(a, n, micros, micro, m, k) == RowCell(b, n, micros, micro, m, k)
    ensures a[e] == b[e]
  {
    var k, m, pos := Locate(n, micros, micro, e);
    CellElement(a, n, micros, micro, m, k, pos);
    CellElement(b, n, micros, micro, m, k, pos);
    assert RowCell(a, n, micros, micro, m, k) == RowCell(b, n, micros, micro, m, k);
  }

  /** The chunk, micro-chunk and offset of a position. */
  lemma Locate(n: nat, micros: nat, micro: nat, e: nat) returns (k: nat, m: nat, pos: nat)
    requires micros > 0 && e < n * micros * micro
    ensures k < n && m < micros && pos < micro && Position(n, micros, micro, k, m, pos) == e
  {
    QuotientBelow(e, micro, n * micros);
    var slot := e / micro;
    QuotientBelow(slot, micros, n);
    DivParts(e, micro);
    DivParts(slot, micros);
    pos := e % micro;
    k := slot / micros;
    m := slot % micros;
    assert k * micros + m == slot;
  }
}
