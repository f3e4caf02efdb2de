/** The closed form of every chunk a ring allreduce ever holds or sends, and how one step moves it on. */
module RingRows {
  import opened RingIndex
  import opened RingLocal
  import opened RingFold
  import opened RingNet

  /** The `n` contributions to chunk `i` of micro-chunk `m` in one call, by rank. */
  ghost function Column<V>(c: Config<V>, call: nat, m: nat, i: nat): (xs: seq<V>)
    requires c.Accepted() && call < |c.calls| && m < c.calls[call].micros && i < c.n
    ensures |xs| == c.n && forall q :: 0 <= q < c.n ==> xs[q] == c.calls[call].input[q][m][i]
  {
    seq(c.n, q requires 0 <= q < c.n => c.calls[call].input[q][m][i])
  }

  ghost function Hop<V>(c: Config<V>, call: nat, m: nat, i: nat, j: nat): V
    requires c.Accepted() && call < |c.calls| && m < c.calls[call].micros && i < c.n
  {
    Partial(c.op, Column(c, call, m, i), i, j)
  }

  /** The reduced value of chunk `i`: what every rank must end with. */
  ghost function Total<V>(c: Config<V>, call: nat, m: nat, i: nat): V
    requires c.Accepted() && call < |c.calls| && m < c.calls[call].micros && i < c.n
  {
    RingTotal(c.op, Column(c, call, m, i), i)
  }

  /** What rank `r` sends for chain `m` in step `step` of phase `g`. */
  ghost function Payload<V>(c: Config<V>, r: nat, m: nat, g: nat, step: nat): V
    requires c.Accepted() && r < c.n && g < 2 * |c.calls| && m < c.Micros(g) && step + 1 < c.n
  {
    if g % 2 == 0 then Hop(c, g / 2, m, SendIdx(c.n, r, 0, step), step)
    else Total(c, g / 2, m, SendIdx(c.n, r, 1, step))
  }

  /** Chunk `i` on rank `r` once the chain has received `d` chunks of phase `g`. */
  ghost function Cell<V>(c: Config<V>, r: nat, m: nat, g: nat, d: nat, i: nat): V
    requires c.Accepted() && r < c.n && g < 2 * |c.calls| && m < c.Micros(g) && i < c.n
  {
    var j := Distance(c.n, r, i);
    if g % 2 == 0 then (if j <= d then Hop(c, g / 2, m, i, j) else c.calls[g / 2].input[r][m][i])
    else if j < d || j == c.n - 1 then Total(c, g / 2, m, i)
    else Hop(c, g / 2, m, i, j)
  }

  ghost predicate RowIs<V>(c: Config<V>, r: nat, m: nat, g: nat, d: nat, row: seq<V>)
    requires c.Accepted() && r < c.n && g < 2 * |c.calls| && m < c.Micros(g)
  {
    |row| == c.n && forall i :: 0 <= i < c.n ==> row[i] == Cell(c, r, m, g, d, i)
  }

  lemma DistanceOfBack(n: nat, r: nat, j: nat)
    requires r < n && j < n
    ensures Distance(n, r, Back(n, r, j)) == j
  {
  }

  /** The rank `j` hops after the chunk's origin, when the origin is `j` places back from `r`. */
  lemma HopRank(n: nat, r: nat, j: nat)
    requires r < n && j < n
    ensures (Back(n, r, j) + j) % n == r
  {
    ModOnce(n, Back(n, r, j) + j);
  }

  /** The chunk about to be sent holds the payload, whether or not this step's receive has landed. */
  lemma SendCell<V>(c: Config<V>, r: nat, m: nat, g: nat, step: nat, d: nat, row: seq<V>)
    requires c.Accepted() && r < c.n && g < 2 * |c.calls| && m < c.Micros(g) && step + 1 < c.n
    requires RowIs(c, r, m, g, d, row) && (d == step || (g % 2 == 1 && d == step + 1))
    ensures row[SendIdx(c.n, r, g % 2, step)] == Payload(c, r, m, g, step)
  {
    StepIdx(c.n, r, g % 2, step);
    DistanceOfBack(c.n, r, SendHop(c.n, g % 2, step));
  }

  lemma FirstRow<V>(c: Config<V>, r: nat, m: nat, g: nat)
    requires c.Accepted() && r < c.n && g < 2 * |c.calls| && m < c.Micros(g) && g % 2 == 0
    ensures RowIs(c, r, m, g, 0, c.calls[g / 2].input[r][m])
  {
    var row := c.calls[g / 2].input[r][m];
    assert c.calls[g / 2].Valid(c.n) && c.calls[g / 2].RowsOk(c.n, c.calls[g / 2].input[r]);
    forall i | 0 <= i < c.n ensures row[i] == Cell(c, r, m, g, 0, i) {
      if Distance(c.n, r, i) == 0 {
        assert i == r;
        assert Column(c, g / 2, m, i)[i] == row[i];
      }
    }
  }

  /** Reducing the received payload into the chunk it belongs to extends that chunk by one hop. */
  lemma ReduceRow<V>(c: Config<V>, r: nat, m: nat, g: nat, step: nat, row: seq<V>)
    requires c.Accepted() && r < c.n && g < 2 * |c.calls| && m < c.Micros(g) && step + 1 < c.n && g % 2 == 0
    requires RowIs(c, r, m, g, step, row)
    ensures RowIs(c, r, m, g, step + 1, ReduceStep(c.op, c.n, r, step, row, Payload(c, Prev(c.n, r), m, g, step)))
  {
    var i := RecvIdx(c.n, r, 0, step);
    var call := g / 2;
    StepIdx(c.n, r, 0, step);
    DistanceOfBack(c.n, r, step + 1);
    SenderMatchesReceiver(c.n, r, 0, step);
    HopRank(c.n, r, step + 1);
    assert Column(c, call, m, i)[r] == c.calls[call].input[r][m][i];
    assert Hop(c, call, m, i, step + 1) == c.op(Column(c, call, m, i)[r], Hop(c, call, m, i, step));
    assert row[i] == c.calls[call].input[r][m][i];
    var row' := ReduceStep(c.op, c.n, r, step, row, Payload(c, Prev(c.n, r), m, g, step));
    forall k | 0 <= k < c.n ensures row'[k] == Cell(c, r, m, g, step + 1, k) {
      if k != i {
        assert row[k] == Cell(c, r, m, g, step, k);
        assert Distance(c.n, r, k) != step + 1;
      }
    }
  }

  /** Storing the received payload in place completes one more chunk. */
  lemma StoreRow<V>(c: Config<V>, r: nat, m: nat, g: nat, step: nat, row: seq<V>)
    requires c.Accepted() && r < c.n && g < 2 * |c.calls| && m < c.Micros(g) && step + 1 < c.n && g % 2 == 1
    requires RowIs(c, r, m, g, step, row)
    ensures RowIs(c, r, m, g, step + 1, StoreStep(c.n, r, step, row, Payload(c, Prev(c.n, r), m, g, step)))
  {
    var i := RecvIdx(c.n, r, 1, step);
    StepIdx(c.n, r, 1, step);
    DistanceOfBack(c.n, r, step);
    SenderMatchesReceiver(c.n, r, 1, step);
    var row' := StoreStep(c.n, r, step, row, Payload(c, Prev(c.n, r), m, g, step));
    forall k | 0 <= k < c.n ensures row'[k] == Cell(c, r, m, g, step + 1, k) {
      if k != i {
        assert row[k] == Cell(c, r, m, g, step, k);
        assert Distance(c.n, r, k) != step;
      }
    }
  }

  /** The buffer a reduce-scatter leaves is the one its allgather starts from. */
  lemma ScatterThenGather<V>(c: Config<V>, r: nat, m: nat, g: nat, row: seq<V>)
    requires c.Accepted() && r < c.n && g + 1 < 2 * |c.calls| && m < c.Micros(g) && g % 2 == 0
    requires RowIs(c, r, m, g, c.n - 1, row)
    ensures RowIs(c, r, m, g + 1, 0, row)
  {
    assert (g + 1) / 2 == g / 2;
    forall i | 0 <= i < c.n ensures row[i] == Cell(c, r, m, g + 1, 0, i) {
      assert row[i] == Cell(c, r, m, g, c.n - 1, i);
      assert |Column(c, g / 2, m, i)| == c.n;
    }
  }

  lemma GatheredRow<V>(c: Config<V>, r: nat, m: nat, g: nat, row: seq<V>, i: nat)
    requires c.Accepted() && r < c.n && g < 2 * |c.calls| && m < c.Micros(g) && g % 2 == 1 && i < c.n
    requires RowIs(c, r, m, g, c.n - 1, row)
    ensures row[i] == Total(c, g / 2, m, i)
  {
    assert row[i] == Cell(c, r, m, g, c.n - 1, i);
  }
}
