/** Every event of the pipelined ring preserves the invariant. */
module RingSteps {
  import opened RingIndex
  import opened Wire
  import opened RouterSlots
  import opened RingNet
  import opened RingRows
  import opened RingInvariant

  // ----- the rank that moves -----

  lemma OpenMonotone<V>(c: Config<V>, a: seq<Chain<V>>, b: seq<Chain<V>>, k: nat)
    requires k <= |a| && k <= |b|
    requires forall i :: 0 <= i < k ==> a[i].done <= b[i].done
    ensures Open(c, b, k) <= Open(c, a, k)
  {
    if k > 0 {
      OpenMonotone(c, a, b, k - 1);
    }
  }

  lemma LaunchRank<V>(c: Config<V>, r: nat, rk: Rank<V>)
    requires c.Valid() && r < c.n && RankOk(c, r, rk) && !Awaiting(c, r, rk)
    ensures RankOk(c, r, rk.(launched := rk.launched + 1))
  {
    var rk' := rk.(launched := rk.launched + 1);
    assert ChainFlags(rk, rk.launched);
    forall m | 0 <= m < |rk.chains| ensures ChainFlags(rk', m) && MemoryOk(c, r, rk', m) {
      assert ChainFlags(rk, m) && MemoryOk(c, r, rk, m);
    }
  }

  /** Replacing one chain keeps everything that is said about the others. */
  lemma ReplaceChain<V>(c: Config<V>, r: nat, rk: Rank<V>, m: nat, ch: Chain<V>, slots: Slots<V>)
    requires c.Valid() && r < c.n && RankOk(c, r, rk) && m < |rk.chains|
    requires rk.chains[m].done <= ch.done < c.n && |ch.row| == c.n && (ch.busy ==> ch.done + 1 < c.n)
    requires m < rk.launched && (!ch.busy ==> !ch.sendDone && !ch.recvDone)
    requires MemoryOk(c, r, rk.(chains := rk.chains[m := ch]), m)
    ensures RankOk(c, r, rk.(slots := slots, chains := rk.chains[m := ch]))
  {
    var rk' := rk.(slots := slots, chains := rk.chains[m := ch]);
    OpenMonotone(c, rk.chains, rk'.chains, rk.launched);
    forall k | 0 <= k < |rk.chains| ensures ChainFlags(rk', k) && MemoryOk(c, r, rk', k) {
      assert ChainFlags(rk, k) && MemoryOk(c, r, rk, k);
    }
  }

  lemma SendDoneRank<V>(c: Config<V>, r: nat, rk: Rank<V>, m: nat)
    requires c.Valid() && r < c.n && RankOk(c, r, rk) && m < |rk.chains| && rk.chains[m].busy
    ensures RankOk(c, r, rk.(chains := rk.chains[m := rk.chains[m].(sendDone := true)]))
  {
    assert ChainFlags(rk, m) && MemoryOk(c, r, rk, m);
    ReplaceChain(c, r, rk, m, rk.chains[m].(sendDone := true), rk.slots);
  }

  lemma AdvanceRank<V>(c: Config<V>, r: nat, rk: Rank<V>, m: nat)
    requires c.Valid() && r < c.n && RankOk(c, r, rk) && m < |rk.chains|
    requires rk.chains[m].busy && rk.chains[m].recvDone
    ensures RankOk(c, r, rk.(chains := rk.chains[m := FinishStep(c, r, rk.g % 2, rk.chains[m])]))
  {
    var ch := rk.chains[m];
    assert ChainFlags(rk, m) && MemoryOk(c, r, rk, m);
    if rk.g % 2 == 0 {
      ReduceRow(c, r, m, rk.g, ch.done, ch.row);
    }
    ReplaceChain(c, r, rk, m, FinishStep(c, r, rk.g % 2, ch), rk.slots);
  }

  /** Receiving the bytes the chain is waiting for. */
  lemma ReceiveRank<V>(c: Config<V>, r: nat, rk: Rank<V>, m: nat, bytes: V, slots: Slots<V>)
    requires c.Valid() && r < c.n && RankOk(c, r, rk) && m < |rk.chains|
    requires rk.chains[m].busy && !rk.chains[m].recvDone && rk.chains[m].done + 1 < c.n
    requires bytes == Payload(c, Prev(c.n, r), m, rk.g, rk.chains[m].done)
    ensures RankOk(c, r, rk.(slots := slots, chains := rk.chains[m := Receive(c, r, rk.g % 2, rk.chains[m], bytes)]))
  {
    var ch := rk.chains[m];
    assert ChainFlags(rk, m) && MemoryOk(c, r, rk, m);
    if rk.g % 2 == 1 {
      StoreRow(c, r, m, rk.g, ch.done, ch.row);
    }
    ReplaceChain(c, r, rk, m, Receive(c, r, rk.g % 2, ch, bytes), slots);
  }

  /** Posting the send of the next step, before its receive is polled. */
  lemma SendRank<V>(c: Config<V>, r: nat, rk: Rank<V>, m: nat)
    requires c.Valid() && r < c.n && m < rk.launched && RankOk(c, r, rk)
    requires !rk.chains[m].busy && rk.chains[m].done + 1 < c.n
    ensures var ch := rk.chains[m]; var payload := ch.row[SendIdx(c.n, r, rk.g % 2, ch.done)];
      && payload == Payload(c, r, m, rk.g, ch.done)
      && RankOk(c, r, rk.(chains := rk.chains[m := ch.(busy := true, sent := payload)]))
  {
    var ch := rk.chains[m];
    assert ChainFlags(rk, m) && MemoryOk(c, r, rk, m);
    SendCell(c, r, m, rk.g, ch.done, ch.done, ch.row);
    ReplaceChain(c, r, rk, m, ch.(busy := true, sent := ch.row[SendIdx(c.n, r, rk.g % 2, ch.done)]), rk.slots);
  }

  /** The rows a finished allgather returns. */
  lemma EndCall<V>(c: Config<V>, r: nat, rk: Rank<V>)
    requires c.Valid() && r < c.n && RankOk(c, r, rk) && rk.g < 2 * |c.calls| && rk.g % 2 == 1
    requires forall m :: 0 <= m < |rk.chains| ==> rk.chains[m].done + 1 == c.n
    ensures Reduced(c, rk.g / 2, Rows(rk.chains))
  {
    var rows := Rows(rk.chains);
    forall m, i | 0 <= m < |rows| && 0 <= i < c.n
      ensures rows[m][i] == Total(c, rk.g / 2, m, i)
    {
      assert MemoryOk(c, r, rk, m) && ChainFlags(rk, m);
      GatheredRow(c, r, m, rk.g, rk.chains[m].row, i);
    }
  }

  /** An idle chain that holds what chain `m` of phase `g` starts with. */
  ghost predicate Starts<V>(c: Config<V>, r: nat, g: nat, m: nat, ch: Chain<V>)
    requires c.Valid() && r < c.n && g < 2 * |c.calls| && m < c.Micros(g)
  {
    ch.done == 0 && !ch.busy && !ch.sendDone && !ch.recvDone && RowIs(c, r, m, g, 0, ch.row)
  }

  lemma CallStarts<V>(c: Config<V>, r: nat, g: nat)
    requires c.Valid() && r < c.n && g <= 2 * |c.calls| && g % 2 == 0
    ensures |CallChains(c, r, g)| == c.Micros(g)
    ensures forall m :: 0 <= m < c.Micros(g) ==> Starts(c, r, g, m, CallChains(c, r, g)[m])
  {
    if g < 2 * |c.calls| {
      var call := c.calls[g / 2];
      assert call.Valid(c.n) && call.RowsOk(c.n, call.input[r]);
      forall m | 0 <= m < c.Micros(g) ensures Starts(c, r, g, m, CallChains(c, r, g)[m]) {
        FirstRow(c, r, m, g);
      }
    }
  }

  lemma GatherStarts<V>(c: Config<V>, r: nat, rk: Rank<V>, m: nat)
    requires c.Valid() && r < c.n && RankOk(c, r, rk) && rk.g < 2 * |c.calls| && rk.g % 2 == 0
    requires m < |rk.chains| && rk.chains[m].done + 1 == c.n
    ensures rk.g + 1 < 2 * |c.calls| && c.Micros(rk.g + 1) == c.Micros(rk.g)
    ensures Starts(c, r, rk.g + 1, m, FreshChain(rk.chains[m].row, rk.chains[m].tmp))
  {
    assert MemoryOk(c, r, rk, m) && ChainFlags(rk, m);
    Halves(rk.g);
    ScatterThenGather(c, r, m, rk.g, rk.chains[m].row);
  }

  lemma Halves(g: nat)
    ensures g % 2 == 1 ==> (g + 1) % 2 == 0 && (g + 1) / 2 == g / 2 + 1
    ensures g % 2 == 0 ==> (g + 1) % 2 == 1 && (g + 1) / 2 == g / 2
  {
  }

  lemma MoreResults<V>(c: Config<V>, results: seq<seq<seq<V>>>, rows: seq<seq<V>>)
    requires c.Valid() && ResultsOk(c, results) && |results| < |c.calls| && Reduced(c, |results|, rows)
    ensures ResultsOk(c, results + [rows])
  {
  }

  /** A rank at the start of a phase. */
  lemma FreshRank<V>(c: Config<V>, r: nat, rk: Rank<V>)
    requires c.Valid() && r < c.n && rk.g <= 2 * |c.calls| && rk.launched == 0 && |rk.chains| == c.Micros(rk.g)
    requires forall m :: 0 <= m < |rk.chains| ==> Starts(c, r, rk.g, m, rk.chains[m])
    requires |rk.results| == rk.g / 2 && ResultsOk(c, rk.results)
    ensures RankOk(c, r, rk)
  {
    forall m | 0 <= m < |rk.chains| ensures |rk.chains[m].row| == c.n && ChainFlags(rk, m) {
      assert Starts(c, r, rk.g, m, rk.chains[m]);
    }
    forall m | 0 <= m < |rk.chains| ensures MemoryOk(c, r, rk, m) {
      assert Starts(c, r, rk.g, m, rk.chains[m]);
    }
    if rk.g < 2 * |c.calls| {
      assert c.calls[rk.g / 2].Valid(c.n);
    }
  }

  lemma EndPhaseRank<V>(c: Config<V>, r: nat, rk: Rank<V>)
    requires c.Valid() && r < c.n && RankOk(c, r, rk) && rk.g < 2 * |c.calls|
    requires forall m :: 0 <= m < |rk.chains| ==> rk.chains[m].done + 1 == c.n
    ensures RankOk(c, r, NextPhase(c, r, rk))
  {
    var rk' := NextPhase(c, r, rk);
    Halves(rk.g);
    if rk.g % 2 == 1 {
      EndCall(c, r, rk);
      MoreResults(c, rk.results, Rows(rk.chains));
      CallStarts(c, r, rk.g + 1);
    } else {
      assert c.Micros(rk.g + 1) == c.Micros(rk.g);
      forall m | 0 <= m < |rk.chains| ensures Starts(c, r, rk.g + 1, m, rk'.chains[m]) {
        GatherStarts(c, r, rk, m);
      }
    }
    FreshRank(c, r, rk');
  }
}
