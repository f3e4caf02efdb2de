/** One rank's flat buffer while its chains interleave: the rows of the ring machine are views of a single
    buffer that every chain writes in place. */
module RingMemory {
  import opened RingIndex
  import opened RingLocal
  import opened RingFold
  import opened RingBuffers
  import opened RingNet
  import opened RingRows
  import opened RingInvariant
  import opened RingPreserved
  import opened RingResult
  import opened Ops
  import opened Wire
  import S = RouterSlots

  /** What one event does to the buffer of a rank: reduce bytes into a slot, store them there, or nothing. */
  datatype Write<T> = Reduce(m: nat, k: nat, bytes: seq<T>) | Store(m: nat, k: nat, bytes: seq<T>) | NoWrite

  /** The only writes are the reduce after a scatter step and the landing of a gather step, by delivery or
      by the first poll that finds the message buffered. */
  ghost function WriteOf<T>(c: Config<seq<T>>, s: State<seq<T>>, e: Event<seq<T>>, r: nat): Write<T>
    requires c.Valid() && StateShaped(c, s) && Enabled(c, s, e) && r < c.n
  {
    var rk := s.ranks[r];
    match e
    case Advance(q, m) =>
      if q == r && rk.g % 2 == 0 then Reduce(m, RecvIdx(c.n, r, 0, rk.chains[m].done), rk.chains[m].tmp) else NoWrite
    case Post(q, m) =>
      if q == r && rk.g % 2 == 1 then
        match S.TakeEarly(rk.slots, ChainKey(Prev(c.n, r), rk.chains[m].done, rk.g % 2, m)).1
        case Some(bytes) => Store(m, RecvIdx(c.n, r, 1, rk.chains[m].done), bytes)
        case None => NoWrite
      else NoWrite
    case Arrive(msg) =>
      if Next(c.n, msg.src) == r && rk.g % 2 == 1 then
        match S.Deliver(rk.slots, MsgKey(msg), msg.payload).1
        case Filled(owner, _) =>
          if owner < |rk.chains| && rk.chains[owner].done + 1 < c.n
          then Store(owner, RecvIdx(c.n, r, 1, rk.chains[owner].done), msg.payload) else NoWrite
        case _ => NoWrite
      else NoWrite
    case _ => NoWrite
  }

  function Replaced<T>(buf: seq<T>, lo: nat, bytes: seq<T>): seq<T> {
    if lo + |bytes| <= |buf| then buf[..lo] + bytes + buf[lo + |bytes|..] else buf
  }

  function Offset(micros: nat, micro: nat, m: nat, k: nat): nat { (k * micros + m) * micro }

  /** The write, carried out on the flat buffer. */
  function Performed<T>(op: (T, T) -> T, w: Write<T>, micros: nat, micro: nat, buf: seq<T>): seq<T>
  {
    match w
    case NoWrite => buf
    case Store(m, k, bytes) => Replaced(buf, Offset(micros, micro, m, k), bytes)
    case Reduce(m, k, bytes) =>
      var lo := Offset(micros, micro, m, k);
      if lo + micro <= |buf| then Replaced(buf, lo, Combined(op, buf[lo..lo + micro], bytes)) else buf
  }

  /** `flats[call][rank]` are the buffers of all calls, with slots of `micro[call]` elements. */
  ghost predicate Sized<T>(c: Config<seq<T>>, flats: seq<seq<seq<T>>>, micro: seq<nat>) {
    |flats| == |micro| == |c.calls| && forall k :: 0 <= k < |c.calls| ==> Cuts(c, k, flats[k], micro[k])
  }

  ghost function MicroAt(micro: seq<nat>, g: nat): nat { if g / 2 < |micro| then micro[g / 2] else 0 }

  /** The buffer of rank `r` after an event: the event's write, or the next call's buffer. */
  ghost function FlatStep<T>(c: Config<seq<T>>, op: (T, T) -> T, flats: seq<seq<seq<T>>>, micro: seq<nat>,
                             s: State<seq<T>>, e: Event<seq<T>>, r: nat, buf: seq<T>): seq<T>
    requires c.Valid() && StateShaped(c, s) && Enabled(c, s, e) && r < c.n
  {
    var g := s.ranks[r].g;
    if e == EndPhase(r) && g % 2 == 1 && (g + 1) / 2 < |flats| && r < |flats[(g + 1) / 2]| then flats[(g + 1) / 2][r]
    else Performed(op, WriteOf(c, s, e, r), |s.ranks[r].chains|, MicroAt(micro, g), buf)
  }

  /** The buffer of rank `r` along a run, by nothing but writes in place in the order of the events. */
  ghost predicate FlatRun<T>(c: Config<seq<T>>, op: (T, T) -> T, flats: seq<seq<seq<T>>>, micro: seq<nat>,
                             states: seq<State<seq<T>>>, events: seq<Event<seq<T>>>, r: nat, mems: seq<seq<T>>)
    requires c.Valid() && IsRun(c, states, events) && r < c.n
  {
    && Sized(c, flats, micro) && |mems| == |states| && c.op == Lift(op)
    && (|flats| > 0 ==> r < |flats[0]| && mems[0] == flats[0][r])
    && forall i :: 0 <= i < |events| ==> mems[i + 1] == FlatStep(c, op, flats, micro, states[i], events[i], r, mems[i])
  }

  /** The rank's rows are the rows of the buffer. */
  ghost predicate Shows<T>(c: Config<seq<T>>, rk: Rank<seq<T>>, micro: nat, buf: seq<T>) {
    && Tiled(|buf|, c.n, |rk.chains|, micro)
    && forall m :: 0 <= m < |rk.chains| ==> rk.chains[m].row == Row(buf, c.n, |rk.chains|, micro, m)
  }

  // ----- lengths -----

  lemma PayloadLength<T>(c: Config<seq<T>>, op: (T, T) -> T, flats: seq<seq<seq<T>>>, micro: seq<nat>, r: nat, m: nat, g: nat, step: nat)
    requires c.Valid() && c.op == Lift(op) && Sized(c, flats, micro)
    requires r < c.n && g < 2 * |c.calls| && m < c.Micros(g) && step + 1 < c.n
    ensures |Payload(c, r, m, g, step)| == MicroAt(micro, g)
  {
    var call := g / 2;
    var i := SendIdx(c.n, r, g % 2, step);
    assert Cuts(c, call, flats[call], micro[call]);
    CutColumn(c, call, flats[call], micro[call], m, i);
    TotalLength(op, Column(c, call, m, i), i, step, micro[call]);
    TotalLength(op, Column(c, call, m, i), i, c.n - 1, micro[call]);
  }

  // ----- what an event does to the rows -----

  /** Rows after a write. */
  ghost predicate RowsAfter<T>(op: (T, T) -> T, a: seq<Chain<seq<T>>>, b: seq<Chain<seq<T>>>, w: Write<T>) {
    && |b| == |a|
    && (forall i :: 0 <= i < |a| && !(!w.NoWrite? && i == w.m) ==> b[i].row == a[i].row)
    && (!w.NoWrite? && w.m < |a| ==>
          w.k < |a[w.m].row| &&
          b[w.m].row == a[w.m].row[w.k := NewCell(op, w, a[w.m].row[w.k])])
  }

  lemma AdvanceRows<T>(c: Config<seq<T>>, op: (T, T) -> T, s: State<seq<T>>, q: nat, m: nat, r: nat)
    requires c.Valid() && StateShaped(c, s) && Enabled(c, s, Advance(q, m)) && r < c.n && c.op == Lift(op)
    requires StateShaped(c, Apply(c, s, Advance(q, m)))
    ensures Apply(c, s, Advance(q, m)).ranks[r].g == s.ranks[r].g
    ensures RowsAfter(op, s.ranks[r].chains, Apply(c, s, Advance(q, m)).ranks[r].chains, WriteOf(c, s, Advance(q, m), r))
  {
  }

  lemma PostRows<T>(c: Config<seq<T>>, op: (T, T) -> T, s: State<seq<T>>, q: nat, m: nat, r: nat)
    requires c.Valid() && StateShaped(c, s) && Enabled(c, s, Post(q, m)) && r < c.n && c.op == Lift(op)
    requires StateShaped(c, Apply(c, s, Post(q, m)))
    ensures Apply(c, s, Post(q, m)).ranks[r].g == s.ranks[r].g
    ensures RowsAfter(op, s.ranks[r].chains, Apply(c, s, Post(q, m)).ranks[r].chains, WriteOf(c, s, Post(q, m), r))
  {
  }

  lemma ArriveRows<T>(c: Config<seq<T>>, op: (T, T) -> T, s: State<seq<T>>, msg: Msg<seq<T>>, r: nat)
    requires c.Valid() && StateShaped(c, s) && Enabled(c, s, Arrive(msg)) && r < c.n && c.op == Lift(op)
    requires StateShaped(c, Apply(c, s, Arrive(msg)))
    ensures Apply(c, s, Arrive(msg)).ranks[r].g == s.ranks[r].g
    ensures RowsAfter(op, s.ranks[r].chains, Apply(c, s, Arrive(msg)).ranks[r].chains, WriteOf(c, s, Arrive(msg), r))
  {
  }

  lemma RowEffect<T>(c: Config<seq<T>>, op: (T, T) -> T, s: State<seq<T>>, e: Event<seq<T>>, r: nat)
    requires c.Valid() && StateShaped(c, s) && Enabled(c, s, e) && r < c.n && c.op == Lift(op) && e != EndPhase(r)
    requires StateShaped(c, Apply(c, s, e))
    ensures Apply(c, s, e).ranks[r].g == s.ranks[r].g
    ensures RowsAfter(op, s.ranks[r].chains, Apply(c, s, e).ranks[r].chains, WriteOf(c, s, e, r))
  {
    match e
    case Advance(q, m) => AdvanceRows(c, op, s, q, m, r);
    case Post(q, m) => PostRows(c, op, s, q, m, r);
    case Arrive(msg) => ArriveRows(c, op, s, msg, r);
    case _ =>
  }

  /** A cell of a row is a slot of the buffer. */
  lemma CellIsSlot<T>(buf: seq<T>, n: nat, micros: nat, micro: nat, m: nat, k: nat)
    requires Tiled(|buf|, n, micros, micro) && m < micros && k < n
    ensures var lo := Offset(micros, micro, m, k);
      lo + micro <= |buf| && Row(buf, n, micros, micro, m)[k] == buf[lo..lo + micro]
  {
    SlotInRange(n, micros, k, m);
    SlotFits(k * micros + m, n * micros, micro);
  }

  ghost function NewCell<T>(op: (T, T) -> T, w: Write<T>, was: seq<T>): (cell: seq<T>)
    requires !w.NoWrite?
    ensures |w.bytes| == |was| ==> |cell| == |was|
  {
    if w.Store? then w.bytes else Combined(op, was, w.bytes)
  }

  /** A write in place changes one cell of one row. */
  lemma WriteRows<T>(op: (T, T) -> T, w: Write<T>, n: nat, micros: nat, micro: nat, buf: seq<T>)
    requires Tiled(|buf|, n, micros, micro) && !w.NoWrite? && w.m < micros && w.k < n && |w.bytes| == micro
    ensures var now := Performed(op, w, micros, micro, buf);
      && |now| == |buf|
      && Row(now, n, micros, micro, w.m) ==
         Row(buf, n, micros, micro, w.m)[w.k := NewCell(op, w, Row(buf, n, micros, micro, w.m)[w.k])]
      && forall m :: 0 <= m < micros && m != w.m ==> Row(now, n, micros, micro, m) == Row(buf, n, micros, micro, m)
  {
    var lo := Offset(micros, micro, w.m, w.k);
    CellIsSlot(buf, n, micros, micro, w.m, w.k);
    var bytes := NewCell(op, w, buf[lo..lo + micro]);
    ReplacedSlot(buf, lo, bytes);
    RewriteSlot(buf, Replaced(buf, lo, bytes), n, micros, micro, w.m, w.k, bytes);
  }

  /** A write on the flat buffer is the same write on one cell of one row. */
  lemma ShowsWrite<T>(c: Config<seq<T>>, op: (T, T) -> T, rk: Rank<seq<T>>, rk': Rank<seq<T>>, micro: nat, buf: seq<T>, w: Write<T>)
    requires Shows(c, rk, micro, buf) && RowsAfter(op, rk.chains, rk'.chains, w)
    requires !w.NoWrite? ==> w.m < |rk.chains| && w.k < c.n && |w.bytes| == micro
    ensures Shows(c, rk', micro, Performed(op, w, |rk.chains|, micro, buf))
  {
    if !w.NoWrite? {
      WriteRows(op, w, c.n, |rk.chains|, micro, buf);
    }
  }

  lemma ReplacedSlot<T>(buf: seq<T>, lo: nat, bytes: seq<T>)
    requires lo + |bytes| <= |buf|
    ensures var now := Replaced(buf, lo, bytes);
      && |now| == |buf| && now[lo..lo + |bytes|] == bytes
      && now[..lo] == buf[..lo] && now[lo + |bytes|..] == buf[lo + |bytes|..]
  {
  }

  /** The bytes of a write have the length of a slot, and it goes to a chain of this phase. */
  lemma WriteFits<T>(c: Config<seq<T>>, op: (T, T) -> T, flats: seq<seq<seq<T>>>, micro: seq<nat>,
                     s: State<seq<T>>, e: Event<seq<T>>, r: nat)
    requires c.Valid() && Inv(c, s) && Enabled(c, s, e) && r < c.n && c.op == Lift(op) && Sized(c, flats, micro)
    requires s.ranks[r].g < 2 * |c.calls|
    ensures var w := WriteOf(c, s, e, r);
      !w.NoWrite? ==> w.m < |s.ranks[r].chains| && w.k < c.n && |w.bytes| == MicroAt(micro, s.ranks[r].g)
  {
    var rk := s.ranks[r];
    assert RankOk(c, r, rk);
    match e
    case Advance(q, m) =>
      if q == r {
        assert MemoryOk(c, r, rk, m);
        PayloadLength(c, op, flats, micro, Prev(c.n, r), m, rk.g, rk.chains[m].done);
      }
    case Post(q, m) =>
      if q == r {
        EarlyBytes(c, s, r, m);
        PayloadLength(c, op, flats, micro, Prev(c.n, r), m, rk.g, rk.chains[m].done);
      }
    case Arrive(msg) =>
      if Next(c.n, msg.src) == r {
        ArrivalOutcome(c, s, msg);
        if S.Deliver(rk.slots, MsgKey(msg), msg.payload).1.Filled? {
          PayloadLength(c, op, flats, micro, Prev(c.n, r), msg.m, rk.g, rk.chains[msg.m].done);
        }
      }
    case _ =>
  }

  /** What a first poll finds buffered is the payload its chain waits for. */
  lemma EarlyBytes<V>(c: Config<V>, s: State<V>, r: nat, m: nat)
    requires c.Valid() && Inv(c, s) && Enabled(c, s, Post(r, m))
    ensures var rk := s.ranks[r]; var key := ChainKey(Prev(c.n, r), rk.chains[m].done, rk.g % 2, m);
      key in rk.slots && rk.slots[key].Early? ==> rk.slots[key].bytes == Payload(c, Prev(c.n, r), m, rk.g, rk.chains[m].done)
  {
    var rk := s.ranks[r];
    var key := ChainKey(Prev(c.n, r), rk.chains[m].done, rk.g % 2, m);
    if key in rk.slots && rk.slots[key].Early? {
      assert SlotOk(c, s, r, key);
      NextPrev(c.n, r);
      MicrosFit(c, rk.g);
      BufferedIsOutstanding(c, s, Prev(c.n, r), m, rk.g, rk.chains[m].done);
    }
  }

  lemma StepShows<T>(c: Config<seq<T>>, op: (T, T) -> T, flats: seq<seq<seq<T>>>, micro: seq<nat>,
                     s: State<seq<T>>, e: Event<seq<T>>, r: nat, buf: seq<T>)
    requires c.Valid() && Inv(c, s) && Enabled(c, s, e) && r < c.n && c.op == Lift(op) && Sized(c, flats, micro)
    requires s.ranks[r].g < 2 * |c.calls| && Shows(c, s.ranks[r], MicroAt(micro, s.ranks[r].g), buf)
    requires StateShaped(c, Apply(c, s, e))
    ensures var rk' := Apply(c, s, e).ranks[r];
      rk'.g < 2 * |c.calls| ==> Shows(c, rk', MicroAt(micro, rk'.g), FlatStep(c, op, flats, micro, s, e, r, buf))
  {
    var rk := s.ranks[r];
    if e == EndPhase(r) {
      NextPhaseShows(c, flats, micro, r, rk, buf);
    } else {
      RowEffect(c, op, s, e, r);
      WriteFits(c, op, flats, micro, s, e, r);
      ShowsWrite(c, op, rk, Apply(c, s, e).ranks[r], MicroAt(micro, rk.g), buf, WriteOf(c, s, e, r));
    }
  }

  /** A call's buffer shows the rows the call starts with. */
  lemma CallShows<T>(c: Config<seq<T>>, flats: seq<seq<seq<T>>>, micro: seq<nat>, r: nat, g: nat, rk: Rank<seq<T>>)
    requires c.Valid() && r < c.n && Sized(c, flats, micro) && g < 2 * |c.calls| && g % 2 == 0
    requires rk.chains == CallChains(c, r, g)
    ensures r < |flats[g / 2]| && Shows(c, rk, MicroAt(micro, g), flats[g / 2][r])
  {
    var call := g / 2;
    assert Cuts(c, call, flats[call], micro[call]) && c.calls[call].Valid(c.n) && c.calls[call].RowsOk(c.n, c.calls[call].input[r]);
    forall m | 0 <= m < |rk.chains|
      ensures rk.chains[m].row == Row(flats[call][r], c.n, |rk.chains|, micro[call], m)
    {
      assert c.calls[call].input[r][m] == Row(flats[call][r], c.n, c.calls[call].micros, micro[call], m);
    }
  }

  lemma GatherShows<T>(c: Config<seq<T>>, micro: nat, r: nat, rk: Rank<seq<T>>, buf: seq<T>)
    requires Shows(c, rk, micro, buf) && rk.g % 2 == 0
    ensures Shows(c, NextPhase(c, r, rk), micro, buf)
  {
    var rk' := NextPhase(c, r, rk);
    forall m | 0 <= m < |rk'.chains| ensures rk'.chains[m].row == rk.chains[m].row {
    }
  }

  lemma NextPhaseShows<T>(c: Config<seq<T>>, flats: seq<seq<seq<T>>>, micro: seq<nat>, r: nat, rk: Rank<seq<T>>, buf: seq<T>)
    requires c.Valid() && r < c.n && Sized(c, flats, micro) && rk.g < 2 * |c.calls|
    requires Shows(c, rk, MicroAt(micro, rk.g), buf)
    ensures var rk' := NextPhase(c, r, rk);
      rk'.g < 2 * |c.calls| ==>
        if rk.g % 2 == 1 then (rk.g + 1) / 2 < |flats| && r < |flats[(rk.g + 1) / 2]|
                              && Shows(c, rk', MicroAt(micro, rk'.g), flats[(rk.g + 1) / 2][r])
        else Shows(c, rk', MicroAt(micro, rk'.g), buf)
  {
    if rk.g % 2 == 0 {
      GatherShows(c, MicroAt(micro, rk.g), r, rk, buf);
    } else if rk.g + 1 < 2 * |c.calls| {
      CallShows(c, flats, micro, r, rk.g + 1, NextPhase(c, r, rk));
    }
  }

  /** One event, for a rank that may have finished. */
  lemma MemStep<T>(c: Config<seq<T>>, op: (T, T) -> T, flats: seq<seq<seq<T>>>, micro: seq<nat>,
                   s: State<seq<T>>, s': State<seq<T>>, e: Event<seq<T>>, r: nat, buf: seq<T>)
    requires c.Valid() && Inv(c, s) && Enabled(c, s, e) && r < c.n && c.op == Lift(op) && Sized(c, flats, micro)
    requires s' == Apply(c, s, e) && StateShaped(c, s')
    requires s.ranks[r].g < 2 * |c.calls| ==> Shows(c, s.ranks[r], MicroAt(micro, s.ranks[r].g), buf)
    ensures s'.ranks[r].g < 2 * |c.calls| ==>
      Shows(c, s'.ranks[r], MicroAt(micro, s'.ranks[r].g), FlatStep(c, op, flats, micro, s, e, r, buf))
  {
    if s.ranks[r].g < 2 * |c.calls| {
      StepShows(c, op, flats, micro, s, e, r, buf);
    } else {
      FinishedStays(c, s, e, r);
    }
  }

  lemma FinishedStays<V>(c: Config<V>, s: State<V>, e: Event<V>, r: nat)
    requires c.Valid() && StateShaped(c, s) && Enabled(c, s, e) && r < c.n && s.ranks[r].g == 2 * |c.calls|
    ensures Apply(c, s, e).ranks[r].g == 2 * |c.calls|
  {
  }

  /** However the chains interleave, the flat buffer they share holds at every moment exactly the rows of
      the ring machine: no chain ever writes into another's slots. */
  lemma {:induction false} BufferShowsRows<T>(c: Config<seq<T>>, op: (T, T) -> T, flats: seq<seq<seq<T>>>, micro: seq<nat>,
                                              states: seq<State<seq<T>>>, events: seq<Event<seq<T>>>, r: nat,
                                              mems: seq<seq<T>>, i: nat)
    requires c.Valid() && IsRun(c, states, events) && r < c.n && FlatRun(c, op, flats, micro, states, events, r, mems)
    requires i < |states|
    ensures StateShaped(c, states[i])
    ensures var rk := states[i].ranks[r]; rk.g < 2 * |c.calls| ==> Shows(c, rk, MicroAt(micro, rk.g), mems[i])
    decreases i
  {
    RunInv(c, states, events, i);
    if i == 0 {
      if |c.calls| > 0 {
        CallShows(c, flats, micro, r, 0, states[0].ranks[r]);
      }
    } else {
      RunInv(c, states, events, i - 1);
      BufferShowsRows(c, op, flats, micro, states, events, r, mems, i - 1);
      MemStep(c, op, flats, micro, states[i - 1], states[i], events[i - 1], r, mems[i - 1]);
    }
  }

  /** Zero copy on the shared buffer: while a send is outstanding, whatever the other chains of the rank do
      in between, the slot it reads holds the bytes it was posted with. */
  lemma SendSlotUntouched<T>(c: Config<seq<T>>, op: (T, T) -> T, flats: seq<seq<seq<T>>>, micro: seq<nat>,
                             states: seq<State<seq<T>>>, events: seq<Event<seq<T>>>, r: nat,
                             mems: seq<seq<T>>, i: nat, m: nat)
    requires c.Valid() && IsRun(c, states, events) && r < c.n && FlatRun(c, op, flats, micro, states, events, r, mems)
    requires i < |states| && r < |states[i].ranks| && m < |states[i].ranks[r].chains| && states[i].ranks[r].chains[m].busy
    ensures var rk := states[i].ranks[r]; var ch := rk.chains[m]; var size := MicroAt(micro, rk.g);
      && ch.done + 1 < c.n
      && var lo := Offset(|rk.chains|, size, m, SendIdx(c.n, r, rk.g % 2, ch.done));
      && lo + size <= |mems[i]| && mems[i][lo..lo + size] == ch.sent
  {
    RunInv(c, states, events, i);
    var rk := states[i].ranks[r];
    var ch := rk.chains[m];
    assert RankOk(c, r, rk) && MemoryOk(c, r, rk, m);
    BufferShowsRows(c, op, flats, micro, states, events, r, mems, i);
    var k := SendIdx(c.n, r, rk.g % 2, ch.done);
    var size := MicroAt(micro, rk.g);
    SendCell(c, r, m, rk.g, ch.done, if rk.g % 2 == 1 && ch.recvDone then ch.done + 1 else ch.done, ch.row);
    CellIsSlot(mems[i], c.n, |rk.chains|, size, m, k);
  }
}
