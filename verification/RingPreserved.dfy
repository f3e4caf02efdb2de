/** The invariant between ranks survives every event, hence holds along every run. */
module RingPreserved {
  import opened RingIndex
  import opened Wire
  import opened RouterSlots
  import opened RingNet
  import opened RingRows
  import opened RingInvariant
  import opened RingSteps

  /** On one chain a step number, counted over all calls, names phase and step. */
  lemma SerialUnique<V>(c: Config<V>, m: nat, g: nat, step: nat, g': nat, step': nat)
    requires c.n >= 1 && step + 1 < c.n && step' + 1 < c.n && m < c.Micros(g) && m < c.Micros(g')
    requires Ticks(c, m, g) + step == Ticks(c, m, g') + step'
    ensures g == g' && step == step'
  {
    if g < g' {
      TicksMonotone(c, m, g, g');
    } else if g' < g {
      TicksMonotone(c, m, g', g);
    }
  }

  /** A micro-chunk index fits in a key's byte. */
  lemma MicrosFit<V>(c: Config<V>, g: nat)
    requires c.Valid()
    ensures c.Micros(g) <= 255
  {
    if g < 2 * |c.calls| {
      assert c.calls[g / 2].Valid(c.n);
    }
  }

  /** Within two consecutive phases a key names one message only. */
  lemma SameKeySameMessage(src: nat, base: nat, m: nat, g: nat, step: nat, m': nat, g': nat, step': nat)
    requires src < 0x1_0000 && m < 0x100 && m' < 0x100 && step < 0x1_0000 && step' < 0x1_0000
    requires base <= g <= base + 1 && base <= g' <= base + 1
    requires ChainKey(src, step, g % 2, m) == ChainKey(src, step', g' % 2, m')
    ensures m == m' && g == g' && step == step'
  {
    ChainKeyInjective(src, step, g % 2, m, src, step', g' % 2, m');
  }

  /** A key built from in-range fields carries them unchanged. */
  lemma KeyFields(src: nat, step: nat, phase: u8, m: nat)
    requires src < 0x1_0000 && m < 0x100 && step < 0x1_0000
    ensures ChainKey(src, step, phase, m) == RecvKey(src, step, phase, m)
  {
  }

  lemma PhaseOfKey(base: nat, g: nat, src: nat, step: nat, m: nat)
    requires base <= g <= base + 1
    ensures PhaseOf(base, ChainKey(src, step, g % 2, m)) == g
  {
  }

  /** A registered receive names the first message its chain has not consumed. */
  lemma PendingIsNext<V>(c: Config<V>, s: State<V>, src: nat, m: nat, g: nat, step: nat)
    requires c.Valid() && StateShaped(c, s) && src < c.n && m < 256 && step + 1 < c.n
    requires var r := Next(c.n, src); var key := ChainKey(src, step, g % 2, m);
      && key in s.ranks[r].slots && s.ranks[r].slots[key].Pending? && SlotOk(c, s, r, key)
      && s.ranks[r].g <= g <= s.ranks[r].g + 1
    ensures var r := Next(c.n, src); var key := ChainKey(src, step, g % 2, m);
      && s.ranks[r].slots[key].owner == m < |s.ranks[r].chains|
      && g == s.ranks[r].g && step == s.ranks[r].chains[m].done
      && s.ranks[r].chains[m].busy && !s.ranks[r].chains[m].recvDone
  {
    var r := Next(c.n, src);
    var rk := s.ranks[r];
    var owner := rk.slots[ChainKey(src, step, g % 2, m)].owner;
    NextPrev(c.n, src);
    MicrosFit(c, rk.g);
    SameKeySameMessage(src, rk.g, m, g, step, owner, rk.g, rk.chains[owner].done);
  }

  /** A buffered message is outstanding under the phase its key names. */
  lemma BufferedIsOutstanding<V>(c: Config<V>, s: State<V>, src: nat, m: nat, g: nat, step: nat)
    requires c.Valid() && StateShaped(c, s)
    requires src < c.n && m < 256 && step + 1 < c.n
    requires var r := Next(c.n, src); var key := ChainKey(src, step, g % 2, m);
      && key in s.ranks[r].slots && s.ranks[r].slots[key].Early? && SlotOk(c, s, r, key)
      && s.ranks[r].g <= g <= s.ranks[r].g + 1
    ensures Outstanding(c, s, src, m, g, step)
    ensures s.ranks[Next(c.n, src)].slots[ChainKey(src, step, g % 2, m)].bytes == Payload(c, src, m, g, step)
  {
    NextPrev(c.n, src);
    KeyFields(src, step, g % 2, m);
    PhaseOfKey(s.ranks[Next(c.n, src)].g, g, src, step, m);
  }

  // ----- events that neither post nor consume -----

  ghost predicate Waiting<V>(rk: Rank<V>, m: nat) { m < |rk.chains| && rk.chains[m].busy && !rk.chains[m].recvDone }

  ghost predicate QuietRank<V>(c: Config<V>, rk: Rank<V>, rk': Rank<V>, m: nat)
    requires c.n >= 1
  {
    && Posted(c, rk, m) == Posted(c, rk', m)
    && Consumed(c, rk, m) == Consumed(c, rk', m)
    && (Waiting(rk, m) <==> Waiting(rk', m))
    && (Waiting(rk, m) ==> rk.chains[m].done == rk'.chains[m].done && rk.g == rk'.g)
    && (rk'.g == rk.g || (rk'.g == rk.g + 1 && Consumed(c, rk, m) >= Ticks(c, m, rk'.g)))
  }

  ghost predicate Quiet<V>(c: Config<V>, s: State<V>, s': State<V>, r: nat, m: nat)
    requires c.Valid() && StateShaped(c, s) && StateShaped(c, s') && r < c.n
  {
    QuietRank(c, s.ranks[r], s'.ranks[r], m)
  }

  lemma QuietStep<V>(c: Config<V>, s: State<V>, s': State<V>)
    requires c.Valid() && Inv(c, s) && StateShaped(c, s') && s'.net == s.net
    requires forall r :: 0 <= r < c.n ==> s'.ranks[r].slots == s.ranks[r].slots
    requires forall r: nat, m: nat :: r < c.n ==> Quiet(c, s, s', r, m)
    ensures Links(c, s') && Messages(c, s')
  {
    forall r: nat, m: nat | r < c.n ensures Linked(c, s', r, m) {
      assert Linked(c, s, r, m);
      assert Quiet(c, s, s', r, m) && Quiet(c, s, s', Prev(c.n, r), m);
    }
    forall r, m | 0 <= r < c.n && 0 <= m < |s'.ranks[r].chains| ensures WaiterOk(c, s', r, m) {
      assert m < |s.ranks[r].chains| ==> WaiterOk(c, s, r, m);
      assert Quiet(c, s, s', r, m);
    }
    forall src: nat, m: nat, g: nat, step: nat
      ensures Outstanding(c, s', src, m, g, step) <==> Outstanding(c, s, src, m, g, step)
    {
      if src < c.n {
        assert Quiet(c, s, s', src, m) && Quiet(c, s, s', Next(c.n, src), m);
      }
    }
    forall msg | msg in s'.net ensures FlightOk(c, s', msg) {
      assert FlightOk(c, s, msg);
      assert Outstanding(c, s', msg.src, msg.m, msg.g, msg.step);
    }
    forall src: nat, m: nat, g: nat, step: nat ensures Somewhere(c, s', src, m, g, step) {
      assert Somewhere(c, s, src, m, g, step);
    }
    forall r, key | 0 <= r < c.n && key in s'.ranks[r].slots ensures SlotOk(c, s', r, key) {
      assert SlotOk(c, s, r, key);
      QuietSlot(c, s, s', r, key);
    }
  }

  lemma NextPhaseOf(g: nat, g': nat, key: RecvKey)
    requires key.phase < 2 && (g' == g || (g' == g + 1 && PhaseOf(g, key) != g))
    ensures PhaseOf(g', key) == PhaseOf(g, key)
  {
  }

  lemma QuietSlot<V>(c: Config<V>, s: State<V>, s': State<V>, r: nat, key: RecvKey)
    requires c.Valid() && StateShaped(c, s) && StateShaped(c, s') && r < c.n && key in s.ranks[r].slots
    requires s'.ranks[r].slots == s.ranks[r].slots && SlotOk(c, s, r, key)
    requires forall q: nat, m: nat :: q < c.n ==> Quiet(c, s, s', q, m)
    ensures SlotOk(c, s', r, key)
  {
    match s.ranks[r].slots[key]
    case Pending(owner, _) => assert Quiet(c, s, s', r, owner);
    case Early(bytes) =>
      var p := Prev(c.n, r);
      var m := key.microChunk;
      var g := PhaseOf(s.ranks[r].g, key);
      assert Quiet(c, s, s', r, m) && Quiet(c, s, s', p, m);
      NextPrev(c.n, r);
      if s'.ranks[r].g == s.ranks[r].g + 1 && g == s.ranks[r].g {
        assert false;
      }
      NextPhaseOf(s.ranks[r].g, s'.ranks[r].g, key);
  }

  // ----- posting -----

  /** The message about to be posted is the next one of its sender and is nowhere yet. */
  lemma PostIsNew<V>(c: Config<V>, s: State<V>, r: nat, m: nat)
    requires c.Valid() && Inv(c, s) && Enabled(c, s, Post(r, m))
    ensures var rk := s.ranks[r]; var q := Next(c.n, r); var key := ChainKey(r, rk.chains[m].done, rk.g % 2, m);
      && Consumed(c, s.ranks[q], m) <= Ticks(c, m, rk.g) + rk.chains[m].done == Posted(c, rk, m)
      && s.ranks[q].g <= rk.g <= s.ranks[q].g + 1
      && !(key in s.ranks[q].slots && s.ranks[q].slots[key].Early?)
  {
    var q := Next(c.n, r);
    var rk := s.ranks[r];
    NextPrev(c.n, r);
    assert Linked(c, s, q, m);
    PhaseSkew(c, s, r, q);
    if rk.g < s.ranks[q].g {
      TicksMonotone(c, m, rk.g, s.ranks[q].g);
    }
    var key := ChainKey(r, rk.chains[m].done, rk.g % 2, m);
    if key in s.ranks[q].slots && s.ranks[q].slots[key].Early? {
      assert SlotOk(c, s, q, key);
      BufferedIsOutstanding(c, s, r, m, rk.g, rk.chains[m].done);
      assert false;
    }
  }

  /** An idle chain has no registered receive, so registering never replaces one. */
  lemma IdleNotPending<V>(c: Config<V>, s: State<V>, r: nat, m: nat)
    requires c.Valid() && Inv(c, s) && Enabled(c, s, Post(r, m))
    ensures var key := ChainKey(Prev(c.n, r), s.ranks[r].chains[m].done, s.ranks[r].g % 2, m);
      key in s.ranks[r].slots ==> s.ranks[r].slots[key].Early?
  {
    var rk := s.ranks[r];
    var key := ChainKey(Prev(c.n, r), rk.chains[m].done, rk.g % 2, m);
    if key in rk.slots && rk.slots[key].Pending? {
      assert SlotOk(c, s, r, key);
      NextPrev(c.n, r);
      PendingIsNext(c, s, Prev(c.n, r), m, rk.g, rk.chains[m].done);
    }
  }

  lemma PostRank<V>(c: Config<V>, s: State<V>, r: nat, m: nat)
    requires c.Valid() && Inv(c, s) && Enabled(c, s, Post(r, m))
    ensures Ranks(c, Apply(c, s, Post(r, m)))
  {
    var rk := s.ranks[r];
    var ch := rk.chains[m];
    assert RankOk(c, r, rk);
    SendRank(c, r, rk, m);
    var payload := ch.row[SendIdx(c.n, r, rk.g % 2, ch.done)];
    var posted := rk.(chains := rk.chains[m := ch.(busy := true, sent := payload)]);
    var key := ChainKey(Prev(c.n, r), ch.done, rk.g % 2, m);
    var (slots, early) := TakeEarly(rk.slots, key);
    assert ChainFlags(rk, m);
    if early.Some? {
      assert SlotOk(c, s, r, key);
      NextPrev(c.n, r);
      BufferedIsOutstanding(c, s, Prev(c.n, r), m, rk.g, ch.done);
      ReceiveRank(c, r, posted, m, early.value, slots);
    } else {
      assert MemoryOk(c, r, posted, m);
      ReplaceChain(c, r, posted, m, posted.chains[m], RegisterPending(slots, key, m, m));
      assert posted.chains[m := posted.chains[m]] == posted.chains;
    }
  }

  /** What a post changes, in terms of the counters, the slot map and the wire. */
  ghost predicate PostDone<V>(c: Config<V>, s: State<V>, s': State<V>, r: nat, m: nat)
    requires c.Valid() && StateShaped(c, s) && StateShaped(c, s') && r < c.n && m < |s.ranks[r].chains|
    requires s.ranks[r].chains[m].done + 1 < c.n
  {
    var rk := s.ranks[r];
    var ch := rk.chains[m];
    var key := ChainKey(Prev(c.n, r), ch.done, rk.g % 2, m);
    var taken := key in rk.slots;
    && (taken ==> rk.slots[key].Early?)
    && (forall q :: 0 <= q < c.n && q != r ==> s'.ranks[q] == s.ranks[q])
    && |s'.ranks[r].chains| == |rk.chains|
    && (forall k :: 0 <= k < |rk.chains| && k != m ==> s'.ranks[r].chains[k] == rk.chains[k])
    && s'.ranks[r].g == rk.g && s'.ranks[r].launched == rk.launched
    && var ch' := s'.ranks[r].chains[m];
    && ch'.done == ch.done && ch'.busy && ch'.recvDone == taken && !ch'.sendDone && !ch.busy
    && s'.ranks[r].slots == (if taken then rk.slots - {key} else rk.slots[key := Pending(m, Some(m))])
    && s'.net == s.net + {Msg(r, m, rk.g, ch.done, Payload(c, r, m, rk.g, ch.done))}
  }

  lemma PostEffect<V>(c: Config<V>, s: State<V>, r: nat, m: nat)
    requires c.Valid() && Inv(c, s) && Enabled(c, s, Post(r, m)) && StateShaped(c, Apply(c, s, Post(r, m)))
    ensures PostDone(c, s, Apply(c, s, Post(r, m)), r, m)
  {
    var rk := s.ranks[r];
    assert RankOk(c, r, rk) && ChainFlags(rk, m);
    IdleNotPending(c, s, r, m);
    SendRank(c, r, rk, m);
  }

  /** Counters after a post: the sender's posted count moves, and its consumed count if it took an early message. */
  ghost predicate Counted<V>(c: Config<V>, s: State<V>, s': State<V>, r: nat, m: nat, post: nat, take: nat)
    requires c.Valid() && StateShaped(c, s) && StateShaped(c, s') && r < c.n
  {
    forall q: nat, k: nat :: q < c.n ==>
      && Posted(c, s'.ranks[q], k) == Posted(c, s.ranks[q], k) + (if q == r && k == m then post else 0)
      && Consumed(c, s'.ranks[q], k) == Consumed(c, s.ranks[q], k) + (if q == r && k == m then take else 0)
  }

  /** Only one chain of one rank moves, and it stays at its step. */
  lemma CountedFrom<V>(c: Config<V>, s: State<V>, s': State<V>, r: nat, m: nat, post: nat, take: nat)
    requires c.Valid() && StateShaped(c, s) && StateShaped(c, s') && r < c.n
    requires forall q :: 0 <= q < c.n && q != r ==> s'.ranks[q] == s.ranks[q]
    requires var a, b := s.ranks[r], s'.ranks[r];
      && b.g == a.g && |b.chains| == |a.chains|
      && (forall k :: 0 <= k < |a.chains| && k != m ==> b.chains[k] == a.chains[k])
      && Posted(c, b, m) == Posted(c, a, m) + post && Consumed(c, b, m) == Consumed(c, a, m) + take
    ensures Counted(c, s, s', r, m, post, take)
  {
  }

  lemma PostCounted<V>(c: Config<V>, s: State<V>, r: nat, m: nat)
    requires c.Valid() && Inv(c, s) && Enabled(c, s, Post(r, m)) && StateShaped(c, Apply(c, s, Post(r, m)))
    ensures var s' := Apply(c, s, Post(r, m));
      PostDone(c, s, s', r, m) && Counted(c, s, s', r, m, 1, if s'.ranks[r].chains[m].recvDone then 1 else 0)
  {
    var s' := Apply(c, s, Post(r, m));
    PostEffect(c, s, r, m);
    CountedFrom(c, s, s', r, m, 1, if s'.ranks[r].chains[m].recvDone then 1 else 0);
  }

  /** Which messages are outstanding after a post: the new one is, and the one just taken early is not. */
  lemma PostOutstanding<V>(c: Config<V>, s: State<V>, s': State<V>, r: nat, m: nat, taken: bool,
                           src: nat, k: nat, g: nat, step: nat)
    requires c.Valid() && StateShaped(c, s) && StateShaped(c, s') && r < c.n && m < |s.ranks[r].chains|
    requires s.ranks[r].chains[m].done + 1 < c.n
    requires Counted(c, s, s', r, m, 1, if taken then 1 else 0)
    requires var here := Ticks(c, m, s.ranks[r].g) + s.ranks[r].chains[m].done;
      && Posted(c, s.ranks[r], m) == here == Consumed(c, s.ranks[r], m)
      && Consumed(c, s.ranks[Next(c.n, r)], m) <= here
    ensures var rk := s.ranks[r]; var done := rk.chains[m].done;
      Outstanding(c, s', src, k, g, step) <==>
        (src == r && k == m && g == rk.g && step == done) ||
        (Outstanding(c, s, src, k, g, step) &&
         !(taken && src == Prev(c.n, r) && k == m && g == rk.g && step == done))
  {
    var rk := s.ranks[r];
    NextPrev(c.n, r);
    if src < c.n && k == m < c.Micros(g) && step + 1 < c.n {
      NextPrev(c.n, src);
      if Ticks(c, m, g) + step == Ticks(c, m, rk.g) + rk.chains[m].done {
        SerialUnique(c, m, g, step, rk.g, rk.chains[m].done);
      }
    }
  }

  /** The same for the event itself. */
  lemma PostShift<V>(c: Config<V>, s: State<V>, r: nat, m: nat, src: nat, k: nat, g: nat, step: nat)
    requires c.Valid() && Inv(c, s) && Enabled(c, s, Post(r, m)) && StateShaped(c, Apply(c, s, Post(r, m)))
    ensures var s' := Apply(c, s, Post(r, m)); var rk := s.ranks[r]; var done := rk.chains[m].done;
      var taken := s'.ranks[r].chains[m].recvDone;
      Outstanding(c, s', src, k, g, step) <==>
        (src == r && k == m && g == rk.g && step == done) ||
        (Outstanding(c, s, src, k, g, step) &&
         !(taken && src == Prev(c.n, r) && k == m && g == rk.g && step == done))
  {
    var s' := Apply(c, s, Post(r, m));
    PostCounted(c, s, r, m);
    PostIsNew(c, s, r, m);
    assert ChainFlags(s.ranks[r], m);
    PostOutstanding(c, s, s', r, m, s'.ranks[r].chains[m].recvDone, src, k, g, step);
  }

  /** Links hold as long as nobody consumes more than its predecessor posted. */
  lemma LinksFrom<V>(c: Config<V>, s: State<V>, s': State<V>, r: nat, m: nat, post: nat, take: nat)
    requires c.Valid() && StateShaped(c, s) && StateShaped(c, s') && r < c.n && Links(c, s)
    requires Counted(c, s, s', r, m, post, take)
    requires take > 0 ==> Consumed(c, s.ranks[r], m) + take <= Posted(c, s.ranks[Prev(c.n, r)], m)
    ensures Links(c, s')
  {
    forall q: nat, k: nat | q < c.n ensures Linked(c, s', q, k) {
      assert Linked(c, s, q, k);
    }
  }

  lemma PostLinks<V>(c: Config<V>, s: State<V>, r: nat, m: nat)
    requires c.Valid() && Inv(c, s) && Enabled(c, s, Post(r, m)) && StateShaped(c, Apply(c, s, Post(r, m)))
    ensures Links(c, Apply(c, s, Post(r, m)))
  {
    var s' := Apply(c, s, Post(r, m));
    var taken := s'.ranks[r].chains[m].recvDone;
    PostCounted(c, s, r, m);
    if taken {
      TakenWasPosted(c, s, s', r, m);
    }
    LinksFrom(c, s, s', r, m, 1, if taken then 1 else 0);
  }

  /** A message found buffered had been posted. */
  lemma TakenWasPosted<V>(c: Config<V>, s: State<V>, s': State<V>, r: nat, m: nat)
    requires c.Valid() && Inv(c, s) && Enabled(c, s, Post(r, m)) && StateShaped(c, s')
    requires PostDone(c, s, s', r, m) && s'.ranks[r].chains[m].recvDone
    ensures Consumed(c, s.ranks[r], m) + 1 <= Posted(c, s.ranks[Prev(c.n, r)], m)
  {
    var rk := s.ranks[r];
    var key := ChainKey(Prev(c.n, r), rk.chains[m].done, rk.g % 2, m);
    NextPrev(c.n, r);
    MicrosFit(c, rk.g);
    assert SlotOk(c, s, r, key);
    BufferedIsOutstanding(c, s, Prev(c.n, r), m, rk.g, rk.chains[m].done);
  }

  /** A buffered message stays buffered while its entry of the slot map is not touched. */
  lemma StillSomewhere<V>(c: Config<V>, s: State<V>, s': State<V>, r: nat, key: RecvKey, gone: set<Msg<V>>,
                          src: nat, m: nat, g: nat, step: nat)
    requires c.Valid() && StateShaped(c, s) && StateShaped(c, s') && r < c.n
    requires Outstanding(c, s, src, m, g, step) && Somewhere(c, s, src, m, g, step)
    requires forall q :: 0 <= q < c.n && q != r ==> s'.ranks[q].slots == s.ranks[q].slots
    requires forall k :: k in s.ranks[r].slots && k != key ==> k in s'.ranks[r].slots && s'.ranks[r].slots[k] == s.ranks[r].slots[k]
    requires s.net - gone <= s'.net
    requires Msg(src, m, g, step, Payload(c, src, m, g, step)) !in gone
    requires Next(c.n, src) == r && ChainKey(src, step, g % 2, m) == key ==> key !in s.ranks[r].slots
    ensures Somewhere(c, s', src, m, g, step)
  {
  }

  /** The message a post took from the buffer is the only one that can carry the taken key. */
  lemma TakenKey<V>(c: Config<V>, s: State<V>, r: nat, m: nat, src: nat, k: nat, g: nat, step: nat)
    requires c.Valid() && Inv(c, s) && r < c.n && m < |s.ranks[r].chains| && s.ranks[r].chains[m].done + 1 < c.n
    requires Outstanding(c, s, src, k, g, step) && Next(c.n, src) == r
    requires ChainKey(src, step, g % 2, k) == ChainKey(Prev(c.n, r), s.ranks[r].chains[m].done, s.ranks[r].g % 2, m)
    ensures src == Prev(c.n, r) && k == m && g == s.ranks[r].g && step == s.ranks[r].chains[m].done
  {
    RecentPhase(c, s, src, k, g, step);
    NextPrev(c.n, src);
    MicrosFit(c, g);
    MicrosFit(c, s.ranks[r].g);
    SameKeySameMessage(src, s.ranks[r].g, k, g, step, m, s.ranks[r].g, s.ranks[r].chains[m].done);
  }

  lemma PostSomewhere<V>(c: Config<V>, s: State<V>, s': State<V>, r: nat, m: nat, src: nat, k: nat, g: nat, step: nat)
    requires c.Valid() && StateShaped(c, s) && StateShaped(c, s') && r < c.n && m < |s.ranks[r].chains|
    requires s.ranks[r].chains[m].done + 1 < c.n && PostDone(c, s, s', r, m) && Somewhere(c, s, src, k, g, step)
    requires var rk := s.ranks[r]; var done := rk.chains[m].done; var mine := ChainKey(Prev(c.n, r), done, rk.g % 2, m);
      && (Outstanding(c, s', src, k, g, step) ==>
            (src == r && k == m && g == rk.g && step == done) ||
            (Outstanding(c, s, src, k, g, step) && !(mine in rk.slots && src == Prev(c.n, r) && k == m && g == rk.g && step == done)))
      && (Outstanding(c, s, src, k, g, step) && Next(c.n, src) == r && ChainKey(src, step, g % 2, k) == mine ==>
            src == Prev(c.n, r) && k == m && g == rk.g && step == done)
    ensures Somewhere(c, s', src, k, g, step)
  {
    var rk := s.ranks[r];
    var mine := ChainKey(Prev(c.n, r), rk.chains[m].done, rk.g % 2, m);
    if Outstanding(c, s', src, k, g, step) && !(src == r && k == m && g == rk.g && step == rk.chains[m].done) {
      StillSomewhere(c, s, s', r, mine, {}, src, k, g, step);
    }
  }

  lemma PostFlight<V>(c: Config<V>, s: State<V>, r: nat, m: nat, msg: Msg<V>)
    requires c.Valid() && Inv(c, s) && Enabled(c, s, Post(r, m)) && StateShaped(c, Apply(c, s, Post(r, m)))
    requires msg in Apply(c, s, Post(r, m)).net
    ensures FlightOk(c, Apply(c, s, Post(r, m)), msg)
  {
    var s' := Apply(c, s, Post(r, m));
    PostEffect(c, s, r, m);
    PostIsNew(c, s, r, m);
    PostShift(c, s, r, m, msg.src, msg.m, msg.g, msg.step);
    if msg in s.net {
      assert FlightOk(c, s, msg);
      NotTaken(c, s, r, m, msg);
    } else {
      NextPrev(c.n, r);
    }
  }

  /** A message on the wire is not the one a post finds buffered. */
  lemma NotTaken<V>(c: Config<V>, s: State<V>, r: nat, m: nat, msg: Msg<V>)
    requires c.Valid() && StateShaped(c, s) && r < c.n && m < |s.ranks[r].chains| && FlightOk(c, s, msg)
    requires var key := ChainKey(Prev(c.n, r), s.ranks[r].chains[m].done, s.ranks[r].g % 2, m);
      key in s.ranks[r].slots ==> s.ranks[r].slots[key].Early?
    ensures var key := ChainKey(Prev(c.n, r), s.ranks[r].chains[m].done, s.ranks[r].g % 2, m);
      key in s.ranks[r].slots ==>
        !(msg.src == Prev(c.n, r) && msg.m == m && msg.g == s.ranks[r].g && msg.step == s.ranks[r].chains[m].done)
  {
    NextPrev(c.n, r);
  }

  lemma PostSlot<V>(c: Config<V>, s: State<V>, r: nat, m: nat, q: nat, key: RecvKey)
    requires c.Valid() && Inv(c, s) && Enabled(c, s, Post(r, m)) && StateShaped(c, Apply(c, s, Post(r, m)))
    requires q < c.n && key in Apply(c, s, Post(r, m)).ranks[q].slots
    ensures SlotOk(c, Apply(c, s, Post(r, m)), q, key)
  {
    var s' := Apply(c, s, Post(r, m));
    var rk := s.ranks[r];
    var mine := ChainKey(Prev(c.n, r), rk.chains[m].done, rk.g % 2, m);
    PostEffect(c, s, r, m);
    if q != r || key != mine {
      assert SlotOk(c, s, q, key);
      if s.ranks[q].slots[key].Early? {
        PostShift(c, s, r, m, Prev(c.n, q), key.microChunk, PhaseOf(s.ranks[q].g, key), key.step);
        NextPrev(c.n, q);
        NextPrev(c.n, r);
      }
    }
  }

  lemma PostMessages<V>(c: Config<V>, s: State<V>, r: nat, m: nat)
    requires c.Valid() && Inv(c, s) && Enabled(c, s, Post(r, m)) && StateShaped(c, Apply(c, s, Post(r, m)))
    ensures Messages(c, Apply(c, s, Post(r, m)))
  {
    var s' := Apply(c, s, Post(r, m));
    PostEffect(c, s, r, m);
    forall src: nat, k: nat, g: nat, step: nat ensures Somewhere(c, s', src, k, g, step) {
      PostShift(c, s, r, m, src, k, g, step);
      if Outstanding(c, s, src, k, g, step) && Next(c.n, src) == r
         && ChainKey(src, step, g % 2, k) == ChainKey(Prev(c.n, r), s.ranks[r].chains[m].done, s.ranks[r].g % 2, m) {
        TakenKey(c, s, r, m, src, k, g, step);
      }
      assert Somewhere(c, s, src, k, g, step);
      PostSomewhere(c, s, s', r, m, src, k, g, step);
    }
    forall msg | msg in s'.net ensures FlightOk(c, s', msg) {
      PostFlight(c, s, r, m, msg);
    }
    forall q, k | 0 <= q < c.n && 0 <= k < |s'.ranks[q].chains| ensures WaiterOk(c, s', q, k) {
      assert WaiterOk(c, s, q, k);
      PostWaiter(c, s, s', r, m, q, k);
    }
    forall q, key | 0 <= q < c.n && key in s'.ranks[q].slots ensures SlotOk(c, s', q, key) {
      PostSlot(c, s, r, m, q, key);
    }
  }

  lemma PostWaiter<V>(c: Config<V>, s: State<V>, s': State<V>, r: nat, m: nat, q: nat, k: nat)
    requires c.Valid() && StateShaped(c, s) && StateShaped(c, s') && r < c.n && m < |s.ranks[r].chains|
    requires s.ranks[r].chains[m].done + 1 < c.n && PostDone(c, s, s', r, m)
    requires q < c.n && k < |s.ranks[q].chains| && WaiterOk(c, s, q, k)
    ensures k < |s'.ranks[q].chains| && WaiterOk(c, s', q, k)
  {
    var rk := s.ranks[r];
    MicrosFit(c, rk.g);
    KeyFields(Prev(c.n, r), rk.chains[m].done, rk.g % 2, m);
    if q == r && k != m {
      KeyFields(Prev(c.n, r), rk.chains[k].done, rk.g % 2, k);
    }
  }

  // ----- arrivals -----

  /** What the router does with a message: it fills the receive that waits for exactly this message, or
      buffers it; the duplicate branch, which drops two messages, is never taken. */
  lemma ArrivalOutcome<V>(c: Config<V>, s: State<V>, msg: Msg<V>)
    requires c.Valid() && Inv(c, s) && Enabled(c, s, Arrive(msg))
    ensures var r := Next(c.n, msg.src); var rk := s.ranks[r]; var out := Deliver(rk.slots, MsgKey(msg), msg.payload).1;
      && !out.DroppedBoth?
      && msg.m < 256
      && (out.Filled? ==>
            && out.owner == msg.m < |rk.chains| && msg.g == rk.g && msg.step == rk.chains[msg.m].done
            && rk.chains[msg.m].busy && !rk.chains[msg.m].recvDone
            && msg.payload == Payload(c, Prev(c.n, r), msg.m, rk.g, rk.chains[msg.m].done))
  {
    var r := Next(c.n, msg.src);
    var rk := s.ranks[r];
    assert FlightOk(c, s, msg);
    RecentPhase(c, s, msg.src, msg.m, msg.g, msg.step);
    NextPrev(c.n, msg.src);
    MicrosFit(c, msg.g);
    if MsgKey(msg) in rk.slots {
      assert SlotOk(c, s, r, MsgKey(msg));
      PendingIsNext(c, s, msg.src, msg.m, msg.g, msg.step);
    }
  }

  lemma SlotsOnly<V>(c: Config<V>, r: nat, rk: Rank<V>, slots: Slots<V>)
    requires c.Valid() && r < c.n && RankOk(c, r, rk)
    ensures RankOk(c, r, rk.(slots := slots))
  {
    forall m | 0 <= m < |rk.chains| ensures ChainFlags(rk.(slots := slots), m) && MemoryOk(c, r, rk.(slots := slots), m) {
      assert ChainFlags(rk, m) && MemoryOk(c, r, rk, m);
    }
  }

  lemma ArriveRank<V>(c: Config<V>, s: State<V>, msg: Msg<V>)
    requires c.Valid() && Inv(c, s) && Enabled(c, s, Arrive(msg))
    ensures Ranks(c, Apply(c, s, Arrive(msg)))
  {
    var r := Next(c.n, msg.src);
    var rk := s.ranks[r];
    ArrivalOutcome(c, s, msg);
    assert RankOk(c, r, rk);
    var (slots, out) := Deliver(rk.slots, MsgKey(msg), msg.payload);
    if out.Filled? {
      ReceiveRank(c, r, rk, msg.m, msg.payload, slots);
    } else {
      SlotsOnly(c, r, rk, slots);
    }
  }

  /** What an arrival changes. */
  ghost predicate ArriveDone<V>(c: Config<V>, s: State<V>, s': State<V>, msg: Msg<V>)
    requires c.Valid() && StateShaped(c, s) && StateShaped(c, s') && msg.src < c.n
  {
    var r := Next(c.n, msg.src);
    var rk := s.ranks[r];
    var key := MsgKey(msg);
    && (forall q :: 0 <= q < c.n && q != r ==> s'.ranks[q] == s.ranks[q])
    && |s'.ranks[r].chains| == |rk.chains|
    && (forall k :: 0 <= k < |rk.chains| && k != msg.m ==> s'.ranks[r].chains[k] == rk.chains[k])
    && s'.ranks[r].g == rk.g && s'.ranks[r].launched == rk.launched && s'.net == s.net - {msg}
    && (key in rk.slots ==>
          && msg.m < |rk.chains|
          && var ch := rk.chains[msg.m]; var ch' := s'.ranks[r].chains[msg.m];
          && rk.slots[key].Pending? && ch.busy && !ch.recvDone && s'.ranks[r].slots == rk.slots - {key}
          && ch'.done == ch.done && ch'.busy && ch'.recvDone && ch'.sendDone == ch.sendDone
          && msg.g == rk.g && msg.step == ch.done)
    && (key !in rk.slots ==> s'.ranks[r].chains == rk.chains && s'.ranks[r].slots == rk.slots[key := Early(msg.payload)])
  }

  lemma ArriveEffect<V>(c: Config<V>, s: State<V>, msg: Msg<V>)
    requires c.Valid() && Inv(c, s) && Enabled(c, s, Arrive(msg)) && StateShaped(c, Apply(c, s, Arrive(msg)))
    ensures ArriveDone(c, s, Apply(c, s, Arrive(msg)), msg)
  {
    ArrivalOutcome(c, s, msg);
    var r := Next(c.n, msg.src);
    assert RankOk(c, r, s.ranks[r]);
  }

  lemma ArriveCounted<V>(c: Config<V>, s: State<V>, s': State<V>, msg: Msg<V>)
    requires c.Valid() && StateShaped(c, s) && StateShaped(c, s') && msg.src < c.n && ArriveDone(c, s, s', msg)
    ensures var r := Next(c.n, msg.src); Counted(c, s, s', r, msg.m, 0, if MsgKey(msg) in s.ranks[r].slots then 1 else 0)
  {
    var r := Next(c.n, msg.src);
    CountedFrom(c, s, s', r, msg.m, 0, if MsgKey(msg) in s.ranks[r].slots then 1 else 0);
  }

  /** An arrival that fills a receive ends one message's time outstanding; buffering changes nothing. */
  lemma ArriveOutstanding<V>(c: Config<V>, s: State<V>, s': State<V>, msg: Msg<V>, taken: bool,
                             src: nat, m: nat, g: nat, step: nat)
    requires c.Valid() && StateShaped(c, s) && StateShaped(c, s') && Outstanding(c, s, msg.src, msg.m, msg.g, msg.step)
    requires var r := Next(c.n, msg.src);
      && Counted(c, s, s', r, msg.m, 0, if taken then 1 else 0)
      && (taken ==> Consumed(c, s.ranks[r], msg.m) == Ticks(c, msg.m, msg.g) + msg.step)
    ensures Outstanding(c, s', src, m, g, step) <==>
      Outstanding(c, s, src, m, g, step) && !(taken && src == msg.src && m == msg.m && g == msg.g && step == msg.step)
  {
    NextPrev(c.n, msg.src);
    if src < c.n && m == msg.m < c.Micros(g) && step + 1 < c.n {
      NextPrev(c.n, src);
      if Ticks(c, m, g) + step == Ticks(c, m, msg.g) + msg.step {
        SerialUnique(c, m, g, step, msg.g, msg.step);
      }
    }
  }

  lemma ArriveLinks<V>(c: Config<V>, s: State<V>, msg: Msg<V>)
    requires c.Valid() && Inv(c, s) && Enabled(c, s, Arrive(msg)) && StateShaped(c, Apply(c, s, Arrive(msg)))
    ensures Links(c, Apply(c, s, Arrive(msg)))
  {
    var s' := Apply(c, s, Arrive(msg));
    var r := Next(c.n, msg.src);
    ArriveEffect(c, s, msg);
    ArriveCounted(c, s, s', msg);
    assert FlightOk(c, s, msg);
    NextPrev(c.n, msg.src);
    LinksFrom(c, s, s', r, msg.m, 0, if MsgKey(msg) in s.ranks[r].slots then 1 else 0);
  }

  /** No other outstanding message carries the key of the one that arrives. */
  lemma ArrivingKey<V>(c: Config<V>, s: State<V>, msg: Msg<V>, src: nat, m: nat, g: nat, step: nat)
    requires c.Valid() && Inv(c, s) && Outstanding(c, s, msg.src, msg.m, msg.g, msg.step)
    requires Outstanding(c, s, src, m, g, step) && Next(c.n, src) == Next(c.n, msg.src)
    requires ChainKey(src, step, g % 2, m) == MsgKey(msg)
    ensures src == msg.src && m == msg.m && g == msg.g && step == msg.step
  {
    NextPrev(c.n, src);
    NextPrev(c.n, msg.src);
    RecentPhase(c, s, src, m, g, step);
    RecentPhase(c, s, msg.src, msg.m, msg.g, msg.step);
    MicrosFit(c, g);
    MicrosFit(c, msg.g);
    SameKeySameMessage(src, s.ranks[Next(c.n, src)].g, m, g, step, msg.m, msg.g, msg.step);
  }

  /** The same for the event itself. */
  lemma ArriveShift<V>(c: Config<V>, s: State<V>, s': State<V>, msg: Msg<V>, src: nat, m: nat, g: nat, step: nat)
    requires c.Valid() && StateShaped(c, s) && StateShaped(c, s') && Outstanding(c, s, msg.src, msg.m, msg.g, msg.step)
    requires ArriveDone(c, s, s', msg)
    ensures var taken := MsgKey(msg) in s.ranks[Next(c.n, msg.src)].slots;
      Outstanding(c, s', src, m, g, step) <==>
        Outstanding(c, s, src, m, g, step) && !(taken && src == msg.src && m == msg.m && g == msg.g && step == msg.step)
  {
    ArriveCounted(c, s, s', msg);
    ArriveOutstanding(c, s, s', msg, MsgKey(msg) in s.ranks[Next(c.n, msg.src)].slots, src, m, g, step);
  }

  lemma ArriveSomewhere<V>(c: Config<V>, s: State<V>, s': State<V>, msg: Msg<V>, src: nat, m: nat, g: nat, step: nat)
    requires c.Valid() && StateShaped(c, s) && StateShaped(c, s') && Outstanding(c, s, msg.src, msg.m, msg.g, msg.step)
    requires ArriveDone(c, s, s', msg) && Somewhere(c, s, src, m, g, step)
    requires msg.payload == Payload(c, msg.src, msg.m, msg.g, msg.step)
    requires Outstanding(c, s, src, m, g, step) && Next(c.n, src) == Next(c.n, msg.src) && ChainKey(src, step, g % 2, m) == MsgKey(msg)
      ==> src == msg.src && m == msg.m && g == msg.g && step == msg.step
    ensures Somewhere(c, s', src, m, g, step)
  {
    var r := Next(c.n, msg.src);
    ArriveShift(c, s, s', msg, src, m, g, step);
    if Outstanding(c, s', src, m, g, step) {
      if Next(c.n, src) != r || ChainKey(src, step, g % 2, m) != MsgKey(msg) {
        StillSomewhere(c, s, s', r, MsgKey(msg), {msg}, src, m, g, step);
      }
    }
  }

  lemma ArriveFlight<V>(c: Config<V>, s: State<V>, msg: Msg<V>, other: Msg<V>)
    requires c.Valid() && Inv(c, s) && Enabled(c, s, Arrive(msg)) && StateShaped(c, Apply(c, s, Arrive(msg)))
    requires other in Apply(c, s, Arrive(msg)).net
    ensures FlightOk(c, Apply(c, s, Arrive(msg)), other)
  {
    var s' := Apply(c, s, Arrive(msg));
    var r := Next(c.n, msg.src);
    assert FlightOk(c, s, msg) && FlightOk(c, s, other);
    ArriveEffect(c, s, msg);
    ArriveCounted(c, s, s', msg);
    ArriveOutstanding(c, s, s', msg, MsgKey(msg) in s.ranks[r].slots, other.src, other.m, other.g, other.step);
    NextPrev(c.n, other.src);
    NextPrev(c.n, msg.src);
    if other.src == msg.src && MsgKey(other) == MsgKey(msg) {
      ArrivingKey(c, s, msg, other.src, other.m, other.g, other.step);
    }
  }

  lemma ArriveSlot<V>(c: Config<V>, s: State<V>, msg: Msg<V>, q: nat, key: RecvKey)
    requires c.Valid() && Inv(c, s) && Enabled(c, s, Arrive(msg)) && StateShaped(c, Apply(c, s, Arrive(msg)))
    requires q < c.n && key in Apply(c, s, Arrive(msg)).ranks[q].slots
    ensures SlotOk(c, Apply(c, s, Arrive(msg)), q, key)
  {
    var s' := Apply(c, s, Arrive(msg));
    var r := Next(c.n, msg.src);
    assert FlightOk(c, s, msg);
    ArriveEffect(c, s, msg);
    ArriveCounted(c, s, s', msg);
    NextPrev(c.n, msg.src);
    KeyFields(msg.src, msg.step, msg.g % 2, msg.m);
    RecentPhase(c, s, msg.src, msg.m, msg.g, msg.step);
    PhaseOfKey(s.ranks[r].g, msg.g, msg.src, msg.step, msg.m);
    if q == r && key == MsgKey(msg) {
      ArriveOutstanding(c, s, s', msg, false, msg.src, msg.m, msg.g, msg.step);
    } else {
      assert SlotOk(c, s, q, key);
      match s.ranks[q].slots[key]
      case Pending(owner, _) =>
      case Early(_) =>
        ArriveOutstanding(c, s, s', msg, MsgKey(msg) in s.ranks[r].slots,
                          Prev(c.n, q), key.microChunk, PhaseOf(s.ranks[q].g, key), key.step);
        NextPrev(c.n, q);
    }
  }

  lemma ArriveWaiter<V>(c: Config<V>, s: State<V>, s': State<V>, msg: Msg<V>, q: nat, k: nat)
    requires c.Valid() && StateShaped(c, s) && StateShaped(c, s') && msg.src < c.n && msg.m < 256 && msg.step + 1 < c.n
    requires ArriveDone(c, s, s', msg) && q < c.n && k < |s.ranks[q].chains| && WaiterOk(c, s, q, k)
    ensures k < |s'.ranks[q].chains| && WaiterOk(c, s', q, k)
  {
    var rk := s.ranks[q];
    MicrosFit(c, rk.g);
    NextPrev(c.n, msg.src);
    KeyFields(msg.src, msg.step, msg.g % 2, msg.m);
    if q == Next(c.n, msg.src) {
      KeyFields(Prev(c.n, q), rk.chains[k].done, rk.g % 2, k);
    }
  }

  lemma ArriveMessages<V>(c: Config<V>, s: State<V>, msg: Msg<V>)
    requires c.Valid() && Inv(c, s) && Enabled(c, s, Arrive(msg)) && StateShaped(c, Apply(c, s, Arrive(msg)))
    ensures Messages(c, Apply(c, s, Arrive(msg)))
  {
    var s' := Apply(c, s, Arrive(msg));
    ArriveEffect(c, s, msg);
    assert FlightOk(c, s, msg);
    MicrosFit(c, msg.g);
    forall src: nat, m: nat, g: nat, step: nat ensures Somewhere(c, s', src, m, g, step) {
      if Outstanding(c, s, src, m, g, step) && Next(c.n, src) == Next(c.n, msg.src) && ChainKey(src, step, g % 2, m) == MsgKey(msg) {
        ArrivingKey(c, s, msg, src, m, g, step);
      }
      assert Somewhere(c, s, src, m, g, step);
      ArriveSomewhere(c, s, s', msg, src, m, g, step);
    }
    forall other | other in s'.net ensures FlightOk(c, s', other) {
      ArriveFlight(c, s, msg, other);
    }
    forall q, k | 0 <= q < c.n && 0 <= k < |s'.ranks[q].chains| ensures WaiterOk(c, s', q, k) {
      assert WaiterOk(c, s, q, k);
      ArriveWaiter(c, s, s', msg, q, k);
    }
    forall q, key | 0 <= q < c.n && key in s'.ranks[q].slots ensures SlotOk(c, s', q, key) {
      ArriveSlot(c, s, msg, q, key);
    }
  }

  // ----- every event, every run -----

  lemma StepPreserves<V>(c: Config<V>, s: State<V>, e: Event<V>)
    requires c.Valid() && Inv(c, s) && Enabled(c, s, e)
    ensures Inv(c, Apply(c, s, e))
  {
    match e
    case Post(r, m) => PostInv(c, s, r, m);
    case Arrive(msg) => ArriveInv(c, s, msg);
    case _ => QuietInv(c, s, e);
  }

  lemma RanksShaped<V>(c: Config<V>, s: State<V>)
    requires c.Valid() && Ranks(c, s)
    ensures StateShaped(c, s)
  {
    forall r | 0 <= r < c.n ensures Shaped(c, s.ranks[r]) {
      assert RankOk(c, r, s.ranks[r]);
    }
  }

  lemma PostInv<V>(c: Config<V>, s: State<V>, r: nat, m: nat)
    requires c.Valid() && Inv(c, s) && Enabled(c, s, Post(r, m))
    ensures Inv(c, Apply(c, s, Post(r, m)))
  {
    PostRank(c, s, r, m);
    RanksShaped(c, Apply(c, s, Post(r, m)));
    PostLinks(c, s, r, m);
    PostMessages(c, s, r, m);
  }

  lemma ArriveInv<V>(c: Config<V>, s: State<V>, msg: Msg<V>)
    requires c.Valid() && Inv(c, s) && Enabled(c, s, Arrive(msg))
    ensures Inv(c, Apply(c, s, Arrive(msg)))
  {
    ArriveRank(c, s, msg);
    RanksShaped(c, Apply(c, s, Arrive(msg)));
    ArriveLinks(c, s, msg);
    ArriveMessages(c, s, msg);
  }

  lemma QuietInv<V>(c: Config<V>, s: State<V>, e: Event<V>)
    requires c.Valid() && Inv(c, s) && Enabled(c, s, e) && !e.Post? && !e.Arrive?
    ensures Inv(c, Apply(c, s, e))
  {
    QuietRanks(c, s, e);
    RanksShaped(c, Apply(c, s, e));
    QuietEvent(c, s, e);
    QuietNetwork(c, s, e);
    QuietStep(c, s, Apply(c, s, e));
  }

  /** Only posts and arrivals touch the wire and the slots. */
  lemma QuietNetwork<V>(c: Config<V>, s: State<V>, e: Event<V>)
    requires c.Valid() && Inv(c, s) && Enabled(c, s, e) && !e.Post? && !e.Arrive?
    ensures var s' := Apply(c, s, e);
      s'.net == s.net && |s'.ranks| == c.n && forall r :: 0 <= r < c.n ==> s'.ranks[r].slots == s.ranks[r].slots
  {
  }

  lemma QuietRanks<V>(c: Config<V>, s: State<V>, e: Event<V>)
    requires c.Valid() && Inv(c, s) && Enabled(c, s, e) && !e.Post? && !e.Arrive?
    ensures Ranks(c, Apply(c, s, e))
  {
    assert RankOk(c, e.r, s.ranks[e.r]);
    match e
    case Launch(r) => LaunchRank(c, r, s.ranks[r]);
    case SendDone(r, m) => SendDoneRank(c, r, s.ranks[r], m);
    case Advance(r, m) => AdvanceRank(c, r, s.ranks[r], m);
    case EndPhase(r) => EndPhaseRank(c, r, s.ranks[r]);
  }

  lemma QuietPhaseEnd<V>(c: Config<V>, r: nat, rk: Rank<V>, m: nat)
    requires c.Valid() && r < c.n && RankOk(c, r, rk) && rk.g < 2 * |c.calls|
    requires forall k :: 0 <= k < |rk.chains| ==> rk.chains[k].done + 1 == c.n
    ensures QuietRank(c, rk, NextPhase(c, r, rk), m)
  {
    var rk' := NextPhase(c, r, rk);
    EndPhaseRank(c, r, rk);
    assert Ticks(c, m, rk.g + 1) == Ticks(c, m, rk.g) + (if m < c.Micros(rk.g) then c.n - 1 else 0);
    FreshPhase(c, r, rk, m);
  }

  /** The chains of a new phase are idle. */
  lemma FreshPhase<V>(c: Config<V>, r: nat, rk: Rank<V>, m: nat)
    ensures var rk' := NextPhase(c, r, rk); m < |rk'.chains| ==> rk'.chains[m].done == 0 && !rk'.chains[m].busy
  {
  }

  lemma QuietChain<V>(c: Config<V>, rk: Rank<V>, m: nat, ch: Chain<V>, k: nat)
    requires c.n >= 1 && m < |rk.chains|
    requires var was := rk.chains[m];
      || (ch.done == was.done && ch.busy == was.busy && ch.recvDone == was.recvDone)
      || (was.busy && was.recvDone && ch.done == was.done + 1 && !ch.busy)
    ensures QuietRank(c, rk, rk.(chains := rk.chains[m := ch]), k)
  {
  }

  lemma QuietMove<V>(c: Config<V>, r: nat, rk: Rank<V>, rk': Rank<V>, e: Event<V>, m: nat)
    requires c.Valid() && r < c.n && RankOk(c, r, rk)
    requires match e
      case Launch(_) => rk' == rk.(launched := rk.launched + 1)
      case SendDone(_, k) => k < |rk.chains| && rk' == rk.(chains := rk.chains[k := rk.chains[k].(sendDone := true)])
      case Advance(_, k) =>
        && k < |rk.chains| && rk.chains[k].busy && rk.chains[k].recvDone && rk.chains[k].done + 1 < c.n
        && rk' == rk.(chains := rk.chains[k := FinishStep(c, r, rk.g % 2, rk.chains[k])])
      case EndPhase(_) =>
        && rk.g < 2 * |c.calls| && (forall k :: 0 <= k < |rk.chains| ==> rk.chains[k].done + 1 == c.n)
        && rk' == NextPhase(c, r, rk)
      case _ => false
    ensures QuietRank(c, rk, rk', m)
  {
    match e
    case Launch(_) =>
    case SendDone(_, k) => QuietChain(c, rk, k, rk'.chains[k], m);
    case Advance(_, k) => QuietChain(c, rk, k, rk'.chains[k], m);
    case EndPhase(_) => QuietPhaseEnd(c, r, rk, m);
  }

  lemma QuietEvent<V>(c: Config<V>, s: State<V>, e: Event<V>)
    requires c.Valid() && Inv(c, s) && Enabled(c, s, e) && !e.Post? && !e.Arrive?
    requires StateShaped(c, Apply(c, s, e))
    ensures var s' := Apply(c, s, e);
      forall r: nat, m: nat :: r < c.n ==> Quiet(c, s, s', r, m)
  {
    var s' := Apply(c, s, e);
    assert RankOk(c, e.r, s.ranks[e.r]);
    forall m: nat ensures QuietRank(c, s.ranks[e.r], s'.ranks[e.r], m) {
      QuietMove(c, e.r, s.ranks[e.r], s'.ranks[e.r], e, m);
    }
  }

  lemma FlightIsOutstanding<V>(c: Config<V>, s: State<V>, msg: Msg<V>)
    requires c.Valid() && Inv(c, s)
    ensures msg in s.net ==> Outstanding(c, s, msg.src, msg.m, msg.g, msg.step)
  {
    if msg in s.net {
      assert FlightOk(c, s, msg);
    }
  }

  lemma InitRankOk<V>(c: Config<V>, r: nat)
    requires c.Valid() && r < c.n
    ensures RankOk(c, r, InitRank(c, r))
    ensures forall m :: 0 <= m < |InitRank(c, r).chains| ==> InitRank(c, r).chains[m].done == 0 && !InitRank(c, r).chains[m].busy
  {
    CallStarts(c, r, 0);
    FreshRank(c, r, InitRank(c, r));
  }

  lemma InitInv<V>(c: Config<V>)
    requires c.Valid()
    ensures Inv(c, Init(c))
  {
    var s := Init(c);
    forall r | 0 <= r < c.n
      ensures s.ranks[r] == InitRank(c, r) && RankOk(c, r, s.ranks[r])
      ensures forall m :: 0 <= m < |s.ranks[r].chains| ==> s.ranks[r].chains[m].done == 0 && !s.ranks[r].chains[m].busy
    {
      InitRankOk(c, r);
    }
    assert forall src: nat, m: nat, g: nat, step: nat :: !Outstanding(c, s, src, m, g, step);
  }

  /** Every state of every run satisfies the invariant. */
  lemma {:induction false} RunInv<V>(c: Config<V>, states: seq<State<V>>, events: seq<Event<V>>, i: nat)
    requires c.Valid() && IsRun(c, states, events) && i < |states|
    ensures Inv(c, states[i])
  {
    if i == 0 {
      InitInv(c);
    } else {
      RunInv(c, states, events, i - 1);
      StepPreserves(c, states[i - 1], events[i - 1]);
    }
  }
}
