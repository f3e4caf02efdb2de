/** Round-based exchanges over active messages: in each round a rank may send one message and may await
    one, and moves on when both are done. Bruck's allgather and the binomial broadcast are instances.

    Ranks run at their own pace, messages arrive in any order through the router of `RouterSlots`, and
    sends complete at any time after they are posted. The main theorem is that none of this shows: every
    rank always holds what the lockstep execution holds after the same number of rounds. */
module ExchangeNet {
  import opened Wire
  import opened RouterSlots

  /** `dst(r, j)` and `src(r, j)`: whom rank `r` sends to and hears from in round `j`. `payload` is read
      from the sender's memory, `land` writes the bytes into the receiver's. */
  datatype Config<!S, !B> = Config(n: nat, rounds: nat, phase: u8,
                                   dst: (nat, nat) -> Option<nat>, src: (nat, nat) -> Option<nat>,
                                   payload: (nat, nat, S) -> B, land: (nat, nat, S, B) -> S, init: seq<S>)
  {
    /** Sends and receives of a round match one to one, and nobody sends to itself. */
    ghost predicate Matched() {
      && 1 <= n <= 0x1_0000 && rounds <= 0x1_0000 && |init| == n
      && (forall r, j :: 0 <= r < n && 0 <= j < rounds && dst(r, j).Some? ==>
            dst(r, j).value < n && dst(r, j).value != r && src(dst(r, j).value, j) == Some(r))
      && (forall r, j :: 0 <= r < n && 0 <= j < rounds && src(r, j).Some? ==>
            src(r, j).value < n && dst(src(r, j).value, j) == Some(r))
    }

    /** A landing message never touches the region a send of the same rank and round still reads. */
    ghost predicate Apart()
      requires Matched()
    {
      forall r, j :: 0 <= r < n && 0 <= j < rounds && dst(r, j).Some? && src(r, j).Some? ==>
        LandsApart(r, j, Lockstep(this, r, j), payload(src(r, j).value, j, Lockstep(this, src(r, j).value, j)))
    }

    ghost predicate LandsApart(r: nat, j: nat, mem: S, bytes: B) {
      payload(r, j, land(r, j, mem, bytes)) == payload(r, j, mem)
    }
  }

  /** The lockstep execution: all ranks finish round `j - 1` together. */
  ghost function Lockstep<S, B>(c: Config<S, B>, r: nat, j: nat): S
    requires |c.init| == c.n && r < c.n
    decreases j
  {
    if j == 0 then c.init[r]
    else
      var mem := Lockstep(c, r, j - 1);
      match c.src(r, j - 1)
      case None => mem
      case Some(q) => if q < c.n then c.land(r, j - 1, mem, c.payload(q, j - 1, Lockstep(c, q, j - 1))) else mem
  }

  datatype Rank<S, B> = Rank(round: nat, busy: bool, sendDone: bool, recvDone: bool, mem: S, slots: Slots<B>)

  datatype Msg<B> = Msg(src: nat, dst: nat, round: nat, payload: B)

  datatype State<S, B(==)> = State(ranks: seq<Rank<S, B>>, net: set<Msg<B>>)

  datatype Event<B> = Begin(r: nat) | SendDone(r: nat) | Arrive(msg: Msg<B>) | Advance(r: nat)

  function Key<S, B>(c: Config<S, B>, src: nat, round: nat): RecvKey { ChainKey(src, round, c.phase, 0) }

  ghost predicate Enabled<S, B>(c: Config<S, B>, s: State<S, B>, e: Event<B>)
  {
    match e
    case Begin(r) => r < |s.ranks| && s.ranks[r].round < c.rounds && !s.ranks[r].busy
    case SendDone(r) => r < |s.ranks| && s.ranks[r].busy && !s.ranks[r].sendDone
    case Arrive(msg) => msg in s.net && msg.dst < |s.ranks|
    case Advance(r) => r < |s.ranks| && s.ranks[r].busy && s.ranks[r].sendDone && s.ranks[r].recvDone
  }

  /** The first poll of the receive half. */
  ghost function PollReceive<S, B>(c: Config<S, B>, r: nat, rk: Rank<S, B>): Rank<S, B>
  {
    match c.src(r, rk.round)
    case None => rk.(recvDone := true)
    case Some(q) =>
      var key := Key(c, q, rk.round);
      var (slots, early) := TakeEarly(rk.slots, key);
      match early
      case Some(bytes) => rk.(slots := slots, recvDone := true, mem := c.land(r, rk.round, rk.mem, bytes))
      case None => rk.(slots := RegisterPending(slots, key, rk.round, r))
  }

  ghost function Apply<S, B>(c: Config<S, B>, s: State<S, B>, e: Event<B>): State<S, B>
    requires Enabled(c, s, e)
  {
    match e
    case Begin(r) =>
      var rk := s.ranks[r].(busy := true);
      (match c.dst(r, rk.round)
       case None => State(s.ranks[r := PollReceive(c, r, rk.(sendDone := true))], s.net)
       case Some(d) => State(s.ranks[r := PollReceive(c, r, rk)],
                             s.net + {Msg(r, d, rk.round, c.payload(r, rk.round, rk.mem))}))
    case SendDone(r) => s.(ranks := s.ranks[r := s.ranks[r].(sendDone := true)])
    case Arrive(msg) =>
      var rk := s.ranks[msg.dst];
      var (slots, outcome) := Deliver(rk.slots, Key(c, msg.src, msg.round), msg.payload);
      var rk' := if outcome.Filled? then rk.(slots := slots, recvDone := true, mem := c.land(msg.dst, outcome.owner, rk.mem, msg.payload))
                 else rk.(slots := slots);
      State(s.ranks[msg.dst := rk'], s.net - {msg})
    case Advance(r) =>
      s.(ranks := s.ranks[r := s.ranks[r].(round := s.ranks[r].round + 1, busy := false, sendDone := false, recvDone := false)])
  }

  ghost function Init<S, B>(c: Config<S, B>): State<S, B>
  {
    State(seq(|c.init|, r requires 0 <= r < |c.init| => Rank(0, false, false, false, c.init[r], map[])), {})
  }

  ghost predicate IsRun<S, B>(c: Config<S, B>, states: seq<State<S, B>>, events: seq<Event<B>>)
  {
    && |states| == |events| + 1
    && states[0] == Init(c)
    && (forall i :: 0 <= i < |events| ==> Enabled(c, states[i], events[i]) && states[i + 1] == Apply(c, states[i], events[i]))
  }

  // ----- invariant -----

  ghost function Posted<S, B>(rk: Rank<S, B>): nat { rk.round + (if rk.busy then 1 else 0) }

  ghost function Consumed<S, B>(rk: Rank<S, B>): nat { rk.round + (if rk.busy && rk.recvDone then 1 else 0) }

  ghost predicate RankOk<S, B>(c: Config<S, B>, r: nat, rk: Rank<S, B>)
    requires c.Matched() && r < c.n
  {
    && rk.round <= c.rounds && (rk.busy ==> rk.round < c.rounds)
    && (!rk.busy ==> !rk.sendDone && !rk.recvDone)
    && (rk.busy && !rk.recvDone ==> c.src(r, rk.round).Some?)
    && rk.mem == Lockstep(c, r, Consumed(rk))
  }

  /** The message `r` awaits in round `j` has been posted and not consumed. */
  ghost predicate Outstanding<S, B>(c: Config<S, B>, s: State<S, B>, r: nat, j: nat)
    requires c.Matched() && |s.ranks| == c.n
  {
    && r < c.n && j < c.rounds && c.src(r, j).Some?
    && Consumed(s.ranks[r]) <= j < Posted(s.ranks[c.src(r, j).value])
  }

  ghost function Bytes<S, B>(c: Config<S, B>, r: nat, j: nat): B
    requires c.Matched() && r < c.n && j < c.rounds && c.src(r, j).Some?
  {
    c.payload(c.src(r, j).value, j, Lockstep(c, c.src(r, j).value, j))
  }

  ghost predicate Linked<S, B>(c: Config<S, B>, s: State<S, B>, r: nat, j: nat)
    requires c.Matched() && |s.ranks| == c.n && r < c.n && j < c.rounds
  {
    c.src(r, j).Some? && j < Consumed(s.ranks[r]) ==> j < Posted(s.ranks[c.src(r, j).value])
  }

  ghost predicate FlightOk<S, B>(c: Config<S, B>, s: State<S, B>, msg: Msg<B>)
    requires c.Matched() && |s.ranks| == c.n
  {
    && Outstanding(c, s, msg.dst, msg.round) && c.src(msg.dst, msg.round) == Some(msg.src)
    && msg.payload == Bytes(c, msg.dst, msg.round)
    && !(Key(c, msg.src, msg.round) in s.ranks[msg.dst].slots && s.ranks[msg.dst].slots[Key(c, msg.src, msg.round)].Early?)
  }

  ghost predicate SlotOk<S, B>(c: Config<S, B>, s: State<S, B>, r: nat, key: RecvKey)
    requires c.Matched() && |s.ranks| == c.n && r < c.n && key in s.ranks[r].slots
  {
    var j := key.step;
    && j < c.rounds && c.src(r, j).Some? && key == Key(c, c.src(r, j).value, j)
    && match s.ranks[r].slots[key]
       case Pending(owner, _) => owner == j == s.ranks[r].round && s.ranks[r].busy && !s.ranks[r].recvDone
       case Early(bytes) => Outstanding(c, s, r, j) && bytes == Bytes(c, r, j)
  }

  ghost predicate WaiterOk<S, B>(c: Config<S, B>, s: State<S, B>, r: nat)
    requires c.Matched() && |s.ranks| == c.n && r < c.n
  {
    var rk := s.ranks[r];
    rk.busy && !rk.recvDone ==>
      c.src(r, rk.round).Some? &&
      var key := Key(c, c.src(r, rk.round).value, rk.round);
      key in rk.slots && rk.slots[key].Pending?
  }

  ghost predicate Somewhere<S, B>(c: Config<S, B>, s: State<S, B>, r: nat, j: nat)
    requires c.Matched() && |s.ranks| == c.n
  {
    Outstanding(c, s, r, j) ==>
      var q := c.src(r, j).value;
      || Msg(q, r, j, Bytes(c, r, j)) in s.net
      || (Key(c, q, j) in s.ranks[r].slots && s.ranks[r].slots[Key(c, q, j)] == Early(Bytes(c, r, j)))
  }

  ghost predicate Inv<S, B>(c: Config<S, B>, s: State<S, B>)
    requires c.Matched()
  {
    && |s.ranks| == c.n
    && (forall r :: 0 <= r < c.n ==> RankOk(c, r, s.ranks[r]) && WaiterOk(c, s, r))
    && (forall r, j :: 0 <= r < c.n && 0 <= j < c.rounds ==> Linked(c, s, r, j) && Somewhere(c, s, r, j))
    && (forall msg :: msg in s.net ==> FlightOk(c, s, msg))
    && (forall r, key :: 0 <= r < c.n && key in s.ranks[r].slots ==> SlotOk(c, s, r, key))
  }

  lemma KeyNamesRound<S, B>(c: Config<S, B>, q: nat, j: nat, q': nat, j': nat)
    requires q < 0x1_0000 && q' < 0x1_0000 && j < 0x1_0000 && j' < 0x1_0000
    ensures Key(c, q, j) == Key(c, q', j') <==> q == q' && j == j'
    ensures Key(c, q, j).step == j
  {
    ChainKeyInjective(q, j, c.phase, 0, q', j', c.phase, 0);
  }

  lemma InitInv<S, B>(c: Config<S, B>)
    requires c.Matched()
    ensures Inv(c, Init(c))
  {
    var s := Init(c);
    forall r | 0 <= r < c.n ensures RankOk(c, r, s.ranks[r]) && WaiterOk(c, s, r) {
      assert Lockstep(c, r, 0) == c.init[r];
    }
  }

  /** Only what is outstanding, or read, can change: the frame shared by all four events. */
  lemma Framed<S, B>(c: Config<S, B>, s: State<S, B>, s': State<S, B>, r: nat)
    requires c.Matched() && Inv(c, s) && |s'.ranks| == c.n && r < c.n
    requires forall q :: 0 <= q < c.n && q != r ==> s'.ranks[q] == s.ranks[q]
    requires s'.net == s.net && s'.ranks[r].slots == s.ranks[r].slots
    requires Posted(s'.ranks[r]) == Posted(s.ranks[r]) && Consumed(s'.ranks[r]) == Consumed(s.ranks[r])
    requires var a, b := s.ranks[r], s'.ranks[r];
      (a.busy && !a.recvDone <==> b.busy && !b.recvDone) && (a.busy && !a.recvDone ==> a.round == b.round)
    requires RankOk(c, r, s'.ranks[r])
    ensures Inv(c, s')
  {
    forall q | 0 <= q < c.n ensures RankOk(c, q, s'.ranks[q]) && WaiterOk(c, s', q) {
      assert RankOk(c, q, s.ranks[q]) && WaiterOk(c, s, q);
    }
    forall q, j | 0 <= q < c.n && 0 <= j < c.rounds ensures Linked(c, s', q, j) && Somewhere(c, s', q, j) {
      assert Linked(c, s, q, j) && Somewhere(c, s, q, j);
    }
    forall msg | msg in s'.net ensures FlightOk(c, s', msg) {
      assert FlightOk(c, s, msg);
    }
    forall q, key | 0 <= q < c.n && key in s'.ranks[q].slots ensures SlotOk(c, s', q, key) {
      assert SlotOk(c, s, q, key);
    }
  }

  /** A rank whose first poll is about to happen has no entry under its key unless the message came early. */
  lemma IdleNotPending<S, B>(c: Config<S, B>, s: State<S, B>, r: nat)
    requires c.Matched() && Inv(c, s) && Enabled(c, s, Begin(r)) && c.src(r, s.ranks[r].round).Some?
    ensures var key := Key(c, c.src(r, s.ranks[r].round).value, s.ranks[r].round);
      key in s.ranks[r].slots ==>
        s.ranks[r].slots[key] == Early(Bytes(c, r, s.ranks[r].round)) && Outstanding(c, s, r, s.ranks[r].round)
  {
    var j := s.ranks[r].round;
    var key := Key(c, c.src(r, j).value, j);
    KeyNamesRound(c, c.src(r, j).value, j, 0, 0);
    if key in s.ranks[r].slots {
      assert SlotOk(c, s, r, key);
    }
  }

  lemma NextLockstep<S, B>(c: Config<S, B>, r: nat, j: nat)
    requires c.Matched() && r < c.n && j < c.rounds
    ensures c.src(r, j).None? ==> Lockstep(c, r, j + 1) == Lockstep(c, r, j)
    ensures c.src(r, j).Some? ==> Lockstep(c, r, j + 1) == c.land(r, j, Lockstep(c, r, j), Bytes(c, r, j))
  {
  }

  /** The rank that begins a round, after its first poll. */
  ghost predicate Begun<S, B>(c: Config<S, B>, s: State<S, B>, r: nat, b: Rank<S, B>)
    requires c.Matched() && |s.ranks| == c.n && r < c.n && s.ranks[r].round < c.rounds
  {
    var a := s.ranks[r];
    && b.round == a.round && b.busy
    && match c.src(r, a.round)
       case None => b.recvDone && b.slots == a.slots
       case Some(q) =>
         var key := Key(c, q, a.round);
         if key in a.slots then b.recvDone && b.slots == a.slots - {key} && Outstanding(c, s, r, a.round)
         else !b.recvDone && b.slots == a.slots[key := Pending(a.round, Some(r))]
  }

  lemma PollRank<S, B>(c: Config<S, B>, s: State<S, B>, r: nat, rk: Rank<S, B>)
    requires c.Matched() && Inv(c, s) && Enabled(c, s, Begin(r))
    requires rk == s.ranks[r].(busy := true) || rk == s.ranks[r].(busy := true, sendDone := true)
    ensures RankOk(c, r, PollReceive(c, r, rk)) && Begun(c, s, r, PollReceive(c, r, rk))
  {
    assert RankOk(c, r, s.ranks[r]);
    NextLockstep(c, r, rk.round);
    if c.src(r, rk.round).Some? {
      IdleNotPending(c, s, r);
    }
  }

  lemma BeginRank<S, B>(c: Config<S, B>, s: State<S, B>, r: nat)
    requires c.Matched() && Inv(c, s) && Enabled(c, s, Begin(r))
    ensures var s' := Apply(c, s, Begin(r)); var a, b := s.ranks[r], s'.ranks[r];
      && |s'.ranks| == c.n
      && (forall q :: 0 <= q < c.n && q != r ==> s'.ranks[q] == s.ranks[q])
      && RankOk(c, r, b) && Begun(c, s, r, b)
      && s'.net == (if c.dst(r, a.round).Some?
                    then s.net + {Msg(r, c.dst(r, a.round).value, a.round, c.payload(r, a.round, a.mem))} else s.net)
  {
    if c.dst(r, s.ranks[r].round).Some? {
      PollRank(c, s, r, s.ranks[r].(busy := true));
    } else {
      PollRank(c, s, r, s.ranks[r].(busy := true, sendDone := true));
    }
  }

  /** What a begun round makes outstanding, and what it takes. */
  lemma BegunOutstanding<S, B>(c: Config<S, B>, s: State<S, B>, s': State<S, B>, r: nat, q: nat, j: nat)
    requires c.Matched() && |s.ranks| == |s'.ranks| == c.n && r < c.n
    requires forall p :: 0 <= p < c.n && p != r ==> s'.ranks[p] == s.ranks[p]
    requires s.ranks[r].round < c.rounds && !s.ranks[r].busy && Begun(c, s, r, s'.ranks[r])
    requires q < c.n && j < c.rounds ==> Linked(c, s, q, j)
    ensures var round := s.ranks[r].round;
      Outstanding(c, s', q, j) <==>
        || (Outstanding(c, s, q, j) && !(q == r && j == round && s'.ranks[r].recvDone))
        || (j == round && c.dst(r, round) == Some(q))
  {
    var round := s.ranks[r].round;
    assert Posted(s'.ranks[r]) == round + 1 && Posted(s.ranks[r]) == Consumed(s.ranks[r]) == round;
    if q < c.n && j < c.rounds && c.src(q, j).Some? {
      assert c.src(q, j) == Some(r) <==> c.dst(r, j) == Some(q);
    }
  }

  lemma BeginOutstanding<S, B>(c: Config<S, B>, s: State<S, B>, s': State<S, B>, r: nat, q: nat, j: nat)
    requires c.Matched() && Inv(c, s) && Enabled(c, s, Begin(r)) && s' == Apply(c, s, Begin(r))
    ensures |s'.ranks| == c.n
    ensures var round := s.ranks[r].round;
      Outstanding(c, s', q, j) <==>
        || (Outstanding(c, s, q, j) && !(q == r && j == round && s'.ranks[r].recvDone))
        || (j == round && c.dst(r, round) == Some(q))
  {
    BeginRank(c, s, r);
    BegunOutstanding(c, s, s', r, q, j);
  }

  lemma BeginLinked<S, B>(c: Config<S, B>, s: State<S, B>, s': State<S, B>, r: nat, q: nat, j: nat)
    requires c.Matched() && |s.ranks| == |s'.ranks| == c.n && r < c.n && q < c.n && j < c.rounds
    requires forall p :: 0 <= p < c.n && p != r ==> s'.ranks[p] == s.ranks[p]
    requires s.ranks[r].round < c.rounds && !s.ranks[r].busy && Begun(c, s, r, s'.ranks[r])
    requires Linked(c, s, q, j)
    ensures Linked(c, s', q, j)
  {
    if c.src(q, j).Some? && j < Consumed(s'.ranks[q]) {
      assert Posted(s.ranks[c.src(q, j).value]) <= Posted(s'.ranks[c.src(q, j).value]);
      if q == r && j == s.ranks[r].round {
        assert Outstanding(c, s, r, j);
      }
    }
  }

  lemma BegunSomewhere<S, B>(c: Config<S, B>, s: State<S, B>, s': State<S, B>, r: nat, q: nat, j: nat)
    requires c.Matched() && |s.ranks| == |s'.ranks| == c.n && r < c.n && q < c.n && j < c.rounds
    requires forall p :: 0 <= p < c.n && p != r ==> s'.ranks[p] == s.ranks[p]
    requires s.ranks[r].round < c.rounds && Begun(c, s, r, s'.ranks[r])
    requires Outstanding(c, s', q, j) ==>
      || (Outstanding(c, s, q, j) && !(q == r && j == s.ranks[r].round && s'.ranks[r].recvDone))
      || (c.src(q, j) == Some(r) && Msg(r, q, j, Bytes(c, q, j)) in s'.net)
    requires s.net <= s'.net && Somewhere(c, s, q, j)
    ensures Somewhere(c, s', q, j)
  {
    var round := s.ranks[r].round;
    if q == r && c.src(r, round).Some? && c.src(r, j).Some? && j != round {
      KeyNamesRound(c, c.src(r, j).value, j, c.src(r, round).value, round);
    }
  }

  lemma PostedBytes<S, B>(c: Config<S, B>, r: nat, rk: Rank<S, B>, q: nat)
    requires c.Matched() && r < c.n && RankOk(c, r, rk) && !rk.busy && rk.round < c.rounds && c.dst(r, rk.round) == Some(q)
    ensures q < c.n && c.src(q, rk.round) == Some(r) && c.payload(r, rk.round, rk.mem) == Bytes(c, q, rk.round)
  {
  }

  lemma BeginSomewhere<S, B>(c: Config<S, B>, s: State<S, B>, r: nat, q: nat, j: nat)
    requires c.Matched() && Inv(c, s) && Enabled(c, s, Begin(r)) && q < c.n && j < c.rounds
    ensures |Apply(c, s, Begin(r)).ranks| == c.n && Somewhere(c, Apply(c, s, Begin(r)), q, j)
  {
    var s' := Apply(c, s, Begin(r));
    BeginRank(c, s, r);
    BeginOutstanding(c, s, s', r, q, j);
    assert RankOk(c, r, s.ranks[r]);
    assert Somewhere(c, s, q, j);
    if c.dst(r, j) == Some(q) && j == s.ranks[r].round {
      PostedBytes(c, r, s.ranks[r], q);
    }
    BegunSomewhere(c, s, s', r, q, j);
  }

  lemma BeginOldFlight<S, B>(c: Config<S, B>, s: State<S, B>, s': State<S, B>, r: nat, msg: Msg<B>)
    requires c.Matched() && Inv(c, s) && Enabled(c, s, Begin(r)) && msg in s.net && s' == Apply(c, s, Begin(r))
    ensures |s'.ranks| == c.n && FlightOk(c, s', msg)
  {
    BeginRank(c, s, r);
    assert FlightOk(c, s, msg);
    KeyNamesRound(c, msg.src, msg.round, 0, 0);
    BeginOutstanding(c, s, s', r, msg.dst, msg.round);
  }

  lemma BeginNewFlight<S, B>(c: Config<S, B>, s: State<S, B>, s': State<S, B>, r: nat, msg: Msg<B>)
    requires c.Matched() && Inv(c, s) && Enabled(c, s, Begin(r)) && s' == Apply(c, s, Begin(r))
    requires c.dst(r, s.ranks[r].round).Some?
    requires msg == Msg(r, c.dst(r, s.ranks[r].round).value, s.ranks[r].round, c.payload(r, s.ranks[r].round, s.ranks[r].mem))
    ensures |s'.ranks| == c.n && FlightOk(c, s', msg)
  {
    BeginRank(c, s, r);
    BeginOutstanding(c, s, s', r, msg.dst, msg.round);
    assert RankOk(c, r, s.ranks[r]);
    NotBuffered(c, s, msg.dst, msg.round);
  }

  lemma BeginFlight<S, B>(c: Config<S, B>, s: State<S, B>, r: nat, msg: Msg<B>)
    requires c.Matched() && Inv(c, s) && Enabled(c, s, Begin(r)) && msg in Apply(c, s, Begin(r)).net
    ensures |Apply(c, s, Begin(r)).ranks| == c.n && FlightOk(c, Apply(c, s, Begin(r)), msg)
  {
    BeginRank(c, s, r);
    if msg in s.net {
      BeginOldFlight(c, s, Apply(c, s, Begin(r)), r, msg);
    } else {
      BeginNewFlight(c, s, Apply(c, s, Begin(r)), r, msg);
    }
  }

  /** A message its sender has not posted yet is not buffered at the receiver. */
  lemma NotBuffered<S, B>(c: Config<S, B>, s: State<S, B>, q: nat, j: nat)
    requires c.Matched() && Inv(c, s) && q < c.n && j < c.rounds && c.src(q, j).Some? && !Outstanding(c, s, q, j)
    ensures var key := Key(c, c.src(q, j).value, j); key in s.ranks[q].slots ==> s.ranks[q].slots[key].Pending?
  {
    var key := Key(c, c.src(q, j).value, j);
    KeyNamesRound(c, c.src(q, j).value, j, 0, 0);
    if key in s.ranks[q].slots {
      assert SlotOk(c, s, q, key);
    }
  }

  lemma BeginSlot<S, B>(c: Config<S, B>, s: State<S, B>, r: nat, q: nat, key: RecvKey)
    requires c.Matched() && Inv(c, s) && Enabled(c, s, Begin(r)) && q < c.n
    requires |Apply(c, s, Begin(r)).ranks| == c.n && key in Apply(c, s, Begin(r)).ranks[q].slots
    ensures SlotOk(c, Apply(c, s, Begin(r)), q, key)
  {
    var s' := Apply(c, s, Begin(r));
    var round := s.ranks[r].round;
    BeginRank(c, s, r);
    if c.src(r, round).Some? {
      KeyNamesRound(c, c.src(r, round).value, round, 0, 0);
    }
    if key in s.ranks[q].slots {
      assert SlotOk(c, s, q, key);
      BeginOutstanding(c, s, s', r, q, key.step);
    }
  }

  lemma BeginInv<S, B>(c: Config<S, B>, s: State<S, B>, r: nat)
    requires c.Matched() && Inv(c, s) && Enabled(c, s, Begin(r))
    ensures Inv(c, Apply(c, s, Begin(r)))
  {
    var s' := Apply(c, s, Begin(r));
    BeginRank(c, s, r);
    forall q | 0 <= q < c.n ensures RankOk(c, q, s'.ranks[q]) && WaiterOk(c, s', q) {
      assert RankOk(c, q, s.ranks[q]) && WaiterOk(c, s, q);
    }
    forall q, j | 0 <= q < c.n && 0 <= j < c.rounds ensures Linked(c, s', q, j) && Somewhere(c, s', q, j) {
      assert Linked(c, s, q, j);
      BeginLinked(c, s, s', r, q, j);
      BeginSomewhere(c, s, r, q, j);
    }
    forall msg | msg in s'.net ensures FlightOk(c, s', msg) {
      BeginFlight(c, s, r, msg);
    }
    forall q, key | 0 <= q < c.n && key in s'.ranks[q].slots ensures SlotOk(c, s', q, key) {
      BeginSlot(c, s, r, q, key);
    }
  }

  // ----- arrivals -----

  /** A message on its way to `msg.dst`, which either waits for exactly this message or is not there yet. */
  ghost predicate Expected<S, B>(c: Config<S, B>, s: State<S, B>, msg: Msg<B>)
    requires c.Matched()
  {
    && |s.ranks| == c.n && msg in s.net && msg.dst < c.n && msg.round < c.rounds && c.src(msg.dst, msg.round).Some?
    && msg.payload == Bytes(c, msg.dst, msg.round)
    && var key := Key(c, msg.src, msg.round); var rk := s.ranks[msg.dst];
       key in rk.slots ==>
         rk.slots[key].Pending? && rk.slots[key].owner == msg.round == rk.round && rk.busy && !rk.recvDone
  }

  /** The receive a message finds registered is the one that waits for it; the duplicate branch is dead. */
  lemma ArriveFinds<S, B>(c: Config<S, B>, s: State<S, B>, msg: Msg<B>)
    requires c.Matched() && Inv(c, s) && msg in s.net
    ensures Expected(c, s, msg)
  {
    assert FlightOk(c, s, msg);
    KeyNamesRound(c, msg.src, msg.round, 0, 0);
    if Key(c, msg.src, msg.round) in s.ranks[msg.dst].slots {
      assert SlotOk(c, s, msg.dst, Key(c, msg.src, msg.round));
    }
  }

  /** The receiver after a delivery. */
  ghost predicate Arrived<S, B>(c: Config<S, B>, a: Rank<S, B>, b: Rank<S, B>, msg: Msg<B>)
  {
    var key := Key(c, msg.src, msg.round);
    && b.round == a.round && b.busy == a.busy && b.sendDone == a.sendDone
    && (if key in a.slots
        then msg.round == a.round && a.busy && !a.recvDone && b.recvDone && b.slots == a.slots - {key}
             && b.mem == c.land(msg.dst, msg.round, a.mem, msg.payload)
        else b.recvDone == a.recvDone && b.slots == a.slots[key := Early(msg.payload)] && b.mem == a.mem)
  }

  lemma ArriveEffect<S, B>(c: Config<S, B>, s: State<S, B>, msg: Msg<B>)
    requires c.Matched() && Expected(c, s, msg)
    ensures var s' := Apply(c, s, Arrive(msg)); var key := Key(c, msg.src, msg.round); var r := msg.dst;
      && |s'.ranks| == c.n && s'.net == s.net - {msg}
      && !Deliver(s.ranks[r].slots, key, msg.payload).1.DroppedBoth?
      && (forall q :: 0 <= q < c.n && q != r ==> s'.ranks[q] == s.ranks[q])
      && Arrived(c, s.ranks[r], s'.ranks[r], msg)
  {
  }

  lemma ArriveLands<S, B>(c: Config<S, B>, a: Rank<S, B>, b: Rank<S, B>, msg: Msg<B>)
    requires c.Matched() && msg.dst < c.n && msg.round < c.rounds && c.src(msg.dst, msg.round).Some?
    requires msg.payload == Bytes(c, msg.dst, msg.round) && RankOk(c, msg.dst, a) && Arrived(c, a, b, msg)
    ensures RankOk(c, msg.dst, b)
  {
    NextLockstep(c, msg.dst, msg.round);
    if Key(c, msg.src, msg.round) in a.slots {
      assert Consumed(a) == a.round && Consumed(b) == a.round + 1;
    } else {
      assert Consumed(b) == Consumed(a);
    }
  }

  lemma ArriveRank<S, B>(c: Config<S, B>, s: State<S, B>, msg: Msg<B>)
    requires c.Matched() && Inv(c, s) && Enabled(c, s, Arrive(msg))
    ensures var s' := Apply(c, s, Arrive(msg)); var key := Key(c, msg.src, msg.round); var r := msg.dst;
      && |s'.ranks| == c.n && r < c.n && s'.net == s.net - {msg}
      && !Deliver(s.ranks[r].slots, key, msg.payload).1.DroppedBoth?
      && (forall q :: 0 <= q < c.n && q != r ==> s'.ranks[q] == s.ranks[q])
      && RankOk(c, r, s'.ranks[r]) && Arrived(c, s.ranks[r], s'.ranks[r], msg)
  {
    ArriveFinds(c, s, msg);
    ArriveEffect(c, s, msg);
    assert RankOk(c, msg.dst, s.ranks[msg.dst]);
    ArriveLands(c, s.ranks[msg.dst], Apply(c, s, Arrive(msg)).ranks[msg.dst], msg);
  }

  lemma ArriveOutstanding<S, B>(c: Config<S, B>, s: State<S, B>, s': State<S, B>, msg: Msg<B>, q: nat, j: nat)
    requires c.Matched() && Inv(c, s) && Enabled(c, s, Arrive(msg)) && s' == Apply(c, s, Arrive(msg))
    ensures |s'.ranks| == c.n && msg.dst < c.n
    ensures Outstanding(c, s', q, j) <==>
      Outstanding(c, s, q, j) &&
      !(q == msg.dst && j == msg.round && Key(c, msg.src, msg.round) in s.ranks[msg.dst].slots)
  {
    ArriveRank(c, s, msg);
  }

  lemma ArriveInv<S, B>(c: Config<S, B>, s: State<S, B>, msg: Msg<B>)
    requires c.Matched() && Inv(c, s) && Enabled(c, s, Arrive(msg))
    ensures Inv(c, Apply(c, s, Arrive(msg)))
  {
    var s' := Apply(c, s, Arrive(msg));
    ArriveRank(c, s, msg);
    forall q | 0 <= q < c.n ensures RankOk(c, q, s'.ranks[q]) && WaiterOk(c, s', q) {
      assert RankOk(c, q, s.ranks[q]);
      ArriveWaiter(c, s, msg, q);
    }
    forall q, j | 0 <= q < c.n && 0 <= j < c.rounds ensures Linked(c, s', q, j) && Somewhere(c, s', q, j) {
      ArrivePair(c, s, msg, q, j);
    }
    forall other | other in s'.net ensures FlightOk(c, s', other) {
      ArriveFlight(c, s, msg, other);
    }
    forall q, key | 0 <= q < c.n && key in s'.ranks[q].slots ensures SlotOk(c, s', q, key) {
      ArriveSlot(c, s, msg, q, key);
    }
  }

  lemma ArriveWaiter<S, B>(c: Config<S, B>, s: State<S, B>, msg: Msg<B>, q: nat)
    requires c.Matched() && Inv(c, s) && Enabled(c, s, Arrive(msg)) && q < c.n
    ensures |Apply(c, s, Arrive(msg)).ranks| == c.n && WaiterOk(c, Apply(c, s, Arrive(msg)), q)
  {
    ArriveRank(c, s, msg);
    assert WaiterOk(c, s, q) && FlightOk(c, s, msg);
    var rk := s.ranks[q];
    if q == msg.dst && rk.busy && !rk.recvDone {
      KeyNamesRound(c, c.src(q, rk.round).value, rk.round, msg.src, msg.round);
    }
  }

  lemma ArrivePair<S, B>(c: Config<S, B>, s: State<S, B>, msg: Msg<B>, q: nat, j: nat)
    requires c.Matched() && Inv(c, s) && Enabled(c, s, Arrive(msg)) && q < c.n && j < c.rounds
    ensures |Apply(c, s, Arrive(msg)).ranks| == c.n
    ensures Linked(c, Apply(c, s, Arrive(msg)), q, j) && Somewhere(c, Apply(c, s, Arrive(msg)), q, j)
  {
    var s' := Apply(c, s, Arrive(msg));
    ArriveRank(c, s, msg);
    ArriveOutstanding(c, s, s', msg, q, j);
    assert Linked(c, s, q, j) && Somewhere(c, s, q, j) && FlightOk(c, s, msg);
    if c.src(q, j).Some? && q == msg.dst {
      KeyNamesRound(c, c.src(q, j).value, j, msg.src, msg.round);
    }
  }

  lemma ArriveFlight<S, B>(c: Config<S, B>, s: State<S, B>, msg: Msg<B>, other: Msg<B>)
    requires c.Matched() && Inv(c, s) && Enabled(c, s, Arrive(msg)) && other in Apply(c, s, Arrive(msg)).net
    ensures |Apply(c, s, Arrive(msg)).ranks| == c.n && FlightOk(c, Apply(c, s, Arrive(msg)), other)
  {
    var s' := Apply(c, s, Arrive(msg));
    ArriveRank(c, s, msg);
    assert FlightOk(c, s, msg) && FlightOk(c, s, other);
    ArriveOutstanding(c, s, s', msg, other.dst, other.round);
    KeyNamesRound(c, other.src, other.round, msg.src, msg.round);
  }

  lemma ArriveSlot<S, B>(c: Config<S, B>, s: State<S, B>, msg: Msg<B>, q: nat, key: RecvKey)
    requires c.Matched() && Inv(c, s) && Enabled(c, s, Arrive(msg)) && q < c.n
    requires |Apply(c, s, Arrive(msg)).ranks| == c.n && key in Apply(c, s, Arrive(msg)).ranks[q].slots
    ensures SlotOk(c, Apply(c, s, Arrive(msg)), q, key)
  {
    var s' := Apply(c, s, Arrive(msg));
    ArriveRank(c, s, msg);
    assert FlightOk(c, s, msg);
    KeyNamesRound(c, msg.src, msg.round, 0, 0);
    ArriveOutstanding(c, s, s', msg, q, key.step);
    if key in s.ranks[q].slots {
      assert SlotOk(c, s, q, key);
    }
  }

  // ----- every run -----

  lemma AdvanceInv<S, B>(c: Config<S, B>, s: State<S, B>, r: nat)
    requires c.Matched() && Inv(c, s) && Enabled(c, s, Advance(r))
    ensures Inv(c, Apply(c, s, Advance(r)))
  {
    assert RankOk(c, r, s.ranks[r]);
    Framed(c, s, Apply(c, s, Advance(r)), r);
  }

  lemma StepPreserves<S, B>(c: Config<S, B>, s: State<S, B>, e: Event<B>)
    requires c.Matched() && Inv(c, s) && Enabled(c, s, e)
    ensures Inv(c, Apply(c, s, e))
  {
    match e
    case Begin(r) => BeginInv(c, s, r);
    case Arrive(msg) => ArriveInv(c, s, msg);
    case Advance(r) => AdvanceInv(c, s, r);
    case SendDone(r) =>
      assert RankOk(c, r, s.ranks[r]);
      Framed(c, s, Apply(c, s, e), r);
  }

  lemma {:induction false} RunInv<S, B>(c: Config<S, B>, states: seq<State<S, B>>, events: seq<Event<B>>, i: nat)
    requires c.Matched() && IsRun(c, states, events) && i < |states|
    ensures Inv(c, states[i])
  {
    if i == 0 {
      InitInv(c);
    } else {
      RunInv(c, states, events, i - 1);
      StepPreserves(c, states[i - 1], events[i - 1]);
    }
  }

  /** Every interleaving refines the lockstep execution: at any moment of any run a rank's memory is its
      lockstep memory after the rounds whose message it has received, what arrives is what the sender's lockstep
      memory posts in that round, and the router drops nothing. */
  lemma AsyncIsLockstep<S, B>(c: Config<S, B>, states: seq<State<S, B>>, events: seq<Event<B>>, i: nat, r: nat)
    requires c.Matched() && IsRun(c, states, events) && i < |states| && r < c.n
    ensures |states[i].ranks| == c.n && states[i].ranks[r].round <= c.rounds
    ensures states[i].ranks[r].mem == Lockstep(c, r, Consumed(states[i].ranks[r]))
    ensures i < |events| && events[i].Arrive? ==>
      var msg := events[i].msg;
      && msg.dst < c.n && !Deliver(states[i].ranks[msg.dst].slots, Key(c, msg.src, msg.round), msg.payload).1.DroppedBoth?
      && msg.src < c.n && msg.round < c.rounds && c.src(msg.dst, msg.round) == Some(msg.src)
      && msg.payload == c.payload(msg.src, msg.round, Lockstep(c, msg.src, msg.round))
  {
    RunInv(c, states, events, i);
    assert RankOk(c, r, states[i].ranks[r]);
    if i < |events| && events[i].Arrive? {
      ArriveRank(c, states[i], events[i].msg);
      assert FlightOk(c, states[i], events[i].msg);
    }
  }

  /** An outstanding send still reads the bytes it was posted with. */
  lemma SendBufferStable<S, B>(c: Config<S, B>, states: seq<State<S, B>>, events: seq<Event<B>>, i: nat, r: nat)
    requires c.Matched() && c.Apart() && IsRun(c, states, events) && i < |states| && r < c.n
    ensures |states[i].ranks| == c.n
    ensures var rk := states[i].ranks[r];
      rk.busy && c.dst(r, rk.round).Some? ==>
        rk.round < c.rounds && c.payload(r, rk.round, rk.mem) == c.payload(r, rk.round, Lockstep(c, r, rk.round))
  {
    RunInv(c, states, events, i);
    var rk := states[i].ranks[r];
    assert RankOk(c, r, rk);
    if rk.busy && rk.recvDone {
      NextLockstep(c, r, rk.round);
      if c.dst(r, rk.round).Some? && c.src(r, rk.round).Some? {
        assert c.LandsApart(r, rk.round, Lockstep(c, r, rk.round), Bytes(c, r, rk.round));
      }
    }
  }

  // ----- progress -----

  /** Behind every unfinished rank some event is enabled that does not need a send to complete before its
      message is delivered; the search moves to the sender waited for, which is in an earlier round. */
  lemma {:induction false} SomethingEnabled<S, B>(c: Config<S, B>, s: State<S, B>, r: nat) returns (e: Event<B>)
    requires c.Matched() && Inv(c, s) && r < c.n && s.ranks[r].round < c.rounds
    ensures Enabled(c, s, e) && (e.SendDone? ==> s.net == {})
    decreases s.ranks[r].round
  {
    var rk := s.ranks[r];
    assert RankOk(c, r, rk) && WaiterOk(c, s, r);
    if s.net != {} {
      var msg :| msg in s.net;
      assert FlightOk(c, s, msg);
      return Arrive(msg);
    }
    if !rk.busy {
      return Begin(r);
    }
    if !rk.sendDone {
      return SendDone(r);
    }
    if rk.recvDone {
      return Advance(r);
    }
    var q := c.src(r, rk.round).value;
    assert Somewhere(c, s, r, rk.round);
    if s.ranks[q].round == rk.round {
      return Begin(q);
    }
    e := SomethingEnabled(c, s, q);
  }

  /** No reachable state with an unfinished rank is a deadlock. */
  lemma NeverDeadlocked<S, B>(c: Config<S, B>, states: seq<State<S, B>>, events: seq<Event<B>>, i: nat, r: nat)
    returns (e: Event<B>)
    requires c.Matched() && IsRun(c, states, events) && i < |states|
    requires r < c.n && r < |states[i].ranks| && states[i].ranks[r].round < c.rounds
    ensures Enabled(c, states[i], e) && (e.SendDone? ==> states[i].net == {})
  {
    RunInv(c, states, events, i);
    e := SomethingEnabled(c, states[i], r);
  }

  /** Every router entry belongs to a rank that has not received everything yet. */
  lemma SlotMeansUnfinished<S, B>(c: Config<S, B>, s: State<S, B>, r: nat, key: RecvKey)
    requires c.Matched() && Inv(c, s) && r < c.n
    ensures key in s.ranks[r].slots ==> s.ranks[r].round < c.rounds
  {
    assert key in s.ranks[r].slots ==> SlotOk(c, s, r, key);
  }

  lemma RouterDrained<S, B>(c: Config<S, B>, s: State<S, B>, r: nat)
    requires c.Matched() && Inv(c, s) && r < c.n && s.ranks[r].round == c.rounds
    ensures s.ranks[r].slots == map[]
  {
    forall key ensures key !in s.ranks[r].slots {
      SlotMeansUnfinished(c, s, r, key);
    }
  }

  lemma NetDrained<S, B>(c: Config<S, B>, s: State<S, B>, msg: Msg<B>)
    requires c.Matched() && Inv(c, s) && msg in s.net
    ensures Enabled(c, s, Arrive(msg))
  {
    assert FlightOk(c, s, msg);
  }

  /** A run that nothing but the completion of sends still on the wire could extend has all ranks through all rounds and no message left anywhere. */
  lemma StuckMeansDone<S, B>(c: Config<S, B>, states: seq<State<S, B>>, events: seq<Event<B>>)
    requires c.Matched() && IsRun(c, states, events)
    requires forall e :: Enabled(c, states[|events|], e) ==> e.SendDone? && states[|events|].net != {}
    ensures var s := states[|events|];
      && |s.ranks| == c.n && s.net == {}
      && (forall r :: 0 <= r < c.n ==>
            s.ranks[r].round == c.rounds && s.ranks[r].mem == Lockstep(c, r, c.rounds) && s.ranks[r].slots == map[])
  {
    var s := states[|events|];
    RunInv(c, states, events, |events|);
    forall r | 0 <= r < c.n ensures s.ranks[r].round == c.rounds && !s.ranks[r].busy {
      assert RankOk(c, r, s.ranks[r]);
      if s.ranks[r].round < c.rounds {
        var e := SomethingEnabled(c, s, r);
      }
    }
    forall msg ensures msg !in s.net {
      if msg in s.net {
        NetDrained(c, s, msg);
      }
    }
    forall r | 0 <= r < c.n ensures s.ranks[r].slots == map[] && s.ranks[r].mem == Lockstep(c, r, c.rounds) {
      assert RankOk(c, r, s.ranks[r]);
      RouterDrained(c, s, r);
    }
  }

  /** Remaining work: four per round still to run, less what has been done of the current one. */
  ghost function Left<S, B>(c: Config<S, B>, rk: Rank<S, B>): int {
    4 * (c.rounds - rk.round) - (if rk.busy then 2 else 0) - (if rk.busy && rk.sendDone then 1 else 0)
  }

  ghost function TotalLeft<S, B>(c: Config<S, B>, ranks: seq<Rank<S, B>>): int {
    if ranks == [] then 0 else TotalLeft(c, ranks[..|ranks| - 1]) + Left(c, ranks[|ranks| - 1])
  }

  lemma TotalUpdate<S, B>(c: Config<S, B>, ranks: seq<Rank<S, B>>, r: nat, rk: Rank<S, B>)
    requires r < |ranks|
    ensures TotalLeft(c, ranks[r := rk]) == TotalLeft(c, ranks) - Left(c, ranks[r]) + Left(c, rk)
  {
    var last := |ranks| - 1;
    var next := ranks[r := rk];
    if r == last {
      assert next[..last] == ranks[..last];
    } else {
      assert next[..last] == ranks[..last][r := rk];
      TotalUpdate(c, ranks[..last], r, rk);
    }
  }

  ghost function Measure<S, B>(c: Config<S, B>, s: State<S, B>): int { TotalLeft(c, s.ranks) + |s.net| }

  lemma BeginLess<S, B>(c: Config<S, B>, s: State<S, B>, r: nat)
    requires c.Matched() && Inv(c, s) && Enabled(c, s, Begin(r))
    ensures Measure(c, Apply(c, s, Begin(r))) < Measure(c, s)
  {
    var s' := Apply(c, s, Begin(r));
    BeginRank(c, s, r);
    TotalUpdate(c, s.ranks, r, s'.ranks[r]);
    assert s'.ranks == s.ranks[r := s'.ranks[r]];
  }

  lemma ArriveLess<S, B>(c: Config<S, B>, s: State<S, B>, msg: Msg<B>)
    requires c.Matched() && Inv(c, s) && Enabled(c, s, Arrive(msg))
    ensures Measure(c, Apply(c, s, Arrive(msg))) < Measure(c, s)
  {
    var s' := Apply(c, s, Arrive(msg));
    ArriveRank(c, s, msg);
    TotalUpdate(c, s.ranks, msg.dst, s'.ranks[msg.dst]);
    assert s'.ranks == s.ranks[msg.dst := s'.ranks[msg.dst]];
  }

  lemma MeasureDecreases<S, B>(c: Config<S, B>, s: State<S, B>, e: Event<B>)
    requires c.Matched() && Inv(c, s) && Enabled(c, s, e)
    ensures Measure(c, Apply(c, s, e)) < Measure(c, s)
  {
    match e
    case Begin(r) => BeginLess(c, s, r);
    case Arrive(msg) => ArriveLess(c, s, msg);
    case _ => TotalUpdate(c, s.ranks, e.r, Apply(c, s, e).ranks[e.r]);
  }

  lemma TotalNonNegative<S, B>(c: Config<S, B>, ranks: seq<Rank<S, B>>)
    requires c.Matched() && |ranks| <= c.n && forall r :: 0 <= r < |ranks| ==> RankOk(c, r, ranks[r])
    ensures TotalLeft(c, ranks) >= 0
  {
    if ranks != [] {
      TotalNonNegative(c, ranks[..|ranks| - 1]);
    }
  }

  lemma OneEventLess<S, B>(c: Config<S, B>, states: seq<State<S, B>>, events: seq<Event<B>>, i: nat)
    requires c.Matched() && IsRun(c, states, events) && i < |events|
    ensures Measure(c, states[i + 1]) < Measure(c, states[i])
  {
    RunInv(c, states, events, i);
    MeasureDecreases(c, states[i], events[i]);
  }

  lemma {:induction false} MeasureAlongRun<S, B>(c: Config<S, B>, states: seq<State<S, B>>, events: seq<Event<B>>, i: nat)
    requires c.Matched() && IsRun(c, states, events) && i < |states|
    ensures i + Measure(c, states[i]) <= Measure(c, Init(c))
  {
    if i > 0 {
      MeasureAlongRun(c, states, events, i - 1);
      OneEventLess(c, states, events, i - 1);
    }
  }

  lemma FreshTotal<S, B>(c: Config<S, B>, ranks: seq<Rank<S, B>>)
    requires forall r :: 0 <= r < |ranks| ==> ranks[r].round == 0 && !ranks[r].busy
    ensures TotalLeft(c, ranks) == 4 * c.rounds * |ranks|
  {
    if ranks != [] {
      FreshTotal(c, ranks[..|ranks| - 1]);
    }
  }

  /** Termination: no run is longer than four events per rank and round. */
  lemma RunsEnd<S, B>(c: Config<S, B>, states: seq<State<S, B>>, events: seq<Event<B>>)
    requires c.Matched() && IsRun(c, states, events)
    ensures |events| <= 4 * c.rounds * c.n
  {
    MeasureAlongRun(c, states, events, |events|);
    RunInv(c, states, events, |events|);
    TotalNonNegative(c, states[|events|].ranks);
    FreshTotal(c, Init(c).ranks);
  }

  // ----- how many messages flow -----

  /** The sends posted so far, as pairs of rank and round. */
  ghost function PostedSends<S, B>(c: Config<S, B>, s: State<S, B>): set<(nat, nat)>
    requires |s.ranks| == c.n
  {
    set r: nat, j: nat | r < c.n && j < Posted(s.ranks[r]) && c.dst(r, j).Some? :: (r, j)
  }

  ghost function AllSends<S, B>(c: Config<S, B>): set<(nat, nat)> {
    set r: nat, j: nat | r < c.n && j < c.rounds && c.dst(r, j).Some? :: (r, j)
  }

  ghost function Arrivals<B>(events: seq<Event<B>>): nat {
    if events == [] then 0 else Arrivals(events[..|events| - 1]) + (if events[|events| - 1].Arrive? then 1 else 0)
  }

  lemma SamePosted<S, B>(c: Config<S, B>, s: State<S, B>, s': State<S, B>)
    requires |s.ranks| == |s'.ranks| == c.n
    requires forall r :: 0 <= r < c.n ==> Posted(s'.ranks[r]) == Posted(s.ranks[r])
    ensures PostedSends(c, s') == PostedSends(c, s)
  {
  }

  lemma BeginPosts<S, B>(c: Config<S, B>, s: State<S, B>, r: nat)
    requires c.Matched() && Inv(c, s) && Enabled(c, s, Begin(r))
    ensures var s' := Apply(c, s, Begin(r));
      |s'.ranks| == c.n && |PostedSends(c, s')| - |PostedSends(c, s)| == |s'.net| - |s.net|
  {
    var s' := Apply(c, s, Begin(r));
    var round := s.ranks[r].round;
    BeginRank(c, s, r);
    if c.dst(r, round).Some? {
      NotYetPosted(c, s, Msg(r, c.dst(r, round).value, round, c.payload(r, round, s.ranks[r].mem)));
      OnePosted(c, s, s', r);
    } else {
      NonePosted(c, s, s', r);
    }
  }

  lemma OnePosted<S, B>(c: Config<S, B>, s: State<S, B>, s': State<S, B>, r: nat)
    requires |s.ranks| == |s'.ranks| == c.n && r < c.n && !s.ranks[r].busy && c.dst(r, s.ranks[r].round).Some?
    requires forall q :: 0 <= q < c.n && q != r ==> s'.ranks[q] == s.ranks[q]
    requires s'.ranks[r].busy && s'.ranks[r].round == s.ranks[r].round
    ensures |PostedSends(c, s')| == |PostedSends(c, s)| + 1
  {
    assert PostedSends(c, s') == PostedSends(c, s) + {(r, s.ranks[r].round)};
    assert (r, s.ranks[r].round) !in PostedSends(c, s);
  }

  lemma NonePosted<S, B>(c: Config<S, B>, s: State<S, B>, s': State<S, B>, r: nat)
    requires |s.ranks| == |s'.ranks| == c.n && r < c.n && !s.ranks[r].busy && c.dst(r, s.ranks[r].round).None?
    requires forall q :: 0 <= q < c.n && q != r ==> s'.ranks[q] == s.ranks[q]
    requires s'.ranks[r].busy && s'.ranks[r].round == s.ranks[r].round
    ensures PostedSends(c, s') == PostedSends(c, s)
  {
  }

  lemma NotYetPosted<S, B>(c: Config<S, B>, s: State<S, B>, msg: Msg<B>)
    requires c.Matched() && Inv(c, s) && msg.src < c.n && Posted(s.ranks[msg.src]) <= msg.round
    ensures msg !in s.net
  {
    assert msg in s.net ==> FlightOk(c, s, msg);
  }

  lemma OneEventPosts<S, B>(c: Config<S, B>, s: State<S, B>, e: Event<B>)
    requires c.Matched() && Inv(c, s) && Enabled(c, s, e)
    ensures var s' := Apply(c, s, e);
      |s'.ranks| == c.n &&
      |PostedSends(c, s')| - |PostedSends(c, s)| == |s'.net| - |s.net| + (if e.Arrive? then 1 else 0)
  {
    match e
    case Begin(r) => BeginPosts(c, s, r);
    case Arrive(msg) =>
      ArriveRank(c, s, msg);
      SamePosted(c, s, Apply(c, s, e));
    case _ => SamePosted(c, s, Apply(c, s, e));
  }

  lemma {:induction false} ArrivalsAlongRun<S, B>(c: Config<S, B>, states: seq<State<S, B>>, events: seq<Event<B>>, i: nat)
    requires c.Matched() && IsRun(c, states, events) && i < |states|
    ensures |states[i].ranks| == c.n
    ensures Arrivals(events[..i]) + |states[i].net| == |PostedSends(c, states[i])|
  {
    if i > 0 {
      ArrivalsAlongRun(c, states, events, i - 1);
      RunInv(c, states, events, i - 1);
      OneEventPosts(c, states[i - 1], events[i - 1]);
      assert events[..i][..i - 1] == events[..i - 1];
    } else {
      assert PostedSends(c, states[0]) == {};
    }
  }

  /** Conservation: every scheduled send is delivered exactly once in a run that cannot continue. */
  lemma EverySendArrives<S, B>(c: Config<S, B>, states: seq<State<S, B>>, events: seq<Event<B>>)
    requires c.Matched() && IsRun(c, states, events)
    requires forall e :: Enabled(c, states[|events|], e) ==> e.SendDone? && states[|events|].net != {}
    ensures Arrivals(events) == |AllSends(c)|
  {
    ArrivalsAlongRun(c, states, events, |events|);
    StuckMeansDone(c, states, events);
    RunInv(c, states, events, |events|);
    var s := states[|events|];
    assert events[..|events|] == events;
    forall r | 0 <= r < c.n ensures Posted(s.ranks[r]) == c.rounds {
      assert RankOk(c, r, s.ranks[r]);
    }
    assert PostedSends(c, s) == AllSends(c);
  }
}
