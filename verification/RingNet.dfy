/** `n` ranks running back-to-back pipelined ring allreduces over an asynchronous network.

    Every rank owns one row of `n` chunks per micro-chunk chain; a chain step posts one send and one
    receive together, waits for both, then reduces (phase 0) or has already stored the chunk in place
    (phase 1). Steps of different ranks and chains interleave freely, messages are delivered in any
    order, and a send may complete before or after its delivery. The plain ring of `ring.rs` is the
    instance whose calls have one micro-chunk. */
module RingNet {
  import opened RingIndex
  import opened RingLocal
  import opened Wire
  import opened RouterSlots

  /** One allreduce call: every call brings its own division of the buffer and, rank by rank, its own
      window. `input[rank][m][c]` is chunk `c` of micro-chunk `m` that `rank` passes. */
  datatype Call<V> = Call(micros: nat, window: seq<nat>, input: seq<seq<seq<V>>>)
  {
    /** What `pipelined_ring` accepts from all of `n` ranks. */
    ghost predicate Valid(n: nat) {
      && 1 <= micros <= 255
      && |window| == n && (forall r :: 0 <= r < n ==> window[r] >= 1)
      && |input| == n && (forall r :: 0 <= r < n ==> RowsOk(n, input[r]))
    }

    ghost predicate RowsOk(n: nat, rows: seq<seq<V>>) {
      && |rows| == micros
      && (forall m :: 0 <= m < micros ==> |rows[m]| == n)
    }
  }

  datatype Config<!V> = Config(n: nat, op: (V, V) -> V, calls: seq<Call<V>>, blank: V)
  {
    /** Any sequence of accepted calls, for more than one rank. */
    ghost predicate Accepted() {
      && 2 <= n
      && (forall k :: 0 <= k < |calls| ==> calls[k].Valid(n))
    }

    /** Moreover, rank numbers a key can hold. */
    ghost predicate Valid() { Accepted() && n <= 0x1_0000 }

    /** The chains of phase `g`, and none once every call has returned. */
    function Micros(g: nat): nat { if g < 2 * |calls| then calls[g / 2].micros else 0 }

    function Window(g: nat, rank: nat): nat
    {
      if g < 2 * |calls| && rank < |calls[g / 2].window| then calls[g / 2].window[rank] else 1
    }
  }

  /** One micro-chunk chain: steps completed in this phase, and while a step is outstanding (`busy`)
      which halves of the join are done. `sent` records what the send half was posted with. */
  datatype Chain<V> = Chain(done: nat, busy: bool, sendDone: bool, recvDone: bool, row: seq<V>, tmp: V, sent: V)

  /** `g` counts phases over all calls: call `g / 2`, phase `g % 2`. */
  datatype Rank<V> = Rank(g: nat, launched: nat, chains: seq<Chain<V>>, slots: Slots<V>, results: seq<seq<seq<V>>>)

  datatype Msg<V> = Msg(src: nat, m: nat, g: nat, step: nat, payload: V)

  datatype State<V(==)> = State(ranks: seq<Rank<V>>, net: set<Msg<V>>)

  datatype Event<V> =
    | Launch(r: nat)
    | Post(r: nat, m: nat)
    | SendDone(r: nat, m: nat)
    | Arrive(msg: Msg<V>)
    | Advance(r: nat, m: nat)
    | EndPhase(r: nat)

  function MsgKey<V>(msg: Msg<V>): RecvKey { ChainKey(msg.src, msg.step, msg.g % 2, msg.m) }

  // ----- launch window -----

  /** Chains pushed and not yet returned by `FuturesUnordered::next`. */
  function Open<V>(c: Config<V>, chains: seq<Chain<V>>, launched: nat): nat
    requires launched <= |chains|
  {
    if launched == 0 then 0
    else Open(c, chains, launched - 1) + (if chains[launched - 1].done + 1 < c.n then 1 else 0)
  }

  /** The rank is suspended in `chains.next().await`: everything is pushed, or the window is full. */
  predicate Awaiting<V>(c: Config<V>, rank: nat, rk: Rank<V>)
    requires rk.launched <= |rk.chains|
  {
    rk.launched == |rk.chains| || Open(c, rk.chains, rk.launched) >= c.Window(rk.g, rank)
  }

  // ----- one rank -----

  predicate Shaped<V>(c: Config<V>, rk: Rank<V>) {
    && rk.g <= 2 * |c.calls|
    && |rk.chains| == c.Micros(rk.g)
    && rk.launched <= |rk.chains|
    && (forall m :: 0 <= m < |rk.chains| ==> |rk.chains[m].row| == c.n && rk.chains[m].done < c.n)
    && (forall m :: 0 <= m < |rk.chains| && rk.chains[m].busy ==> rk.chains[m].done + 1 < c.n)
  }

  predicate StateShaped<V>(c: Config<V>, s: State<V>) {
    && |s.ranks| == c.n
    && (forall r :: 0 <= r < c.n ==> Shaped(c, s.ranks[r]))
  }

  function FreshChain<V>(row: seq<V>, tmp: V): Chain<V> { Chain(0, false, false, false, row, tmp, tmp) }

  /** The chains at the start of a phase: the rows they work on and their scratch buffers. */
  function FreshChains<V>(rows: seq<seq<V>>, tmps: seq<V>): (chains: seq<Chain<V>>)
    requires |tmps| == |rows|
    ensures |chains| == |rows| && forall m :: 0 <= m < |rows| ==> chains[m] == FreshChain(rows[m], tmps[m])
  {
    seq(|rows|, m requires 0 <= m < |rows| => FreshChain(rows[m], tmps[m]))
  }

  /** The first poll of the receive half: take an early message or register the key. */
  function PollReceive<V>(c: Config<V>, rank: nat, m: nat, rk: Rank<V>): Rank<V>
    requires Shaped(c, rk) && rank < c.n && m < |rk.chains| && rk.chains[m].done + 1 < c.n
  {
    var ch := rk.chains[m];
    var key := ChainKey(Prev(c.n, rank), ch.done, rk.g % 2, m);
    var (slots, early) := TakeEarly(rk.slots, key);
    match early
    case Some(bytes) => rk.(slots := slots, chains := rk.chains[m := Receive(c, rank, rk.g % 2, ch, bytes)])
    case None => rk.(slots := RegisterPending(slots, key, m, m))
  }

  /** Bytes reach a chain's target: the scratch buffer in phase 0, the chunk itself in phase 1. */
  function Receive<V>(c: Config<V>, rank: nat, phase: nat, ch: Chain<V>, bytes: V): Chain<V>
    requires rank < c.n && ch.done + 1 < c.n && |ch.row| == c.n
  {
    if phase == 0 then ch.(recvDone := true, tmp := bytes)
    else ch.(recvDone := true, row := StoreStep(c.n, rank, ch.done, ch.row, bytes))
  }

  /** After the join: the local reduce of phase 0, nothing more in phase 1. */
  function FinishStep<V>(c: Config<V>, rank: nat, phase: nat, ch: Chain<V>): Chain<V>
    requires rank < c.n && ch.done + 1 < c.n && |ch.row| == c.n
  {
    var row := if phase == 0 then ReduceStep(c.op, c.n, rank, ch.done, ch.row, ch.tmp) else ch.row;
    ch.(done := ch.done + 1, busy := false, sendDone := false, recvDone := false, row := row)
  }

  function Rows<V>(chains: seq<Chain<V>>): seq<seq<V>> { seq(|chains|, m requires 0 <= m < |chains| => chains[m].row) }

  /** The `while let` drain of a phase ended. The allgather goes on with the same rows and scratch buffers;
      after it the call returns the buffer, and the next call brings its own and allocates new scratch. */
  function NextPhase<V>(c: Config<V>, rank: nat, rk: Rank<V>): Rank<V>
  {
    if rk.g % 2 == 0 then Rank(rk.g + 1, 0, FreshChains(Rows(rk.chains), Tmps(rk.chains)), rk.slots, rk.results)
    else Rank(rk.g + 1, 0, CallChains(c, rank, rk.g + 1), rk.slots, rk.results + [Rows(rk.chains)])
  }

  function Tmps<V>(chains: seq<Chain<V>>): (tmps: seq<V>)
    ensures |tmps| == |chains|
  {
    seq(|chains|, m requires 0 <= m < |chains| => chains[m].tmp)
  }

  /** The chains a call starts with. */
  function CallChains<V>(c: Config<V>, rank: nat, g: nat): seq<Chain<V>>
  {
    if g < 2 * |c.calls| && rank < |c.calls[g / 2].input| then
      var rows := c.calls[g / 2].input[rank];
      FreshChains(rows, seq(|rows|, _ => c.blank))
    else []
  }

  // ----- the whole system -----

  function InitRank<V>(c: Config<V>, rank: nat): Rank<V> { Rank(0, 0, CallChains(c, rank, 0), map[], []) }

  function Init<V(==)>(c: Config<V>): State<V>
  {
    State(seq(c.n, r requires 0 <= r < c.n => InitRank(c, r)), {})
  }

  /** The chain is pushed and its rank is suspended, so the executor may poll it. */
  predicate Runnable<V>(c: Config<V>, s: State<V>, r: nat, m: nat)
    requires StateShaped(c, s)
  {
    && r < c.n
    && m < s.ranks[r].launched
    && s.ranks[r].chains[m].done + 1 < c.n
    && Awaiting(c, r, s.ranks[r])
  }

  ghost predicate Enabled<V>(c: Config<V>, s: State<V>, e: Event<V>)
    requires c.Valid() && StateShaped(c, s)
  {
    match e
    case Launch(r) => r < c.n && !Awaiting(c, r, s.ranks[r])
    case Post(r, m) => Runnable(c, s, r, m) && !s.ranks[r].chains[m].busy
    case SendDone(r, m) =>
      r < c.n && m < |s.ranks[r].chains| && s.ranks[r].chains[m].busy && !s.ranks[r].chains[m].sendDone
    case Arrive(msg) => msg in s.net && msg.src < c.n
    case Advance(r, m) =>
      && Runnable(c, s, r, m)
      && s.ranks[r].chains[m].busy && s.ranks[r].chains[m].sendDone && s.ranks[r].chains[m].recvDone
    case EndPhase(r) =>
      && r < c.n
      && s.ranks[r].g < 2 * |c.calls|
      && s.ranks[r].launched == |s.ranks[r].chains|
      && (forall m :: 0 <= m < |s.ranks[r].chains| ==> s.ranks[r].chains[m].done + 1 == c.n)
  }

  /** Post the send, then poll the receive: the first poll of the join does both. */
  ghost function PostStep<V>(c: Config<V>, s: State<V>, r: nat, m: nat): State<V>
    requires c.Valid() && StateShaped(c, s) && Enabled(c, s, Post(r, m))
  {
    var rk := s.ranks[r];
    var ch := rk.chains[m];
    var payload := ch.row[SendIdx(c.n, r, rk.g % 2, ch.done)];
    var posted := rk.(chains := rk.chains[m := ch.(busy := true, sent := payload)]);
    State(s.ranks[r := PollReceive(c, r, m, posted)], s.net + {Msg(r, m, rk.g, ch.done, payload)})
  }

  /** The dispatcher takes one message off the wire. A `Filled` outcome finds the chain by the slot's
      owner, as the source does through the pointers stored in the slot. */
  ghost function ArriveStep<V>(c: Config<V>, s: State<V>, msg: Msg<V>): State<V>
    requires c.Valid() && StateShaped(c, s) && msg.src < c.n
  {
    var r := Next(c.n, msg.src);
    var rk := s.ranks[r];
    var (slots, outcome) := Deliver(rk.slots, MsgKey(msg), msg.payload);
    var chains :=
      if outcome.Filled? && outcome.owner < |rk.chains| && rk.chains[outcome.owner].done + 1 < c.n
      then rk.chains[outcome.owner := Receive(c, r, rk.g % 2, rk.chains[outcome.owner], msg.payload)]
      else rk.chains;
    State(s.ranks[r := rk.(slots := slots, chains := chains)], s.net - {msg})
  }

  ghost function Apply<V>(c: Config<V>, s: State<V>, e: Event<V>): State<V>
    requires c.Valid() && StateShaped(c, s) && Enabled(c, s, e)
  {
    match e
    case Launch(r) => s.(ranks := s.ranks[r := s.ranks[r].(launched := s.ranks[r].launched + 1)])
    case Post(r, m) => PostStep(c, s, r, m)
    case SendDone(r, m) =>
      var rk := s.ranks[r];
      s.(ranks := s.ranks[r := rk.(chains := rk.chains[m := rk.chains[m].(sendDone := true)])])
    case Arrive(msg) => ArriveStep(c, s, msg)
    case Advance(r, m) =>
      var rk := s.ranks[r];
      s.(ranks := s.ranks[r := rk.(chains := rk.chains[m := FinishStep(c, r, rk.g % 2, rk.chains[m])])])
    case EndPhase(r) => s.(ranks := s.ranks[r := NextPhase(c, r, s.ranks[r])])
  }

  /** A run: any finite sequence of enabled events from the initial state. */
  ghost predicate IsRun<V>(c: Config<V>, states: seq<State<V>>, events: seq<Event<V>>)
    requires c.Valid()
  {
    && |states| == |events| + 1
    && states[0] == Init(c)
    && (forall i :: 0 <= i < |events| ==>
          StateShaped(c, states[i]) && Enabled(c, states[i], events[i]) && states[i + 1] == Apply(c, states[i], events[i]))
  }
}
