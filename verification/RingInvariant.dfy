/** What every reachable state of the pipelined ring satisfies.

    Everything rests on two counters per rank and chain, taken over all calls: messages posted and
    messages consumed. A receiver never consumes more than its predecessor posted, and a rank posts at
    most one more than it consumed; going once round the ring bounds how far any two ranks drift apart. */
module RingInvariant {
  import opened RingIndex
  import opened Wire
  import opened RouterSlots
  import opened RingNet
  import opened RingRows

  // ----- counters -----

  /** Steps chain `m` has in all phases before phase `g`; a call with fewer chains gives it none. */
  ghost function Ticks<V>(c: Config<V>, m: nat, g: nat): nat
    requires c.n >= 1
  {
    if g == 0 then 0 else Ticks(c, m, g - 1) + (if m < c.Micros(g - 1) then c.n - 1 else 0)
  }

  lemma TicksMonotone<V>(c: Config<V>, m: nat, g: nat, h: nat)
    requires c.n >= 1 && g <= h
    ensures Ticks(c, m, g) <= Ticks(c, m, h)
    ensures g < h && m < c.Micros(g) ==> Ticks(c, m, g) + (c.n - 1) <= Ticks(c, m, h)
  {
    if g + 1 < h {
      TicksMonotone(c, m, g, h - 1);
    }
  }

  /** Chain 0 exists in every phase of every call. */
  lemma FirstChain<V>(c: Config<V>, g: nat)
    requires c.Valid() && g < 2 * |c.calls|
    ensures c.Micros(g) >= 1
  {
    assert c.calls[g / 2].Valid(c.n);
  }

  ghost function Posted<V>(c: Config<V>, rk: Rank<V>, m: nat): nat
    requires c.n >= 1
  {
    Ticks(c, m, rk.g) +
    if m < |rk.chains| then rk.chains[m].done + (if rk.chains[m].busy then 1 else 0) else 0
  }

  ghost function Consumed<V>(c: Config<V>, rk: Rank<V>, m: nat): nat
    requires c.n >= 1
  {
    Ticks(c, m, rk.g) +
    if m < |rk.chains| then rk.chains[m].done + (if rk.chains[m].busy && rk.chains[m].recvDone then 1 else 0) else 0
  }

  // ----- the invariant, rank by rank -----

  ghost predicate FlagsOk<V>(rk: Rank<V>) {
    forall m :: 0 <= m < |rk.chains| ==> ChainFlags(rk, m)
  }

  ghost predicate ChainFlags<V>(rk: Rank<V>, m: nat)
    requires m < |rk.chains|
  {
    var ch := rk.chains[m];
    && (!ch.busy ==> !ch.sendDone && !ch.recvDone)
    && (m >= rk.launched ==> ch.done == 0 && !ch.busy)
  }

  /** The memory of chain `m`: its row, its scratch buffer and the bytes of its outstanding send. */
  ghost predicate MemoryOk<V>(c: Config<V>, r: nat, rk: Rank<V>, m: nat)
    requires c.Valid() && r < c.n && Shaped(c, rk) && m < |rk.chains|
  {
    var ch := rk.chains[m];
    && RowIs(c, r, m, rk.g, if rk.g % 2 == 1 && ch.busy && ch.recvDone then ch.done + 1 else ch.done, ch.row)
    && (ch.busy ==> ch.sent == Payload(c, r, m, rk.g, ch.done))
    && (ch.busy && ch.recvDone && rk.g % 2 == 0 ==> ch.tmp == Payload(c, Prev(c.n, r), m, rk.g, ch.done))
  }

  /** Every finished call returned the reduced value of every chunk. */
  ghost predicate ResultsOk<V>(c: Config<V>, results: seq<seq<seq<V>>>)
    requires c.Valid()
  {
    && |results| <= |c.calls|
    && (forall k :: 0 <= k < |results| ==> Reduced(c, k, results[k]))
  }

  ghost predicate Reduced<V>(c: Config<V>, call: nat, rows: seq<seq<V>>)
    requires c.Valid() && call < |c.calls|
  {
    && |rows| == c.calls[call].micros
    && (forall m :: 0 <= m < |rows| ==> |rows[m]| == c.n)
    && (forall m, i :: 0 <= m < |rows| && 0 <= i < c.n ==> rows[m][i] == Total(c, call, m, i))
  }

  ghost predicate RankOk<V>(c: Config<V>, r: nat, rk: Rank<V>)
    requires c.Valid() && r < c.n
  {
    && Shaped(c, rk) && FlagsOk(rk)
    && |rk.results| == rk.g / 2 && ResultsOk(c, rk.results)
    && Open(c, rk.chains, rk.launched) <= c.Window(rk.g, r)
    && (forall m :: 0 <= m < |rk.chains| ==> MemoryOk(c, r, rk, m))
  }

  // ----- the invariant, between ranks -----

  /** Message number `step` of phase `g` on chain `m`, posted by `src`, has not been consumed yet. */
  ghost predicate Outstanding<V>(c: Config<V>, s: State<V>, src: nat, m: nat, g: nat, step: nat)
    requires c.Valid() && StateShaped(c, s)
  {
    && src < c.n && g < 2 * |c.calls| && m < c.Micros(g) && step + 1 < c.n
    && Consumed(c, s.ranks[Next(c.n, src)], m) <= Ticks(c, m, g) + step < Posted(c, s.ranks[src], m)
  }

  ghost predicate Linked<V>(c: Config<V>, s: State<V>, r: nat, m: nat)
    requires c.Valid() && StateShaped(c, s) && r < c.n
  {
    Consumed(c, s.ranks[r], m) <= Posted(c, s.ranks[Prev(c.n, r)], m)
  }

  ghost predicate Holds<V>(slots: Slots<V>, key: RecvKey, bytes: V) { key in slots && slots[key] == Early(bytes) }

  /** A message on the wire is outstanding, carries the right bytes and is not also buffered. */
  ghost predicate FlightOk<V>(c: Config<V>, s: State<V>, msg: Msg<V>)
    requires c.Valid() && StateShaped(c, s)
  {
    && Outstanding(c, s, msg.src, msg.m, msg.g, msg.step)
    && msg.payload == Payload(c, msg.src, msg.m, msg.g, msg.step)
    && !(MsgKey(msg) in s.ranks[Next(c.n, msg.src)].slots && s.ranks[Next(c.n, msg.src)].slots[MsgKey(msg)].Early?)
  }

  /** The only phase near `g` whose parity a key can name. */
  ghost function PhaseOf(g: nat, key: RecvKey): nat { if g % 2 == key.phase then g else g + 1 }

  ghost predicate SlotOk<V>(c: Config<V>, s: State<V>, r: nat, key: RecvKey)
    requires c.Valid() && StateShaped(c, s) && r < c.n && key in s.ranks[r].slots
  {
    var rk := s.ranks[r];
    match rk.slots[key]
    case Pending(owner, _) =>
      && owner < |rk.chains| && rk.chains[owner].busy && !rk.chains[owner].recvDone
      && key == ChainKey(Prev(c.n, r), rk.chains[owner].done, rk.g % 2, owner)
    case Early(bytes) =>
      var g := PhaseOf(rk.g, key);
      && key == ChainKey(Prev(c.n, r), key.step, g % 2, key.microChunk)
      && Outstanding(c, s, Prev(c.n, r), key.microChunk, g, key.step)
      && bytes == Payload(c, Prev(c.n, r), key.microChunk, g, key.step)
  }

  /** A waiting chain is registered under its own key. */
  ghost predicate WaiterOk<V>(c: Config<V>, s: State<V>, r: nat, m: nat)
    requires c.Valid() && StateShaped(c, s) && r < c.n && m < |s.ranks[r].chains|
  {
    var rk := s.ranks[r];
    var key := ChainKey(Prev(c.n, r), rk.chains[m].done, rk.g % 2, m);
    rk.chains[m].busy && !rk.chains[m].recvDone ==>
      key in rk.slots && rk.slots[key].Pending? && rk.slots[key].owner == m
  }

  /** No message is lost: an outstanding one is on the wire or buffered at its receiver. */
  ghost predicate Somewhere<V>(c: Config<V>, s: State<V>, src: nat, m: nat, g: nat, step: nat)
    requires c.Valid() && StateShaped(c, s)
  {
    Outstanding(c, s, src, m, g, step) ==>
      var bytes := Payload(c, src, m, g, step);
      || Msg(src, m, g, step, bytes) in s.net
      || Holds(s.ranks[Next(c.n, src)].slots, ChainKey(src, step, g % 2, m), bytes)
  }

  ghost predicate Ranks<V>(c: Config<V>, s: State<V>)
    requires c.Valid()
  {
    && |s.ranks| == c.n
    && (forall r :: 0 <= r < c.n ==> RankOk(c, r, s.ranks[r]))
  }

  ghost predicate Links<V>(c: Config<V>, s: State<V>)
    requires c.Valid() && StateShaped(c, s)
  {
    forall r: nat, m: nat :: r < c.n ==> Linked(c, s, r, m)
  }

  ghost predicate Messages<V>(c: Config<V>, s: State<V>)
    requires c.Valid() && StateShaped(c, s)
  {
    && (forall msg :: msg in s.net ==> FlightOk(c, s, msg))
    && (forall r, key :: 0 <= r < c.n && key in s.ranks[r].slots ==> SlotOk(c, s, r, key))
    && (forall r, m :: 0 <= r < c.n && 0 <= m < |s.ranks[r].chains| ==> WaiterOk(c, s, r, m))
    && (forall src, m, g, step :: Somewhere(c, s, src, m, g, step))
  }

  ghost predicate Inv<V>(c: Config<V>, s: State<V>)
    requires c.Valid()
  {
    && Ranks(c, s)
    && StateShaped(c, s)
    && Links(c, s)
    && Messages(c, s)
  }

  // ----- drift -----

  /** `h` ranks back, at most `h` messages fewer have been posted. */
  lemma PostedHops<V>(c: Config<V>, s: State<V>, r: nat, m: nat, h: nat)
    requires c.Valid() && Ranks(c, s) && StateShaped(c, s) && Links(c, s)
    requires r < c.n && h < c.n
    ensures Posted(c, s.ranks[r], m) <= Posted(c, s.ranks[Back(c.n, r, h)], m) + h
  {
    if h > 0 {
      PostedHops(c, s, r, m, h - 1);
      var q := Back(c.n, r, h - 1);
      assert Linked(c, s, q, m);
      PrevBack(c.n, q);
      assert Prev(c.n, q) == Back(c.n, r, h);
      assert RankOk(c, q, s.ranks[q]);
      assert m < |s.ranks[q].chains| ==> ChainFlags(s.ranks[q], m);
    }
  }

  /** Any two ranks are at most one phase apart, counting phases over all calls. Chain 0 decides: every
      call has it, whatever its division of the buffer. */
  lemma PhaseSkew<V>(c: Config<V>, s: State<V>, a: nat, b: nat)
    requires c.Valid() && Ranks(c, s) && StateShaped(c, s) && Links(c, s)
    requires a < c.n && b < c.n
    ensures s.ranks[a].g <= s.ranks[b].g + 1
  {
    var g := s.ranks[b].g + 1;
    if s.ranks[a].g > g {
      var p := Prev(c.n, a);
      var h := Distance(c.n, p, b);
      assert RankOk(c, a, s.ranks[a]) && RankOk(c, b, s.ranks[b]);
      assert Linked(c, s, a, 0);
      PostedHops(c, s, p, 0, h);
      PrevBack(c.n, a);
      assert h <= c.n - 2;
      FirstChain(c, g);
      FirstChain(c, g - 1);
      TicksMonotone(c, 0, g, s.ranks[a].g);
    }
  }

  /** An outstanding message belongs to its receiver's phase or the next one. */
  lemma RecentPhase<V>(c: Config<V>, s: State<V>, src: nat, m: nat, g: nat, step: nat)
    requires c.Valid() && Ranks(c, s) && StateShaped(c, s) && Links(c, s) && Outstanding(c, s, src, m, g, step)
    ensures s.ranks[Next(c.n, src)].g <= g <= s.ranks[Next(c.n, src)].g + 1
    ensures g <= s.ranks[src].g
  {
    PhaseSkew(c, s, src, Next(c.n, src));
    NotConsumed(c, s.ranks[Next(c.n, src)], m, g, step);
    AlreadyPosted(c, src, s.ranks[src], m, g, step);
  }

  lemma NotConsumed<V>(c: Config<V>, rk: Rank<V>, m: nat, g: nat, step: nat)
    requires c.n >= 1 && m < c.Micros(g) && step + 1 < c.n && Consumed(c, rk, m) <= Ticks(c, m, g) + step
    ensures rk.g <= g
  {
    if g < rk.g {
      TicksMonotone(c, m, g, rk.g);
    }
  }

  lemma AlreadyPosted<V>(c: Config<V>, r: nat, rk: Rank<V>, m: nat, g: nat, step: nat)
    requires c.Valid() && r < c.n && Shaped(c, rk) && Ticks(c, m, g) + step < Posted(c, rk, m)
    ensures g <= rk.g
  {
    if g > rk.g {
      PostedBound(c, r, rk, m);
      TicksMonotone(c, m, rk.g + 1, g);
    }
  }

  /** A rank has posted nothing of the phases after its own. */
  lemma PostedBound<V>(c: Config<V>, r: nat, rk: Rank<V>, m: nat)
    requires c.Valid() && r < c.n && Shaped(c, rk)
    ensures Ticks(c, m, rk.g) <= Consumed(c, rk, m) <= Posted(c, rk, m) <= Ticks(c, m, rk.g + 1)
  {
  }
}
