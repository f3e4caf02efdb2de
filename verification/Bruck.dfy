/** Bruck's allgather: the schedule, the asynchronous protocol, and one rank's in-place loop. */
module Bruck {
  import opened Wire
  import opened RouterSlots
  import opened RingIndex
  import opened RingBuffers
  import opened Doubling
  import X = ExchangeNet
  import R = RingRank

  const PHASE_BRUCK: u8 := 4

  // ----- the schedule -----

  /** `count.min(n - count)`: a full doubling, or what is still missing in a short last round. */
  function ToSend(n: nat, count: nat): nat
    requires count <= n
  {
    if count < n - count then count else n - count
  }

  /** Contributions owned at the start of round `j`. */
  function Count(n: nat, j: nat): (c: nat)
    requires n >= 1
    ensures 1 <= c <= n
  {
    if j == 0 then 1 else Count(n, j - 1) + ToSend(n, Count(n, j - 1))
  }

  function Rounds(n: nat): nat
    requires n >= 1
  {
    BitLen(n - 1)
  }

  lemma {:induction false} CountIsPower(n: nat, j: nat)
    requires n >= 1
    ensures Count(n, j) == if Pow2(j) < n then Pow2(j) else n
  {
    if j > 0 {
      CountIsPower(n, j - 1);
    }
  }

  /** The loop runs exactly `ceil(log2 n)` rounds. */
  lemma RoundsExact(n: nat, j: nat)
    requires n >= 1
    ensures Count(n, j) < n <==> j < Rounds(n)
    ensures n <= Pow2(Rounds(n)) && (n >= 2 ==> Pow2(Rounds(n) - 1) < n)
  {
    CountIsPower(n, j);
    BitLenBounds(n - 1);
    if j < Rounds(n) {
      Pow2Grows(j, Rounds(n) - 1);
    } else {
      Pow2Grows(Rounds(n), j);
    }
  }

  function SendPeer(n: nat, rank: nat, count: nat): (p: nat)
    requires rank < n && count <= n
    ensures p < n
  {
    (rank + n - count) % n
  }

  function Fwd(n: nat, rank: nat, k: nat): (p: nat)
    requires rank < n
    ensures p < n
  {
    (rank + k) % n
  }

  /** `send_peer` and `recv_peer` are inverse to each other and name somebody else. */
  lemma PeersMatch(n: nat, rank: nat, count: nat)
    requires rank < n && 1 <= count < n
    ensures Fwd(n, SendPeer(n, rank, count), count) == rank && SendPeer(n, Fwd(n, rank, count), count) == rank
    ensures SendPeer(n, rank, count) != rank
  {
    ModOnce(n, rank + n - count);
    ModOnce(n, SendPeer(n, rank, count) + count);
    ModOnce(n, rank + count);
    ModOnce(n, Fwd(n, rank, count) + n - count);
  }

  lemma FwdFwd(n: nat, rank: nat, a: nat, b: nat)
    requires rank < n && a + b < n
    ensures Fwd(n, Fwd(n, rank, a), b) == Fwd(n, rank, a + b)
  {
    ModOnce(n, rank + a);
    ModOnce(n, Fwd(n, rank, a) + b);
    ModOnce(n, rank + a + b);
  }

  lemma FwdInjective(n: nat, rank: nat, a: nat, b: nat)
    requires rank < n && a < n && b < n && Fwd(n, rank, a) == Fwd(n, rank, b)
    ensures a == b
  {
    ModOnce(n, rank + a);
    ModOnce(n, rank + b);
  }

  /** Every rank is some number of places ahead. */
  lemma FwdReaches(n: nat, rank: nat, g: nat)
    requires rank < n && g < n
    ensures var k := if rank <= g then g - rank else g + n - rank; k < n && Fwd(n, rank, k) == g
  {
    ModOnce(n, rank + if rank <= g then g - rank else g + n - rank);
  }

  // ----- memory: `n` slots of `l` elements -----

  function Payload<T>(l: nat, m: nat, mem: seq<T>): seq<T> { if m * l <= |mem| then mem[..m * l] else mem }

  function Land<T>(l: nat, count: nat, mem: seq<T>, bytes: seq<T>): seq<T>
  {
    if count * l + |bytes| <= |mem| then mem[..count * l] + bytes + mem[count * l + |bytes|..] else mem
  }

  ghost function SlotAt<T>(n: nat, l: nat, mem: seq<T>, k: nat): (s: seq<T>)
    requires |mem| == n * l && k < n
    ensures |s| == l
  {
    SlotFits(k, n, l);
    RingBuffers.Slot(mem, k, l)
  }

  lemma PayloadSlot<T>(n: nat, l: nat, m: nat, mem: seq<T>, k: nat)
    requires |mem| == n * l && k < m <= n
    ensures |Payload(l, m, mem)| == m * l && SlotAt(m, l, Payload(l, m, mem), k) == SlotAt(n, l, mem, k)
  {
    Scaled(m, n, l);
    SlotFits(k, m, l);
    SlotFits(k, n, l);
    var hi, at := m * l, k * l;
    SliceBelow(mem, mem[..hi], hi, at, l);
  }

  lemma LandLength<T>(n: nat, l: nat, count: nat, m: nat, mem: seq<T>, bytes: seq<T>)
    requires |mem| == n * l && count + m <= n && |bytes| == m * l
    ensures count * l + |bytes| <= |mem| && |Land(l, count, mem, bytes)| == n * l
  {
    Scaled(count + m, n, l);
    assert (count + m) * l == count * l + m * l;
  }

  /** The slot as a slice whose offset has a name. */
  lemma SlotSlice<T>(n: nat, l: nat, mem: seq<T>, k: nat, at: nat)
    requires |mem| == n * l && k < n && at == k * l
    ensures at + l <= |mem| && SlotAt(n, l, mem, k) == mem[at..at + l]
  {
    SlotFits(k, n, l);
  }

  lemma LandKept<T>(n: nat, l: nat, count: nat, m: nat, mem: seq<T>, bytes: seq<T>, k: nat)
    requires |mem| == n * l && count + m <= n && |bytes| == m * l && k < count
    ensures |Land(l, count, mem, bytes)| == n * l
    ensures SlotAt(n, l, Land(l, count, mem, bytes), k) == SlotAt(n, l, mem, k)
  {
    LandLength(n, l, count, m, mem, bytes);
    var lo, at := count * l, k * l;
    SlotFits(k, count, l);
    SlotSlice(n, l, mem, k, at);
    SlotSlice(n, l, Land(l, count, mem, bytes), k, at);
    SliceReplaced(mem, bytes, lo, at, l);
  }

  lemma LandNew<T>(n: nat, l: nat, count: nat, m: nat, mem: seq<T>, bytes: seq<T>, k: nat)
    requires |mem| == n * l && count + m <= n && |bytes| == m * l && count <= k < count + m
    ensures |Land(l, count, mem, bytes)| == n * l
    ensures SlotAt(n, l, Land(l, count, mem, bytes), k) == SlotAt(m, l, bytes, k - count)
  {
    LandLength(n, l, count, m, mem, bytes);
    var lo, at, off := count * l, k * l, (k - count) * l;
    SplitProduct(k, count, l);
    SlotFits(k - count, m, l);
    SlotSlice(m, l, bytes, k - count, off);
    SlotSlice(n, l, Land(l, count, mem, bytes), k, at);
    SliceReplaced(mem, bytes, lo, at, l);
  }

  lemma LandSlot<T>(n: nat, l: nat, count: nat, m: nat, mem: seq<T>, bytes: seq<T>, k: nat)
    requires |mem| == n * l && count + m <= n && |bytes| == m * l && k < count + m
    ensures |Land(l, count, mem, bytes)| == n * l
    ensures SlotAt(n, l, Land(l, count, mem, bytes), k) ==
            if k < count then SlotAt(n, l, mem, k) else SlotAt(m, l, bytes, k - count)
  {
    if k < count {
      LandKept(n, l, count, m, mem, bytes, k);
    } else {
      LandNew(n, l, count, m, mem, bytes, k);
    }
  }

  lemma SplitProduct(k: nat, count: nat, l: nat)
    requires count <= k
    ensures k * l == count * l + (k - count) * l
  {
  }

  /** What is received never reaches the slots that are being sent. */
  lemma LandKeepsPayload<T>(n: nat, l: nat, count: nat, m: nat, mem: seq<T>, bytes: seq<T>)
    requires |mem| == n * l && m <= count && count + m <= n && |bytes| == m * l
    ensures Payload(l, m, Land(l, count, mem, bytes)) == Payload(l, m, mem)
  {
    LandLength(n, l, count, m, mem, bytes);
    Scaled(m, count, l);
    Scaled(m, n, l);
  }

  // ----- the protocol -----

  function To(n: nat, r: nat, j: nat): Option<nat>
  {
    if r < n && Count(n, j) < n then Some(SendPeer(n, r, Count(n, j))) else None
  }

  function From(n: nat, r: nat, j: nat): Option<nat>
  {
    if r < n && Count(n, j) < n then Some(Fwd(n, r, Count(n, j))) else None
  }

  function Sent<T>(n: nat, l: nat, j: nat, mem: seq<T>): seq<T>
    requires n >= 1
  {
    Payload(l, ToSend(n, Count(n, j)), mem)
  }

  ghost function Allgather<T>(n: nat, l: nat, init: seq<seq<T>>): X.Config<seq<T>, seq<T>>
    requires n >= 1
  {
    X.Config(n, Rounds(n), PHASE_BRUCK, (r, j) => To(n, r, j), (r, j) => From(n, r, j),
             (r, j, mem) => Sent(n, l, j, mem), (r, j, mem, bytes) => Land(l, Count(n, j), mem, bytes), init)
  }

  lemma AllgatherMatched<T>(n: nat, l: nat, init: seq<seq<T>>)
    requires 1 <= n <= 0x1_0000 && |init| == n
    ensures Allgather(n, l, init).Matched()
  {
    var c := Allgather(n, l, init);
    BitLenBounds(n - 1);
    forall r, j | 0 <= r < n && 0 <= j < c.rounds
      ensures c.dst(r, j).Some? && c.dst(r, j).value < n && c.dst(r, j).value != r && c.src(c.dst(r, j).value, j) == Some(r)
      ensures c.src(r, j).Some? && c.src(r, j).value < n && c.dst(c.src(r, j).value, j) == Some(r)
    {
      RoundsExact(n, j);
      PeersMatch(n, r, Count(n, j));
    }
  }

  /** Each rank starts with its own contribution in slot 0; the rest of its buffer is arbitrary. */
  ghost predicate Started<T>(n: nat, l: nat, xs: seq<seq<T>>, init: seq<seq<T>>) {
    && 1 <= n <= 0x1_0000 && |init| == |xs| == n
    && forall r :: 0 <= r < n ==> |init[r]| == n * l && SlotAt(n, l, init[r], 0) == xs[r]
  }

  /** Slot `k < count` of rank `r` holds the contribution of rank `(r + k) % n`. */
  ghost predicate Holds<T>(n: nat, l: nat, xs: seq<seq<T>>, r: nat, count: nat, mem: seq<T>)
    requires |xs| == n && r < n
  {
    && |mem| == n * l && count <= n
    && forall k :: 0 <= k < count ==> SlotAt(n, l, mem, k) == xs[Fwd(n, r, k)]
  }

  /** One round keeps `Holds`, at the larger count. */
  lemma RoundHolds<T>(n: nat, l: nat, xs: seq<seq<T>>, r: nat, count: nat, mem: seq<T>, theirs: seq<T>)
    requires |xs| == n && r < n && 1 <= count < n
    requires Holds(n, l, xs, r, count, mem) && Holds(n, l, xs, Fwd(n, r, count), count, theirs)
    ensures var m := ToSend(n, count);
      Holds(n, l, xs, r, count + m, Land(l, count, mem, Payload(l, m, theirs)))
      && |Payload(l, m, theirs)| == m * l
  {
    var m := ToSend(n, count);
    var q := Fwd(n, r, count);
    PayloadSlot(n, l, m, theirs, 0);
    var bytes := Payload(l, m, theirs);
    LandLength(n, l, count, m, mem, bytes);
    forall k | 0 <= k < count + m ensures SlotAt(n, l, Land(l, count, mem, bytes), k) == xs[Fwd(n, r, k)] {
      LandSlot(n, l, count, m, mem, bytes, k);
      if k >= count {
        PayloadSlot(n, l, m, theirs, k - count);
        FwdFwd(n, r, count, k - count);
      }
    }
  }

  lemma LockstepRound<T>(n: nat, l: nat, init: seq<seq<T>>, r: nat, j: nat)
    requires n >= 1 && |init| == n && r < n && Count(n, j) < n
    ensures var c := Allgather(n, l, init); var q := Fwd(n, r, Count(n, j));
      X.Lockstep(c, r, j + 1) == Land(l, Count(n, j), X.Lockstep(c, r, j), Sent(n, l, j, X.Lockstep(c, q, j)))
  {
  }

  lemma {:induction false} LockstepHolds<T>(n: nat, l: nat, xs: seq<seq<T>>, init: seq<seq<T>>, r: nat, j: nat)
    requires Started(n, l, xs, init) && r < n && j <= Rounds(n)
    ensures Holds(n, l, xs, r, Count(n, j), X.Lockstep(Allgather(n, l, init), r, j))
    decreases j
  {
    var c := Allgather(n, l, init);
    if j == 0 {
      ModOnce(n, r);
    } else {
      var count := Count(n, j - 1);
      var q := Fwd(n, r, count);
      RoundsExact(n, j - 1);
      LockstepHolds(n, l, xs, init, r, j - 1);
      LockstepHolds(n, l, xs, init, q, j - 1);
      LockstepRound(n, l, init, r, j - 1);
      RoundHolds(n, l, xs, r, count, X.Lockstep(c, r, j - 1), X.Lockstep(c, q, j - 1));
    }
  }

  /** Both peers of a round agree on the number of elements, and the send never overlaps the receive. */
  lemma AllgatherApart<T>(n: nat, l: nat, xs: seq<seq<T>>, init: seq<seq<T>>)
    requires Started(n, l, xs, init)
    ensures Allgather(n, l, init).Matched() && Allgather(n, l, init).Apart()
  {
    var c := Allgather(n, l, init);
    AllgatherMatched(n, l, init);
    forall r, j | 0 <= r < n && 0 <= j < c.rounds && c.src(r, j).Some?
      ensures c.LandsApart(r, j, X.Lockstep(c, r, j), c.payload(c.src(r, j).value, j, X.Lockstep(c, c.src(r, j).value, j)))
    {
      var count := Count(n, j);
      var q := Fwd(n, r, count);
      LockstepHolds(n, l, xs, init, r, j);
      LockstepHolds(n, l, xs, init, q, j);
      RoundHolds(n, l, xs, r, count, X.Lockstep(c, r, j), X.Lockstep(c, q, j));
      LandKeepsPayload(n, l, count, ToSend(n, count), X.Lockstep(c, r, j), c.payload(q, j, X.Lockstep(c, q, j)));
    }
  }

  /** In every reachable state of every interleaving, slot `k` of rank `r` holds the contribution of rank
      `(r + k) % n` for every `k` below the count of the rounds whose message has been received. */
  lemma SlotsHoldInRun<T>(n: nat, l: nat, xs: seq<seq<T>>, init: seq<seq<T>>,
                          states: seq<X.State<seq<T>, seq<T>>>, events: seq<X.Event<seq<T>>>, i: nat, r: nat)
    requires Started(n, l, xs, init) && X.IsRun(Allgather(n, l, init), states, events) && i < |states| && r < n
    ensures |states[i].ranks| == n
    ensures var rk := states[i].ranks[r]; Holds(n, l, xs, r, Count(n, X.Consumed(rk)), rk.mem)
  {
    var c := Allgather(n, l, init);
    AllgatherMatched(n, l, init);
    X.AsyncIsLockstep(c, states, events, i, r);
    X.RunInv(c, states, events, i);
    assert X.RankOk(c, r, states[i].ranks[r]);
    LockstepHolds(n, l, xs, init, r, X.Consumed(states[i].ranks[r]));
  }

  // ----- the final rotation -----

  /** Slot `(rank + k) % n` of `out` is slot `k` of `mem`. */
  ghost predicate Rotated<T>(n: nat, l: nat, rank: nat, mem: seq<T>, out: seq<T>, upto: nat)
    requires rank < n
  {
    && |mem| == |out| == n * l && upto <= n
    && forall k :: 0 <= k < upto ==> SlotAt(n, l, out, Fwd(n, rank, k)) == SlotAt(n, l, mem, k)
  }

  ghost predicate Gathered<T>(n: nat, l: nat, xs: seq<seq<T>>, out: seq<T>) {
    |xs| == n && |out| == n * l && forall g :: 0 <= g < n ==> SlotAt(n, l, out, g) == xs[g]
  }

  lemma RotationGathers<T>(n: nat, l: nat, xs: seq<seq<T>>, rank: nat, mem: seq<T>, out: seq<T>)
    requires |xs| == n && rank < n && Holds(n, l, xs, rank, n, mem) && Rotated(n, l, rank, mem, out, n)
    ensures Gathered(n, l, xs, out)
  {
    forall g | 0 <= g < n ensures SlotAt(n, l, out, g) == xs[g] {
      var k := if rank <= g then g - rank else g + n - rank;
      FwdReaches(n, rank, g);
      assert SlotAt(n, l, out, Fwd(n, rank, k)) == SlotAt(n, l, mem, k);
    }
  }

  /** Allgather for every number of ranks, power of two or not, every block length and every
      interleaving: a run that cannot continue leaves on every rank a buffer whose rotation holds rank
      `g`'s contribution in block `g`; nothing is left in flight or in a router. */
  lemma AllgatherCorrect<T>(n: nat, l: nat, xs: seq<seq<T>>, init: seq<seq<T>>,
                            states: seq<X.State<seq<T>, seq<T>>>, events: seq<X.Event<seq<T>>>, r: nat, out: seq<T>)
    requires Started(n, l, xs, init) && X.IsRun(Allgather(n, l, init), states, events) && r < n
    requires forall e :: X.Enabled(Allgather(n, l, init), states[|events|], e) ==> e.SendDone? && states[|events|].net != {}
    ensures var s := states[|events|];
      && |s.ranks| == n && s.net == {} && s.ranks[r].slots == map[] && s.ranks[r].round == Rounds(n)
      && (Rotated(n, l, r, s.ranks[r].mem, out, n) ==> Gathered(n, l, xs, out))
  {
    var c := Allgather(n, l, init);
    AllgatherMatched(n, l, init);
    X.StuckMeansDone(c, states, events);
    RoundsExact(n, Rounds(n));
    LockstepHolds(n, l, xs, init, r, Rounds(n));
    var mem := states[|events|].ranks[r].mem;
    if Rotated(n, l, r, mem, out, n) {
      RotationGathers(n, l, xs, r, mem, out);
    }
  }

  // ----- one rank, in place -----

  /** The buffer after receiving `inbox`, one message a round. */
  ghost function AfterRounds<T>(n: nat, l: nat, mem: seq<T>, inbox: seq<seq<T>>): seq<T>
    requires n >= 1
  {
    if inbox == [] then mem
    else Land(l, Count(n, |inbox| - 1), AfterRounds(n, l, mem, inbox[..|inbox| - 1]), inbox[|inbox| - 1])
  }

  ghost predicate SizeOk<T>(n: nat, l: nat, inbox: seq<seq<T>>, j: nat)
    requires n >= 1 && j < |inbox|
  {
    |inbox[j]| == ToSend(n, Count(n, j)) * l
  }

  ghost predicate InboxOk<T>(n: nat, l: nat, inbox: seq<seq<T>>)
    requires n >= 1
  {
    |inbox| == Rounds(n) && forall j :: 0 <= j < |inbox| ==> SizeOk(n, l, inbox, j)
  }

  /** Round `j` posted the leading slots of the buffer as it then was, and awaited the round's peer. */
  ghost predicate Logged<T>(log: seq<R.Exchange<T>>, n: nat, l: nat, rank: nat, mem: seq<T>, inbox: seq<seq<T>>, j: nat)
    requires rank < n && j < |log| && j <= |inbox|
  {
    log[j] == R.Exchange(ChainKey(rank, j, PHASE_BRUCK, 0), Sent(n, l, j, AfterRounds(n, l, mem, inbox[..j])),
                         ChainKey(Fwd(n, rank, Count(n, j)), j, PHASE_BRUCK, 0))
  }

  ghost predicate RoundLog<T>(log: seq<R.Exchange<T>>, n: nat, l: nat, rank: nat, mem: seq<T>, inbox: seq<seq<T>>)
    requires rank < n
  {
    |log| <= |inbox| && forall j :: 0 <= j < |log| ==> Logged(log, n, l, rank, mem, inbox, j)
  }

  lemma {:induction false} AfterRoundsLength<T>(n: nat, l: nat, mem: seq<T>, inbox: seq<seq<T>>, j: nat)
    requires n >= 1 && |mem| == n * l && InboxOk(n, l, inbox) && j <= |inbox|
    ensures |AfterRounds(n, l, mem, inbox[..j])| == n * l
  {
    if j > 0 {
      AfterRoundsLength(n, l, mem, inbox, j - 1);
      assert inbox[..j][..j - 1] == inbox[..j - 1];
      assert SizeOk(n, l, inbox, j - 1);
      LandLength(n, l, Count(n, j - 1), ToSend(n, Count(n, j - 1)), AfterRounds(n, l, mem, inbox[..j - 1]), inbox[j - 1]);
    }
  }

  lemma Stored<T>(was: seq<T>, now: seq<T>, l: nat, count: nat, bytes: seq<T>)
    requires |now| == |was| && count * l + |bytes| <= |was|
    requires var lo := count * l;
      now[lo..lo + |bytes|] == bytes && now[..lo] == was[..lo] && now[lo + |bytes|..] == was[lo + |bytes|..]
    ensures now == Land(l, count, was, bytes)
  {
    var lo := count * l;
    assert now == now[..lo] + now[lo..lo + |bytes|] + now[lo + |bytes|..];
  }

  /** One joined send and receive: slots `[0, toSend)` go out, `[count, count + toSend)` come in. */
  method JoinedRound<T>(recvBuf: array<T>, l: nat, n: nat, count: nat, toSend: nat, received: seq<T>)
    returns (sent: seq<T>)
    requires recvBuf.Length == n * l && count + toSend <= n && |received| == toSend * l
    modifies recvBuf
    ensures sent == Payload(l, toSend, old(recvBuf[..]))
    ensures recvBuf[..] == Land(l, count, old(recvBuf[..]), received)
  {
    Scaled(toSend, n, l);
    LandLength(n, l, count, toSend, recvBuf[..], received);
    sent := recvBuf[..toSend * l];
    ghost var was := recvBuf[..];
    R.Store(recvBuf, count * l, received);
    Stored(was, recvBuf[..], l, count, received);
  }

  lemma AfterOneMore<T>(n: nat, l: nat, mem: seq<T>, inbox: seq<seq<T>>, j: nat)
    requires n >= 1 && j < |inbox|
    ensures AfterRounds(n, l, mem, inbox[..j + 1]) == Land(l, Count(n, j), AfterRounds(n, l, mem, inbox[..j]), inbox[j])
  {
    assert inbox[..j + 1][..j] == inbox[..j];
  }

  lemma LogOneMore<T>(log: seq<R.Exchange<T>>, n: nat, l: nat, rank: nat, mem: seq<T>, inbox: seq<seq<T>>, bytes: seq<T>)
    requires rank < n && RoundLog(log, n, l, rank, mem, inbox) && |log| < |inbox|
    requires bytes == Sent(n, l, |log|, AfterRounds(n, l, mem, inbox[..|log|]))
    ensures RoundLog(log + [R.Exchange(ChainKey(rank, |log|, PHASE_BRUCK, 0), bytes,
                                       ChainKey(Fwd(n, rank, Count(n, |log|)), |log|, PHASE_BRUCK, 0))],
                     n, l, rank, mem, inbox)
  {
    var longer := log + [R.Exchange(ChainKey(rank, |log|, PHASE_BRUCK, 0), bytes,
                                    ChainKey(Fwd(n, rank, Count(n, |log|)), |log|, PHASE_BRUCK, 0))];
    forall j | 0 <= j < |longer| ensures Logged(longer, n, l, rank, mem, inbox, j) {
      if j < |log| {
        assert Logged(log, n, l, rank, mem, inbox, j);
      }
    }
  }

  /** A rank awaits in every round what its source sends in that round, and the rank it sends to awaits what it
      sends. */
  lemma AwaitsSource<T>(n: nat, l: nat, rank: nat, j: nat, mine: seq<R.Exchange<T>>, mem: seq<T>, inbox: seq<seq<T>>,
                        theirs: seq<R.Exchange<T>>, mem': seq<T>, inbox': seq<seq<T>>)
    requires rank < n && RoundLog(mine, n, l, rank, mem, inbox) && j < |mine| && j < |theirs| && Count(n, j) < n
    requires RoundLog(theirs, n, l, Fwd(n, rank, Count(n, j)), mem', inbox')
    ensures mine[j].awaited == theirs[j].key && SendPeer(n, Fwd(n, rank, Count(n, j)), Count(n, j)) == rank
  {
    assert Logged(mine, n, l, rank, mem, inbox, j);
    assert Logged(theirs, n, l, Fwd(n, rank, Count(n, j)), mem', inbox', j);
    PeersMatch(n, rank, Count(n, j));
  }

  /** There is an endpoint for the peer of round `j`. */
  ghost predicate Reaches(n: nat, rank: nat, j: nat, reachable: set<nat>)
    requires rank < n
  {
    SendPeer(n, rank, Count(n, j)) in reachable
  }

  /** The doubling loop. `reachable` are the ranks an endpoint exists for. */
  method Exchange<T>(recvBuf: array<T>, l: nat, n: nat, rank: nat, reachable: set<nat>, inbox: seq<seq<T>>)
    returns (ok: bool, log: seq<R.Exchange<T>>)
    requires rank < n && n >= 2 && recvBuf.Length == n * l && InboxOk(n, l, inbox)
    modifies recvBuf
    ensures RoundLog(log, n, l, rank, old(recvBuf[..]), inbox)
    ensures recvBuf[..] == AfterRounds(n, l, old(recvBuf[..]), inbox[..|log|])
    ensures forall j :: 0 <= j < |log| ==> Reaches(n, rank, j, reachable)
    ensures if ok then |log| == Rounds(n) else |log| < Rounds(n) && !Reaches(n, rank, |log|, reachable)
  {
    ghost var mem := recvBuf[..];
    log := [];
    var count := 1;
    var round := 0;
    assert inbox[..0] == [];
    RoundsExact(n, 0);
    while count < n
      invariant round == |log| && count == Count(n, round) && 1 <= count <= n && round <= Rounds(n)
      invariant RoundLog(log, n, l, rank, mem, inbox)
      invariant recvBuf[..] == AfterRounds(n, l, mem, inbox[..round])
      invariant forall j :: 0 <= j < round ==> Reaches(n, rank, j, reachable)
    {
      RoundsExact(n, round);
      var toSend := ToSend(n, count);
      var recvPeer := Fwd(n, rank, count);
      if SendPeer(n, rank, count) !in reachable {
        return false, log;
      }
      assert SizeOk(n, l, inbox, round);
      var bytes := JoinedRound(recvBuf, l, n, count, toSend, inbox[round]);
      LogOneMore(log, n, l, rank, mem, inbox, bytes);
      log := log + [R.Exchange(ChainKey(rank, round, PHASE_BRUCK, 0), bytes, ChainKey(recvPeer, round, PHASE_BRUCK, 0))];
      AfterOneMore(n, l, mem, inbox, round);
      count := count + toSend;
      round := round + 1;
    }
    RoundsExact(n, round);
    ok := true;
  }

  /** The rotation through a second buffer. */
  method Rotate<T>(recvBuf: array<T>, l: nat, n: nat, rank: nat, fill: T)
    requires rank < n && recvBuf.Length == n * l
    modifies recvBuf
    ensures Rotated(n, l, rank, old(recvBuf[..]), recvBuf[..], n)
  {
    ghost var mem := recvBuf[..];
    var rotated := new T[recvBuf.Length](_ => fill);
    for k := 0 to n
      invariant recvBuf[..] == mem
      invariant Rotated(n, l, rank, mem, rotated[..], k)
    {
      var global := (rank + k) % n;
      SlotFits(k, n, l);
      SlotFits(global, n, l);
      ghost var was := rotated[..];
      R.Store(rotated, global * l, recvBuf[k * l..(k + 1) * l]);
      RotateOne(n, l, rank, mem, was, rotated[..], k);
    }
    R.Fill(recvBuf, rotated[..]);
  }

  lemma RotateOne<T>(n: nat, l: nat, rank: nat, mem: seq<T>, was: seq<T>, now: seq<T>, k: nat)
    requires rank < n && k < n && Rotated(n, l, rank, mem, was, k) && |now| == n * l
    requires Fwd(n, rank, k) * l + l <= |was|
    requires var lo := Fwd(n, rank, k) * l;
      now[lo..lo + l] == SlotAt(n, l, mem, k) && now[..lo] == was[..lo] && now[lo + l..] == was[lo + l..]
    ensures Rotated(n, l, rank, mem, now, k + 1)
  {
    forall i | 0 <= i < k ensures SlotAt(n, l, now, Fwd(n, rank, i)) == SlotAt(n, l, mem, i) {
      if Fwd(n, rank, i) == Fwd(n, rank, k) {
        FwdInjective(n, rank, i, k);
      }
      SlotFits(Fwd(n, rank, i), n, l);
      OtherSlot(was, now, l, Fwd(n, rank, k), Fwd(n, rank, i));
      assert SlotAt(n, l, was, Fwd(n, rank, i)) == SlotAt(n, l, mem, i);
    }
  }

  /** `bruck_allgather`: shape check first, a plain copy on one rank, otherwise exchange and rotate. */
  method BruckAllgather<T>(sendBuf: seq<T>, recvBuf: array<T>, n: nat, rank: nat, reachable: set<nat>, inbox: seq<seq<T>>)
    returns (res: R.Outcome, log: seq<R.Exchange<T>>)
    requires rank < n
    requires n >= 2 && recvBuf.Length == |sendBuf| * n ==> |sendBuf| >= 1 && InboxOk(n, |sendBuf|, inbox)
    modifies recvBuf
    ensures recvBuf.Length != |sendBuf| * n ==> res == R.Failed(R.BadShape) && log == [] && recvBuf[..] == old(recvBuf[..])
    ensures recvBuf.Length == |sendBuf| * n && n == 1 ==> res == R.Done && log == [] && recvBuf[..] == sendBuf
    ensures recvBuf.Length == |sendBuf| * n && n >= 2 ==>
      var start := Land(|sendBuf|, 0, old(recvBuf[..]), sendBuf);
      && RoundLog(log, n, |sendBuf|, rank, start, inbox)
      && (forall j :: 0 <= j < |log| ==> Reaches(n, rank, j, reachable))
      && (if |log| == Rounds(n) then
            res == R.Done && Rotated(n, |sendBuf|, rank, AfterRounds(n, |sendBuf|, start, inbox), recvBuf[..], n)
          else
            && res == R.Failed(R.NoEndpoint) && !Reaches(n, rank, |log|, reachable)
            && recvBuf[..] == AfterRounds(n, |sendBuf|, start, inbox[..|log|]))
  {
    var l := |sendBuf|;
    log := [];
    if recvBuf.Length != l * n {
      return R.Failed(R.BadShape), log;
    }
    if n == 1 {
      R.Fill(recvBuf, sendBuf);
      return R.Done, log;
    }
    assert l * n == n * l;
    SlotFits(0, n, l);
    ghost var was := recvBuf[..];
    R.Store(recvBuf, 0, sendBuf);
    Stored(was, recvBuf[..], l, 0, sendBuf);
    var ok;
    ok, log := Exchange(recvBuf, l, n, rank, reachable, inbox);
    if !ok {
      return R.Failed(R.NoEndpoint), log;
    }
    assert inbox[..|log|] == inbox;
    Rotate(recvBuf, l, n, rank, sendBuf[0]);
    res := R.Done;
  }

  /** The message of round `i` is what the round's peer posts in the lockstep execution; by
      `ExchangeNet.AsyncIsLockstep` this is what arrives in every run. */
  ghost predicate Heard<T>(n: nat, l: nat, init: seq<seq<T>>, rank: nat, inbox: seq<seq<T>>, i: nat)
    requires |init| == n && rank < n && i < |inbox|
  {
    inbox[i] == Sent(n, l, i, X.Lockstep(Allgather(n, l, init), Fwd(n, rank, Count(n, i)), i))
  }

  /** A rank that receives what its peers hold follows the lockstep execution, so its call gathers. */
  lemma {:induction false} CallFollowsLockstep<T>(n: nat, l: nat, init: seq<seq<T>>, rank: nat, inbox: seq<seq<T>>, j: nat)
    requires 1 <= n <= 0x1_0000 && |init| == n && rank < n && j <= |inbox| == Rounds(n)
    requires forall i :: 0 <= i < |inbox| ==> Heard(n, l, init, rank, inbox, i)
    ensures AfterRounds(n, l, init[rank], inbox[..j]) == X.Lockstep(Allgather(n, l, init), rank, j)
    decreases j
  {
    if j > 0 {
      RoundsExact(n, j - 1);
      CallFollowsLockstep(n, l, init, rank, inbox, j - 1);
      FollowsOneMore(n, l, init, rank, inbox, j - 1);
    }
  }

  lemma FollowsOneMore<T>(n: nat, l: nat, init: seq<seq<T>>, rank: nat, inbox: seq<seq<T>>, j: nat)
    requires n >= 1 && |init| == n && rank < n && j < |inbox| && Count(n, j) < n && Heard(n, l, init, rank, inbox, j)
    requires AfterRounds(n, l, init[rank], inbox[..j]) == X.Lockstep(Allgather(n, l, init), rank, j)
    ensures AfterRounds(n, l, init[rank], inbox[..j + 1]) == X.Lockstep(Allgather(n, l, init), rank, j + 1)
  {
    AfterOneMore(n, l, init[rank], inbox, j);
    LockstepRound(n, l, init, rank, j);
  }

  lemma CallGathers<T>(n: nat, l: nat, xs: seq<seq<T>>, init: seq<seq<T>>, rank: nat, inbox: seq<seq<T>>, out: seq<T>)
    requires Started(n, l, xs, init) && rank < n && |inbox| == Rounds(n)
    requires forall i :: 0 <= i < |inbox| ==> Heard(n, l, init, rank, inbox, i)
    requires Rotated(n, l, rank, AfterRounds(n, l, init[rank], inbox), out, n)
    ensures Gathered(n, l, xs, out)
  {
    CallFollowsLockstep(n, l, init, rank, inbox, |inbox|);
    assert inbox[..|inbox|] == inbox;
    RoundsExact(n, Rounds(n));
    LockstepHolds(n, l, xs, init, rank, Rounds(n));
    RotationGathers(n, l, xs, rank, AfterRounds(n, l, init[rank], inbox), out);
  }
}
