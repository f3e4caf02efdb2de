/** One rank's ring allreduce as the source runs it: loops over steps that update the flat buffer in
    place. The messages a rank receives are parameters (`inbox`, one payload a step); what it sends, and
    under which keys, are results. `RingNet` lets these ranks run against each other. */
module RingRank {
  import opened RingIndex
  import opened RingLocal
  import opened RingBuffers
  import opened RingResult
  import opened RingCall
  import opened Ops
  import opened Wire

  datatype Error = BadShape | NoEndpoint | ZeroConfig | TooManyMicroChunks
  datatype Outcome = Done | Failed(error: Error)

  /** One joined send and receive: what was posted under which key, and which key was awaited. */
  datatype Exchange<T> = Exchange(key: RecvKey, bytes: seq<T>, awaited: RecvKey)

  /** What a chain must exchange in one step. */
  ghost function Expected<T>(op: (T, T) -> T, n: nat, rank: nat, phase: u8, m: nat,
                             row: seq<seq<T>>, inbox: seq<seq<T>>, step: nat): Exchange<T>
    requires rank < n && |row| == n && step <= |inbox| < n && step + 1 < n
  {
    Exchange(ChainKey(rank, step, phase, m), Sent(Lift(op), n, rank, phase, row, inbox, step),
             ChainKey(Prev(n, rank), step, phase, m))
  }

  ghost predicate Exchanged<T>(log: seq<Exchange<T>>, op: (T, T) -> T, n: nat, rank: nat, phase: u8, m: nat,
                               row: seq<seq<T>>, inbox: seq<seq<T>>)
    requires rank < n && |row| == n && |inbox| + 1 == n
  {
    |log| == n - 1 && forall s :: 0 <= s < n - 1 ==> log[s] == Expected(op, n, rank, phase, m, row, inbox, s)
  }

  /** All receives of one rank within a call have distinct keys, and so have all its sends: two exchanges
      share a key exactly when they are the same step of the same phase of the same chain. */
  lemma ExchangesHaveDistinctKeys<T>(op: (T, T) -> T, n: nat, rank: nat,
                                     a: seq<Exchange<T>>, phase: u8, m: nat, row: seq<seq<T>>, inbox: seq<seq<T>>, s: nat,
                                     b: seq<Exchange<T>>, phase': u8, m': nat, row': seq<seq<T>>, inbox': seq<seq<T>>, s': nat)
    requires 2 <= n <= 0x1_0000 && rank < n && m < 256 && m' < 256 && s < n - 1 && s' < n - 1
    requires |row| == |row'| == n && |inbox| + 1 == |inbox'| + 1 == n
    requires Exchanged(a, op, n, rank, phase, m, row, inbox) && Exchanged(b, op, n, rank, phase', m', row', inbox')
    ensures a[s].awaited == b[s'].awaited <==> phase == phase' && m == m' && s == s'
    ensures a[s].key == b[s'].key <==> phase == phase' && m == m' && s == s'
  {
    ChainKeyInjective(Prev(n, rank), s, phase, m, Prev(n, rank), s', phase', m');
    ChainKeyInjective(rank, s, phase, m, rank, s', phase', m');
  }

  /** A rank awaits in every step what its predecessor sends in that step, under the same key. */
  lemma AwaitsPredecessor<T>(op: (T, T) -> T, n: nat, rank: nat, phase: u8, m: nat, s: nat,
                             mine: seq<Exchange<T>>, row: seq<seq<T>>, inbox: seq<seq<T>>,
                             theirs: seq<Exchange<T>>, row': seq<seq<T>>, inbox': seq<seq<T>>)
    requires 2 <= n && rank < n && s < n - 1 && |row| == |row'| == n && |inbox| + 1 == |inbox'| + 1 == n
    requires Exchanged(mine, op, n, rank, phase, m, row, inbox)
    requires Exchanged(theirs, op, n, Prev(n, rank), phase, m, row', inbox')
    ensures mine[s].awaited == theirs[s].key
  {
  }

  ghost predicate InboxOk<T>(inbox: seq<seq<T>>, n: nat, micro: nat) {
    |inbox| + 1 == n && forall s :: 0 <= s < |inbox| ==> |inbox[s]| == micro
  }

  /** `recv_target`: bytes land in the scratch buffer. */
  method Fill<T>(tmp: array<T>, bytes: seq<T>)
    requires |bytes| == tmp.Length
    modifies tmp
    ensures tmp[..] == bytes
  {
    var i := 0;
    while i < tmp.Length
      invariant 0 <= i <= tmp.Length && tmp[..i] == bytes[..i]
    {
      tmp[i] := bytes[i];
      i := i + 1;
    }
  }

  /** Bytes land in a slot of the buffer itself. */
  method Store<T>(buf: array<T>, lo: nat, bytes: seq<T>)
    requires lo + |bytes| <= buf.Length
    modifies buf
    ensures buf[lo..lo + |bytes|] == bytes
    ensures buf[..lo] == old(buf[..lo]) && buf[lo + |bytes|..] == old(buf[lo + |bytes|..])
  {
    var i := 0;
    while i < |bytes|
      invariant 0 <= i <= |bytes| && buf[lo..lo + i] == bytes[..i]
      invariant buf[..lo] == old(buf[..lo]) && buf[lo + |bytes|..] == old(buf[lo + |bytes|..])
    {
      buf[lo + i] := bytes[i];
      i := i + 1;
    }
  }

  /** All rows but `m` are as they were. */
  ghost predicate OthersKept<T>(now: seq<T>, was: seq<T>, n: nat, micros: nat, micro: nat, m: nat)
    requires Tiled(|now|, n, micros, micro) && |was| == |now|
  {
    forall k :: 0 <= k < micros && k != m ==> Row(now, n, micros, micro, k) == Row(was, n, micros, micro, k)
  }

  ghost predicate TableOk(slots: seq<nat>, n: nat, micros: nat, micro: nat) {
    |slots| == n * micros && forall i :: 0 <= i < |slots| ==> slots[i] == i * micro
  }

  lemma SlotOf(slots: seq<nat>, n: nat, micros: nat, micro: nat, m: nat, c: nat)
    requires TableOk(slots, n, micros, micro) && m < micros && c < n
    ensures c * micros + m < |slots|
    ensures slots[c * micros + m] == (c * micros + m) * micro
    ensures (c * micros + m) * micro + micro <= n * micros * micro
  {
    SlotInRange(n, micros, c, m);
    SlotFits(c * micros + m, n * micros, micro);
  }

  /** One reduce-scatter step: post the chunk, receive into scratch, reduce into the other chunk. */
  method ScatterStep<T>(op: (T, T) -> T, buf: array<T>, tmp: array<T>, n: nat, rank: nat,
                        micros: nat, m: nat, slots: seq<nat>, step: nat, bytes: seq<T>)
    returns (x: Exchange<T>)
    requires rank < n && step + 1 < n && m < micros && buf != tmp && |bytes| == tmp.Length
    requires Tiled(buf.Length, n, micros, tmp.Length) && TableOk(slots, n, micros, tmp.Length)
    modifies buf, tmp
    ensures Row(buf[..], n, micros, tmp.Length, m) ==
            ReduceStep(Lift(op), n, rank, step, old(Row(buf[..], n, micros, tmp.Length, m)), bytes)
    ensures OthersKept(buf[..], old(buf[..]), n, micros, tmp.Length, m)
    ensures x == Exchange(ChainKey(rank, step, 0, m),
                          old(Row(buf[..], n, micros, tmp.Length, m))[SendIdx(n, rank, 0, step)],
                          ChainKey(Prev(n, rank), step, 0, m))
  {
    var micro := tmp.Length;
    var sendIdx := SendIdx(n, rank, 0, step);
    var recvIdx := RecvIdx(n, rank, 0, step);
    SlotOf(slots, n, micros, micro, m, sendIdx);
    SlotOf(slots, n, micros, micro, m, recvIdx);
    var sendOff := slots[sendIdx * micros + m];
    var recvOff := slots[recvIdx * micros + m];
    ghost var was := buf[..];
    x := Exchange(ChainKey(rank, step, 0, m), buf[sendOff..sendOff + micro], ChainKey(Prev(n, rank), step, 0, m));
    assert x.bytes == RowCell(was, n, micros, micro, m, sendIdx);
    Fill(tmp, bytes);
    ReduceInPlace(op, buf, recvOff, tmp);
    assert was[recvOff..recvOff + micro] == RowCell(was, n, micros, micro, m, recvIdx);
    RewriteSlot(was, buf[..], n, micros, micro, m, recvIdx, buf[recvOff..recvOff + micro]);
  }

  /** One allgather step: post the chunk, receive straight into the other chunk. */
  method GatherStep<T>(buf: array<T>, n: nat, rank: nat, micros: nat, micro: nat, m: nat, slots: seq<nat>,
                       step: nat, bytes: seq<T>)
    returns (x: Exchange<T>)
    requires rank < n && step + 1 < n && m < micros && |bytes| == micro
    requires Tiled(buf.Length, n, micros, micro) && TableOk(slots, n, micros, micro)
    modifies buf
    ensures Row(buf[..], n, micros, micro, m) ==
            StoreStep(n, rank, step, old(Row(buf[..], n, micros, micro, m)), bytes)
    ensures OthersKept(buf[..], old(buf[..]), n, micros, micro, m)
    ensures x == Exchange(ChainKey(rank, step, 1, m),
                          old(Row(buf[..], n, micros, micro, m))[SendIdx(n, rank, 1, step)],
                          ChainKey(Prev(n, rank), step, 1, m))
  {
    var sendIdx := SendIdx(n, rank, 1, step);
    var recvIdx := RecvIdx(n, rank, 1, step);
    SlotOf(slots, n, micros, micro, m, sendIdx);
    SlotOf(slots, n, micros, micro, m, recvIdx);
    var sendOff := slots[sendIdx * micros + m];
    var recvOff := slots[recvIdx * micros + m];
    ghost var was := buf[..];
    x := Exchange(ChainKey(rank, step, 1, m), buf[sendOff..sendOff + micro], ChainKey(Prev(n, rank), step, 1, m));
    assert x.bytes == RowCell(was, n, micros, micro, m, sendIdx);
    Store(buf, recvOff, bytes);
    RewriteSlot(was, buf[..], n, micros, micro, m, recvIdx, bytes);
  }

  method ReduceScatterChain<T>(op: (T, T) -> T, buf: array<T>, tmp: array<T>, n: nat, rank: nat,
                               micros: nat, m: nat, slots: seq<nat>, inbox: seq<seq<T>>)
    returns (log: seq<Exchange<T>>)
    requires 2 <= n && rank < n && m < micros && buf != tmp && InboxOk(inbox, n, tmp.Length)
    requires Tiled(buf.Length, n, micros, tmp.Length) && TableOk(slots, n, micros, tmp.Length)
    modifies buf, tmp
    ensures Row(buf[..], n, micros, tmp.Length, m) ==
            RunChain(Lift(op), n, rank, 0, old(Row(buf[..], n, micros, tmp.Length, m)), inbox)
    ensures OthersKept(buf[..], old(buf[..]), n, micros, tmp.Length, m)
    ensures Exchanged(log, op, n, rank, 0, m, old(Row(buf[..], n, micros, tmp.Length, m)), inbox)
  {
    ghost var row := Row(buf[..], n, micros, tmp.Length, m);
    log := [];
    for step := 0 to n - 1
      invariant |log| == step
      invariant Row(buf[..], n, micros, tmp.Length, m) == RunChain(Lift(op), n, rank, 0, row, inbox[..step])
      invariant OthersKept(buf[..], old(buf[..]), n, micros, tmp.Length, m)
      invariant forall s :: 0 <= s < step ==> log[s] == Expected(op, n, rank, 0, m, row, inbox, s)
    {
      var x := ScatterStep(op, buf, tmp, n, rank, micros, m, slots, step, inbox[step]);
      log := log + [x];
      assert inbox[..step + 1][..step] == inbox[..step];
    }
    assert inbox[..n - 1] == inbox;
  }

  method AllgatherChain<T>(ghost op: (T, T) -> T, buf: array<T>, n: nat, rank: nat,
                           micros: nat, micro: nat, m: nat, slots: seq<nat>, inbox: seq<seq<T>>)
    returns (log: seq<Exchange<T>>)
    requires 2 <= n && rank < n && m < micros && InboxOk(inbox, n, micro)
    requires Tiled(buf.Length, n, micros, micro) && TableOk(slots, n, micros, micro)
    modifies buf
    ensures Row(buf[..], n, micros, micro, m) ==
            RunChain(Lift(op), n, rank, 1, old(Row(buf[..], n, micros, micro, m)), inbox)
    ensures OthersKept(buf[..], old(buf[..]), n, micros, micro, m)
    ensures Exchanged(log, op, n, rank, 1, m, old(Row(buf[..], n, micros, micro, m)), inbox)
  {
    ghost var row := Row(buf[..], n, micros, micro, m);
    log := [];
    for step := 0 to n - 1
      invariant |log| == step
      invariant Row(buf[..], n, micros, micro, m) == RunChain(Lift(op), n, rank, 1, row, inbox[..step])
      invariant OthersKept(buf[..], old(buf[..]), n, micros, micro, m)
      invariant forall s :: 0 <= s < step ==> log[s] == Expected(op, n, rank, 1, m, row, inbox, s)
    {
      var x := GatherStep(buf, n, rank, micros, micro, m, slots, step, inbox[step]);
      log := log + [x];
      assert inbox[..step + 1][..step] == inbox[..step];
    }
    assert inbox[..n - 1] == inbox;
  }

  // ----- whole calls -----

  /** The flat slot table, filled in as the source does. */
  method BuildSlots(n: nat, micros: nat, micro: nat) returns (slots: seq<nat>)
    requires micros > 0
    ensures TableOk(slots, n, micros, micro)
  {
    slots := [];
    for i := 0 to n * micros
      invariant |slots| == i && forall j :: 0 <= j < i ==> slots[j] == j * micro
    {
      var chunkIdx := i / micros;
      var m := i % micros;
      TableOffset(micros, micro, i);
      slots := slots + [chunkIdx * (micros * micro) + m * micro];
    }
  }

  method BuildScratch<T>(blank: T, micros: nat, micro: nat) returns (tmps: seq<array<T>>)
    ensures |tmps| == micros
    ensures forall m :: 0 <= m < micros ==> fresh(tmps[m]) && tmps[m].Length == micro
  {
    tmps := [];
    for m := 0 to micros
      invariant |tmps| == m && forall k :: 0 <= k < m ==> fresh(tmps[k]) && tmps[k].Length == micro
    {
      var tmp := new T[micro](_ => blank);
      tmps := tmps + [tmp];
    }
  }

  ghost predicate InboxesOk<T>(inboxes: seq<seq<seq<T>>>, n: nat, micros: nat, micro: nat) {
    |inboxes| == micros && forall m :: 0 <= m < micros ==> InboxOk(inboxes[m], n, micro)
  }

  /** Row `m`, whose chain has run if it is in `ran`. */
  ghost predicate RowState<T>(op: (T, T) -> T, now: seq<T>, was: seq<T>, n: nat, rank: nat, phase: u8, micros: nat,
                              micro: nat, inboxes: seq<seq<seq<T>>>, ran: set<nat>, m: nat)
    requires rank < n && Tiled(|now|, n, micros, micro) && |was| == |now| && InboxesOk(inboxes, n, micros, micro) && m < micros
  {
    Row(now, n, micros, micro, m) ==
      if m in ran then RunChain(Lift(op), n, rank, phase, Row(was, n, micros, micro, m), inboxes[m])
      else Row(was, n, micros, micro, m)
  }

  /** The chains in `ran` have run, the others have not started. */
  ghost predicate PhaseState<T>(op: (T, T) -> T, now: seq<T>, was: seq<T>, n: nat, rank: nat, phase: u8, micros: nat,
                                micro: nat, inboxes: seq<seq<seq<T>>>, ran: set<nat>)
    requires rank < n && Tiled(|now|, n, micros, micro) && |was| == |now| && InboxesOk(inboxes, n, micros, micro)
  {
    forall m: nat :: m < micros ==> RowState(op, now, was, n, rank, phase, micros, micro, inboxes, ran, m)
  }

  /** Exactly the chains that have run have left a log, and it is what the chain had to exchange. */
  ghost predicate LogState<T>(logs: map<nat, seq<Exchange<T>>>, op: (T, T) -> T, was: seq<T>, n: nat, rank: nat, phase: u8,
                              micros: nat, micro: nat, inboxes: seq<seq<seq<T>>>, m: nat)
    requires rank < n && Tiled(|was|, n, micros, micro) && InboxesOk(inboxes, n, micros, micro) && m < micros && m in logs
  {
    Exchanged(logs[m], op, n, rank, phase, m, Row(was, n, micros, micro, m), inboxes[m])
  }

  ghost predicate LogsOk<T>(logs: map<nat, seq<Exchange<T>>>, op: (T, T) -> T, was: seq<T>, n: nat, rank: nat, phase: u8,
                            micros: nat, micro: nat, inboxes: seq<seq<seq<T>>>, ran: set<nat>)
    requires rank < n && Tiled(|was|, n, micros, micro) && InboxesOk(inboxes, n, micros, micro)
  {
    && logs.Keys == ran
    && forall m :: m in logs && m < micros ==> LogState(logs, op, was, n, rank, phase, micros, micro, inboxes, m)
  }

  /** The chains numbered below `k`. */
  ghost function Below(k: nat): (s: set<nat>)
    ensures forall m: nat :: m in s <==> m < k
  {
    if k == 0 then {} else Below(k - 1) + {k - 1}
  }

  /** Pushing chain `m` adds it to the open ones and to nothing else. */
  lemma PushOne(open: set<nat>, m: nat)
    requires open <= Below(m)
    ensures open + {m} <= Below(m + 1) && |open + {m}| == |open| + 1
    ensures Below(m + 1) - (open + {m}) == Below(m) - open
  {
  }

  lemma NothingRan<T>(op: (T, T) -> T, was: seq<T>, n: nat, rank: nat, phase: u8, micros: nat, micro: nat,
                      inboxes: seq<seq<seq<T>>>, ran: set<nat>, logs: map<nat, seq<Exchange<T>>>)
    requires rank < n && Tiled(|was|, n, micros, micro) && InboxesOk(inboxes, n, micros, micro)
    requires ran == {} && logs == map[]
    ensures PhaseState(op, was, was, n, rank, phase, micros, micro, inboxes, ran)
    ensures LogsOk(logs, op, was, n, rank, phase, micros, micro, inboxes, ran)
  {
  }

  /** One phase with its launch window: push a chain, and once `maxInFlight` are pushed let one of the
      open chains finish before the next push; then drain. Which chain finishes is left open. */
  method PumpPhase<T>(op: (T, T) -> T, buf: array<T>, tmps: seq<array<T>>, n: nat, rank: nat, phase: u8, micros: nat,
                      micro: nat, maxInFlight: nat, slots: seq<nat>, inboxes: seq<seq<seq<T>>>)
    returns (logs: map<nat, seq<Exchange<T>>>)
    requires 2 <= n && rank < n && phase < 2 && micros > 0 && maxInFlight > 0
    requires Tiled(buf.Length, n, micros, micro) && TableOk(slots, n, micros, micro)
    requires InboxesOk(inboxes, n, micros, micro)
    requires |tmps| == micros && forall m :: 0 <= m < micros ==> tmps[m] != buf && tmps[m].Length == micro
    modifies buf, tmps
    ensures PhaseState(op, buf[..], old(buf[..]), n, rank, phase, micros, micro, inboxes, Below(micros))
    ensures LogsOk(logs, op, old(buf[..]), n, rank, phase, micros, micro, inboxes, Below(micros))
  {
    ghost var was := buf[..];
    var open: set<nat> := {};
    logs := map[];
    NothingRan(op, was, n, rank, phase, micros, micro, inboxes, Below(0) - open, logs);
    for m: nat := 0 to micros
      invariant open <= Below(m) && |open| <= m && |open| < maxInFlight
      invariant PhaseState(op, buf[..], was, n, rank, phase, micros, micro, inboxes, Below(m) - open)
      invariant LogsOk(logs, op, was, n, rank, phase, micros, micro, inboxes, Below(m) - open)
    {
      logs, open := Launch(op, buf, tmps, n, rank, phase, micros, micro, maxInFlight, slots, inboxes, was, m, open, logs);
    }
    logs := Drain(op, buf, tmps, n, rank, phase, micros, micro, slots, inboxes, was, open, logs);
  }

  /** One turn of the launch loop: chain `m` is pushed, and if `launched`, now `m + 1`, has reached the window
      one open chain finishes. */
  method Launch<T>(op: (T, T) -> T, buf: array<T>, tmps: seq<array<T>>, n: nat, rank: nat, phase: u8, micros: nat,
                   micro: nat, maxInFlight: nat, slots: seq<nat>, inboxes: seq<seq<seq<T>>>,
                   ghost was: seq<T>, m: nat, open: set<nat>, logs: map<nat, seq<Exchange<T>>>)
    returns (logs': map<nat, seq<Exchange<T>>>, open': set<nat>)
    requires 2 <= n && rank < n && phase < 2 && m < micros && open <= Below(m) && |open| <= m && |open| < maxInFlight
    requires Tiled(buf.Length, n, micros, micro) && TableOk(slots, n, micros, micro)
    requires InboxesOk(inboxes, n, micros, micro) && |was| == buf.Length
    requires |tmps| == micros && forall k :: 0 <= k < micros ==> tmps[k] != buf && tmps[k].Length == micro
    requires PhaseState(op, buf[..], was, n, rank, phase, micros, micro, inboxes, Below(m) - open)
    requires LogsOk(logs, op, was, n, rank, phase, micros, micro, inboxes, Below(m) - open)
    modifies buf, tmps
    ensures open' <= Below(m + 1) && |open'| <= m + 1 && |open'| < maxInFlight
    ensures if m + 1 < maxInFlight then open' == open + {m} else |open'| == |open|
    ensures PhaseState(op, buf[..], was, n, rank, phase, micros, micro, inboxes, Below(m + 1) - open')
    ensures LogsOk(logs', op, was, n, rank, phase, micros, micro, inboxes, Below(m + 1) - open')
  {
    PushOne(open, m);
    var launched := m + 1;
    logs', open' := logs, open + {m};
    if launched >= maxInFlight {
      logs', open' := FinishOne(op, buf, tmps, n, rank, phase, micros, micro, slots, inboxes, was, Below(m + 1), open', logs);
    }
  }

  /** `while let Some(res) = chains.next().await`: the remaining open chains finish. */
  method Drain<T>(op: (T, T) -> T, buf: array<T>, tmps: seq<array<T>>, n: nat, rank: nat, phase: u8, micros: nat,
                  micro: nat, slots: seq<nat>, inboxes: seq<seq<seq<T>>>, ghost was: seq<T>, pushed: set<nat>,
                  finished: map<nat, seq<Exchange<T>>>)
    returns (logs: map<nat, seq<Exchange<T>>>)
    requires 2 <= n && rank < n && phase < 2 && micros > 0 && pushed <= Below(micros)
    requires Tiled(buf.Length, n, micros, micro) && TableOk(slots, n, micros, micro)
    requires InboxesOk(inboxes, n, micros, micro) && |was| == buf.Length
    requires |tmps| == micros && forall m :: 0 <= m < micros ==> tmps[m] != buf && tmps[m].Length == micro
    requires PhaseState(op, buf[..], was, n, rank, phase, micros, micro, inboxes, Below(micros) - pushed)
    requires LogsOk(finished, op, was, n, rank, phase, micros, micro, inboxes, Below(micros) - pushed)
    modifies buf, tmps
    ensures PhaseState(op, buf[..], was, n, rank, phase, micros, micro, inboxes, Below(micros))
    ensures LogsOk(logs, op, was, n, rank, phase, micros, micro, inboxes, Below(micros))
  {
    var open: set<nat> := pushed;
    logs := finished;
    while open != {}
      invariant open <= Below(micros)
      invariant PhaseState(op, buf[..], was, n, rank, phase, micros, micro, inboxes, Below(micros) - open)
      invariant LogsOk(logs, op, was, n, rank, phase, micros, micro, inboxes, Below(micros) - open)
      decreases |open|
    {
      logs, open := FinishOne(op, buf, tmps, n, rank, phase, micros, micro, slots, inboxes, was, Below(micros), open, logs);
    }
    assert Below(micros) - open == Below(micros);
  }

  /** One open chain runs to completion on its own row. */
  method RunOne<T>(op: (T, T) -> T, buf: array<T>, tmp: array<T>, n: nat, rank: nat, phase: u8, micros: nat, micro: nat,
                   slots: seq<nat>, k: nat, inbox: seq<seq<T>>)
    returns (log: seq<Exchange<T>>)
    requires 2 <= n && rank < n && phase < 2 && k < micros && InboxOk(inbox, n, micro)
    requires Tiled(buf.Length, n, micros, micro) && TableOk(slots, n, micros, micro) && tmp != buf && tmp.Length == micro
    modifies buf, tmp
    ensures Row(buf[..], n, micros, micro, k) ==
            RunChain(Lift(op), n, rank, phase, old(Row(buf[..], n, micros, micro, k)), inbox)
    ensures OthersKept(buf[..], old(buf[..]), n, micros, micro, k)
    ensures Exchanged(log, op, n, rank, phase, k, old(Row(buf[..], n, micros, micro, k)), inbox)
  {
    if phase == 0 {
      log := ReduceScatterChain(op, buf, tmp, n, rank, micros, k, slots, inbox);
    } else {
      log := AllgatherChain(op, buf, n, rank, micros, micro, k, slots, inbox);
    }
  }

  /** The phase after one more chain has run. */
  lemma OneMoreRan<T>(op: (T, T) -> T, before: seq<T>, now: seq<T>, was: seq<T>, n: nat, rank: nat, phase: u8, micros: nat,
                      micro: nat, inboxes: seq<seq<seq<T>>>, ran: set<nat>, k: nat)
    requires rank < n && Tiled(|now|, n, micros, micro) && |was| == |before| == |now| && InboxesOk(inboxes, n, micros, micro)
    requires PhaseState(op, before, was, n, rank, phase, micros, micro, inboxes, ran)
    requires k < micros && OthersKept(now, before, n, micros, micro, k)
    requires Row(now, n, micros, micro, k) == RunChain(Lift(op), n, rank, phase, Row(was, n, micros, micro, k), inboxes[k])
    ensures PhaseState(op, now, was, n, rank, phase, micros, micro, inboxes, ran + {k})
  {
    var after := ran + {k};
    forall m: nat | m < micros ensures RowState(op, now, was, n, rank, phase, micros, micro, inboxes, after, m) {
      assert RowState(op, before, was, n, rank, phase, micros, micro, inboxes, ran, m);
    }
  }

  lemma OneMoreLog<T>(logs: map<nat, seq<Exchange<T>>>, op: (T, T) -> T, was: seq<T>, n: nat, rank: nat, phase: u8, micros: nat,
                      micro: nat, inboxes: seq<seq<seq<T>>>, ran: set<nat>, k: nat, log: seq<Exchange<T>>)
    requires rank < n && Tiled(|was|, n, micros, micro) && InboxesOk(inboxes, n, micros, micro) && k < micros
    requires LogsOk(logs, op, was, n, rank, phase, micros, micro, inboxes, ran)
    requires Exchanged(log, op, n, rank, phase, k, Row(was, n, micros, micro, k), inboxes[k])
    ensures LogsOk(logs[k := log], op, was, n, rank, phase, micros, micro, inboxes, ran + {k})
  {
    var after := logs[k := log];
    forall m | m in after && m < micros ensures LogState(after, op, was, n, rank, phase, micros, micro, inboxes, m) {
      assert m in logs ==> LogState(logs, op, was, n, rank, phase, micros, micro, inboxes, m);
    }
  }

  /** `chains.next().await`: some open chain runs to completion and leaves the set. `pushed` are the chains
      launched so far. */
  method FinishOne<T>(op: (T, T) -> T, buf: array<T>, tmps: seq<array<T>>, n: nat, rank: nat, phase: u8, micros: nat,
                      micro: nat, slots: seq<nat>, inboxes: seq<seq<seq<T>>>,
                      ghost was: seq<T>, ghost pushed: set<nat>, open: set<nat>, logs: map<nat, seq<Exchange<T>>>)
    returns (logs': map<nat, seq<Exchange<T>>>, open': set<nat>)
    requires 2 <= n && rank < n && phase < 2 && micros > 0
    requires open != {} && open <= pushed && pushed <= Below(micros)
    requires Tiled(buf.Length, n, micros, micro) && TableOk(slots, n, micros, micro)
    requires InboxesOk(inboxes, n, micros, micro) && |was| == buf.Length
    requires |tmps| == micros && forall m :: 0 <= m < micros ==> tmps[m] != buf && tmps[m].Length == micro
    requires PhaseState(op, buf[..], was, n, rank, phase, micros, micro, inboxes, pushed - open)
    requires LogsOk(logs, op, was, n, rank, phase, micros, micro, inboxes, pushed - open)
    modifies buf, tmps
    ensures open' <= open && exists k :: k in open && open' == open - {k}
    ensures |open'| == |open| - 1
    ensures PhaseState(op, buf[..], was, n, rank, phase, micros, micro, inboxes, pushed - open')
    ensures LogsOk(logs', op, was, n, rank, phase, micros, micro, inboxes, pushed - open')
  {
    var k :| k in open;
    ghost var before, ran := buf[..], pushed - open;
    assert RowState(op, before, was, n, rank, phase, micros, micro, inboxes, ran, k);
    var log := RunOne(op, buf, tmps[k], n, rank, phase, micros, micro, slots, k, inboxes[k]);
    OneMoreRan(op, before, buf[..], was, n, rank, phase, micros, micro, inboxes, ran, k);
    OneMoreLog(logs, op, was, n, rank, phase, micros, micro, inboxes, ran, k, log);
    logs' := logs[k := log];
    open' := open - {k};
    assert pushed - open' == ran + {k};
  }

  /** After both phases, row by row. */
  lemma TwoPhases<T>(op: (T, T) -> T, start: seq<T>, middle: seq<T>, end: seq<T>, n: nat, rank: nat, micros: nat, micro: nat,
                     scatterIn: seq<seq<seq<T>>>, gatherIn: seq<seq<seq<T>>>,
                     log0: map<nat, seq<Exchange<T>>>, log1: map<nat, seq<Exchange<T>>>, m: nat)
    requires rank < n && Tiled(|end|, n, micros, micro) && |start| == |middle| == |end| && m < micros
    requires InboxesOk(scatterIn, n, micros, micro) && InboxesOk(gatherIn, n, micros, micro)
    requires PhaseState(op, middle, start, n, rank, 0, micros, micro, scatterIn, Below(micros))
    requires PhaseState(op, end, middle, n, rank, 1, micros, micro, gatherIn, Below(micros))
    requires LogsOk(log0, op, start, n, rank, 0, micros, micro, scatterIn, Below(micros))
    requires LogsOk(log1, op, middle, n, rank, 1, micros, micro, gatherIn, Below(micros))
    ensures CallDone(op, start, end, n, rank, micros, micro, scatterIn, gatherIn, log0, log1, m)
  {
    assert RowState(op, middle, start, n, rank, 0, micros, micro, scatterIn, Below(micros), m);
    assert RowState(op, end, middle, n, rank, 1, micros, micro, gatherIn, Below(micros), m);
    assert LogState(log0, op, start, n, rank, 0, micros, micro, scatterIn, m);
    assert LogState(log1, op, middle, n, rank, 1, micros, micro, gatherIn, m);
  }

  /** What a whole call leaves in row `m`, and what its chain sent and awaited. */
  ghost predicate CallDone<T>(op: (T, T) -> T, start: seq<T>, end: seq<T>, n: nat, rank: nat, micros: nat, micro: nat,
                              scatterIn: seq<seq<seq<T>>>, gatherIn: seq<seq<seq<T>>>,
                              log0: map<nat, seq<Exchange<T>>>, log1: map<nat, seq<Exchange<T>>>, m: nat)
    requires rank < n && Tiled(|end|, n, micros, micro) && |start| == |end| && m < micros
    requires InboxesOk(scatterIn, n, micros, micro) && InboxesOk(gatherIn, n, micros, micro)
  {
    var row := Row(start, n, micros, micro, m);
    && Row(end, n, micros, micro, m) == AfterCall(op, n, rank, row, scatterIn[m], gatherIn[m])
    && m in log0 && Exchanged(log0[m], op, n, rank, 0, m, row, scatterIn[m])
    && m in log1 && Exchanged(log1[m], op, n, rank, 1, m, RunChain(Lift(op), n, rank, 0, row, scatterIn[m]), gatherIn[m])
  }

  /** `pipelined_ring`: the errors in the order of the checks; a call that is admitted does all its
      exchanges, and if it hears the ring it returns the reduced buffer. `RingCall.CallValid` and
      `RingCall.TilesExactly` say what is admitted in terms of the ring machine. */
  method PipelinedRing<T>(op: (T, T) -> T, blank: T, buf: array<T>, n: nat, rank: nat, micros: nat, maxInFlight: nat,
                          endpoint: bool, scatterIn: seq<seq<seq<T>>>, gatherIn: seq<seq<seq<T>>>)
    returns (res: Outcome, sent: seq<map<nat, seq<Exchange<T>>>>)
    requires rank < n || n == 0
    requires n >= 2 && 1 <= micros <= 255 && maxInFlight >= 1 && buf.Length % n == 0 && (buf.Length / n) % micros == 0 && endpoint ==>
      InboxesOk(scatterIn, n, micros, buf.Length / n / micros) && InboxesOk(gatherIn, n, micros, buf.Length / n / micros)
    modifies buf
    ensures n <= 1 ==> res == Done
    ensures n >= 2 && (micros == 0 || maxInFlight == 0) ==> res == Failed(ZeroConfig)
    ensures n >= 2 && micros > 255 && maxInFlight > 0 ==> res == Failed(TooManyMicroChunks)
    ensures n >= 2 && 1 <= micros <= 255 && maxInFlight >= 1 && (buf.Length % n != 0 || (buf.Length / n) % micros != 0) ==> res == Failed(BadShape)
    ensures n >= 2 && 1 <= micros <= 255 && maxInFlight >= 1 && buf.Length % n == 0 && (buf.Length / n) % micros == 0 && !endpoint ==> res == Failed(NoEndpoint)
    ensures n <= 1 || res.Failed? <==> sent == []
    ensures n <= 1 || res.Failed? ==> buf[..] == old(buf[..])
    ensures n >= 2 && 1 <= micros <= 255 && maxInFlight >= 1 && buf.Length % n == 0 && (buf.Length / n) % micros == 0 && endpoint ==>
      var micro := buf.Length / n / micros;
      && Tiled(buf.Length, n, micros, micro) && res == Done && |sent| == 2
      && (forall m :: 0 <= m < micros ==>
            CallDone(op, old(buf[..]), buf[..], n, rank, micros, micro, scatterIn, gatherIn, sent[0], sent[1], m))
      && (forall bufs :: InRing(op, bufs, n, rank, micros, micro, old(buf[..]), scatterIn, gatherIn) ==>
            buf[..] == RingBuffer(op, bufs, micros * micro))
  {
    sent := [];
    if n <= 1 {
      return Done, [];
    }
    if micros == 0 || maxInFlight == 0 {
      return Failed(ZeroConfig), [];
    }
    if micros > 255 {
      return Failed(TooManyMicroChunks), [];
    }
    if buf.Length % n != 0 {
      return Failed(BadShape), [];
    }
    var chunk := buf.Length / n;
    if chunk % micros != 0 {
      return Failed(BadShape), [];
    }
    var micro := chunk / micros;
    if !endpoint {
      return Failed(NoEndpoint), [];
    }
    TilesExactly(buf.Length, n, micros);
    sent := PumpBoth(op, blank, buf, n, rank, micros, micro, maxInFlight, scatterIn, gatherIn);
    res := Done;
  }

  /** Slot table, scratch buffers, and the two phases. */
  method PumpBoth<T>(op: (T, T) -> T, blank: T, buf: array<T>, n: nat, rank: nat, micros: nat, micro: nat, maxInFlight: nat,
                     scatterIn: seq<seq<seq<T>>>, gatherIn: seq<seq<seq<T>>>)
    returns (sent: seq<map<nat, seq<Exchange<T>>>>)
    requires 2 <= n && rank < n && 1 <= micros <= 255 && maxInFlight >= 1 && Tiled(buf.Length, n, micros, micro)
    requires InboxesOk(scatterIn, n, micros, micro) && InboxesOk(gatherIn, n, micros, micro)
    modifies buf
    ensures |sent| == 2
    ensures forall m :: 0 <= m < micros ==>
      CallDone(op, old(buf[..]), buf[..], n, rank, micros, micro, scatterIn, gatherIn, sent[0], sent[1], m)
    ensures forall bufs :: InRing(op, bufs, n, rank, micros, micro, old(buf[..]), scatterIn, gatherIn) ==>
      buf[..] == RingBuffer(op, bufs, micros * micro)
  {
    var slots := BuildSlots(n, micros, micro);
    var tmps := BuildScratch(blank, micros, micro);
    ghost var start := buf[..];
    var log0 := PumpPhase(op, buf, tmps, n, rank, 0, micros, micro, maxInFlight, slots, scatterIn);
    ghost var middle := buf[..];
    var log1 := PumpPhase(op, buf, tmps, n, rank, 1, micros, micro, maxInFlight, slots, gatherIn);
    forall m | 0 <= m < micros
      ensures CallDone(op, start, buf[..], n, rank, micros, micro, scatterIn, gatherIn, log0, log1, m)
    {
      TwoPhases(op, start, middle, buf[..], n, rank, micros, micro, scatterIn, gatherIn, log0, log1, m);
    }
    sent := [log0, log1];
    CallsReturn(op, start, buf[..], n, rank, micros, micro, scatterIn, gatherIn, log0, log1);
  }

  lemma CallsReturn<T>(op: (T, T) -> T, start: seq<T>, end: seq<T>, n: nat, rank: nat, micros: nat, micro: nat,
                       scatterIn: seq<seq<seq<T>>>, gatherIn: seq<seq<seq<T>>>,
                       log0: map<nat, seq<Exchange<T>>>, log1: map<nat, seq<Exchange<T>>>)
    requires 2 <= n && rank < n && 1 <= micros <= 255 && Tiled(|end|, n, micros, micro) && |start| == |end|
    requires InboxesOk(scatterIn, n, micros, micro) && InboxesOk(gatherIn, n, micros, micro)
    requires forall m :: 0 <= m < micros ==> CallDone(op, start, end, n, rank, micros, micro, scatterIn, gatherIn, log0, log1, m)
    ensures forall bufs :: InRing(op, bufs, n, rank, micros, micro, start, scatterIn, gatherIn) ==>
      end == RingBuffer(op, bufs, micros * micro)
  {
    forall bufs | InRing(op, bufs, n, rank, micros, micro, start, scatterIn, gatherIn)
      ensures end == RingBuffer(op, bufs, micros * micro)
    {
      forall m | 0 <= m < micros
        ensures Row(end, n, micros, micro, m) == AfterCall(op, n, rank, Row(start, n, micros, micro, m), scatterIn[m], gatherIn[m])
      {
        assert CallDone(op, start, end, n, rank, micros, micro, scatterIn, gatherIn, log0, log1, m);
      }
      CallReturns(op, bufs, n, rank, micros, micro, start, scatterIn, gatherIn, end);
    }
  }

  /** The plain ring: its two step loops are those of a chain with a single micro-chunk, so that slot
      `c` is the chunk at offset `c * chunk`. On one rank, or when a check fails, nothing is sent and nothing
      changes; every other call makes `n - 1` exchanges in each phase, and if it hears the ring it returns
      the reduced buffer. */
  method RingAllreduce<T>(op: (T, T) -> T, blank: T, buf: array<T>, n: nat, rank: nat, endpoint: bool,
                          scatterIn: seq<seq<T>>, gatherIn: seq<seq<T>>)
    returns (res: Outcome, scatterLog: seq<Exchange<T>>, gatherLog: seq<Exchange<T>>)
    requires rank < n || n == 0
    requires n >= 2 && buf.Length % n == 0 && endpoint ==>
      InboxOk(scatterIn, n, buf.Length / n) && InboxOk(gatherIn, n, buf.Length / n)
    modifies buf
    ensures n <= 1 ==> res == Done
    ensures n >= 2 && buf.Length % n != 0 ==> res == Failed(BadShape)
    ensures n >= 2 && buf.Length % n == 0 && !endpoint ==> res == Failed(NoEndpoint)
    ensures n <= 1 || res.Failed? <==> scatterLog == [] || gatherLog == []
    ensures n <= 1 || res.Failed? ==> buf[..] == old(buf[..]) && scatterLog == gatherLog == []
    ensures n >= 2 && buf.Length % n == 0 && endpoint ==>
      var chunk := buf.Length / n;
      && Tiled(buf.Length, n, 1, chunk) && res == Done && |scatterLog| == |gatherLog| == n - 1
      && (var row := old(Row(buf[..], n, 1, chunk, 0));
          && Row(buf[..], n, 1, chunk, 0) == AfterCall(op, n, rank, row, scatterIn, gatherIn)
          && Exchanged(scatterLog, op, n, rank, 0, 0, row, scatterIn)
          && Exchanged(gatherLog, op, n, rank, 1, 0, RunChain(Lift(op), n, rank, 0, row, scatterIn), gatherIn))
      && (forall bufs :: InRing(op, bufs, n, rank, 1, chunk, old(buf[..]), [scatterIn], [gatherIn]) ==>
            buf[..] == RingBuffer(op, bufs, chunk))
  {
    scatterLog, gatherLog := [], [];
    if n <= 1 {
      res := Done;
      return;
    }
    if buf.Length % n != 0 {
      res := Failed(BadShape);
      return;
    }
    var chunk := buf.Length / n;
    if !endpoint {
      res := Failed(NoEndpoint);
      return;
    }
    TilesExactly(buf.Length, n, 1);
    var slots := BuildSlots(n, 1, chunk);
    var tmp := new T[chunk](_ => blank);
    ghost var start := buf[..];
    scatterLog := ReduceScatterChain(op, buf, tmp, n, rank, 1, 0, slots, scatterIn);
    gatherLog := AllgatherChain(op, buf, n, rank, 1, chunk, 0, slots, gatherIn);
    PlainReturns(op, start, buf[..], n, rank, chunk, scatterIn, gatherIn);
    res := Done;
  }

  lemma PlainReturns<T>(op: (T, T) -> T, start: seq<T>, end: seq<T>, n: nat, rank: nat, chunk: nat,
                        scatterIn: seq<seq<T>>, gatherIn: seq<seq<T>>)
    requires 2 <= n && rank < n && Tiled(|end|, n, 1, chunk) && |start| == |end|
    requires InboxOk(scatterIn, n, chunk) && InboxOk(gatherIn, n, chunk)
    requires Row(end, n, 1, chunk, 0) == AfterCall(op, n, rank, Row(start, n, 1, chunk, 0), scatterIn, gatherIn)
    ensures forall bufs :: InRing(op, bufs, n, rank, 1, chunk, start, [scatterIn], [gatherIn]) ==> end == RingBuffer(op, bufs, chunk)
  {
    forall bufs | InRing(op, bufs, n, rank, 1, chunk, start, [scatterIn], [gatherIn]) ensures end == RingBuffer(op, bufs, chunk) {
      CallReturns(op, bufs, n, rank, 1, chunk, start, [scatterIn], [gatherIn], end);
    }
  }
}
