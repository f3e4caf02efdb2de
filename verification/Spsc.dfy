/** The single-threaded channel of the executor: a ring of slots with one sentinel, written at `head`, read
    at `tail`, doubled in place when an unbounded channel is full. */
module Spsc {
  import opened Fifo

  /** Storage that may hold a value: `MaybeUninit`. Reading moves the value out. */
  datatype Slot<T> = Uninit | Init(value: T)

  /** Position `k` places after `i` on a ring of `m`. */
  function Wrap(m: nat, i: nat, k: nat): (p: nat)
    requires i < m && k < m
    ensures p < m
  {
    if i + k < m then i + k else i + k - m
  }

  /** `i % m`: no index the channel keeps is changed by it. */
  function Reduced(m: nat, i: nat): (p: nat)
    requires i < m
    ensures p == i
  {
    i % m
  }

  function Succ(m: nat, i: nat): (p: nat)
    requires i < m && m >= 2
    ensures p == Wrap(m, i, 1)
  {
    (i + 1) % m
  }

  /** Elements between `tail` and `head`. */
  function Count(m: nat, head: nat, tail: nat): (c: nat)
    requires head < m && tail < m
    ensures c < m && Wrap(m, tail, c) == head
  {
    if head >= tail then head - tail else m - tail + head
  }

  /** `i` lies in the ring range `[tail, head)`. */
  predicate InRange(m: nat, head: nat, tail: nat, i: nat)
    requires head < m && tail < m && i < m
  {
    Count(m, i, tail) < Count(m, head, tail)
  }

  /** A slot is initialized exactly when it lies in `[tail, head)`. */
  ghost predicate RingOk<T>(s: seq<Slot<T>>, head: nat, tail: nat) {
    && |s| >= 2 && head < |s| && tail < |s|
    && forall i :: 0 <= i < |s| ==> (s[i].Init? <==> InRange(|s|, head, tail, i))
  }

  /** The values in the ring range, front first. */
  ghost function Queued<T>(s: seq<Slot<T>>, head: nat, tail: nat): (q: seq<T>)
    requires RingOk(s, head, tail)
    ensures |q| == Count(|s|, head, tail)
    ensures forall k :: 0 <= k < |q| ==> s[Wrap(|s|, tail, k)] == Init(q[k])
  {
    seq(Count(|s|, head, tail), k requires 0 <= k < Count(|s|, head, tail) => InitAt(s, head, tail, k))
  }

  ghost function InitAt<T>(s: seq<Slot<T>>, head: nat, tail: nat, k: nat): (v: T)
    requires RingOk(s, head, tail) && k < Count(|s|, head, tail)
    ensures s[Wrap(|s|, tail, k)] == Init(v)
  {
    s[Wrap(|s|, tail, k)].value
  }

  /** Writing at `head` appends. */
  lemma Pushed<T>(s: seq<Slot<T>>, head: nat, tail: nat, msg: T)
    requires RingOk(s, head, tail) && Count(|s|, head, tail) + 1 < |s|
    ensures s[head].Uninit? && RingOk(s[head := Init(msg)], Wrap(|s|, head, 1), tail)
    ensures Queued(s[head := Init(msg)], Wrap(|s|, head, 1), tail) == Queued(s, head, tail) + [msg]
  {
    var t, h := s[head := Init(msg)], Wrap(|s|, head, 1);
    assert Count(|s|, h, tail) == Count(|s|, head, tail) + 1;
    forall i | 0 <= i < |t| ensures t[i].Init? <==> InRange(|t|, h, tail, i) {
      assert s[i].Init? <==> InRange(|s|, head, tail, i);
    }
    var q, r := Queued(s, head, tail), Queued(t, h, tail);
    forall k | 0 <= k < |r| ensures r[k] == (q + [msg])[k] {
      assert t[Wrap(|t|, tail, k)] == Init(r[k]);
      assert k < |q| ==> s[Wrap(|s|, tail, k)] == Init(q[k]);
    }
  }

  /** Moving the value out at `tail` removes the front. */
  lemma Popped<T>(s: seq<Slot<T>>, head: nat, tail: nat)
    requires RingOk(s, head, tail) && head != tail
    ensures s[tail] == Init(Queued(s, head, tail)[0]) && RingOk(s[tail := Uninit], head, Wrap(|s|, tail, 1))
    ensures Queued(s[tail := Uninit], head, Wrap(|s|, tail, 1)) == Queued(s, head, tail)[1..]
  {
    var t, u := s[tail := Uninit], Wrap(|s|, tail, 1);
    assert Count(|s|, head, u) == Count(|s|, head, tail) - 1;
    forall i | 0 <= i < |t| ensures t[i].Init? <==> InRange(|t|, head, u, i) {
      assert s[i].Init? <==> InRange(|s|, head, tail, i);
    }
    var q, r := Queued(s, head, tail), Queued(t, head, u);
    assert s[Wrap(|s|, tail, 0)] == Init(q[0]);
    forall k | 0 <= k < |r| ensures r[k] == q[1..][k] {
      assert t[Wrap(|t|, u, k)] == Init(r[k]);
      assert s[Wrap(|s|, tail, k + 1)] == Init(q[k + 1]);
    }
  }

  /** `items` at the front, nothing behind. */
  ghost predicate Loaded<T>(s: seq<Slot<T>>, items: seq<T>) {
    |items| <= |s| && forall k :: 0 <= k < |s| ==> s[k] == if k < |items| then Init(items[k]) else Uninit
  }

  /** `new_buf[i].write(v)`. */
  method Place<T>(newBuf: array<Slot<T>>, ghost items: seq<T>, i: nat, v: T)
    requires i < |items| && i < newBuf.Length && Loaded(newBuf[..], items[..i]) && v == items[i]
    modifies newBuf
    ensures Loaded(newBuf[..], items[..i + 1])
  {
    newBuf[i] := Init(v);
  }

  lemma NothingLeft<T>(s: seq<Slot<T>>, head: nat, tail: nat)
    requires RingOk(s, head, tail) && |Queued(s, head, tail)| == 0
    ensures forall i :: 0 <= i < |s| ==> s[i] == Uninit
  {
    forall i | 0 <= i < |s| ensures s[i] == Uninit {
      assert s[i].Init? <==> InRange(|s|, head, tail, i);
    }
  }

  lemma FrontLoaded<T>(s: seq<Slot<T>>, items: seq<T>)
    requires |items| < |s| && |s| >= 2 && Loaded(s, items)
    ensures RingOk(s, |items|, 0) && Queued(s, |items|, 0) == items
  {
    var q := Queued(s, |items|, 0);
    forall k | 0 <= k < |q| ensures q[k] == items[k] {
      assert s[Wrap(|s|, 0, k)] == Init(q[k]);
    }
  }

  class Inner<T> {
    var buf: array<Slot<T>>
    var head: nat
    var tail: nat
    const unbounded: bool
    var senderCount: nat
    var receiverAlive: bool

    ghost predicate Valid()
      reads this, buf
    {
      RingOk(buf[..], head, tail)
    }

    ghost function Items(): (s: seq<T>)
      requires Valid()
      reads this, buf
    {
      Queued(buf[..], head, tail)
    }

    ghost function View(): Chan<T>
      requires Valid()
      reads this, buf
    {
      Chan(Items(), buf.Length - 1, unbounded, senderCount, receiverAlive)
    }

    constructor Bounded(cap: nat)
      requires cap > 0
      ensures Valid() && fresh(buf) && View() == Chan([], cap, false, 1, true)
    {
      buf := new Slot<T>[cap + 1](_ => Uninit);
      head, tail, unbounded, senderCount, receiverAlive := 0, 0, false, 1, true;
    }

    constructor Unbounded(initialCap: nat)
      ensures Valid() && fresh(buf)
      ensures View() == Chan([], if initialCap > 1 then initialCap else 1, true, 1, true)
    {
      var cap := if initialCap > 1 then initialCap else 1;
      buf := new Slot<T>[cap + 1](_ => Uninit);
      head, tail, unbounded, senderCount, receiverAlive := 0, 0, true, 1, true;
    }

    function Inc(i: nat): (j: nat)
      requires i < buf.Length
      reads this
      ensures j == Wrap(buf.Length, i, if buf.Length == 1 then 0 else 1)
    {
      if Reduced(buf.Length, i) + 1 == buf.Length then 0 else Reduced(buf.Length, i) + 1
    }

    method Len() returns (n: nat)
      requires Valid()
      ensures n == |View().items|
    {
      n := if head >= tail then head - tail else buf.Length - tail + head;
    }

    method IsEmpty() returns (b: bool)
      requires Valid()
      ensures b <==> View().items == []
    {
      b := head == tail;
    }

    method IsFull() returns (b: bool)
      requires Valid()
      ensures b <==> |View().items| == View().cap
    {
      b := Inc(head) == tail;
    }

    /** Moves the value out of slot `at`, the front of the range up to `stop`. */
    method TakeAt(stop: nat, at: nat) returns (v: T)
      requires RingOk(buf[..], stop, at) && at != stop
      modifies buf
      ensures RingOk(buf[..], stop, Wrap(buf.Length, at, 1))
      ensures old(Queued(buf[..], stop, at)) == [v] + Queued(buf[..], stop, Wrap(buf.Length, at, 1))
    {
      ghost var was := Queued(buf[..], stop, at);
      Popped(buf[..], stop, at);
      ghost var after := buf[..][at := Uninit];
      v := buf[at].value;
      buf[at] := Uninit;
      assert buf[..] == after && was == [was[0]] + was[1..];
    }

    /** Moves the elements, in order, to the front of a larger buffer. */
    method MoveOut(newBuf: array<Slot<T>>)
      requires Valid() && newBuf != buf && newBuf.Length > buf.Length
      requires Loaded(newBuf[..], [])
      modifies buf, newBuf
      ensures forall i :: 0 <= i < buf.Length ==> buf[i] == Uninit
      ensures Loaded(newBuf[..], old(Items()))
    {
      ghost var items := Items();
      var t: nat := tail;
      var count := Len();
      var i := 0;
      while i < count
        invariant 0 <= i <= count && t < buf.Length && RingOk(buf[..], head, t)
        invariant i + |Queued(buf[..], head, t)| == count && Queued(buf[..], head, t) == items[i..]
        invariant Loaded(newBuf[..], items[..i])
      {
        ghost var rest := items[i..];
        var v := TakeAt(head, t);
        assert v == rest[0] == items[i] && items[i + 1..] == rest[1..];
        Place(newBuf, items, i, v);
        t := Inc(t);
        i := i + 1;
      }
      assert items[..i] == items;
      NothingLeft(buf[..], head, t);
    }

    /** Doubles a full unbounded ring. */
    method TryGrow()
      requires Valid()
      modifies this, buf
      ensures Valid() && (buf == old(buf) || fresh(buf))
      ensures View() == old(View()).(cap := Grown(old(View())))
      ensures View().cap == if unbounded && |old(View()).items| == old(View()).cap then 2 * old(View()).cap else old(View()).cap
      ensures old(buf) != buf ==> forall i :: 0 <= i < old(buf).Length ==> old(buf)[i] == Uninit
    {
      var full := IsFull();
      if !unbounded || !full {
        return;
      }
      ghost var items := Items();
      var oldCap := buf.Length - 1;
      var newCap := if 2 * oldCap > 2 then 2 * oldCap else 2;
      var newBuf := new Slot<T>[newCap + 1](_ => Uninit);
      var count := Len();
      MoveOut(newBuf);
      tail, head := 0, count;
      buf := newBuf;
      FrontLoaded(buf[..], items);
    }

    method TrySend(msg: T) returns (r: SendResult<T>)
      requires Valid()
      modifies this, buf
      ensures Valid() && (buf == old(buf) || fresh(buf))
      ensures (View(), r) == Fifo.TrySend(old(View()), msg)
    {
      if !receiverAlive {
        return ReceiverGone(msg);
      }
      var full := IsFull();
      if full {
        TryGrow();
      }
      full := IsFull();
      if full {
        return Full(msg);
      }
      Write(msg);
      r := Sent;
    }

    /** Writes the uninitialized slot at `head`. */
    method Write(msg: T)
      requires Valid() && |View().items| < View().cap
      modifies this, buf
      ensures Valid() && buf == old(buf)
      ensures View() == old(View()).(items := old(View()).items + [msg])
    {
      Pushed(buf[..], head, tail, msg);
      ghost var after := buf[..][head := Init(msg)];
      buf[Reduced(buf.Length, head)] := Init(msg);
      assert buf[..] == after;
      head := Inc(head);
    }

    method TryRecv() returns (r: RecvResult<T>)
      requires Valid()
      modifies this, buf
      ensures Valid() && buf == old(buf)
      ensures View() == Fifo.TryRecv(old(View())).0 && r == Fifo.TryRecv(old(View())).1
    {
      if head == tail {
        return if senderCount == 0 then SendersGone else Empty;
      }
      Popped(buf[..], head, tail);
      ghost var after := buf[..][tail := Uninit];
      r := Received(buf[Reduced(buf.Length, tail)].value);
      buf[Reduced(buf.Length, tail)] := Uninit;
      assert buf[..] == after;
      tail := Inc(tail);
    }

    method CloneSender()
      requires Valid()
      modifies this
      ensures Valid() && buf == old(buf) && View() == old(View()).(senders := old(senderCount) + 1)
    {
      senderCount := senderCount + 1;
    }

    method DropSender()
      requires Valid()
      modifies this
      ensures Valid() && buf == old(buf)
      ensures View() == old(View()).(senders := if old(senderCount) > 0 then old(senderCount) - 1 else 0)
    {
      senderCount := if senderCount > 0 then senderCount - 1 else 0;
    }

    method DropReceiver()
      requires Valid()
      modifies this
      ensures Valid() && buf == old(buf) && View() == old(View()).(receiverAlive := false)
    {
      receiverAlive := false;
    }

    /** Dropping the channel: every element left is dropped once, in order, and no slot stays initialized. */
    method Drop() returns (dropped: seq<T>)
      requires Valid()
      modifies this, buf
      ensures dropped == old(View()).items
      ensures Valid() && View().items == [] && forall i :: 0 <= i < buf.Length ==> buf[i] == Uninit
    {
      ghost var items := Items();
      dropped := [];
      var m := buf.Length;
      var stop: nat := Reduced(m, head);
      var at: nat := Reduced(m, tail);
      while at != stop
        invariant m == buf.Length && head == stop < m && at < m && RingOk(buf[..], stop, at)
        invariant dropped + Queued(buf[..], stop, at) == items
        invariant buf == old(buf)
        decreases Count(m, stop, at)
      {
        var v := TakeAt(stop, at);
        dropped := dropped + [v];
        at := Succ(m, at);
      }
      tail := stop;
      assert buf[..][tail..tail] == [];
    }
  }

  /** A whole session on the ring answers as the plain queue does, growth included. */
  method RunSession<T>(ch: Inner<T>, ops: seq<Op<T>>) returns (answers: seq<Answer<T>>)
    requires ch.Valid()
    modifies ch, ch.buf
    ensures ch.Valid()
    ensures ch.View() == Session(old(ch.View()), ops).0 && answers == Session(old(ch.View()), ops).1
  {
    answers := [];
    ghost var start := ch.View();
    for i := 0 to |ops|
      invariant ch.Valid() && (ch.buf == old(ch.buf) || fresh(ch.buf))
      invariant ch.View() == Session(start, ops[..i]).0 && answers == Session(start, ops[..i]).1
    {
      assert ops[..i + 1][..i] == ops[..i];
      match ops[i]
      case Send(msg) =>
        var r := ch.TrySend(msg);
        answers := answers + [OfSend(r)];
      case Recv =>
        var r := ch.TryRecv();
        answers := answers + [OfRecv(r)];
      case CloneSender =>
        ch.CloneSender();
        answers := answers + [NoAnswer];
      case DropSender =>
        ch.DropSender();
        answers := answers + [NoAnswer];
      case DropReceiver =>
        ch.DropReceiver();
        answers := answers + [NoAnswer];
    }
    assert ops[..|ops|] == ops;
  }
}
