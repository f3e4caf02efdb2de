/** The executor's channel as a plain sequence: what each operation does and answers. `Spsc` implements it
    with a growing ring buffer. */
module Fifo {
  datatype SendResult<T> = Sent | Full(msg: T) | ReceiverGone(msg: T)
  datatype RecvResult<T> = Received(value: T) | Empty | SendersGone

  /** `items` front first; `cap` is the present capacity. */
  datatype Chan<T> = Chan(items: seq<T>, cap: nat, unbounded: bool, senders: nat, receiverAlive: bool)

  /** The capacity after the growth check of a send into a full queue. */
  function Grown<T>(c: Chan<T>): nat {
    if c.unbounded && |c.items| == c.cap then (if 2 * c.cap > 2 then 2 * c.cap else 2) else c.cap
  }

  function TrySend<T>(c: Chan<T>, msg: T): (r: (Chan<T>, SendResult<T>)) {
    if !c.receiverAlive then (c, ReceiverGone(msg))
    else if |c.items| >= Grown(c) then (c, Full(msg))
    else (c.(items := c.items + [msg], cap := Grown(c)), Sent)
  }

  function TryRecv<T>(c: Chan<T>): (r: (Chan<T>, RecvResult<T>)) {
    if c.items == [] then (c, if c.senders == 0 then SendersGone else Empty)
    else (c.(items := c.items[1..]), Received(c.items[0]))
  }

  datatype Op<T> = Send(msg: T) | Recv | CloneSender | DropSender | DropReceiver
  datatype Answer<T> = OfSend(sent: SendResult<T>) | OfRecv(received: RecvResult<T>) | NoAnswer

  function Apply<T>(c: Chan<T>, op: Op<T>): (r: (Chan<T>, Answer<T>)) {
    match op
    case Send(msg) => var (d, a) := TrySend(c, msg); (d, OfSend(a))
    case Recv => var (d, a) := TryRecv(c); (d, OfRecv(a))
    case CloneSender => (c.(senders := c.senders + 1), NoAnswer)
    case DropSender => (c.(senders := if c.senders > 0 then c.senders - 1 else 0), NoAnswer)
    case DropReceiver => (c.(receiverAlive := false), NoAnswer)
  }

  /** A whole session: the final channel and all answers. */
  function Session<T>(c: Chan<T>, ops: seq<Op<T>>): (r: (Chan<T>, seq<Answer<T>>))
    ensures |r.1| == |ops|
  {
    if ops == [] then (c, [])
    else
      var (d, answers) := Session(c, ops[..|ops| - 1]);
      var (e, a) := Apply(d, ops[|ops| - 1]);
      (e, answers + [a])
  }

  /** Accepted messages and received messages, each in order. */
  function Accepted<T>(ops: seq<Op<T>>, answers: seq<Answer<T>>): seq<T>
    requires |ops| == |answers|
  {
    if ops == [] then []
    else
      var last := |ops| - 1;
      Accepted(ops[..last], answers[..last]) +
      if ops[last].Send? && answers[last] == OfSend(Sent) then [ops[last].msg] else []
  }

  function Taken<T>(answers: seq<Answer<T>>): seq<T>
  {
    if answers == [] then []
    else
      var last := |answers| - 1;
      Taken(answers[..last]) +
      if answers[last].OfRecv? && answers[last].received.Received? then [answers[last].received.value] else []
  }

  /** FIFO and conservation over every session: what was accepted is what was received, in order, followed
      by what is still queued. Dropping the channel disposes of exactly that rest. */
  lemma {:induction false} FifoConservation<T>(c: Chan<T>, ops: seq<Op<T>>)
    ensures var (d, answers) := Session(c, ops);
      c.items + Accepted(ops, answers) == Taken(answers) + d.items
  {
    if ops != [] {
      var last := |ops| - 1;
      FifoConservation(c, ops[..last]);
      var (d, answers) := Session(c, ops[..last]);
      var (e, a) := Apply(d, ops[last]);
      assert Session(c, ops).1[..last] == answers;
      Regroup(c, d, e, ops[last], a, Accepted(ops[..last], answers), Taken(answers));
    }
  }

  lemma Regroup<T>(c: Chan<T>, d: Chan<T>, e: Chan<T>, op: Op<T>, a: Answer<T>, accepted: seq<T>, taken: seq<T>)
    requires (e, a) == Apply(d, op) && c.items + accepted == taken + d.items
    ensures c.items + (accepted + if op.Send? && a == OfSend(Sent) then [op.msg] else []) ==
            (taken + if a.OfRecv? && a.received.Received? then [a.received.value] else []) + e.items
  {
    if op.Send? && a == OfSend(Sent) {
      assert c.items + (accepted + [op.msg]) == (c.items + accepted) + [op.msg];
      assert taken + (d.items + [op.msg]) == (taken + d.items) + [op.msg];
    } else if a.OfRecv? && a.received.Received? {
      assert d.items == [d.items[0]] + e.items;
      assert (taken + [d.items[0]]) + e.items == taken + ([d.items[0]] + e.items);
    } else {
      assert accepted + [] == accepted && taken + [] == taken;
    }
  }

  /** Capacity over every session: the queue never exceeds it; a bounded queue keeps it and answers `Full`
      exactly when the queue has reached it; an unbounded queue never answers `Full`. */
  lemma {:induction false} CapacityKept<T>(c: Chan<T>, ops: seq<Op<T>>, msg: T)
    requires |c.items| <= c.cap
    ensures var d := Session(c, ops).0;
      && |d.items| <= d.cap && c.cap <= d.cap && (!c.unbounded ==> d.cap == c.cap) && d.unbounded == c.unbounded
      && (TrySend(d, msg).1.Full? <==> d.receiverAlive && !c.unbounded && |d.items| == c.cap)
      && (TrySend(d, msg).1.ReceiverGone? <==> !d.receiverAlive)
  {
    if ops != [] {
      CapacityKept(c, ops[..|ops| - 1], msg);
    }
  }

  // ----- the answers, from the history alone -----

  /** Sender handles that exist after `ops`: those at the start, plus clones, minus drops. */
  ghost function Handles<T>(senders: nat, ops: seq<Op<T>>): int {
    if ops == [] then senders
    else
      var last := |ops| - 1;
      Handles(senders, ops[..last]) + (if ops[last].CloneSender? then 1 else if ops[last].DropSender? then -1 else 0)
  }

  /** No sender is dropped that does not exist. */
  ghost predicate OwnedDrops<T>(senders: nat, ops: seq<Op<T>>) {
    forall i :: 0 <= i < |ops| && ops[i].DropSender? ==> Handles(senders, ops[..i]) > 0
  }

  /** What is queued after `ops`: everything accepted, in order, behind what was there at the start, less as
      many as have been received. */
  ghost function Waiting<T>(c: Chan<T>, ops: seq<Op<T>>, answers: seq<Answer<T>>): seq<T>
    requires |ops| == |answers| && |Taken(answers)| <= |c.items + Accepted(ops, answers)|
  {
    (c.items + Accepted(ops, answers))[|Taken(answers)|..]
  }

  lemma WaitingIsQueue<T>(c: Chan<T>, ops: seq<Op<T>>)
    ensures var (d, answers) := Session(c, ops);
      && |Taken(answers)| <= |c.items + Accepted(ops, answers)|
      && d.items == Waiting(c, ops, answers)
  {
    FifoConservation(c, ops);
  }

  lemma OwnedBefore<T>(senders: nat, ops: seq<Op<T>>, i: nat)
    requires OwnedDrops(senders, ops) && i <= |ops|
    ensures OwnedDrops(senders, ops[..i])
  {
    forall k | 0 <= k < i && ops[..i][k].DropSender? ensures Handles(senders, ops[..i][..k]) > 0 {
      assert ops[..i][..k] == ops[..k];
    }
  }

  /** The channel counts exactly the handles that exist. */
  lemma {:induction false} CountsHandles<T>(c: Chan<T>, ops: seq<Op<T>>)
    requires OwnedDrops(c.senders, ops)
    ensures Session(c, ops).0.senders == Handles(c.senders, ops)
  {
    if ops != [] {
      var last := |ops| - 1;
      OwnedBefore(c.senders, ops, last);
      CountsHandles(c, ops[..last]);
      assert ops[last].DropSender? ==> Handles(c.senders, ops[..last]) > 0;
    }
  }

  /** And it knows whether the receiver was dropped. */
  lemma {:induction false} KnowsReceiver<T>(c: Chan<T>, ops: seq<Op<T>>)
    ensures Session(c, ops).0.receiverAlive <==> c.receiverAlive && DropReceiver !in ops
  {
    if ops != [] {
      var last := |ops| - 1;
      assert ops == ops[..last] + [ops[last]];
      KnowsReceiver(c, ops[..last]);
    }
  }

  lemma {:induction false} AnswerOf<T>(c: Chan<T>, ops: seq<Op<T>>, i: nat)
    requires i < |ops|
    ensures Session(c, ops).1[i] == Apply(Session(c, ops[..i]).0, ops[i]).1
    ensures Session(c, ops).1[..i] == Session(c, ops[..i]).1
    decreases |ops|
  {
    var last := |ops| - 1;
    if i < last {
      AnswerOf(c, ops[..last], i);
      assert ops[..last][..i] == ops[..i];
      assert Session(c, ops).1[..i] == Session(c, ops[..last]).1[..i];
    }
  }

  /** What operation `i` of a session must answer, given the operations and the answers before it. */
  ghost function Due<T>(c: Chan<T>, before: seq<Op<T>>, answers: seq<Answer<T>>, op: Op<T>): Answer<T>
    requires |before| == |answers| && |Taken(answers)| <= |c.items + Accepted(before, answers)|
  {
    var queue := Waiting(c, before, answers);
    match op
    case Send(msg) =>
      if !c.receiverAlive || DropReceiver in before then OfSend(ReceiverGone(msg))
      else if !c.unbounded && |queue| == c.cap then OfSend(Full(msg))
      else OfSend(Sent)
    case Recv =>
      if queue != [] then OfRecv(Received(queue[0]))
      else if Handles(c.senders, before) == 0 then OfRecv(SendersGone)
      else OfRecv(Empty)
    case _ => NoAnswer
  }

  /** Every answer of every session follows from the history alone: a receive hands out the oldest message
      not yet received, and with none left says whether a sender handle still exists; a send comes back with
      its own message exactly when the receiver was dropped or a bounded channel holds `cap` messages. */
  lemma AnswersExact<T>(c: Chan<T>, ops: seq<Op<T>>, i: nat)
    requires |c.items| <= c.cap && OwnedDrops(c.senders, ops) && i < |ops|
    ensures var answers := Session(c, ops).1[..i];
      && |Taken(answers)| <= |c.items + Accepted(ops[..i], answers)|
      && Session(c, ops).1[i] == Due(c, ops[..i], answers, ops[i])
  {
    var before := ops[..i];
    OwnedBefore(c.senders, ops, i);
    AnswerOf(c, ops, i);
    WaitingIsQueue(c, before);
    CountsHandles(c, before);
    KnowsReceiver(c, before);
    if ops[i].Send? {
      CapacityKept(c, before, ops[i].msg);
    }
  }

  /** A receive reports disconnection exactly when everything accepted has been received and every sender
      handle is gone; a send, exactly when the receiver was dropped. */
  lemma DisconnectExact<T>(c: Chan<T>, ops: seq<Op<T>>, i: nat)
    requires |c.items| <= c.cap && OwnedDrops(c.senders, ops) && i < |ops|
    ensures var answers := Session(c, ops).1[..i]; var a := Session(c, ops).1[i];
      && |Taken(answers)| <= |c.items + Accepted(ops[..i], answers)|
      && (a == OfRecv(SendersGone) <==>
            ops[i].Recv? && Handles(c.senders, ops[..i]) == 0 && Taken(answers) == c.items + Accepted(ops[..i], answers))
      && (a == OfRecv(Empty) <==>
            ops[i].Recv? && Handles(c.senders, ops[..i]) != 0 && Taken(answers) == c.items + Accepted(ops[..i], answers))
      && (a.OfSend? && a.sent.ReceiverGone? <==> ops[i].Send? && (!c.receiverAlive || DropReceiver in ops[..i]))
  {
    AnswersExact(c, ops, i);
    AnswerOf(c, ops, i);
    FifoConservation(c, ops[..i]);
  }
}
