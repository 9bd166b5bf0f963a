/** One connection of the realtime gateway: when its queue is drained, what is sent, and what is counted as dropped. */
module RealtimeGateway {
  import opened Wrappers
  import opened Contracts
  import opened SendQueues
  import QueueRuns

  /**
   * `open` is the socket's ready state, `registered` membership of the gateway's connections; `sent` is what
   * went over the socket, and the two counters are the dropped messages by reason.
   */
  datatype Conn = Conn(
    queue: Queue, open: bool, registered: bool, sent: seq<ServerMessage>, droppedSuperseded: nat, droppedOverflow: nat)

  const NEW := Conn(EMPTY, true, true, [], 0, 0)

  const OVERFLOW := ErrorMessage("QUEUE_OVERFLOW")

  /**
   * A message for the connection, with room on the socket or not; the socket leaving the open state; and its close or
   * error event or a failed heartbeat, which may come later and only then removes the connection.
   */
  datatype Event = Offer(msg: ServerMessage, room: bool) | SocketClosing | SocketGone

  function Flush(c: Conn, room: bool): Conn {
    if !c.open || !room then c else c.(queue := EMPTY, sent := c.sent + Drained(c.queue))
  }

  function Offered(c: Conn, msg: ServerMessage, room: bool, maxEntries: nat): Conn {
    if !c.registered then c
    else
      var (q, r) := Enqueue(c.queue, msg, maxEntries);
      match r
      case QueueOverflow =>
        c.(open := false, registered := false, droppedOverflow := c.droppedOverflow + 1,
           sent := if c.open then c.sent + [OVERFLOW] else c.sent)
      case Accepted(superseded, evicted) =>
        Flush(c.(queue := q,
                 droppedSuperseded := c.droppedSuperseded + if superseded then 1 else 0,
                 droppedOverflow := c.droppedOverflow + if evicted then 1 else 0), room)
  }

  function Apply(c: Conn, e: Event, maxEntries: nat): Conn {
    match e
    case Offer(msg, room) => Offered(c, msg, room, maxEntries)
    case SocketClosing => c.(open := false)
    case SocketGone => c.(open := false, registered := false)
  }

  function Run(es: seq<Event>, maxEntries: nat): Conn {
    if es == [] then NEW else Apply(Run(es[..|es| - 1], maxEntries), es[|es| - 1], maxEntries)
  }

  class Connection {
    const queue: SendQueue
    var open: bool
    var registered: bool
    var sent: seq<ServerMessage>
    var droppedSuperseded: nat
    var droppedOverflow: nat

    constructor (maxEntries: nat)
      ensures fresh(queue) && queue.maxEntries == maxEntries && View() == NEW
    {
      queue := new SendQueue(maxEntries);
      open, registered := true, true;
      sent, droppedSuperseded, droppedOverflow := [], 0, 0;
    }

    function View(): Conn
      reads this, queue
    {
      Conn(queue.View(), open, registered, sent, droppedSuperseded, droppedOverflow)
    }

    /** `enqueue`: offer to the queue, disconnect on overflow, count what was dropped, and flush. */
    method EnqueueMessage(msg: ServerMessage, room: bool)
      modifies this, queue
      ensures View() == Offered(old(View()), msg, room, queue.maxEntries)
    {
      if !registered { return; }
      var r := queue.Put(msg);
      if r.QueueOverflow? {
        droppedOverflow := droppedOverflow + 1;
        SendError();
        open := false;
        Cleanup();
        return;
      }
      if r.superseded { droppedSuperseded := droppedSuperseded + 1; }
      if r.evicted { droppedOverflow := droppedOverflow + 1; }
      FlushQueue(room);
    }

    method SendError()
      modifies this`sent
      ensures sent == if open then old(sent) + [OVERFLOW] else old(sent)
    {
      if open { sent := sent + [OVERFLOW]; }
    }

    method Cleanup()
      modifies this`registered
      ensures !registered
    {
      registered := false;
    }

    /** `flush`: nothing while the socket is not open or its buffer is full, else everything queued. */
    method FlushQueue(room: bool)
      modifies this`sent, queue
      ensures View() == Flush(old(View()), room)
    {
      if !open { return; }
      if !room { return; }
      var out := queue.Drain();
      ghost var before := sent;
      for i := 0 to |out|
        invariant sent == before + out[..i]
        invariant queue.View() == EMPTY
        modifies this`sent
      {
        sent := sent + [out[i]];
      }
      assert out[..|out|] == out;
    }
  }

  /** What an event does to the queue: an offer to a registered connection is put, and drained if it can be sent. */
  function QueueOps(c: Conn, e: Event, maxEntries: nat): seq<QueueRuns.QueueOp> {
    if !e.Offer? || !c.registered || Enqueue(c.queue, e.msg, maxEntries).1.QueueOverflow? then []
    else if c.open && e.room then [QueueRuns.Put(e.msg), QueueRuns.Drain]
    else [QueueRuns.Put(e.msg)]
  }

  function AllQueueOps(es: seq<Event>, maxEntries: nat): seq<QueueRuns.QueueOp> {
    if es == [] then []
    else AllQueueOps(es[..|es| - 1], maxEntries) + QueueOps(Run(es[..|es| - 1], maxEntries), es[|es| - 1], maxEntries)
  }

  /** Whether the connection was refused a message, and then whether its socket was still open. */
  datatype Refusal = NeverRefused | Refused(open: bool)

  /** What the refusal is after one more event. */
  function NextRefusal(c: Conn, e: Event, maxEntries: nat, refusal: Refusal, gone: bool): Refusal {
    if refusal.Refused? || gone then refusal
    else if e.Offer? && Enqueue(c.queue, e.msg, maxEntries).1.QueueOverflow? then Refused(c.open)
    else NeverRefused
  }

  /** The refusal of a run, if there was one: a message for a connection that had not been removed found its queue full. */
  function RefusalIn(es: seq<Event>, maxEntries: nat): Refusal {
    if es == [] then NeverRefused
    else
      var front := es[..|es| - 1];
      NextRefusal(Run(front, maxEntries), es[|es| - 1], maxEntries, RefusalIn(front, maxEntries), SocketGone in front)
  }

  function Count(refusal: Refusal): nat {
    if refusal.Refused? then 1 else 0
  }

  /** The error that reports a refusal goes out when the socket is open. */
  function Report(refusal: Refusal): seq<ServerMessage> {
    if refusal == Refused(true) then [OVERFLOW] else []
  }

  /** The connection's queue run, and how its counters read in that run's terms. */
  ghost predicate Mirrors(c: Conn, l: QueueRuns.Ledger, refusal: Refusal, gone: bool) {
    && c.queue == l.queue
    && (c.open ==> c.registered)
    && (c.registered <==> refusal == NeverRefused && !gone)
    && c.sent == l.drained + Report(refusal)
    && c.droppedSuperseded == l.superseded
    && c.droppedOverflow == l.evicted + Count(refusal)
  }

  lemma Unroll(ops: seq<QueueRuns.QueueOp>, op: QueueRuns.QueueOp, maxEntries: nat)
    ensures QueueRuns.Run(ops + [op], maxEntries) == QueueRuns.Step(QueueRuns.Run(ops, maxEntries), op, maxEntries)
  {
    assert (ops + [op])[..|ops + [op]| - 1] == ops;
  }

  lemma RefusedMirrored(c: Conn, msg: ServerMessage, room: bool, maxEntries: nat, l: QueueRuns.Ledger)
    requires Mirrors(c, l, NeverRefused, false) && c.registered && Enqueue(c.queue, msg, maxEntries).1.QueueOverflow?
    ensures Mirrors(Offered(c, msg, room, maxEntries), l, Refused(c.open), false)
  {
    assert l.drained + [] == l.drained;
    hide Enqueue, Drained;
  }

  lemma QueuedMirrored(c: Conn, msg: ServerMessage, maxEntries: nat, l: QueueRuns.Ledger)
    requires Mirrors(c, l, NeverRefused, false) && c.registered && Enqueue(c.queue, msg, maxEntries).1.Accepted?
    ensures
      var (q, r) := Enqueue(c.queue, msg, maxEntries);
      Mirrors(
        c.(queue := q,
           droppedSuperseded := c.droppedSuperseded + if r.superseded then 1 else 0,
           droppedOverflow := c.droppedOverflow + if r.evicted then 1 else 0),
        QueueRuns.Step(l, QueueRuns.Put(msg), maxEntries), NeverRefused, false)
  {
    hide Enqueue, Drained, Report;
  }

  lemma FlushMirrored(c: Conn, room: bool, maxEntries: nat, l: QueueRuns.Ledger)
    requires Mirrors(c, l, NeverRefused, false)
    ensures Mirrors(
      Flush(c, room), if c.open && room then QueueRuns.Step(l, QueueRuns.Drain, maxEntries) else l, NeverRefused, false)
  {
    assert forall s: seq<ServerMessage> :: s + Report(NeverRefused) == s;
    hide Drained, Report;
  }

  lemma OfferMirrored(
    c: Conn, msg: ServerMessage, room: bool, maxEntries: nat, ops: seq<QueueRuns.QueueOp>, refusal: Refusal, gone: bool)
    requires Mirrors(c, QueueRuns.Run(ops, maxEntries), refusal, gone) && c.registered
    ensures Mirrors(
      Offered(c, msg, room, maxEntries), QueueRuns.Run(ops + QueueOps(c, Offer(msg, room), maxEntries), maxEntries),
      NextRefusal(c, Offer(msg, room), maxEntries, refusal, gone), gone)
  {
    var l, put := QueueRuns.Run(ops, maxEntries), QueueRuns.Put(msg);
    var (q, r) := Enqueue(c.queue, msg, maxEntries);
    assert refusal == NeverRefused && !gone;
    hide QueueRuns.Run, QueueRuns.Step, Drained, Enqueue, Report, Mirrors, Flush;
    if r.QueueOverflow? {
      assert ops + [] == ops;
      RefusedMirrored(c, msg, room, maxEntries, l);
      hide Offered;
    } else {
      Unroll(ops, put, maxEntries);
      QueuedMirrored(c, msg, maxEntries, l);
      var queued := c.(queue := q,
        droppedSuperseded := c.droppedSuperseded + if r.superseded then 1 else 0,
        droppedOverflow := c.droppedOverflow + if r.evicted then 1 else 0);
      FlushMirrored(queued, room, maxEntries, QueueRuns.Step(l, put, maxEntries));
      if c.open && room { FlushedIsDrained(ops, put, maxEntries); }
    }
  }

  lemma FlushedIsDrained(ops: seq<QueueRuns.QueueOp>, put: QueueRuns.QueueOp, maxEntries: nat)
    ensures QueueRuns.Run(ops + [put, QueueRuns.Drain], maxEntries) ==
      QueueRuns.Step(QueueRuns.Run(ops + [put], maxEntries), QueueRuns.Drain, maxEntries)
  {
    Unroll(ops + [put], QueueRuns.Drain, maxEntries);
    assert ops + [put] + [QueueRuns.Drain] == ops + [put, QueueRuns.Drain];
  }

  lemma EventMirrored(c: Conn, e: Event, maxEntries: nat, ops: seq<QueueRuns.QueueOp>, refusal: Refusal, gone: bool)
    requires Mirrors(c, QueueRuns.Run(ops, maxEntries), refusal, gone)
    ensures Mirrors(
      Apply(c, e, maxEntries), QueueRuns.Run(ops + QueueOps(c, e, maxEntries), maxEntries),
      NextRefusal(c, e, maxEntries, refusal, gone), gone || e == SocketGone)
  {
    hide QueueRuns.Run, Drained, Enqueue;
    if e.Offer? && c.registered {
      OfferMirrored(c, e.msg, e.room, maxEntries, ops, refusal, gone);
      hide Offered, NextRefusal, QueueOps, Mirrors;
    } else {
      assert ops + [] == ops;
    }
  }

  lemma {:induction false} RunMirrored(es: seq<Event>, maxEntries: nat)
    ensures Mirrors(
      Run(es, maxEntries), QueueRuns.Run(AllQueueOps(es, maxEntries), maxEntries), RefusalIn(es, maxEntries), SocketGone in es)
  {
    if es == [] {
      assert QueueRuns.Run(AllQueueOps([], maxEntries), maxEntries).drained + [] == [];
    } else {
      var front, e := es[..|es| - 1], es[|es| - 1];
      assert es == front + [e];
      RunMirrored(front, maxEntries);
      EventMirrored(Run(front, maxEntries), e, maxEntries, AllQueueOps(front, maxEntries), RefusalIn(front, maxEntries),
        SocketGone in front);
      hide Mirrors, Apply, QueueOps, NextRefusal;
    }
  }

  lemma SentCounts(drained: seq<ServerMessage>, refusal: Refusal)
    ensures QueueRuns.Positions(drained + Report(refusal)) == QueueRuns.Positions(drained)
    ensures QueueRuns.Others(drained + Report(refusal)) == QueueRuns.Others(drained) + Report(refusal)
  {
    QueueRuns.Snoc(drained, OVERFLOW);
    assert drained + [] == drained;
    assert QueueRuns.Others(drained) + [] == QueueRuns.Others(drained);
  }

  /**
   * The gateway's counters balance over any run of a connection, its time between closing and removal included: each
   * accepted position was sent, counted as superseded, counted as overflow, or is still queued; one further overflow
   * counts the refusal, if there was one; the connection is removed exactly by a refusal or by its socket's end; and the
   * statics and enrichments sent are the accepted ones, in order, followed by the error that reports a refusal exactly
   * when the socket was still open then.
   */
  lemma CountersBalance(es: seq<Event>, maxEntries: nat)
    ensures
      var c, refusal := Run(es, maxEntries), RefusalIn(es, maxEntries);
      var accepted := QueueRuns.Run(AllQueueOps(es, maxEntries), maxEntries).accepted;
      && Size(c.queue) <= maxEntries
      && (c.registered <==> refusal == NeverRefused && SocketGone !in es)
      && QueueRuns.Positions(accepted) + (if refusal.Refused? then 1 else 0) ==
           QueueRuns.Positions(c.sent) + c.droppedSuperseded + c.droppedOverflow + |c.queue.slots|
      && exists others ::
           && QueueRuns.Others(accepted) == others + c.queue.others
           && QueueRuns.Others(c.sent) == others + if refusal == Refused(true) then [OVERFLOW] else []
  {
    RunMirrored(es, maxEntries);
    var ops := AllQueueOps(es, maxEntries);
    hide Run, QueueRuns.Run, AllQueueOps, RefusalIn;
    QueueRuns.Conservation(ops, maxEntries);
    SentCounts(QueueRuns.Run(ops, maxEntries).drained, RefusalIn(es, maxEntries));
  }
}
