/** Whole runs of one send queue: what went in, what came out, and what was dropped on the way. */
module QueueRuns {
  import opened Wrappers
  import opened Contracts
  import opened SendQueues

  datatype QueueOp = Put(msg: ServerMessage) | Drain

  /**
   * The queue with the history of its run. `openings` records, for each vessel, how many messages had been
   * accepted when its current slot was opened; a superseded slot is not opened again.
   */
  datatype Ledger = Ledger(
    queue: Queue,
    accepted: seq<ServerMessage>,
    drained: seq<ServerMessage>,
    superseded: nat,
    evicted: nat,
    openings: map<string, nat>)

  const START := Ledger(EMPTY, [], [], 0, 0, map[])

  function Record(l: Ledger, msg: ServerMessage, q: Queue, r: EnqueueResult): Ledger {
    match r
    case QueueOverflow => l
    case Accepted(superseded, evicted) =>
      l.(queue := q,
         accepted := l.accepted + [msg],
         superseded := l.superseded + if superseded then 1 else 0,
         evicted := l.evicted + if evicted then 1 else 0,
         openings := if msg.PositionMessage? && !superseded then l.openings[msg.position.mmsi := |l.accepted|] else l.openings)
  }

  function Step(l: Ledger, op: QueueOp, maxEntries: nat): Ledger {
    match op
    case Put(msg) =>
      var (q, r) := Enqueue(l.queue, msg, maxEntries);
      Record(l, msg, q, r)
    case Drain => l.(queue := EMPTY, drained := l.drained + Drained(l.queue))
  }

  function Run(ops: seq<QueueOp>, maxEntries: nat): Ledger {
    if ops == [] then START else Step(Run(ops[..|ops| - 1], maxEntries), ops[|ops| - 1], maxEntries)
  }

  function Others(msgs: seq<ServerMessage>): seq<ServerMessage> {
    if msgs == [] then []
    else
      var last := msgs[|msgs| - 1];
      Others(msgs[..|msgs| - 1]) + if last.PositionMessage? then [] else [last]
  }

  function Positions(msgs: seq<ServerMessage>): nat {
    if msgs == [] then 0
    else Positions(msgs[..|msgs| - 1]) + if msgs[|msgs| - 1].PositionMessage? then 1 else 0
  }

  /** The last position of a vessel among some messages. */
  function LastPosition(msgs: seq<ServerMessage>, mmsi: string): Option<PositionEvent> {
    if msgs == [] then None
    else
      var last := msgs[|msgs| - 1];
      if last.PositionMessage? && last.position.mmsi == mmsi then Some(last.position)
      else LastPosition(msgs[..|msgs| - 1], mmsi)
  }

  lemma Snoc(msgs: seq<ServerMessage>, msg: ServerMessage)
    ensures (msgs + [msg])[..|msgs| + 1 - 1] == msgs
    ensures Others(msgs + [msg]) == Others(msgs) + if msg.PositionMessage? then [] else [msg]
    ensures Positions(msgs + [msg]) == Positions(msgs) + if msg.PositionMessage? then 1 else 0
  {
  }

  lemma {:induction false} OthersConcat(a: seq<ServerMessage>, b: seq<ServerMessage>)
    ensures Others(a + b) == Others(a) + Others(b)
    ensures Positions(a + b) == Positions(a) + Positions(b)
  {
    if b == [] {
      assert a + b == a;
    } else {
      var front, last := b[..|b| - 1], b[|b| - 1];
      OthersConcat(a, front);
      hide *;
      assert a + b == a + front + [last];
      assert b == front + [last];
      Snoc(a + front, last);
      Snoc(front, last);
      Regroup(Others(a), Others(front), if last.PositionMessage? then [] else [last]);
    }
  }

  lemma Regroup(x: seq<ServerMessage>, y: seq<ServerMessage>, z: seq<ServerMessage>)
    ensures x + y + z == x + (y + z)
  {
  }

  ghost predicate NoPositions(msgs: seq<ServerMessage>) {
    forall i :: 0 <= i < |msgs| ==> !msgs[i].PositionMessage?
  }

  lemma {:induction false} OthersOfOthers(msgs: seq<ServerMessage>)
    requires NoPositions(msgs)
    ensures Others(msgs) == msgs && Positions(msgs) == 0
  {
    if msgs != [] { OthersOfOthers(msgs[..|msgs| - 1]); }
  }

  lemma {:induction false} OthersOfSlots(slots: seq<PositionEvent>)
    ensures Others(AsMessages(slots)) == [] && Positions(AsMessages(slots)) == |slots|
  {
    if slots != [] {
      OthersOfSlots(slots[..|slots| - 1]);
      assert AsMessages(slots)[..|slots| - 1] == AsMessages(slots[..|slots| - 1]);
    }
  }

  // ----- What every step keeps -----

  /** FIFO order of the rest, and a place for every accepted position. */
  ghost predicate Balanced(l: Ledger) {
    && NoPositions(l.queue.others)
    && Others(l.accepted) == Others(l.drained) + l.queue.others
    && Positions(l.accepted) == Positions(l.drained) + l.superseded + l.evicted + |l.queue.slots|
  }

  /** Each slot holds its vessel's last accepted position, and slots stand in the order they were opened. */
  ghost predicate SlotsCurrent(l: Ledger) {
    && OneSlotEach(l.queue.slots)
    && (forall i :: 0 <= i < |l.queue.slots| ==> LastPosition(l.accepted, l.queue.slots[i].mmsi) == Some(l.queue.slots[i]))
    && OpenedInOrder(l)
  }

  ghost predicate OpenedInOrder(l: Ledger) {
    && (forall i :: 0 <= i < |l.queue.slots| ==> OpenedBefore(l, l.queue.slots[i].mmsi, |l.accepted|))
    && (forall i, j :: 0 <= i < j < |l.queue.slots| ==>
          OpenedBefore(l, l.queue.slots[i].mmsi, OpenedAt(l, l.queue.slots[j].mmsi)))
  }

  function OpenedAt(l: Ledger, mmsi: string): nat {
    if mmsi in l.openings then l.openings[mmsi] else 0
  }

  ghost predicate OpenedBefore(l: Ledger, mmsi: string, n: nat) {
    mmsi in l.openings && l.openings[mmsi] < n
  }

  ghost predicate Kept(l: Ledger, maxEntries: nat) {
    Size(l.queue) <= maxEntries && Balanced(l) && SlotsCurrent(l)
  }

  lemma PutBalances(l: Ledger, msg: ServerMessage, maxEntries: nat)
    requires Balanced(l)
    ensures Balanced(Step(l, Put(msg), maxEntries))
  {
    Snoc(l.accepted, msg);
    hide Others, Positions, HasSlot;
  }

  lemma DrainBalances(l: Ledger, maxEntries: nat)
    requires Balanced(l)
    ensures Balanced(Step(l, Drain, maxEntries))
  {
    OthersConcat(l.drained, Drained(l.queue));
    OthersConcat(l.queue.others, AsMessages(l.queue.slots));
    OthersOfOthers(l.queue.others);
    OthersOfSlots(l.queue.slots);
  }

  lemma LastAfter(msgs: seq<ServerMessage>, msg: ServerMessage, mmsi: string)
    ensures LastPosition(msgs + [msg], mmsi) ==
      if msg.PositionMessage? && msg.position.mmsi == mmsi then Some(msg.position) else LastPosition(msgs, mmsi)
  {
    assert (msgs + [msg])[..|msgs|] == msgs;
  }

  lemma PutKeepsSlots(l: Ledger, msg: ServerMessage, maxEntries: nat)
    requires SlotsCurrent(l)
    ensures SlotsCurrent(Step(l, Put(msg), maxEntries))
  {
    EnqueueKeepsOneSlotEach(l.queue, msg, maxEntries);
    PutKeepsOrder(l, msg, maxEntries);
    hide OpenedInOrder;
    var next := Step(l, Put(msg), maxEntries);
    forall i | 0 <= i < |next.queue.slots|
      ensures LastPosition(next.accepted, next.queue.slots[i].mmsi) == Some(next.queue.slots[i])
    {
      LastAfter(l.accepted, msg, next.queue.slots[i].mmsi);
    }
  }

  lemma PutKeepsOrder(l: Ledger, msg: ServerMessage, maxEntries: nat)
    requires OneSlotEach(l.queue.slots) && OpenedInOrder(l)
    ensures OpenedInOrder(Step(l, Put(msg), maxEntries))
  {
    hide LastPosition;
    if msg.PositionMessage? && !HasSlot(l.queue.slots, msg.position.mmsi) {
      assert forall i :: 0 <= i < |l.queue.slots| ==> l.queue.slots[i].mmsi != msg.position.mmsi;
      hide HasSlot;
    }
  }

  lemma StepKeeps(l: Ledger, op: QueueOp, maxEntries: nat)
    requires Kept(l, maxEntries)
    ensures Kept(Step(l, op, maxEntries), maxEntries)
  {
    hide Balanced, SlotsCurrent;
    match op
    case Put(msg) =>
      PutBalances(l, msg, maxEntries);
      PutKeepsSlots(l, msg, maxEntries);
    case Drain =>
      DrainBalances(l, maxEntries);
      DrainKeepsSlots(l, maxEntries);
  }

  lemma DrainKeepsSlots(l: Ledger, maxEntries: nat)
    ensures SlotsCurrent(Step(l, Drain, maxEntries))
  {
  }

  lemma {:induction false} RunKeeps(ops: seq<QueueOp>, maxEntries: nat)
    ensures Kept(Run(ops, maxEntries), maxEntries)
  {
    if ops != [] {
      hide Kept, Step;
      RunKeeps(ops[..|ops| - 1], maxEntries);
      StepKeeps(Run(ops[..|ops| - 1], maxEntries), ops[|ops| - 1], maxEntries);
    }
  }

  /**
   * Over any run from empty: the size never exceeds the cap, the drained and queued statics and enrichments
   * are exactly the accepted ones in order, every accepted position was drained, superseded, evicted or is
   * queued, and each queued position is the last accepted one of its vessel.
   */
  lemma Conservation(ops: seq<QueueOp>, maxEntries: nat)
    ensures
      var l := Run(ops, maxEntries);
      && Size(l.queue) <= maxEntries
      && Others(l.accepted) == Others(l.drained) + l.queue.others
      && Positions(l.accepted) == Positions(l.drained) + l.superseded + l.evicted + |l.queue.slots|
      && forall i :: 0 <= i < |l.queue.slots| ==> LastPosition(l.accepted, l.queue.slots[i].mmsi) == Some(l.queue.slots[i])
  {
    RunKeeps(ops, maxEntries);
  }

  /**
   * Nothing is lost while there is room: in every run a position is evicted exactly when the queue is full, its vessel
   * has no slot and another has one, and a message is refused exactly when the queue is full and it neither has a slot
   * nor can take one.
   */
  lemma LosesOnlyWhenFull(ops: seq<QueueOp>, maxEntries: nat, msg: ServerMessage)
    ensures
      var q := Run(ops, maxEntries).queue;
      var r := Enqueue(q, msg, maxEntries).1;
      var full := |q.slots| + |q.others| == maxEntries;
      var hasSlot := msg.PositionMessage? && exists i :: 0 <= i < |q.slots| && q.slots[i].mmsi == msg.position.mmsi;
      && (r.Accepted? && r.evicted <==> full && msg.PositionMessage? && !hasSlot && q.slots != [])
      && (r.Accepted? && r.superseded <==> hasSlot)
      && (r == QueueOverflow <==> full && !hasSlot && (msg.PositionMessage? ==> q.slots == []))
  {
    RunKeeps(ops, maxEntries);
    hide Run, Balanced, SlotsCurrent;
  }

  /** An eviction takes the vessel whose slot was opened earliest, and opens a slot for the newcomer last. */
  lemma EvictsEarliestOpened(ops: seq<QueueOp>, maxEntries: nat, p: PositionEvent)
    requires Enqueue(Run(ops, maxEntries).queue, PositionMessage(p), maxEntries).1 == Accepted(false, true)
    ensures
      var l := Run(ops, maxEntries);
      var after := Step(l, Put(PositionMessage(p)), maxEntries);
      && l.queue.slots != []
      && after.queue.slots == l.queue.slots[1..] + [p]
      && !HasSlot(after.queue.slots, l.queue.slots[0].mmsi)
      && forall i :: 1 <= i < |l.queue.slots| ==>
           OpenedAt(l, l.queue.slots[0].mmsi) < OpenedAt(l, l.queue.slots[i].mmsi)
  {
    RunKeeps(ops, maxEntries);
    var l := Run(ops, maxEntries);
    assert forall i :: 0 <= i < |l.queue.slots| ==> l.queue.slots[i].mmsi != p.mmsi by {
      assert !HasSlot(l.queue.slots, p.mmsi);
    }
  }
}
