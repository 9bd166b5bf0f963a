/** The send queue may supersede and reorder, yet the client ends where it would have without the queue. */
module Coalescing {
  import opened Wrappers
  import opened Contracts
  import opened SendQueues
  import opened QueueRuns
  import opened MergeReducer

  function ApplyMessage(prev: Vessels, msg: ServerMessage): Vessels {
    match msg
    case PositionMessage(ev) => ApplyPosition(prev, ev)
    case StaticMessage(ev) => ApplyStatic(prev, ev)
    case EnrichedMessage(ev) => ApplyEnriched(prev, ev)
    case ErrorMessage(_) => prev
  }

  function ApplyAll(prev: Vessels, msgs: seq<ServerMessage>): Vessels {
    if msgs == [] then prev else ApplyMessage(ApplyAll(prev, msgs[..|msgs| - 1]), msgs[|msgs| - 1])
  }

  /** What is compared of a vessel: everything, or everything except its name. */
  function Seen(named: bool, v: Vessel): Vessel {
    if named then v else v.(name := None)
  }

  function Peek(named: bool, vessels: Vessels, mmsi: string): Option<Vessel> {
    if mmsi in vessels then Some(Seen(named, vessels[mmsi])) else None
  }

  /** Two clients that differ at most in vessel names. */
  ghost predicate SameButNames(a: Vessels, b: Vessels) {
    forall mmsi :: Peek(false, a, mmsi) == Peek(false, b, mmsi)
  }

  // ----- One vessel at a time -----

  /** What a message does to what is compared of one vessel. */
  function StepAt(named: bool, v: Option<Vessel>, msg: ServerMessage, mmsi: string): Option<Vessel> {
    var base := v.GetOr(EmptyVessel(mmsi));
    match msg
    case PositionMessage(ev) =>
      if ev.mmsi != mmsi || !IsNewer(Some(ev.occurredAt), base.occurredAt) then v else Some(Seen(named, Moved(base, ev)))
    case StaticMessage(ev) =>
      var accept := IsNewer(Some(ev.occurredAt), base.staticOccurredAt);
      if ev.mmsi != mmsi || (v.Some? && !accept) then v
      else Some(Seen(named, if accept then Profiled(base, ev) else base))
    case EnrichedMessage(ev) =>
      if ev.mmsi != mmsi || (base.sanctionsCheckedAt.Some? && ev.checkedAt < base.sanctionsCheckedAt.value) then v
      else Some(Seen(named, Judged(base, ev)))
    case ErrorMessage(_) => v
  }

  function FoldAt(named: bool, v: Option<Vessel>, msgs: seq<ServerMessage>, mmsi: string): Option<Vessel> {
    if msgs == [] then v else StepAt(named, FoldAt(named, v, msgs[..|msgs| - 1], mmsi), msgs[|msgs| - 1], mmsi)
  }

  lemma PeekStep(named: bool, vessels: Vessels, msg: ServerMessage, mmsi: string)
    ensures Peek(named, ApplyMessage(vessels, msg), mmsi) == StepAt(named, Peek(named, vessels, mmsi), msg, mmsi)
  {
  }

  lemma {:induction false} PeekAll(named: bool, vessels: Vessels, msgs: seq<ServerMessage>, mmsi: string)
    ensures Peek(named, ApplyAll(vessels, msgs), mmsi) == FoldAt(named, Peek(named, vessels, mmsi), msgs, mmsi)
  {
    if msgs != [] {
      hide ApplyMessage, StepAt, Peek;
      PeekAll(named, vessels, msgs[..|msgs| - 1], mmsi);
      PeekStep(named, ApplyAll(vessels, msgs[..|msgs| - 1]), msgs[|msgs| - 1], mmsi);
    }
  }

  lemma FoldSnoc(named: bool, v: Option<Vessel>, msgs: seq<ServerMessage>, msg: ServerMessage, mmsi: string)
    ensures FoldAt(named, v, msgs + [msg], mmsi) == StepAt(named, FoldAt(named, v, msgs, mmsi), msg, mmsi)
  {
    assert (msgs + [msg])[..|msgs + [msg]| - 1] == msgs;
  }

  lemma {:induction false} FoldConcat(named: bool, v: Option<Vessel>, a: seq<ServerMessage>, b: seq<ServerMessage>, mmsi: string)
    ensures FoldAt(named, v, a + b, mmsi) == FoldAt(named, FoldAt(named, v, a, mmsi), b, mmsi)
  {
    if b == [] {
      assert a + b == a;
    } else {
      hide StepAt;
      FoldConcat(named, v, a, b[..|b| - 1], mmsi);
      assert (a + b)[..|a + b| - 1] == a + b[..|b| - 1];
    }
  }

  // ----- The three exchanges -----

  /** A position with a name is not followed by one of its vessel without. */
  predicate NameSurvives(p: PositionEvent, q: PositionEvent) {
    p.mmsi == q.mmsi && p.shipName.Some? ==> q.shipName.Some?
  }

  /** A position and another message do not name their vessel differently. */
  predicate NamesCommute(p: PositionEvent, other: ServerMessage) {
    other.StaticMessage? && other.profile.mmsi == p.mmsi && other.profile.name.Some? && p.shipName.Some? ==>
      other.profile.name == p.shipName
  }

  /** A position and a message of another kind touch different fields. */
  lemma OtherCommutes(named: bool, v: Option<Vessel>, p: PositionEvent, other: ServerMessage, mmsi: string)
    requires !other.PositionMessage? && (named ==> NamesCommute(p, other))
    ensures StepAt(named, StepAt(named, v, PositionMessage(p), mmsi), other, mmsi) == StepAt(named, StepAt(named, v, other, mmsi), PositionMessage(p), mmsi)
  {
  }

  /** Positions of two vessels touch different vessels. */
  lemma PositionsCommute(named: bool, v: Option<Vessel>, p: PositionEvent, q: PositionEvent, mmsi: string)
    requires p.mmsi != q.mmsi
    ensures StepAt(named, StepAt(named, v, PositionMessage(p), mmsi), PositionMessage(q), mmsi) ==
      StepAt(named, StepAt(named, v, PositionMessage(q), mmsi), PositionMessage(p), mmsi)
  {
  }

  ghost predicate NotLater(p: PositionEvent, q: PositionEvent) {
    p.mmsi == q.mmsi ==> p.occurredAt <= q.occurredAt && p.ingestedAt <= q.ingestedAt
  }

  /** A position that is not later leaves no trace behind its successor. */
  lemma SupersededLeavesNoTrace(named: bool, v: Option<Vessel>, p: PositionEvent, q: PositionEvent, mmsi: string)
    requires p.mmsi == q.mmsi && NotLater(p, q) && (named ==> NameSurvives(p, q))
    ensures StepAt(named, StepAt(named, v, PositionMessage(p), mmsi), PositionMessage(q), mmsi) == StepAt(named, v, PositionMessage(q), mmsi)
  {
  }

  lemma {:induction false} OtherPassesSlots(
    named: bool, v: Option<Vessel>, slots: seq<PositionEvent>, other: ServerMessage, mmsi: string)
    requires !other.PositionMessage? && (named ==> forall i :: 0 <= i < |slots| ==> NamesCommute(slots[i], other))
    ensures FoldAt(named, StepAt(named, v, other, mmsi), AsMessages(slots), mmsi) == StepAt(named, FoldAt(named, v, AsMessages(slots), mmsi), other, mmsi)
  {
    if slots != [] {
      hide StepAt;
      var front := slots[..|slots| - 1];
      OtherPassesSlots(named, v, front, other, mmsi);
      assert slots == front + [slots[|slots| - 1]];
      FoldSlot(named, v, front, slots[|slots| - 1], mmsi);
      FoldSlot(named, StepAt(named, v, other, mmsi), front, slots[|slots| - 1], mmsi);
      hide FoldAt;
      OtherCommutes(named, FoldAt(named, v, AsMessages(front), mmsi), slots[|slots| - 1], other, mmsi);
    }
  }

  /** Superseding splits at the last slot: it is either the one replaced, or it stays as it is. */
  lemma SupersedeSplits(slots: seq<PositionEvent>, p: PositionEvent)
    requires OneSlotEach(slots) && slots != []
    ensures
      var front, last := slots[..|slots| - 1], slots[|slots| - 1];
      && OneSlotEach(front)
      && (last.mmsi == p.mmsi ==> Supersede(slots, p) == front + [p])
      && (last.mmsi != p.mmsi ==> Supersede(slots, p) == Supersede(front, p) + [last])
      && (last.mmsi != p.mmsi && HasSlot(slots, p.mmsi) ==> HasSlot(front, p.mmsi))
  {
    var front, last := slots[..|slots| - 1], slots[|slots| - 1];
    if last.mmsi != p.mmsi && HasSlot(slots, p.mmsi) {
      var i :| 0 <= i < |slots| && slots[i].mmsi == p.mmsi;
      assert front[i].mmsi == p.mmsi;
    }
  }

  lemma FoldSlot(named: bool, v: Option<Vessel>, slots: seq<PositionEvent>, p: PositionEvent, mmsi: string)
    ensures FoldAt(named, v, AsMessages(slots + [p]), mmsi) == StepAt(named, FoldAt(named, v, AsMessages(slots), mmsi), PositionMessage(p), mmsi)
  {
    hide StepAt, FoldAt;
    assert AsMessages(slots + [p]) == AsMessages(slots) + [PositionMessage(p)];
    FoldSnoc(named, v, AsMessages(slots), PositionMessage(p), mmsi);
  }

  lemma {:induction false} SupersedeActsLast(named: bool, v: Option<Vessel>, slots: seq<PositionEvent>, p: PositionEvent, mmsi: string)
    requires OneSlotEach(slots) && HasSlot(slots, p.mmsi)
    requires forall i :: 0 <= i < |slots| ==> NotLater(slots[i], p)
    requires named ==> forall i :: 0 <= i < |slots| ==> NameSurvives(slots[i], p)
    ensures FoldAt(named, v, AsMessages(Supersede(slots, p)), mmsi) == StepAt(named, FoldAt(named, v, AsMessages(slots), mmsi), PositionMessage(p), mmsi)
  {
    var front, last := slots[..|slots| - 1], slots[|slots| - 1];
    assert slots == front + [last];
    SupersedeSplits(slots, p);
    hide StepAt, FoldAt, HasSlot, OneSlotEach;
    FoldSlot(named, v, front, last, mmsi);
    var before := FoldAt(named, v, AsMessages(front), mmsi);
    if last.mmsi == p.mmsi {
      FoldSlot(named, v, front, p, mmsi);
      SupersededLeavesNoTrace(named, before, last, p, mmsi);
    } else {
      SupersedeActsLast(named, v, front, p, mmsi);
      FoldSlot(named, v, Supersede(front, p), last, mmsi);
      PositionsCommute(named, before, p, last, mmsi);
    }
  }

  // ----- Whole runs -----

  /** Per vessel, positions are accepted in nondecreasing event and ingestion time. */
  ghost predicate PositionsInOrder(msgs: seq<ServerMessage>) {
    forall i, j :: 0 <= i < j < |msgs| && msgs[i].PositionMessage? && msgs[j].PositionMessage? ==>
      NotLater(msgs[i].position, msgs[j].position)
  }

  lemma {:induction false} LastPositionIsAmong(msgs: seq<ServerMessage>, mmsi: string)
    requires LastPosition(msgs, mmsi).Some?
    ensures exists i :: 0 <= i < |msgs| && msgs[i] == PositionMessage(LastPosition(msgs, mmsi).value)
  {
    var last := msgs[|msgs| - 1];
    if last.PositionMessage? && last.position.mmsi == mmsi {
      assert msgs[|msgs| - 1] == PositionMessage(LastPosition(msgs, mmsi).value);
    } else {
      LastPositionIsAmong(msgs[..|msgs| - 1], mmsi);
      var i :| 0 <= i < |msgs| - 1 && msgs[..|msgs| - 1][i] == PositionMessage(LastPosition(msgs, mmsi).value);
      assert msgs[i] == PositionMessage(LastPosition(msgs, mmsi).value);
    }
  }

  /** Every queued position is not later than a newly accepted one of its vessel. */
  lemma SlotsNotLater(l: Ledger, p: PositionEvent)
    requires SlotsCurrent(l) && PositionsInOrder(l.accepted + [PositionMessage(p)])
    ensures forall i :: 0 <= i < |l.queue.slots| ==> NotLater(l.queue.slots[i], p)
  {
    forall i | 0 <= i < |l.queue.slots|
      ensures NotLater(l.queue.slots[i], p)
    {
      var slot := l.queue.slots[i];
      LastPositionIsAmong(l.accepted, slot.mmsi);
      var k :| 0 <= k < |l.accepted| && l.accepted[k] == PositionMessage(slot);
      var all := l.accepted + [PositionMessage(p)];
      assert all[k] == PositionMessage(slot) && all[|l.accepted|] == PositionMessage(p);
    }
  }

  /** A message whose name the queue neither loses nor reorders: it agrees with a name still queued for its vessel. */
  ghost predicate NameSafe(q: Queue, msg: ServerMessage) {
    forall i :: 0 <= i < |q.slots| ==>
      if msg.PositionMessage? then NameSurvives(q.slots[i], msg.position) else NamesCommute(q.slots[i], msg)
  }

  /** Every message put in a run is name safe when it comes. */
  ghost predicate NameSafeRun(ops: seq<QueueOp>, maxEntries: nat) {
    ops == [] ||
    (var front, op := ops[..|ops| - 1], ops[|ops| - 1];
     NameSafeRun(front, maxEntries) && (op.Put? ==> NameSafe(Run(front, maxEntries).queue, op.msg)))
  }

  /** What the client holds once the queue is flushed. */
  function Flushed(l: Ledger): seq<ServerMessage> {
    l.drained + Drained(l.queue)
  }

  lemma PutExchanges(named: bool, v: Option<Vessel>, l: Ledger, msg: ServerMessage, maxEntries: nat, mmsi: string)
    requires SlotsCurrent(l)
    requires Enqueue(l.queue, msg, maxEntries).1.Accepted? && !Enqueue(l.queue, msg, maxEntries).1.evicted
    requires PositionsInOrder(l.accepted + [msg]) && (named ==> NameSafe(l.queue, msg))
    ensures FoldAt(named, v, Flushed(Step(l, Put(msg), maxEntries)), mmsi) == StepAt(named, FoldAt(named, v, Flushed(l), mmsi), msg, mmsi)
  {
    hide StepAt, PositionsInOrder, FoldAt, SlotsCurrent, OneSlotEach;
    var q, next := l.queue, Enqueue(l.queue, msg, maxEntries).0;
    FlushedFold(named, v, l.drained, q, mmsi);
    FlushedFold(named, v, l.drained, next, mmsi);
    var w := FoldAt(named, v, l.drained, mmsi);
    var x := FoldAt(named, w, q.others, mmsi);
    if msg.PositionMessage? {
      if HasSlot(q.slots, msg.position.mmsi) {
        SlotsNotLater(l, msg.position);
        SlotsAreOneEach(l);
        SupersedeActsLast(named, x, q.slots, msg.position, mmsi);
      } else {
        assert AsMessages(q.slots + [msg.position]) == AsMessages(q.slots) + [msg];
        FoldSnoc(named, x, AsMessages(q.slots), msg, mmsi);
      }
    } else {
      FoldSnoc(named, w, q.others, msg, mmsi);
      OtherPassesSlots(named, x, q.slots, msg, mmsi);
    }
  }

  lemma SlotsAreOneEach(l: Ledger)
    requires SlotsCurrent(l)
    ensures OneSlotEach(l.queue.slots)
  {
  }

  lemma FlushedFold(named: bool, v: Option<Vessel>, drained: seq<ServerMessage>, q: Queue, mmsi: string)
    ensures FoldAt(named, v, drained + Drained(q), mmsi) ==
      FoldAt(named, FoldAt(named, FoldAt(named, v, drained, mmsi), q.others, mmsi), AsMessages(q.slots), mmsi)
  {
    FoldConcat(named, v, drained, Drained(q), mmsi);
    FoldConcat(named, FoldAt(named, v, drained, mmsi), q.others, AsMessages(q.slots), mmsi);
  }

  lemma {:induction false} FlushedEqualsAccepted(named: bool, v: Option<Vessel>, ops: seq<QueueOp>, maxEntries: nat, mmsi: string)
    requires Run(ops, maxEntries).evicted == 0 && PositionsInOrder(Run(ops, maxEntries).accepted)
    requires named ==> NameSafeRun(ops, maxEntries)
    ensures FoldAt(named, v, Flushed(Run(ops, maxEntries)), mmsi) == FoldAt(named, v, Run(ops, maxEntries).accepted, mmsi)
  {
    if ops != [] {
      var front, op := ops[..|ops| - 1], ops[|ops| - 1];
      var l := Run(front, maxEntries);
      assert Run(ops, maxEntries) == Step(l, op, maxEntries);
      hide StepAt, Kept, Step, Run, PositionsInOrder, SlotsCurrent, Flushed, FoldAt, NameSafe;
      RunKeeps(front, maxEntries);
      KeptHasCurrentSlots(l, maxEntries);
      StepOnlyAdds(l, op, maxEntries);
      FlushedEqualsAccepted(named, v, front, maxEntries, mmsi);
      match op
      case Put(msg) =>
        if Enqueue(l.queue, msg, maxEntries).1.Accepted? {
          PutExchanges(named, v, l, msg, maxEntries, mmsi);
          FoldSnoc(named, v, l.accepted, msg, mmsi);
        }
      case Drain =>
    } else {
      assert Flushed(START) == [];
    }
  }

  lemma KeptHasCurrentSlots(l: Ledger, maxEntries: nat)
    requires Kept(l, maxEntries)
    ensures SlotsCurrent(l)
  {
  }

  /** The history of a run only grows, so what holds of all of it holds of every part. */
  lemma StepOnlyAdds(l: Ledger, op: QueueOp, maxEntries: nat)
    ensures l.evicted <= Step(l, op, maxEntries).evicted
    ensures PositionsInOrder(Step(l, op, maxEntries).accepted) ==> PositionsInOrder(l.accepted)
    ensures op.Drain? ==>
      Flushed(Step(l, op, maxEntries)) == Flushed(l) && Step(l, op, maxEntries).accepted == l.accepted
    ensures op.Put? ==>
      match Enqueue(l.queue, op.msg, maxEntries).1
      case QueueOverflow => Step(l, op, maxEntries) == l
      case Accepted(_, evicted) =>
        && Step(l, op, maxEntries).accepted == l.accepted + [op.msg]
        && (evicted ==> Step(l, op, maxEntries).evicted > 0)
  {
    var next := Step(l, op, maxEntries);
    assert forall i :: 0 <= i < |l.accepted| ==> next.accepted[i] == l.accepted[i];
  }

  /**
   * Coalescing preserves meaning: after any run of accepted messages and drains without eviction, in which
   * each vessel's positions come in nondecreasing time, a client applying what was drained (and the final
   * flush) has the same vessels with the same fields, names aside, as one applying every accepted message
   * in its original order.
   */
  lemma CoalescingPreservesMeaning(client: Vessels, ops: seq<QueueOp>, maxEntries: nat)
    requires Run(ops, maxEntries).evicted == 0 && PositionsInOrder(Run(ops, maxEntries).accepted)
    ensures SameButNames(ApplyAll(client, Flushed(Run(ops, maxEntries))), ApplyAll(client, Run(ops, maxEntries).accepted))
  {
    hide ApplyAll, Run, Flushed, Peek;
    forall mmsi
      ensures Peek(false, ApplyAll(client, Flushed(Run(ops, maxEntries))), mmsi) ==
        Peek(false, ApplyAll(client, Run(ops, maxEntries).accepted), mmsi)
    {
      SamePeek(false, client, ops, maxEntries, mmsi);
    }
  }

  lemma SamePeek(named: bool, client: Vessels, ops: seq<QueueOp>, maxEntries: nat, mmsi: string)
    requires Run(ops, maxEntries).evicted == 0 && PositionsInOrder(Run(ops, maxEntries).accepted)
    requires named ==> NameSafeRun(ops, maxEntries)
    ensures
      var l := Run(ops, maxEntries);
      Peek(named, ApplyAll(client, Flushed(l)), mmsi) == Peek(named, ApplyAll(client, l.accepted), mmsi)
  {
    hide Peek, FoldAt, ApplyAll, Run, Flushed, NameSafeRun;
    PeekAll(named, client, Flushed(Run(ops, maxEntries)), mmsi);
    PeekAll(named, client, Run(ops, maxEntries).accepted, mmsi);
    FlushedEqualsAccepted(named, Peek(named, client, mmsi), ops, maxEntries, mmsi);
  }

  /**
   * Names included: when no position without a name supersedes a queued one with a name, and no static event is put
   * with another name than the one queued for its vessel, the two clients are equal in every field.
   */
  lemma CoalescingKeepsNames(client: Vessels, ops: seq<QueueOp>, maxEntries: nat)
    requires Run(ops, maxEntries).evicted == 0 && PositionsInOrder(Run(ops, maxEntries).accepted)
    requires NameSafeRun(ops, maxEntries)
    ensures ApplyAll(client, Flushed(Run(ops, maxEntries))) == ApplyAll(client, Run(ops, maxEntries).accepted)
  {
    hide ApplyAll, Run, Flushed, NameSafeRun;
    var a, b := ApplyAll(client, Flushed(Run(ops, maxEntries))), ApplyAll(client, Run(ops, maxEntries).accepted);
    forall mmsi ensures (mmsi in a <==> mmsi in b) && (mmsi in a ==> a[mmsi] == b[mmsi]) {
      SamePeek(true, client, ops, maxEntries, mmsi);
    }
  }

  /** Names are the exception: a static event overtakes the queued position, and the other name stays. */
  lemma NamesMayDiffer(p: PositionEvent, s: StaticEvent)
    requires p.mmsi == s.mmsi && p.shipName.Some? && s.name.Some? && p.shipName != s.name
    ensures
      var l := Run([Put(PositionMessage(p)), Put(StaticMessage(s))], 2);
      VesselAt(ApplyAll(map[], l.accepted), p.mmsi).name != VesselAt(ApplyAll(map[], Flushed(l)), p.mmsi).name
  {
    var first, second := PositionMessage(p), StaticMessage(s);
    TwoMessages(p, s);
    TwoPut(first, second);
    hide Run, Step, Flushed, ApplyAll;
    ApplyTwo(first, second);
    ApplyTwo(second, first);
  }

  /** A position without a name supersedes one with, and the name is lost. */
  lemma SupersededNameIsLost(p: PositionEvent, q: PositionEvent)
    requires p.mmsi == q.mmsi && p.shipName.Some? && q.shipName.None? && NotLater(p, q)
    ensures
      var l := Run([Put(PositionMessage(p)), Put(PositionMessage(q))], 2);
      VesselAt(ApplyAll(map[], l.accepted), p.mmsi).name != VesselAt(ApplyAll(map[], Flushed(l)), p.mmsi).name
  {
    var first, second := PositionMessage(p), PositionMessage(q);
    TwoPositions(p, q);
    TwoPut(first, second);
    hide Run, Step, Flushed, ApplyAll, ApplyPosition;
    ApplyTwo(first, second);
    ApplyOne(second);
    NameAfter(map[], p);
    NameAfter(map[], q);
    NameAfter(ApplyPosition(map[], p), q);
  }

  lemma NameAfter(prev: Vessels, ev: PositionEvent)
    ensures
      var base, after := VesselAt(prev, ev.mmsi), VesselAt(ApplyPosition(prev, ev), ev.mmsi);
      var newer := IsNewer(Some(ev.occurredAt), base.occurredAt);
      && after.name == (if newer then PreferNonNull(ev.shipName, base.name) else base.name)
      && after.occurredAt == (if newer then Some(ev.occurredAt) else base.occurredAt)
  {
    hide MaxTimestamp, TrackOf;
  }

  /** For two messages the condition is exact: they leave every client alike, in all fields, exactly when it holds. */
  lemma NameSafeIsExact(first: ServerMessage, second: ServerMessage)
    requires PositionsInOrder([first, second])
    ensures
      var ops := [Put(first), Put(second)];
      NameSafeRun(ops, 2) <==>
        forall client :: ApplyAll(client, Flushed(Run(ops, 2))) == ApplyAll(client, Run(ops, 2).accepted)
  {
    var ops := [Put(first), Put(second)];
    TwoPut(first, second);
    TwoAccepted(first, second);
    TwoSafe(first, second);
    if NameSafeRun(ops, 2) {
      forall client ensures ApplyAll(client, Flushed(Run(ops, 2))) == ApplyAll(client, Run(ops, 2).accepted) {
        CoalescingKeepsNames(client, ops, 2);
      }
    } else if second.PositionMessage? {
      assert NotLater([first, second][0].position, [first, second][1].position);
      SupersededNameIsLost(first.position, second.position);
    } else {
      NamesMayDiffer(first.position, second.profile);
    }
  }

  lemma TwoPut(first: ServerMessage, second: ServerMessage)
    ensures Run([Put(first), Put(second)], 2) == Step(Step(START, Put(first), 2), Put(second), 2)
    ensures Run([Put(first)], 2) == Step(START, Put(first), 2)
  {
    hide Step;
    var ops := [Put(first), Put(second)];
    assert ops[..1] == [Put(first)] && ops[..1][..0] == [];
    assert Run(ops[..1], 2) == Step(Run([], 2), Put(first), 2);
  }

  /** Two messages fit a queue of two. */
  lemma TwoAccepted(first: ServerMessage, second: ServerMessage)
    ensures
      var l := Step(Step(START, Put(first), 2), Put(second), 2);
      l.accepted == [first, second] && l.evicted == 0
  {
    assert START.accepted + [first] == [first] && [first] + [second] == [first, second];
    var one := Step(START, Put(first), 2);
    assert one.accepted == [first] && one.evicted == 0 && Size(one.queue) == 1;
  }

  /** Only a queued position with a name can be unsafe to follow. */
  lemma TwoSafe(first: ServerMessage, second: ServerMessage)
    ensures NameSafeRun([Put(first), Put(second)], 2) <==>
      !first.PositionMessage?
      || (if second.PositionMessage? then NameSurvives(first.position, second.position) else NamesCommute(first.position, second))
  {
    var ops := [Put(first), Put(second)];
    TwoPut(first, second);
    assert ops[..1] == [Put(first)] && ops[..1][..0] == [];
    assert Run([], 2).queue.slots == [];
    assert NameSafeRun(ops[..1], 2);
    var q := Step(START, Put(first), 2).queue;
    assert q.slots == if first.PositionMessage? then [first.position] else [];
    hide Run, Step, NamesCommute, NameSurvives;
    assert ops[1] == Put(second) && ops[0] == Put(first);
    assert NameSafeRun(ops, 2) <==> NameSafe(q, second);
    assert first.PositionMessage? ==> q.slots[0] == first.position;
  }

  lemma ApplyOne(a: ServerMessage)
    ensures ApplyAll(map[], [a]) == ApplyMessage(map[], a)
  {
    hide ApplyMessage;
    assert [a][..0] == [];
  }

  lemma TwoPositions(p: PositionEvent, q: PositionEvent)
    requires p.mmsi == q.mmsi
    ensures
      var l := Step(Step(START, Put(PositionMessage(p)), 2), Put(PositionMessage(q)), 2);
      l.accepted == [PositionMessage(p), PositionMessage(q)] && Flushed(l) == [PositionMessage(q)]
  {
    var one := Step(START, Put(PositionMessage(p)), 2);
    assert one.queue.slots == [p] && one.accepted == [PositionMessage(p)];
    assert HasSlot([p], q.mmsi) by { assert [p][0].mmsi == q.mmsi; }
    assert Supersede([p], q) == [q];
    assert AsMessages([q]) == [PositionMessage(q)];
  }

  lemma ApplyTwo(a: ServerMessage, b: ServerMessage)
    ensures ApplyAll(map[], [a, b]) == ApplyMessage(ApplyMessage(map[], a), b)
  {
    hide ApplyMessage;
    assert [a, b][..1] == [a] && [a][..0] == [];
    assert ApplyAll(map[], [a]) == ApplyMessage(map[], a);
  }

  lemma TwoMessages(p: PositionEvent, s: StaticEvent)
    ensures
      var l := Step(Step(START, Put(PositionMessage(p)), 2), Put(StaticMessage(s)), 2);
      l.accepted == [PositionMessage(p), StaticMessage(s)] && Flushed(l) == [StaticMessage(s), PositionMessage(p)]
  {
    assert !HasSlot(START.queue.slots, p.mmsi);
    assert START.queue.slots + [p] == [p] && START.accepted + [PositionMessage(p)] == [PositionMessage(p)];
    assert START.queue.others + [StaticMessage(s)] == [StaticMessage(s)];
    assert AsMessages([p]) == [PositionMessage(p)];
  }
}
