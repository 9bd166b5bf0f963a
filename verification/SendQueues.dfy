/** The bounded per-connection send queue: coalescing position slots in insertion order, and a FIFO for the rest. */
module SendQueues {
  import opened Wrappers
  import opened Contracts

  /** The insertion-ordered `Map` of positions as the sequence of its values, one per vessel, and the FIFO. */
  datatype Queue = Queue(slots: seq<PositionEvent>, others: seq<ServerMessage>)

  datatype EnqueueResult = Accepted(superseded: bool, evicted: bool) | QueueOverflow

  predicate HasSlot(slots: seq<PositionEvent>, mmsi: string) {
    exists i :: 0 <= i < |slots| && slots[i].mmsi == mmsi
  }

  ghost predicate OneSlotEach(slots: seq<PositionEvent>) {
    forall i, j :: 0 <= i < j < |slots| ==> slots[i].mmsi != slots[j].mmsi
  }

  /** `Map.set` of a vessel that has a slot: the value changes, the slot stays in place. */
  function Supersede(slots: seq<PositionEvent>, p: PositionEvent): (r: seq<PositionEvent>)
    ensures |r| == |slots|
    ensures forall i :: 0 <= i < |slots| ==> r[i] == if slots[i].mmsi == p.mmsi then p else slots[i]
  {
    seq(|slots|, i requires 0 <= i < |slots| => if slots[i].mmsi == p.mmsi then p else slots[i])
  }

  function Size(q: Queue): nat {
    |q.slots| + |q.others|
  }

  function Enqueue(q: Queue, msg: ServerMessage, maxEntries: nat): (Queue, EnqueueResult) {
    match msg
    case PositionMessage(p) =>
      if HasSlot(q.slots, p.mmsi) then (q.(slots := Supersede(q.slots, p)), Accepted(true, false))
      else if Size(q) < maxEntries then (q.(slots := q.slots + [p]), Accepted(false, false))
      else if q.slots != [] then (q.(slots := q.slots[1..] + [p]), Accepted(false, true))
      else (q, QueueOverflow)
    case _ =>
      if Size(q) >= maxEntries then (q, QueueOverflow)
      else (q.(others := q.others + [msg]), Accepted(false, false))
  }

  function AsMessages(slots: seq<PositionEvent>): (msgs: seq<ServerMessage>)
    ensures |msgs| == |slots|
    ensures forall i :: 0 <= i < |slots| ==> msgs[i] == PositionMessage(slots[i])
  {
    seq(|slots|, i requires 0 <= i < |slots| => PositionMessage(slots[i]))
  }

  /** What a drain returns: statics and enrichments first, then the positions in slot order. */
  function Drained(q: Queue): seq<ServerMessage> {
    q.others + AsMessages(q.slots)
  }

  const EMPTY := Queue([], [])

  class SendQueue {
    const maxEntries: nat
    var positions: seq<PositionEvent>
    var others: seq<ServerMessage>

    constructor (maxEntries: nat)
      ensures this.maxEntries == maxEntries && View() == EMPTY
    {
      this.maxEntries := maxEntries;
      positions, others := [], [];
    }

    function View(): Queue
      reads this
    {
      Queue(positions, others)
    }

    function size(): nat
      reads this
    {
      |positions| + |others|
    }

    /** `enqueue`. */
    method Put(msg: ServerMessage) returns (result: EnqueueResult)
      modifies this
      ensures (View(), result) == Enqueue(old(View()), msg, maxEntries)
    {
      if msg.PositionMessage? {
        var p := msg.position;
        var at := FindSlot(p.mmsi);
        if at.Some? {
          SetInPlace(p);
          return Accepted(true, false);
        }
        var evicted := false;
        if size() >= maxEntries {
          if |positions| > 0 {
            positions := positions[1..];
            evicted := true;
          } else {
            return QueueOverflow;
          }
        }
        positions := positions + [p];
        return Accepted(false, evicted);
      }
      if size() >= maxEntries {
        return QueueOverflow;
      }
      others := others + [msg];
      result := Accepted(false, false);
    }

    /** `positions.has(mmsi)`, with the place of the entry. */
    method FindSlot(mmsi: string) returns (at: Option<nat>)
      ensures at.Some? <==> HasSlot(positions, mmsi)
      ensures at.Some? ==> at.value < |positions| && positions[at.value].mmsi == mmsi
    {
      for i := 0 to |positions|
        invariant forall j :: 0 <= j < i ==> positions[j].mmsi != mmsi
      {
        if positions[i].mmsi == mmsi { return Some(i); }
      }
      at := None;
    }

    method SetInPlace(p: PositionEvent)
      modifies this`positions
      ensures positions == Supersede(old(positions), p)
    {
      var before := positions;
      for i := 0 to |before|
        invariant |positions| == |before|
        invariant forall j :: 0 <= j < |before| ==>
          positions[j] == if j < i && before[j].mmsi == p.mmsi then p else before[j]
      {
        if before[i].mmsi == p.mmsi { positions := positions[i := p]; }
      }
    }

    /** `drain`: shift the FIFO empty, then walk the map, then clear it. */
    method Drain() returns (out: seq<ServerMessage>)
      modifies this
      ensures out == Drained(old(View())) && View() == EMPTY
    {
      out := [];
      while |others| > 0
        invariant out + others == old(others)
        invariant positions == old(positions)
        decreases |others|
      {
        out := out + [others[0]];
        others := others[1..];
      }
      for i := 0 to |positions|
        invariant positions == old(positions) && others == []
        invariant out == old(others) + AsMessages(positions)[..i]
      {
        out := out + [PositionMessage(positions[i])];
      }
      positions := [];
    }
  }

  /** A vessel never has two slots. */
  lemma EnqueueKeepsOneSlotEach(q: Queue, msg: ServerMessage, maxEntries: nat)
    requires OneSlotEach(q.slots)
    ensures OneSlotEach(Enqueue(q, msg, maxEntries).0.slots)
  {
    if msg.PositionMessage? && !HasSlot(q.slots, msg.position.mmsi) {
      assert forall i :: 0 <= i < |q.slots| ==> q.slots[i].mmsi != msg.position.mmsi;
    }
  }
}
