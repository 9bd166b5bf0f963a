/**
 * Exactly-once effect in runs that also create and drop partitions: upserts may be dropped as stale, refused for want of
 * a partition and retried after maintenance, and rows disappear with their partitions.
 */
module MaintainedStorage {
  import opened Wrappers
  import opened Contracts
  import opened Calendar
  import opened HistoryPartitions
  import opened VesselStore
  import opened PartitionCoverage
  import opened ExactlyOnce
  import opened StorageRuns

  /** The positions that a run persisted, in order and with repeats. */
  function PersistedEvents(db: Db, ops: seq<Op>, policy: Policy): seq<PositionEvent> {
    if ops == [] then []
    else
      var front, op := ops[..|ops| - 1], ops[|ops| - 1];
      PersistedEvents(db, front, policy) +
      if op.UpsertOp? && Accepts(Run(db, front, policy), op.event, op.now, policy) then [op.event] else []
  }

  /** The cutoff of the last maintenance that got the lock, if there was one: no row from before it is left. */
  function Floor(ops: seq<Op>, policy: Policy): Option<int> {
    if ops == [] then None
    else
      var op := ops[|ops| - 1];
      if op.MaintainOp? && op.acquired then Some(StartOf(CutoffDay(op.now, policy))) else Floor(ops[..|ops| - 1], policy)
  }

  predicate Above(t: int, floor: Option<int>) {
    floor.Some? ==> t >= floor.value
  }

  /** What is left of some positions above the floor. */
  ghost function Left(es: seq<PositionEvent>, floor: Option<int>): set<Slot> {
    set slot | slot in Slots(es) && Above(slot.occurredAt, floor)
  }

  /** The rows that the database had at first and that are not below the floor. */
  ghost function Kept(db: Db, floor: Option<int>): set<Slot> {
    set slot | slot in db.history && Above(slot.occurredAt, floor)
  }

  /**
   * The tables are those of the first database and the persisted positions: the history above the floor, the latest
   * rows of all. `bound` is a time that no persisted position is before.
   */
  ghost predicate Outcome(db: Db, after: Db, es: seq<PositionEvent>, floor: Option<int>, bound: int, truth: Truth) {
    && after.history.Keys == Kept(db, floor) + Left(es, floor)
    && LatestIsGreatest(db, Slots(es), after.latest)
    && TruthfulTables(truth, after)
    && forall slot :: slot in Slots(es) ==> slot.occurredAt >= bound
  }

  lemma PersistOutcome(
    db: Db, before: Db, es: seq<PositionEvent>, floor: Option<int>, e: PositionEvent, bound: int, truth: Truth)
    requires Outcome(db, before, es, floor, bound, truth) && Truthful(truth, e) && Above(e.occurredAt, floor)
    requires e.occurredAt >= bound
    ensures Outcome(db, Persist(before, e), es + [e], floor, bound, truth)
  {
    hide LatestIsGreatest, UpsertLatest;
    PersistLatestOf(before, e);
    assert Slots(es + [e]) == Slots(es) + {SlotOf(e)};
    LatestStep(db, Slots(es), before.latest, e);
    PersistSlots(before, e);
    LeftGrows(es, e, floor);
    PersistIsTruthful(before, e, truth);
    hide Persist, Left, Kept, Slots, TruthfulTables;
  }

  lemma PersistLatestOf(before: Db, e: PositionEvent)
    ensures Persist(before, e).latest == UpsertLatest(before.latest, e)
  {
  }

  lemma LeftGrows(es: seq<PositionEvent>, e: PositionEvent, floor: Option<int>)
    requires Above(e.occurredAt, floor)
    ensures Left(es + [e], floor) == Left(es, floor) + {SlotOf(e)}
  {
    assert Slots(es + [e]) == Slots(es) + {SlotOf(e)};
  }

  lemma PersistIsTruthful(before: Db, e: PositionEvent, truth: Truth)
    requires TruthfulTables(truth, before) && Truthful(truth, e)
    ensures TruthfulTables(truth, Persist(before, e))
  {
  }

  lemma MaintainOutcome(
    db: Db, before: Db, after: Db, es: seq<PositionEvent>, floor: Option<int>, now: int, policy: Policy,
    bound: int, truth: Truth)
    requires Outcome(db, before, es, floor, bound, truth)
    requires after.history == RetainedRows(before.history, now, policy) && after.latest == before.latest
    requires floor.Some? ==> floor.value <= StartOf(CutoffDay(now, policy))
    ensures Outcome(db, after, es, Some(StartOf(CutoffDay(now, policy))), bound, truth)
  {
    hide CutoffDay, StartOf, LatestIsGreatest;
    var next := Some(StartOf(CutoffDay(now, policy)));
    assert after.history.Keys == Kept(db, next) + Left(es, next);
  }

  /** A position that is accepted lies above every earlier cutoff. */
  lemma {:induction false} FloorStaysBelow(db: Db, start: int, ops: seq<Op>, policy: Policy, now: int)
    requires ValidRun(db, start, ops, policy) && WindowNamed(start, policy) && WindowNamed(now, policy)
    requires Clock(start, ops) <= now
    ensures Floor(ops, policy).Some? ==> Floor(ops, policy).value <= StartOf(CutoffDay(now, policy))
  {
    hide CutoffDay, StartOf, WindowNamed, LastFutureDay, Run;
    if ops != [] {
      var front, op := ops[..|ops| - 1], ops[|ops| - 1];
      ClockMovesWindow(op.now, now, policy);
      StartsGrow(CutoffDay(op.now, policy), CutoffDay(now, policy));
      FloorStaysBelow(db, start, front, policy, now);
    }
  }

  lemma AcceptedUpsert(db: Db, e: PositionEvent, now: int, policy: Policy)
    ensures Accepts(db, e, now, policy) ==>
      Upsert(db, e, now, policy).0 == Persist(db, e) && e.occurredAt >= StartOf(CutoffDay(now, policy))
    ensures !Accepts(db, e, now, policy) ==> Upsert(db, e, now, policy).0 == db
  {
    hide CutoffDay, StartOf, Covered, Persist;
  }

  lemma FirstOutcome(db: Db, start: int, policy: Policy, first: set<int>, bound: int, truth: Truth)
    requires Consistent(db, start, policy, first, bound, truth)
    ensures Outcome(db, db, [], None, bound, truth) && Daily(db.partitions, first) && RowsHeld(db.history, first)
    ensures bound <= StartOf(CutoffDay(start, policy))
  {
    hide CutoffDay, StartOf, LatestTracks, Daily;
    assert Slots([]) == {};
    assert Vessels({}) == {};
    assert Kept(db, None) + Left([], None) == db.history.Keys;
  }

  lemma StepOutcome(
    db: Db, before: Db, es: seq<PositionEvent>, floor: Option<int>, op: Op, days: set<int>, first: set<int>, clock: int,
    policy: Policy, bound: int, truth: Truth)
    requires Outcome(db, before, es, floor, bound, truth) && Shape(before, clock, policy, days, first)
    requires ValidOp(before, clock, op, policy) && (op.UpsertOp? ==> Truthful(truth, op.event))
    requires floor.Some? ==> floor.value <= StartOf(CutoffDay(op.now, policy))
    requires bound <= StartOf(CutoffDay(op.now, policy))
    ensures
      var es' := es + if op.UpsertOp? && Accepts(before, op.event, op.now, policy) then [op.event] else [];
      var floor' := if op.MaintainOp? && op.acquired then Some(StartOf(CutoffDay(op.now, policy))) else floor;
      Outcome(db, Apply(before, op, policy), es', floor', bound, truth)
  {
    hide Outcome, CutoffDay, StartOf, Upsert, Maintain, Accepts, Daily, RowsHeld, WindowNamed, LastFutureDay, Persist;
    assert es + [] == es;
    match op
    case UpsertOp(now, e) =>
      AcceptedUpsert(before, e, now, policy);
      if Accepts(before, e, now, policy) { PersistOutcome(db, before, es, floor, e, bound, truth); }
    case MaintainOp(now, listing, acquired) =>
      if acquired {
        MaintainDaily(before, days, listing, now, policy);
        MaintainOutcome(db, before, Apply(before, op, policy), es, floor, now, policy, bound, truth);
      } else {
        SkippedChangesNothing(before, listing, now, policy);
      }
  }

  lemma {:induction false} RunOutcome(
    db: Db, start: int, ops: seq<Op>, policy: Policy, first: set<int>, bound: int, truth: Truth)
    requires Consistent(db, start, policy, first, bound, truth) && WindowNamed(start, policy)
    requires ValidRun(db, start, ops, policy) && TruthfulOps(truth, ops)
    ensures Outcome(db, Run(db, ops, policy), PersistedEvents(db, ops, policy), Floor(ops, policy), bound, truth)
  {
    hide *;
    FirstOutcome(db, start, policy, first, bound, truth);
    RunUnrolls(db, start, ops, policy, truth);
    if ops != [] {
      var front, op := ops[..|ops| - 1], ops[|ops| - 1];
      var before, clock := Run(db, front, policy), Clock(start, front);
      RunOutcome(db, start, front, policy, first, bound, truth);
      var days := RunKeepsShape(db, start, front, policy, first);
      OpWindow(before, clock, op, policy);
      FloorStaysBelow(db, start, front, policy, op.now);
      ClockFromStart(db, start, ops, policy);
      ClockMovesWindow(start, op.now, policy);
      StartsGrow(CutoffDay(start, policy), CutoffDay(op.now, policy));
      StepOutcome(db, before, PersistedEvents(db, front, policy), Floor(front, policy), op, days, first, clock, policy, bound, truth);
    }
  }

  lemma {:induction false} ClockFromStart(db: Db, start: int, ops: seq<Op>, policy: Policy)
    requires ValidRun(db, start, ops, policy)
    ensures start <= Clock(start, ops)
    ensures ops != [] ==> Clock(start, ops) == ops[|ops| - 1].now
  {
    if ops != [] {
      hide Run, WindowNamed;
      ClockFromStart(db, start, ops[..|ops| - 1], policy);
    }
  }

  lemma RunUnrolls(db: Db, start: int, ops: seq<Op>, policy: Policy, truth: Truth)
    requires ValidRun(db, start, ops, policy) && TruthfulOps(truth, ops)
    ensures ops == [] ==> Run(db, ops, policy) == db && PersistedEvents(db, ops, policy) == [] && Floor(ops, policy) == None
    ensures ops != [] ==>
      var front, op := ops[..|ops| - 1], ops[|ops| - 1];
      var before := Run(db, front, policy);
      && ValidRun(db, start, front, policy) && ValidOp(before, Clock(start, front), op, policy)
      && TruthfulOps(truth, front) && (op.UpsertOp? ==> Truthful(truth, op.event))
      && Run(db, ops, policy) == Apply(before, op, policy)
      && PersistedEvents(db, ops, policy) ==
           PersistedEvents(db, front, policy) + (if op.UpsertOp? && Accepts(before, op.event, op.now, policy) then [op.event] else [])
      && Floor(ops, policy) ==
           if op.MaintainOp? && op.acquired then Some(StartOf(CutoffDay(op.now, policy))) else Floor(front, policy)
  {
    hide Apply, ValidOp, Accepts, CutoffDay, StartOf, Truthful;
  }

  lemma OpWindow(db: Db, clock: int, op: Op, policy: Policy)
    requires ValidOp(db, clock, op, policy)
    ensures WindowNamed(op.now, policy) && clock <= op.now
  {
    hide WindowNamed;
  }

  /**
   * Two runs of upserts and maintenance, from one database in working order and with the same last cutoff, that persisted
   * the same positions from it on leave the same history, and the same latest row for every vessel with any history
   * left: whatever the order, the repeats, the refusals, the stale drops and the maintenance runs in between.
   */
  lemma SameTablesAcrossMaintenance(
    db: Db, start: int, xs: seq<Op>, start': int, ys: seq<Op>, policy: Policy, first: set<int>, bound: int, truth: Truth)
    requires Consistent(db, start, policy, first, bound, truth) && Consistent(db, start', policy, first, bound, truth)
    requires WindowNamed(start, policy) && WindowNamed(start', policy)
    requires ValidRun(db, start, xs, policy) && TruthfulOps(truth, xs)
    requires ValidRun(db, start', ys, policy) && TruthfulOps(truth, ys)
    requires Floor(xs, policy) == Floor(ys, policy)
    requires Left(PersistedEvents(db, xs, policy), Floor(xs, policy)) == Left(PersistedEvents(db, ys, policy), Floor(ys, policy))
    ensures
      var a, b := Run(db, xs, policy), Run(db, ys, policy);
      && a.history == b.history
      && forall slot :: slot in a.history ==>
           slot.mmsi in a.latest && slot.mmsi in b.latest && a.latest[slot.mmsi] == b.latest[slot.mmsi]
  {
    hide *;
    RunOutcome(db, start, xs, policy, first, bound, truth);
    RunOutcome(db, start', ys, policy, first, bound, truth);
    ConsistentTracks(db, start, policy, first, bound, truth);
    SameOutcome(db, Run(db, xs, policy), Run(db, ys, policy), PersistedEvents(db, xs, policy), PersistedEvents(db, ys, policy),
      Floor(xs, policy), bound, truth);
  }

  lemma ConsistentTracks(db: Db, start: int, policy: Policy, first: set<int>, bound: int, truth: Truth)
    requires Consistent(db, start, policy, first, bound, truth)
    ensures LatestTracks(db, bound)
  {
  }

  lemma SameOutcome(
    db: Db, a: Db, b: Db, es: seq<PositionEvent>, fs: seq<PositionEvent>, floor: Option<int>, bound: int, truth: Truth)
    requires LatestTracks(db, bound) && Outcome(db, a, es, floor, bound, truth) && Outcome(db, b, fs, floor, bound, truth)
    requires Left(es, floor) == Left(fs, floor)
    ensures a.history == b.history
    ensures forall slot :: slot in a.history ==>
      slot.mmsi in a.latest && slot.mmsi in b.latest && a.latest[slot.mmsi] == b.latest[slot.mmsi]
  {
    hide *;
    forall slot ensures slot in a.history <==> slot in b.history {
      KeysAreLeft(db, a, es, floor, bound, truth, slot);
      KeysAreLeft(db, b, fs, floor, bound, truth, slot);
    }
    forall slot | slot in a.history
      ensures a.history[slot] == b.history[slot]
      ensures slot.mmsi in a.latest && slot.mmsi in b.latest && a.latest[slot.mmsi] == b.latest[slot.mmsi]
    {
      KeysAreLeft(db, a, es, floor, bound, truth, slot);
      KeysAreLeft(db, b, fs, floor, bound, truth, slot);
      NewestLeft(db, a, es, floor, bound, truth, slot);
      NewestLeft(db, b, fs, floor, bound, truth, slot);
      NewestLeft(db, b, fs, floor, bound, truth, Slot(slot.mmsi, a.latest[slot.mmsi].occurredAt));
      NewestLeft(db, a, es, floor, bound, truth, Slot(slot.mmsi, b.latest[slot.mmsi].occurredAt));
    }
  }

  lemma KeysAreLeft(db: Db, a: Db, es: seq<PositionEvent>, floor: Option<int>, bound: int, truth: Truth, slot: Slot)
    requires Outcome(db, a, es, floor, bound, truth)
    ensures slot in a.history <==> slot in Kept(db, floor) || slot in Left(es, floor)
    ensures slot in a.history ==> a.history[slot] == truth(slot)
  {
    hide Left, Kept, LatestIsGreatest;
    assert slot in a.history <==> slot in a.history.Keys;
  }

  /** A vessel with history left has its newest row there. */
  lemma NewestLeft(db: Db, a: Db, es: seq<PositionEvent>, floor: Option<int>, bound: int, truth: Truth, slot: Slot)
    requires LatestTracks(db, bound) && Outcome(db, a, es, floor, bound, truth) && slot in a.history
    ensures slot.mmsi in a.latest && slot.occurredAt <= a.latest[slot.mmsi].occurredAt
    ensures Slot(slot.mmsi, a.latest[slot.mmsi].occurredAt) in a.history
    ensures a.latest[slot.mmsi].fix == truth(Slot(slot.mmsi, a.latest[slot.mmsi].occurredAt))
  {
    var v := slot.mmsi;
    KeysAreLeft(db, a, es, floor, bound, truth, slot);
    assert v in a.latest by { VesselIsKnown(db, a, es, floor, bound, truth, slot); }
    assert GreatestTime(db, Slots(es), v, a.latest[v].occurredAt);
    var newest := Slot(v, a.latest[v].occurredAt);
    KeysAreLeft(db, a, es, floor, bound, truth, newest);
    assert slot in db.history || slot in Slots(es);
    assert slot.occurredAt <= newest.occurredAt && slot.occurredAt >= bound;
    assert newest in Slots(es) || newest in db.history;
  }

  lemma VesselIsKnown(db: Db, a: Db, es: seq<PositionEvent>, floor: Option<int>, bound: int, truth: Truth, slot: Slot)
    requires LatestTracks(db, bound) && Outcome(db, a, es, floor, bound, truth)
    requires slot in Kept(db, floor) || slot in Left(es, floor)
    ensures slot.mmsi in a.latest
  {
    assert slot in db.history || slot in Slots(es);
    assert slot in Slots(es) ==> slot.mmsi in Vessels(Slots(es));
    assert slot.mmsi in a.latest.Keys;
  }
}
