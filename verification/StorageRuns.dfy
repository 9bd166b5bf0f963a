/** Whole runs of position upserts and partition maintenance under a clock that never goes back. */
module StorageRuns {
  import opened Wrappers
  import opened Contracts
  import opened Calendar
  import opened PartitionNames
  import opened HistoryPartitions
  import opened VesselStore
  import opened PartitionCoverage
  import opened ExactlyOnce

  datatype Op =
    | UpsertOp(now: int, event: PositionEvent)
    | MaintainOp(now: int, listing: seq<string>, acquired: bool)

  function Apply(db: Db, op: Op, policy: Policy): Db {
    match op
    case UpsertOp(now, event) => Upsert(db, event, now, policy).0
    case MaintainOp(now, listing, acquired) => Maintain(db, listing, now, policy, acquired).0
  }

  function Run(db: Db, ops: seq<Op>, policy: Policy): Db {
    if ops == [] then db else Apply(Run(db, ops[..|ops| - 1], policy), ops[|ops| - 1], policy)
  }

  /** The clock after a run that started at `start`. */
  function Clock(start: int, ops: seq<Op>): int {
    if ops == [] then start else ops[|ops| - 1].now
  }

  ghost predicate ValidOp(db: Db, clock: int, op: Op, policy: Policy) {
    && op.now >= clock
    && WindowNamed(op.now, policy)
    && (op.MaintainOp? ==> Lists(op.listing, db.partitions))
  }

  /** The clock is nondecreasing within the named years, and each listing is what the database holds. */
  ghost predicate ValidRun(db: Db, start: int, ops: seq<Op>, policy: Policy) {
    ops == [] ||
    (var front := ops[..|ops| - 1];
     ValidRun(db, start, front, policy) &&
     ValidOp(Run(db, front, policy), Clock(start, front), ops[|ops| - 1], policy))
  }

  // ----- Partition coverage -----

  /** Only daily partitions, every row inside one, and beyond the window so far just the days there were at first. */
  ghost predicate Shape(db: Db, clock: int, policy: Policy, days: set<int>, first: set<int>) {
    && Daily(db.partitions, days)
    && RowsHeld(db.history, days)
    && forall d :: d > LastFutureDay(clock, policy) ==> (d in days <==> d in first)
  }

  lemma ClockMovesWindow(a: int, b: int, policy: Policy)
    requires a <= b && WindowNamed(a, policy) && WindowNamed(b, policy)
    ensures LastFutureDay(a, policy) <= LastFutureDay(b, policy)
    ensures CutoffDay(a, policy) <= CutoffDay(b, policy)
  {
    UtcDayIsDayOf(a);
    UtcDayIsDayOf(b);
    DaysGrow(a, b);
  }

  lemma DaysGrow(a: int, b: int)
    requires a <= b
    ensures DayOf(a) <= DayOf(b)
  {
  }

  lemma UpsertKeepsShape(db: Db, e: PositionEvent, now: int, policy: Policy, days: set<int>)
    requires Daily(db.partitions, days) && RowsHeld(db.history, days)
    ensures
      var after := Upsert(db, e, now, policy).0;
      after.partitions == db.partitions && RowsHeld(after.history, days)
  {
    hide Daily, Covered, Retained, DayOf, Upsert, Persist;
    DailyCovers(db.partitions, days, e.occurredAt);
    UpsertCases(db, e, now, policy);
    PersistSlots(db, e);
  }

  lemma UpsertCases(db: Db, e: PositionEvent, now: int, policy: Policy)
    ensures
      || Upsert(db, e, now, policy).0 == db
      || (&& Covered(db.partitions, e.occurredAt)
          && Retained(Some(e.occurredAt), now, policy)
          && Upsert(db, e, now, policy).0 == Persist(db, e))
  {
    hide Covered, Retained, Persist;
  }

  lemma PersistSlots(db: Db, e: PositionEvent)
    ensures Persist(db, e).history.Keys == db.history.Keys + {SlotOf(e)}
    ensures Persist(db, e).partitions == db.partitions
  {
  }

  lemma StepKeepsShape(
    db: Db, clock: int, op: Op, policy: Policy, days: set<int>, first: set<int>) returns (next: set<int>)
    requires Shape(db, clock, policy, days, first) && WindowNamed(clock, policy) && ValidOp(db, clock, op, policy)
    ensures Shape(Apply(db, op, policy), op.now, policy, next, first)
    ensures op.MaintainOp? && op.acquired ==> next == DaysAfter(days, op.now, policy)
  {
    hide Daily, RowsHeld, WindowNamed, LastFutureDay, CutoffDay, Upsert, Maintain;
    ClockMovesWindow(clock, op.now, policy);
    next := days;
    match op
    case UpsertOp(now, event) =>
      UpsertKeepsShape(db, event, now, policy, days);
    case MaintainOp(now, listing, acquired) =>
      if acquired {
        MaintainDaily(db, days, listing, now, policy);
        WindowElements(CutoffDay(now, policy), LastFutureDay(now, policy));
        CutoffBeforeLast(now, policy);
        next := DaysAfter(days, now, policy);
      } else {
        SkippedChangesNothing(db, listing, now, policy);
      }
  }

  lemma CutoffBeforeLast(now: int, policy: Policy)
    ensures CutoffDay(now, policy) <= LastFutureDay(now, policy)
  {
  }

  lemma SkippedChangesNothing(db: Db, listing: seq<string>, now: int, policy: Policy)
    ensures Maintain(db, listing, now, policy, false) == (db, LockHeld)
  {
  }

  lemma ValidClock(db: Db, start: int, ops: seq<Op>, policy: Policy)
    requires ValidRun(db, start, ops, policy) && WindowNamed(start, policy)
    ensures WindowNamed(Clock(start, ops), policy)
  {
  }

  lemma {:induction false} RunKeepsShape(db: Db, start: int, ops: seq<Op>, policy: Policy, first: set<int>)
    returns (days: set<int>)
    requires Daily(db.partitions, first) && RowsHeld(db.history, first) && WindowNamed(start, policy)
    requires ValidRun(db, start, ops, policy)
    ensures Shape(Run(db, ops, policy), Clock(start, ops), policy, days, first)
  {
    if ops == [] {
      days := first;
    } else {
      var front := ops[..|ops| - 1];
      var middle := RunKeepsShape(db, start, front, policy, first);
      ValidClock(db, start, front, policy);
      days := StepKeepsShape(Run(db, front, policy), Clock(start, front), ops[|ops| - 1], policy, middle, first);
    }
  }

  lemma {:induction false} DailyCount(ps: Partitions, days: set<int>)
    requires Daily(ps, days)
    ensures |ps| == |days|
    decreases |days|
  {
    hide Named, PartitionName, ParsePartitionDay;
    if days != {} {
      var d := Pick(days);
      var name := PartitionName(d);
      var rest := ps - {name};
      NamedRoundTrip(d);
      forall n | n in rest
        ensures IsNameOf(n, days - {d})
      {
        assert IsNameOf(n, days);
      }
      forall e | e in days - {d}
        ensures PartitionName(e) in rest
      {
        Distinguish(d, e, days, ps);
      }
      DailyCount(rest, days - {d});
      assert |ps.Keys| == |rest.Keys + {name}|;
    } else {
      assert forall name :: name in ps ==> IsNameOf(name, days);
      assert ps == map[];
    }
  }

  ghost predicate CoversExactly(ps: Partitions, first: int, last: int) {
    forall t {:trigger Covered(ps, t)} :: Covered(ps, t) <==> StartOf(first) <= t < StartOf(last + 1)
  }

  ghost predicate Disjoint(ps: Partitions) {
    forall t, a, b :: a in ps && b in ps && Holds(ps[a], t) && Holds(ps[b], t) ==> a == b
  }

  /** The partitions are as many as the days from `first` to `last`, leave no gap there, and never overlap. */
  ghost predicate Tiles(ps: Partitions, first: int, last: int) {
    |ps| == last + 1 - first && CoversExactly(ps, first, last) && Disjoint(ps)
  }

  lemma DailyTiles(ps: Partitions, days: set<int>, first: int, last: int)
    requires Daily(ps, days) && first <= last + 1
    requires forall d :: d in days <==> first <= d <= last
    ensures Tiles(ps, first, last)
  {
    hide Daily, Covered, DayOf, StartOf, Holds;
    DailyCount(ps, days);
    WindowElements(first, last);
    SameIntegers(days, Elements(DaysThrough(first, last)));
    forall t
      ensures Covered(ps, t) <==> StartOf(first) <= t < StartOf(last + 1)
    {
      DailyCovers(ps, days, t);
      CutoffSplitsDays(t, first);
      CutoffSplitsDays(t, last + 1);
    }
    forall t, a, b | a in ps && b in ps && Holds(ps[a], t) && Holds(ps[b], t)
      ensures a == b
    {
      DailyCovers(ps, days, t);
    }
  }

  lemma WindowAfterRun(days: set<int>, now: int, policy: Policy, d: int)
    ensures d in DaysAfter(days, now, policy) <==>
      CutoffDay(now, policy) <= d <= LastFutureDay(now, policy) || (d in days && d > LastFutureDay(now, policy))
  {
    CutoffBeforeLast(now, policy);
    hide CutoffDay, LastFutureDay;
    WindowElements(CutoffDay(now, policy), LastFutureDay(now, policy));
  }

  /** A daily partition after the window spoils the tiling. */
  lemma StrayDaySpoilsTiling(ps: Partitions, days: set<int>, first: int, last: int, stray: int)
    requires Daily(ps, days) && stray in days && stray > last
    ensures !Tiles(ps, first, last)
  {
    hide Daily, StartOf, DayOf;
    DailyCovers(ps, days, StartOf(stray));
    DayOfStart(stray);
    StartsGrow(last + 1, stray);
    assert Covered(ps, StartOf(stray));
  }

  lemma DayOfStart(d: int)
    ensures DayOf(StartOf(d)) == d
  {
  }

  /**
   * After every maintenance run that gets the lock, in every run from only daily partitions, the rows removed are
   * exactly those not retained at that run's time; and the partitions tile [cutoff, today + precreate + 1 day), as many
   * as retention + safety + precreate + 1 days, exactly when no daily partition was there at first beyond that end.
   */
  lemma CoverageAfterMaintenance(db: Db, start: int, ops: seq<Op>, policy: Policy, first: set<int>)
    requires Daily(db.partitions, first) && RowsHeld(db.history, first) && WindowNamed(start, policy)
    requires ValidRun(db, start, ops, policy) && ops != []
    requires ops[|ops| - 1].MaintainOp? && ops[|ops| - 1].acquired
    ensures
      var now, dayMs := ops[|ops| - 1].now, 24 * 60 * 60 * 1000;
      var cutoff := now / dayMs - policy.retentionDays - policy.safetyDays;
      var last := now / dayMs + policy.precreateDays;
      var before := Run(db, ops[..|ops| - 1], policy);
      var after := Run(db, ops, policy);
      && (forall slot :: slot in after.history <==> slot in before.history && slot.occurredAt >= cutoff * dayMs)
      && (forall slot :: slot in after.history ==> after.history[slot] == before.history[slot])
      && (Tiles(after.partitions, cutoff, last) <==> forall d :: d in first ==> d <= last)
  {
    hide *;
    var now := ops[|ops| - 1].now;
    LastMaintenance(db, start, ops, policy, first);
    WindowFromToday(now, policy);
    RetainedFromCutoff(Run(db, ops[..|ops| - 1], policy).history, now, policy);
  }

  lemma LastMaintenance(db: Db, start: int, ops: seq<Op>, policy: Policy, first: set<int>)
    requires Daily(db.partitions, first) && RowsHeld(db.history, first) && WindowNamed(start, policy)
    requires ValidRun(db, start, ops, policy) && ops != []
    requires ops[|ops| - 1].MaintainOp? && ops[|ops| - 1].acquired
    ensures
      var now := ops[|ops| - 1].now;
      && WindowNamed(now, policy)
      && Run(db, ops, policy).history == RetainedRows(Run(db, ops[..|ops| - 1], policy).history, now, policy)
      && (Tiles(Run(db, ops, policy).partitions, CutoffDay(now, policy), LastFutureDay(now, policy)) <==>
            forall d :: d in first ==> d <= LastFutureDay(now, policy))
  {
    var front, op := ops[..|ops| - 1], ops[|ops| - 1];
    var before := Run(db, front, policy);
    var days := RunKeepsShape(db, start, front, policy, first);
    ValidClock(db, start, front, policy);
    FinalWindow(before, days, Clock(start, front), op, policy, first);
    hide Tiles, Daily, RowsHeld, RetainedRows, WindowNamed, CutoffDay, LastFutureDay;
  }

  lemma RetainedFromCutoff(history: map<Slot, Fix>, now: int, policy: Policy)
    ensures
      var rows := RetainedRows(history, now, policy);
      && (forall slot :: slot in rows <==> slot in history && slot.occurredAt >= CutoffDay(now, policy) * (24 * 60 * 60 * 1000))
      && (forall slot :: slot in rows ==> rows[slot] == history[slot])
  {
    hide CutoffDay;
  }

  lemma FinalWindow(before: Db, days: set<int>, clock: int, op: Op, policy: Policy, first: set<int>)
    requires Shape(before, clock, policy, days, first) && WindowNamed(clock, policy) && ValidOp(before, clock, op, policy)
    requires op.MaintainOp? && op.acquired
    ensures Apply(before, op, policy).history == RetainedRows(before.history, op.now, policy)
    ensures Tiles(Apply(before, op, policy).partitions, CutoffDay(op.now, policy), LastFutureDay(op.now, policy)) <==>
      forall d :: d in first ==> d <= LastFutureDay(op.now, policy)
  {
    hide Daily, RowsHeld, WindowNamed, Maintain, Tiles, CutoffDay, LastFutureDay;
    MaintainDaily(before, days, op.listing, op.now, policy);
    ClockMovesWindow(clock, op.now, policy);
    CutoffBeforeLast(op.now, policy);
    var ps, next := Apply(before, op, policy).partitions, DaysAfter(days, op.now, policy);
    var cutoff, last := CutoffDay(op.now, policy), LastFutureDay(op.now, policy);
    hide DaysAfter;
    forall d
      ensures d in next <==> cutoff <= d <= last || (d in first && d > last)
    {
      WindowAfterRun(days, op.now, policy, d);
    }
    if stray :| stray in first && stray > last {
      StrayDaySpoilsTiling(ps, next, cutoff, last, stray);
    } else {
      DailyTiles(ps, next, cutoff, last);
    }
  }

  /** Exactly one partition holds the instant. */
  ghost predicate HeldOnce(ps: Partitions, t: int) {
    exists a :: a in ps && Holds(ps[a], t) && forall b :: b in ps && Holds(ps[b], t) ==> b == a
  }

  lemma CoveredOnce(ps: Partitions, t: int)
    requires Disjoint(ps)
    ensures Covered(ps, t) <==> HeldOnce(ps, t)
  {
  }

  /**
   * While the partitions tile up to `last`, a position is dropped as stale exactly when it is from before the cutoff of
   * the clock's day, refused for want of a partition exactly when it is from after the end of the last day, and
   * otherwise stored, in exactly one partition; dropped and refused positions change nothing.
   */
  lemma PositionsLandExactly(db: Db, e: PositionEvent, run: int, now: int, last: int, policy: Policy)
    requires Tiles(db.partitions, CutoffDay(run, policy), last)
    requires run <= now && WindowNamed(run, policy) && WindowNamed(now, policy)
    ensures
      var dayMs := 24 * 60 * 60 * 1000;
      var cutoff, end := (now / dayMs - policy.retentionDays - policy.safetyDays) * dayMs, (last + 1) * dayMs;
      var (after, outcome) := Upsert(db, e, now, policy);
      && (outcome == DroppedAsStale <==> e.occurredAt < cutoff)
      && (outcome == NoPartition <==> cutoff <= e.occurredAt && end <= e.occurredAt)
      && (outcome.Persisted? <==> cutoff <= e.occurredAt < end)
      && (outcome.Persisted? ==> HeldOnce(db.partitions, e.occurredAt))
      && (!outcome.Persisted? ==> after == db)
  {
    hide *;
    WindowFromToday(now, policy);
    TilesCover(db.partitions, CutoffDay(run, policy), last, e.occurredAt);
    CoveredOnce(db.partitions, e.occurredAt);
    ClockMovesWindow(run, now, policy);
    StartsGrow(CutoffDay(run, policy), CutoffDay(now, policy));
    UpsertOutcomes(db, e, now, policy);
    StartIs(CutoffDay(now, policy));
    StartIs(last + 1);
  }

  lemma StartIs(day: int)
    ensures StartOf(day) == day * (24 * 60 * 60 * 1000)
  {
  }

  lemma TilesCover(ps: Partitions, first: int, last: int, t: int)
    requires Tiles(ps, first, last)
    ensures Covered(ps, t) <==> StartOf(first) <= t < StartOf(last + 1)
    ensures Disjoint(ps)
  {
    hide Covered, StartOf, Disjoint;
  }

  lemma StartsGrow(a: int, b: int)
    requires a <= b
    ensures StartOf(a) <= StartOf(b)
  {
  }

  lemma UpsertOutcomes(db: Db, e: PositionEvent, now: int, policy: Policy)
    ensures
      var (after, outcome) := Upsert(db, e, now, policy);
      var retained := e.occurredAt >= StartOf(CutoffDay(now, policy));
      && (outcome.DroppedAsStale? <==> !retained)
      && (outcome.Persisted? <==> retained && Covered(db.partitions, e.occurredAt))
      && (outcome.NoPartition? <==> retained && !Covered(db.partitions, e.occurredAt))
      && (!outcome.Persisted? ==> after == db)
  {
    hide Covered, CutoffDay, StartOf, Persist;
  }

  /** A second run at the same time, right after a successful one, drops nothing and adds nothing. */
  lemma MaintenanceIsIdempotent(
    db: Db, days: set<int>, listing: seq<string>, again: seq<string>, now: int, policy: Policy)
    requires Daily(db.partitions, days) && RowsHeld(db.history, days) && WindowNamed(now, policy)
    requires Lists(listing, db.partitions)
    requires Lists(again, Maintain(db, listing, now, policy, true).0.partitions)
    ensures
      var once := Maintain(db, listing, now, policy, true).0;
      && Maintain(once, again, now, policy, true).0 == once
      && MakePlan(again, now, policy).drop == []
  {
    hide Daily, RowsHeld, WindowNamed, Maintain, DaysOf, DaysAfter, MakePlan, Lists, RetainedRows;
    MaintainDaily(db, days, listing, now, policy);
    var once := Maintain(db, listing, now, policy, true).0;
    var next := DaysAfter(days, now, policy);
    MaintainDaily(once, next, again, now, policy);
    PlannedDrops(once.partitions, next, again, now, policy);
    NothingBeforeCutoff(days, now, policy);
    NoDays(MakePlan(again, now, policy).drop);
    RetainedTwice(db.history, now, policy);
    SameDaysSamePartitions(once.partitions, Maintain(once, again, now, policy, true).0.partitions, next);
  }

  lemma RetainedTwice(history: map<Slot, Fix>, now: int, policy: Policy)
    ensures RetainedRows(RetainedRows(history, now, policy), now, policy) == RetainedRows(history, now, policy)
  {
    hide Retained;
  }

  lemma NothingBeforeCutoff(days: set<int>, now: int, policy: Policy)
    ensures forall d :: d in DaysAfter(days, now, policy) ==> d >= CutoffDay(now, policy)
    ensures DaysAfter(DaysAfter(days, now, policy), now, policy) == DaysAfter(days, now, policy)
  {
    hide CutoffDay, LastFutureDay;
    WindowElements(CutoffDay(now, policy), LastFutureDay(now, policy));
  }

  lemma NoDays(ps: seq<Planned>)
    ensures DaysOf(ps) == {} ==> ps == []
  {
    if ps != [] {
      assert ps[0] in ps;
      assert ps[0].day in DaysOf(ps);
    }
  }

  lemma SameDaysSamePartitions(a: Partitions, b: Partitions, days: set<int>)
    requires Daily(a, days) && Daily(b, days)
    ensures a == b
  {
    hide Named, PartitionName, ParsePartitionDay;
    assert forall name :: name in a ==> IsNameOf(name, days);
    assert forall name :: name in b ==> IsNameOf(name, days);
    assert forall name :: name in a <==> name in b;
    assert a.Keys == b.Keys;
  }

  /** A day's partition is listed and planned for dropping. */
  ghost predicate PlannedToDrop(day: int, listing: seq<string>, now: int, policy: Policy) {
    exists p :: p in MakePlan(listing, now, policy).drop && p.name == PartitionName(day)
  }

  /** Of the days whose partitions are listed, exactly those before the cutoff in the years 1000 to 9999 are dropped. */
  lemma DroppedExactly(day: int, listing: seq<string>, now: int, policy: Policy)
    requires PartitionName(day) in listing
    ensures PlannedToDrop(day, listing, now, policy) <==> day < CutoffDay(now, policy) && 1000 <= YearOf(day) <= 9999
  {
    ParseInvertsPrint(day);
    var cutoff, name := CutoffDay(now, policy), PartitionName(day);
    forall p: Planned | p.name == name
      ensures p in MakePlan(listing, now, policy).drop <==> ParsePartitionDay(name) == Some(p.day) && p.day < cutoff
    {
      DropPlanIsExact(listing, cutoff, p);
    }
    hide PartitionName, ParsePartitionDay, MakePlan, CutoffDay, YearOf;
    if day < cutoff && 1000 <= YearOf(day) <= 9999 {
      assert PlannedDay(day) in MakePlan(listing, now, policy).drop;
    }
  }

  /** Outside the named years maintenance leaks: a partition of the year 10000 is never planned for dropping. */
  lemma LaterYearsAreNeverDropped(day: int, listing: seq<string>, now: int, policy: Policy)
    requires YearOf(day) >= 10000
    ensures forall p :: p in MakePlan(listing, now, policy).drop ==> p.name != PartitionName(day)
  {
    hide YearOf, PartitionName, ParsePartitionDay;
    ParseInvertsPrint(day);
    forall p | p in MakePlan(listing, now, policy).drop
      ensures p.name != PartitionName(day)
    {
      DropPlanIsExact(listing, CutoffDay(now, policy), p);
    }
  }

  // ----- The latest row and the surviving history -----

  /** Every surviving row is from `floor` on, and from there the latest row is itself a surviving row. */
  ghost predicate LatestTracks(db: Db, floor: int) {
    && (forall slot :: slot in db.history ==>
          slot.occurredAt >= floor && slot.mmsi in db.latest && slot.occurredAt <= db.latest[slot.mmsi].occurredAt)
    && (forall v :: v in db.latest && db.latest[v].occurredAt >= floor ==> Slot(v, db.latest[v].occurredAt) in db.history)
  }

  lemma UpsertTracks(db: Db, e: PositionEvent, now: int, policy: Policy, floor: int, truth: Truth)
    requires LatestTracks(db, floor) && floor <= StartOf(CutoffDay(now, policy))
    requires TruthfulTables(truth, db) && Truthful(truth, e)
    ensures LatestTracks(Upsert(db, e, now, policy).0, floor)
    ensures TruthfulTables(truth, Upsert(db, e, now, policy).0)
  {
    hide CutoffDay, StartOf, Covered, Upsert, Persist, LatestTracks, TruthfulTables, Truthful;
    UpsertCases(db, e, now, policy);
    if e.occurredAt >= floor { PersistTracks(db, e, floor, truth); }
  }

  lemma PersistTracks(db: Db, e: PositionEvent, floor: int, truth: Truth)
    requires LatestTracks(db, floor) && floor <= e.occurredAt
    requires TruthfulTables(truth, db) && Truthful(truth, e)
    ensures LatestTracks(Persist(db, e), floor) && TruthfulTables(truth, Persist(db, e))
  {
    hide LatestTracks;
    PersistKeepsLatest(db, e, floor);
  }

  lemma PersistKeepsLatest(db: Db, e: PositionEvent, floor: int)
    requires LatestTracks(db, floor) && floor <= e.occurredAt
    ensures LatestTracks(Persist(db, e), floor)
  {
    PersistLatest(db, e);
    PersistSlots(db, e);
    var after := Persist(db, e);
    hide Persist;
    assert SlotOf(e) in after.history;
    forall slot | slot in after.history
      ensures slot.occurredAt >= floor && slot.mmsi in after.latest && slot.occurredAt <= after.latest[slot.mmsi].occurredAt
    {
      assert slot in db.history || slot == SlotOf(e);
    }
  }

  lemma PersistLatest(db: Db, e: PositionEvent)
    ensures
      var after := Persist(db, e).latest;
      && after.Keys == db.latest.Keys + {e.mmsi}
      && (forall v :: v in db.latest && v != e.mmsi ==> after[v] == db.latest[v])
      && after[e.mmsi].occurredAt >= e.occurredAt
      && (after[e.mmsi] == Latest(e.occurredAt, e.fix)
          || (e.mmsi in db.latest && after[e.mmsi] == db.latest[e.mmsi]))
      && (e.mmsi in db.latest ==> after[e.mmsi].occurredAt >= db.latest[e.mmsi].occurredAt)
  {
  }

  lemma MaintainTracks(db: Db, after: Db, now: int, policy: Policy, floor: int, truth: Truth)
    requires LatestTracks(db, floor) && floor <= StartOf(CutoffDay(now, policy)) && TruthfulTables(truth, db)
    requires after.history == RetainedRows(db.history, now, policy) && after.latest == db.latest
    ensures LatestTracks(after, StartOf(CutoffDay(now, policy))) && TruthfulTables(truth, after)
  {
    hide CutoffDay, StartOf;
  }

  ghost predicate TruthfulOps(truth: Truth, ops: seq<Op>) {
    forall i :: 0 <= i < |ops| && ops[i].UpsertOp? ==> Truthful(truth, ops[i].event)
  }

  /**
   * A database in working order: only daily partitions with every row inside one, payloads that agree, and, from some
   * time not after the cutoff on, every latest row among the history and no history row later than it.
   */
  ghost predicate Consistent(db: Db, start: int, policy: Policy, first: set<int>, floor: int, truth: Truth) {
    && Daily(db.partitions, first)
    && RowsHeld(db.history, first)
    && LatestTracks(db, floor)
    && floor <= StartOf(CutoffDay(start, policy))
    && TruthfulTables(truth, db)
  }

  /** An empty database is in working order. */
  lemma EmptyIsConsistent(db: Db, start: int, policy: Policy, truth: Truth)
    requires db.partitions == map[] && db.history == map[] && db.latest == map[]
    ensures Consistent(db, start, policy, {}, StartOf(CutoffDay(start, policy)), truth)
  {
    hide CutoffDay, StartOf;
  }

  lemma {:induction false} RunTracks(
    db: Db, start: int, ops: seq<Op>, policy: Policy, truth: Truth, first: set<int>, floor0: int)
    returns (days: set<int>, floor: int)
    requires Consistent(db, start, policy, first, floor0, truth) && WindowNamed(start, policy)
    requires ValidRun(db, start, ops, policy) && TruthfulOps(truth, ops)
    ensures Tracked(Run(db, ops, policy), Clock(start, ops), policy, days, floor, truth, first)
  {
    hide WindowNamed, CutoffDay, LastFutureDay, Apply, ValidOp, Truthful, Daily, RowsHeld, LatestTracks, TruthfulTables;
    if ops == [] {
      days := first;
      floor := floor0;
    } else {
      hide Tracked, Consistent;
      var front, op := ops[..|ops| - 1], ops[|ops| - 1];
      var middle: set<int>;
      middle, floor := RunTracks(db, start, front, policy, truth, first, floor0);
      ValidClock(db, start, front, policy);
      days, floor := StepTracks(Run(db, front, policy), Clock(start, front), op, policy, middle, floor, truth, first);
    }
  }

  /** Everything a run keeps: the partition shape, the floor below which no row survives, and the payloads. */
  ghost predicate Tracked(
    db: Db, clock: int, policy: Policy, days: set<int>, floor: int, truth: Truth, first: set<int>)
  {
    && Shape(db, clock, policy, days, first)
    && LatestTracks(db, floor)
    && floor <= StartOf(CutoffDay(clock, policy))
    && TruthfulTables(truth, db)
  }

  lemma StepTracks(
    before: Db, clock: int, op: Op, policy: Policy, days: set<int>, floor: int, truth: Truth, first: set<int>)
    returns (nextDays: set<int>, next: int)
    requires Tracked(before, clock, policy, days, floor, truth, first)
    requires WindowNamed(clock, policy) && ValidOp(before, clock, op, policy)
    requires op.UpsertOp? ==> Truthful(truth, op.event)
    ensures Tracked(Apply(before, op, policy), op.now, policy, nextDays, next, truth, first)
  {
    hide Daily, RowsHeld, WindowNamed, Maintain, Upsert, CutoffDay, LastFutureDay, LatestTracks, TruthfulTables, Truthful;
    nextDays := StepKeepsShape(before, clock, op, policy, days, first);
    ClockMovesWindow(clock, op.now, policy);
    StartsGrow(CutoffDay(clock, policy), CutoffDay(op.now, policy));
    next := floor;
    match op
    case UpsertOp(now, event) =>
      UpsertTracks(before, event, now, policy, floor, truth);
    case MaintainOp(now, listing, acquired) =>
      if acquired {
        MaintainDaily(before, days, listing, now, policy);
        MaintainTracks(before, Apply(before, op, policy), now, policy, floor, truth);
        next := StartOf(CutoffDay(now, policy));
      } else {
        SkippedChangesNothing(before, listing, now, policy);
      }
  }

  /**
   * In every run that also drops partitions, from any database in working order, a vessel with surviving history has
   * as its latest row exactly its history row of greatest time.
   */
  lemma LatestIsNewestSurvivor(
    db: Db, start: int, ops: seq<Op>, policy: Policy, truth: Truth, slot: Slot, first: set<int>, floor: int)
    requires Consistent(db, start, policy, first, floor, truth) && WindowNamed(start, policy)
    requires ValidRun(db, start, ops, policy) && TruthfulOps(truth, ops)
    requires slot in Run(db, ops, policy).history
    ensures
      var after := Run(db, ops, policy);
      && slot.mmsi in after.latest
      && slot.occurredAt <= after.latest[slot.mmsi].occurredAt
      && var newest := Slot(slot.mmsi, after.latest[slot.mmsi].occurredAt);
         newest in after.history && after.history[newest] == after.latest[slot.mmsi].fix
  {
    var _, bound := RunTracks(db, start, ops, policy, truth, first, floor);
    hide Run, Shape, CutoffDay, StartOf;
  }
}
