/**
 * The database behind `VesselsRepository` and `HistoryPartitionMaintenanceService`: the profile,
 * latest-position and history tables, and the range partitions that hold the history rows.
 * Each transaction is one step; a vessel's id is represented by its MMSI, which is unique.
 */
module VesselStore {
  import opened Wrappers
  import opened Contracts
  import opened Calendar
  import opened PartitionNames
  import opened HistoryPartitions

  /** Primary key of a history row. */
  datatype Slot = Slot(mmsi: string, occurredAt: int)

  datatype Latest = Latest(occurredAt: int, fix: Fix)

  /** Half-open bounds `FOR VALUES FROM (from) TO (to)`. */
  datatype Range = Range(from: int, to: int)

  predicate Holds(r: Range, t: int) {
    r.from <= t < r.to
  }

  predicate Overlap(a: Range, b: Range) {
    a.from < b.to && b.from < a.to
  }

  type Partitions = map<string, Range>

  datatype Db = Db(
    partitions: Partitions,
    vessels: map<string, Option<string>>,
    latest: map<string, Latest>,
    history: map<Slot, Fix>)

  predicate Covered(ps: Partitions, t: int) {
    exists name :: name in ps && Holds(ps[name], t)
  }

  // ----- Position upsert -----

  datatype UpsertOutcome = DroppedAsStale | NoPartition | Persisted(name: Option<string>)

  /** `COALESCE(vessels.name, EXCLUDED.name)`. */
  function UpsertVessel(vessels: map<string, Option<string>>, e: PositionEvent): map<string, Option<string>> {
    var kept := if e.mmsi in vessels && vessels[e.mmsi].Some? then vessels[e.mmsi] else e.shipName;
    vessels[e.mmsi := kept]
  }

  /** `ON CONFLICT (vessel_id) DO UPDATE ... WHERE latest.occurred_at <= EXCLUDED.occurred_at`. */
  function UpsertLatest(latest: map<string, Latest>, e: PositionEvent): map<string, Latest> {
    if e.mmsi in latest && latest[e.mmsi].occurredAt > e.occurredAt then latest
    else latest[e.mmsi := Latest(e.occurredAt, e.fix)]
  }

  /** `ON CONFLICT (vessel_id, occurred_at) DO NOTHING`. */
  function InsertHistory(history: map<Slot, Fix>, e: PositionEvent): map<Slot, Fix> {
    var slot := Slot(e.mmsi, e.occurredAt);
    if slot in history then history else history[slot := e.fix]
  }

  /** The three writes of an accepted position. */
  function Persist(db: Db, e: PositionEvent): Db {
    db.(vessels := UpsertVessel(db.vessels, e), latest := UpsertLatest(db.latest, e), history := InsertHistory(db.history, e))
  }

  predicate Accepts(db: Db, e: PositionEvent, now: int, policy: Policy) {
    Retained(Some(e.occurredAt), now, policy) && Covered(db.partitions, e.occurredAt)
  }

  function Upsert(db: Db, e: PositionEvent, now: int, policy: Policy): (Db, UpsertOutcome) {
    if !Retained(Some(e.occurredAt), now, policy) then (db, DroppedAsStale)
    else if !Covered(db.partitions, e.occurredAt) then (db, NoPartition)
    else (Persist(db, e), Persisted(Persist(db, e).vessels[e.mmsi]))
  }

  // ----- Partition maintenance -----

  datatype MaintenanceOutcome = LockHeld | Aborted | Maintained(created: nat, dropped: nat)

  /** `CREATE TABLE IF NOT EXISTS ... PARTITION OF`; bounds overlapping another partition are an error. */
  function CreatePartition(ps: Partitions, p: Planned): Option<Partitions> {
    var bounds := Range(StartOf(p.day), StartOf(p.day + 1));
    if p.name in ps then Some(ps)
    else if exists name :: name in ps && Overlap(ps[name], bounds) then None
    else Some(ps[p.name := bounds])
  }

  function CreateAll(ps: Partitions, create: seq<Planned>): Option<Partitions> {
    if create == [] then Some(ps)
    else
      var before := CreateAll(ps, create[..|create| - 1]);
      if before.None? then None else CreatePartition(before.value, create[|create| - 1])
  }

  /** `DROP TABLE IF EXISTS`: the partition goes, and its rows with it. */
  function DropPartition(db: Db, name: string): Db {
    if name !in db.partitions then db
    else
      var bounds := db.partitions[name];
      db.(partitions := db.partitions - {name},
          history := map slot | slot in db.history && !Holds(bounds, slot.occurredAt) :: db.history[slot])
  }

  function DropAll(db: Db, drop: seq<Planned>): Db {
    if drop == [] then db else DropPartition(DropAll(db, drop[..|drop| - 1]), drop[|drop| - 1].name)
  }

  /** `maintain`: lock, list, create, then drop; an error rolls the transaction back. */
  function Maintain(db: Db, listing: seq<string>, now: int, policy: Policy, acquired: bool): (Db, MaintenanceOutcome) {
    var plan := MakePlan(listing, now, policy);
    var created := CreateAll(db.partitions, plan.create);
    if !acquired then (db, LockHeld)
    else if created.None? then (db, Aborted)
    else (DropAll(db.(partitions := created.value), plan.drop), Maintained(|plan.create|, |plan.drop|))
  }

  /** What `listExistingPartitionNames` returns: every partition once, in an order of the database's choice. */
  ghost predicate Lists(listing: seq<string>, ps: Partitions) {
    Distinct(listing) && Elements(listing) == ps.Keys
  }

  class Database {
    var partitions: Partitions
    var vessels: map<string, Option<string>>
    var latest: map<string, Latest>
    var history: map<Slot, Fix>

    constructor ()
      ensures View() == Db(map[], map[], map[], map[])
    {
      partitions, vessels, latest, history := map[], map[], map[], map[];
    }

    function View(): Db
      reads this
    {
      Db(partitions, vessels, latest, history)
    }

    /** `upsertPosition`: the retention guard, then the three writes in one transaction. */
    method UpsertPosition(e: PositionEvent, now: int, policy: Policy) returns (outcome: UpsertOutcome)
      modifies this
      ensures (View(), outcome) == Upsert(old(View()), e, now, policy)
    {
      if !Retained(Some(e.occurredAt), now, policy) {
        return DroppedAsStale;
      }
      var vesselsBefore, latestBefore := vessels, latest;
      UpsertVesselFromPosition(e);
      UpsertLatestPosition(e);
      var inserted := InsertPositionHistory(e);
      if !inserted {
        vessels, latest := vesselsBefore, latestBefore;
        return NoPartition;
      }
      outcome := Persisted(vessels[e.mmsi]);
    }

    method UpsertVesselFromPosition(e: PositionEvent)
      modifies this`vessels
      ensures vessels == UpsertVessel(old(vessels), e)
    {
      if e.mmsi !in vessels || vessels[e.mmsi].None? {
        vessels := vessels[e.mmsi := e.shipName];
      } else {
        assert vessels == vessels[e.mmsi := vessels[e.mmsi]];
      }
    }

    method UpsertLatestPosition(e: PositionEvent)
      modifies this`latest
      ensures latest == UpsertLatest(old(latest), e)
      ensures forall v :: v in old(latest) ==> v in latest && old(latest)[v].occurredAt <= latest[v].occurredAt
      ensures e.mmsi in latest && latest[e.mmsi].occurredAt >= e.occurredAt
    {
      if e.mmsi !in latest || latest[e.mmsi].occurredAt <= e.occurredAt {
        latest := latest[e.mmsi := Latest(e.occurredAt, e.fix)];
      }
    }

    /** The row is routed to its partition before the conflict check; without one the insert fails. */
    method InsertPositionHistory(e: PositionEvent) returns (ok: bool)
      modifies this`history
      ensures ok == Covered(partitions, e.occurredAt)
      ensures history == if ok then InsertHistory(old(history), e) else old(history)
      ensures forall slot :: slot in old(history) ==> slot in history && history[slot] == old(history)[slot]
    {
      ok := exists name :: name in partitions && Holds(partitions[name], e.occurredAt);
      if ok && Slot(e.mmsi, e.occurredAt) !in history {
        history := history[Slot(e.mmsi, e.occurredAt) := e.fix];
      }
    }

    /** `maintain`: lock, list, plan, create every planned partition, then drop every expired one. */
    method RunMaintenance(listing: seq<string>, now: int, policy: Policy, acquired: bool)
      returns (outcome: MaintenanceOutcome)
      modifies this
      ensures (View(), outcome) == Maintain(old(View()), listing, now, policy, acquired)
    {
      hide MakePlan, CreateAll, DropAll;
      if !acquired {
        return LockHeld;
      }
      var plan := PlanHistoryPartitionMaintenance(listing, now, policy);
      var ok := CreatePartitions(plan.create);
      if !ok {
        return Aborted;
      }
      DropPartitions(plan.drop);
      outcome := Maintained(|plan.create|, |plan.drop|);
    }

    method CreatePartitions(create: seq<Planned>) returns (ok: bool)
      modifies this`partitions
      ensures ok == CreateAll(old(partitions), create).Some?
      ensures partitions == CreateAll(old(partitions), create).GetOr(old(partitions))
    {
      var before := partitions;
      for i := 0 to |create|
        invariant CreateAll(before, create[..i]) == Some(partitions)
      {
        assert create[..i + 1][..i] == create[..i];
        var created := CreatePartition(partitions, create[i]);
        if created.None? {
          CreateAllStopsAtError(before, create, i + 1);
          partitions := before;
          return false;
        }
        partitions := created.value;
      }
      assert create[..|create|] == create;
      ok := true;
    }

    method DropPartitions(drop: seq<Planned>)
      modifies this`partitions, this`history
      ensures View() == DropAll(old(View()), drop)
    {
      for i := 0 to |drop|
        invariant View() == DropAll(old(View()), drop[..i])
      {
        assert drop[..i + 1][..i] == drop[..i];
        DropTable(drop[i].name);
      }
      assert drop[..|drop|] == drop;
    }

    method DropTable(name: string)
      modifies this`partitions, this`history
      ensures View() == DropPartition(old(View()), name)
    {
      if name in partitions {
        var bounds := partitions[name];
        history := map slot | slot in history && !Holds(bounds, slot.occurredAt) :: history[slot];
        partitions := partitions - {name};
      }
    }
  }

  lemma {:induction false} CreateAllStopsAtError(ps: Partitions, create: seq<Planned>, i: nat)
    requires i <= |create| && CreateAll(ps, create[..i]).None?
    ensures CreateAll(ps, create).None?
    decreases |create|
  {
    if i < |create| {
      var front := create[..|create| - 1];
      assert front[..i] == create[..i];
      CreateAllStopsAtError(ps, front, i);
    } else {
      assert create[..i] == create;
    }
  }
}
