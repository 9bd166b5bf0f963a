/** The profile table: which vessels it holds, and under what name, after any run of upserts and maintenance. */
module VesselNames {
  import opened Wrappers
  import opened Contracts
  import opened HistoryPartitions
  import opened VesselStore
  import opened ExactlyOnce
  import opened StorageRuns
  import opened MaintainedStorage

  ghost predicate Nameless(es: seq<PositionEvent>, v: string) {
    forall e :: e in es && e.mmsi == v ==> e.shipName.None?
  }

  /** `name` is the first name that a position of the vessel carries, or none when there is none. */
  ghost predicate FirstName(es: seq<PositionEvent>, v: string, name: Option<string>) {
    if name.None? then Nameless(es, v)
    else exists i :: 0 <= i < |es| && es[i].mmsi == v && es[i].shipName == name && Nameless(es[..i], v)
  }

  /** A vessel is known if it was or has a position; it keeps its old name, and otherwise takes the first of its positions. */
  ghost predicate Profiles(before: map<string, Option<string>>, es: seq<PositionEvent>, after: map<string, Option<string>>) {
    && (forall v :: v in after <==> v in before || exists e :: e in es && e.mmsi == v)
    && (forall v :: v in after ==>
          if v in before && before[v].Some? then after[v] == before[v] else FirstName(es, v, after[v]))
  }

  /** One more position names its vessel if nothing did. */
  lemma FirstNameGrows(es: seq<PositionEvent>, e: PositionEvent, v: string, name: Option<string>)
    requires FirstName(es, v, name)
    ensures FirstName(es + [e], v, if e.mmsi == v && name.None? then e.shipName else name)
  {
    var all, n := es + [e], |es|;
    assert all[..n] == es && all[n] == e;
    if name.Some? {
      var i :| 0 <= i < |es| && es[i].mmsi == v && es[i].shipName == name && Nameless(es[..i], v);
      assert all[i] == es[i] && all[..i] == es[..i];
    } else if e.mmsi == v && e.shipName.Some? {
      assert Nameless(all[..n], v);
    } else {
      assert forall f :: f in all ==> f in es || f == e;
    }
  }

  lemma PersistProfiles(before: map<string, Option<string>>, es: seq<PositionEvent>, db: Db, e: PositionEvent)
    requires Profiles(before, es, db.vessels)
    ensures Profiles(before, es + [e], Persist(db, e).vessels)
  {
    hide FirstName, UpsertLatest, InsertHistory;
    var after := Persist(db, e).vessels;
    forall v ensures v in after <==> v in before || exists f :: f in es + [e] && f.mmsi == v {
      assert forall f :: f in es + [e] <==> f in es || f == e;
      assert e in es + [e];
    }
    forall v | v in after && !(v in before && before[v].Some?) ensures FirstName(es + [e], v, after[v]) {
      var was := if v in db.vessels then db.vessels[v] else None;
      if v !in db.vessels { NobodyNamed(es, v); }
      FirstNameGrows(es, e, v, was);
    }
  }

  lemma NobodyNamed(es: seq<PositionEvent>, v: string)
    requires !exists e :: e in es && e.mmsi == v
    ensures FirstName(es, v, None)
  {
  }

  lemma NothingYet(before: map<string, Option<string>>)
    ensures Profiles(before, [], before)
  {
  }

  /** Delivered positions name their vessels once each: the first name wins, and none is ever replaced. */
  lemma {:induction false} NamesAfter(db: Db, es: seq<PositionEvent>)
    ensures Profiles(db.vessels, es, PersistAll(db, es).vessels)
  {
    hide Profiles, Persist;
    NothingYet(db.vessels);
    if es != [] {
      var front, last := es[..|es| - 1], es[|es| - 1];
      NamesAfter(db, front);
      PersistProfiles(db.vessels, front, PersistAll(db, front), last);
      assert es == front + [last];
    }
  }

  // ----- With maintenance in between -----

  lemma {:induction false} DropKeepsVessels(db: Db, drop: seq<Planned>)
    ensures DropAll(db, drop).vessels == db.vessels
  {
    if drop != [] { DropKeepsVessels(db, drop[..|drop| - 1]); }
  }

  lemma MaintainKeepsVessels(db: Db, listing: seq<string>, now: int, policy: Policy, acquired: bool)
    ensures Maintain(db, listing, now, policy, acquired).0.vessels == db.vessels
  {
    var plan := MakePlan(listing, now, policy);
    hide MakePlan, CreateAll, DropAll;
    var created := CreateAll(db.partitions, plan.create);
    if created.Some? { DropKeepsVessels(db.(partitions := created.value), plan.drop); }
  }

  lemma StepProfiles(before: map<string, Option<string>>, es: seq<PositionEvent>, db: Db, op: Op, policy: Policy)
    requires Profiles(before, es, db.vessels)
    ensures
      var es' := es + if op.UpsertOp? && Accepts(db, op.event, op.now, policy) then [op.event] else [];
      Profiles(before, es', Apply(db, op, policy).vessels)
  {
    hide Profiles, Persist, Maintain, Accepts, Upsert;
    assert es + [] == es;
    match op
    case UpsertOp(now, e) =>
      AcceptedUpsert(db, e, now, policy);
      PersistProfiles(before, es, db, e);
    case MaintainOp(now, listing, acquired) =>
      MaintainKeepsVessels(db, listing, now, policy, acquired);
  }

  /**
   * After any run of upserts and maintenance, whatever was refused or dropped as stale, a vessel is in the table exactly
   * when it was or one of its positions was persisted; its name is the one it had, or else the first that one of its
   * persisted positions carried, or else none.
   */
  lemma {:induction false} NamesAcrossMaintenance(db: Db, ops: seq<Op>, policy: Policy)
    ensures Profiles(db.vessels, PersistedEvents(db, ops, policy), Run(db, ops, policy).vessels)
  {
    hide Profiles, Apply, Accepts;
    NothingYet(db.vessels);
    if ops != [] {
      var front, op := ops[..|ops| - 1], ops[|ops| - 1];
      NamesAcrossMaintenance(db, front, policy);
      StepProfiles(db.vessels, PersistedEvents(db, front, policy), Run(db, front, policy), op, policy);
    }
  }

  /** The name that `upsertPosition` gives back is the vessel's name by that rule, the new position included. */
  lemma ReturnedName(db: Db, ops: seq<Op>, policy: Policy, e: PositionEvent, now: int)
    ensures
      var (after, outcome) := Upsert(Run(db, ops, policy), e, now, policy);
      outcome.Persisted? ==>
        if e.mmsi in db.vessels && db.vessels[e.mmsi].Some? then outcome.name == db.vessels[e.mmsi]
        else FirstName(PersistedEvents(db, ops, policy) + [e], e.mmsi, outcome.name)
  {
    NamesAcrossMaintenance(db, ops, policy);
    var before := Run(db, ops, policy);
    PersistProfiles(db.vessels, PersistedEvents(db, ops, policy), before, e);
    hide Run, PersistedEvents, Persist, FirstName, Covered, Retained;
    PersistHasVessel(before, e);
  }

  lemma PersistHasVessel(db: Db, e: PositionEvent)
    ensures e.mmsi in Persist(db, e).vessels
  {
  }
}
