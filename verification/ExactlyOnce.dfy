/**
 * Repeated and reordered deliveries of the same positions have the effect of one delivery each,
 * provided one vessel and time always carry one payload.
 */
module ExactlyOnce {
  import opened Wrappers
  import opened Contracts
  import opened HistoryPartitions
  import opened VesselStore

  /** The one payload of each (vessel, occurredAt). */
  type Truth = Slot -> Fix

  function SlotOf(e: PositionEvent): Slot {
    Slot(e.mmsi, e.occurredAt)
  }

  ghost predicate Truthful(truth: Truth, e: PositionEvent) {
    e.fix == truth(SlotOf(e))
  }

  ghost predicate AllTruthful(truth: Truth, es: seq<PositionEvent>) {
    forall e :: e in es ==> Truthful(truth, e)
  }

  ghost predicate TruthfulTables(truth: Truth, db: Db) {
    && (forall slot :: slot in db.history ==> db.history[slot] == truth(slot))
    && (forall v :: v in db.latest ==> db.latest[v].fix == truth(Slot(v, db.latest[v].occurredAt)))
  }

  function PersistAll(db: Db, es: seq<PositionEvent>): Db {
    if es == [] then db else Persist(PersistAll(db, es[..|es| - 1]), es[|es| - 1])
  }

  function Slots(es: seq<PositionEvent>): set<Slot> {
    set e | e in es :: SlotOf(e)
  }

  lemma SplitLast(es: seq<PositionEvent>, truth: Truth)
    requires es != [] && AllTruthful(truth, es)
    ensures AllTruthful(truth, es[..|es| - 1]) && Truthful(truth, es[|es| - 1])
    ensures Slots(es) == Slots(es[..|es| - 1]) + {SlotOf(es[|es| - 1])}
  {
    assert es == es[..|es| - 1] + [es[|es| - 1]];
    assert es[|es| - 1] in es;
    assert forall e :: e in es[..|es| - 1] ==> e in es;
  }

  /** The history after any deliveries: the old rows, and one row per delivered slot. */
  lemma {:induction false} HistoryAfter(db: Db, es: seq<PositionEvent>, truth: Truth)
    requires AllTruthful(truth, es) && TruthfulTables(truth, db)
    ensures PersistAll(db, es).history.Keys == db.history.Keys + Slots(es)
    ensures TruthfulTables(truth, PersistAll(db, es))
  {
    if es != [] {
      SplitLast(es, truth);
      HistoryAfter(db, es[..|es| - 1], truth);
    }
  }

  /** `t` is the greatest time of `v` among the old latest row and the delivered slots. */
  ghost predicate GreatestTime(db: Db, slots: set<Slot>, v: string, t: int) {
    && (Slot(v, t) in slots || (v in db.latest && db.latest[v].occurredAt == t))
    && (v in db.latest ==> db.latest[v].occurredAt <= t)
    && (forall u :: Slot(v, u) in slots ==> u <= t)
  }

  function Vessels(slots: set<Slot>): set<string> {
    set slot | slot in slots :: slot.mmsi
  }

  /** One row per vessel seen, with its greatest time. */
  ghost predicate LatestIsGreatest(db: Db, slots: set<Slot>, latest: map<string, Latest>) {
    && latest.Keys == db.latest.Keys + Vessels(slots)
    && forall v :: v in latest ==> GreatestTime(db, slots, v, latest[v].occurredAt)
  }

  lemma LatestStep(db: Db, slots: set<Slot>, latest: map<string, Latest>, e: PositionEvent)
    requires LatestIsGreatest(db, slots, latest)
    ensures LatestIsGreatest(db, slots + {SlotOf(e)}, UpsertLatest(latest, e))
  {
    var all, after := slots + {SlotOf(e)}, UpsertLatest(latest, e);
    assert Vessels(all) == Vessels(slots) + {e.mmsi};
    forall v | v in after
      ensures GreatestTime(db, all, v, after[v].occurredAt)
    {
      if v !in latest {
        assert v == e.mmsi && v !in db.latest;
        assert forall u :: Slot(v, u) in slots ==> v in Vessels(slots);
      }
    }
  }

  lemma {:induction false} LatestAfter(db: Db, es: seq<PositionEvent>, truth: Truth)
    requires AllTruthful(truth, es)
    ensures LatestIsGreatest(db, Slots(es), PersistAll(db, es).latest)
  {
    if es != [] {
      SplitLast(es, truth);
      LatestAfter(db, es[..|es| - 1], truth);
      hide LatestIsGreatest, UpsertLatest;
      LatestStep(db, Slots(es[..|es| - 1]), PersistAll(db, es[..|es| - 1]).latest, es[|es| - 1]);
    }
  }

  /** The same slots, in any order and with any repeats, leave the same latest and history tables. */
  lemma SameTables(db: Db, xs: seq<PositionEvent>, ys: seq<PositionEvent>, truth: Truth)
    requires AllTruthful(truth, xs) && AllTruthful(truth, ys) && TruthfulTables(truth, db)
    requires Slots(xs) == Slots(ys)
    ensures PersistAll(db, xs).history == PersistAll(db, ys).history
    ensures PersistAll(db, xs).latest == PersistAll(db, ys).latest
  {
    var a, b := PersistAll(db, xs), PersistAll(db, ys);
    HistoryAfter(db, xs, truth);
    HistoryAfter(db, ys, truth);
    LatestAfter(db, xs, truth);
    LatestAfter(db, ys, truth);
    SameFinalTables(db, Slots(xs), a, b, truth);
  }

  lemma SameFinalTables(db: Db, slots: set<Slot>, a: Db, b: Db, truth: Truth)
    requires TruthfulTables(truth, a) && TruthfulTables(truth, b)
    requires a.history.Keys == b.history.Keys && a.latest.Keys == b.latest.Keys
    requires forall v :: v in a.latest ==> GreatestTime(db, slots, v, a.latest[v].occurredAt)
    requires forall v :: v in b.latest ==> GreatestTime(db, slots, v, b.latest[v].occurredAt)
    ensures a.history == b.history && a.latest == b.latest
  {
    forall v | v in a.latest
      ensures a.latest[v] == b.latest[v]
    {
      assert v in b.latest.Keys;
      OneGreatest(db, slots, v, a.latest[v].occurredAt, b.latest[v].occurredAt);
    }
    forall slot | slot in a.history
      ensures a.history[slot] == b.history[slot]
    {
      assert slot in b.history.Keys;
    }
  }

  lemma OneGreatest(db: Db, slots: set<Slot>, v: string, t: int, u: int)
    requires GreatestTime(db, slots, v, t) && GreatestTime(db, slots, v, u)
    ensures t == u
  {
  }

  // ----- Through the guarded upsert -----

  /** One call of `upsertPosition`, with the application's clock at that call. */
  datatype Call = Call(event: PositionEvent, now: int)

  function UpsertAll(db: Db, calls: seq<Call>, policy: Policy): Db {
    if calls == [] then db
    else Upsert(UpsertAll(db, calls[..|calls| - 1], policy), calls[|calls| - 1].event, calls[|calls| - 1].now, policy).0
  }

  ghost predicate AllAccepted(db: Db, calls: seq<Call>, policy: Policy) {
    forall c :: c in calls ==> Accepts(db, c.event, c.now, policy)
  }

  function Events(calls: seq<Call>): seq<PositionEvent> {
    seq(|calls|, i requires 0 <= i < |calls| => calls[i].event)
  }

  lemma AcceptedCallPersists(db: Db, now: Db, c: Call, policy: Policy)
    requires Accepts(db, c.event, c.now, policy) && now.partitions == db.partitions
    ensures Upsert(now, c.event, c.now, policy).0 == Persist(now, c.event)
    ensures Persist(now, c.event).partitions == db.partitions
  {
  }

  lemma EventsOfFront(calls: seq<Call>)
    requires calls != []
    ensures |Events(calls)| == |calls|
    ensures Events(calls)[..|calls| - 1] == Events(calls[..|calls| - 1])
    ensures Events(calls)[|calls| - 1] == calls[|calls| - 1].event
  {
  }

  lemma {:induction false} AcceptedCallsPersist(db: Db, calls: seq<Call>, policy: Policy)
    requires AllAccepted(db, calls, policy)
    ensures UpsertAll(db, calls, policy) == PersistAll(db, Events(calls))
    ensures UpsertAll(db, calls, policy).partitions == db.partitions
  {
    hide Upsert, Persist, Accepts, Events;
    EventsKeepLength(calls);
    if calls != [] {
      var front, last := calls[..|calls| - 1], calls[|calls| - 1];
      assert last in calls && forall c :: c in front ==> c in calls;
      AcceptedCallsPersist(db, front, policy);
      EventsOfFront(calls);
      AcceptedCallPersists(db, UpsertAll(db, front, policy), last, policy);
    }
  }

  lemma EventsKeepLength(calls: seq<Call>)
    ensures |Events(calls)| == |calls|
  {
  }

  lemma SlotsOfElements(es: seq<PositionEvent>)
    ensures Slots(es) == set e | e in Elements(es) :: SlotOf(e)
  {
  }

  /** Exactly-once effect of at-least-once delivery, for retained positions with a partition. */
  lemma ExactlyOnceEffect(db: Db, xs: seq<Call>, ys: seq<Call>, policy: Policy, truth: Truth)
    requires TruthfulTables(truth, db)
    requires AllTruthful(truth, Events(xs)) && AllTruthful(truth, Events(ys))
    requires AllAccepted(db, xs, policy) && AllAccepted(db, ys, policy)
    requires Elements(Events(xs)) == Elements(Events(ys))
    ensures UpsertAll(db, xs, policy).history == UpsertAll(db, ys, policy).history
    ensures UpsertAll(db, xs, policy).latest == UpsertAll(db, ys, policy).latest
  {
    AcceptedCallsPersist(db, xs, policy);
    AcceptedCallsPersist(db, ys, policy);
    SlotsOfElements(Events(xs));
    SlotsOfElements(Events(ys));
    SameTables(db, Events(xs), Events(ys), truth);
  }

  /**
   * Why one payload per slot is needed: with two payloads for a fresh slot the history keeps the first
   * and the latest row takes the second, so the tables agree exactly when the payloads do.
   */
  lemma ConflictingPayloads(db: Db, first: PositionEvent, second: PositionEvent)
    requires SlotOf(first) == SlotOf(second) && SlotOf(first) !in db.history
    requires first.mmsi in db.latest ==> db.latest[first.mmsi].occurredAt <= first.occurredAt
    ensures
      var after := PersistAll(db, [first, second]);
      after.history[SlotOf(first)] == after.latest[first.mmsi].fix <==> first.fix == second.fix
    ensures PersistAll(db, [first, second]).latest == PersistAll(db, [second, first]).latest <==> first.fix == second.fix
  {
    assert [first, second][..1] == [first] && [first][..0] == [];
    assert [second, first][..1] == [second] && [second][..0] == [];
    assert PersistAll(db, [first]) == Persist(db, first);
    assert PersistAll(db, [second]) == Persist(db, second);
    assert PersistAll(db, [first, second]) == Persist(Persist(db, first), second);
    assert PersistAll(db, [second, first]) == Persist(Persist(db, second), first);
    assert PersistAll(db, [first, second]).latest[first.mmsi].fix == second.fix;
    assert PersistAll(db, [second, first]).latest[first.mmsi].fix == first.fix;
  }

  /** A vessel's name, once set, is kept by every later position. */
  lemma {:induction false} NamesStay(db: Db, es: seq<PositionEvent>, v: string)
    requires v in db.vessels && db.vessels[v].Some?
    ensures v in PersistAll(db, es).vessels && PersistAll(db, es).vessels[v] == db.vessels[v]
  {
    if es != [] { NamesStay(db, es[..|es| - 1], v); }
  }
}
