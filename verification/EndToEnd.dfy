/**
 * Delivery and storage together: what the storage writer's group makes of the messages delivered to it,
 * with all the redeliveries, lost replies and crashes of `StreamDelivery` in between.
 */
module EndToEnd {
  import opened Wrappers
  import opened Contracts
  import opened Json
  import opened Dispatch
  import opened StreamDelivery
  import opened NoLoss
  import opened HistoryPartitions
  import opened VesselStore
  import opened ExactlyOnce
  import StorageRuns
  import MaintainedStorage
  import PartitionCoverage

  /** The schema check of the storage writer; `None` is a message it drops or stores elsewhere. */
  type Decoder = Json -> Option<PositionEvent>

  function EventOf(cfg: Config, b: Bus, id: nat, decode: Decoder): Option<PositionEvent> {
    if id in b.published then
      match BodyAt(cfg, b, id)
      case Usable(payload) => decode(payload)
      case _ => None
    else None
  }

  function Listed(e: Option<PositionEvent>): seq<PositionEvent> {
    if e.Some? then [e.value] else []
  }

  /** The positions one group's handlers wrote, in the order and with the repeats in which they did. */
  function WrittenEvents(
    cfg: Config, b: Bus, key: GroupKey, effects: seq<Delivery>, decode: Decoder): seq<PositionEvent>
  {
    if effects == [] then []
    else
      var last := effects[|effects| - 1];
      WrittenEvents(cfg, b, key, effects[..|effects| - 1], decode) +
      (if last.key == key then Listed(EventOf(cfg, b, last.id, decode)) else [])
  }

  /** The positions delivered to a group, each once, in stream order, below id `n`. */
  function DeliveredEvents(cfg: Config, b: Bus, key: GroupKey, n: nat, decode: Decoder): seq<PositionEvent> {
    if n == 0 then []
    else
      DeliveredEvents(cfg, b, key, n - 1, decode) +
      (if Delivery(key, n - 1) in b.delivered then Listed(EventOf(cfg, b, n - 1, decode)) else [])
  }

  lemma {:induction false} WrittenMembers(
    cfg: Config, b: Bus, key: GroupKey, effects: seq<Delivery>, decode: Decoder, e: PositionEvent)
    ensures e in WrittenEvents(cfg, b, key, effects, decode) <==>
      exists d :: d in effects && d.key == key && EventOf(cfg, b, d.id, decode) == Some(e)
  {
    if effects != [] {
      var front, last := effects[..|effects| - 1], effects[|effects| - 1];
      assert effects == front + [last];
      WrittenMembers(cfg, b, key, front, decode, e);
      hide EventOf;
      var here := if last.key == key then Listed(EventOf(cfg, b, last.id, decode)) else [];
      assert e in here <==> last.key == key && EventOf(cfg, b, last.id, decode) == Some(e);
      assert last in effects;
      if d :| d in effects && d.key == key && EventOf(cfg, b, d.id, decode) == Some(e) {
        assert d in front || d == last;
      }
    }
  }

  lemma {:induction false} DeliveredMembers(cfg: Config, b: Bus, key: GroupKey, n: nat, decode: Decoder, e: PositionEvent)
    ensures e in DeliveredEvents(cfg, b, key, n, decode) <==>
      exists id: nat :: id < n && Delivery(key, id) in b.delivered && EventOf(cfg, b, id, decode) == Some(e)
  {
    if n != 0 {
      DeliveredMembers(cfg, b, key, n - 1, decode, e);
      hide EventOf;
      var here := if Delivery(key, n - 1) in b.delivered then Listed(EventOf(cfg, b, n - 1, decode)) else [];
      assert e in here <==> Delivery(key, n - 1) in b.delivered && EventOf(cfg, b, n - 1, decode) == Some(e);
      if id: nat :| id < n && Delivery(key, id) in b.delivered && EventOf(cfg, b, id, decode) == Some(e) {
        assert id < n - 1 || id == n - 1;
      }
    }
  }

  /** A group has handled everything delivered to it. */
  ghost predicate Drained(b: Bus, key: GroupKey) {
    forall d :: d in b.delivered && d.key == key ==> d in b.store.handled
  }

  /**
   * A group is drained as soon as none of its messages is pending, dead-lettered, unusable or trimmed:
   * of the five ways of `NoDeliveredMessageIsLost` only the handler's return is left.
   */
  lemma DrainedWhenSettled(cfg: Config, actions: seq<Action>, key: GroupKey)
    requires
      var b := Run(cfg, Empty(), actions);
      forall d :: d in b.delivered && d.key == key && d.id in b.published ==>
        && d !in b.store.pending && d !in b.discarded
        && BodyAt(cfg, b, d.id) != Unusable
        && forall letter :: letter in b.store.deadLetters ==> letter.origin != d
    ensures Drained(Run(cfg, Empty(), actions), key)
  {
    var b := Run(cfg, Empty(), actions);
    forall d | d in b.delivered && d.key == key ensures d in b.store.handled {
      NoDeliveredMessageIsLost(cfg, actions, d);
    }
  }

  /** Once a group is drained, its handlers wrote exactly the delivered positions, repeats aside. */
  lemma DrainedWritesAll(cfg: Config, actions: seq<Action>, key: GroupKey, decode: Decoder)
    requires Drained(Run(cfg, Empty(), actions), key)
    ensures
      var b := Run(cfg, Empty(), actions);
      forall e :: e in WrittenEvents(cfg, b, key, b.store.effects, decode) <==> e in DeliveredEvents(cfg, b, key, b.nextId, decode)
  {
    RunKeeps(cfg, actions);
    var b := Run(cfg, Empty(), actions);
    hide Run, BodyOf, KeyOf, WrittenEvents, DeliveredEvents, EventOf;
    forall e
      ensures e in WrittenEvents(cfg, b, key, b.store.effects, decode) <==> e in DeliveredEvents(cfg, b, key, b.nextId, decode)
    {
      WrittenMembers(cfg, b, key, b.store.effects, decode, e);
      DeliveredMembers(cfg, b, key, b.nextId, decode, e);
      if d :| d in b.store.effects && d.key == key && EventOf(cfg, b, d.id, decode) == Some(e) {
        assert d in b.delivered && d == Delivery(key, d.id);
      }
      if id: nat :| id < b.nextId && Delivery(key, id) in b.delivered && EventOf(cfg, b, id, decode) == Some(e) {
        assert Delivery(key, id) in b.store.handled;
        assert Delivery(key, id) in b.store.effects;
      }
    }
  }

  function CallsAt(es: seq<PositionEvent>, clock: nat -> int): seq<Call> {
    seq(|es|, i requires 0 <= i < |es| => Call(es[i], clock(i)))
  }

  lemma EventsOfCalls(es: seq<PositionEvent>, clock: nat -> int)
    ensures Events(CallsAt(es, clock)) == es
  {
  }

  /**
   * At-least-once delivery gives exactly-once effect. Whatever the interleaving, once the storage group is
   * drained its latest and history tables are those of a database to which every delivered position was
   * applied once, in stream order, provided the positions are retained and covered when applied.
   */
  lemma AtLeastOnceGivesExactlyOnce(
    cfg: Config, actions: seq<Action>, key: GroupKey, decode: Decoder,
    db: Db, policy: Policy, truth: Truth, clock: nat -> int, reference: nat -> int)
    requires Drained(Run(cfg, Empty(), actions), key) && TruthfulTables(truth, db)
    requires
      var b := Run(cfg, Empty(), actions);
      var written := WrittenEvents(cfg, b, key, b.store.effects, decode);
      var once := DeliveredEvents(cfg, b, key, b.nextId, decode);
      && AllTruthful(truth, once)
      && AllAccepted(db, CallsAt(written, clock), policy)
      && AllAccepted(db, CallsAt(once, reference), policy)
    ensures
      var b := Run(cfg, Empty(), actions);
      var actual := UpsertAll(db, CallsAt(WrittenEvents(cfg, b, key, b.store.effects, decode), clock), policy);
      var ideal := UpsertAll(db, CallsAt(DeliveredEvents(cfg, b, key, b.nextId, decode), reference), policy);
      actual.history == ideal.history && actual.latest == ideal.latest
  {
    hide Run, WrittenEvents, DeliveredEvents, Drained, CallsAt, Truthful, TruthfulTables, AllAccepted, UpsertAll;
    DrainedWritesAll(cfg, actions, key, decode);
    var b := Run(cfg, Empty(), actions);
    var written := WrittenEvents(cfg, b, key, b.store.effects, decode);
    var once := DeliveredEvents(cfg, b, key, b.nextId, decode);
    EventsOfCalls(written, clock);
    EventsOfCalls(once, reference);
    assert Elements(written) == Elements(once);
    ExactlyOnceEffect(db, CallsAt(written, clock), CallsAt(once, reference), policy, truth);
  }

  // ----- With partitions created and dropped in between -----

  /**
   * A storage run makes these positions: whatever it persists is one of them, and each of them is persisted or lies
   * below the last cutoff, where no row is left anyway. Refused and stale attempts may come in any number.
   */
  ghost predicate Makes(db: Db, ops: seq<StorageRuns.Op>, policy: Policy, es: seq<PositionEvent>) {
    var persisted, floor := MaintainedStorage.PersistedEvents(db, ops, policy), MaintainedStorage.Floor(ops, policy);
    && (forall e :: e in persisted ==> e in es)
    && (forall e :: e in es ==> e in persisted || !MaintainedStorage.Above(e.occurredAt, floor))
  }

  lemma MakesLeft(db: Db, ops: seq<StorageRuns.Op>, policy: Policy, es: seq<PositionEvent>)
    requires Makes(db, ops, policy, es)
    ensures
      var floor := MaintainedStorage.Floor(ops, policy);
      MaintainedStorage.Left(MaintainedStorage.PersistedEvents(db, ops, policy), floor) == MaintainedStorage.Left(es, floor)
  {
    hide MaintainedStorage.PersistedEvents, MaintainedStorage.Floor, MaintainedStorage.Above;
    var persisted, floor := MaintainedStorage.PersistedEvents(db, ops, policy), MaintainedStorage.Floor(ops, policy);
    forall slot | slot in MaintainedStorage.Left(es, floor) ensures slot in MaintainedStorage.Left(persisted, floor) {
      var e :| e in es && SlotOf(e) == slot;
      assert e in persisted;
    }
    forall slot | slot in MaintainedStorage.Left(persisted, floor) ensures slot in MaintainedStorage.Left(es, floor) {
      var e :| e in persisted && SlotOf(e) == slot;
      assert e in es;
    }
  }

  lemma LeftOfSame(es: seq<PositionEvent>, fs: seq<PositionEvent>, floor: Option<int>)
    requires forall e :: e in es <==> e in fs
    ensures MaintainedStorage.Left(es, floor) == MaintainedStorage.Left(fs, floor)
  {
    hide MaintainedStorage.Above;
    assert Slots(es) == Slots(fs);
  }

  /**
   * At-least-once delivery gives exactly-once effect while partitions come and go. Whatever the interleaving of the
   * delivery, once the storage group is drained: a storage run that makes what its handlers wrote, with maintenance in
   * between, and one that makes each delivered position once, with the same last cutoff, leave the same history and the
   * same latest row of every vessel with history left.
   */
  lemma ExactlyOnceAcrossMaintenance(
    cfg: Config, actions: seq<Action>, key: GroupKey, decode: Decoder, db: Db, policy: Policy, truth: Truth,
    start: int, ops: seq<StorageRuns.Op>, start': int, once: seq<StorageRuns.Op>, first: set<int>, bound: int)
    requires Drained(Run(cfg, Empty(), actions), key)
    requires StorageRuns.Consistent(db, start, policy, first, bound, truth)
    requires StorageRuns.Consistent(db, start', policy, first, bound, truth)
    requires StorageRuns.ValidRun(db, start, ops, policy) && StorageRuns.TruthfulOps(truth, ops)
    requires StorageRuns.ValidRun(db, start', once, policy) && StorageRuns.TruthfulOps(truth, once)
    requires PartitionCoverage.WindowNamed(start, policy) && PartitionCoverage.WindowNamed(start', policy)
    requires MaintainedStorage.Floor(ops, policy) == MaintainedStorage.Floor(once, policy)
    requires
      var b := Run(cfg, Empty(), actions);
      && Makes(db, ops, policy, WrittenEvents(cfg, b, key, b.store.effects, decode))
      && Makes(db, once, policy, DeliveredEvents(cfg, b, key, b.nextId, decode))
    ensures
      var actual, ideal := StorageRuns.Run(db, ops, policy), StorageRuns.Run(db, once, policy);
      && actual.history == ideal.history
      && forall slot :: slot in actual.history ==>
           && slot.mmsi in actual.latest && slot.mmsi in ideal.latest
           && actual.latest[slot.mmsi] == ideal.latest[slot.mmsi]
  {
    hide *;
    var b := Run(cfg, Empty(), actions);
    DrainedWritesAll(cfg, actions, key, decode);
    var written, delivered := WrittenEvents(cfg, b, key, b.store.effects, decode), DeliveredEvents(cfg, b, key, b.nextId, decode);
    MakesLeft(db, ops, policy, written);
    MakesLeft(db, once, policy, delivered);
    LeftOfSame(written, delivered, MaintainedStorage.Floor(ops, policy));
    MaintainedStorage.SameTablesAcrossMaintenance(db, start, ops, start', once, policy, first, bound, truth);
  }
}
