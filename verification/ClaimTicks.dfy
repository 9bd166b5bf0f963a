/** What an idle worker takes up, and why a tick survives what ends a read loop. */
module ClaimTicks {
  import opened Wrappers
  import opened Dispatch
  import opened StreamDelivery
  import opened LoopEnds

  // ----- A tick never ends by an exception -----

  lemma ActionEndsTick(cfg: Config, b: Bus, a: Action, w: WorkerId)
    requires w.AutoClaim?
    ensures WorkerAt(Apply(cfg, b, a), w) == Dead <==> WorkerAt(b, w) == Dead || a == Crash(w)
  {
    hide Effect, NextIds, Kept, Gone, EntriesOf, BodyOf;
  }

  lemma RunGoesOn(cfg: Config, b: Bus, actions: seq<Action>)
    requires actions != []
    ensures Run(cfg, b, actions) == Apply(cfg, Run(cfg, b, actions[..|actions| - 1]), actions[|actions| - 1])
  {
  }

  /** Whatever is thrown at it, a consumer's tick goes on claiming: in every run only a crash ends it. */
  lemma {:induction false} TickEndsExactly(cfg: Config, b: Bus, actions: seq<Action>, w: WorkerId)
    requires w.AutoClaim?
    ensures WorkerAt(Run(cfg, b, actions), w) == Dead <==> WorkerAt(b, w) == Dead || Crash(w) in actions
  {
    if actions != [] {
      var front, a := actions[..|actions| - 1], actions[|actions| - 1];
      assert actions == front + [a];
      RunGoesOn(cfg, b, actions);
      hide *;
      TickEndsExactly(cfg, b, front, w);
      ActionEndsTick(cfg, Run(cfg, b, front), a, w);
    }
  }

  // ----- Batches -----

  /** The ids that a worker is on or has still to dispatch. */
  function Batch(worker: Worker): seq<nat> {
    if worker.Busy? then [worker.id] + seq(|worker.rest|, i requires 0 <= i < |worker.rest| => worker.rest[i].id) else []
  }

  ghost predicate Ascending(ids: seq<nat>) {
    forall i, j :: 0 <= i < j < |ids| ==> ids[i] < ids[j]
  }

  /** A worker starts on the first message of its batch, with the message's own fields, and keeps those of the others. */
  ghost predicate StartsOn(cfg: Config, b: Bus, worker: Worker) {
    worker.Busy? ==>
      && worker.id in b.published
      && worker.stage == FirstStage(BodyOf(b.published[worker.id].fields, cfg.parse))
      && forall i :: 0 <= i < |worker.rest| ==>
           worker.rest[i].id in b.published && worker.rest[i].fields == b.published[worker.rest[i].id].fields
  }

  lemma BatchOfTakeUp(cfg: Config, b: Bus, ids: seq<nat>)
    requires forall id :: id in ids ==> id in b.published
    ensures Batch(TakeUp(cfg, EntriesOf(b, ids))) == ids
    ensures StartsOn(cfg, b, TakeUp(cfg, EntriesOf(b, ids))) && TakeUp(cfg, EntriesOf(b, ids)) != Dead
  {
    hide BodyOf;
  }

  lemma {:induction false} KeptMembers(b: Bus, key: GroupKey, ids: seq<nat>, id: nat)
    ensures id in Kept(b, key, ids) <==> id in ids && Delivery(key, id) in b.store.pending && id in b.live && id in b.published
  {
    if ids != [] {
      KeptMembers(b, key, ids[1..], id);
      assert ids == [ids[0]] + ids[1..];
    }
  }

  lemma AscendsFrom(first: nat, rest: seq<nat>)
    requires Ascending(rest) && forall id :: id in rest ==> first < id
    ensures Ascending([first] + rest)
  {
    var all := [first] + rest;
    forall i, j | 0 <= i < j < |all| ensures all[i] < all[j] {
      assert all[j] == rest[j - 1] && rest[j - 1] in rest;
    }
  }

  lemma {:induction false} KeptAscends(b: Bus, key: GroupKey, ids: seq<nat>)
    requires Ascending(ids)
    ensures Ascending(Kept(b, key, ids))
  {
    if ids != [] {
      KeptAscends(b, key, ids[1..]);
      forall id: nat | id in Kept(b, key, ids[1..]) ensures ids[0] < id {
        KeptMembers(b, key, ids[1..], id);
        var i :| 0 <= i < |ids[1..]| && ids[1..][i] == id;
        assert ids[0] < ids[i + 1];
      }
      AscendsFrom(ids[0], Kept(b, key, ids[1..]));
    }
  }

  /**
   * An idle tick that gets the reply to its claim takes up exactly those of the claimed ids that are pending and not
   * trimmed, in the order claimed; they stay pending, and the trimmed ones leave the list.
   */
  lemma ClaimTakesUp(cfg: Config, b: Bus, w: WorkerId, ids: seq<nat>)
    requires w.AutoClaim? && WorkerAt(b, w) == Idle && |ids| <= 50
    ensures
      var c := Apply(cfg, b, Claim(w, ids, false));
      && (forall id: nat :: id in Batch(WorkerAt(c, w)) <==>
            id in ids && Delivery(w.key, id) in b.store.pending && id in b.live && id in b.published)
      && (Ascending(ids) ==> Ascending(Batch(WorkerAt(c, w))))
      && StartsOn(cfg, b, WorkerAt(c, w))
      && (forall d :: d in c.store.pending <==>
            d in b.store.pending && !(d.key == w.key && d.id in ids && d.id !in b.live))
  {
    hide *;
    var kept := Kept(b, w.key, ids);
    KeptArePending(b, w.key, ids);
    ClaimClaims(cfg, b, w, ids);
    BatchOfTakeUp(cfg, b, kept);
    if Ascending(ids) { KeptAscends(b, w.key, ids); }
    forall id: nat
      ensures id in kept <==> id in ids && Delivery(w.key, id) in b.store.pending && id in b.live && id in b.published
    {
      KeptMembers(b, w.key, ids, id);
    }
  }

  lemma ClaimClaims(cfg: Config, b: Bus, w: WorkerId, ids: seq<nat>)
    requires w.AutoClaim? && WorkerAt(b, w) == Idle && |ids| <= 50
    requires forall id :: id in Kept(b, w.key, ids) ==> id in b.published
    ensures
      var c := Apply(cfg, b, Claim(w, ids, false));
      && WorkerAt(c, w) == TakeUp(cfg, EntriesOf(b, Kept(b, w.key, ids)))
      && (forall d :: d in c.store.pending <==>
            d in b.store.pending && !(d.key == w.key && d.id in ids && d.id !in b.live))
  {
    hide TakeUp, EntriesOf, Kept;
  }

  lemma IdleBatch(cfg: Config, b: Bus)
    ensures Batch(Idle) == [] && StartsOn(cfg, b, Idle)
  {
  }

  // ----- Reads -----

  lemma {:induction false} NextIdsAscend(b: Bus, stream: string, from: nat, count: nat)
    ensures Ascending(NextIds(b, stream, from, count))
    decreases b.nextId - from
  {
    if count != 0 && from < b.nextId {
      if InStream(b, stream, from) {
        NextIdsAscend(b, stream, from + 1, count - 1);
        NextIdsAreLive(b, stream, from + 1, count - 1);
        AscendsFrom(from, NextIds(b, stream, from + 1, count - 1));
      } else {
        NextIdsAscend(b, stream, from + 1, count);
      }
    }
  }

  /** A read that returns fewer entries than it may has left none. */
  lemma {:induction false} NextIdsFill(b: Bus, stream: string, from: nat, count: nat, id: nat)
    requires |NextIds(b, stream, from, count)| < count
    ensures id in NextIds(b, stream, from, count) <==> InStream(b, stream, id) && from <= id < b.nextId
    decreases b.nextId - from
  {
    if from < b.nextId {
      if InStream(b, stream, from) {
        NextIdsFill(b, stream, from + 1, count - 1, id);
      } else {
        NextIdsFill(b, stream, from + 1, count, id);
      }
    }
  }

  /** The live entries of a stream from a position on that a read of at most `count` entries gives, in their order. */
  ghost predicate NextOf(b: Bus, stream: string, from: nat, count: nat, ids: seq<nat>) {
    && Ascending(ids)
    && |ids| <= count
    && (forall id: nat :: id in ids ==> InStream(b, stream, id) && from <= id < b.nextId)
    && (forall id: nat :: InStream(b, stream, id) && from <= id < b.nextId ==>
          id in ids || (|ids| == count && forall other :: other in ids ==> other < id))
  }

  lemma NextIdsAreNext(b: Bus, stream: string, from: nat, count: nat)
    ensures NextOf(b, stream, from, count, NextIds(b, stream, from, count))
  {
    var ids := NextIds(b, stream, from, count);
    NextIdsAreLive(b, stream, from, count);
    NextIdsAscend(b, stream, from, count);
    forall id: nat | InStream(b, stream, id) && from <= id < b.nextId
      ensures id in ids || (|ids| == count && forall other :: other in ids ==> other < id)
    {
      if |ids| < count {
        NextIdsFill(b, stream, from, count, id);
      } else if ids != [] && id <= ids[|ids| - 1] {
        NextIdsSkipNothing(b, stream, from, count, id);
      }
    }
  }

  /** What reading `ids` does to the bus. */
  ghost predicate ReadMoves(cfg: Config, b: Bus, w: WorkerId, ids: seq<nat>, replyLost: bool, c: Bus)
    requires w.key in b.cursor
  {
    && c.delivered == b.delivered + Deliveries(w.key, ids)
    && c.store == b.store.(pending := b.store.pending + Deliveries(w.key, ids))
    && c.cursor == (if ids == [] then b.cursor else b.cursor[w.key := ids[|ids| - 1] + 1])
    && Batch(WorkerAt(c, w)) == (if replyLost then [] else ids)
    && StartsOn(cfg, b, WorkerAt(c, w))
  }

  lemma ReadReads(cfg: Config, b: Bus, w: WorkerId, ids: seq<nat>, replyLost: bool)
    requires w.ReadLoop? && WorkerAt(b, w) == Idle && w.key in b.cursor
    requires ids == NextIds(b, w.key.stream, b.cursor[w.key], 10) && forall id :: id in ids ==> id in b.published
    ensures ids == [] ==> Apply(cfg, b, Read(w, replyLost)) == b
    ensures ids != [] ==>
      var moved := b.(
        cursor := b.cursor[w.key := ids[|ids| - 1] + 1],
        delivered := b.delivered + Deliveries(w.key, ids),
        store := b.store.(pending := b.store.pending + Deliveries(w.key, ids)));
      Apply(cfg, b, Read(w, replyLost)) == if replyLost then moved else SetWorker(moved, w, TakeUp(cfg, EntriesOf(b, ids)))
  {
    hide NextIds, InStream, TakeUp, EntriesOf, Deliveries;
  }

  lemma SetWorkerChanges(b: Bus, w: WorkerId, worker: Worker)
    ensures
      var c := SetWorker(b, w, worker);
      c.delivered == b.delivered && c.store == b.store && c.cursor == b.cursor && WorkerAt(c, w) == worker
  {
  }

  lemma NothingRead(cfg: Config, b: Bus, w: WorkerId, replyLost: bool)
    requires w.key in b.cursor && WorkerAt(b, w) == Idle
    ensures ReadMoves(cfg, b, w, [], replyLost, b)
  {
    IdleBatch(cfg, b);
    assert Deliveries(w.key, []) == {};
    hide Batch, StartsOn, Deliveries;
  }

  lemma SomethingRead(cfg: Config, b: Bus, w: WorkerId, ids: seq<nat>, worker: Worker, replyLost: bool)
    requires w.key in b.cursor && ids != [] && WorkerAt(b, w) == Idle
    requires Batch(worker) == ids && StartsOn(cfg, b, worker)
    ensures
      var moved := b.(
        cursor := b.cursor[w.key := ids[|ids| - 1] + 1],
        delivered := b.delivered + Deliveries(w.key, ids),
        store := b.store.(pending := b.store.pending + Deliveries(w.key, ids)));
      ReadMoves(cfg, b, w, ids, replyLost, if replyLost then moved else SetWorker(moved, w, worker))
  {
    var moved := b.(
      cursor := b.cursor[w.key := ids[|ids| - 1] + 1],
      delivered := b.delivered + Deliveries(w.key, ids),
      store := b.store.(pending := b.store.pending + Deliveries(w.key, ids)));
    IdleBatch(cfg, b);
    assert WorkerAt(moved, w) == Idle;
    SetWorkerChanges(moved, w, worker);
    hide Batch, StartsOn, Deliveries, SetWorker, WorkerAt;
  }

  lemma ReadIsMove(cfg: Config, b: Bus, w: WorkerId, ids: seq<nat>, replyLost: bool)
    requires w.ReadLoop? && WorkerAt(b, w) == Idle && w.key in b.cursor
    requires ids == NextIds(b, w.key.stream, b.cursor[w.key], 10) && forall id :: id in ids ==> id in b.published
    ensures ReadMoves(cfg, b, w, ids, replyLost, Apply(cfg, b, Read(w, replyLost)))
  {
    hide *;
    ReadReads(cfg, b, w, ids, replyLost);
    if ids == [] {
      NothingRead(cfg, b, w, replyLost);
    } else {
      BatchOfTakeUp(cfg, b, ids);
      SomethingRead(cfg, b, w, ids, TakeUp(cfg, EntriesOf(b, ids)), replyLost);
    }
  }

  lemma NextIdsArePublished(b: Bus, stream: string, from: nat, count: nat)
    ensures forall id :: id in NextIds(b, stream, from, count) ==> id in b.published
  {
    NextIdsAreLive(b, stream, from, count);
    hide NextIds;
  }

  /**
   * An idle read loop reads the next ten live entries of its stream, or all there are: they become delivered and
   * pending, the cursor passes the last of them, and with the reply they are its batch.
   */
  lemma ReadTakesUp(cfg: Config, b: Bus, w: WorkerId, replyLost: bool)
    requires w.ReadLoop? && WorkerAt(b, w) == Idle && w.key in b.cursor
    ensures exists ids: seq<nat> ::
      && NextOf(b, w.key.stream, b.cursor[w.key], 10, ids)
      && ReadMoves(cfg, b, w, ids, replyLost, Apply(cfg, b, Read(w, replyLost)))
  {
    hide *;
    var ids := NextIds(b, w.key.stream, b.cursor[w.key], 10);
    NextIdsArePublished(b, w.key.stream, b.cursor[w.key], 10);
    NextIdsAreNext(b, w.key.stream, b.cursor[w.key], 10);
    ReadIsMove(cfg, b, w, ids, replyLost);
  }

  // ----- After an acknowledgement that throws -----

  /**
   * The exception that ends a read loop only cuts a tick's batch short: the tick is idle, its message is pending exactly
   * when the call never reached the server, the rest of its batch is pending as before, and the next claim takes up
   * whatever of that is still pending and not trimmed.
   */
  lemma EscapedTickClaimsAgain(cfg: Config, b: Bus, w: WorkerId, outcome: Outcome, now: int, ids: seq<nat>)
    requires w.AutoClaim? && WorkerAt(b, w).Busy? && outcome != Done && |ids| <= 50
    requires WorkerAt(b, w).stage.AckUnusable? || WorkerAt(b, w).stage.AckDead?
    ensures
      var d := Delivery(w.key, WorkerAt(b, w).id);
      var c := Apply(cfg, b, Await(w, outcome, now));
      && WorkerAt(c, w) == Idle
      && (d in c.store.pending <==> d in b.store.pending && outcome == Lost)
      && c.store.pending - {d} == b.store.pending - {d}
      && c == b.(store := b.store.(pending := c.store.pending), workers := c.workers)
      && (forall v :: v != w ==> WorkerAt(c, v) == WorkerAt(b, v))
      && (forall id: nat :: id in Batch(WorkerAt(Apply(cfg, c, Claim(w, ids, false)), w)) <==>
            id in ids && Delivery(w.key, id) in c.store.pending && id in b.live && id in b.published)
  {
    var c := Apply(cfg, b, Await(w, outcome, now));
    EscapeIdles(cfg, b, w, outcome, now);
    hide *;
    ClaimTakesUp(cfg, c, w, ids);
  }

  lemma EscapeIdles(cfg: Config, b: Bus, w: WorkerId, outcome: Outcome, now: int)
    requires w.AutoClaim? && WorkerAt(b, w).Busy? && outcome != Done
    requires WorkerAt(b, w).stage.AckUnusable? || WorkerAt(b, w).stage.AckDead?
    ensures
      var d := Delivery(w.key, WorkerAt(b, w).id);
      var c := Apply(cfg, b, Await(w, outcome, now));
      && WorkerAt(c, w) == Idle
      && (d in c.store.pending <==> d in b.store.pending && outcome == Lost)
      && c.store.pending - {d} == b.store.pending - {d}
      && c == b.(store := b.store.(pending := c.store.pending), workers := c.workers)
      && (forall v :: v != w ==> WorkerAt(c, v) == WorkerAt(b, v))
  {
  }

  // ----- How much a worker holds -----

  /** `COUNT` of the read and of the claim. */
  function Cap(w: WorkerId): nat {
    if w.ReadLoop? then 10 else 50
  }

  lemma {:induction false} KeptIsShorter(b: Bus, key: GroupKey, ids: seq<nat>)
    ensures |Kept(b, key, ids)| <= |ids|
  {
    if ids != [] { KeptIsShorter(b, key, ids[1..]); }
  }

  lemma BatchSize(worker: Worker)
    ensures |Batch(worker)| == if worker.Busy? then 1 + |worker.rest| else 0
  {
  }

  lemma ClaimFits(cfg: Config, b: Bus, w: WorkerId, ids: seq<nat>, replyLost: bool)
    requires |Batch(WorkerAt(b, w))| <= Cap(w)
    ensures |Batch(WorkerAt(ClaimPending(cfg, b, w, ids, replyLost), w))| <= Cap(w)
  {
    KeptIsShorter(b, w.key, ids);
    KeptArePending(b, w.key, ids);
    BatchSize(TakeUp(cfg, EntriesOf(b, Kept(b, w.key, ids))));
    hide Kept, Gone, Batch;
  }

  lemma ReadFits(cfg: Config, b: Bus, w: WorkerId, replyLost: bool)
    requires |Batch(WorkerAt(b, w))| <= Cap(w)
    ensures |Batch(WorkerAt(ReadGroup(cfg, b, w, replyLost), w))| <= Cap(w)
  {
    if w.key in b.cursor {
      NextIdsAreLive(b, w.key.stream, b.cursor[w.key], 10);
      BatchSize(TakeUp(cfg, EntriesOf(b, NextIds(b, w.key.stream, b.cursor[w.key], 10))));
    }
    hide NextIds, InStream, Batch;
  }

  lemma AwaitFits(cfg: Config, b: Bus, w: WorkerId, outcome: Outcome, now: int)
    requires |Batch(WorkerAt(b, w))| <= Cap(w)
    ensures |Batch(WorkerAt(AwaitCall(cfg, b, w, outcome, now), w))| <= Cap(w)
  {
    hide Effect, BodyOf;
  }

  lemma OthersKeepTheirs(cfg: Config, b: Bus, a: Action, w: WorkerId)
    requires (a.Read? || a.Claim? || a.Await?) ==> a.worker != w
    ensures WorkerAt(Apply(cfg, b, a), w) == WorkerAt(b, w) || WorkerAt(Apply(cfg, b, a), w) == Dead
  {
    hide Step, NextIds, Kept, Gone, EntriesOf, TakeUp;
  }

  /** In every run a read loop has at most ten messages in hand and a tick at most fifty. */
  lemma {:induction false} BatchesFit(cfg: Config, actions: seq<Action>, w: WorkerId)
    ensures |Batch(WorkerAt(Run(cfg, Empty(), actions), w))| <= Cap(w)
  {
    if actions != [] {
      var front, a := actions[..|actions| - 1], actions[|actions| - 1];
      var b := Run(cfg, Empty(), front);
      BatchesFit(cfg, front, w);
      RunGoesOn(cfg, Empty(), actions);
      BatchSize(Dead);
      hide Run, Batch, WorkerAt, ReadGroup, ClaimPending, AwaitCall;
      if a.Read? && a.worker == w { ReadFits(cfg, b, w, a.replyLost); }
      else if a.Claim? && a.worker == w { ClaimFits(cfg, b, w, a.ids, a.replyLost); }
      else if a.Await? && a.worker == w { AwaitFits(cfg, b, w, a.outcome, a.now); }
      else {
        OthersKeepTheirs(cfg, b, a, w);
        hide Apply;
      }
    } else {
      BatchSize(Idle);
    }
  }
}
