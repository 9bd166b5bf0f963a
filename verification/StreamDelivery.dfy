/**
 * The consumer groups of `RedisStreamsEventBus` as one machine: publishing, trimming, group reads, autoclaim
 * ticks, dispatch calls, crashes and counter expiry interleave freely, over any number of streams, groups
 * and consumers. Which idle entries a tick claims is a free choice.
 */
module StreamDelivery {
  import opened Wrappers
  import opened Json
  import opened Dispatch

  datatype Message = Message(stream: string, fields: seq<string>)

  datatype Entry = Entry(id: nat, fields: seq<string>)

  /** The read loop and the autoclaim tick of one consumer run side by side. */
  datatype WorkerId = ReadLoop(key: GroupKey, consumer: nat) | AutoClaim(key: GroupKey, consumer: nat)

  datatype Worker =
    | Idle
    | Dead
    | Busy(id: nat, stage: Stage, rest: seq<Entry>)

  /** `published` never forgets a message; `live` are those not trimmed. A group's cursor is its last-delivered id. */
  datatype Bus = Bus(
    published: map<nat, Message>,
    nextId: nat,
    live: set<nat>,
    start: map<GroupKey, nat>,
    cursor: map<GroupKey, nat>,
    delivered: set<Delivery>,
    discarded: set<Delivery>,
    store: Store,
    workers: map<WorkerId, Worker>)

  function Empty(): Bus {
    Bus(map[], 0, {}, map[], map[], {}, {}, Store({}, map[], [], {}, []), map[])
  }

  datatype Action =
    | Publish(stream: string, fields: seq<string>)
    | Trim(stream: string, below: nat)
    | CreateGroup(key: GroupKey)
    | Read(worker: WorkerId, replyLost: bool)
    | Claim(worker: WorkerId, ids: seq<nat>, replyLost: bool)
    | Await(worker: WorkerId, outcome: Outcome, now: int)
    | Crash(worker: WorkerId)
    | ExpireCounter(counterKey: string)

  function WorkerAt(b: Bus, w: WorkerId): Worker {
    if w in b.workers then b.workers[w] else Idle
  }

  function SetWorker(b: Bus, w: WorkerId, state: Worker): Bus {
    b.(workers := b.workers[w := state])
  }

  /** Start on the first entry of a batch, or go idle. */
  function TakeUp(cfg: Config, batch: seq<Entry>): Worker {
    if batch == [] then Idle
    else Busy(batch[0].id, FirstStage(BodyOf(batch[0].fields, cfg.parse)), batch[1..])
  }

  /** An error that escapes a dispatch ends the read loop for good; a tick only abandons its batch. */
  function AfterEscape(w: WorkerId): Worker {
    match w
    case ReadLoop(_, _) => Dead
    case AutoClaim(_, _) => Idle
  }

  predicate InStream(b: Bus, stream: string, id: nat) {
    id in b.published && b.published[id].stream == stream && id in b.live
  }

  /** The first `count` live ids of a stream from `from` on: what `XREADGROUP ... >` returns. */
  function NextIds(b: Bus, stream: string, from: nat, count: nat): (ids: seq<nat>)
    decreases b.nextId - from
  {
    if count == 0 || from >= b.nextId then []
    else if InStream(b, stream, from) then [from] + NextIds(b, stream, from + 1, count - 1)
    else NextIds(b, stream, from + 1, count)
  }

  function EntriesOf(b: Bus, ids: seq<nat>): (entries: seq<Entry>)
    requires forall id :: id in ids ==> id in b.published
    ensures |entries| == |ids|
    ensures forall i :: 0 <= i < |ids| ==> entries[i] == Entry(ids[i], b.published[ids[i]].fields)
  {
    seq(|ids|, i requires 0 <= i < |ids| => Entry(ids[i], b.published[ids[i]].fields))
  }

  function Deliveries(key: GroupKey, ids: seq<nat>): set<Delivery> {
    set id | id in ids :: Delivery(key, id)
  }

  lemma NextIdsAreLive(b: Bus, stream: string, from: nat, count: nat)
    ensures forall id :: id in NextIds(b, stream, from, count) ==> InStream(b, stream, id) && from <= id < b.nextId
    ensures |NextIds(b, stream, from, count)| <= count
    decreases b.nextId - from
  {
    if count != 0 && from < b.nextId {
      if InStream(b, stream, from) { NextIdsAreLive(b, stream, from + 1, count - 1); }
      else { NextIdsAreLive(b, stream, from + 1, count); }
    }
  }

  /** A read returns a contiguous run: nothing live of the stream is skipped up to its last id. */
  lemma NextIdsSkipNothing(b: Bus, stream: string, from: nat, count: nat, id: nat)
    requires InStream(b, stream, id) && from <= id < b.nextId
    requires var ids := NextIds(b, stream, from, count); ids != [] && id <= ids[|ids| - 1]
    ensures id in NextIds(b, stream, from, count)
    decreases b.nextId - from
  {
    if InStream(b, stream, from) {
      var rest := NextIds(b, stream, from + 1, count - 1);
      assert NextIds(b, stream, from, count) == [from] + rest;
      if id != from { NextIdsSkipNothing(b, stream, from + 1, count - 1, id); }
    } else {
      NextIdsSkipNothing(b, stream, from + 1, count, id);
    }
  }

  // ----- Actions -----

  /** `XADD`: a fresh id, above every earlier one. */
  function PublishMessage(b: Bus, stream: string, fields: seq<string>): Bus {
    b.(published := b.published[b.nextId := Message(stream, fields)], live := b.live + {b.nextId}, nextId := b.nextId + 1)
  }

  /** `XREADGROUP COUNT 10`: moves the cursor and puts the entries on the pending list, reply or no reply. */
  function ReadGroup(cfg: Config, b: Bus, w: WorkerId, replyLost: bool): Bus {
    if w.key !in b.cursor || WorkerAt(b, w) != Idle || !w.ReadLoop? then b
    else
      NextIdsAreLive(b, w.key.stream, b.cursor[w.key], 10);
      var ids := NextIds(b, w.key.stream, b.cursor[w.key], 10);
      if ids == [] then b
      else
        var moved := b.(
          cursor := b.cursor[w.key := ids[|ids| - 1] + 1],
          delivered := b.delivered + Deliveries(w.key, ids),
          store := b.store.(pending := b.store.pending + Deliveries(w.key, ids)));
        if replyLost then moved else SetWorker(moved, w, TakeUp(cfg, EntriesOf(b, ids)))
  }

  function Kept(b: Bus, key: GroupKey, ids: seq<nat>): seq<nat> {
    if ids == [] then []
    else
      var rest := Kept(b, key, ids[1..]);
      if Delivery(key, ids[0]) in b.store.pending && ids[0] in b.live && ids[0] in b.published then [ids[0]] + rest else rest
  }

  function Gone(b: Bus, key: GroupKey, ids: seq<nat>): set<Delivery> {
    set id | id in ids && Delivery(key, id) in b.store.pending && id !in b.live :: Delivery(key, id)
  }

  /** `XAUTOCLAIM COUNT 50`: hands over pending entries, and deletes from the list those already trimmed. */
  function ClaimPending(cfg: Config, b: Bus, w: WorkerId, ids: seq<nat>, replyLost: bool): Bus {
    if WorkerAt(b, w) != Idle || !w.AutoClaim? || |ids| > 50 then b
    else
      var gone := Gone(b, w.key, ids);
      var cleaned := b.(
        discarded := b.discarded + gone,
        store := b.store.(pending := b.store.pending - gone));
      KeptArePending(b, w.key, ids);
      if replyLost then cleaned else SetWorker(cleaned, w, TakeUp(cfg, EntriesOf(b, Kept(b, w.key, ids))))
  }

  lemma KeptArePending(b: Bus, key: GroupKey, ids: seq<nat>)
    ensures forall id :: id in Kept(b, key, ids) ==> Delivery(key, id) in b.store.pending && id in b.live && id in b.published
  {
  }

  /** One await of a busy worker. */
  function AwaitCall(cfg: Config, b: Bus, w: WorkerId, outcome: Outcome, now: int): Bus {
    match WorkerAt(b, w)
    case Busy(id, stage, rest) =>
      var (store, next) := Step(cfg, Delivery(w.key, id), stage, outcome, now, b.store);
      var state :=
        match next
        case Go(after) => Busy(id, after, rest)
        case Returned => TakeUp(cfg, rest)
        case Threw => AfterEscape(w);
      SetWorker(b.(store := store), w, state)
    case _ => b
  }

  function Apply(cfg: Config, b: Bus, a: Action): Bus {
    match a
    case Publish(stream, fields) => PublishMessage(b, stream, fields)
    case Trim(stream, below) => b.(live := set id | id in b.live && !(InStream(b, stream, id) && id < below))
    case CreateGroup(key) =>
      if key in b.cursor then b else b.(start := b.start[key := b.nextId], cursor := b.cursor[key := b.nextId])
    case Read(w, replyLost) => ReadGroup(cfg, b, w, replyLost)
    case Claim(w, ids, replyLost) => ClaimPending(cfg, b, w, ids, replyLost)
    case Await(w, outcome, now) => AwaitCall(cfg, b, w, outcome, now)
    case Crash(w) => SetWorker(b, w, Dead)
    case ExpireCounter(key) => b.(store := b.store.(counters := b.store.counters - {key}))
  }

  function Run(cfg: Config, b: Bus, actions: seq<Action>): Bus {
    if actions == [] then b else Apply(cfg, Run(cfg, b, actions[..|actions| - 1]), actions[|actions| - 1])
  }

  // ----- A worker left alone -----

  /** Let one worker make its calls, with nothing in between, until it is done with its message. */
  function Finish(cfg: Config, b: Bus, w: WorkerId, weather: Weather, now: int): Bus
    requires WorkerAt(b, w).Busy?
    decreases Rank(WorkerAt(b, w).stage)
  {
    var stage := WorkerAt(b, w).stage;
    var next := Step(cfg, Delivery(w.key, WorkerAt(b, w).id), stage, weather(stage), now, b.store).1;
    var c := AwaitCall(cfg, b, w, weather(stage), now);
    if next.Go? then Finish(cfg, c, w, weather, now) else c
  }

  /** Uninterrupted, the machine's calls amount to one whole dispatch. */
  lemma {:induction false} FinishIsOneDispatch(cfg: Config, b: Bus, w: WorkerId, weather: Weather, now: int)
    requires WorkerAt(b, w).Busy?
    ensures
      var worker := WorkerAt(b, w);
      var (store, next) := RunFrom(cfg, Delivery(w.key, worker.id), worker.stage, weather, now, b.store);
      var after := Finish(cfg, b, w, weather, now);
      && after.store == store
      && WorkerAt(after, w) == (if next.Returned? then TakeUp(cfg, worker.rest) else if w.ReadLoop? then Dead else Idle)
    decreases Rank(WorkerAt(b, w).stage)
  {
    hide RunFrom, Effect, AfterSuccess, AfterThrow;
    var worker := WorkerAt(b, w);
    var d := Delivery(w.key, worker.id);
    var outcome := weather(worker.stage);
    Advance(cfg, d, worker.stage, weather, now, b.store);
    var next := Step(cfg, d, worker.stage, outcome, now, b.store).1;
    if next.Go? { FinishIsOneDispatch(cfg, AwaitCall(cfg, b, w, outcome, now), w, weather, now); }
  }
}
