/** No delivered message is lost, in any interleaving of the machine of `StreamDelivery`. */
module NoLoss {
  import opened Wrappers
  import opened Json
  import opened Dispatch
  import opened StreamDelivery

  // ----- One call -----

  predicate LetterFor(letter: DeadLetter, d: Delivery) {
    letter.origin == d
  }

  ghost predicate DeadLettered(s: Store, d: Delivery) {
    exists i :: 0 <= i < |s.deadLetters| && LetterFor(s.deadLetters[i], d)
  }

  /** Why a message may leave the pending list: every acknowledgement sits behind one of these. */
  ghost predicate Settled(body: Body, s: Store, d: Delivery) {
    d in s.handled || DeadLettered(s, d) || body == Unusable
  }

  /** A dead letter carries the message it stands for, and a failed one only from the limit on. */
  ghost predicate Faithful(limit: nat, body: Body, letter: DeadLetter) {
    match letter
    case HandlerFailure(_, payload, attempts, _, _) => body == Usable(payload) && attempts >= limit
    case InvalidJson(_, raw, _) => body == Malformed(raw)
  }

  /** What holds while a dispatch waits at a stage. */
  ghost predicate StageOk(limit: nat, body: Body, d: Delivery, stage: Stage, s: Store) {
    match stage
    case AckUnusable => body == Unusable
    case AppendMalformed(raw) => body == Malformed(raw)
    case AckMalformed => DeadLettered(s, d)
    case Handle(payload) => body == Usable(payload)
    case AckHandled(payload) => body == Usable(payload) && d in s.handled
    case CountFailure(payload) => body == Usable(payload)
    case StampFirst(payload, _, _) => body == Usable(payload)
    case StampLast(payload, _, _) => body == Usable(payload)
    case SetExpiry(payload, _, _) => body == Usable(payload)
    case ReadStamps(payload, attempts, _) => body == Usable(payload) && attempts >= limit
    case AppendFailure(letter) => letter.HandlerFailure? && letter.origin == d && Faithful(limit, body, letter)
    case ClearCounter => DeadLettered(s, d)
    case AckDead => DeadLettered(s, d)
  }

  /** The records of the past only grow. */
  ghost predicate Grows(s: Store, t: Store) {
    && s.handled <= t.handled
    && s.deadLetters <= t.deadLetters
    && s.effects <= t.effects
  }

  lemma GrowthKeepsLetters(s: Store, t: Store, d: Delivery)
    requires Grows(s, t) && DeadLettered(s, d)
    ensures DeadLettered(t, d)
  {
    var i :| 0 <= i < |s.deadLetters| && LetterFor(s.deadLetters[i], d);
    assert t.deadLetters[i] == s.deadLetters[i];
  }

  lemma GrowthKeepsStage(limit: nat, body: Body, d: Delivery, stage: Stage, s: Store, t: Store)
    requires Grows(s, t) && StageOk(limit, body, d, stage, s)
    ensures StageOk(limit, body, d, stage, t)
  {
    if DeadLettered(s, d) { GrowthKeepsLetters(s, t, d); }
  }

  /** The letters and effects a step adds, and what they are. */
  ghost predicate NewRecordsOk(limit: nat, body: Body, d: Delivery, s: Store, t: Store) {
    && (t.deadLetters == s.deadLetters ||
        exists letter :: t.deadLetters == s.deadLetters + [letter] && letter.origin == d && Faithful(limit, body, letter))
    && (t.effects == s.effects || (t.effects == s.effects + [d] && body.Usable?))
    && (t.handled == s.handled || (t.handled == s.handled + {d} && t.effects == s.effects + [d]))
    && t.counters.Keys <= s.counters.Keys + {KeyOf(d)}
  }

  /** One call keeps the books: it acknowledges only its own message, and only with a reason. */
  lemma StepKeepsBooks(cfg: Config, body: Body, d: Delivery, stage: Stage, outcome: Outcome, now: int, s: Store)
    requires StageOk(cfg.limit, body, d, stage, s)
    ensures
      var (t, next) := Step(cfg, d, stage, outcome, now, s);
      && Grows(s, t)
      && (t.pending == s.pending || (t.pending == s.pending - {d} && Settled(body, t, d)))
      && NewRecordsOk(cfg.limit, body, d, s, t)
      && (next.Go? ==> StageOk(cfg.limit, body, d, next.stage, t))
  {
    var (t, next) := Step(cfg, d, stage, outcome, now, s);
    hide KeyOf;
    match stage
    case AppendMalformed(raw) =>
      if t != s { assert LetterFor(t.deadLetters[|s.deadLetters|], d); }
    case AppendFailure(letter) =>
      if t != s { assert LetterFor(t.deadLetters[|s.deadLetters|], d); }
    case _ =>
  }

  // ----- The whole machine -----

  function BodyAt(cfg: Config, b: Bus, id: nat): Body
    requires id in b.published
  {
    BodyOf(b.published[id].fields, cfg.parse)
  }

  /** Messages, cursors and deliveries belong together. */
  ghost predicate LogOk(b: Bus) {
    && (forall id :: id in b.published ==> id < b.nextId)
    && (forall id :: id in b.live ==> id in b.published)
    && (forall d :: d in b.delivered ==> d.id in b.published && b.published[d.id].stream == d.key.stream)
    && (forall d :: d in b.discarded ==> d in b.delivered && d.id !in b.live)
    && b.store.pending <= b.delivered
  }

  /** No live message of a group's stream is skipped by its cursor. */
  ghost predicate CursorsOk(b: Bus) {
    && b.start.Keys == b.cursor.Keys
    && (forall key :: key in b.cursor ==> b.start[key] <= b.cursor[key] <= b.nextId)
    && (forall key, id :: key in b.cursor && b.start[key] <= id < b.cursor[key] && InStream(b, key.stream, id) ==>
          Delivery(key, id) in b.delivered)
  }

  ghost predicate RecordsOk(cfg: Config, b: Bus)
    requires LogOk(b)
  {
    && (forall letter :: letter in b.store.deadLetters ==>
          letter.origin in b.delivered && Faithful(cfg.limit, BodyAt(cfg, b, letter.origin.id), letter))
    && (forall d :: d in b.store.effects ==> d in b.delivered && BodyAt(cfg, b, d.id).Usable?)
    && (forall d :: d in b.store.handled ==> d in b.store.effects)
    && (forall k :: k in b.store.counters ==> CountsSome(b, k))
  }

  ghost predicate CountsSome(b: Bus, k: string) {
    exists d :: d in b.delivered && KeyOf(d) == k
  }

  ghost predicate EntryOk(b: Bus, key: GroupKey, e: Entry) {
    && Delivery(key, e.id) in b.delivered
    && e.id in b.published
    && e.fields == b.published[e.id].fields
  }

  ghost predicate WorkerOk(cfg: Config, b: Bus, w: WorkerId, state: Worker) {
    state.Busy? ==>
      && Delivery(w.key, state.id) in b.delivered
      && state.id in b.published
      && StageOk(cfg.limit, BodyAt(cfg, b, state.id), Delivery(w.key, state.id), state.stage, b.store)
      && forall e :: e in state.rest ==> EntryOk(b, w.key, e)
  }

  ghost predicate WorkersOk(cfg: Config, b: Bus) {
    forall w :: w in b.workers ==> WorkerOk(cfg, b, w, b.workers[w])
  }

  ghost predicate AccountedFor(cfg: Config, b: Bus, d: Delivery)
    requires d.id in b.published
  {
    || d in b.store.pending
    || Settled(BodyAt(cfg, b, d.id), b.store, d)
    || d in b.discarded
  }

  ghost predicate AllAccountedFor(cfg: Config, b: Bus)
    requires LogOk(b)
  {
    forall d :: d in b.delivered ==> AccountedFor(cfg, b, d)
  }

  ghost predicate Inv(cfg: Config, b: Bus) {
    && LogOk(b)
    && CursorsOk(b)
    && RecordsOk(cfg, b)
    && WorkersOk(cfg, b)
    && AllAccountedFor(cfg, b)
  }

  /** The parts of the bus that workers and records look at only grow. */
  ghost predicate Extends(b: Bus, c: Bus) {
    && (forall id :: id in b.published ==> id in c.published && c.published[id] == b.published[id])
    && b.delivered <= c.delivered
    && b.discarded <= c.discarded
    && Grows(b.store, c.store)
  }

  lemma ExtensionKeepsWorker(cfg: Config, b: Bus, c: Bus, w: WorkerId, state: Worker)
    requires Extends(b, c) && WorkerOk(cfg, b, w, state)
    ensures WorkerOk(cfg, c, w, state)
  {
    if state.Busy? {
      GrowthKeepsStage(cfg.limit, BodyAt(cfg, b, state.id), Delivery(w.key, state.id), state.stage, b.store, c.store);
      forall e | e in state.rest ensures EntryOk(c, w.key, e) { assert EntryOk(b, w.key, e); }
    }
  }

  lemma ExtensionKeepsWorkers(cfg: Config, b: Bus, c: Bus)
    requires Extends(b, c) && WorkersOk(cfg, b) && c.workers == b.workers
    ensures WorkersOk(cfg, c)
  {
    forall w | w in c.workers ensures WorkerOk(cfg, c, w, c.workers[w]) {
      ExtensionKeepsWorker(cfg, b, c, w, b.workers[w]);
    }
  }

  lemma ExtensionKeepsAccount(cfg: Config, b: Bus, c: Bus, d: Delivery)
    requires Extends(b, c) && LogOk(b) && d in b.delivered && AccountedFor(cfg, b, d)
    requires d in b.store.pending ==> d in c.store.pending
    ensures AccountedFor(cfg, c, d)
  {
    if DeadLettered(b.store, d) { GrowthKeepsLetters(b.store, c.store, d); }
  }

  lemma QuietKeepsRecords(cfg: Config, b: Bus, c: Bus)
    requires Extends(b, c) && LogOk(b) && LogOk(c) && RecordsOk(cfg, b)
    requires c.store.deadLetters == b.store.deadLetters && c.store.effects == b.store.effects && c.store.handled == b.store.handled
    requires c.store.counters.Keys <= b.store.counters.Keys
    ensures RecordsOk(cfg, c)
  {
    hide KeyOf, BodyOf, Faithful;
    forall k | k in c.store.counters ensures CountsSome(c, k) {
      assert k in b.store.counters.Keys;
      assert CountsSome(b, k);
      var d :| d in b.delivered && KeyOf(d) == k;
      assert d in c.delivered;
    }
  }

  /** A step that delivers nothing, settles nothing and moves no cursor keeps everything but the log. */
  lemma QuietKeeps(cfg: Config, b: Bus, c: Bus)
    requires Inv(cfg, b) && Extends(b, c) && LogOk(c) && CursorsOk(c)
    requires c.workers == b.workers && c.delivered == b.delivered && c.store.pending == b.store.pending
    requires c.store.deadLetters == b.store.deadLetters && c.store.effects == b.store.effects && c.store.handled == b.store.handled
    requires c.store.counters.Keys <= b.store.counters.Keys
    ensures Inv(cfg, c)
  {
    hide BodyOf, KeyOf, CursorsOk, WorkersOk, RecordsOk, AccountedFor, Grows;
    ExtensionKeepsWorkers(cfg, b, c);
    QuietKeepsRecords(cfg, b, c);
    forall d | d in c.delivered ensures AccountedFor(cfg, c, d) { ExtensionKeepsAccount(cfg, b, c, d); }
  }

  lemma PublishKeeps(cfg: Config, b: Bus, stream: string, fields: seq<string>)
    requires Inv(cfg, b)
    ensures Inv(cfg, PublishMessage(b, stream, fields))
  {
    var c := PublishMessage(b, stream, fields);
    QuietKeeps(cfg, b, c);
  }

  lemma TrimKeeps(cfg: Config, b: Bus, stream: string, below: nat)
    requires Inv(cfg, b)
    ensures Inv(cfg, Apply(cfg, b, Trim(stream, below)))
  {
    var c := Apply(cfg, b, Trim(stream, below));
    QuietKeeps(cfg, b, c);
  }

  lemma GroupKeeps(cfg: Config, b: Bus, key: GroupKey)
    requires Inv(cfg, b)
    ensures Inv(cfg, Apply(cfg, b, CreateGroup(key)))
  {
    hide KeyOf, BodyOf, WorkersOk, RecordsOk, AllAccountedFor;
    var c := Apply(cfg, b, CreateGroup(key));
    QuietKeeps(cfg, b, c);
  }

  lemma ExpiryKeeps(cfg: Config, b: Bus, key: string)
    requires Inv(cfg, b)
    ensures Inv(cfg, Apply(cfg, b, ExpireCounter(key)))
  {
    hide KeyOf, BodyOf, WorkersOk, RecordsOk, AllAccountedFor;
    var c := Apply(cfg, b, ExpireCounter(key));
    assert c == b.(store := b.store.(counters := b.store.counters - {key}));
    QuietKeeps(cfg, b, c);
  }

  lemma SetWorkerKeeps(cfg: Config, b: Bus, w: WorkerId, state: Worker)
    requires Inv(cfg, b) && WorkerOk(cfg, b, w, state)
    ensures Inv(cfg, SetWorker(b, w, state))
  {
    var c := SetWorker(b, w, state);
    assert Extends(b, c);
    forall v | v in c.workers ensures WorkerOk(cfg, c, v, c.workers[v]) {
      ExtensionKeepsWorker(cfg, b, c, v, c.workers[v]);
    }
    forall d | d in c.delivered ensures AccountedFor(cfg, c, d) { ExtensionKeepsAccount(cfg, b, c, d); }
    forall k | k in c.store.counters ensures CountsSome(c, k) { assert CountsSome(b, k); }
  }

  /** Starting on a delivered entry puts the worker at a stage that fits its body. */
  lemma TakeUpOk(cfg: Config, b: Bus, w: WorkerId, batch: seq<Entry>)
    requires forall e :: e in batch ==> EntryOk(b, w.key, e)
    ensures WorkerOk(cfg, b, w, TakeUp(cfg, batch))
  {
    if batch != [] {
      assert EntryOk(b, w.key, batch[0]);
      assert forall e :: e in batch[1..] ==> e in batch;
    }
  }

  /** The bus after a read, before the worker takes up its batch. */
  function AfterRead(b: Bus, key: GroupKey, ids: seq<nat>): Bus
    requires ids != []
  {
    b.(cursor := b.cursor[key := ids[|ids| - 1] + 1],
       delivered := b.delivered + Deliveries(key, ids),
       store := b.store.(pending := b.store.pending + Deliveries(key, ids)))
  }

  lemma ReadExtends(cfg: Config, b: Bus, key: GroupKey, ids: seq<nat>)
    requires LogOk(b) && key in b.cursor && ids != [] && ids == NextIds(b, key.stream, b.cursor[key], 10)
    ensures Extends(b, AfterRead(b, key, ids)) && LogOk(AfterRead(b, key, ids))
    ensures forall id :: id in ids ==> id in b.published && Delivery(key, id) in AfterRead(b, key, ids).delivered
    ensures forall d :: d in b.store.pending ==> d in AfterRead(b, key, ids).store.pending
    ensures forall d :: d in AfterRead(b, key, ids).delivered && d !in b.delivered ==> d in AfterRead(b, key, ids).store.pending
  {
    NextIdsAreLive(b, key.stream, b.cursor[key], 10);
    hide NextIds;
  }

  lemma PendingIsAccounted(cfg: Config, b: Bus, d: Delivery)
    requires d.id in b.published && d in b.store.pending
    ensures AccountedFor(cfg, b, d)
  {
  }

  lemma ReadKeepsRecords(cfg: Config, b: Bus, key: GroupKey, ids: seq<nat>)
    requires LogOk(b) && RecordsOk(cfg, b) && ids != [] && LogOk(AfterRead(b, key, ids))
    requires Extends(b, AfterRead(b, key, ids))
    ensures RecordsOk(cfg, AfterRead(b, key, ids))
  {
    hide LogOk, Faithful;
    QuietKeepsRecords(cfg, b, AfterRead(b, key, ids));
  }

  lemma ReadMoves(cfg: Config, b: Bus, key: GroupKey, ids: seq<nat>)
    requires Inv(cfg, b) && key in b.cursor
    requires ids != [] && ids == NextIds(b, key.stream, b.cursor[key], 10)
    ensures Inv(cfg, AfterRead(b, key, ids))
    ensures forall id :: id in ids ==> id in b.published && Delivery(key, id) in AfterRead(b, key, ids).delivered
  {
    var c := AfterRead(b, key, ids);
    ReadExtends(cfg, b, key, ids);
    ExtensionKeepsWorkers(cfg, b, c);
    ReadSkipsNothing(b, key, ids);
    hide Extends, CursorsOk, WorkersOk, AccountedFor, Faithful, BodyOf, KeyOf;
    forall d | d in c.delivered ensures AccountedFor(cfg, c, d) {
      if d in b.delivered { ExtensionKeepsAccount(cfg, b, c, d); } else { PendingIsAccounted(cfg, c, d); }
    }
    ReadKeepsRecords(cfg, b, key, ids);
    hide RecordsOk;
  }

  lemma ReadSkipsNothing(b: Bus, key: GroupKey, ids: seq<nat>)
    requires LogOk(b) && CursorsOk(b) && key in b.cursor
    requires ids != [] && ids == NextIds(b, key.stream, b.cursor[key], 10)
    ensures CursorsOk(AfterRead(b, key, ids))
  {
    NextIdsAreLive(b, key.stream, b.cursor[key], 10);
    var c := AfterRead(b, key, ids);
    var last := ids[|ids| - 1];
    assert last in ids;
    forall k, id | k in c.cursor && c.start[k] <= id < c.cursor[k] && InStream(c, k.stream, id)
      ensures Delivery(k, id) in c.delivered
    {
      assert InStream(b, k.stream, id);
      if k == key && id >= b.cursor[key] {
        NextIdsSkipNothing(b, key.stream, b.cursor[key], 10, id);
        assert Delivery(k, id) in Deliveries(key, ids);
      }
    }
  }

  lemma ReadKeeps(cfg: Config, b: Bus, w: WorkerId, replyLost: bool)
    requires Inv(cfg, b)
    ensures Inv(cfg, ReadGroup(cfg, b, w, replyLost))
  {
    hide Inv, NextIds, WorkerOk;
    if w.key in b.cursor && WorkerAt(b, w) == Idle && w.ReadLoop? {
      var ids := NextIds(b, w.key.stream, b.cursor[w.key], 10);
      if ids != [] {
        NextIdsAreLive(b, w.key.stream, b.cursor[w.key], 10);
        ReadMoves(cfg, b, w.key, ids);
        var c := AfterRead(b, w.key, ids);
        TakeUpEntries(cfg, b, c, w, ids);
        if !replyLost { SetWorkerKeeps(cfg, c, w, TakeUp(cfg, EntriesOf(b, ids))); }
      }
    }
  }

  lemma TakeUpEntries(cfg: Config, b: Bus, c: Bus, w: WorkerId, ids: seq<nat>)
    requires forall id :: id in ids ==> id in b.published && Delivery(w.key, id) in c.delivered
    requires c.published == b.published
    ensures WorkerOk(cfg, c, w, TakeUp(cfg, EntriesOf(b, ids)))
  {
    var entries := EntriesOf(b, ids);
    forall e | e in entries ensures EntryOk(c, w.key, e) {
      var i :| 0 <= i < |entries| && entries[i] == e;
      assert ids[i] in ids;
    }
    TakeUpOk(cfg, c, w, entries);
  }

  lemma ClaimCleans(cfg: Config, b: Bus, key: GroupKey, ids: seq<nat>)
    requires Inv(cfg, b)
    ensures
      var gone := Gone(b, key, ids);
      Inv(cfg, b.(discarded := b.discarded + gone, store := b.store.(pending := b.store.pending - gone)))
  {
    var gone := Gone(b, key, ids);
    var c := b.(discarded := b.discarded + gone, store := b.store.(pending := b.store.pending - gone));
    assert Extends(b, c);
    ExtensionKeepsWorkers(cfg, b, c);
    forall d | d in c.delivered ensures AccountedFor(cfg, c, d) {
      if d !in gone { ExtensionKeepsAccount(cfg, b, c, d); }
    }
    forall k | k in c.store.counters ensures CountsSome(c, k) { assert CountsSome(b, k); }
  }

  lemma ClaimKeeps(cfg: Config, b: Bus, w: WorkerId, ids: seq<nat>, replyLost: bool)
    requires Inv(cfg, b)
    ensures Inv(cfg, ClaimPending(cfg, b, w, ids, replyLost))
  {
    if WorkerAt(b, w) == Idle && w.AutoClaim? && |ids| <= 50 {
      ClaimCleans(cfg, b, w.key, ids);
      KeptArePending(b, w.key, ids);
      var gone := Gone(b, w.key, ids);
      var c := b.(discarded := b.discarded + gone, store := b.store.(pending := b.store.pending - gone));
      TakeUpEntries(cfg, b, c, w, Kept(b, w.key, ids));
      hide Inv;
      if !replyLost { SetWorkerKeeps(cfg, c, w, TakeUp(cfg, EntriesOf(b, Kept(b, w.key, ids)))); }
    }
  }

  lemma AwaitStore(cfg: Config, b: Bus, d: Delivery, stage: Stage, outcome: Outcome, now: int)
    requires Inv(cfg, b) && d in b.delivered && StageOk(cfg.limit, BodyAt(cfg, b, d.id), d, stage, b.store)
    ensures
      var (t, next) := Step(cfg, d, stage, outcome, now, b.store);
      && Inv(cfg, b.(store := t))
      && (next.Go? ==> StageOk(cfg.limit, BodyAt(cfg, b, d.id), d, next.stage, t))
  {
    hide Step, StageOk, Inv;
    InvKnowsDeliveries(cfg, b);
    StepKeepsBooks(cfg, BodyAt(cfg, b, d.id), d, stage, outcome, now, b.store);
    BooksKeep(cfg, b, d, Step(cfg, d, stage, outcome, now, b.store).0);
  }

  lemma InvKnowsDeliveries(cfg: Config, b: Bus)
    requires Inv(cfg, b)
    ensures LogOk(b)
  {
  }

  lemma BooksKeep(cfg: Config, b: Bus, d: Delivery, t: Store)
    requires Inv(cfg, b) && d in b.delivered
    requires Grows(b.store, t) && NewRecordsOk(cfg.limit, BodyAt(cfg, b, d.id), d, b.store, t)
    requires t.pending == b.store.pending || (t.pending == b.store.pending - {d} && Settled(BodyAt(cfg, b, d.id), t, d))
    ensures Inv(cfg, b.(store := t))
  {
    hide NewRecordsOk, Grows, RecordsOk, WorkersOk, Settled, BodyOf;
    var c := b.(store := t);
    assert Extends(b, c);
    assert LogOk(c) && CursorsOk(c);
    ExtensionKeepsWorkers(cfg, b, c);
    forall e | e in c.delivered ensures AccountedFor(cfg, c, e) {
      if e != d || t.pending == b.store.pending { ExtensionKeepsAccount(cfg, b, c, e); }
    }
    AwaitRecords(cfg, b, c, d);
  }

  lemma AwaitRecords(cfg: Config, b: Bus, c: Bus, d: Delivery)
    requires LogOk(b) && LogOk(c) && RecordsOk(cfg, b) && d in b.delivered
    requires c == b.(store := c.store) && NewRecordsOk(cfg.limit, BodyAt(cfg, b, d.id), d, b.store, c.store)
    ensures RecordsOk(cfg, c)
  {
    hide KeyOf, BodyOf, Faithful;
    var t := c.store;
    forall k | k in t.counters ensures CountsSome(c, k) {
      assert k in b.store.counters.Keys + {KeyOf(d)};
      if k != KeyOf(d) { assert CountsSome(b, k); }
    }
    forall letter | letter in t.deadLetters
      ensures letter in b.store.deadLetters || (letter.origin == d && Faithful(cfg.limit, BodyAt(cfg, b, d.id), letter))
    {
    }
    forall e | e in t.effects ensures e in b.store.effects || (e == d && BodyAt(cfg, b, d.id).Usable?) {
    }
    forall e | e in t.handled ensures e in t.effects {
    }
  }

  lemma WorkerIsOk(cfg: Config, b: Bus, w: WorkerId)
    requires Inv(cfg, b)
    ensures WorkerOk(cfg, b, w, WorkerAt(b, w))
  {
  }

  lemma AwaitKeeps(cfg: Config, b: Bus, w: WorkerId, outcome: Outcome, now: int)
    requires Inv(cfg, b)
    ensures Inv(cfg, AwaitCall(cfg, b, w, outcome, now))
  {
    hide Step, Inv;
    if WorkerAt(b, w).Busy? {
      var state := WorkerAt(b, w);
      var d := Delivery(w.key, state.id);
      WorkerIsOk(cfg, b, w);
      AwaitStore(cfg, b, d, state.stage, outcome, now);
      StepKeepsBooks(cfg, BodyAt(cfg, b, state.id), d, state.stage, outcome, now, b.store);
      var (t, next) := Step(cfg, d, state.stage, outcome, now, b.store);
      var c := b.(store := t);
      hide StageOk;
      forall e | e in state.rest ensures EntryOk(c, w.key, e) { assert EntryOk(b, w.key, e); }
      TakeUpOk(cfg, c, w, state.rest);
      match next
      case Go(after) => SetWorkerKeeps(cfg, c, w, Busy(state.id, after, state.rest));
      case Returned => SetWorkerKeeps(cfg, c, w, TakeUp(cfg, state.rest));
      case Threw => SetWorkerKeeps(cfg, c, w, AfterEscape(w));
    }
  }

  lemma ActionKeeps(cfg: Config, b: Bus, a: Action)
    requires Inv(cfg, b)
    ensures Inv(cfg, Apply(cfg, b, a))
  {
    hide Inv, PublishMessage, ReadGroup, ClaimPending, AwaitCall;
    match a
    case Publish(stream, fields) => PublishKeeps(cfg, b, stream, fields);
    case Trim(stream, below) => TrimKeeps(cfg, b, stream, below);
    case CreateGroup(key) => GroupKeeps(cfg, b, key);
    case Read(w, replyLost) => ReadKeeps(cfg, b, w, replyLost);
    case Claim(w, ids, replyLost) => ClaimKeeps(cfg, b, w, ids, replyLost);
    case Await(w, outcome, now) => AwaitKeeps(cfg, b, w, outcome, now);
    case Crash(w) => SetWorkerKeeps(cfg, b, w, Dead);
    case ExpireCounter(key) => ExpiryKeeps(cfg, b, key);
  }

  lemma {:induction false} RunKeeps(cfg: Config, actions: seq<Action>)
    ensures Inv(cfg, Run(cfg, Empty(), actions))
  {
    if actions != [] {
      RunKeeps(cfg, actions[..|actions| - 1]);
      hide Inv, Apply;
      ActionKeeps(cfg, Run(cfg, Empty(), actions[..|actions| - 1]), actions[|actions| - 1]);
    }
  }

  /**
   * In every reachable state a delivered message is still pending in its group, or its handler has returned
   * normally, or a dead letter that carries it has been appended, or it had no usable `data` field, or it
   * was trimmed from the stream before it was claimed.
   */
  lemma NoDeliveredMessageIsLost(cfg: Config, actions: seq<Action>, d: Delivery)
    requires d in Run(cfg, Empty(), actions).delivered
    ensures
      var b := Run(cfg, Empty(), actions);
      && d.id in b.published
      && (|| d in b.store.pending
          || d in b.store.handled
          || (exists letter :: letter in b.store.deadLetters && letter.origin == d && Faithful(cfg.limit, BodyAt(cfg, b, d.id), letter))
          || BodyAt(cfg, b, d.id) == Unusable
          || (d in b.discarded && d.id !in b.live))
  {
    RunKeeps(cfg, actions);
    var b := Run(cfg, Empty(), actions);
    assert AccountedFor(cfg, b, d);
    if DeadLettered(b.store, d) {
      var i :| 0 <= i < |b.store.deadLetters| && LetterFor(b.store.deadLetters[i], d);
      assert b.store.deadLetters[i] in b.store.deadLetters;
    }
  }

  /** A group's reads skip nothing: what its cursor has passed was delivered to it or trimmed from the stream. */
  lemma NoMessageIsSkipped(cfg: Config, actions: seq<Action>, key: GroupKey, id: nat)
    requires
      var b := Run(cfg, Empty(), actions);
      && key in b.cursor && key in b.start && b.start[key] <= id < b.cursor[key]
      && id in b.published && b.published[id].stream == key.stream
    ensures
      var b := Run(cfg, Empty(), actions);
      Delivery(key, id) in b.delivered || id !in b.live
  {
    RunKeeps(cfg, actions);
  }

  /** Only deliveries that took place are handled, dead-lettered or counted; nothing is invented. */
  lemma RecordsAreOfDeliveries(cfg: Config, actions: seq<Action>)
    ensures
      var b := Run(cfg, Empty(), actions);
      && (forall d :: d in b.store.handled ==> d in b.delivered && d in b.store.effects)
      && (forall letter :: letter in b.store.deadLetters ==> letter.origin in b.delivered)
      && b.store.pending <= b.delivered
  {
    RunKeeps(cfg, actions);
  }

  /** A freshly published message has never failed anywhere: no group holds a counter for it. */
  lemma FreshMessagesHaveNoCounter(cfg: Config, actions: seq<Action>, key: GroupKey)
    ensures
      var b := Run(cfg, Empty(), actions);
      KeyOf(Delivery(key, b.nextId)) !in b.store.counters
  {
    RunKeeps(cfg, actions);
    var b := Run(cfg, Empty(), actions);
    var unseen := Delivery(key, b.nextId);
    if KeyOf(unseen) in b.store.counters {
      assert CountsSome(b, KeyOf(unseen));
      var d :| d in b.delivered && KeyOf(d) == KeyOf(unseen);
      KeyOfInjective(d, unseen);
    }
  }
}
