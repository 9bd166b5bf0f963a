/**
 * The run that makes a second dead letter without a fault: a read loop still holds an entry in its batch that the
 * autoclaim tick has meanwhile dispatched, dead-lettered and acknowledged.
 */
module StaleEntries {
  import opened Wrappers
  import opened Json
  import opened Dispatch
  import opened StreamDelivery
  import opened NoLoss
  import opened BoundedRetry
  import opened RetryRuns

  /** Finishing changes the store and the one worker, nothing else. */
  lemma {:induction false} FinishFrame(cfg: Config, b: Bus, w: WorkerId, weather: Weather, now: int)
    requires WorkerAt(b, w).Busy?
    ensures
      var c := Finish(cfg, b, w, weather, now);
      c == b.(store := c.store, workers := b.workers[w := WorkerAt(c, w)])
    decreases Rank(WorkerAt(b, w).stage)
  {
    hide Effect, AfterSuccess, AfterThrow, TakeUp;
    var outcome := weather(WorkerAt(b, w).stage);
    var c := AwaitCall(cfg, b, w, outcome, now);
    var next := Step(cfg, Delivery(w.key, WorkerAt(b, w).id), WorkerAt(b, w).stage, outcome, now, b.store).1;
    assert c == b.(store := c.store, workers := b.workers[w := WorkerAt(c, w)]);
    if next.Go? {
      FinishFrame(cfg, c, w, weather, now);
      var e := Finish(cfg, c, w, weather, now);
      assert c.workers[w := WorkerAt(e, w)] == b.workers[w := WorkerAt(e, w)];
    }
  }

  /** What a worker takes up when it has finished. */
  ghost function TakenAfter(c: Bus, w: WorkerId, d: Delivery): Tally {
    Started(c.store, c.workers, w, WorkerAt(c, w), d)
  }

  /** Finishing is a run of awaits; without faults it counts only the entry taken up at its end. */
  lemma {:induction false} FinishAsRun(
    cfg: Config, start: Bus, actions: seq<Action>, b: Bus, w: WorkerId, weather: Weather, now: int, d: Delivery)
    returns (more: seq<Action>)
    requires b == Run(cfg, start, actions) && WorkerAt(b, w).Busy? && Faultless(weather)
    ensures Run(cfg, start, actions + more) == Finish(cfg, b, w, weather, now)
    ensures TallyOf(cfg, start, actions + more, d) ==
      TallyOf(cfg, start, actions, d).Plus(TakenAfter(Finish(cfg, b, w, weather, now), w, d))
    decreases Rank(WorkerAt(b, w).stage)
  {
    hide *;
    var outcome := weather(WorkerAt(b, w).stage);
    var a, c := Await(w, outcome, now), AwaitCall(cfg, b, w, outcome, now);
    var longer := actions + [a];
    assert longer[..|longer| - 1] == actions;
    RunUnrolls(cfg, start, longer, d);
    AwaitIsApplied(cfg, b, w, outcome, now);
    FaultlessStage(weather, WorkerAt(b, w).stage);
    FaultlessAwait(cfg, b, w, outcome, now, d);
    FinishUnrolls(cfg, b, w, weather, now);
    PlusZero(TallyOf(cfg, start, actions, d));
    if CallOf(cfg, b, w, outcome, now).1.Go? {
      var rest := FinishAsRun(cfg, start, longer, c, w, weather, now, d);
      more := [a] + rest;
      assert actions + more == longer + rest;
    } else {
      more := [a];
    }
  }

  lemma AwaitIsApplied(cfg: Config, b: Bus, w: WorkerId, outcome: Outcome, now: int)
    ensures Apply(cfg, b, Await(w, outcome, now)) == AwaitCall(cfg, b, w, outcome, now)
  {
  }

  lemma FaultlessStage(weather: Weather, stage: Stage)
    requires Faultless(weather)
    ensures weather(stage) == Done || stage.Handle?
  {
  }

  lemma PlusZero(t: Tally)
    ensures t.Plus(ZERO) == t && ZERO.Plus(t) == t
  {
  }

  lemma FinishUnrolls(cfg: Config, b: Bus, w: WorkerId, weather: Weather, now: int)
    requires WorkerAt(b, w).Busy?
    ensures
      var stage := WorkerAt(b, w).stage;
      var c := AwaitCall(cfg, b, w, weather(stage), now);
      if CallOf(cfg, b, w, weather(stage), now).1.Go? then
        && WorkerAt(c, w).Busy? && Rank(WorkerAt(c, w).stage) < Rank(stage)
        && Finish(cfg, b, w, weather, now) == Finish(cfg, c, w, weather, now)
      else Finish(cfg, b, w, weather, now) == c
  {
    hide Effect, AfterSuccess, AfterThrow, TakeUp;
  }

  /** An await that meets no fault counts only what the worker takes up next. */
  lemma FaultlessAwait(cfg: Config, b: Bus, w: WorkerId, outcome: Outcome, now: int, d: Delivery)
    requires WorkerAt(b, w).Busy? && (outcome == Done || WorkerAt(b, w).stage.Handle?)
    ensures Count(cfg, b, Await(w, outcome, now), d) ==
      if CallOf(cfg, b, w, outcome, now).1.Go? then ZERO else TakenAfter(AwaitCall(cfg, b, w, outcome, now), w, d)
  {
    var (t, next) := CallOf(cfg, b, w, outcome, now);
    var mid := Resting(b, w, next);
    assert AwaitFaults(b, w, outcome, d) == ZERO;
    assert Count(cfg, b, Await(w, outcome, now), d) == AwaitFaults(b, w, outcome, d).Plus(NextTaken(cfg, t, mid, w, next, WorkerAt(b, w).rest, d));
    hide *;
    PlusZero(NextTaken(cfg, t, mid, w, next, WorkerAt(b, w).rest, d));
    AwaitParts(cfg, b, w, outcome, now);
    TakenIsNext(cfg, t, mid, w, next, WorkerAt(b, w).rest, d, AwaitCall(cfg, b, w, outcome, now));
  }

  lemma TakenIsNext(cfg: Config, s: Store, mid: Workers, w: WorkerId, next: Next, rest: seq<Entry>, d: Delivery, c: Bus)
    requires c.store == s && c.workers == WorkersAfter(cfg, mid, w, next, rest)
    ensures NextTaken(cfg, s, mid, w, next, rest, d) == if next.Go? then ZERO else TakenAfter(c, w, d)
  {
    hide TakeUp, Crew;
  }

  // ----- The run -----

  /** Two messages are read as one batch; the tick then claims the second while the loop is still at the first. */
  function Opening(key: GroupKey, first: seq<string>, second: seq<string>): seq<Action> {
    [CreateGroup(key), Publish(key.stream, first), Publish(key.stream, second),
     Read(ReadLoop(key, 0), false), Claim(AutoClaim(key, 0), [1], false)]
  }

  function Read2(key: GroupKey, p0: Json, second: seq<string>): Workers {
    map[ReadLoop(key, 0) := Busy(0, Handle(p0), [Entry(1, second)])]
  }

  lemma TwoPublished(cfg: Config, key: GroupKey, first: seq<string>, second: seq<string>, d: Delivery) returns (b: Bus)
    ensures b == Run(cfg, Empty(), Opening(key, first, second)[..3])
    ensures TallyOf(cfg, Empty(), Opening(key, first, second)[..3], d) == ZERO
    ensures b.nextId == 2 && b.cursor == map[key := 0] && b.workers == map[] && b.store == Empty().store
    ensures b.published == map[0 := Message(key.stream, first), 1 := Message(key.stream, second)]
    ensures 0 in b.live && 1 in b.live
  {
    hide *;
    OpeningIs(key, first, second);
    var all := Opening(key, first, second);
    var b1 := Apply(cfg, Empty(), all[0]);
    var b2 := Apply(cfg, b1, all[1]);
    b := Apply(cfg, b2, all[2]);
    GroupMade(cfg, key);
    Published(cfg, b1, key.stream, first);
    Published(cfg, b2, key.stream, second);
    NothingYet(cfg, all, d);
    NothingTaken(cfg, Empty(), all[0], d);
    NothingTaken(cfg, b1, all[1], d);
    NothingTaken(cfg, b2, all[2], d);
    PlusZero(ZERO);
    Snoc2(cfg, all, 0, Empty(), d);
    Snoc2(cfg, all, 1, b1, d);
    Snoc2(cfg, all, 2, b2, d);
  }

  lemma OpeningIs(key: GroupKey, first: seq<string>, second: seq<string>)
    ensures
      var all := Opening(key, first, second);
      && |all| == 5 && all[0] == CreateGroup(key)
      && all[1] == Publish(key.stream, first) && all[2] == Publish(key.stream, second)
      && all[3] == Read(ReadLoop(key, 0), false) && all[4] == Claim(AutoClaim(key, 0), [1], false)
      && all[..5] == all
  {
  }

  lemma NothingYet(cfg: Config, all: seq<Action>, d: Delivery)
    ensures Run(cfg, Empty(), all[..0]) == Empty() && TallyOf(cfg, Empty(), all[..0], d) == ZERO
  {
  }

  lemma GroupMade(cfg: Config, key: GroupKey)
    ensures
      var c := Apply(cfg, Empty(), CreateGroup(key));
      && c.nextId == 0 && c.cursor == map[key := 0] && c.workers == map[] && c.store == Empty().store && c.published == map[]
  {
  }

  lemma Published(cfg: Config, b: Bus, stream: string, fields: seq<string>)
    ensures
      var c := Apply(cfg, b, Publish(stream, fields));
      && c.nextId == b.nextId + 1 && c.cursor == b.cursor && c.workers == b.workers && c.store == b.store
      && c.published == b.published[b.nextId := Message(stream, fields)]
      && b.nextId in c.live && b.live <= c.live
  {
  }

  lemma NothingTaken(cfg: Config, b: Bus, a: Action, d: Delivery)
    requires a.CreateGroup? || a.Publish?
    ensures Count(cfg, b, a, d) == ZERO
  {
  }

  lemma Snoc2(cfg: Config, all: seq<Action>, i: nat, b: Bus, d: Delivery)
    requires i < |all| && b == Run(cfg, Empty(), all[..i])
    ensures Run(cfg, Empty(), all[..i + 1]) == Apply(cfg, b, all[i])
    ensures TallyOf(cfg, Empty(), all[..i + 1], d) == TallyOf(cfg, Empty(), all[..i], d).Plus(Count(cfg, b, all[i], d))
  {
    assert all[..i + 1][..i] == all[..i];
    RunUnrolls(cfg, Empty(), all[..i + 1], d);
    hide Run, TallyOf, Count, Apply;
  }

  lemma BothRead(b: Bus, key: GroupKey, first: seq<string>, second: seq<string>)
    requires b.nextId == 2 && 0 in b.live && 1 in b.live
    requires b.published == map[0 := Message(key.stream, first), 1 := Message(key.stream, second)]
    ensures NextIds(b, key.stream, 0, 10) == [0, 1]
  {
    assert NextIds(b, key.stream, 2, 8) == [];
    assert NextIds(b, key.stream, 1, 9) == [1] + NextIds(b, key.stream, 2, 8);
  }

  /** After the opening both workers hold the second message, but only the tick is on it. */
  lemma Opened(cfg: Config, key: GroupKey, first: seq<string>, second: seq<string>, p0: Json, p1: Json) returns (b: Bus)
    requires BodyOf(first, cfg.parse) == Usable(p0) && BodyOf(second, cfg.parse) == Usable(p1)
    ensures b == Run(cfg, Empty(), Opening(key, first, second))
    ensures TallyOf(cfg, Empty(), Opening(key, first, second), Delivery(key, 1)) == Tally(0, 1, 0, 0)
    ensures b.store == Store({Delivery(key, 0), Delivery(key, 1)}, map[], [], {}, [])
    ensures b.workers == Read2(key, p0, second)[AutoClaim(key, 0) := Busy(1, Handle(p1), [])]
    ensures WorkerAt(b, AutoClaim(key, 0)).Busy?
  {
    hide *;
    OpeningIs(key, first, second);
    var all, d, loop, tick := Opening(key, first, second), Delivery(key, 1), ReadLoop(key, 0), AutoClaim(key, 0);
    var b3 := TwoPublished(cfg, key, first, second, d);
    var b4 := ReadGroup(cfg, b3, loop, false);
    b := ClaimPending(cfg, b4, tick, [1], false);
    FirstRead(cfg, b3, key, first, second, p0);
    Claimed(cfg, b4, key, second, p0, p1);
    JustSet(b, AutoClaim(key, 0), Busy(1, Handle(p1), []));
    BatchApplied(cfg, b3, loop, d);
    BatchApplied(cfg, b4, tick, d);
    Snoc2(cfg, all, 3, b3, d);
    Snoc2(cfg, all, 4, b4, d);
    PlusZero(ZERO);
    PlusZero(BatchCount(b4, b, tick, d));
  }

  lemma JustSet(b: Bus, w: WorkerId, state: Worker)
    requires w in b.workers && b.workers[w] == state
    ensures WorkerAt(b, w) == state
  {
  }

  lemma BatchApplied(cfg: Config, b: Bus, w: WorkerId, d: Delivery)
    ensures
      var a := Read(w, false);
      Apply(cfg, b, a) == ReadGroup(cfg, b, w, false) && Count(cfg, b, a, d) == BatchCount(b, ReadGroup(cfg, b, w, false), w, d)
    ensures
      var a := Claim(w, [1], false);
      && Apply(cfg, b, a) == ClaimPending(cfg, b, w, [1], false)
      && Count(cfg, b, a, d) == BatchCount(b, ClaimPending(cfg, b, w, [1], false), w, d)
  {
    hide ReadGroup, ClaimPending, BatchCount;
  }

  /** The loop reads both and starts on the first. */
  lemma FirstRead(cfg: Config, b: Bus, key: GroupKey, first: seq<string>, second: seq<string>, p0: Json)
    requires b.nextId == 2 && b.cursor == map[key := 0] && b.workers == map[] && b.store == Empty().store
    requires b.published == map[0 := Message(key.stream, first), 1 := Message(key.stream, second)]
    requires 0 in b.live && 1 in b.live && BodyOf(first, cfg.parse) == Usable(p0)
    ensures
      var c := ReadGroup(cfg, b, ReadLoop(key, 0), false);
      && c.store == Store({Delivery(key, 0), Delivery(key, 1)}, map[], [], {}, [])
      && c.workers == Read2(key, p0, second)
      && c.published == b.published && c.live == b.live
      && BatchCount(b, c, ReadLoop(key, 0), Delivery(key, 1)) == ZERO
  {
    hide BodyOf, NextIds;
    BothRead(b, key, first, second);
    NextIdsAreLive(b, key.stream, 0, 10);
    assert EntriesOf(b, [0, 1]) == [Entry(0, first), Entry(1, second)];
    assert [Entry(0, first), Entry(1, second)][1..] == [Entry(1, second)];
    assert Deliveries(key, [0, 1]) == {Delivery(key, 0), Delivery(key, 1)};
  }

  lemma Claimed(cfg: Config, b: Bus, key: GroupKey, second: seq<string>, p0: Json, p1: Json)
    requires b.workers == Read2(key, p0, second) && Delivery(key, 1) in b.store.pending && 1 in b.live
    requires 1 in b.published && b.published[1].fields == second && BodyOf(second, cfg.parse) == Usable(p1)
    ensures
      var c := ClaimPending(cfg, b, AutoClaim(key, 0), [1], false);
      && c.store == b.store && c.workers == b.workers[AutoClaim(key, 0) := Busy(1, Handle(p1), [])]
      && BatchCount(b, c, AutoClaim(key, 0), Delivery(key, 1)) == Tally(0, 1, 0, 0)
  {
    OneMoves(b.workers, AutoClaim(key, 0), Busy(1, Handle(p1), []), Delivery(key, 1));
    assert Crew(b.workers, Delivery(key, 1)) == {};
    hide BodyOf, Crew;
    assert Kept(b, key, [1]) == [1] by { assert [1][1..] == []; }
    assert Gone(b, key, [1]) == {};
    assert b.store.pending - {} == b.store.pending;
    KeptArePending(b, key, [1]);
    assert EntriesOf(b, [1]) == [Entry(1, second)];
    assert [Entry(1, second)][1..] == [];
  }

  /** A dispatch whose handler throws and whose calls all succeed, at the limit: one letter, and the next entry. */
  lemma FinishFailing(cfg: Config, b: Bus, w: WorkerId, p: Json, now: int)
    requires WorkerAt(b, w).Busy? && WorkerAt(b, w).stage == Handle(p)
    requires CounterAt(b.store, Delivery(w.key, WorkerAt(b, w).id)).attempts + 1 >= cfg.limit
    ensures
      var d := Delivery(w.key, WorkerAt(b, w).id);
      var c := Finish(cfg, b, w, Throwing, now);
      && c.store.pending == b.store.pending - {d} && c.store.counters == b.store.counters - {KeyOf(d)}
      && LettersOf(c.store, d) == LettersOf(b.store, d) + 1
      && c.workers == b.workers[w := TakeUp(cfg, WorkerAt(b, w).rest)]
  {
    var d := Delivery(w.key, WorkerAt(b, w).id);
    FinishIsOneDispatch(cfg, b, w, Throwing, now);
    FinishFrame(cfg, b, w, Throwing, now);
    hide Finish, RunFrom, KeyOf, TakeUp;
    Advance(cfg, d, Handle(p), Throwing, now, b.store);
    FailureAtLimit(cfg, d, p, Throwing, now, b.store);
    var letter := HandlerFailure(d, p, CounterAt(b.store, d).attempts + 1, CounterAt(b.store, d).firstFailedAt.GetOr(now), now);
    LettersAppend(b.store.deadLetters, letter, d);
  }

  /** A dispatch whose handler returns. */
  lemma FinishHandled(cfg: Config, b: Bus, w: WorkerId, p: Json, now: int)
    requires WorkerAt(b, w).Busy? && WorkerAt(b, w).stage == Handle(p)
    ensures
      var d := Delivery(w.key, WorkerAt(b, w).id);
      var c := Finish(cfg, b, w, Calm, now);
      && c.store.pending == b.store.pending - {d} && c.store.counters == b.store.counters
      && c.store.deadLetters == b.store.deadLetters
      && c.workers == b.workers[w := TakeUp(cfg, WorkerAt(b, w).rest)]
  {
    FinishIsOneDispatch(cfg, b, w, Calm, now);
    FinishFrame(cfg, b, w, Calm, now);
    hide Finish, RunFrom, TakeUp;
    HandledDispatch(cfg, Delivery(w.key, WorkerAt(b, w).id), p, Calm, now, b.store);
  }

  /** Every call succeeds. */
  function Calm(stage: Stage): Outcome {
    Done
  }

  /** Only the handler throws. */
  function Throwing(stage: Stage): Outcome {
    if stage.Handle? then Lost else Done
  }

  lemma TickFinished(cfg: Config, b: Bus, key: GroupKey, second: seq<string>, p0: Json, p1: Json, now: int)
    requires cfg.limit == 1
    requires b.store == Store({Delivery(key, 0), Delivery(key, 1)}, map[], [], {}, [])
    requires b.workers == Read2(key, p0, second)[AutoClaim(key, 0) := Busy(1, Handle(p1), [])]
    ensures
      var d := Delivery(key, 1);
      var c := Finish(cfg, b, AutoClaim(key, 0), Throwing, now);
      && c.workers == Read2(key, p0, second)[AutoClaim(key, 0) := Idle]
      && d !in c.store.pending && KeyOf(d) !in c.store.counters && LettersOf(c.store, d) == 1
      && TakenAfter(c, AutoClaim(key, 0), d) == ZERO
      && WorkerAt(c, ReadLoop(key, 0)).Busy?
  {
    assert LettersOf(b.store, Delivery(key, 1)) == 0;
    hide Finish, KeyOf, LettersOf, Crew;
    FinishFailing(cfg, b, AutoClaim(key, 0), p1, now);
  }

  lemma LoopHandledFirst(cfg: Config, c: Bus, key: GroupKey, second: seq<string>, p0: Json, p1: Json, now: int)
    requires BodyOf(second, cfg.parse) == Usable(p1) && c.workers == Read2(key, p0, second)[AutoClaim(key, 0) := Idle]
    requires WorkerAt(c, ReadLoop(key, 0)).Busy? && Delivery(key, 1) !in c.store.pending
    ensures
      var d := Delivery(key, 1);
      var e := Finish(cfg, c, ReadLoop(key, 0), Calm, now);
      && WorkerAt(e, ReadLoop(key, 0)) == Busy(1, Handle(p1), [])
      && d !in e.store.pending && e.store.counters == c.store.counters && LettersOf(e.store, d) == LettersOf(c.store, d)
      && TakenAfter(e, ReadLoop(key, 0), d) == Tally(0, 1, 1, 0)
  {
    hide Finish, BodyOf, LettersOf, Crew;
    FinishHandled(cfg, c, ReadLoop(key, 0), p0, now);
    var e := Finish(cfg, c, ReadLoop(key, 0), Calm, now);
    SameLetters(c.store, e.store, Delivery(key, 1));
    assert [Entry(1, second)][1..] == [];
  }

  lemma LoopFinished(cfg: Config, e: Bus, key: GroupKey, p1: Json, now: int)
    requires cfg.limit == 1 && WorkerAt(e, ReadLoop(key, 0)) == Busy(1, Handle(p1), [])
    requires KeyOf(Delivery(key, 1)) !in e.store.counters
    ensures
      var d := Delivery(key, 1);
      var f := Finish(cfg, e, ReadLoop(key, 0), Throwing, now);
      LettersOf(f.store, d) == LettersOf(e.store, d) + 1 && TakenAfter(f, ReadLoop(key, 0), d) == ZERO
  {
    hide Finish, KeyOf, LettersOf, Crew;
    FinishFailing(cfg, e, ReadLoop(key, 0), p1, now);
  }

  lemma OnlyHandlersThrow()
    ensures Faultless(Throwing) && Faultless(Calm)
  {
  }

  lemma PlusParts(t: Tally, u: Tally)
    ensures t.Plus(u) == Tally(t.faults + u.faults, t.takeUps + u.takeUps, t.stale + u.stale, t.overlaps + u.overlaps)
  {
  }

  /**
   * With limit one, no fault and no overlapping dispatches, a message delivered once gets two dead letters: the second
   * from a dispatch begun after the message was acknowledged, because the loop never asks again about its batch.
   */
  lemma StaleEntryIsDeadLetteredAgain(
    cfg: Config, key: GroupKey, first: seq<string>, second: seq<string>, p0: Json, p1: Json, now: int)
    returns (actions: seq<Action>)
    requires cfg.limit == 1 && BodyOf(first, cfg.parse) == Usable(p0) && BodyOf(second, cfg.parse) == Usable(p1)
    ensures TallyOf(cfg, Empty(), actions, Delivery(key, 1)) == Tally(0, 2, 1, 0)
    ensures LettersOf(Run(cfg, Empty(), actions).store, Delivery(key, 1)) == 2
  {
    hide *;
    var d, loop, tick := Delivery(key, 1), ReadLoop(key, 0), AutoClaim(key, 0);
    var opening := Opening(key, first, second);
    var b := Opened(cfg, key, first, second, p0, p1);
    var c := Finish(cfg, b, tick, Throwing, now);
    TickFinished(cfg, b, key, second, p0, p1, now);
    var e := Finish(cfg, c, loop, Calm, now);
    LoopHandledFirst(cfg, c, key, second, p0, p1, now);
    LoopFinished(cfg, e, key, p1, now);
    OnlyHandlersThrow();
    PlusZero(Tally(0, 1, 0, 0));
    PlusParts(Tally(0, 1, 0, 0), Tally(0, 1, 1, 0));
    PlusZero(Tally(0, 2, 1, 0));
    var one := FinishAsRun(cfg, Empty(), opening, b, tick, Throwing, now, d);
    var two := FinishAsRun(cfg, Empty(), opening + one, c, loop, Calm, now, d);
    var three := FinishAsRun(cfg, Empty(), opening + one + two, e, loop, Throwing, now, d);
    actions := opening + one + two + three;
  }
}
