/** When an exception escapes a dispatch, and what that does to the read loop that made it. */
module LoopEnds {
  import opened Wrappers
  import opened Json
  import opened Dispatch
  import opened StreamDelivery

  // ----- One dispatch -----

  /** The letter that a dispatch writes when it counts the failure that reaches the limit. */
  function LetterOf(d: Delivery, payload: Json, now: int, s: Store): DeadLetter {
    var c := CounterAt(s, d);
    HandlerFailure(d, payload, c.attempts + 1, c.firstFailedAt.GetOr(now), now)
  }

  /** Every call of the failure handler succeeds, up to the deletion of the counter. */
  predicate FailureRecorded(d: Delivery, payload: Json, weather: Weather, now: int, s: Store) {
    var attempts := CounterAt(s, d).attempts + 1;
    && weather(CountFailure(payload)) == Done
    && weather(StampFirst(payload, attempts, now)) == Done
    && weather(StampLast(payload, attempts, now)) == Done
    && weather(SetExpiry(payload, attempts, now)) == Done
    && weather(ReadStamps(payload, attempts, now)) == Done
    && weather(AppendFailure(LetterOf(d, payload, now, s))) == Done
    && weather(ClearCounter) == Done
  }

  /** From the limit on a failure is recorded in full and then the acknowledgement throws; nothing else escapes. */
  predicate FailureEscapes(cfg: Config, d: Delivery, payload: Json, weather: Weather, now: int, s: Store) {
    && CounterAt(s, d).attempts + 1 >= cfg.limit
    && FailureRecorded(d, payload, weather, now, s)
    && weather(AckDead) != Done
  }

  lemma ThrownIsSwallowed(cfg: Config, d: Delivery, stage: Stage, weather: Weather, now: int, s: Store)
    requires weather(stage) != Done && AfterThrow(stage) == Returned
    ensures RunFrom(cfg, d, stage, weather, now, s).1 == Returned
  {
  }

  lemma LateEscape(cfg: Config, d: Delivery, letter: DeadLetter, weather: Weather, now: int, s: Store)
    ensures RunFrom(cfg, d, AppendFailure(letter), weather, now, s).1.Threw? <==>
      weather(AppendFailure(letter)) == Done && weather(ClearCounter) == Done && weather(AckDead) != Done
  {
    hide RunFrom, KeyOf;
    Advance(cfg, d, AppendFailure(letter), weather, now, s);
    if weather(AppendFailure(letter)) == Done {
      var t := Append(s, letter);
      Advance(cfg, d, ClearCounter, weather, now, t);
      if weather(ClearCounter) == Done { Advance(cfg, d, AckDead, weather, now, t.(counters := t.counters - {KeyOf(d)})); }
    }
  }

  lemma StampsEscape(cfg: Config, d: Delivery, payload: Json, weather: Weather, now: int, s: Store, letter: DeadLetter)
    requires CounterAt(s, d).attempts >= 1 && CounterAt(s, d).lastFailedAt == Some(now)
    requires letter == HandlerFailure(d, payload, CounterAt(s, d).attempts, CounterAt(s, d).firstFailedAt.GetOr(now), now)
    ensures RunFrom(cfg, d, SetExpiry(payload, CounterAt(s, d).attempts, now), weather, now, s).1.Threw? <==>
      && CounterAt(s, d).attempts >= cfg.limit
      && weather(SetExpiry(payload, CounterAt(s, d).attempts, now)) == Done
      && weather(ReadStamps(payload, CounterAt(s, d).attempts, now)) == Done
      && weather(AppendFailure(letter)) == Done && weather(ClearCounter) == Done && weather(AckDead) != Done
  {
    hide RunFrom, KeyOf;
    var attempts := CounterAt(s, d).attempts;
    Advance(cfg, d, SetExpiry(payload, attempts, now), weather, now, s);
    if weather(SetExpiry(payload, attempts, now)) == Done && attempts >= cfg.limit {
      Advance(cfg, d, ReadStamps(payload, attempts, now), weather, now, s);
      if weather(ReadStamps(payload, attempts, now)) == Done { LateEscape(cfg, d, letter, weather, now, s); }
    }
  }

  lemma CountedEscape(cfg: Config, d: Delivery, payload: Json, weather: Weather, now: int, s: Store)
    ensures RunFrom(cfg, d, CountFailure(payload), weather, now, s).1.Threw? <==> FailureEscapes(cfg, d, payload, weather, now, s)
  {
    hide RunFrom, KeyOf;
    var c := CounterAt(s, d);
    var attempts := c.attempts + 1;
    Advance(cfg, d, CountFailure(payload), weather, now, s);
    if weather(CountFailure(payload)) == Done {
      var s1 := SetCounter(s, d, c.(attempts := attempts));
      Advance(cfg, d, StampFirst(payload, attempts, now), weather, now, s1);
      if weather(StampFirst(payload, attempts, now)) == Done {
        var c2 := c.(attempts := attempts, firstFailedAt := Some(c.firstFailedAt.GetOr(now)));
        var s2 := SetCounter(s1, d, c2);
        Advance(cfg, d, StampLast(payload, attempts, now), weather, now, s2);
        if weather(StampLast(payload, attempts, now)) == Done {
          StampsEscape(cfg, d, payload, weather, now, SetCounter(s2, d, c2.(lastFailedAt := Some(now))), LetterOf(d, payload, now, s));
        }
      }
    }
  }

  /**
   * An exception escapes a dispatch in exactly two cases: the acknowledgement of a message without usable `data`
   * throws; or the handler or its acknowledgement throws, the failure reaches the limit and is recorded in full, and
   * the acknowledgement after it throws.
   */
  lemma EscapesExactly(cfg: Config, d: Delivery, body: Body, weather: Weather, now: int, s: Store)
    ensures RunFrom(cfg, d, FirstStage(body), weather, now, s).1.Threw? <==>
      || (body.Unusable? && weather(AckUnusable) != Done)
      || (&& body.Usable?
          && (weather(Handle(body.payload)) != Done || weather(AckHandled(body.payload)) != Done)
          && FailureEscapes(cfg, d, body.payload, weather, now, s))
  {
    hide RunFrom, KeyOf;
    Advance(cfg, d, FirstStage(body), weather, now, s);
    match body
    case Unusable =>
    case Malformed(raw) => Advance(cfg, d, AckMalformed, weather, now, Append(s, InvalidJson(d, raw, now)));
    case Usable(payload) =>
      var outcome := weather(Handle(payload));
      var t := Step(cfg, d, Handle(payload), outcome, now, s).0;
      assert t.counters == s.counters;
      if outcome == Done {
        Advance(cfg, d, AckHandled(payload), weather, now, t);
        var u := Step(cfg, d, AckHandled(payload), weather(AckHandled(payload)), now, t).0;
        assert u.counters == s.counters;
        CountedEscape(cfg, d, payload, weather, now, u);
      } else {
        CountedEscape(cfg, d, payload, weather, now, t);
      }
  }

  // ----- Runs -----

  /** A crash, or an acknowledgement outside every `try` that throws. */
  predicate EndsLoop(b: Bus, a: Action, w: WorkerId) {
    || a == Crash(w)
    || (a.Await? && a.worker == w && WorkerAt(b, w).Busy? && a.outcome != Done
        && (WorkerAt(b, w).stage.AckUnusable? || WorkerAt(b, w).stage.AckDead?))
  }

  lemma ActionEndsExactly(cfg: Config, b: Bus, a: Action, w: WorkerId)
    requires w.ReadLoop?
    ensures WorkerAt(Apply(cfg, b, a), w) == Dead <==> WorkerAt(b, w) == Dead || EndsLoop(b, a, w)
  {
    hide Effect, NextIds, Kept, Gone, EntriesOf, BodyOf;
  }

  predicate EndsAt(cfg: Config, b: Bus, actions: seq<Action>, i: nat, w: WorkerId)
    requires i < |actions|
  {
    EndsLoop(Run(cfg, b, actions[..i]), actions[i], w)
  }

  lemma EndsAtFront(cfg: Config, b: Bus, actions: seq<Action>, i: nat, w: WorkerId)
    requires i < |actions|
    ensures i < |actions| - 1 ==> EndsAt(cfg, b, actions, i, w) == EndsAt(cfg, b, actions[..|actions| - 1], i, w)
    ensures i == |actions| - 1 ==> EndsAt(cfg, b, actions, i, w) == EndsLoop(Run(cfg, b, actions[..|actions| - 1]), actions[i], w)
  {
    if i < |actions| - 1 { assert actions[..|actions| - 1][..i] == actions[..i]; }
  }

  /** A read loop has ended in exactly the runs in which it crashed or such an acknowledgement threw; it never restarts. */
  lemma {:induction false} LoopEndsExactly(cfg: Config, b: Bus, actions: seq<Action>, w: WorkerId)
    requires w.ReadLoop?
    ensures WorkerAt(Run(cfg, b, actions), w) == Dead <==>
      WorkerAt(b, w) == Dead || exists i :: 0 <= i < |actions| && EndsAt(cfg, b, actions, i, w)
  {
    if actions != [] {
      var front, last := actions[..|actions| - 1], |actions| - 1;
      LoopEndsExactly(cfg, b, front, w);
      ActionEndsExactly(cfg, Run(cfg, b, front), actions[last], w);
      hide Apply, EndsLoop, EndsAt, WorkerAt;
      forall i | 0 <= i < |actions|
        ensures EndsAt(cfg, b, actions, i, w) ==
          if i < last then EndsAt(cfg, b, front, i, w) else EndsLoop(Run(cfg, b, front), actions[last], w)
      {
        EndsAtFront(cfg, b, actions, i, w);
      }
      assert EndsAt(cfg, b, actions, last, w) == EndsLoop(Run(cfg, b, front), actions[last], w);
      if i :| 0 <= i < |front| && EndsAt(cfg, b, front, i, w) { assert EndsAt(cfg, b, actions, i, w); }
    }
  }

  /** Whatever happens, a dead loop stays dead and nothing it would do takes place. */
  lemma DeadLoopDoesNothing(cfg: Config, b: Bus, a: Action, w: WorkerId)
    requires WorkerAt(b, w) == Dead
    ensures WorkerAt(Apply(cfg, b, a), w) == Dead
    ensures a.Read? && a.worker == w ==> Apply(cfg, b, a) == b
    ensures a.Claim? && a.worker == w ==> Apply(cfg, b, a) == b
    ensures a.Await? && a.worker == w ==> Apply(cfg, b, a) == b
  {
    hide Step, NextIds, Kept, Gone, EntriesOf, TakeUp;
  }

  lemma CursorMovesByReads(cfg: Config, b: Bus, a: Action, key: GroupKey)
    requires key in b.cursor && (a.Read? && a.worker.key == key ==> WorkerAt(b, a.worker) == Dead)
    ensures key in Apply(cfg, b, a).cursor && Apply(cfg, b, a).cursor[key] == b.cursor[key]
  {
    hide Step, NextIds, Kept, Gone, EntriesOf, TakeUp;
  }

  /** When every loop that would read for a group is dead, the group reads nothing more: new messages stay undelivered. */
  lemma {:induction false} DeadGroupReadsNothing(cfg: Config, b: Bus, actions: seq<Action>, key: GroupKey)
    requires key in b.cursor
    requires forall a :: a in actions && a.Read? && a.worker.key == key ==> WorkerAt(b, a.worker) == Dead
    ensures key in Run(cfg, b, actions).cursor && Run(cfg, b, actions).cursor[key] == b.cursor[key]
    ensures forall w :: WorkerAt(b, w) == Dead ==> WorkerAt(Run(cfg, b, actions), w) == Dead
  {
    if actions != [] {
      var front, a := actions[..|actions| - 1], actions[|actions| - 1];
      assert a in actions && forall x :: x in front ==> x in actions;
      hide Apply, WorkerAt;
      DeadGroupReadsNothing(cfg, b, front, key);
      CursorMovesByReads(cfg, Run(cfg, b, front), a, key);
      forall w | WorkerAt(b, w) == Dead ensures WorkerAt(Run(cfg, b, actions), w) == Dead {
        DeadLoopDoesNothing(cfg, Run(cfg, b, front), a, w);
      }
    }
  }

  /**
   * The acknowledgement that ends a loop leaves its message pending exactly when the call never reached the server;
   * every other entry, those of the loop's own batch included, stays on the pending list for a tick to claim.
   */
  lemma EndingAck(cfg: Config, b: Bus, w: WorkerId, outcome: Outcome, now: int)
    requires w.ReadLoop? && EndsLoop(b, Await(w, outcome, now), w)
    ensures
      var c := Apply(cfg, b, Await(w, outcome, now));
      var d := Delivery(w.key, WorkerAt(b, w).id);
      && WorkerAt(c, w) == Dead
      && (d in c.store.pending <==> d in b.store.pending && outcome == Lost)
      && c.store.pending - {d} == b.store.pending - {d}
      && c.store == b.store.(pending := c.store.pending)
  {
  }

  // ----- A run that ends a loop -----

  lemma Snoc(cfg: Config, b: Bus, actions: seq<Action>, a: Action)
    ensures Run(cfg, b, actions + [a]) == Apply(cfg, Run(cfg, b, actions), a)
  {
    assert (actions + [a])[..|actions|] == actions;
  }

  lemma NotRun(cfg: Config, b: Bus)
    ensures Run(cfg, b, []) == b
  {
  }

  lemma OnePublished(cfg: Config, key: GroupKey, fields: seq<string>)
    ensures
      var b := Apply(cfg, Apply(cfg, Empty(), CreateGroup(key)), Publish(key.stream, fields));
      && b.nextId == 1 && b.cursor == map[key := 0] && b.workers == map[] && b.store.pending == {}
      && 0 in b.live && 0 in b.published && b.published[0] == Message(key.stream, fields)
  {
  }

  lemma OneTaken(cfg: Config, b: Bus, key: GroupKey, fields: seq<string>)
    requires BodyOf(fields, cfg.parse) == Unusable
    requires b.nextId == 1 && b.cursor == map[key := 0] && b.workers == map[] && b.store.pending == {}
    requires 0 in b.live && 0 in b.published && b.published[0] == Message(key.stream, fields)
    ensures
      var c := Apply(cfg, b, Read(ReadLoop(key, 0), false));
      c.store.pending == {Delivery(key, 0)} && WorkerAt(c, ReadLoop(key, 0)) == Busy(0, AckUnusable, [])
  {
    assert NextIds(b, key.stream, 1, 9) == [];
    assert NextIds(b, key.stream, 0, 10) == [0] + NextIds(b, key.stream, 1, 9);
    hide NextIds, BodyOf;
    NextIdsAreLive(b, key.stream, 0, 10);
    assert EntriesOf(b, [0]) == [Entry(0, fields)];
    assert [Entry(0, fields)][1..] == [];
    assert Deliveries(key, [0]) == {Delivery(key, 0)};
  }

  lemma OneRead(cfg: Config, key: GroupKey, fields: seq<string>) returns (b: Bus)
    requires BodyOf(fields, cfg.parse) == Unusable
    ensures b == Run(cfg, Empty(), [CreateGroup(key), Publish(key.stream, fields), Read(ReadLoop(key, 0), false)])
    ensures b.store.pending == {Delivery(key, 0)} && WorkerAt(b, ReadLoop(key, 0)) == Busy(0, AckUnusable, [])
  {
    hide *;
    var b1 := Apply(cfg, Empty(), CreateGroup(key));
    var b2 := Apply(cfg, b1, Publish(key.stream, fields));
    b := Apply(cfg, b2, Read(ReadLoop(key, 0), false));
    assert [] + [CreateGroup(key)] == [CreateGroup(key)];
    assert [CreateGroup(key)] + [Publish(key.stream, fields)] == [CreateGroup(key), Publish(key.stream, fields)];
    assert [CreateGroup(key), Publish(key.stream, fields)] + [Read(ReadLoop(key, 0), false)]
        == [CreateGroup(key), Publish(key.stream, fields), Read(ReadLoop(key, 0), false)];
    NotRun(cfg, Empty());
    Snoc(cfg, Empty(), [], CreateGroup(key));
    Snoc(cfg, Empty(), [CreateGroup(key)], Publish(key.stream, fields));
    Snoc(cfg, Empty(), [CreateGroup(key), Publish(key.stream, fields)], Read(ReadLoop(key, 0), false));
    OnePublished(cfg, key, fields);
    OneTaken(cfg, b2, key, fields);
  }

  /** One message without usable `data` ends the loop that reads it, and is pending afterwards or not. */
  lemma UnusableMessageEndsLoop(cfg: Config, key: GroupKey, fields: seq<string>, outcome: Outcome, now: int)
    requires BodyOf(fields, cfg.parse) == Unusable && outcome != Done
    ensures
      var run := [CreateGroup(key), Publish(key.stream, fields), Read(ReadLoop(key, 0), false)] + [Await(ReadLoop(key, 0), outcome, now)];
      var c := Run(cfg, Empty(), run);
      WorkerAt(c, ReadLoop(key, 0)) == Dead && (Delivery(key, 0) in c.store.pending <==> outcome == Lost)
  {
    var b := OneRead(cfg, key, fields);
    var opening := [CreateGroup(key), Publish(key.stream, fields), Read(ReadLoop(key, 0), false)];
    Snoc(cfg, Empty(), opening, Await(ReadLoop(key, 0), outcome, now));
    hide Run, Apply;
    EndingAck(cfg, b, ReadLoop(key, 0), outcome, now);
  }
}
