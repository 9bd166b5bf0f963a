/** At retry limit one, a message whose handler never returns gets one dead letter for every dispatch, stale ones included. */
module LetterCounts {
  import opened Wrappers
  import opened Json
  import opened Dispatch
  import opened StreamDelivery
  import opened NoLoss
  import opened BoundedRetry
  import opened RetryRuns
  import opened RetryLimits

  /** A stage from which a fault-free dispatch whose handler throws goes on to its letter, or has written it. */
  predicate LeadsToLetter(stage: Stage) {
    match stage
    case AckUnusable | AppendMalformed(_) | AckMalformed | AckHandled(_) => false
    case StampFirst(_, a, _) => a >= 1
    case StampLast(_, a, _) => a >= 1
    case SetExpiry(_, a, _) => a >= 1
    case _ => true
  }

  /** Unless the message has been handled, its `n` dispatches have written a letter each, or are about to. */
  ghost predicate Even(s: Store, ws: Workers, d: Delivery, n: int) {
    d !in s.handled ==> LettersOf(s, d) + |Writers(ws, d)| == n && AllLead(ws, d)
  }

  ghost predicate AllLead(ws: Workers, d: Delivery) {
    forall w :: w in Crew(ws, d) ==> LeadsToLetter(ws[w].stage)
  }

  /** Where a call of an unhandled dispatch leads, and that only the last one ends it. */
  lemma NextLeads(cfg: Config, s: Store, d: Delivery, stage: Stage, outcome: Outcome, now: int)
    requires cfg.limit == 1 && StageIsOf(d, stage) && LeadsToLetter(stage) && (outcome == Done || stage.Handle?)
    ensures
      var (t, next) := Step(cfg, d, stage, outcome, now, s);
      && (d !in t.handled && next.Go? ==> LeadsToLetter(next.stage))
      && (d !in t.handled && !next.Go? ==> AfterLetter(stage) && !Appends(stage))
      && (Appends(stage) ==> !AfterLetter(stage) && outcome == Done && next.Go?)
  {
    hide KeyOf, LettersOf, CounterAt, SetCounter;
  }

  lemma StageStep(cfg: Config, s: Store, d: Delivery, stage: Stage, outcome: Outcome, now: int)
    requires cfg.limit == 1 && StageIsOf(d, stage) && LeadsToLetter(stage) && (outcome == Done || stage.Handle?)
    ensures
      var (t, next) := Step(cfg, d, stage, outcome, now, s);
      d !in t.handled ==>
        && d !in s.handled
        && (next.Go? ==> LeadsToLetter(next.stage))
        && LettersOf(t, d) + (if next.Go? && !AfterLetter(next.stage) then 1 else 0)
             == LettersOf(s, d) + if !AfterLetter(stage) then 1 else 0
  {
    hide *;
    StoreCost(cfg, d, stage, outcome, now, s);
    NextCost(cfg, d, stage, outcome, now, s);
    NextLeads(cfg, s, d, stage, outcome, now);
    HandledStays(cfg, d, stage, outcome, now, s);
  }

  /** What a worker in this state still has to write of the message. */
  function Owes(w: WorkerId, state: Worker, d: Delivery): nat {
    if On(w, state, d) && !AfterLetter(state.stage) then 1 else 0
  }

  /** One worker moves, and the letters with it. */
  lemma MovedEven(s: Store, t: Store, ws: Workers, w: WorkerId, state: Worker, d: Delivery, n: int, n': int)
    requires Even(s, ws, d, n) && (d !in t.handled ==> d !in s.handled)
    requires d !in t.handled ==> (On(w, state, d) ==> LeadsToLetter(state.stage))
    requires d !in t.handled ==>
      LettersOf(t, d) + Owes(w, state, d) - n' == LettersOf(s, d) + (if w in ws then Owes(w, ws[w], d) else 0) - n
    ensures Even(t, ws[w := state], d, n')
  {
    WritersMove(ws, w, state, d);
    if d !in t.handled { LeadMoves(ws, w, state, d); }
    hide Writers, LettersOf, Owes, AllLead;
  }

  lemma WritersMove(ws: Workers, w: WorkerId, state: Worker, d: Delivery)
    ensures |Writers(ws[w := state], d)| ==
      |Writers(ws, d)| - (if w in ws then Owes(w, ws[w], d) else 0) + Owes(w, state, d)
  {
    OneCounted(ws, w, state, d);
    hide Writers, On, AfterLetter;
  }

  lemma LeadMoves(ws: Workers, w: WorkerId, state: Worker, d: Delivery)
    requires AllLead(ws, d) && (On(w, state, d) ==> LeadsToLetter(state.stage))
    ensures AllLead(ws[w := state], d)
  {
    CrewMoves(ws, w, state, d);
    var us := ws[w := state];
    forall v | v in Crew(us, d) ensures LeadsToLetter(us[v].stage) {
      if v != w { assert v in Crew(ws, d); }
    }
  }

  lemma CrewMoves(ws: Workers, w: WorkerId, state: Worker, d: Delivery)
    ensures forall v :: v in Crew(ws[w := state], d) ==>
      if v == w then On(w, state, d) else v in Crew(ws, d) && ws[w := state][v] == ws[v]
  {
    var us := ws[w := state];
    forall v | v in Crew(us, d)
      ensures if v == w then On(w, state, d) else v in Crew(ws, d) && us[v] == ws[v]
    {
      if v != w { assert us[v] == ws[v] && On(v, ws[v], d); }
    }
  }

  lemma OwnEven(cfg: Config, s: Store, ws: Workers, w: WorkerId, d: Delivery, outcome: Outcome, now: int, n: int)
    requires cfg.limit == 1 && w in ws && ws[w].Busy? && On(w, ws[w], d) && StageIsOf(d, ws[w].stage) && Even(s, ws, d, n)
    requires outcome == Done || ws[w].stage.Handle?
    ensures
      var x := ws[w];
      var (t, next) := Step(cfg, d, x.stage, outcome, now, s);
      Even(t, ws[w := if next.Go? then Busy(x.id, next.stage, x.rest) else Idle], d, n)
  {
    hide *;
    var x := ws[w];
    var (t, next) := Step(cfg, d, x.stage, outcome, now, s);
    var state := if next.Go? then Busy(x.id, next.stage, x.rest) else Idle;
    HandledStays(cfg, d, x.stage, outcome, now, s);
    OweParts(w, x, state, d);
    if d !in t.handled {
      CrewLeads(s, ws, w, d, n);
      StageStep(cfg, s, d, x.stage, outcome, now);
    }
    MovedEven(s, t, ws, w, state, d, n, n);
  }

  lemma OweParts(w: WorkerId, x: Worker, state: Worker, d: Delivery)
    requires On(w, x, d)
    ensures state.Busy? && state.id == x.id ==> On(w, state, d)
    ensures !state.Busy? ==> !On(w, state, d) && Owes(w, state, d) == 0
    ensures Owes(w, x, d) == if AfterLetter(x.stage) then 0 else 1
    ensures state.Busy? && state.id == x.id ==> Owes(w, state, d) == if AfterLetter(state.stage) then 0 else 1
  {
  }

  lemma CrewLeads(s: Store, ws: Workers, w: WorkerId, d: Delivery, n: int)
    requires Even(s, ws, d, n) && w in ws && On(w, ws[w], d) && d !in s.handled
    ensures LeadsToLetter(ws[w].stage)
  {
    assert w in Crew(ws, d);
  }

  /** Nothing of the message moves. */
  lemma SameEven(s: Store, t: Store, ws: Workers, d: Delivery, n: int)
    requires Even(s, ws, d, n) && LettersOf(t, d) == LettersOf(s, d) && (d in t.handled <==> d in s.handled)
    ensures Even(t, ws, d, n)
  {
    hide Writers, LettersOf, AllLead;
  }

  /** A worker that is not on the message changes to a state that is not on it either. */
  lemma AsideEven(s: Store, ws: Workers, t: Store, w: WorkerId, state: Worker, d: Delivery, n: int)
    requires Even(s, ws, d, n) && LettersOf(t, d) == LettersOf(s, d) && (d in t.handled <==> d in s.handled)
    requires w !in Crew(ws, d) && !On(w, state, d)
    ensures Even(t, ws[w := state], d, n)
  {
    hide *;
    NothingOwed(ws, w, state, d);
    MovedEven(s, t, ws, w, state, d, n, n);
  }

  lemma NothingOwed(ws: Workers, w: WorkerId, state: Worker, d: Delivery)
    requires w !in Crew(ws, d) && !On(w, state, d)
    ensures Owes(w, state, d) == 0 && (w in ws ==> Owes(w, ws[w], d) == 0)
  {
  }

  lemma StartEven(cfg: Config, s: Store, ws: Workers, w: WorkerId, batch: seq<Entry>, d: Delivery, n: int)
    requires Even(s, ws, d, n) && w !in Crew(ws, d)
    requires batch != [] && w.key == d.key && batch[0].id == d.id ==> BodyOf(batch[0].fields, cfg.parse).Usable?
    ensures
      var state := TakeUp(cfg, batch);
      Even(s, ws[w := state], d, n + Started(s, ws[w := state], w, state, d).takeUps)
  {
    hide *;
    var state := TakeUp(cfg, batch);
    StartedOnce(s, ws[w := state], w, state, d);
    if On(w, state, d) {
      FirstEven(cfg, s, ws, w, batch, d, n);
    } else {
      AsideEven(s, ws, s, w, state, d, n);
    }
  }

  lemma StartedOnce(s: Store, ws: Workers, w: WorkerId, state: Worker, d: Delivery)
    ensures Started(s, ws, w, state, d).takeUps == if On(w, state, d) then 1 else 0
  {
    hide Crew;
  }

  lemma FirstEven(cfg: Config, s: Store, ws: Workers, w: WorkerId, batch: seq<Entry>, d: Delivery, n: int)
    requires Even(s, ws, d, n) && w !in Crew(ws, d) && On(w, TakeUp(cfg, batch), d)
    requires batch != [] && w.key == d.key && batch[0].id == d.id ==> BodyOf(batch[0].fields, cfg.parse).Usable?
    ensures Even(s, ws[w := TakeUp(cfg, batch)], d, n + 1)
  {
    hide *;
    FirstOwes(cfg, ws, w, batch, d);
    MovedEven(s, s, ws, w, TakeUp(cfg, batch), d, n, n + 1);
  }

  lemma FirstOwes(cfg: Config, ws: Workers, w: WorkerId, batch: seq<Entry>, d: Delivery)
    requires w !in Crew(ws, d) && On(w, TakeUp(cfg, batch), d)
    requires batch != [] && w.key == d.key && batch[0].id == d.id ==> BodyOf(batch[0].fields, cfg.parse).Usable?
    ensures Owes(w, TakeUp(cfg, batch), d) == 1 && LeadsToLetter(TakeUp(cfg, batch).stage)
    ensures w in ws ==> Owes(w, ws[w], d) == 0
  {
    hide BodyOf;
  }

  lemma CallEven(cfg: Config, b: Bus, w: WorkerId, outcome: Outcome, now: int, d: Delivery, n: int)
    requires cfg.limit == 1 && Inv(cfg, b) && WorkerAt(b, w).Busy? && AwaitFaults(b, w, outcome, d) == ZERO
    requires Even(b.store, b.workers, d, n)
    ensures var (t, next) := CallOf(cfg, b, w, outcome, now); Even(t, Resting(b, w, next), d, n)
  {
    var x := WorkerAt(b, w);
    var e := Delivery(w.key, x.id);
    WorkerIsOk(cfg, b, w);
    var (t, next) := CallOf(cfg, b, w, outcome, now);
    hide Inv, Even, Step;
    if e == d {
      OwnEven(cfg, b.store, b.workers, w, d, outcome, now, n);
    } else {
      StepIsolates(cfg, e, x.stage, outcome, now, b.store, d);
      hide LettersOf, Crew, CounterAt;
      NotOnOther(b.workers, w, e, d);
      AsideEven(b.store, b.workers, t, w, Resting(b, w, next)[w], d, n);
    }
  }

  lemma NotOnOther(ws: Workers, w: WorkerId, e: Delivery, d: Delivery)
    requires w in ws && On(w, ws[w], e) && e != d
    ensures w !in Crew(ws, d)
  {
  }

  lemma AfterCallEven(
    cfg: Config, s: Store, mid: Workers, w: WorkerId, next: Next, rest: seq<Entry>, d: Delivery, n: int)
    requires Even(s, mid, d, n) && (!next.Go? ==> w !in Crew(mid, d))
    requires rest != [] && w.key == d.key && rest[0].id == d.id ==> BodyOf(rest[0].fields, cfg.parse).Usable?
    ensures Even(s, WorkersAfter(cfg, mid, w, next, rest), d, n + NextTaken(cfg, s, mid, w, next, rest, d).takeUps)
  {
    hide Even, Crew, Started, TakeUp, BodyOf;
    match next
    case Go(_) =>
    case Returned => StartEven(cfg, s, mid, w, rest, d, n);
    case Threw => AsideEven(s, mid, s, w, AfterEscape(w), d, n);
  }

  lemma AwaitEven(cfg: Config, b: Bus, w: WorkerId, outcome: Outcome, now: int, d: Delivery, n: int)
    requires cfg.limit == 1 && Inv(cfg, b) && BodyIs(cfg, b, d, Kind(true, true)) && Even(b.store, b.workers, d, n)
    requires AwaitCount(cfg, b, w, outcome, now, d).Clean()
    ensures
      var c := AwaitCall(cfg, b, w, outcome, now);
      Even(c.store, c.workers, d, n + AwaitCount(cfg, b, w, outcome, now, d).takeUps)
  {
    hide *;
    NoneTimely();
    if WorkerAt(b, w).Busy? {
      var rest := WorkerAt(b, w).rest;
      var (t, next) := CallOf(cfg, b, w, outcome, now);
      AwaitParts(cfg, b, w, outcome, now);
      AwaitCountSplits(cfg, b, w, outcome, now, d);
      CallEven(cfg, b, w, outcome, now, d, n);
      RestingOff(b, w, next, d);
      if rest != [] {
        RestEntry(cfg, b, w);
        EntryBody(cfg, b, w, d, Kind(true, true), rest);
      }
      AfterCallEven(cfg, t, Resting(b, w, next), w, next, rest, d, n);
    } else {
      IdleAwait(cfg, b, w, outcome, now);
      IdleAwaitCount(cfg, b, w, outcome, now, d);
    }
  }

  /** A read or a claim leaves letters and workers alone until the worker takes up its batch. */
  lemma BatchEven(cfg: Config, b: Bus, m: Bus, w: WorkerId, batch: seq<Entry>, d: Delivery, n: int)
    requires Even(b.store, b.workers, d, n) && WorkerAt(b, w) == Idle && m.workers == b.workers
    requires m.store == b.store.(pending := m.store.pending)
    requires BodyIs(cfg, m, d, Kind(true, true)) && forall e :: e in batch ==> EntryOk(m, w.key, e)
    ensures Even(m.store, m.workers, d, n) && BatchCount(b, m, w, d) == ZERO
    ensures
      var c := SetWorker(m, w, TakeUp(cfg, batch));
      Even(c.store, c.workers, d, n + BatchCount(b, c, w, d).takeUps)
  {
    hide *;
    SameLetters(b.store, m.store, d);
    SameEven(b.store, m.store, b.workers, d, n);
    BatchStarts(b, m, w, TakeUp(cfg, batch), d);
    if batch != [] {
      assert EntryOk(m, w.key, batch[0]);
      EntryBody(cfg, m, w, d, Kind(true, true), batch);
    }
    StartEven(cfg, m.store, m.workers, w, batch, d, n);
  }

  lemma ReadLeaves(b: Bus, key: GroupKey, ids: seq<nat>)
    requires ids != []
    ensures
      var m := AfterRead(b, key, ids);
      m.workers == b.workers && m.published == b.published && m.store == b.store.(pending := m.store.pending)
  {
  }

  lemma ReadEven(cfg: Config, b: Bus, w: WorkerId, replyLost: bool, d: Delivery, n: int)
    requires BodyIs(cfg, b, d, Kind(true, true)) && Even(b.store, b.workers, d, n)
    ensures
      var c := ReadGroup(cfg, b, w, replyLost);
      Even(c.store, c.workers, d, n + BatchCount(b, c, w, d).takeUps)
  {
    hide *;
    var ids := ReadParts(cfg, b, w, replyLost);
    NoBatch(b, w, d);
    NoneTimely();
    if ids != [] {
      var m := AfterRead(b, w.key, ids);
      ReadLeaves(b, w.key, ids);
      ReadEntriesOk(b, w.key, ids);
      HandsBody(cfg, b, m, d, Kind(true, true));
      BatchEven(cfg, b, m, w, EntriesOf(b, ids), d, n);
    }
  }

  lemma ClaimEven(cfg: Config, b: Bus, w: WorkerId, ids: seq<nat>, replyLost: bool, d: Delivery, n: int)
    requires Inv(cfg, b) && BodyIs(cfg, b, d, Kind(true, true)) && Even(b.store, b.workers, d, n)
    ensures
      var c := ClaimPending(cfg, b, w, ids, replyLost);
      Even(c.store, c.workers, d, n + BatchCount(b, c, w, d).takeUps)
  {
    hide *;
    var done := ClaimParts(cfg, b, w, ids, replyLost);
    NoBatch(b, w, d);
    NoneTimely();
    if done {
      var m := AfterClaim(b, w.key, ids);
      ClaimHands(b, w.key, ids, d);
      HandsParts(b, m, d);
      ClaimedEntries(cfg, b, w.key, ids, d, Kind(true, true));
      BatchEven(cfg, b, m, w, EntriesOf(b, Kept(b, w.key, ids)), d, n);
    }
  }

  lemma QuietEven(b: Bus, c: Bus, d: Delivery, n: int)
    requires Even(b.store, b.workers, d, n) && c.workers == b.workers && c.store == b.store.(counters := c.store.counters)
    ensures Even(c.store, c.workers, d, n)
  {
    hide *;
    SameLetters(b.store, c.store, d);
    SameEven(b.store, c.store, b.workers, d, n);
  }

  lemma CrashEven(b: Bus, w: WorkerId, d: Delivery, n: int)
    requires Even(b.store, b.workers, d, n) && !On(w, WorkerAt(b, w), d)
    ensures Even(b.store, b.workers[w := Dead], d, n)
  {
    assert w !in Crew(b.workers, d);
    hide Even, Crew;
    AsideEven(b.store, b.workers, b.store, w, Dead, d, n);
  }

  lemma ActionEven(cfg: Config, b: Bus, a: Action, d: Delivery, n: int)
    requires cfg.limit == 1 && Inv(cfg, b) && BodyIs(cfg, b, d, Kind(true, true)) && Even(b.store, b.workers, d, n)
    requires Count(cfg, b, a, d).Clean()
    ensures var c := Apply(cfg, b, a); Even(c.store, c.workers, d, n + Count(cfg, b, a, d).takeUps)
  {
    hide *;
    ActionParts(cfg, b, a, d);
    NoneTimely();
    match a
    case Read(w, replyLost) => ReadEven(cfg, b, w, replyLost, d, n);
    case Claim(w, ids, replyLost) => ClaimEven(cfg, b, w, ids, replyLost, d, n);
    case Await(w, outcome, now) => AwaitEven(cfg, b, w, outcome, now, d, n);
    case Crash(w) =>
      CrashIsFault();
      CrashedBus(b, w);
      CrashEven(b, w, d, n);
    case _ =>
      OnlyWorkersWork(a);
      QuietEven(b, Apply(cfg, b, a), d, n);
  }

  lemma {:induction false} RunEven(cfg: Config, b: Bus, actions: seq<Action>, d: Delivery, n: int)
    requires cfg.limit == 1 && Reachable(cfg, b) && Even(b.store, b.workers, d, n)
    requires BodyIs(cfg, Run(cfg, b, actions), d, Kind(true, true)) && TallyOf(cfg, b, actions, d).Clean()
    ensures var c := Run(cfg, b, actions); Even(c.store, c.workers, d, n + TallyOf(cfg, b, actions, d).takeUps)
  {
    hide *;
    RunUnrolls(cfg, b, actions, d);
    NoneTimely();
    if actions != [] {
      var front, a := actions[..|actions| - 1], actions[|actions| - 1];
      var m := Run(cfg, b, front);
      RunReachable(cfg, b, front);
      ReachableInv(cfg, m);
      CleanAdds(TallyOf(cfg, b, front, d), Count(cfg, m, a, d));
      BodyStays(cfg, m, a, d, Kind(true, true));
      RunEven(cfg, b, front, d, n);
      ActionEven(cfg, m, a, d, n + TallyOf(cfg, b, front, d).takeUps);
    }
  }

  lemma EmptyEven(d: Delivery)
    ensures Even(Empty().store, Empty().workers, d, 0)
  {
  }

  lemma EvenAtRest(s: Store, ws: Workers, d: Delivery, n: int)
    requires Even(s, ws, d, n) && Crew(ws, d) == {} && d !in s.handled
    ensures LettersOf(s, d) == n
  {
    OneMoves(ws, ReadLoop(d.key, 0), Idle, d);
    assert Writers(ws, d) == {};
  }

  /**
   * With limit one, without faults and overlapping dispatches: once a message whose handler never returns is settled and
   * nobody is on it, it has one dead letter, and exactly one more for each entry that a worker took up after it was
   * settled; so a second one if and only if there was such an entry.
   */
  lemma OneLetterPerDispatch(cfg: Config, actions: seq<Action>, d: Delivery)
    requires cfg.limit == 1 && ExpireCounter(KeyOf(d)) !in actions
    requires TallyOf(cfg, Empty(), actions, d).Clean()
    requires NeverHandled(cfg, Run(cfg, Empty(), actions), d)
    requires Crew(Run(cfg, Empty(), actions).workers, d) == {} && d !in Run(cfg, Empty(), actions).store.pending
    ensures
      var letters := LettersOf(Run(cfg, Empty(), actions).store, d);
      var stale := TallyOf(cfg, Empty(), actions, d).stale;
      letters == 1 + stale && (letters > 1 <==> stale >= 1)
  {
    hide *;
    var b := Run(cfg, Empty(), actions);
    EmptyReachable(cfg);
    EmptyEven(d);
    NeverHandledBody(cfg, b, d);
    LimitPlusStaleDispatches(cfg, actions, d);
    RunEven(cfg, Empty(), actions, d, 0);
    NeverHandledIs(cfg, b, d);
    EvenAtRest(b.store, b.workers, d, 0 + TallyOf(cfg, Empty(), actions, d).takeUps);
  }

  lemma NeverHandledIs(cfg: Config, b: Bus, d: Delivery)
    requires NeverHandled(cfg, b, d)
    ensures d !in b.store.handled
  {
  }
}
