/**
 * How often a message is dispatched and dead-lettered in the runs of `StreamDelivery`, where the calls of all workers
 * interleave and a batch keeps entries that another worker has settled in the meantime.
 */
module RetryRuns {
  import opened Wrappers
  import opened Json
  import opened Dispatch
  import opened StreamDelivery
  import opened NoLoss
  import opened BoundedRetry

  type Workers = map<WorkerId, Worker>

  // ----- Who is on a message -----

  predicate On(w: WorkerId, state: Worker, d: Delivery) {
    state.Busy? && w.key == d.key && state.id == d.id
  }

  /** The workers in the middle of a dispatch of `d`. */
  ghost function Crew(ws: Workers, d: Delivery): set<WorkerId> {
    set w | w in ws && On(w, ws[w], d)
  }

  /** Those whose dispatch has not written its dead letter yet. */
  ghost function Writers(ws: Workers, d: Delivery): set<WorkerId> {
    set w | w in ws && On(w, ws[w], d) && !AfterLetter(ws[w].stage)
  }

  lemma OneMoves(ws: Workers, w: WorkerId, state: Worker, d: Delivery)
    ensures Crew(ws[w := state], d) == Crew(ws, d) - {w} + (if On(w, state, d) then {w} else {})
    ensures Writers(ws[w := state], d) == Writers(ws, d) - {w} + (if On(w, state, d) && !AfterLetter(state.stage) then {w} else {})
    ensures w in Crew(ws, d) <==> w in ws && On(w, ws[w], d)
    ensures w in Writers(ws, d) <==> w in ws && On(w, ws[w], d) && !AfterLetter(ws[w].stage)
    ensures Writers(ws, d) <= Crew(ws, d)
  {
  }

  lemma OneCounted(ws: Workers, w: WorkerId, state: Worker, d: Delivery)
    ensures
      var leaves := w in ws && On(w, ws[w], d) && !AfterLetter(ws[w].stage);
      var joins := On(w, state, d) && !AfterLetter(state.stage);
      |Writers(ws[w := state], d)| == |Writers(ws, d)| - (if leaves then 1 else 0) + (if joins then 1 else 0)
  {
    hide *;
    OneMoves(ws, w, state, d);
    WithAndWithout(Writers(ws, d), w);
    WithAndWithout(Writers(ws[w := state], d), w);
    assert Writers(ws[w := state], d) - {w} == Writers(ws, d) - {w};
  }

  lemma WithAndWithout<T>(s: set<T>, x: T)
    ensures |s| == |s - {x}| + if x in s then 1 else 0
  {
    if x in s { assert s == s - {x} + {x}; } else { assert s == s - {x}; }
  }

  // ----- What a run does to a message -----

  /**
   * Faults met while a worker was on the message (the handler's own failure is none, a crash is one), dispatches begun,
   * and among them those begun when it was no longer pending, and those begun while another worker was on it.
   */
  datatype Tally = Tally(faults: nat, takeUps: nat, stale: nat, overlaps: nat) {
    function Plus(t: Tally): Tally {
      Tally(faults + t.faults, takeUps + t.takeUps, stale + t.stale, overlaps + t.overlaps)
    }

    /** No fault, and never two workers on the message while it was pending. */
    predicate Clean() {
      faults == 0 && overlaps == 0
    }

    /** Dispatches begun while the message was pending. */
    function Timely(): int {
      takeUps - stale
    }
  }

  const ZERO := Tally(0, 0, 0, 0)

  /** The worker has just taken up an entry. */
  ghost function Started(s: Store, ws: Workers, w: WorkerId, state: Worker, d: Delivery): Tally {
    if !On(w, state, d) then ZERO
    else if d !in s.pending then Tally(0, 1, 1, 0)
    else Tally(0, 1, 0, if Crew(ws, d) - {w} != {} then 1 else 0)
  }

  ghost function AwaitFaults(b: Bus, w: WorkerId, outcome: Outcome, d: Delivery): Tally {
    var state := WorkerAt(b, w);
    if On(w, state, d) && outcome != Done && !state.stage.Handle? then Tally(1, 0, 0, 0) else ZERO
  }

  /** The call that a busy worker makes. */
  function CallOf(cfg: Config, b: Bus, w: WorkerId, outcome: Outcome, now: int): (Store, Next)
    requires WorkerAt(b, w).Busy?
  {
    Step(cfg, Delivery(w.key, WorkerAt(b, w).id), WorkerAt(b, w).stage, outcome, now, b.store)
  }

  /** The workers after a call, before the next entry of the batch is taken up. */
  function Resting(b: Bus, w: WorkerId, next: Next): Workers
    requires WorkerAt(b, w).Busy?
  {
    b.workers[w := if next.Go? then Busy(WorkerAt(b, w).id, next.stage, WorkerAt(b, w).rest) else Idle]
  }

  /** What the worker does after a call: go on, take up the next entry of its batch, or give up. */
  function WorkersAfter(cfg: Config, mid: Workers, w: WorkerId, next: Next, rest: seq<Entry>): Workers {
    match next
    case Go(_) => mid
    case Returned => mid[w := TakeUp(cfg, rest)]
    case Threw => mid[w := AfterEscape(w)]
  }

  /** The next entry of the worker's batch, taken up after a call that ended a dispatch. */
  ghost function NextTaken(
    cfg: Config, s: Store, mid: Workers, w: WorkerId, next: Next, rest: seq<Entry>, d: Delivery): Tally
  {
    var state := TakeUp(cfg, rest);
    if next.Returned? then Started(s, mid[w := state], w, state, d) else ZERO
  }

  ghost function AwaitCount(cfg: Config, b: Bus, w: WorkerId, outcome: Outcome, now: int, d: Delivery): Tally {
    if !WorkerAt(b, w).Busy? then ZERO
    else
      var (t, next) := CallOf(cfg, b, w, outcome, now);
      AwaitFaults(b, w, outcome, d).Plus(NextTaken(cfg, t, Resting(b, w, next), w, next, WorkerAt(b, w).rest, d))
  }

  /** An idle worker has been given a batch, or none. */
  ghost function BatchCount(b: Bus, c: Bus, w: WorkerId, d: Delivery): Tally {
    if WorkerAt(b, w) == Idle then Started(c.store, c.workers, w, WorkerAt(c, w), d) else ZERO
  }

  /** What one action does to the message. */
  ghost function Count(cfg: Config, b: Bus, a: Action, d: Delivery): Tally {
    match a
    case Read(w, replyLost) => BatchCount(b, ReadGroup(cfg, b, w, replyLost), w, d)
    case Claim(w, ids, replyLost) => BatchCount(b, ClaimPending(cfg, b, w, ids, replyLost), w, d)
    case Await(w, outcome, now) => AwaitCount(cfg, b, w, outcome, now, d)
    case Crash(w) => if On(w, WorkerAt(b, w), d) then Tally(1, 0, 0, 0) else ZERO
    case _ => ZERO
  }

  ghost function TallyOf(cfg: Config, b: Bus, actions: seq<Action>, d: Delivery): Tally {
    if actions == [] then ZERO
    else
      var front := actions[..|actions| - 1];
      TallyOf(cfg, b, front, d).Plus(Count(cfg, Run(cfg, b, front), actions[|actions| - 1], d))
  }

  lemma RunUnrolls(cfg: Config, b: Bus, actions: seq<Action>, d: Delivery)
    ensures actions == [] ==> Run(cfg, b, actions) == b && TallyOf(cfg, b, actions, d) == ZERO
    ensures actions != [] ==>
      var front, a := actions[..|actions| - 1], actions[|actions| - 1];
      && Run(cfg, b, actions) == Apply(cfg, Run(cfg, b, front), a)
      && TallyOf(cfg, b, actions, d) == TallyOf(cfg, b, front, d).Plus(Count(cfg, Run(cfg, b, front), a, d))
  {
    hide Apply, Count;
  }

  // ----- A group delivers a message once -----

  lemma NextIdsAscend(b: Bus, stream: string, from: nat, count: nat)
    ensures var ids := NextIds(b, stream, from, count); forall id :: id in ids ==> id <= ids[|ids| - 1]
    decreases b.nextId - from
  {
    if count != 0 && from < b.nextId {
      if InStream(b, stream, from) {
        NextIdsAscend(b, stream, from + 1, count - 1);
        NextIdsAreLive(b, stream, from + 1, count - 1);
        var rest := NextIds(b, stream, from + 1, count - 1);
        assert NextIds(b, stream, from, count) == [from] + rest;
        if rest != [] { assert rest[|rest| - 1] in rest; }
      } else {
        NextIdsAscend(b, stream, from + 1, count);
      }
    }
  }

  /** The cursor has passed every message delivered, so no read delivers it again. */
  ghost predicate DeliveredOnce(b: Bus) {
    forall d :: d in b.delivered ==> d.key in b.cursor && d.id < b.cursor[d.key]
  }

  ghost predicate Reachable(cfg: Config, b: Bus) {
    Inv(cfg, b) && DeliveredOnce(b)
  }

  lemma ReadDeliversOnce(cfg: Config, b: Bus, w: WorkerId, replyLost: bool)
    requires DeliveredOnce(b)
    ensures DeliveredOnce(ReadGroup(cfg, b, w, replyLost))
    ensures forall d :: d in b.delivered ==> (d in ReadGroup(cfg, b, w, replyLost).store.pending <==> d in b.store.pending)
  {
    if w.key in b.cursor && WorkerAt(b, w) == Idle && w.ReadLoop? {
      NextIdsAreLive(b, w.key.stream, b.cursor[w.key], 10);
      NextIdsAscend(b, w.key.stream, b.cursor[w.key], 10);
      hide NextIds, InStream, TakeUp;
      var ids := NextIds(b, w.key.stream, b.cursor[w.key], 10);
      forall d | d in Deliveries(w.key, ids) ensures d.key == w.key && b.cursor[w.key] <= d.id <= ids[|ids| - 1] { }
      if ids != [] { assert ids[|ids| - 1] in ids; }
    }
  }

  lemma ActionKeepsReachable(cfg: Config, b: Bus, a: Action)
    requires Reachable(cfg, b)
    ensures Reachable(cfg, Apply(cfg, b, a))
  {
    ActionKeeps(cfg, b, a);
    hide Inv, Step, NextIds, TakeUp;
    match a
    case Read(w, replyLost) => hide ReadGroup; ReadDeliversOnce(cfg, b, w, replyLost);
    case _ =>
  }

  lemma {:induction false} RunReachable(cfg: Config, b: Bus, actions: seq<Action>)
    requires Reachable(cfg, b)
    ensures Reachable(cfg, Run(cfg, b, actions))
  {
    if actions != [] {
      RunReachable(cfg, b, actions[..|actions| - 1]);
      hide Reachable, Apply;
      ActionKeepsReachable(cfg, Run(cfg, b, actions[..|actions| - 1]), actions[|actions| - 1]);
    }
  }

  lemma EmptyReachable(cfg: Config)
    ensures Reachable(cfg, Empty())
  {
    RunKeeps(cfg, []);
  }

  /** Before its delivery nothing knows of a message. */
  lemma UndeliveredIsUnknown(cfg: Config, b: Bus, d: Delivery)
    requires Inv(cfg, b) && d !in b.delivered
    ensures d !in b.store.pending && Crew(b.workers, d) == {} && LettersOf(b.store, d) == 0
    ensures CounterAt(b.store, d) == Counter(0, None, None) && d !in b.store.handled
  {
    forall w | w in b.workers ensures !On(w, b.workers[w], d) { assert WorkerOk(cfg, b, w, b.workers[w]); }
    if KeyOf(d) in b.store.counters {
      assert CountsSome(b, KeyOf(d));
      var e :| e in b.delivered && KeyOf(e) == KeyOf(d);
      KeyOfInjective(d, e);
    }
    NoLetters(b.store.deadLetters, d);
  }

  lemma {:induction false} NoLetters(letters: seq<DeadLetter>, d: Delivery)
    requires forall letter :: letter in letters ==> letter.origin != d
    ensures Letters(letters, d) == 0
  {
    if letters != [] { NoLetters(letters[..|letters| - 1], d); }
  }

  // ----- Records -----

  /** Letters written, and letters that may still come, are paid for by `credit` and one for the first dispatch. */
  ghost predicate Paid(s: Store, ws: Workers, d: Delivery, credit: nat) {
    LettersOf(s, d) + |Writers(ws, d)| <= credit + if d in s.pending && Crew(ws, d) == {} then 0 else 1
  }

  function Credit(t: Tally): nat {
    t.faults + t.stale + t.overlaps
  }

  lemma StartPaid(cfg: Config, s: Store, ws: Workers, w: WorkerId, batch: seq<Entry>, d: Delivery, credit: nat)
    requires Paid(s, ws, d, credit) && w !in Crew(ws, d)
    ensures
      var state := TakeUp(cfg, batch);
      Paid(s, ws[w := state], d, credit + Credit(Started(s, ws[w := state], w, state, d)))
  {
    var state := TakeUp(cfg, batch);
    OneMoves(ws, w, state, d);
    hide Crew, Writers, BodyOf, LettersOf;
  }

  lemma OnOwn(ws: Workers, w: WorkerId, state: Worker, d: Delivery)
    requires w in ws && On(w, ws[w], d) && (state.Busy? ==> ws[w].Busy? && state.id == ws[w].id)
    ensures w in Crew(ws, d) && (On(w, state, d) <==> state.Busy?)
  {
  }

  /** A worker on the message moves: letters and owed letters together grow by no more than the fault it met. */
  lemma MovedPaid(s: Store, t: Store, ws: Workers, w: WorkerId, state: Worker, d: Delivery, credit: nat, fault: nat)
    requires Paid(s, ws, d, credit) && w in Crew(ws, d) && (On(w, state, d) <==> state.Busy?)
    requires d in t.pending ==> d in s.pending
    requires
      var gained := LettersOf(t, d) + |Writers(ws[w := state], d)| - LettersOf(s, d) - |Writers(ws, d)|;
      && gained <= fault
      && (!state.Busy? && d in t.pending ==> gained <= fault - 1)
    ensures Paid(t, ws[w := state], d, credit + fault)
  {
    OneMoves(ws, w, state, d);
    hide Crew, Writers, LettersOf, On;
  }

  lemma HandlingIsBeforeLetter(stage: Stage)
    ensures stage.Handle? ==> !AfterLetter(stage)
  {
  }

  /** A call of the worker's own dispatch of `d`. */
  lemma OwnCallPaid(cfg: Config, s: Store, ws: Workers, w: WorkerId, d: Delivery, outcome: Outcome, now: int, credit: nat)
    requires w in ws && ws[w].Busy? && On(w, ws[w], d) && StageIsOf(d, ws[w].stage) && Paid(s, ws, d, credit)
    ensures
      var x := ws[w];
      var (t, next) := Step(cfg, d, x.stage, outcome, now, s);
      var fault := if outcome != Done && !x.stage.Handle? then 1 else 0;
      Paid(t, ws[w := if next.Go? then Busy(x.id, next.stage, x.rest) else Idle], d, credit + fault)
  {
    hide *;
    var x := ws[w];
    var (t, next) := Step(cfg, d, x.stage, outcome, now, s);
    var state := if next.Go? then Busy(x.id, next.stage, x.rest) else Idle;
    StepCost(cfg, d, x.stage, outcome, now, s);
    HandlingIsBeforeLetter(x.stage);
    OnOwn(ws, w, state, d);
    OneCounted(ws, w, state, d);
    MovedPaid(s, t, ws, w, state, d, credit, if outcome != Done && !x.stage.Handle? then 1 else 0);
  }

  /** A worker that is not on the message, before or after, and nothing else of it moves. */
  lemma AsidePaid(s: Store, t: Store, ws: Workers, w: WorkerId, state: Worker, d: Delivery, credit: nat)
    requires Paid(s, ws, d, credit) && w !in Crew(ws, d) && !On(w, state, d)
    requires LettersOf(t, d) == LettersOf(s, d) && (d in t.pending <==> d in s.pending)
    ensures Paid(t, ws[w := state], d, credit)
  {
    OneMoves(ws, w, state, d);
    hide Crew, Writers, LettersOf, On;
    assert Writers(ws, d) - {w} == Writers(ws, d) && Crew(ws, d) - {w} == Crew(ws, d);
  }

  lemma UntouchedLetters(s: Store, t: Store, d: Delivery)
    requires Untouched(s, t, d)
    ensures LettersOf(t, d) == LettersOf(s, d) && (d in t.pending <==> d in s.pending)
  {
    hide LettersOf, CounterAt;
  }

  lemma OnAnother(ws: Workers, w: WorkerId, e: Delivery, state: Worker, d: Delivery)
    requires w in ws && On(w, ws[w], e) && e != d && (state.Busy? ==> ws[w].Busy? && state.id == ws[w].id)
    ensures w !in Crew(ws, d) && !On(w, state, d)
  {
  }

  /** A call of a dispatch of another message. */
  lemma OtherCallPaid(
    cfg: Config, s: Store, ws: Workers, w: WorkerId, e: Delivery, outcome: Outcome, now: int, d: Delivery, credit: nat)
    requires w in ws && ws[w].Busy? && On(w, ws[w], e) && e != d && StageIsOf(e, ws[w].stage) && Paid(s, ws, d, credit)
    ensures
      var x := ws[w];
      var (t, next) := Step(cfg, e, x.stage, outcome, now, s);
      Paid(t, ws[w := if next.Go? then Busy(x.id, next.stage, x.rest) else Idle], d, credit)
  {
    hide *;
    var x := ws[w];
    var (t, next) := Step(cfg, e, x.stage, outcome, now, s);
    var state := if next.Go? then Busy(x.id, next.stage, x.rest) else Idle;
    StepIsolates(cfg, e, x.stage, outcome, now, s, d);
    UntouchedLetters(s, t, d);
    OnAnother(ws, w, e, state, d);
    AsidePaid(s, t, ws, w, state, d, credit);
  }

  /** The store and the workers after an await, by what comes next. */
  lemma AwaitParts(cfg: Config, b: Bus, w: WorkerId, outcome: Outcome, now: int)
    requires WorkerAt(b, w).Busy?
    ensures
      var (t, next) := CallOf(cfg, b, w, outcome, now);
      var c := AwaitCall(cfg, b, w, outcome, now);
      c.store == t && c.workers == WorkersAfter(cfg, Resting(b, w, next), w, next, WorkerAt(b, w).rest)
  {
    hide Step, TakeUp;
  }

  lemma CallPaid(cfg: Config, b: Bus, w: WorkerId, outcome: Outcome, now: int, d: Delivery, credit: nat)
    requires Inv(cfg, b) && Paid(b.store, b.workers, d, credit) && WorkerAt(b, w).Busy?
    ensures
      var (t, next) := CallOf(cfg, b, w, outcome, now);
      Paid(t, Resting(b, w, next), d, credit + AwaitFaults(b, w, outcome, d).faults)
  {
    var x := WorkerAt(b, w);
    var e := Delivery(w.key, x.id);
    WorkerIsOk(cfg, b, w);
    hide Inv, Paid, Step;
    if e == d {
      OwnCallPaid(cfg, b.store, b.workers, w, d, outcome, now, credit);
    } else {
      OtherCallPaid(cfg, b.store, b.workers, w, e, outcome, now, d, credit);
    }
  }

  lemma AfterCallPaid(
    cfg: Config, s: Store, mid: Workers, w: WorkerId, next: Next, rest: seq<Entry>, d: Delivery, credit: nat)
    requires Paid(s, mid, d, credit) && (!next.Go? ==> w !in Crew(mid, d))
    ensures Paid(s, WorkersAfter(cfg, mid, w, next, rest), d, credit + Credit(NextTaken(cfg, s, mid, w, next, rest, d)))
  {
    hide Paid, Crew, Started, TakeUp, Credit;
    NoCredit();
    match next
    case Go(_) =>
    case Returned => StartPaid(cfg, s, mid, w, rest, d, credit);
    case Threw => OffDutyPaid(s, mid, w, AfterEscape(w), d, credit);
  }

  lemma AwaitPaid(cfg: Config, b: Bus, w: WorkerId, outcome: Outcome, now: int, d: Delivery, credit: nat)
    requires Inv(cfg, b) && Paid(b.store, b.workers, d, credit)
    ensures
      var c := AwaitCall(cfg, b, w, outcome, now);
      Paid(c.store, c.workers, d, credit + Credit(AwaitCount(cfg, b, w, outcome, now, d)))
  {
    hide Inv, Paid, CallOf, AwaitCall, Crew, NextTaken, WorkersAfter, AwaitFaults, Credit;
    if WorkerAt(b, w).Busy? {
      var rest := WorkerAt(b, w).rest;
      CallPaid(cfg, b, w, outcome, now, d, credit);
      AwaitParts(cfg, b, w, outcome, now);
      var (t, next) := CallOf(cfg, b, w, outcome, now);
      OffCrew(b.workers, w, Idle, d);
      FaultsOnly(b, w, outcome, d);
      CreditAdds(AwaitFaults(b, w, outcome, d), NextTaken(cfg, t, Resting(b, w, next), w, next, rest, d));
      AfterCallPaid(cfg, t, Resting(b, w, next), w, next, rest, d, credit + AwaitFaults(b, w, outcome, d).faults);
    } else {
      IdleAwait(cfg, b, w, outcome, now);
      NoCredit();
    }
  }

  lemma NoCredit()
    ensures Credit(ZERO) == 0 && Credit(Tally(1, 0, 0, 0)) == 1
  {
  }

  lemma OffCrew(ws: Workers, w: WorkerId, state: Worker, d: Delivery)
    requires !state.Busy?
    ensures w !in Crew(ws[w := state], d)
  {
  }

  lemma FaultsOnly(b: Bus, w: WorkerId, outcome: Outcome, d: Delivery)
    ensures Credit(AwaitFaults(b, w, outcome, d)) == AwaitFaults(b, w, outcome, d).faults
    ensures AwaitFaults(b, w, outcome, d).takeUps == 0 && AwaitFaults(b, w, outcome, d).stale == 0
    ensures AwaitFaults(b, w, outcome, d).Clean() ==> AwaitFaults(b, w, outcome, d) == ZERO
  {
  }

  lemma CreditAdds(t: Tally, u: Tally)
    ensures Credit(t.Plus(u)) == Credit(t) + Credit(u)
  {
  }

  lemma IdleAwait(cfg: Config, b: Bus, w: WorkerId, outcome: Outcome, now: int)
    requires !WorkerAt(b, w).Busy?
    ensures AwaitCall(cfg, b, w, outcome, now) == b
  {
  }

  lemma OffDutyPaid(s: Store, ws: Workers, w: WorkerId, state: Worker, d: Delivery, credit: nat)
    requires Paid(s, ws, d, credit) && w !in Crew(ws, d) && !state.Busy?
    ensures Paid(s, ws[w := state], d, credit)
  {
    hide Paid, Crew, LettersOf;
    AsidePaid(s, s, ws, w, state, d, credit);
  }

  /** A read or a claim: it does something to the store, then the worker takes up its batch, if it was told of one. */
  lemma BatchPaid(cfg: Config, b: Bus, m: Bus, w: WorkerId, batch: seq<Entry>, d: Delivery, credit: nat)
    requires Inv(cfg, b) && Paid(b.store, b.workers, d, credit) && WorkerAt(b, w) == Idle && m.workers == b.workers
    requires m.store.deadLetters == b.store.deadLetters
    requires d in b.delivered && d in m.store.pending ==> d in b.store.pending
    ensures Paid(m.store, m.workers, d, credit) && BatchCount(b, m, w, d) == ZERO
    ensures
      var c := SetWorker(m, w, TakeUp(cfg, batch));
      Paid(c.store, c.workers, d, credit + Credit(BatchCount(b, c, w, d)))
  {
    hide *;
    HandsPaid(cfg, b, m, d, credit);
    BatchStarts(b, m, w, TakeUp(cfg, batch), d);
    StartPaid(cfg, m.store, m.workers, w, batch, d, credit);
  }

  lemma HandsPaid(cfg: Config, b: Bus, m: Bus, d: Delivery, credit: nat)
    requires Inv(cfg, b) && Paid(b.store, b.workers, d, credit) && m.workers == b.workers
    requires m.store.deadLetters == b.store.deadLetters
    requires d in b.delivered && d in m.store.pending ==> d in b.store.pending
    ensures Paid(m.store, m.workers, d, credit)
  {
    SameLetters(b.store, m.store, d);
    if d !in b.delivered { UndeliveredIsUnknown(cfg, b, d); }
    hide Inv, Crew, LettersOf;
    assert Crew(b.workers, d) == {} ==> Writers(b.workers, d) == {} by { OneMoves(b.workers, ReadLoop(d.key, 0), Idle, d); }
    hide Writers;
  }

  /** An idle worker that takes up a batch counts what it starts on. */
  lemma BatchStarts(b: Bus, m: Bus, w: WorkerId, state: Worker, d: Delivery)
    requires WorkerAt(b, w) == Idle && m.workers == b.workers
    ensures w !in Crew(m.workers, d) && BatchCount(b, m, w, d) == ZERO
    ensures
      var c := SetWorker(m, w, state);
      && c.store == m.store && c.workers == m.workers[w := state]
      && BatchCount(b, c, w, d) == Started(m.store, m.workers[w := state], w, state, d)
  {
  }

  lemma SameLetters(s: Store, t: Store, d: Delivery)
    requires s.deadLetters == t.deadLetters
    ensures LettersOf(s, d) == LettersOf(t, d)
  {
  }

  lemma NoBatch(b: Bus, w: WorkerId, d: Delivery)
    ensures BatchCount(b, b, w, d) == ZERO
  {
  }

  /** The bus after a claim, before the worker takes up its batch. */
  function AfterClaim(b: Bus, key: GroupKey, ids: seq<nat>): Bus {
    b.(discarded := b.discarded + Gone(b, key, ids), store := b.store.(pending := b.store.pending - Gone(b, key, ids)))
  }

  lemma ReadEntriesOk(b: Bus, key: GroupKey, ids: seq<nat>)
    requires ids != [] && forall id :: id in ids ==> id in b.published
    ensures forall e :: e in EntriesOf(b, ids) ==> EntryOk(AfterRead(b, key, ids), key, e)
  {
    forall e | e in EntriesOf(b, ids) ensures EntryOk(AfterRead(b, key, ids), key, e) {
      var i :| 0 <= i < |ids| && EntriesOf(b, ids)[i] == e;
      assert ids[i] in ids;
    }
  }

  lemma KeptEntriesOk(b: Bus, m: Bus, key: GroupKey, ids: seq<nat>)
    requires forall id :: id in ids ==> Delivery(key, id) in b.store.pending && id in b.published
    requires b.store.pending <= b.delivered && m.delivered == b.delivered && m.published == b.published
    ensures forall e :: e in EntriesOf(b, ids) ==> EntryOk(m, key, e)
  {
    forall e | e in EntriesOf(b, ids) ensures EntryOk(m, key, e) {
      var i :| 0 <= i < |ids| && EntriesOf(b, ids)[i] == e;
      assert ids[i] in ids;
    }
  }

  /** What a read does: nothing, or it hands over the ids, and the worker takes up their entries if it is told. */
  lemma ReadParts(cfg: Config, b: Bus, w: WorkerId, replyLost: bool) returns (ids: seq<nat>)
    ensures forall id :: id in ids ==> id in b.published
    ensures ids == [] ==> ReadGroup(cfg, b, w, replyLost) == b
    ensures ids != [] ==>
      && WorkerAt(b, w) == Idle
      && ReadGroup(cfg, b, w, replyLost) ==
           (if replyLost then AfterRead(b, w.key, ids) else SetWorker(AfterRead(b, w.key, ids), w, TakeUp(cfg, EntriesOf(b, ids))))
  {
    ids := [];
    hide NextIds, TakeUp, EntriesOf;
    if w.key in b.cursor && WorkerAt(b, w) == Idle && w.ReadLoop? {
      NextIdsAreLive(b, w.key.stream, b.cursor[w.key], 10);
      ids := NextIds(b, w.key.stream, b.cursor[w.key], 10);
    }
  }

  /** What a claim does: nothing, or it hands over the kept entries and discards the trimmed ones. */
  lemma ClaimParts(cfg: Config, b: Bus, w: WorkerId, ids: seq<nat>, replyLost: bool) returns (done: bool)
    ensures forall id :: id in Kept(b, w.key, ids) ==> Delivery(w.key, id) in b.store.pending && id in b.published
    ensures !done ==> ClaimPending(cfg, b, w, ids, replyLost) == b
    ensures done ==>
      && WorkerAt(b, w) == Idle
      && ClaimPending(cfg, b, w, ids, replyLost) ==
           (if replyLost then AfterClaim(b, w.key, ids)
            else SetWorker(AfterClaim(b, w.key, ids), w, TakeUp(cfg, EntriesOf(b, Kept(b, w.key, ids)))))
  {
    hide Gone, Kept, TakeUp, EntriesOf;
    KeptArePending(b, w.key, ids);
    done := WorkerAt(b, w) == Idle && w.AutoClaim? && |ids| <= 50;
  }

  /** What handing over messages does to the bus, between `b` and `m`, as far as one message is concerned. */
  ghost predicate Hands(b: Bus, m: Bus, d: Delivery) {
    && m == b.(cursor := m.cursor, delivered := m.delivered, discarded := m.discarded, store := b.store.(pending := m.store.pending))
    && b.delivered <= m.delivered && b.discarded <= m.discarded
    && (d in b.delivered && d in m.store.pending ==> d in b.store.pending)
    && (d in b.store.pending && d !in m.store.pending ==> d in m.discarded)
    && (d in m.delivered && d !in b.delivered ==> d in m.store.pending)
  }

  lemma HandsParts(b: Bus, m: Bus, d: Delivery)
    requires Hands(b, m, d)
    ensures m.workers == b.workers && m.published == b.published && m.store == b.store.(pending := m.store.pending)
    ensures d in b.delivered && d in m.store.pending ==> d in b.store.pending
  {
  }

  lemma ReadHands(cfg: Config, b: Bus, w: WorkerId, replyLost: bool, ids: seq<nat>, d: Delivery)
    requires Reachable(cfg, b) && ids != []
    requires ReadGroup(cfg, b, w, replyLost) ==
      (if replyLost then AfterRead(b, w.key, ids)
       else SetWorker(AfterRead(b, w.key, ids), w, WorkerAt(ReadGroup(cfg, b, w, replyLost), w)))
    ensures Hands(b, AfterRead(b, w.key, ids), d)
  {
    ReadDeliversOnce(cfg, b, w, replyLost);
    hide Inv, DeliveredOnce, ReadGroup;
    var m := AfterRead(b, w.key, ids);
    assert m.store.pending == ReadGroup(cfg, b, w, replyLost).store.pending;
  }

  lemma ClaimHands(b: Bus, key: GroupKey, ids: seq<nat>, d: Delivery)
    ensures Hands(b, AfterClaim(b, key, ids), d)
  {
    hide Gone;
  }

  lemma JustTaken(m: Bus, w: WorkerId, state: Worker)
    ensures WorkerAt(SetWorker(m, w, state), w) == state
  {
  }

  lemma ReadPaid(cfg: Config, b: Bus, w: WorkerId, replyLost: bool, d: Delivery, credit: nat)
    requires Reachable(cfg, b) && Paid(b.store, b.workers, d, credit)
    ensures
      var c := ReadGroup(cfg, b, w, replyLost);
      Paid(c.store, c.workers, d, credit + Credit(BatchCount(b, c, w, d)))
  {
    hide *;
    var ids := ReadParts(cfg, b, w, replyLost);
    NoBatch(b, w, d);
    NoCredit();
    if ids != [] {
      var m := AfterRead(b, w.key, ids);
      ReachableInv(cfg, b);
      JustTaken(m, w, TakeUp(cfg, EntriesOf(b, ids)));
      ReadHands(cfg, b, w, replyLost, ids, d);
      HandsParts(b, m, d);
      BatchPaid(cfg, b, m, w, EntriesOf(b, ids), d, credit);
    }
  }

  lemma ClaimPaid(cfg: Config, b: Bus, w: WorkerId, ids: seq<nat>, replyLost: bool, d: Delivery, credit: nat)
    requires Reachable(cfg, b) && Paid(b.store, b.workers, d, credit)
    ensures
      var c := ClaimPending(cfg, b, w, ids, replyLost);
      Paid(c.store, c.workers, d, credit + Credit(BatchCount(b, c, w, d)))
  {
    hide *;
    var done := ClaimParts(cfg, b, w, ids, replyLost);
    NoBatch(b, w, d);
    NoCredit();
    if done {
      var m := AfterClaim(b, w.key, ids);
      ReachableInv(cfg, b);
      ClaimHands(b, w.key, ids, d);
      HandsParts(b, m, d);
      BatchPaid(cfg, b, m, w, EntriesOf(b, Kept(b, w.key, ids)), d, credit);
    }
  }

  lemma CrewIs(b: Bus, w: WorkerId, d: Delivery)
    ensures w in Crew(b.workers, d) <==> On(w, WorkerAt(b, w), d)
    ensures On(w, WorkerAt(b, w), d) ==> w in b.workers && b.workers[w] == WorkerAt(b, w)
  {
  }

  lemma DeadIsOff(w: WorkerId, d: Delivery)
    ensures !On(w, Dead, d)
  {
  }

  lemma CrashPaid(b: Bus, w: WorkerId, d: Delivery, credit: nat)
    requires Paid(b.store, b.workers, d, credit)
    ensures Paid(b.store, b.workers[w := Dead], d, credit + if On(w, WorkerAt(b, w), d) then 1 else 0)
  {
    hide *;
    CrewIs(b, w, d);
    if On(w, WorkerAt(b, w), d) {
      OneCounted(b.workers, w, Dead, d);
      DeadIsOff(w, d);
      MovedPaid(b.store, b.store, b.workers, w, Dead, d, credit, 1);
    } else {
      DeadIsOff(w, d);
      AsidePaid(b.store, b.store, b.workers, w, Dead, d, credit);
    }
  }

  /** What an action does and counts, by the part of the machine that it runs. */
  lemma ActionParts(cfg: Config, b: Bus, a: Action, d: Delivery)
    ensures a.Read? ==>
      var c := ReadGroup(cfg, b, a.worker, a.replyLost);
      Apply(cfg, b, a) == c && Count(cfg, b, a, d) == BatchCount(b, c, a.worker, d)
    ensures a.Claim? ==>
      var c := ClaimPending(cfg, b, a.worker, a.ids, a.replyLost);
      Apply(cfg, b, a) == c && Count(cfg, b, a, d) == BatchCount(b, c, a.worker, d)
    ensures a.Await? ==>
      && Apply(cfg, b, a) == AwaitCall(cfg, b, a.worker, a.outcome, a.now)
      && Count(cfg, b, a, d) == AwaitCount(cfg, b, a.worker, a.outcome, a.now, d)
    ensures a.Crash? ==>
      && Apply(cfg, b, a) == SetWorker(b, a.worker, Dead)
      && Count(cfg, b, a, d) == if On(a.worker, WorkerAt(b, a.worker), d) then Tally(1, 0, 0, 0) else ZERO
    ensures !Works(a) ==>
      var c := Apply(cfg, b, a);
      && c.workers == b.workers && c.delivered == b.delivered && c.discarded == b.discarded
      && c.store == b.store.(counters := c.store.counters)
      && (a != ExpireCounter(KeyOf(d)) ==> CounterAt(c.store, d) == CounterAt(b.store, d))
      && Count(cfg, b, a, d) == ZERO
  {
    hide AwaitCall, ReadGroup, ClaimPending, BatchCount, AwaitCount, On, KeyOf;
  }

  /** A worker's own action. */
  predicate Works(a: Action) {
    a.Read? || a.Claim? || a.Await? || a.Crash?
  }

  lemma ActionPaid(cfg: Config, b: Bus, a: Action, d: Delivery, credit: nat)
    requires Reachable(cfg, b) && Paid(b.store, b.workers, d, credit)
    ensures
      var c := Apply(cfg, b, a);
      Paid(c.store, c.workers, d, credit + Credit(Count(cfg, b, a, d)))
  {
    hide *;
    ActionParts(cfg, b, a, d);
    ReachableInv(cfg, b);
    NoCredit();
    match a
    case Read(w, replyLost) => ReadPaid(cfg, b, w, replyLost, d, credit);
    case Claim(w, ids, replyLost) => ClaimPaid(cfg, b, w, ids, replyLost, d, credit);
    case Await(w, outcome, now) => AwaitPaid(cfg, b, w, outcome, now, d, credit);
    case Crash(w) =>
      CrashPaid(b, w, d, credit);
      CrashedBus(b, w);
    case _ =>
      OnlyWorkersWork(a);
      QuietPaid(b, Apply(cfg, b, a), d, credit);
  }

  lemma OnlyWorkersWork(a: Action)
    ensures Works(a) <==> a.Read? || a.Claim? || a.Await? || a.Crash?
  {
  }

  lemma CrashedBus(b: Bus, w: WorkerId)
    ensures SetWorker(b, w, Dead).workers == b.workers[w := Dead] && SetWorker(b, w, Dead).store == b.store
  {
  }

  lemma ReachableInv(cfg: Config, b: Bus)
    requires Reachable(cfg, b)
    ensures Inv(cfg, b)
  {
  }

  lemma QuietPaid(b: Bus, c: Bus, d: Delivery, credit: nat)
    requires Paid(b.store, b.workers, d, credit)
    requires c.workers == b.workers && c.store.pending == b.store.pending && c.store.deadLetters == b.store.deadLetters
    ensures Paid(c.store, c.workers, d, credit)
  {
    SameLetters(b.store, c.store, d);
    hide LettersOf, Crew, Writers;
  }

  lemma {:induction false} RunPaid(cfg: Config, b: Bus, actions: seq<Action>, d: Delivery)
    requires Reachable(cfg, b) && Paid(b.store, b.workers, d, 0)
    ensures
      var c := Run(cfg, b, actions);
      Paid(c.store, c.workers, d, Credit(TallyOf(cfg, b, actions, d)))
  {
    hide *;
    RunUnrolls(cfg, b, actions, d);
    NoCredit();
    if actions != [] {
      var front, a := actions[..|actions| - 1], actions[|actions| - 1];
      RunPaid(cfg, b, front, d);
      RunReachable(cfg, b, front);
      CreditAdds(TallyOf(cfg, b, front, d), Count(cfg, Run(cfg, b, front), a, d));
      ActionPaid(cfg, Run(cfg, b, front), a, d, Credit(TallyOf(cfg, b, front, d)));
    }
  }

  /**
   * In every run, with faults, crashes, counter expiry and all other traffic between any two calls, a message gets at
   * most one dead letter, and one more for each fault met on it, each dispatch begun when it was no longer pending, and
   * each dispatch begun while another worker was on it; and no first letter while it is pending with nobody on it.
   */
  lemma LettersBoundedByFaults(cfg: Config, actions: seq<Action>, d: Delivery)
    ensures
      var b := Run(cfg, Empty(), actions);
      var t := TallyOf(cfg, Empty(), actions, d);
      LettersOf(b.store, d) <= t.faults + t.stale + t.overlaps + if d in b.store.pending && Crew(b.workers, d) == {} then 0 else 1
  {
    EmptyReachable(cfg);
    assert Paid(Empty().store, Empty().workers, d, 0);
    RunPaid(cfg, Empty(), actions, d);
  }

  /** Without faults and overlapping dispatches, a second dead letter needs a dispatch of a message already settled. */
  lemma SecondLetterNeedsStaleEntry(cfg: Config, actions: seq<Action>, d: Delivery)
    requires var t := TallyOf(cfg, Empty(), actions, d); t.faults == 0 && t.overlaps == 0
    requires LettersOf(Run(cfg, Empty(), actions).store, d) > 1
    ensures TallyOf(cfg, Empty(), actions, d).stale >= 1
  {
    LettersBoundedByFaults(cfg, actions, d);
  }
}
