/**
 * How often one message is dispatched in the runs of `StreamDelivery` that meet no fault: exactly as often as the retry
 * limit says, and once more for each entry that a worker takes up after the message has been settled by another.
 */
module RetryLimits {
  import opened Wrappers
  import opened Json
  import opened Dispatch
  import opened StreamDelivery
  import opened NoLoss
  import opened BoundedRetry
  import opened RetryRuns

  // ----- The count of one message -----

  /** The body of a message as far as retries care, and whether its attempts have been counted from none. */
  datatype Kind = Kind(usable: bool, exact: bool)

  /** The dispatches that a waiting message's attempts stand for: a fault may have left it with more than there can be. */
  function Cap(limit: nat, attempts: nat): int {
    if attempts < limit then attempts else limit - 1
  }

  /** A message waits to be dispatched again, after `k` dispatches. */
  ghost predicate Waits(limit: nat, kind: Kind, k: int, attempts: nat) {
    Cap(limit, attempts) == k && (kind.exact ==> attempts < limit)
  }

  /** How far a dispatch is, when it is the `k`-th and nothing has gone wrong; `letters` counts those since then. */
  ghost predicate StageFits(limit: nat, kind: Kind, stage: Stage, k: int, attempts: nat, letters: int) {
    match stage
    case AckUnusable | AppendMalformed(_) | AckMalformed => !kind.usable && Waits(limit, kind, k - 1, attempts)
    case Handle(_) | AckHandled(_) | CountFailure(_) => Waits(limit, kind, k - 1, attempts) && letters == 0
    case StampFirst(_, a, _) => Counted(limit, k, attempts, a) && letters == 0
    case StampLast(_, a, _) => Counted(limit, k, attempts, a) && letters == 0
    case SetExpiry(_, a, _) => Counted(limit, k, attempts, a) && letters == 0
    case ReadStamps(_, _, _) | AppendFailure(_) => k == limit && letters == 0
    case ClearCounter | AckDead => k == limit && letters == 1
  }

  /** The failure has been counted: below the limit the count is `k`, otherwise `k` is the limit. */
  ghost predicate Counted(limit: nat, k: int, attempts: nat, a: nat) {
    attempts == a >= 1 && k == if a < limit then a else limit
  }

  /**
   * After `k` dispatches begun in time, a pending message with nobody on it waits below the limit, without a letter. One
   * no longer pending, unless that is excused, was handled or has had all its dispatches and a letter.
   */
  ghost predicate Tracks(limit: nat, kind: Kind, s: Store, ws: Workers, d: Delivery, excused: bool, k: int, l: nat) {
    && k <= limit
    && if d in s.pending then
         && (Crew(ws, d) == {} ==> Waits(limit, kind, k, CounterAt(s, d).attempts) && LettersOf(s, d) == l)
         && (forall w :: w in Crew(ws, d) ==>
               Crew(ws, d) == {w} && StageFits(limit, kind, ws[w].stage, k, CounterAt(s, d).attempts, LettersOf(s, d) - l))
       else
         excused || (kind.usable && d !in s.handled ==> k == limit && LettersOf(s, d) >= l + 1)
  }

  lemma StartTracks(
    cfg: Config, kind: Kind, s: Store, ws: Workers, w: WorkerId, batch: seq<Entry>, d: Delivery, excused: bool, k: int, l: nat)
    requires cfg.limit >= 1 && Tracks(cfg.limit, kind, s, ws, d, excused, k, l) && w !in Crew(ws, d)
    requires batch != [] && w.key == d.key && batch[0].id == d.id ==> BodyOf(batch[0].fields, cfg.parse).Usable? == kind.usable
    requires Started(s, ws[w := TakeUp(cfg, batch)], w, TakeUp(cfg, batch), d).Clean()
    ensures
      var state := TakeUp(cfg, batch);
      Tracks(cfg.limit, kind, s, ws[w := state], d, excused, k + Started(s, ws[w := state], w, state, d).Timely(), l)
  {
    hide *;
    var state := TakeUp(cfg, batch);
    StartedTimely(s, ws[w := state], w, state, d);
    if !On(w, state, d) {
      OffDutyTracks(cfg.limit, kind, s, ws, w, state, d, excused, k, l);
    } else if d !in s.pending {
      SettledTracks(cfg.limit, kind, s, ws, ws[w := state], d, excused, k, l);
    } else {
      FirstTracks(cfg, kind, s, ws, w, batch, d, excused, k, l);
    }
  }

  lemma StartedTimely(s: Store, ws: Workers, w: WorkerId, state: Worker, d: Delivery)
    ensures
      var t := Started(s, ws, w, state, d);
      && t.Timely() == (if On(w, state, d) && d in s.pending then 1 else 0)
      && (t.Clean() && On(w, state, d) && d in s.pending ==> Crew(ws, d) - {w} == {})
  {
    hide Crew;
  }

  /** Once a message is no longer pending, who is on it does not matter. */
  lemma SettledTracks(
    limit: nat, kind: Kind, s: Store, ws: Workers, us: Workers, d: Delivery, excused: bool, k: int, l: nat)
    requires Tracks(limit, kind, s, ws, d, excused, k, l) && d !in s.pending
    ensures Tracks(limit, kind, s, us, d, excused, k, l)
  {
    hide Crew, StageFits, Waits, LettersOf;
  }

  /** The first worker on a pending message begins its next dispatch. */
  lemma FirstTracks(
    cfg: Config, kind: Kind, s: Store, ws: Workers, w: WorkerId, batch: seq<Entry>, d: Delivery, excused: bool, k: int, l: nat)
    requires cfg.limit >= 1 && Tracks(cfg.limit, kind, s, ws, d, excused, k, l) && w !in Crew(ws, d)
    requires batch != [] && w.key == d.key && batch[0].id == d.id ==> BodyOf(batch[0].fields, cfg.parse).Usable? == kind.usable
    requires On(w, TakeUp(cfg, batch), d) && d in s.pending && Crew(ws[w := TakeUp(cfg, batch)], d) - {w} == {}
    ensures Tracks(cfg.limit, kind, s, ws[w := TakeUp(cfg, batch)], d, excused, k + 1, l)
  {
    var state := TakeUp(cfg, batch);
    OneMoves(ws, w, state, d);
    hide Crew, Writers, BodyOf, LettersOf, CounterAt;
    assert Crew(ws, d) - {w} == Crew(ws, d);
    assert Crew(ws[w := state], d) == {w};
  }

  /** A call that meets no fault, of a dispatch of `d` in step with its count. */
  lemma CallFits(
    limit: nat, kind: Kind, cfg: Config, s: Store, d: Delivery, stage: Stage, outcome: Outcome, now: int, k: int, l: nat)
    requires cfg.limit == limit && limit >= 1 && k <= limit && StageIsOf(d, stage)
    requires StageFits(limit, kind, stage, k, CounterAt(s, d).attempts, LettersOf(s, d) - l)
    requires outcome == Done || stage.Handle?
    requires stage.AckHandled? ==> d in s.handled
    ensures
      var (t, next) := Step(cfg, d, stage, outcome, now, s);
      && (next.Go? ==>
            && (d in s.pending ==> d in t.pending)
            && StageFits(limit, kind, next.stage, k, CounterAt(t, d).attempts, LettersOf(t, d) - l))
      && (!next.Go? && d in t.pending ==> Waits(limit, kind, k, CounterAt(t, d).attempts) && LettersOf(t, d) == l)
      && (!next.Go? && d !in t.pending && d in s.pending ==>
            kind.usable && d !in t.handled ==> k == limit && LettersOf(t, d) == l + 1)
  {
    hide KeyOf, LettersOf;
    match stage
    case AppendMalformed(raw) =>
    case AppendFailure(letter) => LettersGrow(s, letter, d);
    case CountFailure(_) => SameLettersAfterCount(s, d);
    case StampFirst(_, _, _) => SameLettersAfterCount(s, d);
    case StampLast(_, _, _) => SameLettersAfterCount(s, d);
    case _ => SameLettersAfterCount(s, d); AckKeepsLetters(s, d);
  }

  lemma LettersGrow(s: Store, letter: DeadLetter, d: Delivery)
    ensures LettersOf(Append(s, letter), d) == LettersOf(s, d) + if letter.origin == d then 1 else 0
  {
    LettersAppend(s.deadLetters, letter, d);
  }

  lemma SameLettersAfterCount(s: Store, d: Delivery)
    ensures forall c :: LettersOf(SetCounter(s, d, c), d) == LettersOf(s, d)
    ensures LettersOf(s.(counters := s.counters - {KeyOf(d)}), d) == LettersOf(s, d)
  {
    hide KeyOf;
  }

  lemma AckKeepsLetters(s: Store, d: Delivery)
    ensures LettersOf(Ack(s, d), d) == LettersOf(s, d)
    ensures LettersOf(s.(effects := s.effects + [d]), d) == LettersOf(s, d)
    ensures LettersOf(s.(effects := s.effects + [d], handled := s.handled + {d}), d) == LettersOf(s, d)
  {
  }

  lemma HandledStays(cfg: Config, d: Delivery, stage: Stage, outcome: Outcome, now: int, s: Store)
    ensures s.handled <= Step(cfg, d, stage, outcome, now, s).0.handled
  {
    hide KeyOf, AfterSuccess, AfterThrow;
  }

  /** A fault-free call of the worker's own dispatch of `d` keeps the count. */
  lemma OwnCallTracks(
    cfg: Config, kind: Kind, s: Store, ws: Workers, w: WorkerId, d: Delivery, outcome: Outcome, now: int,
    excused: bool, k: int, l: nat)
    requires w in ws && ws[w].Busy? && On(w, ws[w], d) && StageIsOf(d, ws[w].stage)
    requires ws[w].stage.AckHandled? ==> d in s.handled
    requires outcome == Done || ws[w].stage.Handle?
    requires cfg.limit >= 1 && Tracks(cfg.limit, kind, s, ws, d, excused, k, l)
    ensures
      var x := ws[w];
      var (t, next) := Step(cfg, d, x.stage, outcome, now, s);
      Tracks(cfg.limit, kind, t, ws[w := if next.Go? then Busy(x.id, next.stage, x.rest) else Idle], d, excused, k, l)
  {
    hide *;
    var x := ws[w];
    var (t, next) := Step(cfg, d, x.stage, outcome, now, s);
    var state := if next.Go? then Busy(x.id, next.stage, x.rest) else Idle;
    StaysOn(w, x, state, d);
    if d in s.pending {
      LoneFits(cfg.limit, kind, s, ws, w, d, excused, k, l);
      CallFits(cfg.limit, kind, cfg, s, d, x.stage, outcome, now, k, l);
      LoneCallTracks(cfg.limit, kind, s, t, ws, w, state, d, excused, k, l);
    } else {
      SettledCallTracks(cfg, kind, s, ws, d, x.stage, outcome, now, excused, k, l);
      SettledTracks(cfg.limit, kind, t, ws, ws[w := state], d, excused, k, l);
    }
  }

  lemma StaysOn(w: WorkerId, x: Worker, state: Worker, d: Delivery)
    requires On(w, x, d) && (state.Busy? ==> x.Busy? && state.id == x.id)
    ensures On(w, state, d) <==> state.Busy?
  {
  }

  /** Who is on a pending message is alone on it, and its stage fits. */
  lemma LoneFits(
    limit: nat, kind: Kind, s: Store, ws: Workers, w: WorkerId, d: Delivery, excused: bool, k: int, l: nat)
    requires w in ws && On(w, ws[w], d) && d in s.pending && Tracks(limit, kind, s, ws, d, excused, k, l)
    ensures Crew(ws, d) == {w} && k <= limit
    ensures StageFits(limit, kind, ws[w].stage, k, CounterAt(s, d).attempts, LettersOf(s, d) - l)
  {
    assert w in Crew(ws, d);
    hide StageFits, Waits, LettersOf, CounterAt;
  }

  lemma LoneCallTracks(
    limit: nat, kind: Kind, s: Store, t: Store, ws: Workers, w: WorkerId, state: Worker, d: Delivery, excused: bool, k: int,
    l: nat)
    requires Crew(ws, d) == {w} && k <= limit && (On(w, state, d) <==> state.Busy?)
    requires state.Busy? ==>
      d in t.pending && StageFits(limit, kind, state.stage, k, CounterAt(t, d).attempts, LettersOf(t, d) - l)
    requires !state.Busy? && d in t.pending ==> Waits(limit, kind, k, CounterAt(t, d).attempts) && LettersOf(t, d) == l
    requires d !in t.pending ==> kind.usable && d !in t.handled ==> k == limit && LettersOf(t, d) == l + 1
    ensures Tracks(limit, kind, t, ws[w := state], d, excused, k, l)
  {
    OneMoves(ws, w, state, d);
    hide Crew, Writers, StageFits, Waits, LettersOf, CounterAt, On;
  }

  /** A call on a settled message leaves it settled, with no fewer letters. */
  lemma SettledCallTracks(
    cfg: Config, kind: Kind, s: Store, ws: Workers, d: Delivery, stage: Stage, outcome: Outcome, now: int, excused: bool,
    k: int, l: nat)
    requires StageIsOf(d, stage) && d !in s.pending && Tracks(cfg.limit, kind, s, ws, d, excused, k, l)
    ensures
      var t := Step(cfg, d, stage, outcome, now, s).0;
      d !in t.pending && Tracks(cfg.limit, kind, t, ws, d, excused, k, l)
  {
    StoreCost(cfg, d, stage, outcome, now, s);
    HandledStays(cfg, d, stage, outcome, now, s);
    hide Step, Crew, StageFits, Waits, LettersOf, CounterAt;
  }

  /** A call of a dispatch of another message, or none at all, keeps the count. */
  lemma OtherCallTracks(
    limit: nat, kind: Kind, s: Store, ws: Workers, t: Store, us: Workers, d: Delivery, excused: bool, k: int, l: nat)
    requires Tracks(limit, kind, s, ws, d, excused, k, l)
    requires Untouched(s, t, d) && Crew(us, d) == Crew(ws, d) && forall w :: w in Crew(ws, d) ==> us[w] == ws[w]
    ensures Tracks(limit, kind, t, us, d, excused, k, l)
  {
    hide StageFits, Waits, LettersOf, CounterAt;
    assert forall w :: w in Crew(ws, d) ==> w in ws && w in us;
    hide Crew;
  }

  /** The body of a message as far as retries care; settled when it is published. */
  ghost predicate BodyIs(cfg: Config, b: Bus, d: Delivery, kind: Kind) {
    d.id in b.published ==> BodyAt(cfg, b, d.id).Usable? == kind.usable
  }

  /** The count of a message over a run; before its delivery there is nothing to count. */
  ghost predicate Tracked(cfg: Config, b: Bus, d: Delivery, kind: Kind, loose: bool, k: int, l: nat) {
    if d in b.delivered then Tracks(cfg.limit, kind, b.store, b.workers, d, loose || d in b.discarded, k, l)
    else k == 0 && l == 0
  }

  lemma CallTracks(
    cfg: Config, b: Bus, w: WorkerId, outcome: Outcome, now: int, d: Delivery, kind: Kind, excused: bool, k: int, l: nat)
    requires cfg.limit >= 1 && Inv(cfg, b) && WorkerAt(b, w).Busy? && AwaitFaults(b, w, outcome, d) == ZERO
    requires Tracks(cfg.limit, kind, b.store, b.workers, d, excused, k, l)
    ensures
      var (t, next) := CallOf(cfg, b, w, outcome, now);
      Tracks(cfg.limit, kind, t, Resting(b, w, next), d, excused, k, l)
  {
    var x := WorkerAt(b, w);
    var e := Delivery(w.key, x.id);
    WorkerIsOk(cfg, b, w);
    var (t, next) := CallOf(cfg, b, w, outcome, now);
    hide Inv, Tracks, Step;
    if e == d {
      OwnCallTracks(cfg, kind, b.store, b.workers, w, d, outcome, now, excused, k, l);
    } else {
      StepIsolates(cfg, e, x.stage, outcome, now, b.store, d);
      OneMoves(b.workers, w, Resting(b, w, next)[w], d);
      hide Untouched, Crew;
      assert Crew(b.workers, d) - {w} == Crew(b.workers, d);
      OtherCallTracks(cfg.limit, kind, b.store, b.workers, t, Resting(b, w, next), d, excused, k, l);
    }
  }

  lemma CleanAdds(t: Tally, u: Tally)
    ensures t.Plus(u).Clean() <==> t.Clean() && u.Clean()
    ensures t.Plus(u).Timely() == t.Timely() + u.Timely()
    ensures t.Plus(u).stale == t.stale + u.stale && t.Plus(u).takeUps == t.takeUps + u.takeUps
  {
  }

  lemma AwaitCountSplits(cfg: Config, b: Bus, w: WorkerId, outcome: Outcome, now: int, d: Delivery)
    requires WorkerAt(b, w).Busy?
    ensures
      var (t, next) := CallOf(cfg, b, w, outcome, now);
      var taken := NextTaken(cfg, t, Resting(b, w, next), w, next, WorkerAt(b, w).rest, d);
      var all := AwaitCount(cfg, b, w, outcome, now, d);
      && all.Timely() == taken.Timely() && all.stale == taken.stale && all.takeUps == taken.takeUps
      && (all.Clean() ==> AwaitFaults(b, w, outcome, d) == ZERO && taken.Clean())
  {
    hide CallOf, AwaitFaults, NextTaken, Resting;
    FaultsOnly(b, w, outcome, d);
    var (t, next) := CallOf(cfg, b, w, outcome, now);
    CleanAdds(AwaitFaults(b, w, outcome, d), NextTaken(cfg, t, Resting(b, w, next), w, next, WorkerAt(b, w).rest, d));
  }

  lemma IdleAwaitCount(cfg: Config, b: Bus, w: WorkerId, outcome: Outcome, now: int, d: Delivery)
    requires !WorkerAt(b, w).Busy?
    ensures AwaitCount(cfg, b, w, outcome, now, d) == ZERO && ZERO.Timely() == 0 && ZERO.stale == 0 && ZERO.takeUps == 0
  {
  }

  /** The next entry of a worker's batch, if it is `d`, has the body published for it. */
  lemma EntryBody(cfg: Config, b: Bus, w: WorkerId, d: Delivery, kind: Kind, batch: seq<Entry>)
    requires BodyIs(cfg, b, d, kind) && batch != [] && EntryOk(b, w.key, batch[0])
    ensures w.key == d.key && batch[0].id == d.id ==> BodyOf(batch[0].fields, cfg.parse).Usable? == kind.usable
  {
  }

  lemma RestEntry(cfg: Config, b: Bus, w: WorkerId)
    requires Inv(cfg, b) && WorkerAt(b, w).Busy? && WorkerAt(b, w).rest != []
    ensures EntryOk(b, w.key, WorkerAt(b, w).rest[0])
  {
    WorkerIsOk(cfg, b, w);
  }

  lemma AfterCallTracks(
    cfg: Config, kind: Kind, s: Store, mid: Workers, w: WorkerId, next: Next, rest: seq<Entry>, d: Delivery,
    excused: bool, k: int, l: nat)
    requires cfg.limit >= 1 && Tracks(cfg.limit, kind, s, mid, d, excused, k, l) && (!next.Go? ==> w !in Crew(mid, d))
    requires rest != [] && w.key == d.key && rest[0].id == d.id ==> BodyOf(rest[0].fields, cfg.parse).Usable? == kind.usable
    requires NextTaken(cfg, s, mid, w, next, rest, d).Clean()
    ensures
      var k' := k + NextTaken(cfg, s, mid, w, next, rest, d).Timely();
      Tracks(cfg.limit, kind, s, WorkersAfter(cfg, mid, w, next, rest), d, excused, k', l)
  {
    hide Tracks, Crew, Started, TakeUp, BodyOf;
    match next
    case Go(_) =>
    case Returned => StartTracks(cfg, kind, s, mid, w, rest, d, excused, k, l);
    case Threw => OffDutyTracks(cfg.limit, kind, s, mid, w, AfterEscape(w), d, excused, k, l);
  }

  lemma AwaitTracks(
    cfg: Config, b: Bus, w: WorkerId, outcome: Outcome, now: int, d: Delivery, kind: Kind, excused: bool, k: int, l: nat)
    requires cfg.limit >= 1 && Inv(cfg, b) && BodyIs(cfg, b, d, kind) && AwaitCount(cfg, b, w, outcome, now, d).Clean()
    requires Tracks(cfg.limit, kind, b.store, b.workers, d, excused, k, l)
    ensures
      var c := AwaitCall(cfg, b, w, outcome, now);
      Tracks(cfg.limit, kind, c.store, c.workers, d, excused, k + AwaitCount(cfg, b, w, outcome, now, d).Timely(), l)
  {
    hide *;
    if WorkerAt(b, w).Busy? {
      var rest := WorkerAt(b, w).rest;
      var (t, next) := CallOf(cfg, b, w, outcome, now);
      AwaitParts(cfg, b, w, outcome, now);
      FaultsOnly(b, w, outcome, d);
      AwaitCountSplits(cfg, b, w, outcome, now, d);
      CallTracks(cfg, b, w, outcome, now, d, kind, excused, k, l);
      RestingOff(b, w, next, d);
      if rest != [] {
        RestEntry(cfg, b, w);
        EntryBody(cfg, b, w, d, kind, rest);
      }
      AfterCallTracks(cfg, kind, t, Resting(b, w, next), w, next, rest, d, excused, k, l);
    } else {
      IdleAwait(cfg, b, w, outcome, now);
      IdleAwaitCount(cfg, b, w, outcome, now, d);
    }
  }

  lemma RestingOff(b: Bus, w: WorkerId, next: Next, d: Delivery)
    requires WorkerAt(b, w).Busy?
    ensures !next.Go? ==> w !in Crew(Resting(b, w, next), d)
  {
  }

  lemma OffDutyTracks(
    limit: nat, kind: Kind, s: Store, ws: Workers, w: WorkerId, state: Worker, d: Delivery, excused: bool, k: int, l: nat)
    requires Tracks(limit, kind, s, ws, d, excused, k, l) && w !in Crew(ws, d) && !On(w, state, d)
    ensures Tracks(limit, kind, s, ws[w := state], d, excused, k, l)
  {
    OneMoves(ws, w, state, d);
    assert Crew(ws, d) - {w} == Crew(ws, d);
    OtherCallTracks(limit, kind, s, ws, s, ws[w := state], d, excused, k, l);
  }

  /** It keeps the count: a message it delivers starts at none, one it finds trimmed is excused. */
  lemma HandsTracks(cfg: Config, b: Bus, m: Bus, d: Delivery, kind: Kind, loose: bool, k: int, l: nat)
    requires cfg.limit >= 1 && Inv(cfg, b) && Tracked(cfg, b, d, kind, loose, k, l) && Hands(b, m, d)
    ensures Tracked(cfg, m, d, kind, loose, k, l)
  {
    if d !in b.delivered { UndeliveredIsUnknown(cfg, b, d); }
    SameLetters(b.store, m.store, d);
    hide Inv, Crew, LettersOf, StageFits, Waits, KeyOf;
    assert CounterAt(m.store, d) == CounterAt(b.store, d);
  }

  lemma BatchTracks(
    cfg: Config, b: Bus, m: Bus, w: WorkerId, batch: seq<Entry>, d: Delivery, kind: Kind, loose: bool, k: int, l: nat)
    requires cfg.limit >= 1 && Inv(cfg, b) && Tracked(cfg, b, d, kind, loose, k, l) && WorkerAt(b, w) == Idle
    requires Hands(b, m, d) && BodyIs(cfg, m, d, kind)
    requires forall e :: e in batch ==> EntryOk(m, w.key, e)
    requires BatchCount(b, SetWorker(m, w, TakeUp(cfg, batch)), w, d).Clean()
    ensures Tracked(cfg, m, d, kind, loose, k, l)
    ensures
      var c := SetWorker(m, w, TakeUp(cfg, batch));
      Tracked(cfg, c, d, kind, loose, k + BatchCount(b, c, w, d).Timely(), l)
  {
    hide *;
    HandsTracks(cfg, b, m, d, kind, loose, k, l);
    HandsLeavesWorkers(b, m, d);
    BatchStarts(b, m, w, TakeUp(cfg, batch), d);
    if batch != [] {
      assert EntryOk(m, w.key, batch[0]);
      EntryBody(cfg, m, w, d, kind, batch);
    }
    TakeUpTracks(cfg, m, w, batch, d, kind, loose, k, l);
  }

  lemma HandsLeavesWorkers(b: Bus, m: Bus, d: Delivery)
    requires Hands(b, m, d)
    ensures m.workers == b.workers
  {
  }

  lemma TakeUpTracks(cfg: Config, m: Bus, w: WorkerId, batch: seq<Entry>, d: Delivery, kind: Kind, loose: bool, k: int, l: nat)
    requires cfg.limit >= 1 && Tracked(cfg, m, d, kind, loose, k, l) && w !in Crew(m.workers, d)
    requires batch != [] ==> EntryOk(m, w.key, batch[0])
    requires batch != [] && w.key == d.key && batch[0].id == d.id ==> BodyOf(batch[0].fields, cfg.parse).Usable? == kind.usable
    requires Started(m.store, m.workers[w := TakeUp(cfg, batch)], w, TakeUp(cfg, batch), d).Clean()
    ensures
      var state := TakeUp(cfg, batch);
      Tracked(cfg, SetWorker(m, w, state), d, kind, loose,
        k + Started(m.store, m.workers[w := state], w, state, d).Timely(), l)
  {
    hide *;
    var state := TakeUp(cfg, batch);
    var timely := Started(m.store, m.workers[w := state], w, state, d).Timely();
    if d in m.delivered {
      TrackedIs(cfg, m, d, kind, loose, k, l);
      StartTracks(cfg, kind, m.store, m.workers, w, batch, d, loose || d in m.discarded, k, l);
      TrackedIs(cfg, SetWorker(m, w, state), d, kind, loose, k + timely, l);
    } else {
      UndeliveredStart(cfg, m, w, batch, d);
      TrackedIs(cfg, m, d, kind, loose, k, l);
      TrackedIs(cfg, SetWorker(m, w, state), d, kind, loose, k + timely, l);
    }
    SetWorkerParts(m, w, state);
  }

  lemma SetWorkerParts(m: Bus, w: WorkerId, state: Worker)
    ensures SetWorker(m, w, state) == m.(workers := m.workers[w := state])
  {
  }

  lemma TrackedIs(cfg: Config, b: Bus, d: Delivery, kind: Kind, loose: bool, k: int, l: nat)
    ensures Tracked(cfg, b, d, kind, loose, k, l) <==>
      if d in b.delivered then Tracks(cfg.limit, kind, b.store, b.workers, d, loose || d in b.discarded, k, l)
      else k == 0 && l == 0
  {
  }

  lemma UndeliveredStart(cfg: Config, m: Bus, w: WorkerId, batch: seq<Entry>, d: Delivery)
    requires d !in m.delivered && (batch != [] ==> EntryOk(m, w.key, batch[0]))
    ensures Started(m.store, m.workers[w := TakeUp(cfg, batch)], w, TakeUp(cfg, batch), d).Timely() == 0
  {
    hide Crew, BodyOf;
  }

  lemma HandsBody(cfg: Config, b: Bus, m: Bus, d: Delivery, kind: Kind)
    requires BodyIs(cfg, b, d, kind) && m.published == b.published
    ensures BodyIs(cfg, m, d, kind)
  {
    hide BodyOf;
  }

  lemma ReadTracks(
    cfg: Config, b: Bus, w: WorkerId, replyLost: bool, d: Delivery, kind: Kind, loose: bool, k: int, l: nat)
    requires cfg.limit >= 1 && Reachable(cfg, b) && Tracked(cfg, b, d, kind, loose, k, l)
    requires BodyIs(cfg, b, d, kind) && BatchCount(b, ReadGroup(cfg, b, w, replyLost), w, d).Clean()
    ensures
      var c := ReadGroup(cfg, b, w, replyLost);
      Tracked(cfg, c, d, kind, loose, k + BatchCount(b, c, w, d).Timely(), l)
  {
    hide *;
    var ids := ReadParts(cfg, b, w, replyLost);
    NoBatch(b, w, d);
    NoneTimely();
    if ids != [] {
      var m := AfterRead(b, w.key, ids);
      ReachableInv(cfg, b);
      JustTaken(m, w, TakeUp(cfg, EntriesOf(b, ids)));
      ReadHands(cfg, b, w, replyLost, ids, d);
      HandsParts(b, m, d);
      ReadEntriesOk(b, w.key, ids);
      HandsBody(cfg, b, m, d, kind);
      NoBatchYet(b, m, w, d);
      if replyLost { HandsTracks(cfg, b, m, d, kind, loose, k, l); }
      else { BatchTracks(cfg, b, m, w, EntriesOf(b, ids), d, kind, loose, k, l); }
    }
  }

  lemma NoBatchYet(b: Bus, m: Bus, w: WorkerId, d: Delivery)
    requires m.workers == b.workers
    ensures BatchCount(b, m, w, d) == ZERO
  {
  }

  lemma ClaimTracks(
    cfg: Config, b: Bus, w: WorkerId, ids: seq<nat>, replyLost: bool, d: Delivery, kind: Kind, loose: bool, k: int, l: nat)
    requires cfg.limit >= 1 && Reachable(cfg, b) && Tracked(cfg, b, d, kind, loose, k, l)
    requires BodyIs(cfg, b, d, kind) && BatchCount(b, ClaimPending(cfg, b, w, ids, replyLost), w, d).Clean()
    ensures
      var c := ClaimPending(cfg, b, w, ids, replyLost);
      Tracked(cfg, c, d, kind, loose, k + BatchCount(b, c, w, d).Timely(), l)
  {
    hide *;
    var done := ClaimParts(cfg, b, w, ids, replyLost);
    NoBatch(b, w, d);
    NoneTimely();
    if done {
      var m := AfterClaim(b, w.key, ids);
      ReachableInv(cfg, b);
      ClaimHands(b, w.key, ids, d);
      HandsParts(b, m, d);
      ClaimedEntries(cfg, b, w.key, ids, d, kind);
      NoBatchYet(b, m, w, d);
      if replyLost { HandsTracks(cfg, b, m, d, kind, loose, k, l); }
      else { BatchTracks(cfg, b, m, w, EntriesOf(b, Kept(b, w.key, ids)), d, kind, loose, k, l); }
    }
  }

  lemma ClaimedEntries(cfg: Config, b: Bus, key: GroupKey, ids: seq<nat>, d: Delivery, kind: Kind)
    requires Inv(cfg, b) && BodyIs(cfg, b, d, kind)
    requires forall id :: id in Kept(b, key, ids) ==> id in b.published
    ensures BodyIs(cfg, AfterClaim(b, key, ids), d, kind)
    ensures forall e :: e in EntriesOf(b, Kept(b, key, ids)) ==> EntryOk(AfterClaim(b, key, ids), key, e)
  {
    InvKnowsDeliveries(cfg, b);
    KeptArePending(b, key, ids);
    hide Inv, BodyOf, Gone, Kept;
    KeptEntriesOk(b, AfterClaim(b, key, ids), key, Kept(b, key, ids));
  }

  /** An action that leaves the message alone. */
  lemma QuietTracks(cfg: Config, b: Bus, c: Bus, d: Delivery, kind: Kind, loose: bool, k: int, l: nat)
    requires Tracked(cfg, b, d, kind, loose, k, l)
    requires c.workers == b.workers && c.delivered == b.delivered && c.discarded == b.discarded
    requires c.store == b.store.(counters := c.store.counters) && CounterAt(c.store, d) == CounterAt(b.store, d)
    ensures Tracked(cfg, c, d, kind, loose, k, l)
  {
    SameLetters(b.store, c.store, d);
    hide Crew, LettersOf, StageFits, CounterAt;
  }

  lemma CrashTracks(cfg: Config, b: Bus, w: WorkerId, d: Delivery, kind: Kind, loose: bool, k: int, l: nat)
    requires Tracked(cfg, b, d, kind, loose, k, l) && !On(w, WorkerAt(b, w), d)
    ensures Tracked(cfg, SetWorker(b, w, Dead), d, kind, loose, k, l)
  {
    if d in b.delivered {
      OneMoves(b.workers, w, Dead, d);
      hide Tracks;
      OffDutyTracks(cfg.limit, kind, b.store, b.workers, w, Dead, d, loose || d in b.discarded, k, l);
    }
  }

  /** An undelivered message is not taken up. */
  lemma UndeliveredIsNotCounted(cfg: Config, b: Bus, w: WorkerId, outcome: Outcome, now: int, d: Delivery)
    requires Inv(cfg, AwaitCall(cfg, b, w, outcome, now)) && d !in AwaitCall(cfg, b, w, outcome, now).delivered
    ensures AwaitCount(cfg, b, w, outcome, now, d).Timely() == 0
  {
    hide *;
    UndeliveredIsUnknown(cfg, AwaitCall(cfg, b, w, outcome, now), d);
    if WorkerAt(b, w).Busy? {
      var (t, next) := CallOf(cfg, b, w, outcome, now);
      AwaitParts(cfg, b, w, outcome, now);
      AwaitCountSplits(cfg, b, w, outcome, now, d);
      NobodyTaken(cfg, t, Resting(b, w, next), w, next, WorkerAt(b, w).rest, d);
    } else {
      IdleAwaitCount(cfg, b, w, outcome, now, d);
    }
  }

  lemma NobodyTaken(cfg: Config, s: Store, mid: Workers, w: WorkerId, next: Next, rest: seq<Entry>, d: Delivery)
    requires Crew(WorkersAfter(cfg, mid, w, next, rest), d) == {}
    ensures NextTaken(cfg, s, mid, w, next, rest, d).Timely() == 0
  {
    hide TakeUp;
    assert w !in Crew(WorkersAfter(cfg, mid, w, next, rest), d);
  }

  lemma ActionTracks(cfg: Config, b: Bus, a: Action, d: Delivery, kind: Kind, loose: bool, k: int, l: nat)
    requires cfg.limit >= 1 && Reachable(cfg, b) && Tracked(cfg, b, d, kind, loose, k, l)
    requires BodyIs(cfg, b, d, kind) && Count(cfg, b, a, d).Clean() && a != ExpireCounter(KeyOf(d))
    ensures Tracked(cfg, Apply(cfg, b, a), d, kind, loose, k + Count(cfg, b, a, d).Timely(), l)
  {
    hide *;
    ActionParts(cfg, b, a, d);
    NoneTimely();
    match a
    case Read(w, replyLost) => ReadTracks(cfg, b, w, replyLost, d, kind, loose, k, l);
    case Claim(w, ids, replyLost) => ClaimTracks(cfg, b, w, ids, replyLost, d, kind, loose, k, l);
    case Await(w, outcome, now) => AwaitTracked(cfg, b, w, outcome, now, d, kind, loose, k, l);
    case Crash(w) =>
      CrashIsFault();
      CrashTracks(cfg, b, w, d, kind, loose, k, l);
    case _ =>
      OnlyWorkersWork(a);
      QuietTracks(cfg, b, Apply(cfg, b, a), d, kind, loose, k, l);
  }

  lemma CrashIsFault()
    ensures !Tally(1, 0, 0, 0).Clean()
  {
  }

  lemma AwaitTracked(
    cfg: Config, b: Bus, w: WorkerId, outcome: Outcome, now: int, d: Delivery, kind: Kind, loose: bool, k: int, l: nat)
    requires cfg.limit >= 1 && Reachable(cfg, b) && Tracked(cfg, b, d, kind, loose, k, l)
    requires BodyIs(cfg, b, d, kind) && AwaitCount(cfg, b, w, outcome, now, d).Clean()
    ensures
      Tracked(cfg, AwaitCall(cfg, b, w, outcome, now), d, kind, loose, k + AwaitCount(cfg, b, w, outcome, now, d).Timely(), l)
  {
    hide Inv, DeliveredOnce, BodyIs, AwaitCall, AwaitCount, Tracks;
    AwaitFrame(cfg, b, w, outcome, now);
    if d in b.delivered {
      AwaitTracks(cfg, b, w, outcome, now, d, kind, loose || d in b.discarded, k, l);
    } else {
      AwaitKeeps(cfg, b, w, outcome, now);
      UndeliveredIsNotCounted(cfg, b, w, outcome, now, d);
    }
  }

  lemma AwaitFrame(cfg: Config, b: Bus, w: WorkerId, outcome: Outcome, now: int)
    ensures var c := AwaitCall(cfg, b, w, outcome, now); c.delivered == b.delivered && c.discarded == b.discarded
  {
    hide Step, TakeUp;
  }

  /** A published message never changes. */
  lemma BodyStays(cfg: Config, b: Bus, a: Action, d: Delivery, kind: Kind)
    requires Inv(cfg, b) && BodyIs(cfg, Apply(cfg, b, a), d, kind)
    ensures BodyIs(cfg, b, d, kind)
  {
    InvKnowsDeliveries(cfg, b);
    hide Inv, BodyOf, Step, TakeUp, NextIds, Gone, Kept, Deliveries;
  }

  lemma {:induction false} RunTracks(
    cfg: Config, b: Bus, actions: seq<Action>, d: Delivery, kind: Kind, loose: bool, k: int, l: nat)
    requires cfg.limit >= 1 && Reachable(cfg, b) && Tracked(cfg, b, d, kind, loose, k, l)
    requires BodyIs(cfg, Run(cfg, b, actions), d, kind)
    requires TallyOf(cfg, b, actions, d).Clean() && ExpireCounter(KeyOf(d)) !in actions
    ensures Tracked(cfg, Run(cfg, b, actions), d, kind, loose, k + TallyOf(cfg, b, actions, d).Timely(), l)
  {
    hide *;
    RunUnrolls(cfg, b, actions, d);
    NoneTimely();
    if actions != [] {
      var front, a := actions[..|actions| - 1], actions[|actions| - 1];
      var m := Run(cfg, b, front);
      RunReachable(cfg, b, front);
      ReachableInv(cfg, m);
      CleanAdds(TallyOf(cfg, b, front, d), Count(cfg, m, a, d));
      BodyStays(cfg, m, a, d, kind);
      RunTracks(cfg, b, front, d, kind, loose, k, l);
      ActionTracks(cfg, m, a, d, kind, loose, k + TallyOf(cfg, b, front, d).Timely(), l);
    }
  }

  lemma NoneTimely()
    ensures ZERO.Timely() == 0 && ZERO.stale == 0 && ZERO.takeUps == 0
  {
  }

  lemma EmptyTracked(cfg: Config, d: Delivery, kind: Kind)
    ensures Reachable(cfg, Empty()) && Tracked(cfg, Empty(), d, kind, false, 0, 0)
  {
    EmptyReachable(cfg);
  }

  lemma SomeBody(cfg: Config, b: Bus, d: Delivery, exact: bool) returns (kind: Kind)
    ensures BodyIs(cfg, b, d, kind) && kind.exact == exact
  {
    kind := Kind(d.id in b.published && BodyAt(cfg, b, d.id).Usable?, exact);
  }

  lemma TrackedWithinLimit(cfg: Config, b: Bus, d: Delivery, kind: Kind, loose: bool, k: int, l: nat)
    requires Tracked(cfg, b, d, kind, loose, k, l)
    ensures k <= cfg.limit
  {
  }

  // ----- Stale dispatches -----

  /** The group is done with the message: it has been delivered and is not pending, and so it stays. */
  ghost predicate Settled(b: Bus, d: Delivery) {
    d in b.delivered && d !in b.store.pending
  }

  lemma SettledStays(cfg: Config, b: Bus, a: Action, d: Delivery)
    requires Reachable(cfg, b) && Settled(b, d)
    ensures Settled(Apply(cfg, b, a), d)
  {
    DeliveredGrows(cfg, b, a);
    match a
    case Read(w, replyLost) =>
      hide ReadGroup, Inv;
      ReadDeliversOnce(cfg, b, w, replyLost);
    case Await(w, outcome, now) =>
      hide Apply;
      AwaitSettles(cfg, b, w, outcome, now, d);
    case _ => hide Inv, DeliveredOnce, TakeUp, Gone, Kept;
  }

  lemma AwaitSettles(cfg: Config, b: Bus, w: WorkerId, outcome: Outcome, now: int, d: Delivery)
    requires Inv(cfg, b) && d !in b.store.pending
    ensures d !in Apply(cfg, b, Await(w, outcome, now)).store.pending
  {
    hide *;
    ActionParts(cfg, b, Await(w, outcome, now), d);
    if WorkerAt(b, w).Busy? {
      AwaitParts(cfg, b, w, outcome, now);
      WorkerIsOk(cfg, b, w);
      CallSettles(cfg, b, w, outcome, now, d);
    } else {
      IdleAwait(cfg, b, w, outcome, now);
    }
  }

  lemma CallSettles(cfg: Config, b: Bus, w: WorkerId, outcome: Outcome, now: int, d: Delivery)
    requires WorkerAt(b, w).Busy? && WorkerOk(cfg, b, w, WorkerAt(b, w)) && d !in b.store.pending
    ensures d !in CallOf(cfg, b, w, outcome, now).0.pending
  {
    var x := WorkerAt(b, w);
    var e := Delivery(w.key, x.id);
    assert StageIsOf(e, x.stage);
    hide Step, StageOk, LettersOf, CounterAt, BodyOf;
    if e == d {
      StepCost(cfg, d, x.stage, outcome, now, b.store);
    } else {
      StepIsolates(cfg, e, x.stage, outcome, now, b.store, d);
    }
  }

  /** A stale dispatch is of a settled message. */
  lemma StaleIsSettled(cfg: Config, b: Bus, a: Action, d: Delivery)
    requires Inv(cfg, b) && Count(cfg, b, a, d).stale > 0
    ensures Settled(Apply(cfg, b, a), d)
  {
    hide *;
    CountTaken(cfg, b, a, d);
    TakenIsDelivered(cfg, b, a);
    SettledIs(Apply(cfg, b, a), d);
  }

  lemma {:induction false} StaleOnlyWhenSettled(cfg: Config, b: Bus, actions: seq<Action>, d: Delivery)
    requires Reachable(cfg, b)
    ensures TallyOf(cfg, b, actions, d).stale > 0 || Settled(b, d) ==> Settled(Run(cfg, b, actions), d)
  {
    hide *;
    RunUnrolls(cfg, b, actions, d);
    NoneTimely();
    if actions != [] {
      var front, a := actions[..|actions| - 1], actions[|actions| - 1];
      var m := Run(cfg, b, front);
      RunReachable(cfg, b, front);
      ReachableInv(cfg, m);
      CleanAdds(TallyOf(cfg, b, front, d), Count(cfg, m, a, d));
      StaleOnlyWhenSettled(cfg, b, front, d);
      if Settled(m, d) { SettledStays(cfg, m, a, d); }
      if Count(cfg, m, a, d).stale > 0 { StaleIsSettled(cfg, m, a, d); }
    }
  }

  // ----- The exact count -----

  /** The handler of a usable message delivered to the group, and not trimmed from its stream, has never returned. */
  ghost predicate NeverHandled(cfg: Config, b: Bus, d: Delivery) {
    && d in b.delivered && d !in b.discarded && d !in b.store.handled
    && d.id in b.published && BodyAt(cfg, b, d.id).Usable?
  }

  /**
   * Without faults, expiry of its counter and overlapping dispatches, a message whose handler never returns is
   * dispatched exactly limit times, plus once for each entry that a worker still held when it was settled; so exactly
   * limit times if and only if there was none. Such an entry never comes before the message is settled, and by then
   * there is a dead letter, and at most one more for each such entry. All other traffic is arbitrary.
   */
  lemma LimitPlusStaleDispatches(cfg: Config, actions: seq<Action>, d: Delivery)
    requires cfg.limit >= 1 && ExpireCounter(KeyOf(d)) !in actions
    requires TallyOf(cfg, Empty(), actions, d).Clean()
    requires NeverHandled(cfg, Run(cfg, Empty(), actions), d)
    ensures
      var b, t := Run(cfg, Empty(), actions), TallyOf(cfg, Empty(), actions, d);
      if d in b.store.pending then
        t.stale == 0 && t.takeUps <= cfg.limit
      else
        && t.takeUps == cfg.limit + t.stale
        && (t.takeUps == cfg.limit <==> t.stale == 0)
        && 1 <= LettersOf(b.store, d) <= 1 + t.stale
  {
    hide *;
    var b, t := Run(cfg, Empty(), actions), TallyOf(cfg, Empty(), actions, d);
    EmptyTracked(cfg, d, Kind(true, true));
    NeverHandledBody(cfg, b, d);
    RunTracks(cfg, Empty(), actions, d, Kind(true, true), false, 0, 0);
    TrackedSettled(cfg, b, d, 0 + t.Timely());
    StaleOnlyWhenSettled(cfg, Empty(), actions, d);
    SettledIs(b, d);
    TimelyIs(t);
    LettersBoundedByFaults(cfg, actions, d);
  }

  lemma SettledIs(b: Bus, d: Delivery)
    ensures Settled(b, d) <==> d in b.delivered && d !in b.store.pending
  {
  }

  lemma TimelyIs(t: Tally)
    ensures t.Timely() == t.takeUps - t.stale
    ensures t.Clean() <==> t.faults == 0 && t.overlaps == 0
  {
  }

  lemma NeverHandledBody(cfg: Config, b: Bus, d: Delivery)
    requires NeverHandled(cfg, b, d)
    ensures BodyIs(cfg, b, d, Kind(true, true))
  {
  }

  lemma TrackedSettled(cfg: Config, b: Bus, d: Delivery, k: int)
    requires Tracked(cfg, b, d, Kind(true, true), false, k, 0) && NeverHandled(cfg, b, d)
    ensures d in b.delivered && k <= cfg.limit
    ensures d !in b.store.pending ==> k == cfg.limit && LettersOf(b.store, d) >= 1
    ensures d in b.store.pending && Crew(b.workers, d) == {} ==>
      k < cfg.limit && LettersOf(b.store, d) == 0 && CounterAt(b.store, d).attempts == k
  {
    hide Crew, LettersOf, CounterAt, StageFits;
  }

  /**
   * In particular, without entries held too long: the message is dispatched exactly limit times, stays pending until
   * then, and has exactly one dead letter from then on. Between its dispatches its counter holds their number.
   */
  lemma ExactlyLimitDispatches(cfg: Config, actions: seq<Action>, d: Delivery)
    requires cfg.limit >= 1 && ExpireCounter(KeyOf(d)) !in actions
    requires TallyOf(cfg, Empty(), actions, d).Clean() && TallyOf(cfg, Empty(), actions, d).stale == 0
    requires NeverHandled(cfg, Run(cfg, Empty(), actions), d) && Crew(Run(cfg, Empty(), actions).workers, d) == {}
    ensures
      var b := Run(cfg, Empty(), actions);
      var dispatches := TallyOf(cfg, Empty(), actions, d).takeUps;
      && dispatches <= cfg.limit
      && (d in b.store.pending <==> dispatches < cfg.limit)
      && LettersOf(b.store, d) == (if dispatches < cfg.limit then 0 else 1)
      && (d in b.store.pending ==> CounterAt(b.store, d).attempts == dispatches)
  {
    hide *;
    var b, t := Run(cfg, Empty(), actions), TallyOf(cfg, Empty(), actions, d);
    LimitPlusStaleDispatches(cfg, actions, d);
    EmptyTracked(cfg, d, Kind(true, true));
    NeverHandledBody(cfg, b, d);
    RunTracks(cfg, Empty(), actions, d, Kind(true, true), false, 0, 0);
    TimelyIs(t);
    TrackedSettled(cfg, b, d, 0 + t.Timely());
  }

  /** Under the same conditions no message, whatever its handler does, is dispatched more than limit times in time. */
  lemma DispatchesWithinLimit(cfg: Config, actions: seq<Action>, d: Delivery)
    requires cfg.limit >= 1 && ExpireCounter(KeyOf(d)) !in actions
    requires TallyOf(cfg, Empty(), actions, d).Clean()
    ensures TallyOf(cfg, Empty(), actions, d).takeUps <= cfg.limit + TallyOf(cfg, Empty(), actions, d).stale
  {
    hide *;
    var kind := SomeBody(cfg, Run(cfg, Empty(), actions), d, true);
    EmptyTracked(cfg, d, kind);
    RunTracks(cfg, Empty(), actions, d, kind, false, 0, 0);
    var t := TallyOf(cfg, Empty(), actions, d);
    TimelyIs(t);
    TrackedWithinLimit(cfg, Run(cfg, Empty(), actions), d, kind, false, 0 + t.Timely(), 0);
  }

  // ----- Draining the pending list -----

  function TakenBy(w: WorkerId, state: Worker): Option<Delivery> {
    if state.Busy? then Some(Delivery(w.key, state.id)) else None
  }

  /** The message whose dispatch an action begins. */
  function Taken(cfg: Config, b: Bus, a: Action): Option<Delivery> {
    match a
    case Read(w, _) => if WorkerAt(b, w) == Idle then TakenBy(w, WorkerAt(Apply(cfg, b, a), w)) else None
    case Claim(w, _, _) => if WorkerAt(b, w) == Idle then TakenBy(w, WorkerAt(Apply(cfg, b, a), w)) else None
    case Await(w, outcome, now) =>
      if WorkerAt(b, w).Busy? && CallOf(cfg, b, w, outcome, now).1.Returned?
      then TakenBy(w, TakeUp(cfg, WorkerAt(b, w).rest)) else None
    case _ => None
  }

  /** The same, if the message is still pending then. */
  function TakenInTime(cfg: Config, b: Bus, a: Action): Option<Delivery> {
    var taken := Taken(cfg, b, a);
    if taken.Some? && taken.value in Apply(cfg, b, a).store.pending then taken else None
  }

  /** Dispatches begun in a run in time, of the messages in `ds`. */
  function Dispatches(cfg: Config, b: Bus, actions: seq<Action>, ds: set<Delivery>): nat {
    if actions == [] then 0
    else
      var front := actions[..|actions| - 1];
      var taken := TakenInTime(cfg, Run(cfg, b, front), actions[|actions| - 1]);
      Dispatches(cfg, b, front, ds) + if taken.Some? && taken.value in ds then 1 else 0
  }

  /** All dispatches begun in a run. */
  function AllDispatches(cfg: Config, b: Bus, actions: seq<Action>): nat {
    if actions == [] then 0
    else
      var front := actions[..|actions| - 1];
      AllDispatches(cfg, b, front) + if Taken(cfg, Run(cfg, b, front), actions[|actions| - 1]).Some? then 1 else 0
  }

  /** All dispatches begun in a run when their message was no longer pending. */
  function StaleDispatches(cfg: Config, b: Bus, actions: seq<Action>): nat {
    if actions == [] then 0
    else
      var front, a := actions[..|actions| - 1], actions[|actions| - 1];
      var m := Run(cfg, b, front);
      StaleDispatches(cfg, b, front) + if Taken(cfg, m, a).Some? && TakenInTime(cfg, m, a).None? then 1 else 0
  }

  lemma CountTaken(cfg: Config, b: Bus, a: Action, d: Delivery)
    ensures Count(cfg, b, a, d).takeUps == if Taken(cfg, b, a) == Some(d) then 1 else 0
    ensures Count(cfg, b, a, d).stale == if Taken(cfg, b, a) == Some(d) && d !in Apply(cfg, b, a).store.pending then 1 else 0
  {
    match a
    case Await(w, outcome, now) =>
      AwaitTaken(cfg, b, w, outcome, now, d);
    case Read(w, replyLost) =>
      hide ReadGroup;
      StartedCounts(Apply(cfg, b, a), w, d);
    case Claim(w, ids, replyLost) =>
      hide ClaimPending;
      StartedCounts(Apply(cfg, b, a), w, d);
    case _ =>
  }

  lemma StartedCounts(c: Bus, w: WorkerId, d: Delivery)
    ensures
      var t := Started(c.store, c.workers, w, WorkerAt(c, w), d);
      var taken := TakenBy(w, WorkerAt(c, w)) == Some(d);
      t.takeUps == (if taken then 1 else 0) && t.stale == (if taken && d !in c.store.pending then 1 else 0)
  {
    hide Crew;
  }

  lemma AwaitTaken(cfg: Config, b: Bus, w: WorkerId, outcome: Outcome, now: int, d: Delivery)
    ensures
      var t, c := AwaitCount(cfg, b, w, outcome, now, d), Apply(cfg, b, Await(w, outcome, now));
      var taken := Taken(cfg, b, Await(w, outcome, now)) == Some(d);
      t.takeUps == (if taken then 1 else 0) && t.stale == (if taken && d !in c.store.pending then 1 else 0)
  {
    hide *;
    ActionParts(cfg, b, Await(w, outcome, now), d);
    AwaitTakes(cfg, b, w, outcome, now);
    if WorkerAt(b, w).Busy? {
      var (t, next) := CallOf(cfg, b, w, outcome, now);
      AwaitCountSplits(cfg, b, w, outcome, now, d);
      AwaitParts(cfg, b, w, outcome, now);
      NextTakenCounts(cfg, t, Resting(b, w, next), w, next, WorkerAt(b, w).rest, d);
    } else {
      IdleAwaitCount(cfg, b, w, outcome, now, d);
    }
  }

  lemma AwaitTakes(cfg: Config, b: Bus, w: WorkerId, outcome: Outcome, now: int)
    ensures Taken(cfg, b, Await(w, outcome, now)) ==
      if WorkerAt(b, w).Busy? && CallOf(cfg, b, w, outcome, now).1.Returned?
      then TakenBy(w, TakeUp(cfg, WorkerAt(b, w).rest)) else None
  {
  }

  lemma NextTakenCounts(cfg: Config, s: Store, mid: Workers, w: WorkerId, next: Next, rest: seq<Entry>, d: Delivery)
    ensures
      var t := NextTaken(cfg, s, mid, w, next, rest, d);
      var taken := next.Returned? && TakenBy(w, TakeUp(cfg, rest)) == Some(d);
      t.takeUps == (if taken then 1 else 0) && t.stale == (if taken && d !in s.pending then 1 else 0)
  {
    hide TakeUp, Crew;
  }

  lemma CountInTime(cfg: Config, b: Bus, a: Action, d: Delivery)
    ensures Count(cfg, b, a, d).Timely() == if TakenInTime(cfg, b, a) == Some(d) then 1 else 0
  {
    CountTaken(cfg, b, a, d);
    hide Count, Taken, Apply;
  }

  lemma DispatchesUnroll(cfg: Config, b: Bus, actions: seq<Action>, ds: set<Delivery>)
    ensures actions == [] ==> Dispatches(cfg, b, actions, ds) == 0
    ensures actions != [] ==>
      var front := actions[..|actions| - 1];
      var taken := TakenInTime(cfg, Run(cfg, b, front), actions[|actions| - 1]);
      Dispatches(cfg, b, actions, ds) == Dispatches(cfg, b, front, ds) + if taken.Some? && taken.value in ds then 1 else 0
  {
    hide TakenInTime, Run;
  }

  lemma {:induction false} DispatchesOfOne(cfg: Config, b: Bus, actions: seq<Action>, d: Delivery)
    ensures Dispatches(cfg, b, actions, {d}) == TallyOf(cfg, b, actions, d).Timely()
  {
    hide *;
    DispatchesUnroll(cfg, b, actions, {d});
    RunUnrolls(cfg, b, actions, d);
    NoneTimely();
    if actions != [] {
      var front, a := actions[..|actions| - 1], actions[|actions| - 1];
      DispatchesOfOne(cfg, b, front, d);
      CountInTime(cfg, Run(cfg, b, front), a, d);
      CleanAdds(TallyOf(cfg, b, front, d), Count(cfg, Run(cfg, b, front), a, d));
    }
  }

  lemma {:induction false} DispatchesAdd(cfg: Config, b: Bus, actions: seq<Action>, ds: set<Delivery>, es: set<Delivery>)
    requires ds !! es
    ensures Dispatches(cfg, b, actions, ds + es) == Dispatches(cfg, b, actions, ds) + Dispatches(cfg, b, actions, es)
  {
    if actions != [] {
      hide TakenInTime, Run;
      DispatchesAdd(cfg, b, actions[..|actions| - 1], ds, es);
    }
  }

  lemma DispatchesSplit(cfg: Config, b: Bus, actions: seq<Action>, ds: set<Delivery>, d: Delivery)
    requires d in ds
    ensures Dispatches(cfg, b, actions, ds) == TallyOf(cfg, b, actions, d).Timely() + Dispatches(cfg, b, actions, ds - {d})
  {
    assert ds == {d} + (ds - {d});
    hide Dispatches, TallyOf;
    DispatchesOfOne(cfg, b, actions, d);
    DispatchesAdd(cfg, b, actions, {d}, ds - {d});
  }

  /** Messages dispatched at most `m` times each are dispatched at most `m` times their number. */
  lemma {:induction false} DispatchesEach(cfg: Config, b: Bus, actions: seq<Action>, ds: set<Delivery>, m: nat)
    requires forall d :: d in ds ==> TallyOf(cfg, b, actions, d).Timely() <= m
    ensures Dispatches(cfg, b, actions, ds) <= m * |ds|
    decreases |ds|
  {
    hide TallyOf, Dispatches;
    if ds != {} {
      var d := Pick(ds);
      DispatchesSplit(cfg, b, actions, ds, d);
      DispatchesEach(cfg, b, actions, ds - {d}, m);
      TimesOneMore(m, |ds| - 1);
      assert |ds - {d}| == |ds| - 1;
    } else {
      NoneDispatched(cfg, b, actions);
    }
  }

  lemma {:induction false} NoneDispatched(cfg: Config, b: Bus, actions: seq<Action>)
    ensures Dispatches(cfg, b, actions, {}) == 0
  {
    if actions != [] {
      hide TakenInTime, Run;
      NoneDispatched(cfg, b, actions[..|actions| - 1]);
    }
  }

  /** Messages dispatched no more often than they have attempts left are dispatched at most as often as the potential says. */
  lemma {:induction false} DispatchesWithinPotential(cfg: Config, b: Bus, actions: seq<Action>, ds: set<Delivery>)
    requires forall d :: d in ds ==> TallyOf(cfg, b, actions, d).Timely() <= Remaining(cfg, b.store, d)
    ensures Dispatches(cfg, b, actions, ds) <= Potential(cfg, b.store, ds)
    decreases |ds|
  {
    hide TallyOf, Dispatches, Remaining;
    if ds != {} {
      var d := Pick(ds);
      DispatchesSplit(cfg, b, actions, ds, d);
      PotentialSplits(cfg, b.store, ds, d);
      DispatchesWithinPotential(cfg, b, actions, ds - {d});
    } else {
      NoneDispatched(cfg, b, actions);
    }
  }

  lemma TakenIsDelivered(cfg: Config, b: Bus, a: Action)
    requires Inv(cfg, b)
    ensures Taken(cfg, b, a).Some? ==> Taken(cfg, b, a).value in Apply(cfg, b, a).delivered
  {
    ActionKeeps(cfg, b, a);
    var c := Apply(cfg, b, a);
    match a
    case Read(w, _) => WorkerIsOk(cfg, c, w); hide Inv, ReadGroup;
    case Claim(w, _, _) => WorkerIsOk(cfg, c, w); hide Inv, ClaimPending;
    case Await(w, outcome, now) =>
      hide Inv, AwaitCall, CallOf;
      WorkerIsOk(cfg, c, w);
      if WorkerAt(b, w).Busy? { AwaitParts(cfg, b, w, outcome, now); }
    case _ =>
  }

  lemma DeliveredGrows(cfg: Config, b: Bus, a: Action)
    ensures b.delivered <= Apply(cfg, b, a).delivered
  {
    hide Step, TakeUp, NextIds, Gone, Kept, Deliveries;
  }

  lemma {:induction false} AllAreOfDelivered(cfg: Config, b: Bus, actions: seq<Action>, ds: set<Delivery>)
    requires Reachable(cfg, b) && Run(cfg, b, actions).delivered <= ds
    ensures AllDispatches(cfg, b, actions) == Dispatches(cfg, b, actions, ds) + StaleDispatches(cfg, b, actions)
    ensures b.delivered <= ds
  {
    if actions != [] {
      var front, a := actions[..|actions| - 1], actions[|actions| - 1];
      RunReachable(cfg, b, front);
      TakenIsDelivered(cfg, Run(cfg, b, front), a);
      DeliveredGrows(cfg, Run(cfg, b, front), a);
      hide Taken, Apply, Reachable;
      AllAreOfDelivered(cfg, b, front, ds);
    }
  }

  lemma {:induction false} DeliveredStays(cfg: Config, b: Bus, actions: seq<Action>)
    ensures b.delivered <= Run(cfg, b, actions).delivered
  {
    if actions != [] {
      hide Apply;
      DeliveredStays(cfg, b, actions[..|actions| - 1]);
      DeliveredGrows(cfg, Run(cfg, b, actions[..|actions| - 1]), actions[|actions| - 1]);
    }
  }

  ghost predicate NobodyAtWork(b: Bus) {
    forall w :: w in b.workers ==> !b.workers[w].Busy?
  }

  /** No fault, no expiry, and never two workers on a pending message. */
  ghost predicate CleanRun(cfg: Config, b: Bus, actions: seq<Action>) {
    && (forall d :: TallyOf(cfg, b, actions, d).Clean())
    && (forall a :: a in actions ==> !a.ExpireCounter?)
  }

  /** From then on a message is dispatched in time no more often than it has dispatches left; a settled one not at all. */
  lemma MessageDispatches(cfg: Config, b: Bus, actions: seq<Action>, d: Delivery)
    requires cfg.limit >= 1 && Reachable(cfg, b) && NobodyAtWork(b) && CleanRun(cfg, b, actions)
    ensures
      TallyOf(cfg, b, actions, d).Timely() <=
        if d in b.store.pending then Remaining(cfg, b.store, d) else if d in b.delivered then 0 else cfg.limit
  {
    hide *;
    var kind := SomeBody(cfg, Run(cfg, b, actions), d, false);
    var k, l := QuietTracked(cfg, b, d, kind);
    CleanForOne(cfg, b, actions, d);
    RunTracks(cfg, b, actions, d, kind, true, k, l);
    TrackedWithinLimit(cfg, Run(cfg, b, actions), d, kind, true, k + TallyOf(cfg, b, actions, d).Timely(), l);
  }

  lemma CleanForOne(cfg: Config, b: Bus, actions: seq<Action>, d: Delivery)
    requires CleanRun(cfg, b, actions)
    ensures TallyOf(cfg, b, actions, d).Clean() && ExpireCounter(KeyOf(d)) !in actions
  {
    hide TallyOf, KeyOf;
  }

  /** With nobody at work a pending message counts its attempts, a settled one all there may be, a new one none. */
  lemma QuietTracked(cfg: Config, b: Bus, d: Delivery, kind: Kind) returns (k: int, l: nat)
    requires cfg.limit >= 1 && Reachable(cfg, b) && NobodyAtWork(b) && !kind.exact
    ensures Tracked(cfg, b, d, kind, true, k, l)
    ensures cfg.limit - k == if d in b.store.pending then Remaining(cfg, b.store, d) else if d in b.delivered then 0 else cfg.limit
  {
    InvKnowsDeliveries(cfg, b);
    hide Inv, KeyOf, LettersOf, StageFits;
    k := if d in b.store.pending then Cap(cfg.limit, CounterAt(b.store, d).attempts) else if d in b.delivered then cfg.limit else 0;
    l := if d in b.delivered then LettersOf(b.store, d) else 0;
    assert Crew(b.workers, d) == {};
  }

  /**
   * The dispatches that drain the pending list. From any reachable state with nobody at work, whatever faults led there,
   * a run without faults, expiry and overlapping dispatches begins at most as many dispatches as the pending messages
   * have left, which is at most limit times their number, at most limit more for each new delivery, and one for each
   * entry taken up after its message was settled; whatever the handlers do, and however the calls interleave.
   */
  lemma DrainBound(cfg: Config, b: Bus, actions: seq<Action>)
    requires cfg.limit >= 1 && Reachable(cfg, b) && NobodyAtWork(b) && CleanRun(cfg, b, actions)
    ensures
      var fresh' := Run(cfg, b, actions).delivered - b.delivered;
      AllDispatches(cfg, b, actions) <=
        Potential(cfg, b.store, b.store.pending) + cfg.limit * |fresh'| + StaleDispatches(cfg, b, actions)
    ensures Potential(cfg, b.store, b.store.pending) <= cfg.limit * |b.store.pending|
  {
    hide *;
    var c := Run(cfg, b, actions);
    var waiting, settled, new' := b.store.pending, b.delivered - b.store.pending, c.delivered - b.delivered;
    ReachableInv(cfg, b);
    PendingIsDelivered(cfg, b);
    PotentialBound(cfg, b.store, waiting);
    DeliveredStays(cfg, b, actions);
    AllAreOfDelivered(cfg, b, actions, c.delivered);
    forall d ensures TallyOf(cfg, b, actions, d).Timely() <=
        if d in waiting then Remaining(cfg, b.store, d) else if d in b.delivered then 0 else cfg.limit
    {
      MessageDispatches(cfg, b, actions, d);
    }
    DispatchesWithinPotential(cfg, b, actions, waiting);
    DispatchesEach(cfg, b, actions, settled, 0);
    DispatchesEach(cfg, b, actions, new', cfg.limit);
    assert c.delivered == waiting + (settled + new');
    DispatchesAdd(cfg, b, actions, waiting, settled + new');
    DispatchesAdd(cfg, b, actions, settled, new');
  }

  lemma PendingIsDelivered(cfg: Config, b: Bus)
    requires Inv(cfg, b)
    ensures b.store.pending <= b.delivered
  {
  }
}
