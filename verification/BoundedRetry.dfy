/** What one dispatch, left alone, does to the retry counters, the pending list and the dead letters. */
module BoundedRetry {
  import opened Wrappers
  import opened Json
  import opened Dispatch

  function Letters(letters: seq<DeadLetter>, d: Delivery): nat {
    if letters == [] then 0
    else Letters(letters[..|letters| - 1], d) + if letters[|letters| - 1].origin == d then 1 else 0
  }

  lemma LettersAppend(letters: seq<DeadLetter>, letter: DeadLetter, d: Delivery)
    ensures Letters(letters + [letter], d) == Letters(letters, d) + if letter.origin == d then 1 else 0
  {
    assert (letters + [letter])[..|letters|] == letters;
  }

  function LettersOf(s: Store, d: Delivery): nat {
    Letters(s.deadLetters, d)
  }

  /** Redis calls never fail; only handlers may. */
  ghost predicate Faultless(weather: Weather) {
    forall stage: Stage :: !stage.Handle? ==> weather(stage) == Done
  }

  /** The calls of a dispatch that threw, the handler's own failure not counted. */
  function Faults(cfg: Config, d: Delivery, stage: Stage, weather: Weather, now: int, s: Store): nat
    decreases Rank(stage)
  {
    var (t, next) := Step(cfg, d, stage, weather(stage), now, s);
    (if weather(stage) != Done && !stage.Handle? then 1 else 0) +
    (if next.Go? then Faults(cfg, d, next.stage, weather, now, t) else 0)
  }

  // ----- Isolation -----

  /** Nothing of another delivery moved: not its place on the pending list, its count, or its letters. */
  ghost predicate Untouched(s: Store, t: Store, e: Delivery) {
    && (e in t.pending <==> e in s.pending)
    && CounterAt(t, e) == CounterAt(s, e)
    && LettersOf(t, e) == LettersOf(s, e)
    && (e in t.handled <==> e in s.handled)
  }

  ghost predicate StageIsOf(d: Delivery, stage: Stage) {
    stage.AppendFailure? ==> stage.letter.origin == d
  }

  lemma CounterIsolated(s: Store, d: Delivery, c: Counter, e: Delivery)
    requires d != e
    ensures Untouched(s, SetCounter(s, d, c), e)
    ensures Untouched(s, s.(counters := s.counters - {KeyOf(d)}), e)
  {
    if KeyOf(d) == KeyOf(e) { KeyOfInjective(d, e); }
    hide KeyOf;
  }

  lemma AppendedIs(s: Store, letter: DeadLetter, e: Delivery)
    requires Letters(s.deadLetters + [letter], e) == Letters(s.deadLetters, e)
    ensures Untouched(s, Append(s, letter), e)
  {
    hide KeyOf, Letters;
  }

  lemma AppendIsolated(s: Store, letter: DeadLetter, e: Delivery)
    requires letter.origin != e
    ensures Untouched(s, Append(s, letter), e)
  {
    hide *;
    LettersAppend(s.deadLetters, letter, e);
    AppendedIs(s, letter, e);
  }

  lemma AckIsolated(s: Store, d: Delivery, e: Delivery)
    requires d != e
    ensures Untouched(s, Ack(s, d), e) && Untouched(s, s.(effects := s.effects + [d]), e) && Untouched(s, s, e)
  {
    hide KeyOf, Letters;
  }

  lemma EffectIsolates(d: Delivery, stage: Stage, now: int, s: Store, e: Delivery)
    requires e != d && StageIsOf(d, stage)
    ensures Untouched(s, Effect(d, stage, now, s), e)
  {
    hide KeyOf, SetCounter, Untouched, Ack, Append, CounterAt;
    var c := CounterAt(s, d);
    match stage
    case AppendMalformed(raw) => AppendIsolated(s, InvalidJson(d, raw, now), e);
    case AppendFailure(letter) => AppendIsolated(s, letter, e);
    case CountFailure(_) => CounterIsolated(s, d, c.(attempts := c.attempts + 1), e);
    case StampFirst(_, _, t) => CounterIsolated(s, d, if c.firstFailedAt.Some? then c else c.(firstFailedAt := Some(t)), e);
    case StampLast(_, _, t) => CounterIsolated(s, d, c.(lastFailedAt := Some(t)), e);
    case ClearCounter => CounterIsolated(s, d, c, e);
    case _ => AckIsolated(s, d, e);
  }

  lemma NextIsOf(cfg: Config, d: Delivery, stage: Stage, outcome: Outcome, now: int, s: Store)
    requires StageIsOf(d, stage)
    ensures
      var next := Step(cfg, d, stage, outcome, now, s).1;
      next.Go? ==> StageIsOf(d, next.stage)
  {
    hide KeyOf, Effect;
  }

  lemma StepIsolates(cfg: Config, d: Delivery, stage: Stage, outcome: Outcome, now: int, s: Store, e: Delivery)
    requires e != d && StageIsOf(d, stage)
    ensures
      var (t, next) := Step(cfg, d, stage, outcome, now, s);
      Untouched(s, t, e) && (next.Go? ==> StageIsOf(d, next.stage))
  {
    hide KeyOf, Effect, AfterSuccess, AfterThrow;
    NextIsOf(cfg, d, stage, outcome, now, s);
    EffectIsolates(d, stage, now, s, e);
  }

  /** A dispatch touches only its own delivery: one group's failures never advance another's count. */
  lemma {:induction false} DispatchIsolates(
    cfg: Config, d: Delivery, stage: Stage, weather: Weather, now: int, s: Store, e: Delivery)
    requires e != d && StageIsOf(d, stage)
    ensures Untouched(s, RunFrom(cfg, d, stage, weather, now, s).0, e)
    decreases Rank(stage)
  {
    hide RunFrom, KeyOf, Effect, AfterSuccess, AfterThrow;
    StepIsolates(cfg, d, stage, weather(stage), now, s, e);
    Advance(cfg, d, stage, weather, now, s);
    var (t, next) := Step(cfg, d, stage, weather(stage), now, s);
    if next.Go? { DispatchIsolates(cfg, d, next.stage, weather, now, t, e); }
  }

  // ----- One faultless dispatch -----

  lemma HandledDispatch(cfg: Config, d: Delivery, payload: Json, weather: Weather, now: int, s: Store)
    requires Faultless(weather) && weather(Handle(payload)) == Done
    ensures RunFrom(cfg, d, Handle(payload), weather, now, s) ==
      (s.(pending := s.pending - {d}, handled := s.handled + {d}, effects := s.effects + [d]), Returned)
  {
    hide RunFrom, KeyOf;
    Advance(cfg, d, Handle(payload), weather, now, s);
    var t := s.(handled := s.handled + {d}, effects := s.effects + [d]);
    Advance(cfg, d, AckHandled(payload), weather, now, t);
  }

  /** The counter after one more failure at `now`. */
  function Failed(c: Counter, now: int): Counter {
    Counter(c.attempts + 1, Some(c.firstFailedAt.GetOr(now)), Some(now))
  }

  /** Counting and stamping a failure, with no fault in between, leads to the limit decision. */
  lemma CountedFailure(cfg: Config, d: Delivery, payload: Json, weather: Weather, now: int, s: Store)
    requires Faultless(weather)
    ensures
      var c := CounterAt(s, d);
      var t := SetCounter(s, d, Failed(c, now));
      RunFrom(cfg, d, CountFailure(payload), weather, now, s) ==
      RunFrom(cfg, d, SetExpiry(payload, c.attempts + 1, now), weather, now, t)
  {
    hide RunFrom, KeyOf;
    var c := CounterAt(s, d);
    var attempts := c.attempts + 1;
    var c1 := c.(attempts := attempts);
    var s1 := SetCounter(s, d, c1);
    Advance(cfg, d, CountFailure(payload), weather, now, s);
    assert CounterAt(s1, d) == c1;
    var c2 := if c1.firstFailedAt.Some? then c1 else c1.(firstFailedAt := Some(now));
    var s2 := SetCounter(s1, d, c2);
    Advance(cfg, d, StampFirst(payload, attempts, now), weather, now, s1);
    assert CounterAt(s2, d) == c2;
    var s3 := SetCounter(s2, d, c2.(lastFailedAt := Some(now)));
    Advance(cfg, d, StampLast(payload, attempts, now), weather, now, s2);
    assert s3.counters == SetCounter(s, d, Failed(c, now)).counters;
  }

  /** Below the limit a failed message stays pending with one more attempt. */
  lemma FailureBelowLimit(cfg: Config, d: Delivery, payload: Json, weather: Weather, now: int, s: Store)
    requires Faultless(weather) && CounterAt(s, d).attempts + 1 < cfg.limit
    ensures RunFrom(cfg, d, CountFailure(payload), weather, now, s) == (SetCounter(s, d, Failed(CounterAt(s, d), now)), Returned)
  {
    CountedFailure(cfg, d, payload, weather, now, s);
    hide RunFrom, KeyOf;
    var c := CounterAt(s, d);
    Advance(cfg, d, SetExpiry(payload, c.attempts + 1, now), weather, now, SetCounter(s, d, Failed(c, now)));
  }

  /** A letter is appended, the counter cleared and the message acknowledged. */
  lemma LetterWritten(cfg: Config, d: Delivery, letter: DeadLetter, weather: Weather, now: int, s: Store)
    requires Faultless(weather)
    ensures RunFrom(cfg, d, AppendFailure(letter), weather, now, s) ==
      (s.(pending := s.pending - {d}, counters := s.counters - {KeyOf(d)}, deadLetters := s.deadLetters + [letter]), Returned)
  {
    hide RunFrom, KeyOf;
    Advance(cfg, d, AppendFailure(letter), weather, now, s);
    var u := Append(s, letter);
    Advance(cfg, d, ClearCounter, weather, now, u);
    var v := u.(counters := u.counters - {KeyOf(d)});
    Advance(cfg, d, AckDead, weather, now, v);
  }

  /** At the limit it gets its dead letter, loses its counter, and is acknowledged. */
  lemma FailureAtLimit(cfg: Config, d: Delivery, payload: Json, weather: Weather, now: int, s: Store)
    requires Faultless(weather) && CounterAt(s, d).attempts + 1 >= cfg.limit
    ensures
      var c := CounterAt(s, d);
      var letter := HandlerFailure(d, payload, c.attempts + 1, c.firstFailedAt.GetOr(now), now);
      RunFrom(cfg, d, CountFailure(payload), weather, now, s) ==
      (s.(pending := s.pending - {d}, counters := s.counters - {KeyOf(d)}, deadLetters := s.deadLetters + [letter]), Returned)
  {
    CountedFailure(cfg, d, payload, weather, now, s);
    hide RunFrom, KeyOf;
    var c := CounterAt(s, d);
    var attempts := c.attempts + 1;
    var letter := HandlerFailure(d, payload, attempts, c.firstFailedAt.GetOr(now), now);
    var t := SetCounter(s, d, Failed(c, now));
    assert CounterAt(t, d) == Failed(c, now);
    Advance(cfg, d, SetExpiry(payload, attempts, now), weather, now, t);
    Advance(cfg, d, ReadStamps(payload, attempts, now), weather, now, t);
    LetterWritten(cfg, d, letter, weather, now, t);
    assert t.counters - {KeyOf(d)} == s.counters - {KeyOf(d)};
  }

  // ----- Draining the pending list -----

  /**
   * Dispatches a pending message has left: limit minus attempts, but one when an earlier fault has left it pending with
   * its attempts used up.
   */
  function Remaining(cfg: Config, s: Store, d: Delivery): (r: int)
    ensures r >= 1
    ensures cfg.limit >= 1 ==> r <= cfg.limit
  {
    var attempts := CounterAt(s, d).attempts;
    if attempts < cfg.limit then cfg.limit - attempts else 1
  }

  /** Sum over the pending messages of the dispatches they have left. */
  ghost function Potential(cfg: Config, s: Store, pending: set<Delivery>): int
    decreases |pending|
  {
    if pending == {} then 0
    else
      var d :| d in pending;
      Remaining(cfg, s, d) + Potential(cfg, s, pending - {d})
  }

  lemma {:induction false} PotentialSplits(cfg: Config, s: Store, pending: set<Delivery>, d: Delivery)
    requires d in pending
    ensures Potential(cfg, s, pending) == Remaining(cfg, s, d) + Potential(cfg, s, pending - {d})
    decreases |pending|
  {
    var e :| e in pending && Potential(cfg, s, pending) == Remaining(cfg, s, e) + Potential(cfg, s, pending - {e});
    if e != d {
      PotentialSplits(cfg, s, pending - {e}, d);
      PotentialSplits(cfg, s, pending - {d}, e);
      assert pending - {e} - {d} == pending - {d} - {e};
    }
  }

  lemma {:induction false} PotentialFrame(cfg: Config, s: Store, t: Store, pending: set<Delivery>)
    requires forall e :: e in pending ==> CounterAt(t, e) == CounterAt(s, e)
    ensures Potential(cfg, t, pending) == Potential(cfg, s, pending)
    decreases |pending|
  {
    if pending != {} {
      var d :| d in pending;
      PotentialSplits(cfg, s, pending, d);
      PotentialSplits(cfg, t, pending, d);
      PotentialFrame(cfg, s, t, pending - {d});
    }
  }

  /** No pending message has used up its attempts. */
  ghost predicate BelowLimit(cfg: Config, s: Store) {
    forall d :: d in s.pending ==> CounterAt(s, d).attempts < cfg.limit
  }

  lemma {:induction false} PotentialBound(cfg: Config, s: Store, pending: set<Delivery>)
    ensures |pending| <= Potential(cfg, s, pending)
    ensures cfg.limit >= 1 ==> Potential(cfg, s, pending) <= cfg.limit * |pending|
    decreases |pending|
  {
    if pending != {} {
      var d :| d in pending;
      hide CounterAt, Remaining;
      PotentialSplits(cfg, s, pending, d);
      PotentialBound(cfg, s, pending - {d});
      TimesOneMore(cfg.limit, |pending| - 1);
      assert |pending - {d}| == |pending| - 1;
    }
  }

  lemma TimesOneMore(m: int, n: int)
    ensures m * (n + 1) == m * n + m
  {
  }

  /** A faultless dispatch of a pending message either removes it or uses up one of the dispatches it has left. */
  lemma OwnProgress(cfg: Config, d: Delivery, fields: seq<string>, weather: Weather, now: int, s: Store)
    requires Faultless(weather) && d in s.pending
    ensures
      var (t, next) := DispatchOne(cfg, d, fields, weather, now, s);
      && next == Returned
      && (d !in t.pending ||
          (CounterAt(t, d).attempts == CounterAt(s, d).attempts + 1 < cfg.limit
           && Remaining(cfg, t, d) == Remaining(cfg, s, d) - 1))
  {
    hide RunFrom, KeyOf, BodyOf;
    match BodyOf(fields, cfg.parse)
    case Unusable =>
      Advance(cfg, d, AckUnusable, weather, now, s);
    case Malformed(raw) =>
      Advance(cfg, d, AppendMalformed(raw), weather, now, s);
      Advance(cfg, d, AckMalformed, weather, now, Append(s, InvalidJson(d, raw, now)));
    case Usable(payload) =>
      if weather(Handle(payload)) == Done {
        HandledDispatch(cfg, d, payload, weather, now, s);
      } else {
        Advance(cfg, d, Handle(payload), weather, now, s);
        var t := if weather(Handle(payload)) == Lost then s else s.(effects := s.effects + [d]);
        if CounterAt(t, d).attempts + 1 < cfg.limit {
          FailureBelowLimit(cfg, d, payload, weather, now, t);
        } else {
          FailureAtLimit(cfg, d, payload, weather, now, t);
        }
      }
  }

  /** Every faultless dispatch lowers the potential, whatever its handler does. */
  lemma PotentialFalls(cfg: Config, d: Delivery, fields: seq<string>, weather: Weather, now: int, s: Store)
    requires Faultless(weather) && d in s.pending
    ensures
      var t := DispatchOne(cfg, d, fields, weather, now, s).0;
      && (BelowLimit(cfg, s) ==> BelowLimit(cfg, t))
      && t.pending <= s.pending
      && Potential(cfg, t, t.pending) < Potential(cfg, s, s.pending)
  {
    OwnProgress(cfg, d, fields, weather, now, s);
    hide RunFrom, KeyOf, BodyOf, CounterAt, Remaining;
    var t := DispatchOne(cfg, d, fields, weather, now, s).0;
    forall e | e != d ensures Untouched(s, t, e) {
      DispatchIsolates(cfg, d, FirstStage(BodyOf(fields, cfg.parse)), weather, now, s, e);
    }
    hide Untouched, DispatchOne;
    var rest := s.pending - {d};
    PotentialSplits(cfg, s, s.pending, d);
    forall e | e != d ensures e in t.pending <==> e in s.pending { UntouchedPending(s, t, e); }
    OthersKeepPotential(cfg, s, t, rest);
    assert forall e :: e in rest ==> e in t.pending;
    if d in t.pending {
      assert t.pending == s.pending;
      PotentialSplits(cfg, t, t.pending, d);
    } else {
      assert t.pending == rest;
    }
    if BelowLimit(cfg, s) {
      forall e | e in t.pending ensures CounterAt(t, e).attempts < cfg.limit { if e != d { UntouchedPending(s, t, e); } }
    }
  }

  lemma UntouchedPending(s: Store, t: Store, e: Delivery)
    requires Untouched(s, t, e)
    ensures e in t.pending <==> e in s.pending
    ensures CounterAt(t, e) == CounterAt(s, e)
  {
  }

  lemma OthersKeepPotential(cfg: Config, s: Store, t: Store, rest: set<Delivery>)
    requires rest <= s.pending
    requires forall e :: e in rest ==> Untouched(s, t, e)
    ensures rest <= t.pending
    ensures Potential(cfg, t, rest) == Potential(cfg, s, rest)
  {
    hide CounterAt, LettersOf;
    forall e | e in rest ensures e in t.pending && CounterAt(t, e) == CounterAt(s, e) { assert Untouched(s, t, e); }
    PotentialFrame(cfg, s, t, rest);
  }

  // ----- Records under faults -----

  /** The dead letter of this dispatch is already written. */
  predicate AfterLetter(stage: Stage) {
    stage.AckMalformed? || stage.ClearCounter? || stage.AckDead?
  }

  /** A dispatch that writes a letter and leaves its message pending has met a fault after writing it. */
  lemma {:induction false} LettersCostFaults(cfg: Config, d: Delivery, stage: Stage, weather: Weather, now: int, s: Store)
    requires StageIsOf(d, stage)
    ensures
      var t := RunFrom(cfg, d, stage, weather, now, s).0;
      var faults := Faults(cfg, d, stage, weather, now, s);
      && LettersOf(s, d) <= LettersOf(t, d) <= LettersOf(s, d) + (if AfterLetter(stage) then 0 else 1)
      && (d in t.pending && (AfterLetter(stage) || LettersOf(t, d) > LettersOf(s, d)) ==> faults >= 1)
      && (d in t.pending ==> d in s.pending)
    decreases Rank(stage)
  {
    hide RunFrom, KeyOf, LettersOf, AfterSuccess, AfterThrow, Effect;
    Advance(cfg, d, stage, weather, now, s);
    StepCost(cfg, d, stage, weather(stage), now, s);
    var (t, next) := Step(cfg, d, stage, weather(stage), now, s);
    if next.Go? { LettersCostFaults(cfg, d, next.stage, weather, now, t); }
  }

  /** The letters one call writes, and what it takes to stay pending after them. */
  lemma StepCost(cfg: Config, d: Delivery, stage: Stage, outcome: Outcome, now: int, s: Store)
    requires StageIsOf(d, stage)
    ensures
      var (t, next) := Step(cfg, d, stage, outcome, now, s);
      && (next.Go? ==> StageIsOf(d, next.stage))
      && (d in t.pending ==> d in s.pending)
      && (AfterLetter(stage) ==>
            LettersOf(t, d) == LettersOf(s, d) && (if next.Go? then AfterLetter(next.stage) else d in t.pending ==> outcome != Done))
      && (!AfterLetter(stage) ==>
            || (LettersOf(t, d) == LettersOf(s, d) && (next.Go? ==> !AfterLetter(next.stage)))
            || (LettersOf(t, d) == LettersOf(s, d) + 1 && if next.Go? then AfterLetter(next.stage) else outcome != Done && !stage.Handle?))
  {
    hide *;
    NextCost(cfg, d, stage, outcome, now, s);
    StoreCost(cfg, d, stage, outcome, now, s);
  }

  /** The stages that follow a call, as far as letters go. */
  lemma NextCost(cfg: Config, d: Delivery, stage: Stage, outcome: Outcome, now: int, s: Store)
    requires StageIsOf(d, stage)
    ensures
      var next := Step(cfg, d, stage, outcome, now, s).1;
      && (next.Go? ==> StageIsOf(d, next.stage))
      && (next.Go? ==> (AfterLetter(next.stage) <==> AfterLetter(stage) || (Appends(stage) && outcome == Done)))
      && (!next.Go? && (Appends(stage) || stage.ClearCounter?) ==> outcome != Done)
      && (AfterLetter(stage) ==> !Appends(stage) && (Acks(stage) || stage.ClearCounter?))
      && (Appends(stage) ==> !stage.Handle? && (next.Go? ==> outcome == Done))
  {
    hide Effect, KeyOf;
  }

  /** A stage whose call acknowledges. */
  predicate Acks(stage: Stage) {
    stage.AckUnusable? || stage.AckMalformed? || stage.AckHandled? || stage.AckDead?
  }

  /** What a call does to the letters and to the message's place on the pending list. */
  lemma StoreCost(cfg: Config, d: Delivery, stage: Stage, outcome: Outcome, now: int, s: Store)
    requires StageIsOf(d, stage)
    ensures
      var t := Step(cfg, d, stage, outcome, now, s).0;
      && LettersOf(t, d) == LettersOf(s, d) + (if Appends(stage) && outcome != Lost then 1 else 0)
      && (d in t.pending ==> d in s.pending)
      && (Acks(stage) && outcome == Done ==> d !in t.pending)
  {
    EffectCost(d, stage, now, s);
    hide Effect, LettersOf, KeyOf, AfterSuccess, AfterThrow;
  }

  /** A stage whose call writes a letter. */
  predicate Appends(stage: Stage) {
    stage.AppendMalformed? || stage.AppendFailure?
  }

  lemma AppendGrows(s: Store, letter: DeadLetter, d: Delivery)
    requires letter.origin == d
    ensures LettersOf(Append(s, letter), d) == LettersOf(s, d) + 1
  {
    LettersAppend(s.deadLetters, letter, d);
  }

  lemma LettersSame(s: Store, t: Store, d: Delivery)
    requires s.deadLetters == t.deadLetters
    ensures LettersOf(t, d) == LettersOf(s, d)
  {
  }

  lemma EffectCost(d: Delivery, stage: Stage, now: int, s: Store)
    requires StageIsOf(d, stage)
    ensures
      var t := Effect(d, stage, now, s);
      && LettersOf(t, d) == LettersOf(s, d) + (if Appends(stage) then 1 else 0)
      && LettersOf(t.(handled := t.handled + {d}), d) == LettersOf(t, d)
      && (d in t.pending <==> d in s.pending && !Acks(stage))
  {
    hide KeyOf, SetCounter, LettersOf, CounterAt;
    var t := Effect(d, stage, now, s);
    CountersOnly(s, d);
    LettersSame(t, t.(handled := t.handled + {d}), d);
    match stage
    case AppendMalformed(raw) => AppendGrows(s, InvalidJson(d, raw, now), d);
    case AppendFailure(letter) => AppendGrows(s, letter, d);
    case _ => LettersSame(s, t, d);
  }

  lemma CountersOnly(s: Store, d: Delivery)
    ensures forall c :: SetCounter(s, d, c).deadLetters == s.deadLetters && SetCounter(s, d, c).pending == s.pending
  {
  }
}
