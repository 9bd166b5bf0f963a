/** `sampler.service.ts`: at most one position per vessel and window, unless its navigation status changes. */
module Sampler {
  import opened Wrappers
  import opened Contracts

  /** Windows in milliseconds; speeds are scaled integers. The configuration demands positive windows. */
  datatype Config = Config(movingWindowMs: int, stationaryWindowMs: int, stationarySogThreshold: int) {
    ghost predicate Valid() { movingWindowMs > 0 && stationaryWindowMs > 0 }

    function SmallerWindow(): int {
      if movingWindowMs < stationaryWindowMs then movingWindowMs else stationaryWindowMs
    }

    function LargerWindow(): int {
      if movingWindowMs < stationaryWindowMs then stationaryWindowMs else movingWindowMs
    }
  }

  /** A stored time is any string; one that is not a date parses to no instant, and no elapsed time compares with it. */
  datatype SamplerState = SamplerState(lastEmittedAt: Option<int>, lastNavStatus: Option<int>)

  /** A field of the stored JSON object. */
  datatype Field<T> = Missing | Null | Other | Typed(value: T)

  /** The stored text: nothing that parses, or an object. */
  datatype Raw = Unparseable | Object(lastEmittedAt: Field<Option<int>>, lastNavStatus: Field<int>)

  type States = map<string, Raw>

  function ParseState(raw: Option<Raw>): Option<SamplerState> {
    match raw
    case None => None
    case Some(Unparseable) => None
    case Some(Object(lastEmittedAt, lastNavStatus)) =>
      if !lastEmittedAt.Typed? then None
      else Some(SamplerState(lastEmittedAt.value, if lastNavStatus.Typed? then Some(lastNavStatus.value) else None))
  }

  function Written(s: SamplerState): Raw {
    Object(Typed(s.lastEmittedAt), if s.lastNavStatus.Some? then Typed(s.lastNavStatus.value) else Null)
  }

  function StateOf(states: States, mmsi: string): Option<SamplerState> {
    ParseState(if mmsi in states then Some(states[mmsi]) else None)
  }

  /**
   * A vessel has a state exactly when an object is stored for it whose time is a string; any other status than a number
   * is read as none, and what was written is read back.
   */
  lemma StoredState(states: States, mmsi: string, s: SamplerState)
    ensures StateOf(states, mmsi).Some? <==> mmsi in states && states[mmsi].Object? && states[mmsi].lastEmittedAt.Typed?
    ensures StateOf(states, mmsi).Some? ==>
      && StateOf(states, mmsi).value.lastEmittedAt == states[mmsi].lastEmittedAt.value
      && StateOf(states, mmsi).value.lastNavStatus ==
           if states[mmsi].lastNavStatus.Typed? then Some(states[mmsi].lastNavStatus.value) else None
    ensures StateOf(states[mmsi := Written(s)], mmsi) == Some(s)
  {
  }

  /** Why an event is emitted, or that it is not. */
  datatype Reason = First | Bypass | Window | Suppressed

  function WindowFor(config: Config, event: PositionEvent): int {
    if event.fix.sog.GetOr(0) < config.stationarySogThreshold then config.stationaryWindowMs else config.movingWindowMs
  }

  function Decide(config: Config, state: Option<SamplerState>, event: PositionEvent): Reason {
    if state.None? then First
    else if event.fix.navStatus.Some? && event.fix.navStatus != state.value.lastNavStatus then Bypass
    else if state.value.lastEmittedAt.Some? && event.occurredAt - state.value.lastEmittedAt.value >= WindowFor(config, event) then Window
    else Suppressed
  }

  function After(config: Config, states: States, event: PositionEvent): States {
    if Decide(config, StateOf(states, event.mmsi), event) == Suppressed then states
    else states[event.mmsi := Written(SamplerState(Some(event.occurredAt), event.fix.navStatus))]
  }

  class SamplerService {
    const config: Config
    var states: States

    constructor (config: Config)
      ensures this.config == config && states == map[]
    {
      this.config, states := config, map[];
    }

    method ShouldEmit(event: PositionEvent) returns (emit: bool)
      modifies this
      ensures states == After(config, old(states), event)
      ensures emit <==> Decide(config, StateOf(old(states), event.mmsi), event) != Suppressed
      ensures emit ==> StateOf(states, event.mmsi) == Some(SamplerState(Some(event.occurredAt), event.fix.navStatus))
      ensures !emit ==> states == old(states)
      ensures forall m :: m != event.mmsi ==> StateOf(states, m) == StateOf(old(states), m)
    {
      var raw := if event.mmsi in states then Some(states[event.mmsi]) else None;
      var navStatus := event.fix.navStatus;
      var state := ParseState(raw);
      if state.None? {
        states := states[event.mmsi := Written(SamplerState(Some(event.occurredAt), navStatus))];
        return true;
      }
      if navStatus != None && navStatus != state.value.lastNavStatus {
        states := states[event.mmsi := Written(SamplerState(Some(event.occurredAt), navStatus))];
        return true;
      }
      var windowMs := if event.fix.sog.GetOr(0) < config.stationarySogThreshold then config.stationaryWindowMs else config.movingWindowMs;
      if state.value.lastEmittedAt.Some? && event.occurredAt - state.value.lastEmittedAt.value >= windowMs {
        states := states[event.mmsi := Written(SamplerState(Some(event.occurredAt), navStatus))];
        return true;
      }
      return false;
    }
  }

  // ----- Runs over the events of many vessels -----

  datatype Emission = Emission(event: PositionEvent, reason: Reason)

  function Emitted(config: Config, states: States, events: seq<PositionEvent>): seq<Emission>
    decreases |events|
  {
    if events == [] then []
    else
      var reason := Decide(config, StateOf(states, events[0].mmsi), events[0]);
      (if reason == Suppressed then [] else [Emission(events[0], reason)])
      + Emitted(config, After(config, states, events[0]), events[1..])
  }

  function OfVessel(events: seq<PositionEvent>, mmsi: string): seq<PositionEvent> {
    if events == [] then []
    else (if events[0].mmsi == mmsi then [events[0]] else []) + OfVessel(events[1..], mmsi)
  }

  function EmittedFor(emissions: seq<Emission>, mmsi: string): seq<Emission> {
    if emissions == [] then []
    else (if emissions[0].event.mmsi == mmsi then [emissions[0]] else []) + EmittedFor(emissions[1..], mmsi)
  }

  lemma EmittedForSplits(a: seq<Emission>, b: seq<Emission>, mmsi: string)
    requires |a| <= 1
    ensures EmittedFor(a + b, mmsi) == EmittedFor(a, mmsi) + EmittedFor(b, mmsi)
  {
    if a == [] {
      assert a + b == b;
    } else {
      assert (a + b)[1..] == b;
      assert a[1..] == [];
    }
  }

  /** What is emitted of a vessel depends on its own events and its own state alone. */
  lemma {:induction false} VesselsDoNotInterfere(
    config: Config, states: States, alone: States, events: seq<PositionEvent>, mmsi: string)
    requires StateOf(states, mmsi) == StateOf(alone, mmsi)
    ensures EmittedFor(Emitted(config, states, events), mmsi) == Emitted(config, alone, OfVessel(events, mmsi))
    decreases |events|
  {
    if events != [] {
      var e, rest := events[0], Emitted(config, After(config, states, events[0]), events[1..]);
      var reason := Decide(config, StateOf(states, e.mmsi), e);
      var head := if reason == Suppressed then [] else [Emission(e, reason)];
      EmittedUnrolls(config, states, events);
      EmittedForSplits(head, rest, mmsi);
      assert EmittedFor(head, mmsi) == if e.mmsi == mmsi then head else [] by { assert head != [] ==> head[1..] == []; }
      StateAfter(config, states, e);
      StateAfter(config, alone, e);
      if e.mmsi == mmsi {
        VesselsDoNotInterfere(config, After(config, states, e), After(config, alone, e), events[1..], mmsi);
        var own := OfVessel(events, mmsi);
        assert own[0] == e && own[1..] == OfVessel(events[1..], mmsi);
        EmittedUnrolls(config, alone, own);
        hide Emitted, Decide, After, StateOf;
        assert EmittedFor(head + rest, mmsi) == head + EmittedFor(rest, mmsi);
      } else {
        StateOfOthers(config, states, e, mmsi);
        assert OfVessel(events, mmsi) == OfVessel(events[1..], mmsi);
        hide Emitted, Decide, After, StateOf;
        assert EmittedFor(head + rest, mmsi) == EmittedFor(rest, mmsi);
        VesselsDoNotInterfere(config, After(config, states, e), alone, events[1..], mmsi);
      }
    }
  }

  // ----- The rate bound -----

  function Count(emissions: seq<Emission>, reason: Reason): nat {
    if emissions == [] then 0 else (if emissions[0].reason == reason then 1 else 0) + Count(emissions[1..], reason)
  }

  ghost predicate InOrder(events: seq<PositionEvent>) {
    forall i, j :: 0 <= i < j < |events| ==> events[i].occurredAt <= events[j].occurredAt
  }

  ghost predicate AllOf(events: seq<PositionEvent>, mmsi: string) {
    forall e :: e in events ==> e.mmsi == mmsi
  }

  /** The last emission's time, or `start` when there is none. */
  function LastEmittedAt(emissions: seq<Emission>, start: int): int {
    if emissions == [] then start else emissions[|emissions| - 1].event.occurredAt
  }

  lemma StateAfter(config: Config, states: States, e: PositionEvent)
    ensures StateOf(After(config, states, e), e.mmsi) ==
      if Decide(config, StateOf(states, e.mmsi), e) == Suppressed then StateOf(states, e.mmsi)
      else Some(SamplerState(Some(e.occurredAt), e.fix.navStatus))
  {
  }

  lemma StateOfOthers(config: Config, states: States, e: PositionEvent, mmsi: string)
    requires e.mmsi != mmsi
    ensures StateOf(After(config, states, e), mmsi) == StateOf(states, mmsi)
  {
  }

  /** One vessel's events in time order, none before its last emission. */
  ghost predicate Continues(states: States, events: seq<PositionEvent>, mmsi: string) {
    && AllOf(events, mmsi)
    && InOrder(events)
    && StateOf(states, mmsi).Some? && StateOf(states, mmsi).value.lastEmittedAt.Some?
    && forall e :: e in events ==> StateOf(states, mmsi).value.lastEmittedAt.value <= e.occurredAt
  }

  lemma ContinuesStep(config: Config, states: States, events: seq<PositionEvent>, mmsi: string)
    requires AllOf(events, mmsi) && InOrder(events) && events != []
    requires Continues(states, events, mmsi) || Decide(config, StateOf(states, mmsi), events[0]) != Suppressed
    ensures Continues(After(config, states, events[0]), events[1..], mmsi)
  {
    assert events[0] in events;
    StateAfter(config, states, events[0]);
    hide Decide, After, StateOf;
    forall e | e in events[1..] ensures e in events && events[0].occurredAt <= e.occurredAt {
      var i :| 0 <= i < |events[1..]| && events[1..][i] == e;
      assert events[i + 1] == e;
    }
  }

  /** Once a vessel has a state, window emissions are a window apart and everything else emitted is a bypass. */
  lemma {:induction false} WindowsAreApart(config: Config, states: States, events: seq<PositionEvent>, mmsi: string)
    requires config.Valid() && Continues(states, events, mmsi)
    ensures var start, out := StateOf(states, mmsi).value.lastEmittedAt.value, Emitted(config, states, events);
      && |out| == Count(out, Bypass) + Count(out, Window)
      && start + Count(out, Window) * config.SmallerWindow() <= LastEmittedAt(out, start)
    decreases |events|
  {
    if events != [] {
      var e, state := events[0], StateOf(states, mmsi).value;
      assert e in events && e.mmsi == mmsi;
      ContinuesStep(config, states, events, mmsi);
      WindowsAreApart(config, After(config, states, e), events[1..], mmsi);
      var rest := Emitted(config, After(config, states, e), events[1..]);
      EmittedUnrolls(config, states, events);
      StateAfter(config, states, e);
      hide Emitted, After, StateOf, Continues;
      WindowStep(config, state, e, rest);
    }
  }

  /** One more event in front of the emissions that follow it. */
  lemma WindowStep(config: Config, state: SamplerState, e: PositionEvent, rest: seq<Emission>)
    requires config.Valid() && state.lastEmittedAt.Some? && state.lastEmittedAt.value <= e.occurredAt
    requires |rest| == Count(rest, Bypass) + Count(rest, Window)
    requires
      var start := if Decide(config, Some(state), e) == Suppressed then state.lastEmittedAt.value else e.occurredAt;
      start + Count(rest, Window) * config.SmallerWindow() <= LastEmittedAt(rest, start)
    ensures
      var reason, start := Decide(config, Some(state), e), state.lastEmittedAt.value;
      var out := (if reason == Suppressed then [] else [Emission(e, reason)]) + rest;
      && |out| == Count(out, Bypass) + Count(out, Window)
      && start + Count(out, Window) * config.SmallerWindow() <= LastEmittedAt(out, start)
  {
    var reason, step, n := Decide(config, Some(state), e), config.SmallerWindow(), Count(rest, Window);
    if reason == Suppressed {
      assert [] + rest == rest;
    } else {
      var out := [Emission(e, reason)] + rest;
      assert out[1..] == rest;
      assert LastEmittedAt(out, state.lastEmittedAt.value) == LastEmittedAt(rest, e.occurredAt);
      assert reason == Window ==> e.occurredAt - state.lastEmittedAt.value >= step;
      hide Decide;
      assert (n + 1) * step == n * step + step;
    }
  }

  lemma EmittedUnrolls(config: Config, states: States, events: seq<PositionEvent>)
    requires events != []
    ensures var reason := Decide(config, StateOf(states, events[0].mmsi), events[0]);
      Emitted(config, states, events) ==
        (if reason == Suppressed then [] else [Emission(events[0], reason)]) + Emitted(config, After(config, states, events[0]), events[1..])
  {
  }

  lemma CountUnrolls(emissions: seq<Emission>, reason: Reason)
    requires emissions != []
    ensures Count(emissions, reason) == (if emissions[0].reason == reason then 1 else 0) + Count(emissions[1..], reason)
  {
  }

  lemma NonPositiveProduct(k: int, window: int)
    requires k <= 0 < window
    ensures k * window <= 0
  {
  }

  lemma AtMostQuotient(n: nat, window: int, total: int)
    requires window > 0 && n * window <= total
    ensures n <= total / window
  {
    var q := total / window;
    assert (q + 1 - n) * window == q * window + window - n * window;
    if q + 1 - n <= 0 { NonPositiveProduct(q + 1 - n, window); }
  }

  ghost predicate RateBounded(config: Config, out: seq<Emission>)
    requires config.Valid()
  {
    out != [] ==>
      |out| <= 1 + Count(out, Bypass)
               + (out[|out| - 1].event.occurredAt - out[0].event.occurredAt) / config.SmallerWindow()
  }

  /** A first emission and then window emissions that are a window apart. */
  lemma BoundFromFirst(config: Config, first: Emission, rest: seq<Emission>)
    requires config.Valid()
    requires |rest| == Count(rest, Bypass) + Count(rest, Window)
    requires first.event.occurredAt + Count(rest, Window) * config.SmallerWindow() <= LastEmittedAt(rest, first.event.occurredAt)
    ensures RateBounded(config, [first] + rest)
  {
    var out := [first] + rest;
    assert out[1..] == rest;
    assert LastEmittedAt(rest, first.event.occurredAt) == out[|out| - 1].event.occurredAt;
    AtMostQuotient(Count(rest, Window), config.SmallerWindow(), out[|out| - 1].event.occurredAt - first.event.occurredAt);
  }

  lemma {:induction false} VesselRateBound(config: Config, states: States, events: seq<PositionEvent>, mmsi: string)
    requires config.Valid() && AllOf(events, mmsi) && InOrder(events)
    ensures RateBounded(config, Emitted(config, states, events))
    decreases |events|
  {
    if events != [] {
      var e := events[0];
      assert e in events;
      EmittedUnrolls(config, states, events);
      var reason, rest := Decide(config, StateOf(states, mmsi), e), Emitted(config, After(config, states, e), events[1..]);
      if reason == Suppressed {
        assert [] + rest == rest;
        VesselRateBound(config, After(config, states, e), events[1..], mmsi);
      } else {
        ContinuesStep(config, states, events, mmsi);
        WindowsAreApart(config, After(config, states, e), events[1..], mmsi);
        StateAfter(config, states, e);
        hide Emitted, After, StateOf, Continues, RateBounded;
        BoundFromFirst(config, Emission(e, reason), rest);
      }
    }
  }

  /**
   * However the events of vessels interleave, and whatever the store held: when the events of one vessel come in time
   * order, it is emitted at most once, plus its bypasses, plus once per smaller window between its first and last.
   */
  lemma RateBound(config: Config, states: States, events: seq<PositionEvent>, mmsi: string)
    requires config.Valid() && InOrder(OfVessel(events, mmsi))
    ensures RateBounded(config, EmittedFor(Emitted(config, states, events), mmsi))
  {
    hide *;
    VesselsDoNotInterfere(config, states, states, events, mmsi);
    OfVesselIsOf(events, mmsi);
    VesselRateBound(config, states, OfVessel(events, mmsi), mmsi);
  }

  lemma {:induction false} OfVesselIsOf(events: seq<PositionEvent>, mmsi: string)
    ensures AllOf(OfVessel(events, mmsi), mmsi)
  {
    if events != [] { OfVesselIsOf(events[1..], mmsi); }
  }

  // ----- Neither too soon for its speed nor too late -----

  /**
   * A window emission is its own window after the emission at `before`: the stationary one when the speed is below the
   * threshold, a missing speed counting as none, and the moving one otherwise.
   */
  ghost predicate GapFits(config: Config, before: Option<int>, m: Emission) {
    m.reason == Window ==>
      && before.Some?
      && m.event.occurredAt - before.value >=
           if (if m.event.fix.sog.Some? then m.event.fix.sog.value else 0) < config.stationarySogThreshold
           then config.stationaryWindowMs else config.movingWindowMs
  }

  ghost predicate GapsFit(config: Config, before: Option<int>, out: seq<Emission>)
    decreases |out|
  {
    out != [] ==> GapFits(config, before, out[0]) && GapsFit(config, Some(out[0].event.occurredAt), out[1..])
  }

  /** The time that the stored state holds, if any. */
  function StoredTime(states: States, mmsi: string): Option<int> {
    if StateOf(states, mmsi).Some? then StateOf(states, mmsi).value.lastEmittedAt else None
  }

  lemma {:induction false} GapsFitSpeed(config: Config, states: States, events: seq<PositionEvent>, mmsi: string)
    requires AllOf(events, mmsi)
    ensures GapsFit(config, StoredTime(states, mmsi), Emitted(config, states, events))
    decreases |events|
  {
    if events != [] {
      var e := events[0];
      assert e in events;
      StateAfter(config, states, e);
      EmittedUnrolls(config, states, events);
      GapsFitSpeed(config, After(config, states, e), events[1..], mmsi);
      var out, rest := Emitted(config, states, events), Emitted(config, After(config, states, e), events[1..]);
      var reason := Decide(config, StateOf(states, mmsi), e);
      assert reason != Suppressed ==> GapFits(config, StoredTime(states, mmsi), Emission(e, reason));
      hide Emitted, After, StateOf, Decide, GapFits;
      if reason == Suppressed {
        assert out == rest;
      } else {
        assert out[1..] == rest;
      }
    }
  }

  /** Consecutive emissions of a vessel are a window of its speed apart, unless the later one is a bypass. */
  lemma WindowsFitSpeed(config: Config, states: States, events: seq<PositionEvent>, mmsi: string)
    ensures GapsFit(config, StoredTime(states, mmsi), EmittedFor(Emitted(config, states, events), mmsi))
  {
    hide *;
    VesselsDoNotInterfere(config, states, states, events, mmsi);
    OfVesselIsOf(events, mmsi);
    GapsFitSpeed(config, states, OfVessel(events, mmsi), mmsi);
  }

  /** The stored state is absent or holds a date. */
  ghost predicate StoresDate(states: States, mmsi: string) {
    StateOf(states, mmsi).Some? ==> StateOf(states, mmsi).value.lastEmittedAt.Some?
  }

  lemma {:induction false} VesselIsNeverStale(config: Config, states: States, events: seq<PositionEvent>, mmsi: string)
    requires config.Valid() && AllOf(events, mmsi) && events != [] && StoresDate(states, mmsi)
    ensures
      var out := Emitted(config, states, events);
      && (StateOf(states, mmsi).Some? || out != [])
      && events[|events| - 1].occurredAt - LastEmittedAt(out, StoredTime(states, mmsi).GetOr(0)) < config.LargerWindow()
    decreases |events|
  {
    var e, rest := events[0], Emitted(config, After(config, states, events[0]), events[1..]);
    assert e in events;
    var reason := Decide(config, StateOf(states, mmsi), e);
    var head := if reason == Suppressed then [] else [Emission(e, reason)];
    StateAfter(config, states, e);
    EmittedUnrolls(config, states, events);
    assert reason == Suppressed ==> e.occurredAt - StoredTime(states, mmsi).GetOr(0) < config.LargerWindow();
    if |events| == 1 {
      assert events[1..] == [];
      assert rest == [];
      assert head + rest == head;
    } else {
      VesselIsNeverStale(config, After(config, states, e), events[1..], mmsi);
      hide Emitted, After, StateOf, Decide;
      assert events[1..][|events[1..]| - 1] == events[|events| - 1];
      assert rest == [] ==> head + rest == head;
    }
  }

  /** Unless a time that is not a date was stored, a vessel's last emission is less than the larger window older than its last event. */
  lemma NeverStale(config: Config, states: States, events: seq<PositionEvent>, mmsi: string)
    requires config.Valid() && OfVessel(events, mmsi) != [] && StoresDate(states, mmsi)
    ensures
      var own, out := OfVessel(events, mmsi), EmittedFor(Emitted(config, states, events), mmsi);
      && (StateOf(states, mmsi).Some? || out != [])
      && own[|own| - 1].occurredAt - LastEmittedAt(out, StoredTime(states, mmsi).GetOr(0)) < config.LargerWindow()
  {
    hide *;
    VesselsDoNotInterfere(config, states, states, events, mmsi);
    OfVesselIsOf(events, mmsi);
    VesselIsNeverStale(config, states, OfVessel(events, mmsi), mmsi);
  }

  /** A stored time that is no date silences a vessel until its status is known and differs from the stored one, exactly. */
  lemma {:induction false} VesselIsSilent(config: Config, states: States, events: seq<PositionEvent>, mmsi: string)
    requires AllOf(events, mmsi) && StateOf(states, mmsi).Some? && !StoresDate(states, mmsi)
    ensures Emitted(config, states, events) == [] <==>
      forall e :: e in events ==> e.fix.navStatus.None? || e.fix.navStatus == StateOf(states, mmsi).value.lastNavStatus
    decreases |events|
  {
    if events != [] {
      var e := events[0];
      assert e in events;
      EmittedUnrolls(config, states, events);
      if Decide(config, StateOf(states, mmsi), e) == Suppressed {
        VesselIsSilent(config, states, events[1..], mmsi);
        assert events == [e] + events[1..];
      }
    }
  }

  lemma UnparsableTimeSilences(config: Config, states: States, events: seq<PositionEvent>, mmsi: string)
    requires StateOf(states, mmsi).Some? && !StoresDate(states, mmsi)
    ensures EmittedFor(Emitted(config, states, events), mmsi) == [] <==>
      forall e :: e in OfVessel(events, mmsi) ==>
        e.fix.navStatus.None? || e.fix.navStatus == StateOf(states, mmsi).value.lastNavStatus
  {
    hide *;
    VesselsDoNotInterfere(config, states, states, events, mmsi);
    OfVesselIsOf(events, mmsi);
    VesselIsSilent(config, states, OfVessel(events, mmsi), mmsi);
  }

  // ----- What a bypass is -----

  function RunStates(config: Config, states: States, events: seq<PositionEvent>): States
    decreases |events|
  {
    if events == [] then states else RunStates(config, After(config, states, events[0]), events[1..])
  }

  /** The state that an emission leaves behind, or the one there was. */
  function LastState(out: seq<Emission>, before: Option<SamplerState>): Option<SamplerState> {
    if out == [] then before
    else
      var e := out[|out| - 1].event;
      Some(SamplerState(Some(e.occurredAt), e.fix.navStatus))
  }

  /** After any run the state of a vessel is its last emission, or what it was. */
  lemma {:induction false} StateIsLastEmission(config: Config, states: States, events: seq<PositionEvent>, mmsi: string)
    ensures StateOf(RunStates(config, states, events), mmsi) ==
      LastState(EmittedFor(Emitted(config, states, events), mmsi), StateOf(states, mmsi))
    decreases |events|
  {
    if events != [] {
      var e, rest := events[0], Emitted(config, After(config, states, events[0]), events[1..]);
      var reason := Decide(config, StateOf(states, e.mmsi), e);
      var head := if reason == Suppressed then [] else [Emission(e, reason)];
      EmittedUnrolls(config, states, events);
      EmittedForSplits(head, rest, mmsi);
      assert EmittedFor(head, mmsi) == if e.mmsi == mmsi then head else [] by { assert head != [] ==> head[1..] == []; }
      StateAfter(config, states, e);
      if e.mmsi != mmsi { StateOfOthers(config, states, e, mmsi); }
      StateIsLastEmission(config, After(config, states, e), events[1..], mmsi);
      hide Emitted, Decide, After, StateOf;
      var own := EmittedFor(rest, mmsi);
      assert EmittedFor(head + rest, mmsi) == (if e.mmsi == mmsi then head else []) + own;
      assert own == [] ==> head + own == head;
      assert [] + own == own;
    }
  }

  /**
   * After any run, the next event of a vessel is the first of it exactly when nothing is stored and nothing was
   * emitted; otherwise it bypasses the window exactly when its status is known and is not the one that the vessel's
   * previous emission carried, which may be none.
   */
  lemma BypassesAreChanges(config: Config, states: States, events: seq<PositionEvent>, e: PositionEvent)
    ensures
      var out := EmittedFor(Emitted(config, states, events), e.mmsi);
      var stored := StateOf(states, e.mmsi);
      var reason := Decide(config, StateOf(RunStates(config, states, events), e.mmsi), e);
      && (reason == First <==> out == [] && stored.None?)
      && (reason == Bypass <==>
            && (out != [] || stored.Some?)
            && e.fix.navStatus.Some?
            && e.fix.navStatus != (if out != [] then out[|out| - 1].event.fix.navStatus else stored.value.lastNavStatus))
  {
    StateIsLastEmission(config, states, events, e.mmsi);
  }

  lemma {:induction false} EmittedSnoc(config: Config, states: States, events: seq<PositionEvent>, e: PositionEvent)
    ensures
      var reason := Decide(config, StateOf(RunStates(config, states, events), e.mmsi), e);
      Emitted(config, states, events + [e]) ==
        Emitted(config, states, events) + if reason == Suppressed then [] else [Emission(e, reason)]
    decreases |events|
  {
    var all := events + [e];
    EmittedUnrolls(config, states, all);
    if events == [] {
      assert all[1..] == [];
    } else {
      EmittedUnrolls(config, states, events);
      assert all[1..] == events[1..] + [e];
      EmittedSnoc(config, After(config, states, events[0]), events[1..], e);
      hide Emitted, Decide, After, StateOf;
    }
  }

  /**
   * After any run, the next event of a vessel is suppressed exactly when the vessel was heard of before, its status is
   * unknown or the one last emitted, and its time is no date's distance or less than its own window after the emission
   * before it: the stationary window when its speed is below the threshold, a missing speed counting as none, and the
   * moving window otherwise. When it is emitted, the reason is the first of those conditions that failed.
   */
  lemma EmittedExactly(config: Config, states: States, events: seq<PositionEvent>, e: PositionEvent)
    ensures
      var before, stored := EmittedFor(Emitted(config, states, events), e.mmsi), StateOf(states, e.mmsi);
      var known := before != [] || stored.Some?;
      var status :=
        if before != [] then before[|before| - 1].event.fix.navStatus
        else if stored.Some? then stored.value.lastNavStatus else None;
      var time :=
        if before != [] then Some(before[|before| - 1].event.occurredAt)
        else if stored.Some? then stored.value.lastEmittedAt else None;
      var speed := if e.fix.sog.Some? then e.fix.sog.value else 0;
      var window := if speed < config.stationarySogThreshold then config.stationaryWindowMs else config.movingWindowMs;
      var changed := e.fix.navStatus.Some? && e.fix.navStatus != status;
      Emitted(config, states, events + [e]) == Emitted(config, states, events) +
        if !known then [Emission(e, First)]
        else if changed then [Emission(e, Bypass)]
        else if time.Some? && e.occurredAt - time.value >= window then [Emission(e, Window)]
        else []
  {
    EmittedSnoc(config, states, events, e);
    StateIsLastEmission(config, states, events, e.mmsi);
    hide Emitted, EmittedFor, RunStates, StateOf;
  }

  /** An event without a status that is emitted clears the stored one, so the same status bypasses the window again. */
  lemma MissingStatusForgets(config: Config, states: States, a: PositionEvent, b: PositionEvent)
    requires StateOf(states, a.mmsi).Some? && a.mmsi == b.mmsi
    requires a.fix.navStatus == None && Decide(config, StateOf(states, a.mmsi), a) == Window
    requires b.fix.navStatus.Some? && b.fix.navStatus == StateOf(states, a.mmsi).value.lastNavStatus
    ensures Decide(config, StateOf(After(config, states, a), b.mmsi), b) == Bypass
  {
    StateAfter(config, states, a);
  }
}
