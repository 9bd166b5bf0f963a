/** The flush scheduler of `useVesselsLayer.ts`: timers, animation frames and pan state. */
module FlushScheduler {
  import opened Wrappers

  const FLUSH_MS := 500

  /** The closure's variables; a timer is represented by the time it is due. */
  datatype Vars = Vars(
    lastFlush: int, timeout: Option<int>, frame: bool, pending: bool, disposed: bool, moving: bool, dirtyWhileMoving: bool)

  function Cleared(v: Vars): Vars {
    v.(timeout := None, frame := false, pending := false)
  }

  function Scheduled(v: Vars, force: bool, now: int): Vars {
    if v.moving && !force then v.(dirtyWhileMoving := true)
    else if v.pending then v
    else
      var elapsed := now - v.lastFlush;
      var wait := if force || FLUSH_MS - elapsed < 0 then 0 else FLUSH_MS - elapsed;
      v.(pending := true, timeout := Some(now + wait))
  }

  function TimerFired(v: Vars): Vars {
    if v.disposed then v.(timeout := None) else v.(timeout := None, frame := true)
  }

  /** What the animation frame callback does; `after` is the time when the data has been set. */
  function FrameRan(v: Vars, source: bool, after: int): Vars {
    if v.disposed then v.(frame := false)
    else if v.moving then v.(frame := false, dirtyWhileMoving := true, pending := false)
    else if source then v.(frame := false, lastFlush := after, pending := false)
    else v.(frame := false, pending := false)
  }

  predicate SetsData(v: Vars, source: bool) {
    !v.disposed && !v.moving && source
  }

  function MoveStarted(v: Vars): Vars {
    Cleared(v.(moving := true, dirtyWhileMoving := v.dirtyWhileMoving || v.pending))
  }

  function MoveEnded(v: Vars, now: int): Vars {
    var still := v.(moving := false);
    if v.dirtyWhileMoving then Scheduled(still.(dirtyWhileMoving := false), true, now) else still
  }

  /** The effect's closure. The browser and the map call its methods one at a time. */
  class Layer {
    var lastFlush: int
    var timeoutId: Option<int>
    var rafId: bool
    var pending: bool
    var disposed: bool
    var moving: bool
    var dirtyWhileMoving: bool

    ghost function State(): Vars
      reads this
    {
      Vars(lastFlush, timeoutId, rafId, pending, disposed, moving, dirtyWhileMoving)
    }

    /** Exactly one of timer and frame is outstanding when a flush is pending, and none during a pan or after disposal. */
    ghost predicate Valid()
      reads this
    {
      OneOutstanding(State())
    }

    /** The map is owed a flush: one is pending, or the end of the pan will ask for one. */
    ghost predicate Owed()
      reads this
    {
      pending || dirtyWhileMoving
    }

    constructor (now: int)
      ensures State() == Mounted(now) && Valid() && Owed()
    {
      lastFlush, timeoutId, rafId := 0, None, false;
      pending, disposed, moving, dirtyWhileMoving := false, false, false, false;
      new;
      Schedule(false, now);
    }

    method ClearScheduled()
      modifies this
      ensures State() == Cleared(old(State()))
      ensures old(Valid()) ==> Valid()
    {
      if timeoutId != None { timeoutId := None; }
      if rafId { rafId := false; }
      pending := false;
    }

    method Flush()
      modifies this
      ensures State() == TimerFired(old(State()))
      ensures old(Valid()) && old(timeoutId).Some? ==> Valid() && rafId && Owed()
    {
      timeoutId := None;
      if disposed { return; }
      rafId := true;
    }

    method OnFrame(source: bool, after: int) returns (dataSet: bool)
      modifies this
      ensures State() == FrameRan(old(State()), source, after)
      ensures dataSet <==> SetsData(old(State()), source)
      ensures dataSet ==> !old(moving) && !old(disposed) && lastFlush == after
      ensures old(Valid()) && old(rafId) ==> Valid() && (dataSet <==> source)
    {
      dataSet := false;
      rafId := false;
      if disposed { return; }
      if moving {
        dirtyWhileMoving := true;
        pending := false;
        return;
      }
      if source {
        dataSet := true;
        lastFlush := after;
      }
      pending := false;
    }

    method Schedule(force: bool, now: int)
      modifies this
      ensures State() == Scheduled(old(State()), force, now)
      ensures Owed()
      ensures old(Valid()) && !disposed && (force ==> !moving) ==> Valid()
      ensures !force && !old(pending) && timeoutId.Some? && old(timeoutId).None? ==> timeoutId.value >= lastFlush + FLUSH_MS
    {
      if moving && !force {
        dirtyWhileMoving := true;
        return;
      }
      if pending { return; }
      pending := true;
      var elapsed := now - lastFlush;
      var wait := if force then 0 else if FLUSH_MS - elapsed > 0 then FLUSH_MS - elapsed else 0;
      timeoutId := Some(now + wait);
    }

    method HandleMoveStart()
      modifies this
      ensures State() == MoveStarted(old(State()))
      ensures moving && !pending && (Owed() <==> old(Owed()))
      ensures old(Valid()) ==> Valid()
    {
      moving := true;
      dirtyWhileMoving := dirtyWhileMoving || pending;
      ClearScheduled();
    }

    method HandleMoveEnd(now: int)
      modifies this
      ensures State() == MoveEnded(old(State()), now)
      ensures !moving && !dirtyWhileMoving && (Owed() <==> old(Owed()))
      ensures old(Valid()) && !disposed ==> Valid()
    {
      moving := false;
      if dirtyWhileMoving {
        dirtyWhileMoving := false;
        Schedule(true, now);
      }
    }

    method Dispose()
      modifies this
      ensures State() == Cleared(old(State())).(disposed := true)
      ensures old(Valid()) ==> Valid()
    {
      disposed := true;
      ClearScheduled();
    }
  }

  function Mounted(now: int): Vars {
    Scheduled(Vars(0, None, false, false, false, false, false), false, now)
  }

  // ----- The scheduler with its surroundings -----

  datatype Flush = Flush(at: int, forced: bool)

  /**
   * `store` counts the changes of the vessel store and `shown` is the one on the map; `missed` says that the last frame
   * found no map source and nothing has been asked since; `forced` says how the outstanding flush was asked for.
   */
  datatype System = System(
    vars: Vars, now: int, store: nat, shown: nat, missed: bool, forced: bool, flushes: seq<Flush>)

  function Start(now: int): System {
    System(Mounted(now), now, 1, 0, false, false, [])
  }

  datatype Event =
    | Wait(until: int)
    | StoreChanged
    | TimerFires
    | FrameRuns(source: bool, took: nat)
    | MoveStart
    | MoveEnd
    | Unmount

  /** Callbacks run only when due, and none is registered any more after disposal. */
  predicate Enabled(s: System, e: Event) {
    match e
    case Wait(until) => s.now <= until
    case StoreChanged => true
    case TimerFires => s.vars.timeout.Some? && s.vars.timeout.value <= s.now
    case FrameRuns(_, _) => s.vars.frame
    case MoveStart => !s.vars.disposed
    case MoveEnd => !s.vars.disposed
    case Unmount => !s.vars.disposed
  }

  function Step(s: System, e: Event): System {
    match e
    case Wait(until) => s.(now := until)
    case StoreChanged =>
      if s.vars.disposed then s.(store := s.store + 1)
      else s.(store := s.store + 1, missed := false, forced := s.vars.pending && s.forced, vars := Scheduled(s.vars, false, s.now))
    case TimerFires => s.(vars := TimerFired(s.vars))
    case FrameRuns(source, took) =>
      var after := s.now + took;
      var vars := FrameRan(s.vars, source, after);
      if SetsData(s.vars, source)
      then s.(vars := vars, now := after, shown := s.store, missed := false, flushes := s.flushes + [Flush(after, s.forced)])
      else s.(vars := vars, missed := !source)
    case MoveStart => s.(vars := MoveStarted(s.vars))
    case MoveEnd => s.(vars := MoveEnded(s.vars, s.now), forced := s.vars.dirtyWhileMoving || s.forced)
    case Unmount => s.(vars := Cleared(s.vars).(disposed := true))
  }

  function RunFrom(s: System, events: seq<Event>): System
    decreases |events|
  {
    if events == [] then s else RunFrom(Step(s, events[0]), events[1..])
  }

  ghost predicate EnabledRun(s: System, events: seq<Event>)
    decreases |events|
  {
    events == [] || (Enabled(s, events[0]) && EnabledRun(Step(s, events[0]), events[1..]))
  }

  // ----- What holds in every reachable state -----

  /** Exactly one of timer and frame is outstanding when a flush is pending, and none otherwise; never mid-pan. */
  ghost predicate OneOutstanding(v: Vars) {
    && (v.pending <==> v.timeout.Some? || v.frame)
    && !(v.timeout.Some? && v.frame)
    && (v.moving ==> !v.pending)
    && (v.dirtyWhileMoving ==> v.moving)
    && (v.disposed ==> !v.pending)
  }

  /** The map is behind the store exactly when something will bring it up to date, or the last frame found no source. */
  ghost predicate NothingLost(s: System) {
    && s.shown <= s.store
    && (!s.vars.disposed ==> (s.shown < s.store <==> s.vars.pending || s.vars.dirtyWhileMoving || s.missed))
    && (s.missed ==> !s.vars.pending && !s.vars.dirtyWhileMoving)
  }

  /** An unforced flush comes at least `FLUSH_MS` after the one before it. */
  ghost predicate Spaced(flushes: seq<Flush>) {
    forall i :: 0 < i < |flushes| && !flushes[i].forced ==> flushes[i - 1].at + FLUSH_MS <= flushes[i].at
  }

  function LastFlushed(s: System): int {
    if s.flushes == [] then 0 else s.flushes[|s.flushes| - 1].at
  }

  /** A timer is already due, or it is unforced and due at the earliest time after the last flush. */
  ghost predicate Throttled(s: System) {
    && s.vars.lastFlush <= s.now
    && (s.vars.timeout.Some? ==> s.vars.timeout.value <= s.now || (!s.forced && s.vars.timeout.value == s.vars.lastFlush + FLUSH_MS))
    && (!s.forced && s.vars.timeout.Some? ==> s.vars.lastFlush + FLUSH_MS <= s.vars.timeout.value)
    && (!s.forced && s.vars.frame ==> s.vars.lastFlush + FLUSH_MS <= s.now)
    && LastFlushed(s) == s.vars.lastFlush
    && Spaced(s.flushes)
  }

  ghost predicate Inv(s: System) {
    OneOutstanding(s.vars) && NothingLost(s) && Throttled(s)
  }

  lemma StartInv(now: nat)
    ensures Inv(Start(now))
  {
  }

  lemma StepKeepsScheduling(s: System, e: Event)
    requires OneOutstanding(s.vars) && NothingLost(s) && Enabled(s, e)
    ensures OneOutstanding(Step(s, e).vars) && NothingLost(Step(s, e))
  {
  }

  lemma StepKeepsThrottle(s: System, e: Event)
    requires Inv(s) && Enabled(s, e)
    ensures Throttled(Step(s, e))
  {
  }

  lemma {:induction false} RunKeeps(s: System, events: seq<Event>)
    requires Inv(s) && EnabledRun(s, events)
    ensures Inv(RunFrom(s, events))
    decreases |events|
  {
    if events != [] {
      StepKeepsScheduling(s, events[0]);
      StepKeepsThrottle(s, events[0]);
      hide Step, Enabled, OneOutstanding, NothingLost, Throttled;
      RunKeeps(Step(s, events[0]), events[1..]);
    }
  }

  /**
   * In every run: timer and frame are never both outstanding, no change is lost while the map has its source, and
   * unforced flushes keep their distance.
   */
  lemma EveryRunIsSafe(now: nat, events: seq<Event>)
    requires EnabledRun(Start(now), events)
    ensures Inv(RunFrom(Start(now), events))
  {
    StartInv(now);
    RunKeeps(Start(now), events);
  }

  /** In every run the frame callback finds neither a pan in progress nor a disposed effect: those branches are dead. */
  lemma NoFrameMidPan(now: nat, events: seq<Event>)
    requires EnabledRun(Start(now), events)
    ensures var v := RunFrom(Start(now), events).vars; v.frame ==> !v.moving && !v.disposed
  {
    EveryRunIsSafe(now, events);
  }

  // ----- Nothing lost means shown in the end -----

  /** The surroundings do what they must: the pan ends, the timer runs when due, the frame finds the source. */
  function Finishing(s: System): seq<Event> {
    if s.vars.moving then [MoveEnd, TimerFires, FrameRuns(true, 0)]
    else if s.vars.timeout.Some? then
      [Wait(if s.vars.timeout.value <= s.now then s.now else s.vars.timeout.value), TimerFires, FrameRuns(true, 0)]
    else [FrameRuns(true, 0)]
  }

  /**
   * Whatever happened before, an owed change is on the map at once after a pan, and otherwise at once or as soon as the
   * last flush is `FLUSH_MS` old.
   */
  lemma OwedChangeIsShown(now: nat, events: seq<Event>)
    requires EnabledRun(Start(now), events)
    ensures var s := RunFrom(Start(now), events);
      !s.vars.disposed && !s.missed && s.shown < s.store ==>
        && EnabledRun(s, Finishing(s))
        && RunFrom(s, Finishing(s)).shown == s.store
        && (s.vars.moving ==> RunFrom(s, Finishing(s)).now == s.now)
        && (RunFrom(s, Finishing(s)).now == s.now || RunFrom(s, Finishing(s)).now == LastFlushed(s) + FLUSH_MS <= s.now + FLUSH_MS)
  {
    EveryRunIsSafe(now, events);
    var s := RunFrom(Start(now), events);
    if !s.vars.disposed && !s.missed && s.shown < s.store {
      FinishingShows(s);
    }
  }

  lemma FinishingShows(s: System)
    requires Inv(s) && !s.vars.disposed && !s.missed && s.shown < s.store
    ensures EnabledRun(s, Finishing(s))
    ensures RunFrom(s, Finishing(s)).shown == s.store
    ensures s.vars.moving ==> RunFrom(s, Finishing(s)).now == s.now
    ensures RunFrom(s, Finishing(s)).now == s.now || RunFrom(s, Finishing(s)).now == LastFlushed(s) + FLUSH_MS <= s.now + FLUSH_MS
  {
    var events := Finishing(s);
    if |events| == 1 {
      assert events[1..] == [];
    } else {
      assert events[1..] == [TimerFires, FrameRuns(true, 0)];
      assert events[1..][1..] == [FrameRuns(true, 0)];
      assert events[1..][1..][1..] == [];
      var one := Step(s, events[0]);
      var two := Step(one, TimerFires);
      assert RunFrom(s, events) == RunFrom(one, events[1..]);
      assert RunFrom(one, events[1..]) == RunFrom(two, [FrameRuns(true, 0)]);
      assert RunFrom(two, [FrameRuns(true, 0)]) == Step(two, FrameRuns(true, 0));
    }
  }

  /** A frame without a source drops its change: nothing but another change of the store brings it back. */
  lemma {:induction false} MissedStaysMissed(s: System, events: seq<Event>)
    requires Inv(s) && EnabledRun(s, events) && s.missed
    requires StoreChanged !in events
    ensures var t := RunFrom(s, events); t.missed && t.shown == s.shown && t.store == s.store && t.flushes == s.flushes
    decreases |events|
  {
    if events != [] {
      StepKeepsScheduling(s, events[0]);
      StepKeepsThrottle(s, events[0]);
      MissedStep(s, events[0]);
      hide Step, Enabled, OneOutstanding, NothingLost, Throttled;
      MissedStaysMissed(Step(s, events[0]), events[1..]);
    }
  }

  lemma MissedStep(s: System, e: Event)
    requires Inv(s) && Enabled(s, e) && s.missed && !e.StoreChanged?
    ensures var t := Step(s, e); t.missed && t.shown == s.shown && t.store == s.store && t.flushes == s.flushes
  {
  }

  lemma MissHappens(now: nat)
    ensures var s := RunFrom(Start(now), [Wait(now + FLUSH_MS), TimerFires, FrameRuns(false, 0)]);
      EnabledRun(Start(now), [Wait(now + FLUSH_MS), TimerFires, FrameRuns(false, 0)]) && s.missed && s.shown < s.store
  {
    var events := [Wait(now + FLUSH_MS), TimerFires, FrameRuns(false, 0)];
    assert events[1..] == [TimerFires, FrameRuns(false, 0)];
    assert events[1..][1..] == [FrameRuns(false, 0)];
    assert events[1..][1..][1..] == [];
    var one := Step(Start(now), events[0]);
    var two := Step(one, TimerFires);
    assert RunFrom(Start(now), events) == RunFrom(one, events[1..]);
    assert RunFrom(one, events[1..]) == RunFrom(two, [FrameRuns(false, 0)]);
    assert RunFrom(two, [FrameRuns(false, 0)]) == Step(two, FrameRuns(false, 0));
  }
}
