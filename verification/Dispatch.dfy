/**
 * One dispatch of one stream message by `RedisStreamsEventBus.dispatch`, with `FailureHandler.onHandlerError`
 * inside it, as the sequence of its awaits. Each await either succeeds, or throws without having taken
 * effect, or throws after it took effect (the reply was lost).
 */
module Dispatch {
  import opened Wrappers
  import opened CounterKeys
  import opened Json
  import Decimal

  datatype GroupKey = GroupKey(stream: string, group: string)

  /** A message as one consumer group sees it; the id is the message's place in the order of stream ids. */
  datatype Delivery = Delivery(key: GroupKey, id: nat)

  function KeyOf(d: Delivery): string {
    CounterKey(d.key.stream, d.key.group, Decimal.Print(d.id))
  }

  /** Distinct deliveries count their failures under distinct keys. */
  lemma KeyOfInjective(d: Delivery, e: Delivery)
    requires KeyOf(d) == KeyOf(e)
    ensures d == e
  {
    CounterKeyInjective(d.key.stream, d.key.group, Decimal.Print(d.id), e.key.stream, e.key.group, Decimal.Print(e.id));
    Decimal.PrintInjective(d.id, e.id);
  }

  // ----- Message bodies -----

  datatype Body = Unusable | Malformed(raw: string) | Usable(payload: Json)

  /** `JSON.parse`, where `None` is a SyntaxError. */
  type Parser = string -> Option<Json>

  function IndexOf(fields: seq<string>, name: string): (i: Option<nat>)
    ensures i.Some? ==> i.value < |fields| && fields[i.value] == name && name !in fields[..i.value]
    ensures i.None? <==> name !in fields
  {
    if fields == [] then None
    else if fields[0] == name then Some(0)
    else
      var rest := IndexOf(fields[1..], name);
      if rest.None? then None
      else
        assert fields[..rest.value + 1] == [fields[0]] + fields[1..][..rest.value];
        Some(rest.value + 1)
  }

  /** The three ways a field list can be read: no value after `data`, a value that does not parse, or a payload. */
  function BodyOf(fields: seq<string>, parse: Parser): Body {
    var i := IndexOf(fields, "data");
    if i.None? || i.value + 1 >= |fields| then Unusable
    else
      var raw := fields[i.value + 1];
      if parse(raw).None? then Malformed(raw) else Usable(parse(raw).value)
  }

  /** The first `data` field. */
  ghost predicate FirstData(fields: seq<string>, i: int) {
    0 <= i < |fields| && fields[i] == "data" && forall j :: 0 <= j < i ==> fields[j] != "data"
  }

  /** `raw` is the field after the first `data` field. */
  ghost predicate DataOf(fields: seq<string>, raw: string) {
    exists i :: FirstData(fields, i) && i + 1 < |fields| && raw == fields[i + 1]
  }

  function BodyOfData(raw: string, parse: Parser): Body {
    if parse(raw).Some? then Usable(parse(raw).value) else Malformed(raw)
  }

  /**
   * A message is read by its first `data` field: as the payload its value parses to, as malformed when it does not
   * parse, and as unusable exactly when there is no such field or nothing after it.
   */
  lemma BodySpelledOut(fields: seq<string>, parse: Parser)
    ensures BodyOf(fields, parse).Unusable? <==> !exists raw :: DataOf(fields, raw)
    ensures forall raw :: DataOf(fields, raw) ==> BodyOf(fields, parse) == BodyOfData(raw, parse)
  {
    var i := IndexOf(fields, "data");
    if i.Some? {
      assert forall j :: 0 <= j < i.value ==> fields[..i.value][j] == fields[j];
      assert FirstData(fields, i.value);
      assert forall k :: FirstData(fields, k) ==> k == i.value;
      if i.value + 1 < |fields| { assert DataOf(fields, fields[i.value + 1]); }
    } else {
      assert forall k :: 0 <= k < |fields| ==> fields[k] in fields;
    }
  }

  // ----- What the dispatch works on -----

  /** A retry counter's hash; an absent `attempts` field counts as zero. */
  datatype Counter = Counter(attempts: nat, firstFailedAt: Option<int>, lastFailedAt: Option<int>)

  datatype DeadLetter =
    | HandlerFailure(origin: Delivery, payload: Json, attempts: nat, firstFailedAt: int, lastFailedAt: int)
    | InvalidJson(origin: Delivery, raw: string, failedAt: int)

  /**
   * The Redis data a dispatch changes, and the history of what handlers did: `handled` are the deliveries
   * whose handler returned normally, `effects` the handler effects in the order they took place.
   */
  datatype Store = Store(
    pending: set<Delivery>,
    counters: map<string, Counter>,
    deadLetters: seq<DeadLetter>,
    handled: set<Delivery>,
    effects: seq<Delivery>)

  datatype Config = Config(limit: nat, parse: Parser)

  datatype Outcome = Done | Lost | ReplyLost

  /** Where a dispatch waits: the stage names the call it is about to make. */
  datatype Stage =
    | AckUnusable
    | AppendMalformed(raw: string)
    | AckMalformed
    | Handle(payload: Json)
    | AckHandled(payload: Json)
    | CountFailure(payload: Json)
    | StampFirst(payload: Json, attempts: nat, now: int)
    | StampLast(payload: Json, attempts: nat, now: int)
    | SetExpiry(payload: Json, attempts: nat, now: int)
    | ReadStamps(payload: Json, attempts: nat, now: int)
    | AppendFailure(letter: DeadLetter)
    | ClearCounter
    | AckDead

  /** How a dispatch goes on after one call: to another call, back to its caller, or by throwing. */
  datatype Next = Go(stage: Stage) | Returned | Threw

  function FirstStage(body: Body): Stage {
    match body
    case Unusable => AckUnusable
    case Malformed(raw) => AppendMalformed(raw)
    case Usable(payload) => Handle(payload)
  }

  function CounterAt(s: Store, d: Delivery): Counter {
    if KeyOf(d) in s.counters then s.counters[KeyOf(d)] else Counter(0, None, None)
  }

  function SetCounter(s: Store, d: Delivery, c: Counter): Store {
    s.(counters := s.counters[KeyOf(d) := c])
  }

  function Ack(s: Store, d: Delivery): Store {
    s.(pending := s.pending - {d})
  }

  function Append(s: Store, letter: DeadLetter): Store {
    s.(deadLetters := s.deadLetters + [letter])
  }

  /** The effect of a stage's call, when it takes effect. */
  function Effect(d: Delivery, stage: Stage, now: int, s: Store): Store {
    match stage
    case AckUnusable | AckMalformed | AckHandled(_) | AckDead => Ack(s, d)
    case AppendMalformed(raw) => Append(s, InvalidJson(d, raw, now))
    case Handle(_) => s.(effects := s.effects + [d])
    case CountFailure(_) => SetCounter(s, d, CounterAt(s, d).(attempts := CounterAt(s, d).attempts + 1))
    case StampFirst(_, _, t) =>
      var c := CounterAt(s, d);
      SetCounter(s, d, if c.firstFailedAt.Some? then c else c.(firstFailedAt := Some(t)))
    case StampLast(_, _, t) => SetCounter(s, d, CounterAt(s, d).(lastFailedAt := Some(t)))
    case SetExpiry(_, _, _) | ReadStamps(_, _, _) => s
    case AppendFailure(letter) => Append(s, letter)
    case ClearCounter => s.(counters := s.counters - {KeyOf(d)})
  }

  /** No dispatch makes the same call twice: every call leads to one of lower rank. */
  function Rank(stage: Stage): nat {
    match stage
    case AckUnusable => 0
    case AckMalformed => 0
    case AckDead => 0
    case AppendMalformed(_) => 1
    case ClearCounter => 1
    case AppendFailure(_) => 2
    case ReadStamps(_, _, _) => 3
    case SetExpiry(_, _, _) => 4
    case StampLast(_, _, _) => 5
    case StampFirst(_, _, _) => 6
    case CountFailure(_) => 7
    case AckHandled(_) => 8
    case Handle(_) => 9
  }

  /** What follows a call that succeeded. */
  function AfterSuccess(cfg: Config, d: Delivery, stage: Stage, now: int, s: Store): (next: Next)
    ensures next.Go? ==> Rank(next.stage) < Rank(stage)
  {
    match stage
    case AckUnusable | AckMalformed | AckHandled(_) | AckDead => Returned
    case AppendMalformed(_) => Go(AckMalformed)
    case Handle(payload) => Go(AckHandled(payload))
    case CountFailure(payload) => Go(StampFirst(payload, CounterAt(s, d).attempts + 1, now))
    case StampFirst(payload, attempts, t) => Go(StampLast(payload, attempts, t))
    case StampLast(payload, attempts, t) => Go(SetExpiry(payload, attempts, t))
    case SetExpiry(payload, attempts, t) =>
      if attempts < cfg.limit then Returned else Go(ReadStamps(payload, attempts, t))
    case ReadStamps(payload, attempts, t) =>
      var c := CounterAt(s, d);
      Go(AppendFailure(HandlerFailure(d, payload, attempts, c.firstFailedAt.GetOr(t), c.lastFailedAt.GetOr(t))))
    case AppendFailure(_) => Go(ClearCounter)
    case ClearCounter => Go(AckDead)
  }

  /**
   * What follows a call that threw: inside the handler's `try` the failure is counted, inside the failure
   * handler's and the malformed message's `try` the message is left pending, elsewhere the error escapes.
   */
  function AfterThrow(stage: Stage): (next: Next)
    ensures next.Go? ==> Rank(next.stage) < Rank(stage)
  {
    match stage
    case AckUnusable | AckDead => Threw
    case Handle(payload) => Go(CountFailure(payload))
    case AckHandled(payload) => Go(CountFailure(payload))
    case _ => Returned
  }

  /** One await. A handler that returns normally is recorded as such. */
  function Step(cfg: Config, d: Delivery, stage: Stage, outcome: Outcome, now: int, s: Store): (r: (Store, Next))
    ensures r.1.Go? ==> Rank(r.1.stage) < Rank(stage)
  {
    match outcome
    case Done =>
      var t := Effect(d, stage, now, s);
      (if stage.Handle? then t.(handled := t.handled + {d}) else t, AfterSuccess(cfg, d, stage, now, s))
    case Lost => (s, AfterThrow(stage))
    case ReplyLost => (Effect(d, stage, now, s), AfterThrow(stage))
  }

  // ----- A whole dispatch -----

  /** The outcome that each call of a dispatch meets. */
  type Weather = Stage -> Outcome

  function RunFrom(cfg: Config, d: Delivery, stage: Stage, weather: Weather, now: int, s: Store): (r: (Store, Next))
    ensures r.1.Returned? || r.1.Threw?
    decreases Rank(stage)
  {
    var (t, next) := Step(cfg, d, stage, weather(stage), now, s);
    match next
    case Go(after) => RunFrom(cfg, d, after, weather, now, t)
    case _ => (t, next)
  }

  /** One call of a dispatch that succeeds and goes on. */
  lemma Advance(cfg: Config, d: Delivery, stage: Stage, weather: Weather, now: int, s: Store)
    ensures
      var (t, next) := Step(cfg, d, stage, weather(stage), now, s);
      RunFrom(cfg, d, stage, weather, now, s) == if next.Go? then RunFrom(cfg, d, next.stage, weather, now, t) else (t, next)
  {
  }

  function DispatchOne(
    cfg: Config, d: Delivery, fields: seq<string>, weather: Weather, now: int, s: Store): (Store, Next)
  {
    RunFrom(cfg, d, FirstStage(BodyOf(fields, cfg.parse)), weather, now, s)
  }

  // ----- The same, in the form of the original -----

  datatype FailureAction = LeaveUnacked(attempts: nat) | DeadletterAndAck(attempts: nat) | FailureHandlerThrew

  class Consumer {
    const cfg: Config
    var pending: set<Delivery>
    var counters: map<string, Counter>
    var deadLetters: seq<DeadLetter>
    ghost var handled: set<Delivery>
    ghost var effects: seq<Delivery>

    constructor (cfg: Config, pending: set<Delivery>)
      ensures this.cfg == cfg && View() == Store(pending, map[], [], {}, [])
    {
      this.cfg := cfg;
      this.pending := pending;
      counters, deadLetters := map[], [];
      handled, effects := {}, [];
    }

    ghost function View(): Store
      reads this
    {
      Store(pending, counters, deadLetters, handled, effects)
    }

    /** `XACK`: removes the message from the group's pending list. */
    method XAck(d: Delivery, outcome: Outcome) returns (threw: bool)
      modifies this`pending
      ensures threw == !outcome.Done?
      ensures View() == if outcome.Lost? then old(View()) else Ack(old(View()), d)
    {
      if !outcome.Lost? {
        pending := pending - {d};
      }
      threw := !outcome.Done?;
    }

    /** `XADD` to the dead-letter stream. */
    method AppendLetter(letter: DeadLetter, outcome: Outcome) returns (threw: bool)
      modifies this`deadLetters
      ensures threw == !outcome.Done?
      ensures View() == if outcome.Lost? then old(View()) else Append(old(View()), letter)
    {
      if !outcome.Lost? {
        deadLetters := deadLetters + [letter];
      }
      threw := !outcome.Done?;
    }

    method WriteCounter(d: Delivery, c: Counter, outcome: Outcome) returns (threw: bool)
      modifies this`counters
      ensures threw == !outcome.Done?
      ensures View() == if outcome.Lost? then old(View()) else SetCounter(old(View()), d, c)
    {
      if !outcome.Lost? {
        counters := counters[KeyOf(d) := c];
      }
      threw := !outcome.Done?;
    }

    method ReadCounter(d: Delivery) returns (c: Counter)
      ensures c == CounterAt(View(), d)
    {
      c := if KeyOf(d) in counters then counters[KeyOf(d)] else Counter(0, None, None);
    }

    /** `FailureHandler.onHandlerError`: count, stamp, then leave pending or write the dead letter. */
    method OnHandlerError(d: Delivery, payload: Json, weather: Weather, now: int) returns (action: FailureAction)
      modifies this`counters, this`deadLetters
      ensures
        var (after, next) := RunFrom(cfg, d, CountFailure(payload), weather, now, old(View()));
        match action
        case DeadletterAndAck(_) => (after, next) == RunFrom(cfg, d, AckDead, weather, now, View())
        case _ => after == View() && next == Returned
    {
      hide RunFrom;
      var c := ReadCounter(d);
      var attempts := c.attempts + 1;
      Advance(cfg, d, CountFailure(payload), weather, now, View());
      var threw := WriteCounter(d, c.(attempts := attempts), weather(CountFailure(payload)));
      if threw { return FailureHandlerThrew; }
      action := StampAndDecide(d, payload, attempts, weather, now);
    }

    /** The stamps, the expiry and the limit decision. */
    method StampAndDecide(d: Delivery, payload: Json, attempts: nat, weather: Weather, now: int)
      returns (action: FailureAction)
      modifies this`counters, this`deadLetters
      ensures
        var (after, next) := RunFrom(cfg, d, StampFirst(payload, attempts, now), weather, now, old(View()));
        match action
        case DeadletterAndAck(_) => (after, next) == RunFrom(cfg, d, AckDead, weather, now, View())
        case _ => after == View() && next == Returned
    {
      hide RunFrom, KeyOf;
      var c := ReadCounter(d);
      Advance(cfg, d, StampFirst(payload, attempts, now), weather, now, View());
      var threw := WriteCounter(d, if c.firstFailedAt.Some? then c else c.(firstFailedAt := Some(now)), weather(StampFirst(payload, attempts, now)));
      if threw { return FailureHandlerThrew; }
      c := ReadCounter(d);
      Advance(cfg, d, StampLast(payload, attempts, now), weather, now, View());
      threw := WriteCounter(d, c.(lastFailedAt := Some(now)), weather(StampLast(payload, attempts, now)));
      if threw { return FailureHandlerThrew; }
      Advance(cfg, d, SetExpiry(payload, attempts, now), weather, now, View());
      if !weather(SetExpiry(payload, attempts, now)).Done? { return FailureHandlerThrew; }
      if attempts < cfg.limit {
        return LeaveUnacked(attempts);
      }
      action := DeadLetterExhausted(d, payload, attempts, weather, now);
    }

    /** The rest of `onHandlerError` once the limit is reached. */
    method DeadLetterExhausted(d: Delivery, payload: Json, attempts: nat, weather: Weather, now: int)
      returns (action: FailureAction)
      modifies this`counters, this`deadLetters
      ensures
        var (after, next) := RunFrom(cfg, d, ReadStamps(payload, attempts, now), weather, now, old(View()));
        match action
        case DeadletterAndAck(_) => (after, next) == RunFrom(cfg, d, AckDead, weather, now, View())
        case _ => after == View() && next == Returned
    {
      hide RunFrom, KeyOf;
      Advance(cfg, d, ReadStamps(payload, attempts, now), weather, now, View());
      if !weather(ReadStamps(payload, attempts, now)).Done? { return FailureHandlerThrew; }
      var meta := ReadCounter(d);
      var letter := HandlerFailure(d, payload, attempts, meta.firstFailedAt.GetOr(now), meta.lastFailedAt.GetOr(now));
      Advance(cfg, d, AppendFailure(letter), weather, now, View());
      var threw := AppendLetter(letter, weather(AppendFailure(letter)));
      if threw { return FailureHandlerThrew; }
      Advance(cfg, d, ClearCounter, weather, now, View());
      if !weather(ClearCounter).Lost? {
        counters := counters - {KeyOf(d)};
      }
      if !weather(ClearCounter).Done? { return FailureHandlerThrew; }
      action := DeadletterAndAck(attempts);
    }

    /** `deadletterMalformed`: append, then acknowledge, both inside one `try`. */
    method DeadletterMalformed(d: Delivery, raw: string, weather: Weather, now: int)
      modifies this`deadLetters, this`pending
      ensures (View(), Returned) == RunFrom(cfg, d, AppendMalformed(raw), weather, now, old(View()))
    {
      hide RunFrom;
      Advance(cfg, d, AppendMalformed(raw), weather, now, View());
      var threw := AppendLetter(InvalidJson(d, raw, now), weather(AppendMalformed(raw)));
      if threw { return; }
      Advance(cfg, d, AckMalformed, weather, now, View());
      threw := XAck(d, weather(AckMalformed));
    }

    /** The handler call: any effect it has, and whether it returned. */
    method CallHandler(d: Delivery, outcome: Outcome) returns (threw: bool)
      modifies this`handled, this`effects
      ensures threw == !outcome.Done?
      ensures View() == old(View()).(
        effects := if outcome.Lost? then old(effects) else old(effects) + [d],
        handled := if outcome.Done? then old(handled) + {d} else old(handled))
    {
      if !outcome.Lost? { effects := effects + [d]; }
      if outcome.Done? { handled := handled + {d}; }
      threw := !outcome.Done?;
    }

    /** `dispatch`. */
    method DispatchMessage(d: Delivery, fields: seq<string>, weather: Weather, now: int) returns (threw: bool)
      modifies this
      ensures (View(), if threw then Threw else Returned) == DispatchOne(cfg, d, fields, weather, now, old(View()))
    {
      hide RunFrom;
      Advance(cfg, d, AckUnusable, weather, now, View());
      var dataIdx := IndexOf(fields, "data");
      if dataIdx.None? {
        threw := XAck(d, weather(AckUnusable));
        return;
      }
      if dataIdx.value + 1 >= |fields| {
        threw := XAck(d, weather(AckUnusable));
        return;
      }
      var dataValue := fields[dataIdx.value + 1];
      var parsed := cfg.parse(dataValue);
      if parsed.None? {
        DeadletterMalformed(d, dataValue, weather, now);
        return false;
      }
      threw := DispatchParsed(d, parsed.value, weather, now);
    }

    /** The `try` around the handler and its acknowledgement, and the failure path. */
    method DispatchParsed(d: Delivery, payload: Json, weather: Weather, now: int) returns (threw: bool)
      modifies this
      ensures (View(), if threw then Threw else Returned) == RunFrom(cfg, d, Handle(payload), weather, now, old(View()))
    {
      hide RunFrom;
      Advance(cfg, d, Handle(payload), weather, now, View());
      var failed := CallHandler(d, weather(Handle(payload)));
      if !failed {
        Advance(cfg, d, AckHandled(payload), weather, now, View());
        failed := XAck(d, weather(AckHandled(payload)));
        if !failed { return false; }
      }
      var action := OnHandlerError(d, payload, weather, now);
      if action.DeadletterAndAck? {
        Advance(cfg, d, AckDead, weather, now, View());
        threw := XAck(d, weather(AckDead));
      } else {
        threw := false;
      }
    }
  }
}
