/** Dead letters as the JSON documents the bus writes, and `DeadletterController.replay` reading them back. */
module Replay {
  import opened Wrappers
  import opened Json
  import opened Dispatch
  import opened StreamDelivery
  import opened NoLoss
  import Decimal

  /** `JSON.stringify`. */
  type Printer = Json -> string

  ghost predicate RoundTrips(printer: Printer, parse: Parser) {
    forall json: Json :: parse(printer(json)) == Some(json)
  }

  /** The document written for a dead letter; `error` is the serialized error. */
  function LetterJson(letter: DeadLetter, error: Json): Json {
    match letter
    case HandlerFailure(origin, payload, attempts, firstFailedAt, lastFailedAt) =>
      Object(map[
        "originalMessageId" := String(Decimal.Print(origin.id)),
        "originalStream" := String(origin.key.stream),
        "consumerGroup" := String(origin.key.group),
        "originalEvent" := payload,
        "attempts" := Number(attempts),
        "firstFailedAt" := Number(firstFailedAt),
        "lastFailedAt" := Number(lastFailedAt),
        "error" := error])
    case InvalidJson(origin, raw, failedAt) =>
      Object(map[
        "originalMessageId" := String(Decimal.Print(origin.id)),
        "originalStream" := String(origin.key.stream),
        "consumerGroup" := String(origin.key.group),
        "originalRawData" := String(raw),
        "attempts" := Number(1),
        "firstFailedAt" := Number(failedAt),
        "lastFailedAt" := Number(failedAt),
        "error" := error,
        "reason" := String("invalid-json")])
  }

  /** A document tells of a letter: which message it was, of which stream and group, what it held and when it failed. */
  ghost predicate TellsOf(json: Json, letter: DeadLetter) {
    && json.Object?
    && json.members.Keys >= {"originalMessageId", "originalStream", "consumerGroup", "attempts", "firstFailedAt", "lastFailedAt"}
    && json.members["originalMessageId"] == String(Decimal.Print(letter.origin.id))
    && json.members["originalStream"] == String(letter.origin.key.stream)
    && json.members["consumerGroup"] == String(letter.origin.key.group)
    && (letter.HandlerFailure? ==>
          && "originalEvent" in json.members && json.members["originalEvent"] == letter.payload
          && json.members["attempts"] == Number(letter.attempts)
          && json.members["firstFailedAt"] == Number(letter.firstFailedAt)
          && json.members["lastFailedAt"] == Number(letter.lastFailedAt))
    && (letter.InvalidJson? ==>
          && "originalRawData" in json.members && json.members["originalRawData"] == String(letter.raw)
          && json.members["attempts"] == Number(1)
          && json.members["firstFailedAt"] == json.members["lastFailedAt"] == Number(letter.failedAt))
  }

  lemma LetterIsTold(letter: DeadLetter, error: Json)
    ensures TellsOf(LetterJson(letter, error), letter)
  {
    hide Decimal.Print;
  }

  lemma ToldOnce(json: Json, letter: DeadLetter, other: DeadLetter)
    requires TellsOf(json, letter) && TellsOf(json, other) && letter.HandlerFailure? == other.HandlerFailure?
    ensures letter == other
  {
    Decimal.PrintInjective(letter.origin.id, other.origin.id);
    hide Decimal.Print;
  }

  /** The document that is written tells of its letter, and of no other of its kind. */
  lemma LetterIsToldExactly(letter: DeadLetter, error: Json, other: DeadLetter)
    requires letter.HandlerFailure? == other.HandlerFailure?
    ensures TellsOf(LetterJson(letter, error), other) <==> letter == other
  {
    hide *;
    LetterIsTold(letter, error);
    if TellsOf(LetterJson(letter, error), other) { ToldOnce(LetterJson(letter, error), letter, other); }
  }

  /** The fields of one stream entry that carries a document. */
  function DataFields(json: Json, printer: Printer): seq<string> {
    ["data", printer(json)]
  }

  /** `parseFields`. */
  function ParseFields(fields: seq<string>, parse: Parser): Json {
    var i := IndexOf(fields, "data");
    if i.None? || i.value + 1 >= |fields| then Null
    else
      var raw := fields[i.value + 1];
      match parse(raw)
      case Some(json) => json
      case None => Object(map["__unparsed" := String(raw)])
  }

  /** `isReplayable`. */
  predicate IsReplayable(payload: Json) {
    && payload.Object?
    && "originalStream" in payload.members
    && payload.members["originalStream"].String?
    && "originalEvent" in payload.members
  }

  datatype ReplayOutcome = NotFound | Invalid | Replayed(stream: string, newMessageId: nat)

  /** `replay` of the dead-letter entry with the given fields, if there is one. */
  function ReplayEntry(b: Bus, entry: Option<seq<string>>, parse: Parser, printer: Printer): (Bus, ReplayOutcome) {
    match entry
    case None => (b, NotFound)
    case Some(fields) =>
      var payload := ParseFields(fields, parse);
      if !IsReplayable(payload) then (b, Invalid)
      else
        var stream := payload.members["originalStream"].s;
        (PublishMessage(b, stream, DataFields(payload.members["originalEvent"], printer)), Replayed(stream, b.nextId))
  }

  lemma DataIsFound(json: Json, parse: Parser, printer: Printer)
    requires RoundTrips(printer, parse)
    ensures BodyOf(DataFields(json, printer), parse) == Usable(json)
    ensures ParseFields(DataFields(json, printer), parse) == json
  {
    assert parse(printer(json)) == Some(json);
  }

  /**
   * Replaying a handler-failure letter publishes exactly the payload of the message that failed, on its
   * stream and under a fresh id, for which no group has counted a failure. The letter itself stays.
   */
  lemma ReplayRepublishesTheOriginal(
    cfg: Config, actions: seq<Action>, letter: DeadLetter, error: Json, printer: Printer, key: GroupKey)
    requires RoundTrips(printer, cfg.parse) && letter.HandlerFailure?
    requires letter in Run(cfg, Empty(), actions).store.deadLetters
    ensures
      var b := Run(cfg, Empty(), actions);
      var (after, outcome) := ReplayEntry(b, Some(DataFields(LetterJson(letter, error), printer)), cfg.parse, printer);
      && outcome == Replayed(letter.origin.key.stream, b.nextId)
      && letter.origin.id in b.published
      && b.nextId !in b.published && b.nextId in after.published && b.nextId in after.live
      && after.published[b.nextId].stream == b.published[letter.origin.id].stream
      && BodyAt(cfg, after, b.nextId) == BodyAt(cfg, b, letter.origin.id) == Usable(letter.payload)
      && CounterAt(after.store, Delivery(key, b.nextId)) == Counter(0, None, None)
      && after.store == b.store
  {
    RunKeeps(cfg, actions);
    FreshMessagesHaveNoCounter(cfg, actions, key);
    hide KeyOf, BodyOf, Run, WorkersOk;
    DataIsFound(LetterJson(letter, error), cfg.parse, printer);
    DataIsFound(letter.payload, cfg.parse, printer);
    var b := Run(cfg, Empty(), actions);
    assert Faithful(cfg.limit, BodyAt(cfg, b, letter.origin.id), letter);
  }

  /** Letters for messages that did not parse are never replayed. */
  lemma InvalidJsonIsNeverReplayed(b: Bus, letter: DeadLetter, error: Json, parse: Parser, printer: Printer)
    requires RoundTrips(printer, parse)
    ensures IsReplayable(LetterJson(letter, error)) <==> letter.HandlerFailure?
    ensures letter.InvalidJson? ==>
      ReplayEntry(b, Some(DataFields(LetterJson(letter, error), printer)), parse, printer) == (b, Invalid)
  {
    DataIsFound(LetterJson(letter, error), parse, printer);
  }
}
