/** What one job of the enrichment queue writes, told from the vessel's fingerprint and the table of listed entities. */
module ProcessedJobs {
  import opened Wrappers
  import opened Names
  import opened NameWords
  import opened Contracts
  import opened Matcher
  import opened MatchMeaning
  import opened SanctionsLookup
  import opened EnrichmentRequests
  import opened Convergence
  import opened SanctionsConvergence

  /** The queries for this fingerprint are answered from one table that lists every entity once. */
  ghost predicate AnsweredFrom(fold: Fold, fp: Fingerprint, table: seq<SanctionCandidate>, answers: Answers) {
    && UniqueRows(Elements(table))
    && FromTable(fold, MatchInput(fp.imo, Some(fp.mmsi), fp.name), Elements(table), answers)
  }

  /** The verdict on a vessel, and the matches it must carry. */
  ghost predicate Verdict(
    fold: Fold, fp: Fingerprint, table: seq<SanctionCandidate>, status: SanctionsStatus, matches: seq<SanctionMatch>)
  {
    var input, name := MatchInput(fp.imo, Some(fp.mmsi), fp.name), fp.name.GetOr("");
    && (status == Sanctioned <==> ListedByNumber(fp.imo, Some(fp.mmsi), table))
    && (status == Candidate <==>
          && !ListedByNumber(fp.imo, Some(fp.mmsi), table)
          && Words(Folded(fold, fp.name)) != []
          && exists c :: c in table && (c.name == name || name in c.aliases))
    && (status == Sanctioned ==> matches == Matched(fold, input, table).matches)
    && (status == Sanctioned ==> forall m :: m in matches <==> NumberMatch(input, table, m))
    && (status != Sanctioned ==> forall m :: m in matches <==>
          && Words(Folded(fold, fp.name)) != []
          && exists c :: c in table && (c.name == name || name in c.aliases) && Describes(m, c, ByName))
    && InListOrder(matches)
  }

  lemma NumberVerdict(fold: Fold, fp: Fingerprint, table: seq<SanctionCandidate>, answers: Answers)
    requires AnsweredFrom(fold, fp, table, answers) && ListedByNumber(fp.imo, Some(fp.mmsi), table)
    ensures
      var input := MatchInput(fp.imo, Some(fp.mmsi), fp.name);
      var found := Lookup(fold, input, answers);
      && found == Matched(fold, input, table) && found.status == Sanctioned
      && (forall m :: m in found.matches <==> NumberMatch(input, table, m))
      && InListOrder(found.matches)
  {
    var input := MatchInput(fp.imo, Some(fp.mmsi), fp.name);
    hide *;
    IdentifiedMeans(fold, input, table);
    AnswersAre(fold, fp, table, answers);
    IndexAgreesWithScan(fold, input, table, answers);
    MatchSpelledOut(fold, input, table);
  }

  lemma AnswersAre(fold: Fold, fp: Fingerprint, table: seq<SanctionCandidate>, answers: Answers)
    requires AnsweredFrom(fold, fp, table, answers)
    ensures UniqueRows(Elements(table)) && FromTable(fold, MatchInput(fp.imo, Some(fp.mmsi), fp.name), Elements(table), answers)
  {
  }

  lemma NamedRows(fold: Fold, input: MatchInput, rows: seq<SanctionCandidate>, ms: seq<SanctionMatch>)
    requires Lists(ms, Block(fold, input, ByName, Elements(rows))) && forall c :: c in rows ==> Hits(fold, input, ByName, c)
    ensures forall m :: m in ms <==> exists c :: c in rows && Describes(m, c, ByName)
    ensures Block(fold, input, ByName, Elements(rows)) != {} <==> rows != []
    ensures InListOrder(ms)
  {
    NameListIsOrdered(fold, input, Elements(rows), ms);
    forall m ensures m in ms <==> exists c :: c in rows && Describes(m, c, ByName) {
      BlockMembers(fold, input, ByName, rows, m);
      forall c ensures Describes(m, c, ByName) <==> m == ToMatch(c, ByName) { DescribesMeans(m, c, ByName); }
    }
    hide Hits, Before;
    if rows != [] { assert ToMatch(rows[0], ByName) in Block(fold, input, ByName, Elements(rows)); }
  }

  lemma NameVerdict(fold: Fold, fp: Fingerprint, table: seq<SanctionCandidate>, answers: Answers)
    requires AnsweredFrom(fold, fp, table, answers) && !ListedByNumber(fp.imo, Some(fp.mmsi), table)
    ensures
      var input := MatchInput(fp.imo, Some(fp.mmsi), fp.name);
      var found, rows := Lookup(fold, input, answers), NameRows(fold, input, answers);
      && found.status == (if rows != [] then Candidate else Clear)
      && (forall m :: m in found.matches <==> exists c :: c in rows && Describes(m, c, ByName))
      && InListOrder(found.matches)
      && forall c :: c in rows <==>
           c in table && Words(Folded(fold, fp.name)) != [] && (c.name == fp.name.GetOr("") || fp.name.GetOr("") in c.aliases)
  {
    var input := MatchInput(fp.imo, Some(fp.mmsi), fp.name);
    var found, rows := Lookup(fold, input, answers), NameRows(fold, input, answers);
    SpelledMeans(fp.name.GetOr(""));
    hide *;
    IdentifiedMeans(fold, input, table);
    AnswersAre(fold, fp, table, answers);
    NameResult(fold, input, table, answers);
    InElements(rows);
    SameNameExactly(fold, fp.name, None);
    NamedRows(fold, input, rows, found.matches);
  }

  lemma SpelledMeans(name: string)
    ensures forall c :: Spelled(name, c) <==> c.name == name || name in c.aliases
  {
  }

  lemma InElements<T>(s: seq<T>)
    ensures forall x :: x in s <==> x in Elements(s)
  {
  }

  /** The result of a job is the verdict of the table on the numbers and the name of its fingerprint. */
  lemma ResultIsVerdict(
    fold: Fold, vesselId: string, fp: Fingerprint, table: seq<SanctionCandidate>, answers: Answers, checkedAt: int)
    requires AnsweredFrom(fold, fp, table, answers)
    ensures
      var done := ResultOf(fold, vesselId, fp, answers, checkedAt);
      && done.event.vesselId == vesselId && done.event.mmsi == fp.mmsi && done.event.checkedAt == checkedAt
      && done.profile == Profile(fp.imo, fp.name)
      && Verdict(fold, fp, table, done.event.status, done.event.matches)
  {
    hide Lookup, Matched, NameRows, ListedByNumber, NumberMatch, Describes, InListOrder, AnsweredFrom, Words, Folded;
    if ListedByNumber(fp.imo, Some(fp.mmsi), table) {
      NumberVerdict(fold, fp, table, answers);
    } else {
      NameVerdict(fold, fp, table, answers);
      var rows := NameRows(fold, MatchInput(fp.imo, Some(fp.mmsi), fp.name), answers);
      assert rows != [] ==> rows[0] in rows;
    }
  }

  /** The vessel's row is missing or older than the result. */
  predicate Admits(rows: map<string, Checked>, mmsi: string, checkedAt: int) {
    mmsi in rows ==> rows[mmsi].checkedAt < checkedAt
  }

  /**
   * What the first `completes` writes of a job leave: nothing when the vessel's row is as new as the result; otherwise
   * the row, then the published event, both with the verdict of the table, then the two cache entries.
   */
  ghost predicate Written(
    hash: Hash, fold: Fold, s: System, t: System, vesselId: string, fp: Fingerprint, table: seq<SanctionCandidate>,
    checkedAt: int, completes: nat)
  {
    if completes == 0 || !Admits(s.rows, fp.mmsi, checkedAt) then t == s
    else
      && fp.mmsi in t.rows && t.rows[fp.mmsi].checkedAt == checkedAt
      && t.rows == s.rows[fp.mmsi := t.rows[fp.mmsi]]
      && Verdict(fold, fp, table, t.rows[fp.mmsi].status, t.rows[fp.mmsi].matches)
      && t.stream == s.stream + (
           if completes >= 2
           then [EnrichedEvent(vesselId, fp.mmsi, t.rows[fp.mmsi].status, t.rows[fp.mmsi].matches, checkedAt)] else [])
      && t.profiles ==
           (if completes >= 3 then s.profiles[fp.mmsi := ProfileHashFor(hash, fold, Profile(fp.imo, fp.name))] else s.profiles)
      && t.checks == (if completes >= 4 then s.checks[fp.mmsi := checkedAt] else s.checks)
      && t.heard == s.heard
  }

  /** The state after the first writes of a job. */
  function AfterWrites(hash: Hash, fold: Fold, s: System, done: Done, completes: nat): System {
    var ev := done.event;
    if completes == 0 || !Admits(s.rows, ev.mmsi, ev.checkedAt) then s
    else
      System(
        s.rows[ev.mmsi := Checked(ev.status, ev.checkedAt, ev.matches)],
        s.applied + [done],
        if completes >= 2 then s.stream + [ev] else s.stream,
        if completes >= 3 then s.profiles[ev.mmsi := ProfileHashFor(hash, fold, done.profile)] else s.profiles,
        if completes >= 4 then s.checks[ev.mmsi := ev.checkedAt] else s.checks,
        s.heard)
  }

  lemma JobWrites(hash: Hash, fold: Fold, s: System, done: Done, completes: nat)
    ensures
      var actions := JobActions(s, done);
      RunFrom(hash, fold, s, actions[..if completes <= |actions| then completes else |actions|])
        == AfterWrites(hash, fold, s, done, completes)
  {
    var actions := JobActions(s, done);
    var n := if completes <= |actions| then completes else |actions|;
    FirstWrites(hash, fold, s, done);
    assert GuardPasses(s.rows, done.event) <==> Admits(s.rows, done.event.mmsi, done.event.checkedAt);
    hide RunFrom, ProfileHashFor;
    if GuardPasses(s.rows, done.event) {
      assert |actions| == 4;
      assert n == 0 || n == 1 || n == 2 || n == 3 || n == 4;
    } else {
      assert |actions| == 1;
      assert n == 0 || n == 1;
    }
  }

  /** However far a job gets, what it wrote is what the table says of its vessel. */
  lemma JobWritesVerdict(
    hash: Hash, fold: Fold, s: System, vesselId: string, fp: Fingerprint, table: seq<SanctionCandidate>, answers: Answers,
    checkedAt: int, completes: nat)
    requires AnsweredFrom(fold, fp, table, answers)
    ensures
      var actions := JobActions(s, ResultOf(fold, vesselId, fp, answers, checkedAt));
      var t := RunFrom(hash, fold, s, actions[..if completes <= |actions| then completes else |actions|]);
      Written(hash, fold, s, t, vesselId, fp, table, checkedAt, completes)
  {
    var done := ResultOf(fold, vesselId, fp, answers, checkedAt);
    ResultIsVerdict(fold, vesselId, fp, table, answers, checkedAt);
    JobWrites(hash, fold, s, done, completes);
    assert s.stream + [] == s.stream;
    hide ResultOf, Verdict, ProfileHashFor, RunFrom, JobActions;
  }

  lemma JobWritesVerdicts(
    hash: Hash, fold: Fold, s: System, vesselId: string, fp: Fingerprint, answers: Answers, checkedAt: int, completes: nat)
    ensures
      var actions := JobActions(s, ResultOf(fold, vesselId, fp, answers, checkedAt));
      var t := RunFrom(hash, fold, s, actions[..if completes <= |actions| then completes else |actions|]);
      forall table :: AnsweredFrom(fold, fp, table, answers) ==>
        Written(hash, fold, s, t, vesselId, fp, table, checkedAt, completes)
  {
    hide *;
    forall table | AnsweredFrom(fold, fp, table, answers)
      ensures
        var actions := JobActions(s, ResultOf(fold, vesselId, fp, answers, checkedAt));
        var t := RunFrom(hash, fold, s, actions[..if completes <= |actions| then completes else |actions|]);
        Written(hash, fold, s, t, vesselId, fp, table, checkedAt, completes)
    {
      JobWritesVerdict(hash, fold, s, vesselId, fp, table, answers, checkedAt, completes);
    }
  }

  // ----- The processor -----

  datatype Outcome = Skipped | Noop | Failed | Finished

  /** `EnrichmentProcessor` with the row, the stream and the two cache keys it writes. */
  class Processor {
    const hash: Hash
    const fold: Fold
    var rows: map<string, Checked>
    var stream: seq<EnrichedEvent>
    var profiles: map<string, string>
    var checks: map<string, int>
    ghost var applied: seq<Done>
    ghost var heard: seq<ClientOp>

    ghost function State(): System
      reads this
    {
      System(rows, applied, stream, profiles, checks, heard)
    }

    constructor (hash: Hash, fold: Fold)
      ensures State() == INITIAL && this.hash == hash && this.fold == fold
    {
      this.hash, this.fold := hash, fold;
      rows, stream, profiles, checks := map[], [], map[], map[];
      applied, heard := [], [];
    }

    /** The guarded update; gives the number of rows it changed. */
    method ApplyResult(done: Done) returns (updated: nat)
      modifies this
      ensures State() == Step(hash, fold, old(State()), ApplyEnrichment(done))
      ensures updated == if GuardPasses(old(rows), done.event) then 1 else 0
      ensures forall m :: m in old(rows) ==> m in rows && old(rows)[m].checkedAt <= rows[m].checkedAt
      ensures done.event.mmsi in rows && rows[done.event.mmsi].checkedAt >= done.event.checkedAt
    {
      var ev := done.event;
      if ev.mmsi !in rows || rows[ev.mmsi].checkedAt < ev.checkedAt {
        rows := rows[ev.mmsi := Checked(ev.status, ev.checkedAt, ev.matches)];
        applied := applied + [done];
        updated := 1;
      } else {
        updated := 0;
      }
    }

    /** `process`; the run is cut short after `completes` of its writes when a later one throws. */
    method Process(vesselId: string, fingerprint: Option<Fingerprint>, answers: Answers, checkedAt: int, completes: nat)
      returns (outcome: Outcome)
      modifies this
      ensures fingerprint.None? || fingerprint.value.id != vesselId ==> outcome == Skipped && State() == old(State())
      ensures fingerprint.Some? && fingerprint.value.id == vesselId ==>
        var actions := JobActions(old(State()), ResultOf(fold, vesselId, fingerprint.value, answers, checkedAt));
        && State() == RunFrom(hash, fold, old(State()), actions[..if completes <= |actions| then completes else |actions|])
        && (outcome == Noop <==> completes >= 1 && !Admits(old(rows), fingerprint.value.mmsi, checkedAt))
        && (outcome == Finished <==> completes >= 4 && Admits(old(rows), fingerprint.value.mmsi, checkedAt))
        && outcome != Skipped
      ensures fingerprint.Some? && fingerprint.value.id == vesselId ==>
        forall table :: AnsweredFrom(fold, fingerprint.value, table, answers) ==>
          Written(hash, fold, old(State()), State(), vesselId, fingerprint.value, table, checkedAt, completes)
    {
      if fingerprint.None? || fingerprint.value.id != vesselId { return Skipped; }
      var fp := fingerprint.value;
      var result := MatchSanctions(fold, MatchInput(fp.imo, Some(fp.mmsi), fp.name), answers);
      var enriched := EnrichedEvent(vesselId, fp.mmsi, result.status, result.matches, checkedAt);
      ghost var start := State();
      ghost var done := ResultOf(fold, vesselId, fp, answers, checkedAt);
      hide Lookup, RunFrom, JobActions, AnsweredFrom, Written, ProfileHashFor;
      JobWrites(hash, fold, start, done, completes);
      JobWritesVerdicts(hash, fold, start, vesselId, fp, answers, checkedAt, completes);
      if completes == 0 { return Failed; }
      var updated := ApplyResult(Done(enriched, Profile(fp.imo, fp.name)));
      if updated == 0 { return Noop; }
      if completes == 1 { return Failed; }
      stream := stream + [enriched];
      if completes == 2 { return Failed; }
      profiles := profiles[fp.mmsi := ProfileHashFor(hash, fold, Profile(fp.imo, fp.name))];
      if completes == 3 { return Failed; }
      checks := checks[fp.mmsi := checkedAt];
      return Finished;
    }
  }
}
