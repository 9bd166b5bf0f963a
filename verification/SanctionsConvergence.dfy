/** The freshness guards of the server and of the client, from the database row to what the client shows. */
module SanctionsConvergence {
  import opened Wrappers
  import opened Names
  import opened Contracts
  import opened Matcher
  import opened SanctionsLookup
  import opened EnrichmentRequests
  import opened MergeReducer
  import opened Convergence

  /** The sanctions columns of a vessel that has been checked. */
  datatype Checked = Checked(status: SanctionsStatus, checkedAt: int, matches: seq<SanctionMatch>)

  /** A result that the database accepted, and the profile it was computed from. */
  datatype Done = Done(event: EnrichedEvent, profile: Profile)

  /** Rows and cache entries are keyed by vessel; `heard` is what the client has been given so far. */
  datatype System = System(
    rows: map<string, Checked>, applied: seq<Done>, stream: seq<EnrichedEvent>,
    profiles: map<string, string>, checks: map<string, int>, heard: seq<ClientOp>)

  const INITIAL := System(map[], [], [], map[], map[], [])

  datatype Action =
    | ApplyEnrichment(done: Done)
    | Publish(k: nat)
    | CacheProfile(k: nat)
    | CacheChecked(k: nat)
    | ExpireChecked(mmsi: string)
    | Client(op: ClientOp)

  predicate GuardPasses(rows: map<string, Checked>, ev: EnrichedEvent) {
    ev.mmsi !in rows || rows[ev.mmsi].checkedAt < ev.checkedAt
  }

  /** A pair of columns that the vessel's row once held; a row never checked has none. */
  ghost predicate OnceHeld(applied: seq<Done>, mmsi: string, status: Option<SanctionsStatus>, checkedAt: Option<int>) {
    checkedAt.Some? ==>
      exists d :: d in applied && d.event.mmsi == mmsi && Some(d.event.checkedAt) == checkedAt && Some(d.event.status) == status
  }

  /** The client hears published results, and rows as the database holds or once held them. */
  ghost predicate MayHear(s: System, op: ClientOp) {
    match op
    case Snapshot(rows) =>
      && OneRowEach(rows)
      && forall row :: row in rows ==> OnceHeld(s.applied, row.mmsi, row.sanctionsStatus, row.sanctionsCheckedAt)
    case Detail(row) => OnceHeld(s.applied, row.mmsi, row.sanctionsStatus, row.sanctionsCheckedAt)
    case Enriched(ev) => ev in s.stream
    case _ => true
  }

  ghost predicate Enabled(s: System, a: Action) {
    match a
    case Publish(k) => k < |s.applied|
    case CacheProfile(k) => k < |s.applied| && s.applied[k].event in s.stream
    case CacheChecked(k) => k < |s.applied| && s.applied[k].event in s.stream
    case Client(op) => MayHear(s, op)
    case _ => true
  }

  function Step(hash: Hash, fold: Fold, s: System, a: Action): System {
    match a
    case ApplyEnrichment(d) =>
      if GuardPasses(s.rows, d.event)
      then s.(rows := s.rows[d.event.mmsi := Checked(d.event.status, d.event.checkedAt, d.event.matches)], applied := s.applied + [d])
      else s
    case Publish(k) => if k < |s.applied| then s.(stream := s.stream + [s.applied[k].event]) else s
    case CacheProfile(k) =>
      if k < |s.applied|
      then s.(profiles := s.profiles[s.applied[k].event.mmsi := ProfileHashFor(hash, fold, s.applied[k].profile)])
      else s
    case CacheChecked(k) =>
      if k < |s.applied| then s.(checks := s.checks[s.applied[k].event.mmsi := s.applied[k].event.checkedAt]) else s
    case ExpireChecked(mmsi) => s.(checks := s.checks - {mmsi})
    case Client(op) => s.(heard := s.heard + [op])
  }

  function RunFrom(hash: Hash, fold: Fold, s: System, actions: seq<Action>): System
    decreases |actions|
  {
    if actions == [] then s else RunFrom(hash, fold, Step(hash, fold, s, actions[0]), actions[1..])
  }

  ghost predicate EnabledRun(hash: Hash, fold: Fold, s: System, actions: seq<Action>)
    decreases |actions|
  {
    actions == [] || (Enabled(s, actions[0]) && EnabledRun(hash, fold, Step(hash, fold, s, actions[0]), actions[1..]))
  }

  // ----- One job -----

  datatype Fingerprint = Fingerprint(id: string, mmsi: string, imo: Option<string>, name: Option<string>)

  /** The writes of one job, in their order; a rejected result stops after the first. */
  function JobActions(s: System, done: Done): seq<Action> {
    var k := |s.applied|;
    [ApplyEnrichment(done)] + if GuardPasses(s.rows, done.event) then [Publish(k), CacheProfile(k), CacheChecked(k)] else []
  }

  function ResultOf(fold: Fold, vesselId: string, fp: Fingerprint, answers: Answers, checkedAt: int): Done {
    var found := Lookup(fold, MatchInput(fp.imo, Some(fp.mmsi), fp.name), answers);
    Done(EnrichedEvent(vesselId, fp.mmsi, found.status, found.matches, checkedAt), Profile(fp.imo, fp.name))
  }

  /** The state after each write of a job. */
  lemma FirstWrites(hash: Hash, fold: Fold, s: System, done: Done)
    ensures var actions, one := JobActions(s, done), Step(hash, fold, s, ApplyEnrichment(done));
      && RunFrom(hash, fold, s, actions[..0]) == s
      && RunFrom(hash, fold, s, actions[..1]) == one
      && (GuardPasses(s.rows, done.event) ==>
            var two := one.(stream := s.stream + [done.event]);
            var three := two.(profiles := s.profiles[done.event.mmsi := ProfileHashFor(hash, fold, done.profile)]);
            var four := three.(checks := s.checks[done.event.mmsi := done.event.checkedAt]);
            && RunFrom(hash, fold, s, actions[..2]) == two
            && RunFrom(hash, fold, s, actions[..3]) == three
            && RunFrom(hash, fold, s, actions[..4]) == four)
  {
    var actions, k := JobActions(s, done), |s.applied|;
    RunOfOne(hash, fold, s, actions[0]);
    assert actions[..1] == [actions[0]];
    if GuardPasses(s.rows, done.event) {
      assert actions == [ApplyEnrichment(done), Publish(k), CacheProfile(k), CacheChecked(k)];
      assert actions[..2] == actions[..1] + [actions[1]];
      assert actions[..3] == actions[..2] + [actions[2]];
      assert actions[..4] == actions[..3] + [actions[3]];
      RunSnoc(hash, fold, s, actions[..1], actions[1]);
      RunSnoc(hash, fold, s, actions[..2], actions[2]);
      RunSnoc(hash, fold, s, actions[..3], actions[3]);
    }
  }

  lemma RunOfOne(hash: Hash, fold: Fold, s: System, a: Action)
    ensures RunFrom(hash, fold, s, [a]) == Step(hash, fold, s, a)
  {
    assert [a][1..] == [];
  }

  lemma {:induction false} RunSnoc(hash: Hash, fold: Fold, s: System, actions: seq<Action>, a: Action)
    ensures RunFrom(hash, fold, s, actions + [a]) == Step(hash, fold, RunFrom(hash, fold, s, actions), a)
    decreases |actions|
  {
    hide Step;
    if actions == [] {
      assert [] + [a] == [a];
      RunOfOne(hash, fold, s, a);
    } else {
      RunSnoc(hash, fold, Step(hash, fold, s, actions[0]), actions[1..], a);
      assert (actions + [a])[1..] == actions[1..] + [a];
    }
  }

  // ----- The database -----

  /** Accepted results of a vessel have strictly increasing times. */
  ghost predicate StrictlyIncreasing(applied: seq<Done>) {
    forall i, j :: 0 <= i < j < |applied| && applied[i].event.mmsi == applied[j].event.mmsi
      ==> applied[i].event.checkedAt < applied[j].event.checkedAt
  }

  /** A row is the newest accepted result of its vessel. */
  ghost predicate RowsAreNewest(applied: seq<Done>, rows: map<string, Checked>) {
    && (forall d :: d in applied ==> d.event.mmsi in rows && d.event.checkedAt <= rows[d.event.mmsi].checkedAt)
    && (forall m :: m in rows ==>
          exists d :: d in applied && d.event.mmsi == m && rows[m] == Checked(d.event.status, d.event.checkedAt, d.event.matches))
  }

  ghost predicate OnlyAppliedIsPublished(applied: seq<Done>, stream: seq<EnrichedEvent>) {
    forall ev :: ev in stream ==> exists d :: d in applied && d.event == ev
  }

  /** A cached profile belongs to a result that was both accepted and published. */
  ghost predicate CachedAfterPublished(
    hash: Hash, fold: Fold, applied: seq<Done>, stream: seq<EnrichedEvent>, profiles: map<string, string>)
  {
    forall m :: m in profiles ==>
      exists d :: d in applied && d.event in stream && d.event.mmsi == m && ProfileHashFor(hash, fold, d.profile) == profiles[m]
  }

  ghost predicate HeardIsHeld(applied: seq<Done>, heard: seq<ClientOp>) {
    && ProperSnapshots(heard)
    && forall i, m, c :: 0 <= i < |heard| && c in OpClaims(heard[i], m) ==> OnceHeld(applied, m, c.status, Some(c.checkedAt))
  }

  ghost predicate Inv(hash: Hash, fold: Fold, s: System) {
    && StrictlyIncreasing(s.applied)
    && RowsAreNewest(s.applied, s.rows)
    && OnlyAppliedIsPublished(s.applied, s.stream)
    && CachedAfterPublished(hash, fold, s.applied, s.stream, s.profiles)
    && HeardIsHeld(s.applied, s.heard)
  }

  lemma ApplyKeepsOrder(s: System, d: Done)
    requires StrictlyIncreasing(s.applied) && RowsAreNewest(s.applied, s.rows) && GuardPasses(s.rows, d.event)
    ensures StrictlyIncreasing(s.applied + [d])
  {
    var applied := s.applied + [d];
    forall i, j | 0 <= i < j < |applied| && applied[i].event.mmsi == applied[j].event.mmsi
      ensures applied[i].event.checkedAt < applied[j].event.checkedAt
    {
      assert applied[i] in s.applied;
    }
  }

  lemma ApplyKeepsRows(applied: seq<Done>, rows: map<string, Checked>, d: Done)
    requires RowsAreNewest(applied, rows) && GuardPasses(rows, d.event)
    ensures RowsAreNewest(applied + [d], rows[d.event.mmsi := Checked(d.event.status, d.event.checkedAt, d.event.matches)])
  {
    var rows' := rows[d.event.mmsi := Checked(d.event.status, d.event.checkedAt, d.event.matches)];
    forall m | m in rows'
      ensures exists e :: e in applied + [d] && e.event.mmsi == m && rows'[m] == Checked(e.event.status, e.event.checkedAt, e.event.matches)
    {
      if m == d.event.mmsi {
        assert d in applied + [d];
      } else {
        var e :| e in applied && e.event.mmsi == m && rows[m] == Checked(e.event.status, e.event.checkedAt, e.event.matches);
        assert e in applied + [d];
      }
    }
  }

  /** What was held stays held. */
  lemma HeldStays(s: System, t: System)
    requires HeardIsHeld(s.applied, s.heard) && t.heard == s.heard && forall d :: d in s.applied ==> d in t.applied
    ensures HeardIsHeld(t.applied, t.heard)
  {
    hide OpClaims;
    forall i, m, c | 0 <= i < |t.heard| && c in OpClaims(t.heard[i], m) ensures OnceHeld(t.applied, m, c.status, Some(c.checkedAt)) {
      assert OnceHeld(s.applied, m, c.status, Some(c.checkedAt));
    }
  }

  lemma HearKeeps(s: System, op: ClientOp, t: System)
    requires HeardIsHeld(s.applied, s.heard) && OnlyAppliedIsPublished(s.applied, s.stream) && MayHear(s, op) && t == s.(heard := s.heard + [op])
    ensures HeardIsHeld(t.applied, t.heard)
  {
    forall i, m, c | 0 <= i < |t.heard| && c in OpClaims(t.heard[i], m) ensures OnceHeld(t.applied, m, c.status, Some(c.checkedAt)) {
      assert i < |s.heard| ==> t.heard[i] == s.heard[i];
    }
  }

  lemma CachedStays(hash: Hash, fold: Fold, s: System, t: System)
    requires CachedAfterPublished(hash, fold, s.applied, s.stream, s.profiles) && t.profiles == s.profiles
    requires (forall d :: d in s.applied ==> d in t.applied) && (forall ev :: ev in s.stream ==> ev in t.stream)
    ensures CachedAfterPublished(hash, fold, t.applied, t.stream, t.profiles)
  {
    hide ProfileHashFor;
  }

  lemma StepKeeps(hash: Hash, fold: Fold, s: System, a: Action)
    requires Inv(hash, fold, s) && Enabled(s, a)
    ensures Inv(hash, fold, Step(hash, fold, s, a))
  {
    hide StrictlyIncreasing, RowsAreNewest, OnlyAppliedIsPublished, CachedAfterPublished, HeardIsHeld, ProfileHashFor, MayHear;
    var t := Step(hash, fold, s, a);
    match a
    case ApplyEnrichment(d) =>
      if GuardPasses(s.rows, d.event) {
        ApplyKeepsOrder(s, d);
        ApplyKeepsRows(s.applied, s.rows, d);
        PublishedStays(s, t);
        HeldStays(s, t);
        CachedStays(hash, fold, s, t);
      }
    case Publish(k) =>
      PublishKeeps(s, k, t);
      CachedStays(hash, fold, s, t);
    case CacheProfile(k) => CacheKeeps(hash, fold, s, k, t);
    case Client(op) => HearKeeps(s, op, t);
    case _ =>
  }

  lemma PublishedStays(s: System, t: System)
    requires OnlyAppliedIsPublished(s.applied, s.stream) && t.stream == s.stream && forall d :: d in s.applied ==> d in t.applied
    ensures OnlyAppliedIsPublished(t.applied, t.stream)
  {
  }

  lemma PublishKeeps(s: System, k: nat, t: System)
    requires OnlyAppliedIsPublished(s.applied, s.stream) && k < |s.applied| && t == s.(stream := s.stream + [s.applied[k].event])
    ensures OnlyAppliedIsPublished(t.applied, t.stream)
  {
  }

  lemma CacheKeeps(hash: Hash, fold: Fold, s: System, k: nat, t: System)
    requires CachedAfterPublished(hash, fold, s.applied, s.stream, s.profiles) && k < |s.applied| && s.applied[k].event in s.stream
    requires t == s.(profiles := s.profiles[s.applied[k].event.mmsi := ProfileHashFor(hash, fold, s.applied[k].profile)])
    ensures CachedAfterPublished(hash, fold, t.applied, t.stream, t.profiles)
  {
    hide ProfileHashFor;
    assert s.applied[k] in s.applied;
  }

  lemma {:induction false} RunKeeps(hash: Hash, fold: Fold, s: System, actions: seq<Action>)
    requires Inv(hash, fold, s) && EnabledRun(hash, fold, s, actions)
    ensures Inv(hash, fold, RunFrom(hash, fold, s, actions))
    decreases |actions|
  {
    if actions != [] {
      hide Inv, Step, Enabled;
      StepKeeps(hash, fold, s, actions[0]);
      RunKeeps(hash, fold, Step(hash, fold, s, actions[0]), actions[1..]);
    }
  }

  lemma InitialInv(hash: Hash, fold: Fold)
    ensures Inv(hash, fold, INITIAL)
  {
  }

  /** In every run the accepted times of a vessel strictly increase, so no two published results share one. */
  lemma AppliedTimesIncrease(hash: Hash, fold: Fold, actions: seq<Action>)
    requires EnabledRun(hash, fold, INITIAL, actions)
    ensures var s := RunFrom(hash, fold, INITIAL, actions);
      && StrictlyIncreasing(s.applied)
      && RowsAreNewest(s.applied, s.rows)
      && forall d, e :: d in s.applied && e in s.applied && d.event.mmsi == e.event.mmsi && d.event.checkedAt == e.event.checkedAt ==> d == e
  {
    InitialInv(hash, fold);
    RunKeeps(hash, fold, INITIAL, actions);
    hide Enabled, Step, RowsAreNewest, CachedAfterPublished, HeardIsHeld;
    SameTimeSameResult(RunFrom(hash, fold, INITIAL, actions).applied);
  }

  lemma SameTimeSameResult(applied: seq<Done>)
    requires StrictlyIncreasing(applied)
    ensures forall d, e :: d in applied && e in applied && d.event.mmsi == e.event.mmsi && d.event.checkedAt == e.event.checkedAt ==> d == e
  {
    forall d, e | d in applied && e in applied && d.event.mmsi == e.event.mmsi && d.event.checkedAt == e.event.checkedAt ensures d == e {
      var i :| 0 <= i < |applied| && applied[i] == d;
      var j :| 0 <= j < |applied| && applied[j] == e;
    }
  }

  /**
   * In every run, a request is skipped as fresh only after a result for a profile that matches alike was accepted and
   * published.
   */
  lemma SkippedMeansPublished(hash: Hash, fold: Fold, actions: seq<Action>, mmsi: string, asked: Profile)
    requires EnabledRun(hash, fold, INITIAL, actions) && Injective(hash)
    ensures var s := RunFrom(hash, fold, INITIAL, actions);
      var cached := if mmsi in s.profiles then Some(s.profiles[mmsi]) else None;
      var checked := if mmsi in s.checks then Some("checked") else None;
      Decide(cached, checked, ProfileHashFor(hash, fold, asked)).None? ==>
        exists d :: d in s.applied && d.event in s.stream && d.event.mmsi == mmsi
          && forall cs :: Matched(fold, InputOf(Some(mmsi), d.profile), cs) == Matched(fold, InputOf(Some(mmsi), asked), cs)
  {
    InitialInv(hash, fold);
    RunKeeps(hash, fold, INITIAL, actions);
    hide Enabled, Step, RowsAreNewest, HeardIsHeld, Matched, ProfileHashFor;
    var s := RunFrom(hash, fold, INITIAL, actions);
    if mmsi in s.profiles && s.profiles[mmsi] == ProfileHashFor(hash, fold, asked) {
      var d :| d in s.applied && d.event in s.stream && d.event.mmsi == mmsi && ProfileHashFor(hash, fold, d.profile) == s.profiles[mmsi];
      forall cs ensures Matched(fold, InputOf(Some(mmsi), d.profile), cs) == Matched(fold, InputOf(Some(mmsi), asked), cs) {
        HashDeterminesMatch(hash, fold, Some(mmsi), d.profile, asked, cs);
      }
    }
  }

  // ----- The client -----

  /** A claim about a vessel's sanctions columns. */
  datatype Claim = Claim(status: Option<SanctionsStatus>, checkedAt: int)

  function ClaimOf(status: Option<SanctionsStatus>, checkedAt: Option<int>): set<Claim> {
    if checkedAt.Some? then {Claim(status, checkedAt.value)} else {}
  }

  ghost function OpClaims(op: ClientOp, mmsi: string): set<Claim> {
    match op
    case Snapshot(rows) =>
      set row | row in rows && row.mmsi == mmsi && row.sanctionsCheckedAt.Some? :: Claim(row.sanctionsStatus, row.sanctionsCheckedAt.value)
    case Enriched(ev) => if ev.mmsi == mmsi then {Claim(Some(ev.status), ev.checkedAt)} else {}
    case Detail(row) => if row.mmsi == mmsi then ClaimOf(row.sanctionsStatus, row.sanctionsCheckedAt) else {}
    case _ => {}
  }

  ghost function Claims(ops: seq<ClientOp>, mmsi: string): set<Claim> {
    if ops == [] then {} else Claims(ops[..|ops| - 1], mmsi) + OpClaims(ops[|ops| - 1], mmsi)
  }

  /** The pair that the client shows. */
  datatype Standing = Standing(status: Option<SanctionsStatus>, checkedAt: Option<int>)

  function StandingOf(v: Vessel): Standing {
    Standing(v.sanctionsStatus, v.sanctionsCheckedAt)
  }

  function StandingAt(vessels: Vessels, mmsi: string): Standing {
    StandingOf(VesselAt(vessels, mmsi))
  }

  ghost predicate StandsByNewest(shown: Standing, claims: set<Claim>) {
    match shown.checkedAt
    case None => claims == {} && shown.status == None
    case Some(t) => Claim(shown.status, t) in claims && forall c :: c in claims ==> c.checkedAt <= t
  }

  function Settled(shown: Standing, status: Option<SanctionsStatus>, checkedAt: Option<int>): Standing {
    if IsNewer(checkedAt, shown.checkedAt) then Standing(status, checkedAt) else shown
  }

  lemma SettledIsNewest(shown: Standing, claims: set<Claim>, status: Option<SanctionsStatus>, checkedAt: Option<int>)
    requires StandsByNewest(shown, claims)
    ensures StandsByNewest(Settled(shown, status, checkedAt), claims + ClaimOf(status, checkedAt))
  {
  }

  lemma RowSettles(base: Vessel, row: SnapshotRow)
    ensures StandingOf(MergeRow(base, row)) == Settled(StandingOf(base), row.sanctionsStatus, row.sanctionsCheckedAt)
  {
  }

  lemma SnapshotSettles(prev: Vessels, rows: seq<SnapshotRow>, mmsi: string, claims: set<Claim>)
    requires OneRowEach(rows) && StandsByNewest(StandingAt(prev, mmsi), claims)
    ensures StandsByNewest(StandingAt(SnapshotMerged(prev, rows), mmsi), claims + OpClaims(Snapshot(rows), mmsi))
  {
    hide MergeRow, SnapshotMerged, StandsByNewest;
    if i :| 0 <= i < |rows| && rows[i].mmsi == mmsi {
      var row := rows[i];
      SnapshotMergesLastRow(prev, rows, i);
      RowSettles(VesselAt(prev, mmsi), row);
      SettledIsNewest(StandingAt(prev, mmsi), claims, row.sanctionsStatus, row.sanctionsCheckedAt);
      forall other | other in rows && other.mmsi == mmsi ensures other == row {
        var j :| 0 <= j < |rows| && rows[j] == other;
      }
      assert OpClaims(Snapshot(rows), mmsi) == ClaimOf(row.sanctionsStatus, row.sanctionsCheckedAt);
    } else {
      SnapshotLeavesOthers(prev, rows, mmsi);
      assert OpClaims(Snapshot(rows), mmsi) == {};
      assert claims + {} == claims;
    }
  }

  lemma OpSettles(prev: Vessels, op: ClientOp, mmsi: string, claims: set<Claim>)
    requires op.Snapshot? ==> OneRowEach(op.rows)
    requires StandsByNewest(StandingAt(prev, mmsi), claims)
    ensures StandsByNewest(StandingAt(Apply(prev, op), mmsi), claims + OpClaims(op, mmsi))
  {
    assert claims + {} == claims;
    match op
    case Snapshot(rows) => SnapshotSettles(prev, rows, mmsi, claims);
    case Enriched(ev) => SettledIsNewest(StandingAt(prev, mmsi), claims, Some(ev.status), Some(ev.checkedAt));
    case Detail(row) => SettledIsNewest(StandingAt(prev, mmsi), claims, row.sanctionsStatus, row.sanctionsCheckedAt);
    case _ =>
  }

  /** The client shows the newest pair it has heard of, whatever the order. */
  lemma {:induction false} ClientStandsByNewest(ops: seq<ClientOp>, mmsi: string)
    requires ProperSnapshots(ops)
    ensures StandsByNewest(StandingAt(Run(map[], ops), mmsi), Claims(ops, mmsi))
  {
    if ops != [] {
      hide Apply, StandsByNewest, OpClaims;
      var front := ops[..|ops| - 1];
      ClientStandsByNewest(front, mmsi);
      OpSettles(Run(map[], front), ops[|ops| - 1], mmsi, Claims(front, mmsi));
    }
  }

  lemma {:induction false} ClaimsHaveSources(ops: seq<ClientOp>, mmsi: string, c: Claim)
    ensures c in Claims(ops, mmsi) <==> exists i :: 0 <= i < |ops| && c in OpClaims(ops[i], mmsi)
  {
    if ops != [] {
      hide OpClaims;
      var front := ops[..|ops| - 1];
      ClaimsHaveSources(front, mmsi, c);
      if i :| 0 <= i < |front| && c in OpClaims(front[i], mmsi) { assert ops[i] == front[i]; }
      if i :| 0 <= i < |ops| && c in OpClaims(ops[i], mmsi) {
        if i < |front| { assert front[i] == ops[i]; }
      }
    }
  }

  /** What the client has been told of the vessel includes the pair that the database holds now. */
  ghost predicate ToldTheRow(s: System, mmsi: string) {
    mmsi in s.rows && exists i :: 0 <= i < |s.heard| && Claim(Some(s.rows[mmsi].status), s.rows[mmsi].checkedAt) in OpClaims(s.heard[i], mmsi)
  }

  /**
   * In every run the client shows a pair that the database once held, never a newer one; and it shows the pair the
   * database holds now exactly when it has been told of it, in any order, with any repeats, by any route.
   */
  lemma ClientFollowsDatabase(hash: Hash, fold: Fold, actions: seq<Action>, mmsi: string)
    requires EnabledRun(hash, fold, INITIAL, actions)
    ensures var s := RunFrom(hash, fold, INITIAL, actions);
      var shown := StandingAt(Run(map[], s.heard), mmsi);
      && OnceHeld(s.applied, mmsi, shown.status, shown.checkedAt)
      && (shown.checkedAt.None? ==> shown.status.None?)
      && (shown.checkedAt.Some? ==> mmsi in s.rows && shown.checkedAt.value <= s.rows[mmsi].checkedAt)
      && (mmsi in s.rows ==>
            (shown == Standing(Some(s.rows[mmsi].status), Some(s.rows[mmsi].checkedAt)) <==> ToldTheRow(s, mmsi)))
  {
    InitialInv(hash, fold);
    RunKeeps(hash, fold, INITIAL, actions);
    var s := RunFrom(hash, fold, INITIAL, actions);
    hide RunFrom, EnabledRun, CachedAfterPublished, OnlyAppliedIsPublished;
    ShownIsHeld(s, mmsi);
  }

  lemma ShownIsHeld(s: System, mmsi: string)
    requires StrictlyIncreasing(s.applied) && RowsAreNewest(s.applied, s.rows) && HeardIsHeld(s.applied, s.heard)
    ensures var shown := StandingAt(Run(map[], s.heard), mmsi);
      && OnceHeld(s.applied, mmsi, shown.status, shown.checkedAt)
      && (shown.checkedAt.None? ==> shown.status.None?)
      && (shown.checkedAt.Some? ==> mmsi in s.rows && shown.checkedAt.value <= s.rows[mmsi].checkedAt)
      && (mmsi in s.rows ==>
            (shown == Standing(Some(s.rows[mmsi].status), Some(s.rows[mmsi].checkedAt)) <==> ToldTheRow(s, mmsi)))
  {
    var shown := StandingAt(Run(map[], s.heard), mmsi);
    ClientStandsByNewest(s.heard, mmsi);
    hide OpClaims, StandingAt, Run, Claims;
    if shown.checkedAt.Some? {
      ClaimIsHeld(s, mmsi, Claim(shown.status, shown.checkedAt.value));
    }
    if mmsi in s.rows {
      var now := Claim(Some(s.rows[mmsi].status), s.rows[mmsi].checkedAt);
      ClaimsHaveSources(s.heard, mmsi, now);
      if ToldTheRow(s, mmsi) {
        assert now in Claims(s.heard, mmsi);
        HeldOnceAtATime(s, mmsi, Claim(shown.status, shown.checkedAt.value));
      }
    }
  }

  lemma ClaimIsHeld(s: System, mmsi: string, c: Claim)
    requires HeardIsHeld(s.applied, s.heard) && RowsAreNewest(s.applied, s.rows) && c in Claims(s.heard, mmsi)
    ensures OnceHeld(s.applied, mmsi, c.status, Some(c.checkedAt))
    ensures mmsi in s.rows && c.checkedAt <= s.rows[mmsi].checkedAt
  {
    hide OpClaims, Claims;
    ClaimsHaveSources(s.heard, mmsi, c);
  }

  /** A pair once held with the time of the row is the row's pair. */
  lemma HeldOnceAtATime(s: System, mmsi: string, c: Claim)
    requires StrictlyIncreasing(s.applied) && RowsAreNewest(s.applied, s.rows) && mmsi in s.rows
    requires OnceHeld(s.applied, mmsi, c.status, Some(c.checkedAt)) && c.checkedAt == s.rows[mmsi].checkedAt
    ensures c.status == Some(s.rows[mmsi].status)
  {
    SameTimeSameResult(s.applied);
  }
}
