/**
 * Every field that the client shows of a vessel, told from the log of what it was given: no snapshot needs one row per
 * vessel here, and the state that the reducers keep between two updates is not mentioned.
 */
module ClientFields {
  import opened Wrappers
  import opened Contracts
  import opened MergeReducer
  import opened Convergence
  import opened Logs

  // ----- What one update says of a vessel -----

  /** The times by which an update of a vessel is judged old or not: of its position, its profile and its sanctions check. */
  datatype Times = Times(position: Option<int>, profile: Option<int>, check: Option<int>)

  const NO_TIMES := Times(None, None, None)

  /** A snapshot speaks of a vessel by the last of the vessel's rows. */
  function TimesOf(op: ClientOp, mmsi: string): Times {
    match op
    case Snapshot(rows) =>
      if LastRow(rows, mmsi).None? then NO_TIMES
      else Times(Some(LastRow(rows, mmsi).value.occurredAt), None, LastRow(rows, mmsi).value.sanctionsCheckedAt)
    case Position(ev) => if ev.mmsi == mmsi then Times(Some(ev.occurredAt), None, None) else NO_TIMES
    case Static(ev) => if ev.mmsi == mmsi then Times(None, Some(ev.occurredAt), None) else NO_TIMES
    case Enriched(ev) => if ev.mmsi == mmsi then Times(None, None, Some(ev.checkedAt)) else NO_TIMES
    case Detail(row) => if row.mmsi == mmsi then Times(None, None, row.sanctionsCheckedAt) else NO_TIMES
  }

  /** Whether nothing later was heard before. */
  datatype News = News(position: bool, profile: bool, check: bool)

  function PositionTimes(ops: seq<ClientOp>, mmsi: string): seq<Option<int>> {
    seq(|ops|, i requires 0 <= i < |ops| => TimesOf(ops[i], mmsi).position)
  }

  function ProfileTimes(ops: seq<ClientOp>, mmsi: string): seq<Option<int>> {
    seq(|ops|, i requires 0 <= i < |ops| => TimesOf(ops[i], mmsi).profile)
  }

  function CheckTimes(ops: seq<ClientOp>, mmsi: string): seq<Option<int>> {
    seq(|ops|, i requires 0 <= i < |ops| => TimesOf(ops[i], mmsi).check)
  }

  ghost function NewsIn(before: seq<ClientOp>, op: ClientOp, mmsi: string): News {
    var times := TimesOf(op, mmsi);
    News(
      NotOlder(times.position, PositionTimes(before, mmsi)),
      NotOlder(times.profile, ProfileTimes(before, mmsi)),
      NotOlder(times.check, CheckTimes(before, mmsi)))
  }

  /** What an update gives of a vessel, field by field; `None` leaves the field alone. */
  datatype Given = Given(
    vesselId: Option<string>, seenAt: Option<int>, track: Option<Track>, imo: Option<string>, name: Option<string>,
    callSign: Option<string>, shipType: Option<int>, destination: Option<string>,
    status: Option<Option<SanctionsStatus>>, matches: Option<seq<ShownMatch>>)

  const NOTHING := Given(None, None, None, None, None, None, None, None, None, None)

  function GivenBy(op: ClientOp, mmsi: string, news: News): Given {
    match op
    case Snapshot(rows) =>
      if LastRow(rows, mmsi).None? then NOTHING
      else
        var row := LastRow(rows, mmsi).value;
        Given(Some(row.id), Some(row.lastSeenAt), if news.position then Some(row.track) else None,
          row.imo, row.name, row.callSign, row.shipType, None,
          if news.check then Some(row.sanctionsStatus) else None, None)
    case Position(ev) =>
      if ev.mmsi != mmsi || !news.position then NOTHING
      else NOTHING.(
        seenAt := Some(ev.ingestedAt), name := ev.shipName,
        track := Some(Track(Some(ev.fix.lat), Some(ev.fix.lon), ev.fix.sog, ev.fix.cog, ev.fix.trueHeading, ev.fix.navStatus)))
    case Static(ev) =>
      if ev.mmsi != mmsi || !news.profile then NOTHING
      else NOTHING.(
        imo := ev.imo, name := ev.name, callSign := ev.callSign, shipType := ev.shipType, destination := ev.destination)
    case Enriched(ev) =>
      if ev.mmsi != mmsi || !news.check then NOTHING
      else NOTHING.(vesselId := Some(ev.vesselId), status := Some(Some(ev.status)), matches := Some(ShownMatches(ev.matches)))
    case Detail(row) =>
      if row.mmsi != mmsi || !news.check then NOTHING
      else NOTHING.(vesselId := Some(row.id), status := Some(row.sanctionsStatus), matches := Some(row.sanctionsMatches))
  }

  ghost function Givens(ops: seq<ClientOp>, mmsi: string): (gs: seq<Given>)
    ensures |gs| == |ops|
  {
    seq(|ops|, i requires 0 <= i < |ops| => GivenBy(ops[i], mmsi, NewsIn(ops[..i], ops[i], mmsi)))
  }

  // ----- What is shown of it -----

  function VesselIds(gs: seq<Given>): seq<Option<string>> {
    seq(|gs|, i requires 0 <= i < |gs| => gs[i].vesselId)
  }

  function SeenTimes(gs: seq<Given>): seq<Option<int>> {
    seq(|gs|, i requires 0 <= i < |gs| => gs[i].seenAt)
  }

  function Tracks(gs: seq<Given>): seq<Option<Track>> {
    seq(|gs|, i requires 0 <= i < |gs| => gs[i].track)
  }

  function Imos(gs: seq<Given>): seq<Option<string>> {
    seq(|gs|, i requires 0 <= i < |gs| => gs[i].imo)
  }

  function Names(gs: seq<Given>): seq<Option<string>> {
    seq(|gs|, i requires 0 <= i < |gs| => gs[i].name)
  }

  function CallSigns(gs: seq<Given>): seq<Option<string>> {
    seq(|gs|, i requires 0 <= i < |gs| => gs[i].callSign)
  }

  function ShipTypes(gs: seq<Given>): seq<Option<int>> {
    seq(|gs|, i requires 0 <= i < |gs| => gs[i].shipType)
  }

  function Destinations(gs: seq<Given>): seq<Option<string>> {
    seq(|gs|, i requires 0 <= i < |gs| => gs[i].destination)
  }

  function Statuses(gs: seq<Given>): seq<Option<Option<SanctionsStatus>>> {
    seq(|gs|, i requires 0 <= i < |gs| => gs[i].status)
  }

  function MatchLists(gs: seq<Given>): seq<Option<seq<ShownMatch>>> {
    seq(|gs|, i requires 0 <= i < |gs| => gs[i].matches)
  }

  /** The three times of a vessel are the greatest heard. */
  ghost predicate TimesShown(ops: seq<ClientOp>, mmsi: string, v: Vessel) {
    && ShowsGreatest(PositionTimes(ops, mmsi), v.occurredAt)
    && ShowsGreatest(ProfileTimes(ops, mmsi), v.staticOccurredAt)
    && ShowsGreatest(CheckTimes(ops, mmsi), v.sanctionsCheckedAt)
  }

  /** Every field shows the last given, or the empty vessel's value; the time last seen shows the greatest given. */
  ghost predicate FieldsShown(gs: seq<Given>, v: Vessel) {
    && ShowsLast(VesselIds(gs), v.vesselId)
    && ShowsGreatest(SeenTimes(gs), v.lastSeenAt)
    && (exists track :: ShowsLast(Tracks(gs), track) && v.track == track.GetOr(NO_TRACK))
    && ShowsLast(Imos(gs), v.imo)
    && ShowsLast(Names(gs), v.name)
    && ShowsLast(CallSigns(gs), v.callSign)
    && ShowsLast(ShipTypes(gs), v.shipType)
    && ShowsLast(Destinations(gs), v.destination)
    && (exists status :: ShowsLast(Statuses(gs), status) && v.sanctionsStatus == status.GetOr(None))
    && ShowsLast(MatchLists(gs), v.sanctionsMatches)
  }

  // ----- One more update -----

  /** What one update changes of a vessel, when freshness is judged by the times that the vessel shows. */
  ghost predicate Updates(v: Vessel, times: Times, g: Given, w: Vessel) {
    && w.mmsi == v.mmsi
    && w.occurredAt == MaxTimestamp(times.position, v.occurredAt)
    && w.staticOccurredAt == MaxTimestamp(times.profile, v.staticOccurredAt)
    && w.sanctionsCheckedAt == MaxTimestamp(times.check, v.sanctionsCheckedAt)
    && w.vesselId == PreferNonNull(g.vesselId, v.vesselId)
    && w.lastSeenAt == MaxTimestamp(g.seenAt, v.lastSeenAt)
    && w.track == g.track.GetOr(v.track)
    && w.imo == PreferNonNull(g.imo, v.imo)
    && w.name == PreferNonNull(g.name, v.name)
    && w.callSign == PreferNonNull(g.callSign, v.callSign)
    && w.shipType == PreferNonNull(g.shipType, v.shipType)
    && w.destination == PreferNonNull(g.destination, v.destination)
    && w.sanctionsStatus == g.status.GetOr(v.sanctionsStatus)
    && w.sanctionsMatches == PreferNonNull(g.matches, v.sanctionsMatches)
  }

  function Judge(v: Vessel, times: Times): News {
    News(
      IsNewer(times.position, v.occurredAt),
      IsNewer(times.profile, v.staticOccurredAt),
      IsNewer(times.check, v.sanctionsCheckedAt))
  }

  lemma RowUpdates(v: Vessel, row: SnapshotRow, rows: seq<SnapshotRow>)
    requires LastRow(rows, row.mmsi) == Some(row)
    ensures
      var times := TimesOf(Snapshot(rows), row.mmsi);
      Updates(v, times, GivenBy(Snapshot(rows), row.mmsi, Judge(v, times)), MergeRow(v, row))
  {
    hide LastRow;
  }

  lemma NoRowUpdates(v: Vessel, rows: seq<SnapshotRow>, mmsi: string)
    requires LastRow(rows, mmsi).None?
    ensures
      var times := TimesOf(Snapshot(rows), mmsi);
      Updates(v, times, GivenBy(Snapshot(rows), mmsi, Judge(v, times)), v)
  {
  }

  lemma SnapshotUpdates(prev: Vessels, rows: seq<SnapshotRow>, mmsi: string)
    ensures
      var v, times := VesselAt(prev, mmsi), TimesOf(Snapshot(rows), mmsi);
      Updates(v, times, GivenBy(Snapshot(rows), mmsi, Judge(v, times)), VesselAt(SnapshotMerged(prev, rows), mmsi))
  {
    var i := LastRowAt(rows, mmsi);
    hide MergeRow, SnapshotMerged, Updates, LastRow, GivenBy, TimesOf, Judge;
    if LastRow(rows, mmsi).Some? {
      SnapshotMergesLastRow(prev, rows, i);
      RowUpdates(VesselAt(prev, mmsi), rows[i], rows);
    } else {
      assert forall k :: 0 <= k < |rows| ==> rows[k] in rows;
      SnapshotLeavesOthers(prev, rows, mmsi);
      NoRowUpdates(VesselAt(prev, mmsi), rows, mmsi);
    }
  }

  lemma PositionUpdates(prev: Vessels, ev: PositionEvent, mmsi: string)
    ensures
      var v, times := VesselAt(prev, mmsi), TimesOf(Position(ev), mmsi);
      Updates(v, times, GivenBy(Position(ev), mmsi, Judge(v, times)), VesselAt(ApplyPosition(prev, ev), mmsi))
  {
  }

  lemma StaticUpdates(prev: Vessels, ev: StaticEvent, mmsi: string)
    ensures
      var v, times := VesselAt(prev, mmsi), TimesOf(Static(ev), mmsi);
      Updates(v, times, GivenBy(Static(ev), mmsi, Judge(v, times)), VesselAt(ApplyStatic(prev, ev), mmsi))
  {
  }

  lemma EnrichedUpdates(prev: Vessels, ev: EnrichedEvent, mmsi: string)
    ensures
      var v, times := VesselAt(prev, mmsi), TimesOf(Enriched(ev), mmsi);
      Updates(v, times, GivenBy(Enriched(ev), mmsi, Judge(v, times)), VesselAt(ApplyEnriched(prev, ev), mmsi))
  {
    hide ShownMatches;
  }

  lemma DetailUpdates(prev: Vessels, row: DetailRow, mmsi: string)
    ensures
      var v, times := VesselAt(prev, mmsi), TimesOf(Detail(row), mmsi);
      Updates(v, times, GivenBy(Detail(row), mmsi, Judge(v, times)), VesselAt(ApplyDetailSanctions(prev, row), mmsi))
  {
  }

  lemma OpUpdates(prev: Vessels, op: ClientOp, mmsi: string)
    ensures
      var v, times := VesselAt(prev, mmsi), TimesOf(op, mmsi);
      Updates(v, times, GivenBy(op, mmsi, Judge(v, times)), VesselAt(Apply(prev, op), mmsi))
  {
    hide SnapshotMerged, ApplyPosition, ApplyStatic, ApplyEnriched, ApplyDetailSanctions;
    hide Updates, TimesOf, GivenBy, Judge, VesselAt;
    match op
    case Snapshot(rows) => SnapshotUpdates(prev, rows, mmsi);
    case Position(ev) => PositionUpdates(prev, ev, mmsi);
    case Static(ev) => StaticUpdates(prev, ev, mmsi);
    case Enriched(ev) => EnrichedUpdates(prev, ev, mmsi);
    case Detail(row) => DetailUpdates(prev, row, mmsi);
  }

  // ----- Whole runs -----

  lemma TimesGrow(ops: seq<ClientOp>, op: ClientOp, mmsi: string, v: Vessel)
    requires TimesShown(ops, mmsi, v)
    ensures NewsIn(ops, op, mmsi) == Judge(v, TimesOf(op, mmsi))
    ensures forall g, w :: Updates(v, TimesOf(op, mmsi), g, w) ==> TimesShown(ops + [op], mmsi, w)
  {
    var times := TimesOf(op, mmsi);
    assert PositionTimes(ops + [op], mmsi) == PositionTimes(ops, mmsi) + [times.position];
    assert ProfileTimes(ops + [op], mmsi) == ProfileTimes(ops, mmsi) + [times.profile];
    assert CheckTimes(ops + [op], mmsi) == CheckTimes(ops, mmsi) + [times.check];
    hide PositionTimes, ProfileTimes, CheckTimes, TimesOf, ShowsGreatest, MaxTimestamp, NotOlder, IsNewer;
    GreatestGrows(PositionTimes(ops, mmsi), v.occurredAt, times.position);
    GreatestGrows(ProfileTimes(ops, mmsi), v.staticOccurredAt, times.profile);
    GreatestGrows(CheckTimes(ops, mmsi), v.sanctionsCheckedAt, times.check);
  }

  /** One more update appends to the values given for each field. */
  lemma ValuesGrow(gs: seq<Given>, g: Given)
    ensures VesselIds(gs + [g]) == VesselIds(gs) + [g.vesselId]
    ensures SeenTimes(gs + [g]) == SeenTimes(gs) + [g.seenAt]
    ensures Tracks(gs + [g]) == Tracks(gs) + [g.track]
    ensures Imos(gs + [g]) == Imos(gs) + [g.imo]
    ensures Names(gs + [g]) == Names(gs) + [g.name]
    ensures CallSigns(gs + [g]) == CallSigns(gs) + [g.callSign]
    ensures ShipTypes(gs + [g]) == ShipTypes(gs) + [g.shipType]
    ensures Destinations(gs + [g]) == Destinations(gs) + [g.destination]
    ensures Statuses(gs + [g]) == Statuses(gs) + [g.status]
    ensures MatchLists(gs + [g]) == MatchLists(gs) + [g.matches]
  {
  }

  lemma FieldsGrow(gs: seq<Given>, g: Given, times: Times, v: Vessel, w: Vessel)
    requires FieldsShown(gs, v) && Updates(v, times, g, w)
    ensures FieldsShown(gs + [g], w)
  {
    ValuesGrow(gs, g);
    hide ShowsLast, ShowsGreatest, MaxTimestamp, VesselIds, SeenTimes, Tracks, Imos, Names, CallSigns, ShipTypes, Destinations, Statuses, MatchLists;
    LastGrows(VesselIds(gs), v.vesselId, g.vesselId);
    LastGrows(Imos(gs), v.imo, g.imo);
    LastGrows(Names(gs), v.name, g.name);
    LastGrows(CallSigns(gs), v.callSign, g.callSign);
    LastGrows(ShipTypes(gs), v.shipType, g.shipType);
    LastGrows(Destinations(gs), v.destination, g.destination);
    LastGrows(MatchLists(gs), v.sanctionsMatches, g.matches);
    GreatestGrows(SeenTimes(gs), v.lastSeenAt, g.seenAt);
    var track :| ShowsLast(Tracks(gs), track) && v.track == track.GetOr(NO_TRACK);
    LastGrows(Tracks(gs), track, g.track);
    var status :| ShowsLast(Statuses(gs), status) && v.sanctionsStatus == status.GetOr(None);
    LastGrows(Statuses(gs), status, g.status);
  }

  lemma NothingShown(mmsi: string)
    ensures
      var v := VesselAt(Run(map[], []), mmsi);
      v.mmsi == mmsi && TimesShown([], mmsi, v) && FieldsShown(Givens([], mmsi), v)
  {
    assert Givens([], mmsi) == [];
    assert ShowsLast(Tracks([]), None);
    assert ShowsLast(Statuses([]), None);
  }

  lemma GivensGrow(ops: seq<ClientOp>, mmsi: string)
    requires ops != []
    ensures
      var front, op := ops[..|ops| - 1], ops[|ops| - 1];
      Givens(ops, mmsi) == Givens(front, mmsi) + [GivenBy(op, mmsi, NewsIn(front, op, mmsi))]
  {
    var front := ops[..|ops| - 1];
    assert forall i :: 0 <= i < |front| ==> front[..i] == ops[..i];
    hide GivenBy, NewsIn;
  }

  /**
   * Whatever updates a client is given, in whatever order: its times of a vessel are the greatest it heard; its position,
   * identity, profile and sanctions fields are each the last that was given by an update no older than those before it,
   * every row counting for the profile; and it was last seen at the greatest such time.
   */
  lemma {:induction false} ClientShowsLastGiven(ops: seq<ClientOp>, mmsi: string)
    ensures VesselAt(Run(map[], ops), mmsi).mmsi == mmsi
    ensures TimesShown(ops, mmsi, VesselAt(Run(map[], ops), mmsi))
    ensures FieldsShown(Givens(ops, mmsi), VesselAt(Run(map[], ops), mmsi))
  {
    hide *;
    if ops == [] {
      NothingShown(mmsi);
    } else {
      var front, op := ops[..|ops| - 1], ops[|ops| - 1];
      var prev := Run(map[], front);
      assert ops == front + [op];
      ClientShowsLastGiven(front, mmsi);
      RunGoesOn(ops);
      OpUpdates(prev, op, mmsi);
      TimesGrow(front, op, mmsi, VesselAt(prev, mmsi));
      UpdateKeepsMmsi(VesselAt(prev, mmsi), TimesOf(op, mmsi), GivenBy(op, mmsi, NewsIn(front, op, mmsi)),
        VesselAt(Apply(prev, op), mmsi));
      GivensGrow(ops, mmsi);
      FieldsGrow(Givens(front, mmsi), GivenBy(op, mmsi, NewsIn(front, op, mmsi)), TimesOf(op, mmsi),
        VesselAt(prev, mmsi), VesselAt(Apply(prev, op), mmsi));
    }
  }

  lemma UpdateKeepsMmsi(v: Vessel, times: Times, g: Given, w: Vessel)
    requires Updates(v, times, g, w)
    ensures w.mmsi == v.mmsi
  {
  }

  lemma RunGoesOn(ops: seq<ClientOp>)
    requires ops != []
    ensures Run(map[], ops) == Apply(Run(map[], ops[..|ops| - 1]), ops[|ops| - 1])
  {
  }

  // ----- Which vessels are shown, and which matches -----

  /** Everything but a detail row without a check time makes its vessel known, a static event too old for it included. */
  predicate Mentions(op: ClientOp, mmsi: string) {
    match op
    case Snapshot(rows) => exists row :: row in rows && row.mmsi == mmsi
    case Position(ev) => ev.mmsi == mmsi
    case Static(ev) => ev.mmsi == mmsi
    case Enriched(ev) => ev.mmsi == mmsi
    case Detail(row) => row.mmsi == mmsi && row.sanctionsCheckedAt.Some?
  }

  lemma OpMentions(prev: Vessels, op: ClientOp, mmsi: string)
    ensures mmsi in Apply(prev, op) <==> mmsi in prev || Mentions(op, mmsi)
  {
    if op.Snapshot? {
      var i := LastRowAt(op.rows, mmsi);
      hide MergeRow, SnapshotMerged, LastRow;
      if LastRow(op.rows, mmsi).Some? {
        SnapshotMergesLastRow(prev, op.rows, i);
        assert op.rows[i] in op.rows;
      } else {
        assert forall k :: 0 <= k < |op.rows| ==> op.rows[k] in op.rows;
        SnapshotLeavesOthers(prev, op.rows, mmsi);
      }
    } else {
      hide Moved, Profiled, Judged;
    }
  }

  /** A client knows exactly the vessels that something it was given mentions. */
  lemma {:induction false} KnownVesselsExactly(ops: seq<ClientOp>, mmsi: string)
    ensures mmsi in Run(map[], ops) <==> exists op :: op in ops && Mentions(op, mmsi)
  {
    if ops != [] {
      var front, op := ops[..|ops| - 1], ops[|ops| - 1];
      KnownVesselsExactly(front, mmsi);
      OpMentions(Run(map[], front), op, mmsi);
      RunGoesOn(ops);
      hide Run, Apply, Mentions;
      assert ops == front + [op];
    }
  }

  /** The matches shown are those of the two known sources, in their order. */
  lemma {:induction false} ShownMatchesInOrder(a: seq<SanctionMatch>, b: seq<SanctionMatch>, m: SanctionMatch)
    ensures ShownMatches(a + b) == ShownMatches(a) + ShownMatches(b)
    ensures ShownMatches([m]) ==
      if m.source == "ofac" || m.source == "opensanctions"
      then [ShownMatch(m.entityId, m.source, m.name, m.matchMethod, m.programs)] else []
  {
    assert [m][1..] == [];
    if a == [] {
      assert a + b == b;
    } else {
      ShownMatchesInOrder(a[1..], b, m);
      assert (a + b)[1..] == a[1..] + b;
    }
  }

  /** A newer row of a snapshot changes the status but leaves the matches of an older check on show. */
  lemma RowKeepsOldMatches(prev: Vessels, row: SnapshotRow)
    requires IsNewer(row.sanctionsCheckedAt, VesselAt(prev, row.mmsi).sanctionsCheckedAt)
    ensures
      var v := VesselAt(SnapshotMerged(prev, [row]), row.mmsi);
      v.sanctionsStatus == row.sanctionsStatus && v.sanctionsMatches == VesselAt(prev, row.mmsi).sanctionsMatches
  {
    SnapshotMergesLastRow(prev, [row], 0);
  }

  // ----- Pruning -----

  /** A vessel with a position was seen. */
  lemma {:induction false} PlacedWasSeen(ops: seq<ClientOp>, mmsi: string)
    ensures
      var v := VesselAt(Run(map[], ops), mmsi);
      v.occurredAt.Some? ==> v.lastSeenAt.Some?
  {
    if ops != [] {
      var front, op := ops[..|ops| - 1], ops[|ops| - 1];
      RunGoesOn(ops);
      PlacedWasSeen(front, mmsi);
      OpUpdates(Run(map[], front), op, mmsi);
      hide Run, Apply, VesselAt, LastRow;
    }
  }

  /**
   * A vessel is pruned exactly when the greatest time at which it was seen is too old, or, when no row and no position
   * of it was accepted, the greatest time of its profile is; one of which only sanctions are known is never pruned.
   */
  lemma PrunedExactly(ops: seq<ClientOp>, mmsi: string, now: int, maxAgeMs: int, seen: Option<int>, told: Option<int>)
    requires ShowsGreatest(SeenTimes(Givens(ops, mmsi)), seen) && ShowsGreatest(ProfileTimes(ops, mmsi), told)
    ensures Stale(VesselAt(Run(map[], ops), mmsi), now, maxAgeMs) <==>
      if seen.Some? then now - seen.value > maxAgeMs else told.Some? && now - told.value > maxAgeMs
  {
    var v := VesselAt(Run(map[], ops), mmsi);
    ClientShowsLastGiven(ops, mmsi);
    PlacedWasSeen(ops, mmsi);
    hide Run, VesselAt, ShowsGreatest, ShowsLast, SeenTimes, Givens, ProfileTimes, PositionTimes, CheckTimes;
    GreatestIsUnique(SeenTimes(Givens(ops, mmsi)), v.lastSeenAt, seen);
    GreatestIsUnique(ProfileTimes(ops, mmsi), v.staticOccurredAt, told);
  }
}
