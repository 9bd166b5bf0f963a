/** Snapshots and live events, in any order and with any repeats, converge to the same positions. */
module Convergence {
  import opened Wrappers
  import opened Contracts
  import opened MergeReducer

  datatype ClientOp =
    | Snapshot(rows: seq<SnapshotRow>)
    | Position(position: PositionEvent)
    | Static(profile: StaticEvent)
    | Enriched(enriched: EnrichedEvent)
    | Detail(row: DetailRow)

  function Apply(prev: Vessels, op: ClientOp): Vessels {
    match op
    case Snapshot(rows) => SnapshotMerged(prev, rows)
    case Position(ev) => ApplyPosition(prev, ev)
    case Static(ev) => ApplyStatic(prev, ev)
    case Enriched(ev) => ApplyEnriched(prev, ev)
    case Detail(row) => ApplyDetailSanctions(prev, row)
  }

  function Run(prev: Vessels, ops: seq<ClientOp>): Vessels {
    if ops == [] then prev else Apply(Run(prev, ops[..|ops| - 1]), ops[|ops| - 1])
  }

  /** A claim about where a vessel was at a time, in the fields the client shows. */
  datatype Report = Report(occurredAt: int, track: Track)

  function RowReports(rows: seq<SnapshotRow>, mmsi: string): set<Report> {
    set row | row in rows && row.mmsi == mmsi :: Report(row.occurredAt, row.track)
  }

  function PositionReport(ev: PositionEvent): Report {
    Report(ev.occurredAt, Track(
      Some(ev.fix.lat), Some(ev.fix.lon), ev.fix.sog, ev.fix.cog, ev.fix.trueHeading, ev.fix.navStatus))
  }

  function OpReports(op: ClientOp, mmsi: string): set<Report> {
    match op
    case Snapshot(rows) => RowReports(rows, mmsi)
    case Position(ev) => if ev.mmsi == mmsi then {PositionReport(ev)} else {}
    case _ => {}
  }

  function Reports(ops: seq<ClientOp>, mmsi: string): set<Report> {
    if ops == [] then {} else Reports(ops[..|ops| - 1], mmsi) + OpReports(ops[|ops| - 1], mmsi)
  }

  /** Equal times mean equal positions. */
  ghost predicate Consistent(reports: set<Report>) {
    forall r, s :: r in reports && s in reports && r.occurredAt == s.occurredAt ==> r == s
  }

  ghost predicate OneRowEach(rows: seq<SnapshotRow>) {
    forall i, j :: 0 <= i < j < |rows| ==> rows[i].mmsi != rows[j].mmsi
  }

  ghost predicate ProperSnapshots(ops: seq<ClientOp>) {
    forall i :: 0 <= i < |ops| && ops[i].Snapshot? ==> OneRowEach(ops[i].rows)
  }

  /** What the client shows of a vessel's position. */
  datatype Shown = Shown(occurredAt: Option<int>, track: Track)

  function ShownAt(vessels: Vessels, mmsi: string): Shown {
    Shown(VesselAt(vessels, mmsi).occurredAt, VesselAt(vessels, mmsi).track)
  }

  /** The client shows the newest report, or nothing when there is none. */
  ghost predicate ShowsNewest(shown: Shown, reports: set<Report>) {
    match shown.occurredAt
    case None => reports == {} && shown.track == NO_TRACK
    case Some(t) => Report(t, shown.track) in reports && forall r :: r in reports ==> r.occurredAt <= t
  }

  /** The last-writer-wins step on one vessel. */
  function Latest(shown: Shown, r: Report): Shown {
    if IsNewer(Some(r.occurredAt), shown.occurredAt) then Shown(Some(r.occurredAt), r.track) else shown
  }

  lemma LatestShowsNewest(shown: Shown, reports: set<Report>, r: Report)
    requires ShowsNewest(shown, reports)
    ensures ShowsNewest(Latest(shown, r), reports + {r})
  {
  }

  lemma RowIsLastWriterWins(base: Vessel, row: SnapshotRow)
    ensures Shown(MergeRow(base, row).occurredAt, MergeRow(base, row).track) ==
      Latest(Shown(base.occurredAt, base.track), Report(row.occurredAt, row.track))
  {
  }

  /** A snapshot with one row per vessel is a last-writer-wins step on each of its vessels. */
  lemma SnapshotStep(prev: Vessels, rows: seq<SnapshotRow>, mmsi: string)
    requires OneRowEach(rows)
    ensures (forall row :: row in rows ==> row.mmsi != mmsi) ==> ShownAt(SnapshotMerged(prev, rows), mmsi) == ShownAt(prev, mmsi)
    ensures forall row :: row in rows && row.mmsi == mmsi ==>
      ShownAt(SnapshotMerged(prev, rows), mmsi) == Latest(ShownAt(prev, mmsi), Report(row.occurredAt, row.track))
  {
    hide MergeRow, SnapshotMerged;
    forall row | row in rows && row.mmsi == mmsi
      ensures ShownAt(SnapshotMerged(prev, rows), mmsi) == Latest(ShownAt(prev, mmsi), Report(row.occurredAt, row.track))
    {
      var i :| 0 <= i < |rows| && rows[i] == row;
      SnapshotMergesLastRow(prev, rows, i);
      RowIsLastWriterWins(VesselAt(prev, mmsi), row);
    }
    if forall row :: row in rows ==> row.mmsi != mmsi {
      assert forall i :: 0 <= i < |rows| ==> rows[i] in rows;
      SnapshotLeavesOthers(prev, rows, mmsi);
    }
  }

  lemma OpShowsNewest(prev: Vessels, op: ClientOp, reports: set<Report>, mmsi: string)
    requires ShowsNewest(ShownAt(prev, mmsi), reports)
    requires op.Snapshot? ==> OneRowEach(op.rows)
    ensures ShowsNewest(ShownAt(Apply(prev, op), mmsi), reports + OpReports(op, mmsi))
  {
    match op
    case Snapshot(rows) =>
      SnapshotStep(prev, rows, mmsi);
      if row :| row in rows && row.mmsi == mmsi {
        LatestShowsNewest(ShownAt(prev, mmsi), reports, Report(row.occurredAt, row.track));
        assert RowReports(rows, mmsi) == {Report(row.occurredAt, row.track)} by { SingleRow(rows, row); }
      } else {
        assert RowReports(rows, mmsi) == {};
        assert reports + {} == reports;
      }
    case Position(ev) =>
      LatestShowsNewest(ShownAt(prev, mmsi), reports, PositionReport(ev));
      assert reports + {} == reports;
    case _ =>
      assert reports + {} == reports;
  }

  lemma SingleRow(rows: seq<SnapshotRow>, row: SnapshotRow)
    requires OneRowEach(rows) && row in rows
    ensures RowReports(rows, row.mmsi) == {Report(row.occurredAt, row.track)}
  {
    forall other | other in rows && other.mmsi == row.mmsi ensures other == row {
      var i :| 0 <= i < |rows| && rows[i] == row;
      var j :| 0 <= j < |rows| && rows[j] == other;
    }
  }

  /** After any mix of events and snapshots the client shows, per vessel, the report of greatest time. */
  lemma {:induction false} ClientShowsNewest(ops: seq<ClientOp>, mmsi: string)
    requires ProperSnapshots(ops)
    ensures ShowsNewest(ShownAt(Run(map[], ops), mmsi), Reports(ops, mmsi))
  {
    if ops != [] {
      var front := ops[..|ops| - 1];
      ClientShowsNewest(front, mmsi);
      hide Apply, ShowsNewest, OpReports;
      OpShowsNewest(Run(map[], front), ops[|ops| - 1], Reports(front, mmsi), mmsi);
    }
  }

  lemma NewestIsUnique(a: Shown, b: Shown, reports: set<Report>)
    requires ShowsNewest(a, reports) && ShowsNewest(b, reports) && Consistent(reports)
    ensures a == b
  {
    if a.occurredAt.Some? && b.occurredAt.Some? {
      assert Report(a.occurredAt.value, a.track) in reports;
      assert Report(b.occurredAt.value, b.track) in reports;
    }
  }

  /** Same reports of a vessel, in any order, with any repeats, among any other updates: the same position. */
  lemma ClientsConverge(xs: seq<ClientOp>, ys: seq<ClientOp>, mmsi: string)
    requires ProperSnapshots(xs) && ProperSnapshots(ys)
    requires Reports(xs, mmsi) == Reports(ys, mmsi) && Consistent(Reports(xs, mmsi))
    ensures ShownAt(Run(map[], xs), mmsi) == ShownAt(Run(map[], ys), mmsi)
  {
    ClientShowsNewest(xs, mmsi);
    ClientShowsNewest(ys, mmsi);
    NewestIsUnique(ShownAt(Run(map[], xs), mmsi), ShownAt(Run(map[], ys), mmsi), Reports(xs, mmsi));
  }

  lemma {:induction false} ReportsConcat(a: seq<ClientOp>, b: seq<ClientOp>, mmsi: string)
    ensures Reports(a + b, mmsi) == Reports(a, mmsi) + Reports(b, mmsi)
  {
    if b == [] {
      assert a + b == a;
    } else {
      ReportsConcat(a, b[..|b| - 1], mmsi);
      assert (a + b)[..|a + b| - 1] == a + b[..|b| - 1];
    }
  }

  /** A resync with rows the client hears of anyway, at any point of the run, changes no position. */
  lemma ResyncIsHarmless(before: seq<ClientOp>, rows: seq<SnapshotRow>, after: seq<ClientOp>, mmsi: string)
    requires ProperSnapshots(before) && ProperSnapshots(after) && OneRowEach(rows)
    requires RowReports(rows, mmsi) <= Reports(before + after, mmsi) && Consistent(Reports(before + after, mmsi))
    ensures ShownAt(Run(map[], before + [Snapshot(rows)] + after), mmsi) == ShownAt(Run(map[], before + after), mmsi)
  {
    hide RowReports, Run;
    ReportsConcat(before + [Snapshot(rows)], after, mmsi);
    ReportsConcat(before, [Snapshot(rows)], mmsi);
    ReportsConcat(before, after, mmsi);
    assert [Snapshot(rows)][..0] == [];
    assert Reports([Snapshot(rows)], mmsi) == RowReports(rows, mmsi);
    ClientsConverge(before + [Snapshot(rows)] + after, before + after, mmsi);
  }

  /** The last of a vessel's rows in a snapshot. */
  function LastRow(rows: seq<SnapshotRow>, mmsi: string): Option<SnapshotRow> {
    if rows == [] then None
    else if rows[|rows| - 1].mmsi == mmsi then Some(rows[|rows| - 1])
    else LastRow(rows[..|rows| - 1], mmsi)
  }

  lemma {:induction false} LastRowAt(rows: seq<SnapshotRow>, mmsi: string) returns (i: int)
    ensures LastRow(rows, mmsi).None? ==> forall row :: row in rows ==> row.mmsi != mmsi
    ensures LastRow(rows, mmsi).Some? ==>
      && 0 <= i < |rows| && rows[i] == LastRow(rows, mmsi).value && rows[i].mmsi == mmsi
      && forall j :: i < j < |rows| ==> rows[j].mmsi != mmsi
  {
    if rows == [] || rows[|rows| - 1].mmsi == mmsi {
      i := |rows| - 1;
    } else {
      i := LastRowAt(rows[..|rows| - 1], mmsi);
    }
  }

  /** No row of the vessel is later than both its last row and what was shown. */
  ghost predicate LastRowIsNewest(shown: Shown, rows: seq<SnapshotRow>, mmsi: string) {
    forall row :: row in rows && row.mmsi == mmsi ==>
      || row.occurredAt <= LastRow(rows, mmsi).GetOr(row).occurredAt
      || (shown.occurredAt.Some? && row.occurredAt <= shown.occurredAt.value)
  }

  /** Without one row per vessel: a snapshot leaves the newest report on show exactly when its last row is new enough. */
  lemma SnapshotShowsNewestExactly(prev: Vessels, rows: seq<SnapshotRow>, reports: set<Report>, mmsi: string)
    requires ShowsNewest(ShownAt(prev, mmsi), reports)
    ensures ShowsNewest(ShownAt(SnapshotMerged(prev, rows), mmsi), reports + RowReports(rows, mmsi)) <==>
      LastRowIsNewest(ShownAt(prev, mmsi), rows, mmsi)
  {
    var i := LastRowAt(rows, mmsi);
    hide MergeRow, SnapshotMerged, LastRow;
    var before := ShownAt(prev, mmsi);
    match LastRow(rows, mmsi)
    case None =>
      assert forall k :: 0 <= k < |rows| ==> rows[k] in rows;
      SnapshotLeavesOthers(prev, rows, mmsi);
      assert RowReports(rows, mmsi) == {};
      assert reports + {} == reports;
    case Some(last) =>
      SnapshotMergesLastRow(prev, rows, i);
      RowIsLastWriterWins(VesselAt(prev, mmsi), last);
      assert ShownAt(SnapshotMerged(prev, rows), mmsi) == Latest(before, Report(last.occurredAt, last.track));
      NewestExactly(before, reports, rows, last, mmsi);
  }

  lemma NewestExactly(before: Shown, reports: set<Report>, rows: seq<SnapshotRow>, last: SnapshotRow, mmsi: string)
    requires ShowsNewest(before, reports) && last in rows && last.mmsi == mmsi && LastRow(rows, mmsi) == Some(last)
    ensures ShowsNewest(Latest(before, Report(last.occurredAt, last.track)), reports + RowReports(rows, mmsi)) <==>
      LastRowIsNewest(before, rows, mmsi)
  {
    hide LastRow;
    var own := RowReports(rows, mmsi);
    assert Report(last.occurredAt, last.track) in own;
    assert (forall row :: row in rows && row.mmsi == mmsi ==> Report(row.occurredAt, row.track) in own);
  }

  /**
   * Why one row per vessel: two rows of a vessel in one snapshot are both merged with the vessel before the
   * snapshot, so the later row wins even when it is older.
   */
  lemma RepeatedRowsLoseTheNewer(newer: SnapshotRow, older: SnapshotRow)
    requires newer.mmsi == older.mmsi && newer.occurredAt > older.occurredAt
    ensures ShownAt(Run(map[], [Snapshot([newer, older])]), newer.mmsi) == Shown(Some(older.occurredAt), older.track)
    ensures ShownAt(Run(map[], [Snapshot([newer]), Snapshot([older])]), newer.mmsi) == Shown(Some(newer.occurredAt), newer.track)
  {
    hide MergeRow;
    var m, both, apart := newer.mmsi, [newer, older], [Snapshot([newer]), Snapshot([older])];
    SnapshotMergesLastRow(map[], both, 1);
    RowIsLastWriterWins(EmptyVessel(m), older);
    assert [Snapshot(both)][..0] == [];
    assert Run(map[], [Snapshot(both)]) == SnapshotMerged(map[], both);
    SnapshotMergesLastRow(map[], [newer], 0);
    var one := SnapshotMerged(map[], [newer]);
    RowIsLastWriterWins(EmptyVessel(m), newer);
    SnapshotMergesLastRow(one, [older], 0);
    RowIsLastWriterWins(one[m], older);
    assert apart[..1] == [Snapshot([newer])] && apart[..1][..0] == [];
    assert Run(map[], apart[..1]) == one;
    assert Run(map[], apart) == SnapshotMerged(one, [older]);
  }

  // ----- What never goes back -----

  /** A timestamp never decreases, and a known profile field never becomes unknown. */
  ghost predicate NeverReverts(v: Vessel, w: Vessel) {
    && NoEarlier(v.occurredAt, w.occurredAt)
    && NoEarlier(v.lastSeenAt, w.lastSeenAt)
    && NoEarlier(v.staticOccurredAt, w.staticOccurredAt)
    && NoEarlier(v.sanctionsCheckedAt, w.sanctionsCheckedAt)
    && (v.imo.Some? ==> w.imo.Some?)
    && (v.name.Some? ==> w.name.Some?)
    && (v.callSign.Some? ==> w.callSign.Some?)
    && (v.shipType.Some? ==> w.shipType.Some?)
    && (v.destination.Some? ==> w.destination.Some?)
  }

  ghost predicate NoEarlier(a: Option<int>, b: Option<int>) {
    a.Some? ==> b.Some? && a.value <= b.value
  }

  lemma RowNeverReverts(base: Vessel, row: SnapshotRow)
    ensures NeverReverts(base, MergeRow(base, row))
  {
  }

  lemma {:induction false} SnapshotNeverReverts(prev: Vessels, rows: seq<SnapshotRow>, mmsi: string)
    ensures NeverReverts(VesselAt(prev, mmsi), VesselAt(SnapshotMerged(prev, rows), mmsi))
  {
    if rows == [] {
    } else {
      hide MergeRow, NeverReverts;
      var last := rows[|rows| - 1];
      if last.mmsi == mmsi {
        RowNeverReverts(VesselAt(prev, mmsi), last);
      } else {
        SnapshotNeverReverts(prev, rows[..|rows| - 1], mmsi);
      }
    }
  }

  lemma {:induction false} ClientNeverReverts(prev: Vessels, ops: seq<ClientOp>, mmsi: string)
    ensures NeverReverts(VesselAt(prev, mmsi), VesselAt(Run(prev, ops), mmsi))
  {
    if ops != [] {
      hide Apply, VesselAt;
      ClientNeverReverts(prev, ops[..|ops| - 1], mmsi);
      OpNeverReverts(Run(prev, ops[..|ops| - 1]), ops[|ops| - 1], mmsi);
    }
  }

  lemma OpNeverReverts(prev: Vessels, op: ClientOp, mmsi: string)
    ensures NeverReverts(VesselAt(prev, mmsi), VesselAt(Apply(prev, op), mmsi))
  {
    var base := VesselAt(prev, mmsi);
    match op
    case Snapshot(rows) => SnapshotNeverReverts(prev, rows, mmsi);
    case Position(ev) => assert NeverReverts(base, base);
    case Static(ev) => assert NeverReverts(base, base);
    case Enriched(ev) => assert NeverReverts(base, base);
    case Detail(row) => assert NeverReverts(base, base);
  }
}
