/** The reducers that merge snapshots and live events into the client's vessel map. */
module MergeReducer {
  import opened Wrappers
  import opened Contracts

  /** The six position fields of a vessel. */
  datatype Track = Track(
    lat: Option<int>, lon: Option<int>, sog: Option<int>, cog: Option<int>,
    trueHeading: Option<int>, navStatus: Option<int>)

  const NO_TRACK := Track(None, None, None, None, None, None)

  datatype ShownMatch = ShownMatch(id: string, source: string, entityName: string, matchMethod: MatchMethod, programs: seq<string>)

  datatype Vessel = Vessel(
    mmsi: string,
    vesselId: Option<string>,
    lastSeenAt: Option<int>,
    track: Track,
    occurredAt: Option<int>,
    imo: Option<string>,
    name: Option<string>,
    callSign: Option<string>,
    shipType: Option<int>,
    destination: Option<string>,
    staticOccurredAt: Option<int>,
    sanctionsStatus: Option<SanctionsStatus>,
    sanctionsCheckedAt: Option<int>,
    sanctionsMatches: Option<seq<ShownMatch>>)

  type Vessels = map<string, Vessel>

  datatype SnapshotRow = SnapshotRow(
    id: string, mmsi: string, imo: Option<string>, name: Option<string>, callSign: Option<string>,
    shipType: Option<int>, track: Track, occurredAt: int, lastSeenAt: int,
    sanctionsStatus: Option<SanctionsStatus>, sanctionsCheckedAt: Option<int>)

  datatype DetailRow = DetailRow(
    id: string, mmsi: string, sanctionsStatus: Option<SanctionsStatus>, sanctionsCheckedAt: Option<int>,
    sanctionsMatches: seq<ShownMatch>)

  function EmptyVessel(mmsi: string): Vessel {
    Vessel(mmsi, None, None, NO_TRACK, None, None, None, None, None, None, None, None, None, None)
  }

  function VesselAt(prev: Vessels, mmsi: string): Vessel {
    if mmsi in prev then prev[mmsi] else EmptyVessel(mmsi)
  }

  predicate IsNewer(incoming: Option<int>, current: Option<int>) {
    incoming.Some? && (current.None? || incoming.value >= current.value)
  }

  function PreferNonNull<T>(incoming: Option<T>, current: Option<T>): Option<T> {
    if incoming.None? then current else incoming
  }

  function MaxTimestamp(a: Option<int>, b: Option<int>): Option<int> {
    if a.None? then b
    else if b.None? then a
    else if a.value >= b.value then a else b
  }

  function MergeRow(base: Vessel, row: SnapshotRow): Vessel {
    var seen := base.(vesselId := Some(row.id), lastSeenAt := MaxTimestamp(base.lastSeenAt, Some(row.lastSeenAt)));
    var placed :=
      if IsNewer(Some(row.occurredAt), base.occurredAt)
      then seen.(track := row.track, occurredAt := Some(row.occurredAt))
      else seen;
    var profiled := placed.(
      imo := PreferNonNull(row.imo, base.imo),
      name := PreferNonNull(row.name, base.name),
      callSign := PreferNonNull(row.callSign, base.callSign),
      shipType := PreferNonNull(row.shipType, base.shipType));
    if IsNewer(row.sanctionsCheckedAt, base.sanctionsCheckedAt)
    then profiled.(sanctionsStatus := row.sanctionsStatus, sanctionsCheckedAt := row.sanctionsCheckedAt)
    else profiled
  }

  /** Every row is merged with the vessel as it was before the snapshot, not after the rows above it. */
  function SnapshotMerged(prev: Vessels, rows: seq<SnapshotRow>): Vessels {
    if rows == [] then prev
    else
      var row := rows[|rows| - 1];
      SnapshotMerged(prev, rows[..|rows| - 1])[row.mmsi := MergeRow(VesselAt(prev, row.mmsi), row)]
  }

  /** `applySnapshotRows`. */
  method ApplySnapshotRows(prev: Vessels, rows: seq<SnapshotRow>) returns (next: Vessels)
    ensures next == SnapshotMerged(prev, rows)
  {
    hide MergeRow;
    next := prev;
    for i := 0 to |rows|
      invariant next == SnapshotMerged(prev, rows[..i])
    {
      assert rows[..i + 1][..i] == rows[..i];
      var row := rows[i];
      next := next[row.mmsi := MergeRow(VesselAt(prev, row.mmsi), row)];
    }
    assert rows[..|rows|] == rows;
  }

  lemma SnapshotUnrolls(prev: Vessels, rows: seq<SnapshotRow>)
    requires rows != []
    ensures SnapshotMerged(prev, rows) ==
      SnapshotMerged(prev, rows[..|rows| - 1])[rows[|rows| - 1].mmsi := MergeRow(VesselAt(prev, rows[|rows| - 1].mmsi), rows[|rows| - 1])]
  {
  }

  /** A snapshot leaves alone the vessels it has no row for. */
  lemma {:induction false} SnapshotLeavesOthers(prev: Vessels, rows: seq<SnapshotRow>, mmsi: string)
    requires forall i :: 0 <= i < |rows| ==> rows[i].mmsi != mmsi
    ensures mmsi in SnapshotMerged(prev, rows) <==> mmsi in prev
    ensures VesselAt(SnapshotMerged(prev, rows), mmsi) == VesselAt(prev, mmsi)
  {
    if rows != [] {
      SnapshotUnrolls(prev, rows);
      hide MergeRow, SnapshotMerged;
      SnapshotLeavesOthers(prev, rows[..|rows| - 1], mmsi);
    }
  }

  /** A vessel with rows is merged with its last row alone. */
  lemma {:induction false} SnapshotMergesLastRow(prev: Vessels, rows: seq<SnapshotRow>, i: nat)
    requires i < |rows| && forall j :: i < j < |rows| ==> rows[j].mmsi != rows[i].mmsi
    ensures rows[i].mmsi in SnapshotMerged(prev, rows)
    ensures SnapshotMerged(prev, rows)[rows[i].mmsi] == MergeRow(VesselAt(prev, rows[i].mmsi), rows[i])
  {
    SnapshotUnrolls(prev, rows);
    hide MergeRow, SnapshotMerged, VesselAt;
    if i < |rows| - 1 {
      SnapshotMergesLastRow(prev, rows[..|rows| - 1], i);
    }
  }

  function ApplyDetailSanctions(prev: Vessels, row: DetailRow): Vessels {
    var base := VesselAt(prev, row.mmsi);
    if !IsNewer(row.sanctionsCheckedAt, base.sanctionsCheckedAt) then prev
    else prev[row.mmsi := base.(
      vesselId := Some(row.id),
      sanctionsStatus := row.sanctionsStatus,
      sanctionsCheckedAt := row.sanctionsCheckedAt,
      sanctionsMatches := Some(row.sanctionsMatches))]
  }

  function TrackOf(fix: Fix): Track {
    Track(Some(fix.lat), Some(fix.lon), fix.sog, fix.cog, fix.trueHeading, fix.navStatus)
  }

  function Moved(base: Vessel, ev: PositionEvent): Vessel {
    base.(
      track := TrackOf(ev.fix),
      occurredAt := Some(ev.occurredAt),
      lastSeenAt := MaxTimestamp(base.lastSeenAt, Some(ev.ingestedAt)),
      name := PreferNonNull(ev.shipName, base.name))
  }

  function ApplyPosition(prev: Vessels, ev: PositionEvent): Vessels {
    var base := VesselAt(prev, ev.mmsi);
    if !IsNewer(Some(ev.occurredAt), base.occurredAt) then prev else prev[ev.mmsi := Moved(base, ev)]
  }

  function Profiled(base: Vessel, ev: StaticEvent): Vessel {
    base.(
      imo := PreferNonNull(ev.imo, base.imo),
      name := PreferNonNull(ev.name, base.name),
      callSign := PreferNonNull(ev.callSign, base.callSign),
      shipType := PreferNonNull(ev.shipType, base.shipType),
      destination := PreferNonNull(ev.destination, base.destination),
      staticOccurredAt := Some(ev.occurredAt))
  }

  /** A rejected static event still creates a stub for an unknown vessel; a stub has no time, so it accepts. */
  function ApplyStatic(prev: Vessels, ev: StaticEvent): Vessels {
    var base := VesselAt(prev, ev.mmsi);
    var accept := IsNewer(Some(ev.occurredAt), base.staticOccurredAt);
    if ev.mmsi in prev && !accept then prev
    else prev[ev.mmsi := if accept then Profiled(base, ev) else base]
  }

  /** Only the two known sources are shown. */
  function ShownMatches(matches: seq<SanctionMatch>): seq<ShownMatch> {
    if matches == [] then []
    else
      var m := matches[0];
      (if m.source == "ofac" || m.source == "opensanctions"
       then [ShownMatch(m.entityId, m.source, m.name, m.matchMethod, m.programs)] else [])
      + ShownMatches(matches[1..])
  }

  function Judged(base: Vessel, ev: EnrichedEvent): Vessel {
    base.(
      vesselId := Some(ev.vesselId),
      sanctionsStatus := Some(ev.status),
      sanctionsCheckedAt := Some(ev.checkedAt),
      sanctionsMatches := Some(ShownMatches(ev.matches)))
  }

  function ApplyEnriched(prev: Vessels, ev: EnrichedEvent): Vessels {
    var base := VesselAt(prev, ev.mmsi);
    if base.sanctionsCheckedAt.Some? && ev.checkedAt < base.sanctionsCheckedAt.value then prev
    else prev[ev.mmsi := Judged(base, ev)]
  }

  function ActivityAt(v: Vessel): Option<int> {
    if v.lastSeenAt.Some? then v.lastSeenAt
    else if v.occurredAt.Some? then v.occurredAt
    else v.staticOccurredAt
  }

  predicate Stale(v: Vessel, now: int, maxAgeMs: int) {
    ActivityAt(v).Some? && now - ActivityAt(v).value > maxAgeMs
  }

  /** `pruneStaleVessels`: exactly the vessels whose last known activity is too old go, the rest stay as they are. */
  method PruneStaleVessels(prev: Vessels, now: int, maxAgeMs: int) returns (next: Vessels)
    ensures forall m :: m in next <==> m in prev && !Stale(prev[m], now, maxAgeMs)
    ensures forall m :: m in next ==> next[m] == prev[m]
  {
    var changed := false;
    next := map[];
    var left := prev.Keys;
    while left != {}
      invariant left <= prev.Keys
      invariant forall m :: m in next <==> m in prev && m !in left && !Stale(prev[m], now, maxAgeMs)
      invariant forall m :: m in next ==> next[m] == prev[m]
      invariant !changed ==> forall m :: m in prev && m !in left ==> m in next
      decreases |left|
    {
      var m :| m in left;
      left := left - {m};
      if Stale(prev[m], now, maxAgeMs) {
        changed := true;
      } else {
        next := next[m := prev[m]];
      }
    }
    if !changed { next := prev; }
  }
}
