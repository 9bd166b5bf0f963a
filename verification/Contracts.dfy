/** The events that the services exchange. Timestamps are parsed instants; coordinates and rates are scaled integers. */
module Contracts {
  import opened Wrappers

  /** The telemetry of a position report. */
  datatype Fix = Fix(
    lat: int, lon: int, sog: Option<int>, cog: Option<int>, trueHeading: Option<int>,
    navStatus: Option<int>, rateOfTurn: Option<int>)

  datatype PositionEvent = PositionEvent(mmsi: string, occurredAt: int, ingestedAt: int, fix: Fix, shipName: Option<string>)

  datatype StaticEvent = StaticEvent(
    mmsi: string, imo: Option<string>, name: Option<string>, callSign: Option<string>,
    shipType: Option<int>, destination: Option<string>, occurredAt: int)

  datatype SanctionsStatus = Clear | Candidate | Sanctioned

  datatype MatchMethod = ByImo | ByMmsi | ByName

  datatype SanctionMatch = SanctionMatch(
    entityId: string, source: string, sourceEntityId: string, name: string, matchMethod: MatchMethod,
    aliases: seq<string>, flag: Option<string>, listingDate: Option<string>, programs: seq<string>)

  datatype EnrichedEvent = EnrichedEvent(
    vesselId: string, mmsi: string, status: SanctionsStatus, matches: seq<SanctionMatch>, checkedAt: int)

  datatype ServerMessage =
    | PositionMessage(position: PositionEvent)
    | StaticMessage(profile: StaticEvent)
    | EnrichedMessage(enriched: EnrichedEvent)
    | ErrorMessage(code: string)
}
