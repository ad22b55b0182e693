/** The values that flow from the source adapters through the lifecycle layer
    into the store. Times are instants on one UTC clock, coordinates are real
    numbers. Raw payloads and feed metadata that no proof needs are not part of
    the model. */
module Types {

  datatype Option<+T> = None | Some(value: T)

  type Time = int

  /** One apparatus and its observed status on an incident. */
  datatype Unit = Unit(name: string, status: string, unitType: string)

  /** The composite primary key (source, incident_id). */
  datatype Key = Key(source: string, id: string)

  /** The snapshot's text columns and its position. */
  datatype Fields = Fields(natureCode: string, natureDesc: string, channel: string,
                           symbolCode: string, locationText: string, lon: real, lat: real)

  datatype Incident = Incident(key: Key, fields: Fields, units: seq<Unit>, incidentDate: Time)

  datatype Classification = Unclassified | AuthoritativeSuccess | DegradedSnapshot | PollFailure

  // The reasons given with a classification or a status.
  const RECENT_FAILURES := "recent_failures"
  const CONTRACT_INVALID := "contract_invalid"
  const SNAPSHOT_INCOMPLETE := "snapshot_incomplete"
  const PAYLOAD_FROZEN := "payload_frozen"
  const HEALTHY := "healthy"

  /** What a source returns from one fetch attempt. */
  datatype PollResult = PollResult(source: string, startedAt: Time, statusCode: int,
                                   incidents: seq<Incident>, payloadHash: string,
                                   classification: Classification, reason: string,
                                   unchangedSince: Option<Time>, err: Option<string>)
  {
    /** Only polls for which this holds may advance the clearing rule. */
    predicate Success() {
      && err.None?
      && 200 <= statusCode < 300
      && (classification.Unclassified? || classification.AuthoritativeSuccess?)
    }
  }
}
