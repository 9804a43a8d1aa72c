/** The event envelope exchanged between the SDK and the agent (agent/internal/ingest/types.go). */
module Wire {
  import opened Common

  type Payload = seq<byte>

  /** Go's `EventType` is a string: any other spelling is carried by `Other`. */
  datatype EventType = Input | Stub | Output | Metadata | Other(spelling: string)

  datatype Envelope = Envelope(
    schemaVersion: int,
    fixtureId: string,
    sessionId: string,
    eventType: EventType,
    timestampMs: int,
    payload: Payload,
    service: string,
    trace: string)
}
