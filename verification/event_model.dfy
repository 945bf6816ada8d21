/** The security-event table and its create schema (`SecurityEventBase`,
    `SecurityEvent`, `SecurityEventCreate`). */
module EventModel {
  import opened Base

  const MaxEventTypeLength: nat := 100
  const MaxSeverityLength: nat := 50
  const MaxSourceIpLength: nat := 45
  const MaxDbNameLength: nat := 255

  /** `details` is a schema-less JSON document, kept as a string map. */
  datatype Event = Event(
    id: Id,
    clientId: Id,
    eventType: string,
    severity: string,
    sourceIp: Option<string>,
    details: Option<map<string, string>>,
    dbNameTarget: Option<string>,
    timestamp: Time)

  /** The submitted form has no `client_id`: attribution is the server's.
      A `timestamp` left out is filled in with the current time. */
  datatype EventCreate = EventCreate(
    eventType: string,
    severity: string,
    sourceIp: Option<string>,
    details: Option<map<string, string>>,
    dbNameTarget: Option<string>,
    timestamp: Option<Time>)

  predicate ValidEventCreate(e: EventCreate)
  {
    && |e.eventType| <= MaxEventTypeLength
    && |e.severity| <= MaxSeverityLength
    && (e.sourceIp.Some? ==> |e.sourceIp.value| <= MaxSourceIpLength)
    && (e.dbNameTarget.Some? ==> |e.dbNameTarget.value| <= MaxDbNameLength)
  }

  /** The stored row for a submitted event: the given id, the caller as
      owner, every submitted column copied, the timestamp defaulted. */
  function ToEvent(e: EventCreate, id: Id, owner: Id, now: Time): (r: Event)
    ensures r.id == id && r.clientId == owner
    ensures r.eventType == e.eventType && r.severity == e.severity
    ensures r.sourceIp == e.sourceIp && r.details == e.details && r.dbNameTarget == e.dbNameTarget
    ensures e.timestamp.None? ==> r.timestamp == now
    ensures e.timestamp.Some? ==> r.timestamp == e.timestamp.value
  {
    Event(id, owner, e.eventType, e.severity, e.sourceIp, e.details, e.dbNameTarget,
          match e.timestamp case None => now case Some(t) => t)
  }
}
