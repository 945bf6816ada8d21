/** The event endpoints (`endpoints/events.py`): batch submission by an
    authenticated agent and the administrative event log query. */
module EventsApi {
  import opened Base
  import opened Seqs
  import opened Security
  import opened ClientModel
  import opened EventModel
  import opened Db
  import opened CrudEvent
  import opened Deps

  const LogMaxLimit: nat := 200

  /** `POST /events`. Authentication first, then validation of every
      element of the list (422), then the handler's own refusal of an
      empty list (400); a non-empty valid batch is stored in one commit,
      every event owned by the caller whatever the body said. */
  function SubmitSecurityEvents(v: Vault, s: Store, key: Option<string>, batch: seq<EventCreate>, now: Time): (r: Result<Reply<seq<Event>>>)
    ensures Authenticate(v, s, key).Err? ==> r == Err(Authenticate(v, s, key).error)
    ensures Authenticate(v, s, key).Ok? ==>
              (r == Err(Unprocessable) <==> exists i :: 0 <= i < |batch| && !ValidEventCreate(batch[i]))
    ensures Authenticate(v, s, key).Ok? ==>
              (r == Err(BadRequest) <==> |batch| == 0)
    ensures r.Ok? <==> Authenticate(v, s, key).Ok? && |batch| > 0 && forall i :: 0 <= i < |batch| ==> ValidEventCreate(batch[i])
    ensures r.Ok? ==> var caller := Authenticate(v, s, key).value;
      && |r.value.body| == |batch|
      && (forall i :: 0 <= i < |batch| ==> r.value.body[i].clientId == caller.id)
      && r.value == CreateMultipleEvents(s, batch, caller, now)
  {
    match Authenticate(v, s, key)
    case Err(e) => Err(e)
    case Ok(caller) =>
      if exists i :: 0 <= i < |batch| && !ValidEventCreate(batch[i]) then Err(Unprocessable)
      else if |batch| == 0 then Err(BadRequest)
      else
        BatchAttribution(s, batch, caller, now);
        Ok(CreateMultipleEvents(s, batch, caller, now))
  }

  /** The query-parameter constraints of `GET /admin/events`. */
  predicate ValidLogQuery(skip: int, limit: int, q: EventQuery)
  {
    && skip >= 0
    && 1 <= limit <= LogMaxLimit as int
    && (q.eventType.Some? ==> |q.eventType.value| <= MaxEventTypeLength)
    && (q.severity.Some? ==> |q.severity.value| <= MaxSeverityLength)
  }

  /** `GET /admin/events`: `skip` defaults to 0 and `limit` to 100; 422
      for a parameter out of range; otherwise every filter is handed to
      the query unchanged. */
  function ReadSecurityEventsLog(s: Store, skip: Option<int>, limit: Option<int>, q: EventQuery): (r: Result<seq<Event>>)
    ensures var sk := GetOr(skip, DefaultSkip); var lim := GetOr(limit, DefaultListLimit);
      && (r.Err? <==> !ValidLogQuery(sk, lim, q))
      && (r.Err? ==> r.error == Unprocessable)
      && (r.Ok? ==> 0 <= sk && 1 <= lim && r.value == GetEvents(s, sk, lim, q))
      && (r.Ok? ==> |r.value| <= lim && forall e :: e in r.value ==> e in s.events && Matches(q, e))
  {
    var sk := GetOr(skip, DefaultSkip);
    var lim := GetOr(limit, DefaultListLimit);
    if !ValidLogQuery(sk, lim, q) then Err(Unprocessable)
    else Ok(GetEvents(s, sk, lim, q))
  }

  /** A successful log query is a window of the matching events arranged
      newest first; with no paging parameters, the 100 newest. */
  lemma ReadSecurityEventsLogIsWindow(s: Store, skip: Option<int>, limit: Option<int>, q: EventQuery)
    requires ReadSecurityEventsLog(s, skip, limit, q).Ok?
    ensures var sk := GetOr(skip, DefaultSkip); var lim := GetOr(limit, DefaultListLimit);
      0 <= sk && 1 <= lim &&
      exists sorted :: ArrangedDescending(sorted, EventMatches(s, q), Timestamp)
                       && Window(ReadSecurityEventsLog(s, skip, limit, q).value, sorted, sk, lim)
    ensures skip.None? && limit.None? ==>
      |ReadSecurityEventsLog(s, skip, limit, q).value| == Min(100, |EventMatches(s, q)|)
  {
    GetEventsIsWindow(s, GetOr(skip, DefaultSkip), GetOr(limit, DefaultListLimit), q);
  }
}
