/** Security-event storage and query (`crud_event.py`). */
module CrudEvent {
  import opened Base
  import opened Seqs
  import opened ClientModel
  import opened EventModel
  import opened Db

  /** Stores one event, attributed to `client`: the single create as it
      is evidently meant to behave. `CreateEventValidating` is the code as
      written. */
  function CreateEvent(s: Store, input: EventCreate, client: Client, now: Time): (r: Reply<Event>)
    ensures r.body.clientId == client.id && r.body.id == s.nextId
    ensures r.store == s.(events := s.events + [r.body], nextId := s.nextId + 1)
  {
    var e := ToEvent(input, s.nextId, client.id, now);
    Reply(s.(events := s.events + [e], nextId := s.nextId + 1), e)
  }

  /** Stores a batch in one commit: one event per input, in input order,
      each attributed to `client`, each with its own fresh id. */
  function CreateMultipleEvents(s: Store, batch: seq<EventCreate>, client: Client, now: Time): (r: Reply<seq<Event>>)
    ensures |r.body| == |batch|
    ensures forall i :: 0 <= i < |batch| ==> r.body[i] == ToEvent(batch[i], s.nextId + i, client.id, now)
    ensures r.store == s.(events := s.events + r.body, nextId := s.nextId + |batch|)
  {
    var created := seq(|batch|, i requires 0 <= i < |batch| => ToEvent(batch[i], s.nextId + i, client.id, now));
    Reply(s.(events := s.events + created, nextId := s.nextId + |batch|), created)
  }

  /** `SecurityEvent.model_validate(event_in)` as written: the table model
      checks its own required columns, and `client_id` is one of them. The
      create schema carries no client id (`owner` is `None` for every
      submitted event), and the handler assigns one only after this call,
      so the validation error escapes the handler as a 500. */
  function ValidateAsTableRow(e: EventCreate, owner: Option<Id>, id: Id, now: Time): (r: Result<Event>)
    ensures r.Ok? <==> owner.Some?
    ensures r.Err? ==> r.error == ServerError
    ensures r.Ok? ==> r.value.clientId == owner.value && r.value.eventType == e.eventType && r.value.id == id
  {
    match owner
    case None => Err(ServerError)
    case Some(o) => Ok(ToEvent(e, id, o, now))
  }

  /** `create_event`: the submitted event is validated as a table row
      carrying `carried` as its client id, and only then given the caller
      as owner. As written nothing is carried (`None`). */
  function CreateEventValidating(s: Store, input: EventCreate, client: Client, carried: Option<Id>, now: Time): (r: Result<Reply<Event>>)
    ensures r.Ok? <==> carried.Some?
    ensures r.Err? ==> r.error == ServerError
    ensures r.Ok? ==> r.value.body.clientId == client.id && r.value.store.events == s.events + [r.value.body]
  {
    match ValidateAsTableRow(input, carried, s.nextId, now)
    case Err(e) => Err(e)
    case Ok(row) =>
      var e := row.(clientId := client.id);
      Ok(Reply(s.(events := s.events + [e], nextId := s.nextId + 1), e))
  }

  /** As written, `create_event` never stores anything. */
  lemma AsWrittenCreateEventIsRefused(s: Store, input: EventCreate, client: Client, now: Time)
    ensures CreateEventValidating(s, input, client, None, now) == Err(ServerError)
  {
  }

  /** With the caller's id carried into the validation, `create_event`
      stores exactly what `CreateEvent`, the corrected single create,
      stores. */
  lemma RepairedCreateEventIsStored(s: Store, input: EventCreate, client: Client, now: Time)
    ensures CreateEventValidating(s, input, client, Some(client.id), now) == Ok(CreateEvent(s, input, client, now))
  {
  }

  /** The loop of `create_multiple_events`: each submitted event is
      validated as a table row carrying `carried` as its client id, and
      only then given the caller as owner. As written nothing is carried
      (`None`); passing the caller's id into the validation
      (`Some(client.id)`) is the repair. */
  function CreateMultipleEventsValidating(s: Store, batch: seq<EventCreate>, client: Client, carried: Option<Id>, now: Time): (r: Result<Reply<seq<Event>>>)
    ensures r.Ok? ==> |r.value.body| == |batch|
    ensures r.Err? ==> r.error == ServerError
    decreases |batch|
  {
    if |batch| == 0 then Ok(Reply(s, []))
    else match ValidateAsTableRow(batch[0], carried, s.nextId, now)
      case Err(e) => Err(e)
      case Ok(row) =>
        var first := row.(clientId := client.id);
        match CreateMultipleEventsValidating(s.(events := s.events + [first], nextId := s.nextId + 1), batch[1..], client, carried, now)
        case Err(e) => Err(e)
        case Ok(rest) => Ok(Reply(rest.store, [first] + rest.body))
  }

  /** As written, no non-empty batch is ever stored: the first event
      already fails validation. */
  lemma AsWrittenBatchIsRefused(s: Store, batch: seq<EventCreate>, client: Client, now: Time)
    requires |batch| > 0
    ensures CreateMultipleEventsValidating(s, batch, client, None, now) == Err(ServerError)
  {
  }

  /** With the caller's id carried into the validation, the loop stores
      the batch exactly as `CreateMultipleEvents`, which the rest of the
      model uses. */
  lemma RepairedBatchIsStored(s: Store, batch: seq<EventCreate>, client: Client, now: Time)
    ensures CreateMultipleEventsValidating(s, batch, client, Some(client.id), now) == Ok(CreateMultipleEvents(s, batch, client, now))
  {
    RepairedLoopIsOneByOne(s, batch, client, now);
    BatchIsSequenceOfSingleCreates(s, batch, client, now);
  }

  lemma {:induction false} RepairedLoopIsOneByOne(s: Store, batch: seq<EventCreate>, client: Client, now: Time)
    ensures CreateMultipleEventsValidating(s, batch, client, Some(client.id), now) == Ok(CreateEventsOneByOne(s, batch, client, now))
    decreases |batch|
  {
    if |batch| > 0 {
      var first := CreateEvent(s, batch[0], client, now);
      RepairedLoopIsOneByOne(first.store, batch[1..], client, now);
    }
  }

  /** Every stored event of a batch belongs to the caller, carries the
      submitted columns, and has an id of its own that no earlier row has. */
  lemma BatchAttribution(s: Store, batch: seq<EventCreate>, client: Client, now: Time)
    ensures var r := CreateMultipleEvents(s, batch, client, now);
      && (forall i :: 0 <= i < |batch| ==> r.body[i].clientId == client.id)
      && (forall i :: 0 <= i < |batch| ==> r.body[i].eventType == batch[i].eventType && r.body[i].severity == batch[i].severity)
      && (forall i :: 0 <= i < |batch| ==> batch[i].timestamp.None? ==> r.body[i].timestamp == now)
      && (forall i, j :: 0 <= i < j < |batch| ==> r.body[i].id != r.body[j].id)
      && (forall i :: 0 <= i < |batch| ==> s.nextId <= r.body[i].id < r.store.nextId)
  {
  }

  /** Storing the batch in one commit is the same as storing its events
      one at a time, in order. */
  function CreateEventsOneByOne(s: Store, batch: seq<EventCreate>, client: Client, now: Time): (r: Reply<seq<Event>>)
    decreases |batch|
  {
    if |batch| == 0 then Reply(s, [])
    else
      var first := CreateEvent(s, batch[0], client, now);
      var rest := CreateEventsOneByOne(first.store, batch[1..], client, now);
      Reply(rest.store, [first.body] + rest.body)
  }

  lemma {:induction false} BatchIsSequenceOfSingleCreates(s: Store, batch: seq<EventCreate>, client: Client, now: Time)
    ensures CreateMultipleEvents(s, batch, client, now) == CreateEventsOneByOne(s, batch, client, now)
    decreases |batch|
  {
    if |batch| > 0 {
      var first := CreateEvent(s, batch[0], client, now);
      BatchIsSequenceOfSingleCreates(first.store, batch[1..], client, now);
      var whole := CreateMultipleEvents(s, batch, client, now);
      var tail := CreateMultipleEvents(first.store, batch[1..], client, now);
      var one := CreateEventsOneByOne(s, batch, client, now);
      assert one.body == [first.body] + tail.body && one.store == tail.store;
      assert whole.body == [first.body] + tail.body by {
        forall i | 0 <= i < |tail.body|
          ensures tail.body[i] == whole.body[i + 1]
        {
          assert batch[1..][i] == batch[i + 1];
        }
      }
      assert first.store.events == s.events + [first.body];
      assert tail.store.events == first.store.events + tail.body;
      assert whole.store.events == s.events + whole.body;
      SeqAssoc(s.events, [first.body], tail.body);
      assert whole.store.nextId == tail.store.nextId;
      assert whole.store.clients == tail.store.clients && whole.store.commands == tail.store.commands;
    } else {
      assert s.events + [] == s.events;
    }
  }

  lemma SeqAssoc<T>(a: seq<T>, b: seq<T>, c: seq<T>)
    ensures (a + b) + c == a + (b + c)
  {
  }

  /** The admin query: every filter optional, all of them together. */
  datatype EventQuery = EventQuery(
    clientId: Option<Id>,
    eventType: Option<string>,
    severity: Option<string>,
    startDate: Option<Time>,
    endDate: Option<Time>)

  /** `if event_type:` skips the filter for None and for the empty string. */
  predicate TextFilter(filter: Option<string>, value: string)
  {
    filter.None? || filter.value == "" || value == filter.value
  }

  /** Date bounds are inclusive at both ends. */
  predicate Matches(q: EventQuery, e: Event)
  {
    && (q.clientId.Some? ==> e.clientId == q.clientId.value)
    && TextFilter(q.eventType, e.eventType)
    && TextFilter(q.severity, e.severity)
    && (q.startDate.Some? ==> q.startDate.value <= e.timestamp)
    && (q.endDate.Some? ==> e.timestamp <= q.endDate.value)
  }

  function Timestamp(e: Event): int
  {
    e.timestamp
  }

  /** The events the query accepts, in store order. */
  function EventMatches(s: Store, q: EventQuery): (r: seq<Event>)
    ensures forall e :: e in r <==> e in s.events && Matches(q, e)
  {
    Filter(s.events, (e: Event) => Matches(q, e))
  }

  /** Matching events, newest first, then `OFFSET skip LIMIT limit`. */
  function GetEvents(s: Store, skip: nat, limit: nat, q: EventQuery): (r: seq<Event>)
    ensures forall e :: e in r ==> e in s.events && Matches(q, e)
    ensures Descending(r, Timestamp)
    ensures |r| == (if skip < |EventMatches(s, q)| then Min(limit, |EventMatches(s, q)| - skip) else 0)
    ensures skip == 0 ==> forall e, d :: e in r && d in s.events && Matches(q, d) && d !in r ==> e.timestamp >= d.timestamp
    ensures skip == 0 && |EventMatches(s, q)| <= limit ==> forall d :: d in s.events && Matches(q, d) ==> d in r
  {
    var sorted := SortDescending(EventMatches(s, q), Timestamp);
    DescendingPage(sorted, skip, limit, Timestamp);
    Page(sorted, skip, limit)
  }

  /** The result is the window `[skip, skip + limit)` of the matching
      events arranged newest first. */
  lemma GetEventsIsWindow(s: Store, skip: nat, limit: nat, q: EventQuery)
    ensures exists sorted :: ArrangedDescending(sorted, EventMatches(s, q), Timestamp)
                             && Window(GetEvents(s, skip, limit, q), sorted, skip, limit)
  {
    var sorted := SortDescending(EventMatches(s, q), Timestamp);
    assert ArrangedDescending(sorted, EventMatches(s, q), Timestamp);
    assert Window(GetEvents(s, skip, limit, q), sorted, skip, limit);
  }

  /** Storing a batch for a stored client keeps the table constraints. */
  lemma CreateMultipleEventsValid(s: Store, batch: seq<EventCreate>, client: Client, now: Time)
    requires Valid(s)
    requires client in s.clients
    ensures Valid(CreateMultipleEvents(s, batch, client, now).store)
  {
    var r := CreateMultipleEvents(s, batch, client, now);
    assert client.id in ClientIds(s.clients);
    var ev := r.store.events;
    forall i, j | 0 <= i < j < |ev|
      ensures ev[i].id != ev[j].id
    {
      if j >= |s.events| && i < |s.events| {
        assert ev[i] == s.events[i];
      }
    }
  }
}
