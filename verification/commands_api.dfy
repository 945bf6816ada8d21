/** The command endpoints (`endpoints/commands.py`): administrative
    creation and listing, and the agent-facing poll and status report. An
    endpoint that fails returns no store: nothing it did is committed. */
module CommandsApi {
  import opened Base
  import opened Seqs
  import opened Security
  import opened CommandModel
  import opened ClientModel
  import opened Db
  import opened CrudClient
  import opened CrudCommand
  import opened Deps

  const PollDefaultLimit: int := 10
  const PollMaxLimit: int := 50
  const ListMaxLimit: nat := 200

  /** `POST /admin/commands`: 422 for an invalid body, 404 for an unknown
      client; the client's own status is not consulted, so a command for
      an inactive client is queued like any other. */
  function CreateNewCommandForClient(s: Store, input: CommandCreate, now: Time): (r: Result<Reply<Command>>)
    ensures r == Err(Unprocessable) <==> !ValidCommandCreate(input)
    ensures r == Err(NotFound) <==> ValidCommandCreate(input) && input.clientId !in ClientIds(s.clients)
    ensures r.Ok? <==> ValidCommandCreate(input) && input.clientId in ClientIds(s.clients)
    ensures r.Ok? ==> var c := r.value.body;
      && c.clientId == input.clientId && c.id == s.nextId
      && c.createdAt == now && c.updatedAt == now
      && (input.status.Unset? ==> c.status == PendingDispatch)
      && (input.status.Set? ==> StatusText(c.status) == input.status.value)
      && r.value.store == s.(commands := s.commands + [c], nextId := s.nextId + 1)
  {
    if !ValidCommandCreate(input) then Err(Unprocessable)
    else match GetClient(s, input.clientId)
      case None =>
        assert input.clientId !in ClientIds(s.clients);
        Err(NotFound)
      case Some(client) =>
        assert client in s.clients;
        CreateCommand(s, input, input.clientId, now)
  }

  /** `GET /admin/commands`: `skip` defaults to 0 and `limit` to 100; 422
      unless `skip >= 0` and `1 <= limit <= 200`; otherwise every filter
      is passed on to the query unchanged. */
  function ReadAllSystemCommands(s: Store, skip: Option<int>, limit: Option<int>, clientId: Option<Id>, status: Option<string>): (r: Result<seq<Command>>)
    ensures var sk := GetOr(skip, DefaultSkip); var lim := GetOr(limit, DefaultListLimit);
      && (r.Err? <==> sk < 0 || lim < 1 || lim > ListMaxLimit as int)
      && (r.Err? ==> r.error == Unprocessable)
      && (r.Ok? ==> r.value == GetAllCommands(s, sk, lim, clientId, status))
  {
    var sk := GetOr(skip, DefaultSkip);
    var lim := GetOr(limit, DefaultListLimit);
    if sk < 0 || lim < 1 || lim > ListMaxLimit as int then Err(Unprocessable)
    else Ok(GetAllCommands(s, sk, lim, clientId, status))
  }

  /** A listing with no paging parameters is the 100 newest matching
      commands; a successful listing is always a window of the matching
      commands arranged newest first. */
  lemma ReadAllSystemCommandsIsWindow(s: Store, skip: Option<int>, limit: Option<int>, clientId: Option<Id>, status: Option<string>)
    requires ReadAllSystemCommands(s, skip, limit, clientId, status).Ok?
    ensures var sk := GetOr(skip, DefaultSkip); var lim := GetOr(limit, DefaultListLimit);
      0 <= sk && 1 <= lim &&
      exists sorted :: ArrangedDescending(sorted, AllMatches(s, clientId, status), CreatedAt)
                       && Window(ReadAllSystemCommands(s, skip, limit, clientId, status).value, sorted, sk, lim)
    ensures skip.None? && limit.None? ==>
      |ReadAllSystemCommands(s, skip, limit, clientId, status).value| == Min(100, |AllMatches(s, clientId, status)|)
  {
    GetAllCommandsIsWindow(s, GetOr(skip, DefaultSkip), GetOr(limit, DefaultListLimit), clientId, status);
  }

  /** `GET /admin/commands/{id}`. */
  function ReadSpecificCommandById(s: Store, id: Id): (r: Result<Command>)
    ensures r.Err? <==> forall i :: 0 <= i < |s.commands| ==> s.commands[i].id != id
    ensures r.Err? ==> r.error == NotFound
    ensures r.Ok? ==> r.value in s.commands && r.value.id == id
  {
    match GetCommand(s, id)
    case None => Err(NotFound)
    case Some(c) => Ok(c)
  }

  /** The commands one poll of `caller` selects: its own, still pending,
      oldest first, at most `limit`. */
  function PendingFor(s: Store, caller: Client, limit: nat): seq<Command>
  {
    GetCommandsForClient(s, caller.id, Some(DefaultStatus), 0, limit)
  }

  /** The work of one poll by an authenticated `caller`: its pending
      commands, oldest first and at most `limit`, come back dispatched;
      when none is pending the store is untouched. How the store changes
      is stated by `PollWritesBack`. */
  function Poll(s: Store, caller: Client, limit: nat, now: Time): (r: Reply<seq<Command>>)
    ensures |r.body| <= limit
    ensures forall c :: c in r.body ==> c.clientId == caller.id && c.status == Dispatched && c.updatedAt == now
    ensures PendingFor(s, caller, limit) == [] ==> r == Reply(s, [])
  {
    var pending := PendingFor(s, caller, limit);
    if pending == [] then Reply(s, [])
    else MarkCommandsAsDispatched(s, pending, now)
  }

  /** Every command a poll hands out is the dispatched form of one of the
      caller's pending rows; exactly the rows handed out are rewritten as
      dispatched, and the other tables are untouched. */
  lemma PollWritesBack(s: Store, caller: Client, limit: nat, now: Time)
    ensures var r := Poll(s, caller, limit, now);
      && (forall c :: c in r.body ==> exists d :: d in s.commands && d.clientId == caller.id && IsPending(d) && c == Dispatch(d, now))
      && r.store.clients == s.clients && r.store.events == s.events && r.store.nextId == s.nextId
      && |r.store.commands| == |s.commands|
      && (forall i :: 0 <= i < |s.commands| ==>
            r.store.commands[i] == if s.commands[i].id in IdsOf(r.body) then Dispatch(s.commands[i], now) else s.commands[i])
  {
    PollProvenance(s, caller, limit, now);
  }

  /** The provenance half of `PollWritesBack` on its own. */
  lemma PollProvenance(s: Store, caller: Client, limit: nat, now: Time)
    ensures forall c :: c in Poll(s, caller, limit, now).body ==>
              exists d :: d in s.commands && d.clientId == caller.id && IsPending(d) && c == Dispatch(d, now)
  {
    var pending := PendingFor(s, caller, limit);
    if pending != [] {
      var r := MarkCommandsAsDispatched(s, pending, now);
      MarkedComeFromPending(s, caller, limit, now, pending, r.body);
    }
  }

  /** A poll hands out exactly the selected pending rows, in the order
      selected, each in its dispatched form. */
  lemma PollDispatchesSelection(s: Store, caller: Client, limit: nat, now: Time)
    ensures Poll(s, caller, limit, now).body == DispatchAll(PendingFor(s, caller, limit), now)
  {
    var pending := PendingFor(s, caller, limit);
    forall i | 0 <= i < |pending|
      ensures IsPending(pending[i])
    {
      assert pending[i] in pending;
    }
    FilterKeepsAll(pending, IsPending);
    MarkDispatchedIsFilterThenDispatch(pending, now);
  }

  /** A poll hands out as many of the caller's pending commands as the
      limit allows, oldest first. */
  lemma PollDeliversOldestFirst(s: Store, caller: Client, limit: nat, now: Time)
    ensures var body := Poll(s, caller, limit, now).body;
      && |body| == Min(limit, |ClientMatches(s, caller.id, Some(DefaultStatus))|)
      && Ascending(body, CreatedAt)
  {
    var pending := PendingFor(s, caller, limit);
    PollDispatchesSelection(s, caller, limit, now);
    DispatchAllKeepsOrder(pending, now);
  }

  lemma DispatchAllKeepsOrder(commands: seq<Command>, now: Time)
    requires Ascending(commands, CreatedAt)
    ensures |DispatchAll(commands, now)| == |commands|
    ensures Ascending(DispatchAll(commands, now), CreatedAt)
  {
    var r := DispatchAll(commands, now);
    assert forall i :: 0 <= i < |r| ==> r[i].createdAt == commands[i].createdAt;
  }

  /** No pending command of the caller that a poll leaves behind is older
      than one it hands out. */
  lemma PollLeavesNoOlderBehind(s: Store, caller: Client, limit: nat, now: Time, c: Command, d: Command)
    requires c in Poll(s, caller, limit, now).body
    requires d in s.commands && d.clientId == caller.id && IsPending(d)
    requires d.id !in IdsOf(Poll(s, caller, limit, now).body)
    ensures c.createdAt <= d.createdAt
  {
    var pending := PendingFor(s, caller, limit);
    var body := Poll(s, caller, limit, now).body;
    PollDispatchesSelection(s, caller, limit, now);
    assert d !in pending;
    var i := IndexOf(body, c);
    assert pending[i] in pending && c.createdAt == pending[i].createdAt;
  }

  /** When the limit leaves room for every pending command of the caller,
      a poll hands out every one of them. */
  lemma PollDeliversAll(s: Store, caller: Client, limit: nat, now: Time, d: Command)
    requires |ClientMatches(s, caller.id, Some(DefaultStatus))| <= limit
    requires d in s.commands && d.clientId == caller.id && IsPending(d)
    ensures Dispatch(d, now) in Poll(s, caller, limit, now).body
  {
    var pending := PendingFor(s, caller, limit);
    PollDispatchesSelection(s, caller, limit, now);
    assert d in pending;
    var j := IndexOf(pending, d);
    assert Poll(s, caller, limit, now).body[j] == Dispatch(d, now);
  }

  /** The row a polled command was taken from. */
  lemma PolledFrom(s: Store, caller: Client, limit: nat, now: Time, c: Command) returns (k: nat)
    requires c in Poll(s, caller, limit, now).body
    ensures k < |s.commands| && s.commands[k].clientId == caller.id && IsPending(s.commands[k])
    ensures c == Dispatch(s.commands[k], now)
  {
    var pending := PendingFor(s, caller, limit);
    assert pending != [];
    var r := MarkCommandsAsDispatched(s, pending, now);
    assert Poll(s, caller, limit, now) == r;
    assert exists x :: x in pending && IsPending(x) && c == Dispatch(x, now);
    var x :| x in pending && IsPending(x) && c == Dispatch(x, now);
    assert x in s.commands;
    k := IndexOf(s.commands, x);
  }

  lemma MarkedComeFromPending(s: Store, caller: Client, limit: nat, now: Time, pending: seq<Command>, marked: seq<Command>)
    requires pending == PendingFor(s, caller, limit)
    requires forall x :: x in marked ==> exists c :: c in pending && IsPending(c) && x == Dispatch(c, now)
    ensures forall x :: x in marked ==> exists d :: d in s.commands && d.clientId == caller.id && IsPending(d) && x == Dispatch(d, now)
  {
    forall x | x in marked
      ensures exists d :: d in s.commands && d.clientId == caller.id && IsPending(d) && x == Dispatch(d, now)
    {
      var c :| c in pending && IsPending(c) && x == Dispatch(c, now);
      assert c in s.commands && c.clientId == caller.id;
    }
  }

  /** `GET /commands?limit=N`: authenticate, check `1 <= limit <= 50`
      (`limit` defaults to 10), then poll. Nothing pending gives an empty
      list, not an error. */
  function FetchPendingCommandsForClient(v: Vault, s: Store, key: Option<string>, limit: Option<int>, now: Time): (r: Result<Reply<seq<Command>>>)
    ensures Authenticate(v, s, key).Err? ==> r == Err(Authenticate(v, s, key).error)
    ensures Authenticate(v, s, key).Ok? ==>
              (r == Err(Unprocessable) <==> GetOr(limit, PollDefaultLimit) < 1 || GetOr(limit, PollDefaultLimit) > PollMaxLimit)
    ensures r.Err? ==> r.error in {Unauthorized, Forbidden, Unprocessable}
    ensures r.Ok? ==> Authenticate(v, s, key).Ok? && 1 <= GetOr(limit, PollDefaultLimit) <= PollMaxLimit
    ensures r.Ok? ==> r.value == Poll(s, Authenticate(v, s, key).value, GetOr(limit, PollDefaultLimit), now)
    ensures limit.None? && Authenticate(v, s, key).Ok? ==> r == Ok(Poll(s, Authenticate(v, s, key).value, 10, now))
  {
    match Authenticate(v, s, key)
    case Err(e) => Err(e)
    case Ok(caller) =>
      var n := GetOr(limit, PollDefaultLimit);
      if n < 1 || n > PollMaxLimit then Err(Unprocessable)
      else Ok(Poll(s, caller, n, now))
  }

  /** `PATCH /commands/{id}` by an agent. After authentication the checks
      come in a fixed order: 404 unknown id, 403 not the owner, 400 the
      command is `completed` or `failed`. Any other current status,
      `timeout` and unknown strings included, is overwritten. */
  function UpdateCommandStatusByClientAgent(v: Vault, s: Store, key: Option<string>, id: Id,
                                            update: CommandUpdateByClient, now: Time): (r: Result<Reply<Command>>)
    ensures Authenticate(v, s, key).Err? ==> r == Err(Authenticate(v, s, key).error)
    ensures Authenticate(v, s, key).Ok? ==>
              (r == Err(NotFound) <==> GetCommand(s, id).None?)
    ensures Authenticate(v, s, key).Ok? ==>
              (r == Err(Forbidden) <==> GetCommand(s, id).Some? && GetCommand(s, id).value.clientId != Authenticate(v, s, key).value.id)
    ensures Authenticate(v, s, key).Ok? ==>
              (r == Err(BadRequest) <==> GetCommand(s, id).Some? && GetCommand(s, id).value.clientId == Authenticate(v, s, key).value.id
                                         && IsFinal(GetCommand(s, id).value.status))
    ensures r.Ok? ==> Authenticate(v, s, key).Ok? && GetCommand(s, id).Some?
    ensures r.Ok? ==> var c := GetCommand(s, id).value;
      && c.clientId == Authenticate(v, s, key).value.id
      && !IsFinal(c.status)
      && r.value.body == ApplyClientUpdate(c, update, now)
      && r.value.store == s.(commands := ReplaceCommand(s.commands, r.value.body))
  {
    match Authenticate(v, s, key)
    case Err(e) => Err(e)
    case Ok(caller) =>
      match GetCommand(s, id)
      case None => Err(NotFound)
      case Some(c) =>
        if c.clientId != caller.id then Err(Forbidden)
        else if IsFinal(c.status) then Err(BadRequest)
        else UpdateCommandStatusByClient(s, c, update, now)
  }
}
