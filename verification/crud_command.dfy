/** Command ledger operations (`crud_command.py`). */
module CrudCommand {
  import opened Base
  import opened Seqs
  import opened CommandModel
  import opened ClientModel
  import opened Db

  /** Creates a command for `clientId` from a validated request. Creation
      and update time are the same instant, the result is empty, and the
      status is the one the request carried, `pending_dispatch` if none.
      The insert fails on the foreign key when the client does not exist. */
  function CreateCommand(s: Store, input: CommandCreate, clientId: Id, now: Time): (r: Result<Reply<Command>>)
    requires ValidCommandCreate(input)
    ensures r.Err? <==> clientId !in ClientIds(s.clients)
    ensures r.Err? ==> r.error == ServerError
    ensures r.Ok? ==> var c := r.value.body;
      && c.id == s.nextId && c.clientId == clientId
      && c.commandType == input.commandType && c.dispatchDeadline == input.dispatchDeadline
      && c.createdAt == now && c.updatedAt == now
      && c.executionResult == None
      && (input.status.Unset? ==> c.status == PendingDispatch)
      && (input.status.Set? ==> StatusText(c.status) == input.status.value)
      && (input.payload.Unset? ==> c.payload == Some(map[]))
      && (input.payload.Set? ==> c.payload == input.payload.value)
      && r.value.store == s.(commands := s.commands + [c], nextId := s.nextId + 1)
  {
    if clientId !in ClientIds(s.clients) then Err(ServerError)
    else
      var c := Command(s.nextId, clientId, input.commandType, RequestedPayload(input), RequestedStatus(input),
                       input.dispatchDeadline, now, now, None);
      Ok(Reply(s.(commands := s.commands + [c], nextId := s.nextId + 1), c))
  }

  /** `session.get(Command, id)`. */
  function GetCommand(s: Store, id: Id): (r: Option<Command>)
    ensures r.Some? ==> r.value in s.commands && r.value.id == id
    ensures r.None? <==> forall i :: 0 <= i < |s.commands| ==> s.commands[i].id != id
  {
    match FirstIndex(s.commands, (c: Command) => c.id == id)
    case None => None
    case Some(i) => Some(s.commands[i])
  }

  /** The optional status filter. Python's `if status:` also treats the
      empty string as "no filter". */
  predicate StatusFilter(status: Option<string>, st: Status)
  {
    status.None? || status.value == "" || StatusText(st) == status.value
  }

  function CreatedAt(c: Command): int
  {
    c.createdAt
  }

  /** The commands of one client, of one status when a status filter is
      given, in store order. */
  function ClientMatches(s: Store, clientId: Id, status: Option<string>): (r: seq<Command>)
    ensures forall c :: c in r <==> c in s.commands && c.clientId == clientId && StatusFilter(status, c.status)
  {
    Filter(s.commands, OwnedWith(clientId, status))
  }

  /** The `WHERE` clause of `get_commands_for_client`. */
  function OwnedWith(clientId: Id, status: Option<string>): Command -> bool
  {
    (c: Command) => c.clientId == clientId && StatusFilter(status, c.status)
  }

  /** Commands of one client, optionally of one status, oldest first, then
      `OFFSET skip LIMIT limit`. How `skip` selects the page is stated by
      `GetCommandsForClientIsWindow`. */
  function GetCommandsForClient(s: Store, clientId: Id, status: Option<string>, skip: nat, limit: nat): (r: seq<Command>)
    ensures forall c :: c in r ==> c in s.commands && c.clientId == clientId && StatusFilter(status, c.status)
    ensures Ascending(r, CreatedAt)
    ensures |r| == (if skip < |ClientMatches(s, clientId, status)| then Min(limit, |ClientMatches(s, clientId, status)| - skip) else 0)
    ensures skip == 0 ==> forall c, d ::
              c in r && d in s.commands && d.clientId == clientId && StatusFilter(status, d.status) && d !in r
              ==> c.createdAt <= d.createdAt
    ensures skip == 0 && |ClientMatches(s, clientId, status)| <= limit ==> forall d ::
              d in s.commands && d.clientId == clientId && StatusFilter(status, d.status) ==> d in r
  {
    var sorted := SortAscending(ClientMatches(s, clientId, status), CreatedAt);
    AscendingPage(sorted, skip, limit, CreatedAt);
    Page(sorted, skip, limit)
  }

  /** The result is the window `[skip, skip + limit)` of the client's
      matching commands arranged oldest first. */
  lemma GetCommandsForClientIsWindow(s: Store, clientId: Id, status: Option<string>, skip: nat, limit: nat)
    ensures exists sorted :: ArrangedAscending(sorted, ClientMatches(s, clientId, status), CreatedAt)
                             && Window(GetCommandsForClient(s, clientId, status, skip, limit), sorted, skip, limit)
  {
    var sorted := SortAscending(ClientMatches(s, clientId, status), CreatedAt);
    assert ArrangedAscending(sorted, ClientMatches(s, clientId, status), CreatedAt);
    assert Window(GetCommandsForClient(s, clientId, status, skip, limit), sorted, skip, limit);
  }

  /** The commands both optional filters accept, in store order. */
  function AllMatches(s: Store, clientId: Option<Id>, status: Option<string>): (r: seq<Command>)
    ensures forall c :: c in r <==> c in s.commands && (clientId.Some? ==> c.clientId == clientId.value) && StatusFilter(status, c.status)
  {
    Filter(s.commands, (c: Command) => (clientId.Some? ==> c.clientId == clientId.value) && StatusFilter(status, c.status))
  }

  /** All commands, optionally of one client and one status (both filters
      together), newest first, then `OFFSET skip LIMIT limit`. */
  function GetAllCommands(s: Store, skip: nat, limit: nat, clientId: Option<Id>, status: Option<string>): (r: seq<Command>)
    ensures forall c :: c in r ==> c in s.commands && (clientId.Some? ==> c.clientId == clientId.value) && StatusFilter(status, c.status)
    ensures Descending(r, CreatedAt)
    ensures |r| == (if skip < |AllMatches(s, clientId, status)| then Min(limit, |AllMatches(s, clientId, status)| - skip) else 0)
    ensures skip == 0 ==> forall c, d ::
              c in r && d in s.commands && (clientId.Some? ==> d.clientId == clientId.value) && StatusFilter(status, d.status) && d !in r
              ==> c.createdAt >= d.createdAt
    ensures skip == 0 && |AllMatches(s, clientId, status)| <= limit ==> forall d ::
              d in s.commands && (clientId.Some? ==> d.clientId == clientId.value) && StatusFilter(status, d.status) ==> d in r
  {
    var sorted := SortDescending(AllMatches(s, clientId, status), CreatedAt);
    DescendingPage(sorted, skip, limit, CreatedAt);
    Page(sorted, skip, limit)
  }

  /** The result is the window `[skip, skip + limit)` of the matching
      commands arranged newest first. */
  lemma GetAllCommandsIsWindow(s: Store, skip: nat, limit: nat, clientId: Option<Id>, status: Option<string>)
    ensures exists sorted :: ArrangedDescending(sorted, AllMatches(s, clientId, status), CreatedAt)
                             && Window(GetAllCommands(s, skip, limit, clientId, status), sorted, skip, limit)
  {
    var sorted := SortDescending(AllMatches(s, clientId, status), CreatedAt);
    assert ArrangedDescending(sorted, AllMatches(s, clientId, status), CreatedAt);
    assert Window(GetAllCommands(s, skip, limit, clientId, status), sorted, skip, limit);
  }

  /** A command as the owner's report leaves it: new status, a new result
      only when one was sent, fresh update time. */
  function ApplyClientUpdate(c: Command, update: CommandUpdateByClient, now: Time): (r: Command)
    ensures StatusText(r.status) == update.status && WellFormedStatus(r.status)
    ensures update.executionResult.Some? ==> r.executionResult == update.executionResult
    ensures update.executionResult.None? ==> r.executionResult == c.executionResult
    ensures r.updatedAt == now
    ensures r.(status := c.status, executionResult := c.executionResult, updatedAt := c.updatedAt) == c
  {
    c.(status := ParseStatus(update.status),
       executionResult := if update.executionResult.Some? then update.executionResult else c.executionResult,
       updatedAt := now)
  }

  /** Applies the owner's report to the command's row. A status longer than
      the `VARCHAR(50)` column is refused by the database. */
  function UpdateCommandStatusByClient(s: Store, c: Command, update: CommandUpdateByClient, now: Time): (r: Result<Reply<Command>>)
    ensures r.Err? <==> |update.status| > MaxStatusLength
    ensures r.Err? ==> r.error == ServerError
    ensures r.Ok? ==> r.value.body == ApplyClientUpdate(c, update, now)
    ensures r.Ok? ==> r.value.store == s.(commands := ReplaceCommand(s.commands, r.value.body))
  {
    if |update.status| > MaxStatusLength then Err(ServerError)
    else
      var updated := ApplyClientUpdate(c, update, now);
      Ok(Reply(s.(commands := ReplaceCommand(s.commands, updated)), updated))
  }

  /** A command as an administrator's partial update leaves it: exactly
      the fields that were sent are overwritten, whatever the command's
      owner or current status. */
  function ApplyAdminUpdate(c: Command, update: CommandUpdateByAdmin, now: Time): (r: Command)
    ensures update.status.Set? ==> StatusText(r.status) == update.status.value
    ensures update.status.Unset? ==> r.status == c.status
    ensures update.payload.Set? ==> r.payload == update.payload.value
    ensures update.payload.Unset? ==> r.payload == c.payload
    ensures update.dispatchDeadline.Set? ==> r.dispatchDeadline == update.dispatchDeadline.value
    ensures update.dispatchDeadline.Unset? ==> r.dispatchDeadline == c.dispatchDeadline
    ensures r.updatedAt == now
    ensures r.(status := c.status, payload := c.payload, dispatchDeadline := c.dispatchDeadline, updatedAt := c.updatedAt) == c
  {
    c.(status := match update.status case Unset => c.status case Set(st) => ParseStatus(st),
       payload := match update.payload case Unset => c.payload case Set(p) => p,
       dispatchDeadline := match update.dispatchDeadline case Unset => c.dispatchDeadline case Set(d) => d,
       updatedAt := now)
  }

  /** Applies an administrator's partial update to the command's row; a
      status longer than the column is refused by the database. */
  function UpdateCommandByAdmin(s: Store, c: Command, update: CommandUpdateByAdmin, now: Time): (r: Result<Reply<Command>>)
    ensures r.Err? <==> update.status.Set? && |update.status.value| > MaxStatusLength
    ensures r.Err? ==> r.error == ServerError
    ensures r.Ok? ==> r.value.body == ApplyAdminUpdate(c, update, now)
    ensures r.Ok? ==> r.value.store == s.(commands := ReplaceCommand(s.commands, r.value.body))
  {
    if update.status.Set? && |update.status.value| > MaxStatusLength then Err(ServerError)
    else
      var updated := ApplyAdminUpdate(c, update, now);
      Ok(Reply(s.(commands := ReplaceCommand(s.commands, updated)), updated))
  }

  /** The administrator path has no terminal-state lock: it can put a
      completed command back in the dispatch queue. */
  lemma AdminUpdateReopensFinalCommand(c: Command, now: Time)
    requires IsFinal(c.status)
    ensures ApplyAdminUpdate(c, CommandUpdateByAdmin(Set("pending_dispatch"), Unset, Unset), now).status == PendingDispatch
  {
  }

  /** The test `mark_commands_as_dispatched` applies, on the column text. */
  predicate IsPending(c: Command)
  {
    StatusText(c.status) == DefaultStatus
  }

  function Dispatch(c: Command, now: Time): Command
  {
    c.(status := Dispatched, updatedAt := now)
  }

  /** The loop of `mark_commands_as_dispatched`: every pending input,
      in input order, now dispatched; other inputs are skipped. */
  function MarkDispatched(commands: seq<Command>, now: Time): (r: seq<Command>)
    ensures |r| <= |commands|
    ensures forall i :: 0 <= i < |r| ==> r[i].status == Dispatched && r[i].updatedAt == now
    ensures forall c :: c in commands && IsPending(c) ==> Dispatch(c, now) in r
    ensures forall x :: x in r ==> exists c :: c in commands && IsPending(c) && x == Dispatch(c, now)
  {
    if |commands| == 0 then []
    else
      var rest := MarkDispatched(commands[1..], now);
      assert forall c :: c in commands ==> c == commands[0] || c in commands[1..];
      if IsPending(commands[0]) then [Dispatch(commands[0], now)] + rest else rest
  }

  function DispatchAll(commands: seq<Command>, now: Time): (r: seq<Command>)
  {
    seq(|commands|, i requires 0 <= i < |commands| => Dispatch(commands[i], now))
  }

  lemma DispatchAllCons(c: Command, rest: seq<Command>, now: Time)
    ensures DispatchAll([c] + rest, now) == [Dispatch(c, now)] + DispatchAll(rest, now)
  {
    assert forall i :: 0 <= i < |rest| ==> ([c] + rest)[i + 1] == rest[i];
  }

  /** The loop agrees with its reference definition: keep the pending
      inputs in order, then dispatch each. */
  lemma {:induction false} MarkDispatchedIsFilterThenDispatch(commands: seq<Command>, now: Time)
    ensures MarkDispatched(commands, now) == DispatchAll(Filter(commands, IsPending), now)
  {
    if |commands| > 0 {
      MarkDispatchedIsFilterThenDispatch(commands[1..], now);
      var f := Filter(commands[1..], IsPending);
      if IsPending(commands[0]) {
        assert Filter(commands, IsPending) == [commands[0]] + f;
        DispatchAllCons(commands[0], f, now);
      } else {
        assert Filter(commands, IsPending) == f;
      }
    }
  }

  function IdsOf(commands: seq<Command>): set<Id>
  {
    set c | c in commands :: c.id
  }

  /** Marks the given commands dispatched and writes them back; when none
      was pending nothing is committed and the store is unchanged. */
  function MarkCommandsAsDispatched(s: Store, commands: seq<Command>, now: Time): (r: Reply<seq<Command>>)
    ensures |r.body| <= |commands|
    ensures forall i :: 0 <= i < |r.body| ==> r.body[i].status == Dispatched && r.body[i].updatedAt == now
    ensures forall c :: c in commands && IsPending(c) ==> Dispatch(c, now) in r.body
    ensures forall x :: x in r.body ==> exists c :: c in commands && IsPending(c) && x == Dispatch(c, now)
    ensures r.body == [] ==> r.store == s
    ensures r.store.clients == s.clients && r.store.events == s.events && r.store.nextId == s.nextId
    ensures |r.store.commands| == |s.commands|
    ensures forall i :: 0 <= i < |s.commands| ==>
              r.store.commands[i] == if s.commands[i].id in IdsOf(r.body) then Dispatch(s.commands[i], now) else s.commands[i]
  {
    var marked := MarkDispatched(commands, now);
    if marked == [] then Reply(s, [])
    else
      var ids := IdsOf(marked);
      var rows := seq(|s.commands|, i requires 0 <= i < |s.commands| =>
                      if s.commands[i].id in ids then Dispatch(s.commands[i], now) else s.commands[i]);
      Reply(s.(commands := rows), marked)
  }

  /** After a row is rewritten in place, looking its key up finds the new
      version. */
  lemma GetCommandAfterReplace(s: Store, c: Command)
    requires exists i :: 0 <= i < |s.commands| && s.commands[i].id == c.id
    ensures GetCommand(s.(commands := ReplaceCommand(s.commands, c)), c.id) == Some(c)
  {
    var s' := s.(commands := ReplaceCommand(s.commands, c));
    var i :| 0 <= i < |s.commands| && s.commands[i].id == c.id;
    assert s'.commands[i].id == c.id;
    var r := GetCommand(s', c.id);
    assert r.Some?;
    var j :| 0 <= j < |s'.commands| && s'.commands[j] == r.value;
  }
}
