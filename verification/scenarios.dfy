/** Properties that span several endpoint calls: the table constraints
    every mutating endpoint keeps, the sequential no-double-dispatch
    guarantee, and the cycle a command goes through from poll to close. */
module Scenarios {
  import opened Base
  import opened Seqs
  import opened Security
  import opened CommandModel
  import opened ClientModel
  import opened EventModel
  import opened Db
  import opened CrudClient
  import opened CrudCommand
  import opened CrudEvent
  import opened Deps
  import opened ClientsApi
  import opened CommandsApi
  import opened EventsApi
  import opened Agent

  /** Two polls in a row by the same client never hand out the same
      command: whatever the first dispatched is no longer pending. */
  lemma {:induction false} NoDoubleDispatch(s: Store, caller: Client, limit1: nat, limit2: nat, t1: Time, t2: Time)
    ensures var first := Poll(s, caller, limit1, t1);
            var second := Poll(first.store, caller, limit2, t2);
            forall x, y :: x in first.body && y in second.body ==> x.id != y.id
  {
    var first := Poll(s, caller, limit1, t1);
    var second := Poll(first.store, caller, limit2, t2);
    forall x, y | x in first.body && y in second.body
      ensures x.id != y.id
    {
      var i := PolledCommandRow(first.store, caller, limit2, t2, y);
      PendingAfterPoll(s, caller, limit1, t1, i);
      IdInIdsOf(x, first.body);
    }
  }

  /** A row still pending after a poll was not handed out by it. */
  lemma PendingAfterPoll(s: Store, caller: Client, limit: nat, now: Time, i: nat)
    requires i < |Poll(s, caller, limit, now).store.commands|
    requires IsPending(Poll(s, caller, limit, now).store.commands[i])
    ensures i < |s.commands| && s.commands[i].id == Poll(s, caller, limit, now).store.commands[i].id
    ensures Poll(s, caller, limit, now).store.commands[i].id !in IdsOf(Poll(s, caller, limit, now).body)
  {
    PollWritesBack(s, caller, limit, now);
    assert !IsPending(Dispatch(s.commands[i], now));
  }

  /** Each command a poll hands out is the dispatched form of one of the
      caller's pending rows, and that row now holds it. */
  lemma PolledCommandRow(s: Store, caller: Client, limit: nat, now: Time, c: Command) returns (i: nat)
    requires c in Poll(s, caller, limit, now).body
    ensures i < |s.commands| && s.commands[i].clientId == caller.id && IsPending(s.commands[i])
    ensures c == Dispatch(s.commands[i], now)
    ensures i < |Poll(s, caller, limit, now).store.commands| && Poll(s, caller, limit, now).store.commands[i] == c
  {
    var p := Poll(s, caller, limit, now);
    var k := PolledFrom(s, caller, limit, now, c);
    PollRow(s, caller, limit, now, k);
    IdInIdsOf(c, p.body);
    assert s.commands[k].id == c.id;
    i := k;
  }

  lemma IdInIdsOf(c: Command, commands: seq<Command>)
    requires c in commands
    ensures c.id in IdsOf(commands)
  {
  }

  /** One row of the store after a poll. */
  lemma PollRow(s: Store, caller: Client, limit: nat, now: Time, i: nat)
    requires i < |s.commands|
    ensures var p := Poll(s, caller, limit, now);
            i < |p.store.commands|
            && p.store.commands[i] == if s.commands[i].id in IdsOf(p.body) then Dispatch(s.commands[i], now) else s.commands[i]
  {
    PollWritesBack(s, caller, limit, now);
  }

  /** A poll keeps command keys unique. */
  lemma PollKeepsKeys(s: Store, caller: Client, limit: nat, now: Time)
    requires UniqueCommandKeys(s.commands)
    ensures UniqueCommandKeys(Poll(s, caller, limit, now).store.commands)
  {
    var p := Poll(s, caller, limit, now);
    PollWritesBack(s, caller, limit, now);
    DispatchKeepsKeys(s.commands, p.store.commands, now, IdsOf(p.body));
  }

  /** A command handed out by a poll is stored exactly as it was handed
      out, belongs to the caller, and is not final. */
  lemma PolledCommandIsStored(s: Store, caller: Client, limit: nat, now: Time, c: Command)
    requires UniqueCommandKeys(s.commands)
    requires c in Poll(s, caller, limit, now).body
    ensures c.clientId == caller.id && c.status == Dispatched && !IsFinal(c.status)
    ensures GetCommand(Poll(s, caller, limit, now).store, c.id) == Some(c)
  {
    var p := Poll(s, caller, limit, now);
    var i := PolledCommandRow(s, caller, limit, now, c);
    PollKeepsKeys(s, caller, limit, now);
    GetCommandFindsRow(p.store, i);
  }

  /** Marking rows dispatched keeps every key in place, so keys that were
      unique stay unique. */
  lemma DispatchKeepsKeys(commands: seq<Command>, rows: seq<Command>, now: Time, ids: set<Id>)
    requires UniqueCommandKeys(commands)
    requires |rows| == |commands|
    requires forall k :: 0 <= k < |commands| ==>
               rows[k] == if commands[k].id in ids then Dispatch(commands[k], now) else commands[k]
    ensures UniqueCommandKeys(rows)
  {
    assert forall k :: 0 <= k < |rows| ==> rows[k].id == commands[k].id;
  }

  /** With unique keys, looking up a row's key finds that row. */
  lemma GetCommandFindsRow(t: Store, i: nat)
    requires UniqueCommandKeys(t.commands)
    requires i < |t.commands|
    ensures GetCommand(t, t.commands[i].id) == Some(t.commands[i])
  {
    var r := GetCommand(t, t.commands[i].id);
    var j :| 0 <= j < |t.commands| && t.commands[j] == r.value;
  }

  /** The whole cycle for one command: an authenticated agent polls, the
      command comes back dispatched, the agent's three reports close it,
      and from then on the owner's reports are refused with 400. */
  lemma PollThenProcess(v: Vault, s: Store, key: Option<string>, limit: Option<int>, now: Time, c: Command,
                        blockSucceeded: bool, later: Time, u: CommandUpdateByClient)
    requires Valid(s)
    requires FetchPendingCommandsForClient(v, s, key, limit, now).Ok?
    requires c in FetchPendingCommandsForClient(v, s, key, limit, now).value.body
    ensures var s1 := FetchPendingCommandsForClient(v, s, key, limit, now).value.store;
            var s2 := Replay(v, s1, key, ProcessSingleCommand(c, blockSucceeded), now);
            && GetCommand(s2, c.id).Some?
            && IsFinal(GetCommand(s2, c.id).value.status)
            && UpdateCommandStatusByClientAgent(v, s2, key, c.id, u, later) == Err(BadRequest)
  {
    var caller := Authenticate(v, s, key).value;
    var n := GetOr(limit, PollDefaultLimit);
    var p := Poll(s, caller, n, now);
    PolledCommandIsStored(s, caller, n, now, c);
    PollWritesBack(s, caller, n, now);
    AuthenticateReadsClientsOnly(v, s, p.store, key);
    AgentRunFinishesCommand(v, p.store, key, c, blockSucceeded, now, later, u);
  }

  /** A command just queued for a client with no status given reaches
      that client's next poll whenever the poll has room for all of its
      pending commands. */
  lemma QueuedCommandIsPolled(s: Store, input: CommandCreate, now: Time, caller: Client, limit: nat, later: Time)
    requires CreateNewCommandForClient(s, input, now).Ok?
    requires input.status.Unset? && caller.id == input.clientId
    requires |ClientMatches(s, caller.id, Some(DefaultStatus))| < limit
    ensures var created := CreateNewCommandForClient(s, input, now).value;
            Dispatch(created.body, later) in Poll(created.store, caller, limit, later).body
  {
    var created := CreateNewCommandForClient(s, input, now).value;
    FilterAppend(s.commands, created.body, OwnedWith(caller.id, Some(DefaultStatus)));
    assert created.body in created.store.commands;
    PollDeliversAll(created.store, caller, limit, later, created.body);
  }

  /** The whole life of a command queued by an administrator: the owner's
      next poll (with room for its queue) receives it, the agent's reports
      close it, and later reports by the owner are refused with 400. */
  lemma QueuedCommandRunsToClose(v: Vault, s: Store, key: Option<string>, input: CommandCreate, now: Time,
                                 limit: Option<int>, later: Time, blockSucceeded: bool, end: Time, u: CommandUpdateByClient)
    requires Valid(s)
    requires CreateNewCommandForClient(s, input, now).Ok? && input.status.Unset?
    requires Authenticate(v, s, key).Ok? && Authenticate(v, s, key).value.id == input.clientId
    requires 1 <= GetOr(limit, PollDefaultLimit) <= PollMaxLimit
    requires |ClientMatches(s, input.clientId, Some(DefaultStatus))| < GetOr(limit, PollDefaultLimit)
    ensures var s1 := CreateNewCommandForClient(s, input, now).value.store;
            var c := Dispatch(CreateNewCommandForClient(s, input, now).value.body, later);
            var f := FetchPendingCommandsForClient(v, s1, key, limit, later);
            && f.Ok? && c in f.value.body
            && var s2 := Replay(v, f.value.store, key, ProcessSingleCommand(c, blockSucceeded), later);
               && GetCommand(s2, c.id).Some?
               && IsFinal(GetCommand(s2, c.id).value.status)
               && UpdateCommandStatusByClientAgent(v, s2, key, c.id, u, end) == Err(BadRequest)
  {
    var created := CreateNewCommandForClient(s, input, now).value;
    CreateCommandKeepsValid(s, input, now);
    QueuedCommandIsFetched(v, s, key, input, now, limit, later);
    PollThenProcess(v, created.store, key, limit, later, Dispatch(created.body, later), blockSucceeded, end, u);
  }

  /** The first half of `QueuedCommandRunsToClose`, through the endpoint. */
  lemma QueuedCommandIsFetched(v: Vault, s: Store, key: Option<string>, input: CommandCreate, now: Time,
                               limit: Option<int>, later: Time)
    requires CreateNewCommandForClient(s, input, now).Ok? && input.status.Unset?
    requires Authenticate(v, s, key).Ok? && Authenticate(v, s, key).value.id == input.clientId
    requires 1 <= GetOr(limit, PollDefaultLimit) <= PollMaxLimit
    requires |ClientMatches(s, input.clientId, Some(DefaultStatus))| < GetOr(limit, PollDefaultLimit)
    ensures var created := CreateNewCommandForClient(s, input, now).value;
            var f := FetchPendingCommandsForClient(v, created.store, key, limit, later);
            f.Ok? && Dispatch(created.body, later) in f.value.body
  {
    var created := CreateNewCommandForClient(s, input, now).value;
    var caller := Authenticate(v, s, key).value;
    var n := GetOr(limit, PollDefaultLimit);
    AuthenticateReadsClientsOnly(v, s, created.store, key);
    assert FetchPendingCommandsForClient(v, created.store, key, limit, later) == Ok(Poll(created.store, caller, n, later));
    QueuedCommandIsPolled(s, input, now, caller, n, later);
  }

  /** The owner may put a command of its own that is not final back in the
      queue by reporting `pending_dispatch`; the next poll can pick it up. */
  lemma OwnerCanRequeue(v: Vault, s: Store, key: Option<string>, c: Command, now: Time)
    requires Authenticate(v, s, key).Ok?
    requires GetCommand(s, c.id) == Some(c)
    requires c.clientId == Authenticate(v, s, key).value.id
    requires !IsFinal(c.status)
    ensures var r := UpdateCommandStatusByClientAgent(v, s, key, c.id, CommandUpdateByClient("pending_dispatch", None), now);
            && r.Ok?
            && GetCommand(r.value.store, c.id).Some?
            && IsPending(GetCommand(r.value.store, c.id).value)
  {
    ReportAccepted(v, s, key, c, CommandUpdateByClient("pending_dispatch", None), now);
  }

  /** Registration keeps the table constraints. */
  lemma RegisterKeepsValid(v: Vault, s: Store, input: ClientCreate, plainKey: string, now: Time)
    requires Valid(s)
    requires RegisterNewClient(v, s, input, plainKey, now).Ok?
    ensures Valid(RegisterNewClient(v, s, input, plainKey, now).value.store)
  {
    CreateClientValid(v, s, input, plainKey, now);
  }

  /** A heartbeat keeps the table constraints. */
  lemma HeartbeatKeepsValid(v: Vault, s: Store, key: Option<string>, now: Time)
    requires Valid(s)
    requires ClientHeartbeat(v, s, key, now).Ok?
    ensures Valid(ClientHeartbeat(v, s, key, now).value.store)
  {
    HeartbeatValid(s, Authenticate(v, s, key).value, now);
  }

  /** Creating a command keeps the table constraints. */
  lemma CreateCommandKeepsValid(s: Store, input: CommandCreate, now: Time)
    requires Valid(s)
    requires CreateNewCommandForClient(s, input, now).Ok?
    ensures Valid(CreateNewCommandForClient(s, input, now).value.store)
  {
    var c := CreateNewCommandForClient(s, input, now).value.body;
    assert c.status == RequestedStatus(input);
    AppendCommandValid(s, c);
  }

  /** A poll keeps the table constraints. */
  lemma PollKeepsValid(s: Store, caller: Client, limit: nat, now: Time)
    requires Valid(s)
    ensures Valid(Poll(s, caller, limit, now).store)
  {
    var p := Poll(s, caller, limit, now);
    PollWritesBack(s, caller, limit, now);
    forall i | 0 <= i < |s.commands|
      ensures p.store.commands[i].id == s.commands[i].id && p.store.commands[i].clientId == s.commands[i].clientId
      ensures WellFormedStatus(p.store.commands[i].status) && |StatusText(p.store.commands[i].status)| <= MaxStatusLength
    {
      if s.commands[i].id in IdsOf(p.body) {
        assert p.store.commands[i] == Dispatch(s.commands[i], now);
      } else {
        assert p.store.commands[i] == s.commands[i];
      }
    }
    RewriteCommandsValid(s, p.store.commands);
    assert p.store == s.(commands := p.store.commands);
  }

  /** An accepted status report keeps the table constraints. */
  lemma ReportKeepsValid(v: Vault, s: Store, key: Option<string>, id: Id, update: CommandUpdateByClient, now: Time)
    requires Valid(s)
    requires UpdateCommandStatusByClientAgent(v, s, key, id, update, now).Ok?
    ensures Valid(UpdateCommandStatusByClientAgent(v, s, key, id, update, now).value.store)
  {
    var c := GetCommand(s, id).value;
    var c' := ApplyClientUpdate(c, update, now);
    var k :| 0 <= k < |s.commands| && s.commands[k] == c;
    assert s.commands[k].id == c'.id && s.commands[k].clientId == c'.clientId;
    ReplaceCommandValid(s, c');
  }

  /** An administrator's accepted update of a stored command keeps the
      table constraints: the key and owner are never among the fields it
      writes, and a status it writes fits its column. */
  lemma AdminUpdateKeepsValid(s: Store, c: Command, update: CommandUpdateByAdmin, now: Time)
    requires Valid(s)
    requires GetCommand(s, c.id) == Some(c)
    requires UpdateCommandByAdmin(s, c, update, now).Ok?
    ensures Valid(UpdateCommandByAdmin(s, c, update, now).value.store)
  {
    var c' := ApplyAdminUpdate(c, update, now);
    var k := IndexOf(s.commands, c);
    assert s.commands[k].id == c'.id && s.commands[k].clientId == c'.clientId;
    assert WellFormedStatus(c'.status) && |StatusText(c'.status)| <= MaxStatusLength by {
      if update.status.Unset? {
        assert c in s.commands;
      }
    }
    ReplaceCommandValid(s, c');
  }

  /** Storing a submitted batch keeps the table constraints. */
  lemma SubmitKeepsValid(v: Vault, s: Store, key: Option<string>, batch: seq<EventCreate>, now: Time)
    requires Valid(s)
    requires SubmitSecurityEvents(v, s, key, batch, now).Ok?
    ensures Valid(SubmitSecurityEvents(v, s, key, batch, now).value.store)
  {
    CreateMultipleEventsValid(s, batch, Authenticate(v, s, key).value, now);
  }
}
