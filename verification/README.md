# Deutoragon2 command dispatch, in Dafny

This project models the backend of Deutoragon2, a FastAPI service that queues
security commands for remote agents and collects the security events those
agents report, together with the reference agent's handling of one command.

The model is functional. The database is a `Store`: three tables held as
sequences in insertion order, plus a counter that stands in for the random
UUID primary keys. Each CRUD function and each endpoint is a pure function
from a store to a `Result`. A `Result` is either an HTTP error or a `Reply`
holding the store after the commit and the response body. An endpoint that
fails returns no store, so nothing it did is committed.

The modules follow the repository:

- `Base`, `Seqs`: shared types and the SQL query shapes (first match, `WHERE`, `ORDER BY`, `OFFSET`/`LIMIT`).
- `Security`: the key vault. Hashing and verification are arbitrary functions, with the property that a key verifies against its own digest (`Sound`).
- `CommandModel`, `ClientModel`, `EventModel`: the SQLModel tables and request schemas.
- `Db`: the store and the schema's table constraints (`Valid`).
- `CrudCommand`, `CrudClient`, `CrudEvent`: `backend/app/crud/`.
- `Deps`: the `X-API-Key` authentication dependency.
- `CommandsApi`, `ClientsApi`, `EventsApi`: `backend/app/api/v1/endpoints/`.
- `Agent`: `client_agent_example/client.py`. Its PATCH calls are emitted as a list of reports, and `Replay` plays that list against the command endpoint.
- `Scenarios`: properties spanning several calls.

Several request details follow the framework:

- The authentication dependency runs before request validation. So a call with a bad key and a bad body gets 401 or 403, not 422.
- Request validation (422) runs before the handler's own checks.
- The database is PostgreSQL, so a negative `OFFSET`/`LIMIT` is refused and surfaces as a 500 (`ServerError`).
- A status longer than the `VARCHAR(50)` column also surfaces as a 500.
- Python's `if status:` treats the empty string as "no filter", and so does the model.

Some behaviours of the code are easy to miss; the model keeps each of them:

- `timeout` is not final. The client PATCH refuses only `completed` and `failed` (`backend/app/api/v1/endpoints/commands.py:117`), so a command that timed out is overwritten (`CommandsApi.UpdateCommandStatusByClientAgent`).
- `CommandCreate` inherits `status` from `CommandBase` (`backend/app/models/command.py:12-36`), so an administrator may choose a new command's initial status (`CrudCommand.CreateCommand`).
- `update_command_by_admin` (`backend/app/crud/crud_command.py:73-87`) checks neither the owner nor the current status, so it can reopen a completed command (`CrudCommand.AdminUpdateReopensFinalCommand`).
- The poll (`backend/app/api/v1/endpoints/commands.py:82-92`) reads the pending rows and then writes them back with no row lock. The model is sequential and proves the sequential form (`Scenarios.NoDoubleDispatch`).

## Model

| member | source | states |
|---|---|---|
| CommandModel.ParseStatus | backend/app/models/command.py:15-16 | every status string has exactly one representation, reads back unchanged, and is one of the seven named statuses exactly when it is not `Other` |
| CommandModel.ParseStatusText | backend/app/models/command.py:15-16 | the other half of the round trip: a well-formed status parses back to itself |
| CommandModel.RequestedStatus | backend/app/models/command.py:12-36 | a create request without `status` gets `pending_dispatch`; one with a status gets exactly that text |
| CommandModel.RequestedPayload | backend/app/models/command.py:14 | a payload left out defaults to the empty document; a sent payload, null included, is kept |
| ClientModel.RequestedClientStatus | backend/app/models/client.py:17 | the schema default for a client's status is `inactive` |
| ClientsApi.RegistrationOverridesRequestedStatus | backend/app/crud/crud_client.py:17-24 | the registered client's status equals the requested one, default included, exactly when that request was `active` |
| ClientModel.ReadViewHidesDigest | backend/app/models/client.py:38-42 | the public view does not depend on the key digest and carries id, name, status and both timestamps over |
| EventModel.ToEvent | backend/app/models/event.py:12-30 | a stored event copies every submitted column, takes its owner from the server, and takes `now` when no timestamp was sent |
| CrudCommand.CreateCommand | backend/app/crud/crud_command.py:10-20 | the new row has the given client, `created_at == updated_at == now`, no result, the requested or default status and payload, and a fresh id; the insert fails exactly when the client does not exist |
| CrudCommand.GetCommand | backend/app/crud/crud_command.py:22-23 | the lookup finds a row with that id, and misses exactly when no row has it |
| CrudCommand.GetCommandAfterReplace | backend/app/crud/crud_command.py:22-23 | after a row is rewritten in place, looking up its id finds the new version |
| CrudCommand.GetCommandsForClient | backend/app/crud/crud_command.py:25-38 | only that client's commands, of that status when one is given, oldest first; with N matches, `min(limit, N - skip)` of them when `skip < N` and none otherwise; from offset 0 no omitted match is older than a returned one, and all N are returned when `N <= limit` |
| CrudCommand.GetCommandsForClientIsWindow | backend/app/crud/crud_command.py:25-38 | the result is positions `[skip, skip + limit)` of the matching commands arranged oldest first |
| CrudCommand.GetAllCommands | backend/app/crud/crud_command.py:40-55 | both optional filters together, newest first; with N matches, `min(limit, N - skip)` of them when `skip < N` and none otherwise; from offset 0 no omitted match is newer than a returned one, and all N are returned when `N <= limit` |
| CrudCommand.GetAllCommandsIsWindow | backend/app/crud/crud_command.py:40-55 | the result is positions `[skip, skip + limit)` of the matching commands arranged newest first |
| CrudCommand.ApplyClientUpdate | backend/app/crud/crud_command.py:63-66 | the status becomes the reported text, the result is replaced only when one is sent, `updated_at` becomes `now`, and every other field is unchanged |
| CrudCommand.UpdateCommandStatusByClient | backend/app/crud/crud_command.py:57-71 | fails exactly when the status overflows the column; otherwise only that row changes, to the updated command |
| CrudCommand.ApplyAdminUpdate | backend/app/crud/crud_command.py:79-82 | exactly the fields that were sent are overwritten, `updated_at` becomes `now`, and everything else is kept |
| CrudCommand.UpdateCommandByAdmin | backend/app/crud/crud_command.py:73-87 | fails exactly when a sent status overflows the column; otherwise only that row changes, with no ownership or terminal-state check |
| CrudCommand.AdminUpdateReopensFinalCommand | backend/app/crud/crud_command.py:73-87 | an administrator can put a completed or failed command back to `pending_dispatch` |
| CrudCommand.MarkDispatched | backend/app/crud/crud_command.py:89-96 | every pending input, and only pending inputs, comes out dispatched with `updated_at == now`, and no more than went in |
| CrudCommand.MarkDispatchedIsFilterThenDispatch | backend/app/crud/crud_command.py:89-96 | the loop equals its reference definition: keep the pending inputs in order, then dispatch each |
| CrudCommand.MarkCommandsAsDispatched | backend/app/crud/crud_command.py:89-101 | exactly the marked rows change in the table; when none was pending, nothing is committed |
| CommandsApi.CreateNewCommandForClient | backend/app/api/v1/endpoints/commands.py:13-38 | 422 for an invalid body, 404 exactly for an unknown client, and success otherwise, whatever the client's status |
| CommandsApi.ReadAllSystemCommands | backend/app/api/v1/endpoints/commands.py:41-55 | `skip` defaults to 0 and `limit` to 100; 422 exactly when `skip < 0` or `limit` is outside 1..200; otherwise the filters reach the query unchanged |
| CommandsApi.ReadAllSystemCommandsIsWindow | backend/app/api/v1/endpoints/commands.py:41-55 | a successful listing is a window of the matching commands arranged newest first; with no paging parameters it holds `min(100, N)` of them |
| CommandsApi.ReadSpecificCommandById | backend/app/api/v1/endpoints/commands.py:58-69 | 404 exactly when no command has that id; otherwise a stored command with that id |
| CommandsApi.Poll | backend/app/api/v1/endpoints/commands.py:82-92 | at most `limit` commands, each the caller's, dispatched and stamped `now`; nothing pending gives `[]` and an untouched store |
| CommandsApi.PollWritesBack | backend/app/api/v1/endpoints/commands.py:82-92 | each polled command is a dispatched pending row of the caller; exactly those rows are rewritten, and the other tables and the key counter are unchanged |
| CommandsApi.PollDispatchesSelection | backend/app/api/v1/endpoints/commands.py:82-92 | the poll hands out exactly the selected pending rows, in the order selected, each dispatched |
| CommandsApi.PollDeliversOldestFirst | backend/app/api/v1/endpoints/commands.py:82-92 | a poll hands out `min(limit, P)` commands, P being the caller's pending count, in ascending creation time |
| CommandsApi.PollLeavesNoOlderBehind | backend/app/api/v1/endpoints/commands.py:82-92 | no pending command of the caller that the poll leaves behind is older than one it hands out |
| CommandsApi.PollDeliversAll | backend/app/api/v1/endpoints/commands.py:82-92 | when `P <= limit`, every pending command of the caller is handed out |
| CommandsApi.PolledFrom | backend/app/api/v1/endpoints/commands.py:82-92 | names the pending row of the caller that a polled command was taken from |
| CommandsApi.FetchPendingCommandsForClient | backend/app/api/v1/endpoints/commands.py:71-92 | authentication errors pass through; then 422 exactly when `limit` is outside 1..50; otherwise the poll, of 10 commands when no `limit` is given |
| CommandsApi.UpdateCommandStatusByClientAgent | backend/app/api/v1/endpoints/commands.py:95-126 | after authentication: 404 exactly for an unknown id, 403 exactly for another client's command, 400 exactly for the owner's completed or failed command; any other status, `timeout` included, is overwritten |
| Deps.ScanWindow | backend/app/api/deps.py:27 | the scan reads the first `min(n, 10000)` clients in store order |
| Deps.Authenticate | backend/app/api/deps.py:17-47 | a missing key is 401; a success is a stored, active client whose digest verifies the key; every error is 401 or 403 |
| Deps.AuthenticatePicksFirstVerifying | backend/app/api/deps.py:21-45 | 401 exactly when the key is missing or nothing in the window verifies; 403 exactly when the first verifying client is inactive, so a later match is never reached; otherwise that first client |
| Deps.AuthenticateReadsClientsOnly | backend/app/api/deps.py:27-32 | the outcome depends on the client table only |
| CrudClient.CreateClientWithApiKey | backend/app/crud/crud_client.py:9-28 | stores the digest of the plain key and hands back that same key; copies name, ip and os; the client is active with `registered_at == now` whatever status was requested; fails exactly on a taken name or digest |
| CrudClient.GetClient | backend/app/crud/crud_client.py:30-32 | finds a client with that id, and misses exactly when none has it |
| CrudClient.GetClientByName | backend/app/crud/crud_client.py:34-37 | the first client whose name is exactly the query, and none exactly when no name matches |
| CrudClient.GetClients | backend/app/crud/crud_client.py:39-42 | the slice `[skip, skip + limit)` of the table, as long as the table allows |
| CrudClient.UpdateClientHeartbeat | backend/app/crud/crud_client.py:44-51 | the client gets `last_heartbeat = now` and `status = active`; no other row, table or field changes |
| CrudClient.HeartbeatIdempotent | backend/app/crud/crud_client.py:44-51 | two heartbeats leave the store that the later one alone leaves, and the client stays active |
| CrudClient.GetClientByHashedApiKey | backend/app/crud/crud_client.py:53-56 | matches on exact digest equality, and misses exactly when no digest is equal |
| CrudClient.CreateClientValid | backend/app/crud/crud_client.py:9-28 | a successful insert keeps the table constraints |
| CrudClient.HeartbeatValid | backend/app/crud/crud_client.py:44-51 | a heartbeat keeps the table constraints |
| ClientsApi.RegisterNewClient | backend/app/api/v1/endpoints/clients.py:11-30 | 422 exactly for an invalid body, 400 exactly for a taken name, 500 exactly on a digest collision; otherwise the response is the new client's public view plus the plain key, and only the client table grows |
| ClientsApi.ReadClientsList | backend/app/api/v1/endpoints/clients.py:33-40 | `skip` defaults to 0 and `limit` to 100; a negative `skip` or `limit` is refused by the database; otherwise the public views of the requested slice, of its exact size |
| ClientsApi.ReadClientById | backend/app/api/v1/endpoints/clients.py:43-51 | 404 exactly for an unknown id; otherwise that client's public view |
| ClientsApi.ClientHeartbeat | backend/app/api/v1/endpoints/clients.py:53-59 | authentication errors pass through; an authenticated caller always succeeds, and the result is active with `last_heartbeat == now` |
| ClientsApi.InactiveClientCannotHeartbeat | backend/app/api/v1/endpoints/clients.py:53-59 | a client whose key is found but who is not active gets 403 and cannot revive itself |
| ClientsApi.RegisteredKeyAuthenticates | backend/app/api/v1/endpoints/clients.py:24-30 | when the vault is sound, the table holds fewer than 10000 clients before registration, and no stored digest already accepts the key, the key returned by registration authenticates as the new client |
| ClientsApi.RegisteredKeyLockedOutWhenFull | backend/app/api/deps.py:27-39 | when 10000 or more clients are stored and no stored digest accepts the key, the key returned by registration gets 401, because the new row lies outside the scanned window |
| ClientsApi.RegisteredKeyAuthenticatesUnbounded | backend/app/api/v1/endpoints/clients.py:24-30 | with a scan over the whole table, the key returned by registration authenticates as the new client whatever the table's size |
| Deps.AuthenticateUnbounded | backend/app/api/deps.py:21-47 | the same checks as `Authenticate` over every stored client: a success is a stored, active client whose digest verifies the key; every error is 401 or 403 |
| Deps.CappedScanAgreesBelowCap | backend/app/api/deps.py:27 | on a table of at most 10000 clients the capped and uncapped scans give the same outcome |
| CrudEvent.CreateEvent | backend/app/crud/crud_event.py:9-17 | the single create as evidently intended (see Findings): the event is owned by the given client, gets a fresh id, and is appended |
| CrudEvent.CreateEventValidating | backend/app/crud/crud_event.py:9-17 | the single create as written: it succeeds exactly when a client id is carried into the table-row validation, fails only with a 500, and on success appends one event owned by the caller |
| CrudEvent.AsWrittenCreateEventIsRefused | backend/app/crud/crud_event.py:11 | with nothing carried into the validation, as in the code, every single create is a 500 |
| CrudEvent.RepairedCreateEventIsStored | backend/app/crud/crud_event.py:11-12 | with the caller's id carried into the validation, the single create stores exactly what `CreateEvent` stores |
| CrudEvent.CreateMultipleEvents | backend/app/crud/crud_event.py:19-30 | one stored event per input, in input order, each owned by the client |
| CrudEvent.BatchAttribution | backend/app/crud/crud_event.py:19-30 | every event of a batch is the caller's, keeps its type, severity and defaulted timestamp, and has a distinct fresh id |
| CrudEvent.BatchIsSequenceOfSingleCreates | backend/app/crud/crud_event.py:9-30 | storing a batch in one commit equals storing its events one by one, in order |
| CrudEvent.GetEvents | backend/app/crud/crud_event.py:33-58 | the filters combine, the date bounds are inclusive, results are newest first; with N matches, `min(limit, N - skip)` of them when `skip < N` and none otherwise; from offset 0 no omitted match is newer than a returned one, and all N are returned when `N <= limit` |
| CrudEvent.GetEventsIsWindow | backend/app/crud/crud_event.py:33-58 | the result is positions `[skip, skip + limit)` of the matching events arranged newest first |
| CrudEvent.ValidateAsTableRow | backend/app/crud/crud_event.py:11 | validating a submitted event as a table row succeeds exactly when it carries a client id |
| CrudEvent.CreateMultipleEventsValidating | backend/app/crud/crud_event.py:19-30 | the loop either stores one event per input or fails with a 500 |
| CrudEvent.AsWrittenBatchIsRefused | backend/app/crud/crud_event.py:19-30 | as written, every non-empty batch fails with a 500 |
| CrudEvent.RepairedBatchIsStored | backend/app/crud/crud_event.py:19-30 | with the caller's id carried into the validation, the loop stores exactly what `CreateMultipleEvents` stores |
| CrudEvent.CreateMultipleEventsValid | backend/app/crud/crud_event.py:19-30 | storing a batch for a stored client keeps the table constraints |
| EventsApi.SubmitSecurityEvents | backend/app/api/v1/endpoints/events.py:12-25 | authentication errors pass through; then 422 exactly for an invalid item, 400 exactly for an empty list; otherwise the batch is stored as the caller's |
| EventsApi.ReadSecurityEventsLog | backend/app/api/v1/endpoints/events.py:30-51 | `skip` defaults to 0 and `limit` to 100; 422 exactly when `skip`, `limit`, `event_type` or `severity` is out of range; otherwise the filters reach the query unchanged |
| EventsApi.ReadSecurityEventsLogIsWindow | backend/app/api/v1/endpoints/events.py:30-51 | a successful log query is a window of the matching events arranged newest first; with no paging parameters it holds `min(100, N)` of them |
| Agent.FinalUpdate | client_agent_example/client.py:110-129 | the closing report is final and has a result; `failed` exactly for a failed `block_ip`; a `log_message` result shows at most fifty characters of the message; a `block_ip` result names the ip; any other type gets the generic completion |
| Agent.ProcessSingleCommand | client_agent_example/client.py:96-132 | three reports for the command: `acknowledged` and `in_progress` without a result, then the final status with its result; every status fits the column |
| Agent.ProcessSingleCommandAsWritten | client_agent_example/client.py:96-132 | the handler crashes exactly when the payload is null and the type reads it, after the two progress reports |
| Agent.AsWrittenAgreesUnlessCrashed | client_agent_example/client.py:96-132 | when it does not crash, the handler as written sends what the corrected one sends; when it crashes, it sends only the first two reports |
| Agent.ReportAccepted | backend/app/api/v1/endpoints/commands.py:106-126 | the owner's report on a command that is not final, with a status that fits, is accepted and leaves the command as the update says |
| Agent.ReplayOwnReports | client_agent_example/client.py:135-147 | replaying the owner's reports, none final before the last, applies each of them in order; authentication is unaffected |
| Agent.ClosedCommandRefusesReports | backend/app/api/v1/endpoints/commands.py:117-121 | once the owner has closed a command, every further report gets 400 |
| Agent.AgentProgressKeepsResult | client_agent_example/client.py:102-107 | after the two progress reports the command is `in_progress` and keeps its previous result |
| Agent.AgentRunFinishesCommand | client_agent_example/client.py:96-132 | after the three reports the command holds the final status and result, and a later report gets 400 |
| Agent.NullPayloadStallsCommand | client_agent_example/client.py:99-117 | with a null payload, a `log_message` command is left `in_progress` by the handler as written |
| Agent.SendSecurityEvents | client_agent_example/client.py:43-45 | an empty list is not sent; anything else is sent unchanged |
| Agent.AgentNeverSendsEmptyBatch | client_agent_example/client.py:43-45 | whatever the agent sends never draws the server's empty-batch 400 |
| Agent.AgentPollIsAccepted | client_agent_example/client.py:77 | the agent's poll size of 5 is never refused for an authenticated agent |
| Agent.StripNone | client_agent_example/client.py:71 | exactly the null-valued keys other than `details` are dropped, and the kept values are unchanged |
| Agent.DecodeEvent | backend/app/models/event.py:12-30 | decoding succeeds exactly when type and severity are strings, the optional texts are strings or null, details are an object or null, and a sent timestamp is a non-null datetime; a left-out timestamp takes the default; the 500 arises exactly from an explicit null timestamp on an otherwise well-typed event |
| Agent.StripNoneKeepsDecoding | client_agent_example/client.py:62-71 | dropping the null-valued keys does not change what the server reads, as long as the timestamp is not null |
| Agent.GeneratedEventRequiredKeys | client_agent_example/client.py:56-72 | a generated event carries its chosen type, severity, details and time stamp |
| Agent.GeneratedEventOptionalKeys | client_agent_example/client.py:56-72 | a generated event carries a source address or database name exactly when one was chosen |
| Agent.GeneratedEventDecodes | client_agent_example/client.py:56-72 | every generated event decodes to the create schema with the chosen values and passes the length limits, given that the server reads the agent's ISO-8601 stamp as a datetime |
| Scenarios.NoDoubleDispatch | backend/app/api/v1/endpoints/commands.py:82-92 | two polls in a row by the same client never hand out the same command |
| Scenarios.PolledCommandRow | backend/app/api/v1/endpoints/commands.py:82-92 | a polled command is the dispatched form of a pending row of the caller, and that row now holds it |
| Scenarios.PolledCommandIsStored | backend/app/api/v1/endpoints/commands.py:82-92 | a polled command belongs to the caller, is dispatched and not final, and looking up its id finds it as handed out |
| Scenarios.PendingAfterPoll | backend/app/api/v1/endpoints/commands.py:82-92 | a row still pending after a poll was not handed out by it |
| Scenarios.QueuedCommandIsPolled | backend/app/api/v1/endpoints/commands.py:13-38 | a command queued without a status reaches its client's next poll whenever the poll has room for all of the client's pending commands |
| Scenarios.QueuedCommandIsFetched | backend/app/api/v1/endpoints/commands.py:71-92 | the same through the authenticated endpoint, with the default or a given `limit` |
| Scenarios.QueuedCommandRunsToClose | client_agent_example/client.py:74-132 | a queued command is fetched by its owner's next poll, closed by the agent's reports, and refuses later reports with 400 |
| Scenarios.PollThenProcess | client_agent_example/client.py:74-132 | poll, then the agent's three reports: the command ends final, and a later report is refused with 400 |
| Scenarios.OwnerCanRequeue | backend/app/api/v1/endpoints/commands.py:117-126 | the owner can put a command that is not final back to `pending_dispatch` |
| Scenarios.RegisterKeepsValid | backend/app/api/v1/endpoints/clients.py:11-30 | registration keeps the table constraints |
| Scenarios.HeartbeatKeepsValid | backend/app/api/v1/endpoints/clients.py:53-59 | a heartbeat keeps the table constraints |
| Scenarios.CreateCommandKeepsValid | backend/app/api/v1/endpoints/commands.py:13-38 | creating a command keeps the table constraints |
| Scenarios.PollKeepsValid | backend/app/api/v1/endpoints/commands.py:71-92 | a poll keeps the table constraints |
| Scenarios.AdminUpdateKeepsValid | backend/app/crud/crud_command.py:73-87 | an accepted administrative update of a stored command keeps the table constraints |
| Scenarios.ReportKeepsValid | backend/app/api/v1/endpoints/commands.py:95-126 | an accepted status report keeps the table constraints |
| Scenarios.SubmitKeepsValid | backend/app/api/v1/endpoints/events.py:12-25 | storing a submitted batch keeps the table constraints |

## Left out

- ClientsApi.RegisteredKeyAuthenticates: promises authentication of a fresh key only when fewer than 10000 clients were stored, because the code's scan stops at 10000 rows; `ClientsApi.RegisteredKeyLockedOutWhenFull` states the 401 above that size (see Findings).
- CrudEvent.CreateEvent: states the single create as evidently intended, not as written; the code's `create_event` is `CrudEvent.CreateEventValidating`, which is always a 500 (see Findings).
- Key generation, bcrypt hashing and verification (`backend/app/core/security.py`): the plain key is a parameter, and hash and verify are arbitrary functions. Salting, constant-time comparison and the 32-byte key length are not modelled.
- SQL sessions, `commit`/`refresh`, indexes and cascade deletes: a call is atomic, and nothing is ever deleted.
- Concurrent polls: the model is sequential. The missing row lock, and the double dispatch it allows under concurrency, cannot be stated here.
- Wall-clock time: every call takes one `now`, shared by all timestamps it writes. The agent's sleeps are not modelled.
- Random choices: the outcome of `block_ip` is the `blockSucceeded` parameter, and the choices, `info` text and time stamp of a generated event are parameters of `Agent.GenerateEvent`. The scheduler and the agent's heartbeat loop are not modelled.
- HTTP transport: the agent's requests are values, and the swallowed request errors appear as skipped reports in `Replay`.
- UUIDs are drawn from a counter, which also makes them fresh. A random-key collision is not modelled.
- JSON payloads and event details are string-valued maps. A payload value of another JSON type is out of reach: an integer `message`, for instance, makes the agent's `message[:50]` raise (`client_agent_example/client.py:115`) and stalls the command just as the null payload under Findings does. The numeric `code` in a generated event's details is kept as its decimal text.
- Dates are natural numbers. The schema's datetime coercion of a submitted value (an ISO-8601 string or a number) is the parameter `parseTime` of `Agent.DecodeEvent`; time zones and instants before 1970 are not modelled.
- `ORDER BY` ties: PostgreSQL leaves the order of equal timestamps unspecified. The model uses a stable sort, so ties keep their store order, and the contracts say nothing about the order of ties.
- Table scans read rows in insertion order. PostgreSQL promises no order for a query without `ORDER BY`, which affects the authentication scan and the client list.
- Malformed request bodies (a wrong JSON type, a missing required field): `CommandCreate`, `CommandUpdateByClient`, `CommandUpdateByAdmin`, `ClientCreate` and `EventCreate` arrive already typed, and only the length limits are checked. The exception is the event object: `Agent.DecodeEvent` reads a JSON object into `EventCreate`, and `Agent.GeneratedEventDecodes` shows that every event the agent generates is accepted.
- CrudCommand.ApplyAdminUpdate: a status sent as explicit null, which the NOT NULL column would refuse, is not modelled; a sent status is always a string.
- The Streamlit frontend, application bootstrap, configuration, router mounting and the model package's re-exports.
- A deadline sweep: none exists in the code. `dispatch_deadline` is carried and never read.
- The commented-out `PATCH /clients/me` endpoint.

## Findings

| source | as written | input that shows it | evidently intended | confidence | as-written member | corrected member |
|---|---|---|---|---|---|---|
| client_agent_example/client.py:99-117 | `command.get("payload", {})` yields None when the key is present with a null value, and the next `payload.get` raises; the AttributeError is not a request error, so it escapes `fetch_and_process_commands` (client.py:90), the bare start-up call (client.py:167) and the scheduler loop, which catches only KeyboardInterrupt (client.py:175-182): the agent process exits after sending `acknowledged` and `in_progress`, and the other commands of the same poll stay `dispatched` | a `log_message` command created with `"payload": null`, which the create schema accepts | a null payload reads as an empty one, so the defaults "No message in payload." and "No IP specified." apply and the command is closed | medium, not executed | Agent.ProcessSingleCommandAsWritten, Agent.NullPayloadStallsCommand | Agent.ProcessSingleCommand, Agent.AgentRunFinishesCommand |
| backend/app/crud/crud_event.py:9-30 | `SecurityEvent.model_validate(event_in)` validates the submitted event against the table model, whose `client_id` is required, before `client_id` is assigned; the create schema has no `client_id`, so validation fails and the exception surfaces as a 500 | any non-empty, valid batch sent to `POST /events` by an authenticated agent | each event is stored with the caller as owner, for instance by passing the caller's id into the validation | medium, not executed | CrudEvent.CreateEventValidating, CrudEvent.AsWrittenCreateEventIsRefused, CrudEvent.CreateMultipleEventsValidating, CrudEvent.AsWrittenBatchIsRefused | CrudEvent.CreateEvent, CrudEvent.RepairedCreateEventIsStored, CrudEvent.CreateMultipleEvents, CrudEvent.RepairedBatchIsStored |
| backend/app/api/deps.py:27 | authentication scans only the first 10000 rows of the client table, so a client stored at position 10001 or later can never be found | registering a client when 10000 are already stored, then sending its fresh key with any authenticated request: the answer is 401 | every stored client is considered, so a freshly registered key authenticates | medium, not executed | Deps.Authenticate, ClientsApi.RegisteredKeyLockedOutWhenFull | Deps.AuthenticateUnbounded, ClientsApi.RegisteredKeyAuthenticatesUnbounded |

The event row rests on SQLModel validating a table model in `model_validate`, which is library code outside this model. It covers both the single create and the batch loop. `CrudEvent.CreateEvent` and `CrudEvent.CreateMultipleEvents` are the corrected creates, and the endpoint model `EventsApi.SubmitSecurityEvents` uses them.

The endpoint models keep the capped scan of the code, `Deps.Authenticate`. `Deps.CappedScanAgreesBelowCap` shows the corrected scan gives the same answers on tables of at most 10000 clients, so every authentication property stated here holds of either below that size.

A command stalled this way stays `in_progress` for good, and the commands handed out with it by the same poll stay `dispatched`. A poll only returns pending commands, so a restarted agent never sees any of them again.
