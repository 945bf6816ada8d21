/** The reference agent (`client_agent_example/client.py`): how it handles
    one polled command, the guard in front of event submission, and the
    shape of the events it generates. HTTP calls become values: the agent
    emits a list of PATCH reports, and replaying that list against the
    command endpoint is how the two sides are connected. */
module Agent {
  import opened Base
  import opened Security
  import opened CommandModel
  import opened EventModel
  import opened Db
  import opened CrudCommand
  import opened Deps
  import opened CommandsApi
  import opened EventsApi

  /** The agent asks for at most five commands per poll. */
  const AgentPollLimit: int := 5
  const PreviewLength: nat := 50
  const LogPrefix: string := "Message logged: '"
  const LogSuffix: string := "...'"
  const NoMessage: string := "No message in payload."
  const NoIp: string := "No IP specified."
  const GenericResult: string := "Unknown command type processed with generic completion."

  /** One `PATCH /commands/{id}` the agent sends. */
  datatype Report = Report(commandId: Id, update: CommandUpdateByClient)

  /** `payload.get(key, default)`. */
  function Get(p: Payload, key: string, default: string): string
  {
    if key in p then p[key] else default
  }

  function LogResult(message: string): string
  {
    LogPrefix + message[..Min(PreviewLength, |message|)] + LogSuffix
  }

  function BlockResult(ip: string, succeeded: bool): string
  {
    if succeeded then "IP " + ip + " successfully processed for blocking."
    else "Failed to process IP " + ip + " for blocking."
  }

  /** `res` is a log result showing the first characters of `message`,
      no more than fifty of them. */
  predicate EmbedsPreview(res: string, message: string)
  {
    && |LogPrefix| + |LogSuffix| <= |res|
    && res[..|LogPrefix|] == LogPrefix
    && res[|res| - |LogSuffix|..] == LogSuffix
    && var shown := res[|LogPrefix|..|res| - |LogSuffix|];
       |shown| == Min(PreviewLength, |message|) && shown == message[..|shown|]
  }

  predicate OccursAt(res: string, part: string, k: int)
  {
    0 <= k <= |res| - |part| && res[k..k + |part|] == part
  }

  ghost predicate Mentions(res: string, part: string)
  {
    exists k :: OccursAt(res, part, k)
  }

  /** The two command types whose handling reads the payload. */
  predicate ReadsPayload(commandType: string)
  {
    commandType == "log_message" || commandType == "block_ip"
  }

  /** The closing report for a command of `commandType`; `blockSucceeded`
      stands for the agent's coin toss on `block_ip`. */
  function FinalUpdate(commandType: string, payload: Payload, blockSucceeded: bool): (u: CommandUpdateByClient)
    ensures IsFinal(ParseStatus(u.status)) && u.executionResult.Some?
    ensures u.status == StatusText(Failed) <==> commandType == "block_ip" && !blockSucceeded
    ensures commandType == "log_message" ==> EmbedsPreview(u.executionResult.value, Get(payload, "message", NoMessage))
    ensures commandType == "block_ip" ==> Mentions(u.executionResult.value, Get(payload, "ip", NoIp))
    ensures !ReadsPayload(commandType) ==> u == CommandUpdateByClient(StatusText(Completed), Some(GenericResult))
  {
    if commandType == "log_message" then
      var message := Get(payload, "message", NoMessage);
      var res := LogResult(message);
      assert res[..|LogPrefix|] == LogPrefix;
      assert res[|res| - |LogSuffix|..] == LogSuffix;
      assert res[|LogPrefix|..|res| - |LogSuffix|] == message[..Min(PreviewLength, |message|)];
      CommandUpdateByClient(StatusText(Completed), Some(res))
    else if commandType == "block_ip" then
      var ip := Get(payload, "ip", NoIp);
      var res := BlockResult(ip, blockSucceeded);
      assert blockSucceeded ==> OccursAt(res, ip, 3);
      assert !blockSucceeded ==> OccursAt(res, ip, 21);
      CommandUpdateByClient(StatusText(if blockSucceeded then Completed else Failed), Some(res))
    else
      CommandUpdateByClient(StatusText(Completed), Some(GenericResult))
  }

  /** The two progress reports sent before any work, neither with a result. */
  function Progress(id: Id): seq<Report>
  {
    [Report(id, CommandUpdateByClient(StatusText(Acknowledged), None)),
     Report(id, CommandUpdateByClient(StatusText(InProgress), None))]
  }

  /** `process_single_command` with a null payload read as an empty one:
      three reports for the command, acknowledged, then in progress, then
      a final status carrying a result. */
  function ProcessSingleCommand(c: Command, blockSucceeded: bool): (r: seq<Report>)
    ensures |r| == 3
    ensures forall i :: 0 <= i < |r| ==> r[i].commandId == c.id
    ensures r[0].update == CommandUpdateByClient("acknowledged", None)
    ensures r[1].update == CommandUpdateByClient("in_progress", None)
    ensures IsFinal(ParseStatus(r[2].update.status)) && r[2].update.executionResult.Some?
    ensures forall i :: 0 <= i < |r| ==> |r[i].update.status| <= MaxStatusLength
    ensures r[2].update.status == "failed" <==> c.commandType == "block_ip" && !blockSucceeded
    ensures c.commandType == "log_message" ==>
              EmbedsPreview(r[2].update.executionResult.value, Get(PayloadOrEmpty(c.payload), "message", NoMessage))
    ensures c.commandType == "block_ip" ==>
              Mentions(r[2].update.executionResult.value, Get(PayloadOrEmpty(c.payload), "ip", NoIp))
    ensures !ReadsPayload(c.commandType) ==>
              r[2].update == CommandUpdateByClient("completed", Some(GenericResult))
  {
    var u := FinalUpdate(c.commandType, PayloadOrEmpty(c.payload), blockSucceeded);
    assert u.status == "completed" || u.status == "failed";
    Progress(c.id) + [Report(c.id, u)]
  }

  function PayloadOrEmpty(p: Option<Payload>): Payload
  {
    match p
    case None => map[]
    case Some(m) => m
  }

  /** What one run of the agent's handler produced: the reports sent, and
      whether it stopped with an uncaught exception. */
  datatype Run = Run(reports: seq<Report>, crashed: bool)

  /** `process_single_command` as written: `command.get("payload", {})`
      yields None when the command's payload is null, and the first
      `payload.get` on it raises, after the two progress reports. */
  function ProcessSingleCommandAsWritten(c: Command, blockSucceeded: bool): (r: Run)
    ensures r.crashed <==> c.payload.None? && ReadsPayload(c.commandType)
    ensures |r.reports| == (if r.crashed then 2 else 3)
    ensures r.reports[..2] == Progress(c.id)
  {
    match c.payload
    case None =>
      if ReadsPayload(c.commandType) then Run(Progress(c.id), true)
      else Run(Progress(c.id) + [Report(c.id, FinalUpdate(c.commandType, map[], blockSucceeded))], false)
    case Some(p) => Run(Progress(c.id) + [Report(c.id, FinalUpdate(c.commandType, p, blockSucceeded))], false)
  }

  /** Whenever the as-written handler does not crash it sends exactly what
      the corrected one sends; when it crashes, it has sent the corrected
      handler's first two reports and nothing else. */
  lemma AsWrittenAgreesUnlessCrashed(c: Command, blockSucceeded: bool)
    ensures var w := ProcessSingleCommandAsWritten(c, blockSucceeded);
            !w.crashed ==> w.reports == ProcessSingleCommand(c, blockSucceeded)
    ensures var w := ProcessSingleCommandAsWritten(c, blockSucceeded);
            w.crashed ==> w.reports == ProcessSingleCommand(c, blockSucceeded)[..2]
  {
  }

  /** The agent's PATCH calls swallow every error, so a rejected report is
      simply skipped. */
  function Replay(v: Vault, s: Store, key: Option<string>, reports: seq<Report>, now: Time): Store
    decreases |reports|
  {
    if |reports| == 0 then s
    else match UpdateCommandStatusByClientAgent(v, s, key, reports[0].commandId, reports[0].update, now)
      case Err(_) => Replay(v, s, key, reports[1..], now)
      case Ok(reply) => Replay(v, reply.store, key, reports[1..], now)
  }

  /** A report from the owner of a command that is not yet final, with a
      status that fits the column, is accepted; the command then reads as
      the update leaves it, and the caller still authenticates the same. */
  lemma ReportAccepted(v: Vault, s: Store, key: Option<string>, c: Command, u: CommandUpdateByClient, now: Time)
    requires Authenticate(v, s, key).Ok?
    requires GetCommand(s, c.id) == Some(c)
    requires c.clientId == Authenticate(v, s, key).value.id
    requires !IsFinal(c.status)
    requires |u.status| <= MaxStatusLength
    ensures var r := UpdateCommandStatusByClientAgent(v, s, key, c.id, u, now);
            && r.Ok?
            && r.value.body == ApplyClientUpdate(c, u, now)
            && GetCommand(r.value.store, c.id) == Some(ApplyClientUpdate(c, u, now))
            && Authenticate(v, r.value.store, key) == Authenticate(v, s, key)
  {
    var r := UpdateCommandStatusByClientAgent(v, s, key, c.id, u, now);
    var c' := ApplyClientUpdate(c, u, now);
    assert c.id == c'.id;
    var i :| 0 <= i < |s.commands| && s.commands[i] == c;
    GetCommandAfterReplace(s, c');
    AuthenticateReadsClientsOnly(v, s, r.value.store, key);
  }

  /** The command as a run of accepted reports leaves it. */
  function ApplyAll(c: Command, reports: seq<Report>, now: Time): Command
    decreases |reports|
  {
    if |reports| == 0 then c else ApplyAll(ApplyClientUpdate(c, reports[0].update, now), reports[1..], now)
  }

  /** Replaying the owner's reports for one command, none of them closing
      it before the last, applies every one of them in order. */
  lemma {:induction false} ReplayOwnReports(v: Vault, s: Store, key: Option<string>, c: Command, reports: seq<Report>, now: Time)
    requires Authenticate(v, s, key).Ok?
    requires GetCommand(s, c.id) == Some(c)
    requires c.clientId == Authenticate(v, s, key).value.id
    requires !IsFinal(c.status)
    requires forall i :: 0 <= i < |reports| ==> reports[i].commandId == c.id && |reports[i].update.status| <= MaxStatusLength
    requires forall i :: 0 <= i < |reports| - 1 ==> !IsFinal(ParseStatus(reports[i].update.status))
    ensures GetCommand(Replay(v, s, key, reports, now), c.id) == Some(ApplyAll(c, reports, now))
    ensures Authenticate(v, Replay(v, s, key, reports, now), key) == Authenticate(v, s, key)
    decreases |reports|
  {
    if |reports| > 0 {
      ReportAccepted(v, s, key, c, reports[0].update, now);
      var r := UpdateCommandStatusByClientAgent(v, s, key, c.id, reports[0].update, now);
      var c' := ApplyClientUpdate(c, reports[0].update, now);
      assert Replay(v, s, key, reports, now) == Replay(v, r.value.store, key, reports[1..], now);
      if |reports| > 1 {
        assert c'.status == ParseStatus(reports[0].update.status);
        ReplayOwnReports(v, r.value.store, key, c', reports[1..], now);
      } else {
        assert reports[1..] == [];
      }
    }
  }

  /** A command its owner has closed refuses every further report. */
  lemma ClosedCommandRefusesReports(v: Vault, s: Store, key: Option<string>, d: Command, u: CommandUpdateByClient, later: Time)
    requires Authenticate(v, s, key).Ok?
    requires GetCommand(s, d.id) == Some(d)
    requires d.clientId == Authenticate(v, s, key).value.id
    requires IsFinal(d.status)
    ensures UpdateCommandStatusByClientAgent(v, s, key, d.id, u, later) == Err(BadRequest)
  {
  }

  /** The agent's two progress reports on a command of its own that is not
      final leave it in progress, with its previous result kept. */
  lemma AgentProgressKeepsResult(v: Vault, s: Store, key: Option<string>, c: Command, blockSucceeded: bool, now: Time)
    requires Authenticate(v, s, key).Ok?
    requires GetCommand(s, c.id) == Some(c)
    requires c.clientId == Authenticate(v, s, key).value.id
    requires !IsFinal(c.status)
    ensures var mid := GetCommand(Replay(v, s, key, ProcessSingleCommand(c, blockSucceeded)[..2], now), c.id);
            && mid.Some? && mid.value.status == InProgress
            && mid.value.executionResult == c.executionResult
  {
    var reports := ProcessSingleCommand(c, blockSucceeded)[..2];
    ReplayOwnReports(v, s, key, c, reports, now);
    var c1 := ApplyClientUpdate(c, reports[0].update, now);
    var c2 := ApplyClientUpdate(c1, reports[1].update, now);
    assert reports[1..][1..] == [];
    assert ApplyAll(c2, reports[1..][1..], now) == c2;
    assert ApplyAll(c, reports, now) == c2;
  }

  /** End to end: after the owner's agent has sent all three reports on a
      command of its own that was not final, the command carries the final
      status and result, and every later report on it is refused with 400. */
  lemma AgentRunFinishesCommand(v: Vault, s: Store, key: Option<string>, c: Command,
                                blockSucceeded: bool, now: Time, later: Time, u: CommandUpdateByClient)
    requires Authenticate(v, s, key).Ok?
    requires GetCommand(s, c.id) == Some(c)
    requires c.clientId == Authenticate(v, s, key).value.id
    requires !IsFinal(c.status)
    ensures var reports := ProcessSingleCommand(c, blockSucceeded);
            var s' := Replay(v, s, key, reports, now);
            var d := GetCommand(s', c.id);
            && d.Some?
            && StatusText(d.value.status) == reports[2].update.status
            && IsFinal(d.value.status)
            && d.value.executionResult == reports[2].update.executionResult
            && UpdateCommandStatusByClientAgent(v, s', key, c.id, u, later) == Err(BadRequest)
  {
    var reports := ProcessSingleCommand(c, blockSucceeded);
    var s' := Replay(v, s, key, reports, now);
    ReplayOwnReports(v, s, key, c, reports, now);
    var d := ApplyAll(c, reports, now);
    ApplyAllClosing(c, reports, now);
    ClosedCommandRefusesReports(v, s', key, d, u, later);
  }

  /** Applying a run of reports whose last one carries a final status
      leaves the command with that status and that report's result. */
  lemma ApplyAllClosing(c: Command, reports: seq<Report>, now: Time)
    requires |reports| == 3
    requires IsFinal(ParseStatus(reports[2].update.status)) && reports[2].update.executionResult.Some?
    ensures StatusText(ApplyAll(c, reports, now).status) == reports[2].update.status
    ensures IsFinal(ApplyAll(c, reports, now).status)
    ensures ApplyAll(c, reports, now).executionResult == reports[2].update.executionResult
    ensures ApplyAll(c, reports, now).id == c.id && ApplyAll(c, reports, now).clientId == c.clientId
  {
    var c1 := ApplyClientUpdate(c, reports[0].update, now);
    var c2 := ApplyClientUpdate(c1, reports[1].update, now);
    var c3 := ApplyClientUpdate(c2, reports[2].update, now);
    assert reports[1..][0] == reports[1] && reports[1..][1..][0] == reports[2];
    assert reports[1..][1..][1..] == [];
    assert ApplyAll(c, reports, now) == ApplyAll(c1, reports[1..], now);
    assert ApplyAll(c1, reports[1..], now) == ApplyAll(c2, reports[1..][1..], now);
    assert ApplyAll(c2, reports[1..][1..], now) == ApplyAll(c3, reports[1..][1..][1..], now);
    assert ApplyAll(c3, reports[1..][1..][1..], now) == c3;
    ParseStatusText(c3.status);
  }

  /** A command whose payload is null and whose type reads the payload is
      left `in_progress` by the as-written agent: the crash comes after
      the progress reports and before the final one. Polling only returns
      pending commands, so nothing ever moves it on. */
  lemma NullPayloadStallsCommand(v: Vault, s: Store, key: Option<string>, c: Command, blockSucceeded: bool, now: Time)
    requires Authenticate(v, s, key).Ok?
    requires GetCommand(s, c.id) == Some(c)
    requires c.clientId == Authenticate(v, s, key).value.id
    requires !IsFinal(c.status)
    requires c.payload.None? && c.commandType == "log_message"
    ensures var w := ProcessSingleCommandAsWritten(c, blockSucceeded);
            var d := GetCommand(Replay(v, s, key, w.reports, now), c.id);
            && w.crashed
            && d.Some? && d.value.status == InProgress && !IsFinal(d.value.status)
  {
    var w := ProcessSingleCommandAsWritten(c, blockSucceeded);
    AsWrittenAgreesUnlessCrashed(c, blockSucceeded);
    AgentProgressKeepsResult(v, s, key, c, blockSucceeded, now);
  }

  /** `send_security_events`: an empty list is not sent at all. */
  function SendSecurityEvents(events: seq<EventCreate>): (r: Option<seq<EventCreate>>)
    ensures r.None? <==> |events| == 0
    ensures r.Some? ==> r.value == events
  {
    if |events| == 0 then None else Some(events)
  }

  /** So the server's empty-batch 400 is never provoked by the agent. */
  lemma AgentNeverSendsEmptyBatch(v: Vault, s: Store, key: Option<string>, events: seq<EventCreate>, now: Time)
    requires SendSecurityEvents(events).Some?
    ensures SubmitSecurityEvents(v, s, key, SendSecurityEvents(events).value, now) != Err(BadRequest)
  {
  }

  /** The agent's poll size is inside the endpoint's 1 to 50 range: an
      authenticated agent's poll is never refused. */
  lemma AgentPollIsAccepted(v: Vault, s: Store, key: Option<string>, now: Time)
    requires Authenticate(v, s, key).Ok?
    ensures FetchPendingCommandsForClient(v, s, key, Some(AgentPollLimit), now).Ok?
  {
  }

  /** The JSON values a generated event holds. */
  datatype Json = Null | Str(text: string) | Num(n: int) | Obj(fields: map<string, string>)

  /** The comprehension in `generate_random_event`: every key whose value
      is null is dropped, except `details`. */
  function StripNone(m: map<string, Json>): (r: map<string, Json>)
    ensures forall k :: k in r <==> k in m && (m[k] != Null || k == "details")
    ensures forall k :: k in r ==> r[k] == m[k]
  {
    map k | k in m && (m[k] != Null || k == "details") :: m[k]
  }

  /** An optional text column: absent and null both mean None. */
  function OptionalText(m: map<string, Json>, k: string): Result<Option<string>>
  {
    if k !in m || m[k] == Null then Ok(None)
    else if m[k].Str? then Ok(Some(m[k].text))
    else Err(Unprocessable)
  }

  function RequiredText(m: map<string, Json>, k: string): Result<string>
  {
    if k in m && m[k].Str? then Ok(m[k].text) else Err(Unprocessable)
  }

  /** The fields of a submitted event other than its timestamp have the
      JSON types the create schema declares. */
  predicate SchemaFieldsOk(m: map<string, Json>)
  {
    && RequiredText(m, "event_type").Ok? && RequiredText(m, "severity").Ok?
    && OptionalText(m, "source_ip").Ok? && OptionalText(m, "db_name_target").Ok?
    && ("details" in m ==> m["details"].Null? || m["details"].Obj?)
  }

  /** How the server reads one submitted event object into its create
      schema. `parseTime` is the schema's datetime coercion of a non-null
      JSON value (an ISO-8601 string or a number); `None` means the value
      is not a datetime. A left-out `timestamp` takes the default; an
      explicit null one passes the schema but is refused by the NOT NULL
      column. */
  function DecodeEvent(parseTime: Json -> Option<Time>, m: map<string, Json>): (r: Result<EventCreate>)
    ensures r.Ok? <==> SchemaFieldsOk(m) && ("timestamp" in m ==> m["timestamp"] != Null && parseTime(m["timestamp"]).Some?)
    ensures r.Ok? ==> "event_type" in m && m["event_type"] == Str(r.value.eventType)
    ensures r.Ok? ==> "severity" in m && m["severity"] == Str(r.value.severity)
    ensures r.Ok? ==> r.value.timestamp == if "timestamp" in m then parseTime(m["timestamp"]) else None
    ensures r == Err(ServerError) <==> SchemaFieldsOk(m) && "timestamp" in m && m["timestamp"] == Null
  {
    match (RequiredText(m, "event_type"), RequiredText(m, "severity"), OptionalText(m, "source_ip"), OptionalText(m, "db_name_target"))
    case (Ok(eventType), Ok(severity), Ok(sourceIp), Ok(dbName)) =>
      var details: Result<Option<map<string, string>>> :=
        if "details" !in m || m["details"] == Null then Ok(None)
        else if m["details"].Obj? then Ok(Some(m["details"].fields))
        else Err(Unprocessable);
      var timestamp: Result<Option<Time>> :=
        if "timestamp" !in m then Ok(None)
        else if m["timestamp"] == Null then Err(ServerError)
        else match parseTime(m["timestamp"]) {
          case None => Err(Unprocessable)
          case Some(t) => Ok(Some(t))
        };
      if details.Err? then Err(details.error)
      else if timestamp.Err? then Err(timestamp.error)
      else Ok(EventCreate(eventType, severity, sourceIp, details.value, dbName, timestamp.value))
    case _ => Err(Unprocessable)
  }

  /** Dropping the null-valued keys does not change what the server reads,
      as long as the timestamp is not itself null (the agent always sets
      one). */
  lemma StripNoneKeepsDecoding(parseTime: Json -> Option<Time>, m: map<string, Json>)
    requires "timestamp" in m ==> m["timestamp"] != Null
    ensures DecodeEvent(parseTime, StripNone(m)) == DecodeEvent(parseTime, m)
  {
    var m' := StripNone(m);
    assert OptionalText(m', "source_ip") == OptionalText(m, "source_ip");
    assert OptionalText(m', "db_name_target") == OptionalText(m, "db_name_target");
    assert RequiredText(m', "event_type") == RequiredText(m, "event_type");
    assert RequiredText(m', "severity") == RequiredText(m, "severity");
  }

  /** The value choices of `generate_random_event`. */
  const EventTypes: seq<string> := ["login_failure", "file_access_denied", "sql_injection_attempt", "ssh_login", "firewall_block"]
  const Severities: seq<string> := ["low", "medium", "high", "critical"]
  const SourceIps: seq<Option<string>> := [Some("192.168.1.101"), Some("10.0.0.5"), Some("203.0.113.45"), None]
  const DbNames: seq<Option<string>> := [Some("main_db"), Some("user_profiles"), Some("audit_log_db"), None]

  function OrNull(o: Option<string>): Json
  {
    match o
    case None => Null
    case Some(t) => Str(t)
  }

  /** `generate_random_event` with its random choices, the `info` text and
      the ISO-8601 `stamp` of the current time passed in. The numeric
      `code` is kept as its decimal text. */
  function GenerateEvent(eventType: string, severity: string, sourceIp: Option<string>, dbName: Option<string>,
                         info: string, code: string, stamp: string): map<string, Json>
    requires eventType in EventTypes && severity in Severities && sourceIp in SourceIps && dbName in DbNames
  {
    StripNone(map["event_type" := Str(eventType), "severity" := Str(severity),
                  "source_ip" := OrNull(sourceIp), "db_name_target" := OrNull(dbName),
                  "details" := Obj(map["info" := info, "code" := code]),
                  "timestamp" := Str(stamp)])
  }

  /** A generated event always carries its type, severity, details and
      time stamp as chosen. */
  lemma GeneratedEventRequiredKeys(eventType: string, severity: string, sourceIp: Option<string>, dbName: Option<string>,
                                   info: string, code: string, stamp: string)
    requires eventType in EventTypes && severity in Severities && sourceIp in SourceIps && dbName in DbNames
    ensures var r := GenerateEvent(eventType, severity, sourceIp, dbName, info, code, stamp);
      && "event_type" in r && r["event_type"] == Str(eventType)
      && "severity" in r && r["severity"] == Str(severity)
      && "timestamp" in r && r["timestamp"] == Str(stamp)
      && "details" in r && r["details"] == Obj(map["info" := info, "code" := code])
  {
  }

  /** A generated event carries a source address or a database name
      exactly when one was chosen; a `None` choice leaves the key out. */
  lemma GeneratedEventOptionalKeys(eventType: string, severity: string, sourceIp: Option<string>, dbName: Option<string>,
                                   info: string, code: string, stamp: string)
    requires eventType in EventTypes && severity in Severities && sourceIp in SourceIps && dbName in DbNames
    ensures var r := GenerateEvent(eventType, severity, sourceIp, dbName, info, code, stamp);
      && ("source_ip" in r <==> sourceIp.Some?)
      && (sourceIp.Some? ==> r["source_ip"] == Str(sourceIp.value))
      && ("db_name_target" in r <==> dbName.Some?)
      && (dbName.Some? ==> r["db_name_target"] == Str(dbName.value))
  {
  }

  /** Every event the agent generates is accepted by the server's schema
      and passes its length limits, provided the server reads the agent's
      ISO-8601 time stamp as a datetime: nothing the agent sends is
      refused with 422. */
  lemma GeneratedEventDecodes(parseTime: Json -> Option<Time>, eventType: string, severity: string,
                              sourceIp: Option<string>, dbName: Option<string>, info: string, code: string, stamp: string)
    requires eventType in EventTypes && severity in Severities && sourceIp in SourceIps && dbName in DbNames
    requires parseTime(Str(stamp)).Some?
    ensures var r := DecodeEvent(parseTime, GenerateEvent(eventType, severity, sourceIp, dbName, info, code, stamp));
      && r == Ok(EventCreate(eventType, severity, sourceIp, Some(map["info" := info, "code" := code]), dbName, parseTime(Str(stamp))))
      && ValidEventCreate(r.value)
  {
    var m := GenerateEvent(eventType, severity, sourceIp, dbName, info, code, stamp);
    GeneratedEventRequiredKeys(eventType, severity, sourceIp, dbName, info, code, stamp);
    GeneratedEventOptionalKeys(eventType, severity, sourceIp, dbName, info, code, stamp);
    assert OptionalText(m, "source_ip") == Ok(sourceIp);
    assert OptionalText(m, "db_name_target") == Ok(dbName);
  }
}
