/** The command table and its request schemas (`CommandBase`, `Command`,
    `CommandCreate`, `CommandUpdateByClient`, `CommandUpdateByAdmin`). */
module CommandModel {
  import opened Base

  /** The status column is a free-form string; the seven names below
      appear in the source only as a comment. `Other` carries every
      string that is not one of them. */
  datatype Status =
    | PendingDispatch
    | Dispatched
    | Acknowledged
    | InProgress
    | Completed
    | Failed
    | Timeout
    | Other(text: string)

  function StatusText(st: Status): string
  {
    match st
    case PendingDispatch => "pending_dispatch"
    case Dispatched => "dispatched"
    case Acknowledged => "acknowledged"
    case InProgress => "in_progress"
    case Completed => "completed"
    case Failed => "failed"
    case Timeout => "timeout"
    case Other(s) => s
  }

  predicate IsStatusName(s: string)
  {
    s in ["pending_dispatch", "dispatched", "acknowledged", "in_progress", "completed", "failed", "timeout"]
  }

  /** `Other` never spells one of the named statuses, so every string has
      exactly one representation. */
  predicate WellFormedStatus(st: Status)
  {
    st.Other? ==> !IsStatusName(st.text)
  }

  function ParseStatus(s: string): (st: Status)
    ensures StatusText(st) == s
    ensures WellFormedStatus(st)
    ensures IsStatusName(s) <==> !st.Other?
  {
    if s == "pending_dispatch" then PendingDispatch
    else if s == "dispatched" then Dispatched
    else if s == "acknowledged" then Acknowledged
    else if s == "in_progress" then InProgress
    else if s == "completed" then Completed
    else if s == "failed" then Failed
    else if s == "timeout" then Timeout
    else Other(s)
  }

  lemma ParseStatusText(st: Status)
    requires WellFormedStatus(st)
    ensures ParseStatus(StatusText(st)) == st
  {
  }

  /** The client-facing PATCH refuses to touch these two; `timeout` is
      not among them. The column is compared as text, so a status stored
      under an unrecognised spelling of one of these names counts too. */
  predicate IsFinal(st: Status)
  {
    StatusText(st) == "completed" || StatusText(st) == "failed"
  }

  /** JSON payloads are schema-less documents; the model keeps them as
      string-valued maps, so a payload value of another JSON type is out
      of its reach. */
  type Payload = map<string, string>

  const DefaultStatus: string := "pending_dispatch"
  const MaxCommandTypeLength: nat := 100
  const MaxStatusLength: nat := 50

  datatype Command = Command(
    id: Id,
    clientId: Id,
    commandType: string,
    payload: Option<Payload>,
    status: Status,
    dispatchDeadline: Option<Time>,
    createdAt: Time,
    updatedAt: Time,
    executionResult: Option<string>)

  /** The body of `POST /admin/commands`. `payload` and `status` may be
      left out, in which case the schema defaults apply; `payload` may
      also be sent as an explicit null. */
  datatype CommandCreate = CommandCreate(
    clientId: Id,
    commandType: string,
    payload: Field<Option<Payload>>,
    status: Field<string>,
    dispatchDeadline: Option<Time>)

  /** The body of `PATCH /commands/{id}`: a required status (with no
      length limit in this schema) and an optional result. */
  datatype CommandUpdateByClient = CommandUpdateByClient(status: string, executionResult: Option<string>)

  /** Every field optional; only the fields actually sent are applied. */
  datatype CommandUpdateByAdmin = CommandUpdateByAdmin(
    status: Field<string>,
    payload: Field<Option<Payload>>,
    dispatchDeadline: Field<Option<Time>>)

  /** Request validation of `CommandCreate` (`max_length` on
      `command_type` and `status`). */
  predicate ValidCommandCreate(c: CommandCreate)
  {
    && |c.commandType| <= MaxCommandTypeLength
    && (c.status.Set? ==> |c.status.value| <= MaxStatusLength)
  }

  function RequestedStatus(c: CommandCreate): (st: Status)
    ensures c.status.Unset? ==> st == PendingDispatch
    ensures c.status.Set? ==> StatusText(st) == c.status.value
  {
    match c.status
    case Unset => ParseStatus(DefaultStatus)
    case Set(s) => ParseStatus(s)
  }

  function RequestedPayload(c: CommandCreate): (p: Option<Payload>)
    ensures c.payload.Unset? ==> p == Some(map[])
    ensures c.payload.Set? ==> p == c.payload.value
  {
    match c.payload
    case Unset => Some(map[])
    case Set(v) => v
  }
}
