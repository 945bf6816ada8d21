/** The client table and its schemas (`ClientBase`, `Client`,
    `ClientCreate`, `ClientRead`, `ClientReadWithApiKey`). */
module ClientModel {
  import opened Base

  const ActiveStatus: string := "active"
  const DefaultClientStatus: string := "inactive"
  const MaxClientNameLength: nat := 255
  const MaxIpAddressLength: nat := 45
  const MaxOsInfoLength: nat := 255
  const MaxClientStatusLength: nat := 50

  datatype Client = Client(
    id: Id,
    clientName: string,
    ipAddress: Option<string>,
    osInfo: Option<string>,
    status: string,
    apiKeyHash: string,
    registeredAt: Time,
    lastHeartbeat: Option<Time>)

  /** The body of `POST /admin/clients`. It inherits a `status` field,
      which registration ignores. */
  datatype ClientCreate = ClientCreate(
    clientName: string,
    ipAddress: Option<string>,
    osInfo: Option<string>,
    status: Field<string>)

  predicate ValidClientCreate(c: ClientCreate)
  {
    && |c.clientName| <= MaxClientNameLength
    && (c.ipAddress.Some? ==> |c.ipAddress.value| <= MaxIpAddressLength)
    && (c.osInfo.Some? ==> |c.osInfo.value| <= MaxOsInfoLength)
    && (c.status.Set? ==> |c.status.value| <= MaxClientStatusLength)
  }

  /** What the request asked for as status, after the schema default. */
  function RequestedClientStatus(c: ClientCreate): (s: string)
    ensures c.status.Unset? ==> s == DefaultClientStatus
  {
    match c.status
    case Unset => DefaultClientStatus
    case Set(v) => v
  }

  /** The public view of a client: every column except the key digest. */
  datatype ClientRead = ClientRead(
    id: Id,
    clientName: string,
    ipAddress: Option<string>,
    osInfo: Option<string>,
    status: string,
    registeredAt: Time,
    lastHeartbeat: Option<Time>)

  /** The registration response, the only schema carrying the plain key. */
  datatype ClientReadWithApiKey = ClientReadWithApiKey(client: ClientRead, apiKey: string)

  function ToRead(c: Client): ClientRead
  {
    ClientRead(c.id, c.clientName, c.ipAddress, c.osInfo, c.status, c.registeredAt, c.lastHeartbeat)
  }

  /** The public view does not depend on the digest: two clients that
      differ only in their digest look the same, and every other column
      is carried over. */
  lemma ReadViewHidesDigest(c: Client, digest: string)
    ensures ToRead(c.(apiKeyHash := digest)) == ToRead(c)
    ensures ToRead(c).id == c.id && ToRead(c).clientName == c.clientName && ToRead(c).status == c.status
    ensures ToRead(c).lastHeartbeat == c.lastHeartbeat && ToRead(c).registeredAt == c.registeredAt
  {
  }
}
