/** Client registry operations (`crud_client.py`). */
module CrudClient {
  import opened Base
  import opened Seqs
  import opened Security
  import opened ClientModel
  import opened Db

  datatype Created = Created(store: Store, client: Client, plainKey: string)

  /** Creates a client from the request, storing only the digest of the
      freshly generated `plainKey` and handing the plain key back. The
      request's own `status` is ignored: a new client is active. The
      insert fails on the unique columns `client_name` and `api_key_hash`. */
  function CreateClientWithApiKey(v: Vault, s: Store, input: ClientCreate, plainKey: string, now: Time): (r: Result<Created>)
    ensures r.Err? <==> ((exists i :: 0 <= i < |s.clients| && s.clients[i].clientName == input.clientName)
                         || (exists i :: 0 <= i < |s.clients| && s.clients[i].apiKeyHash == v.hash(plainKey)))
    ensures r.Err? ==> r.error == ServerError
    ensures r.Ok? ==> var c := r.value.client;
      && c.apiKeyHash == v.hash(plainKey)
      && r.value.plainKey == plainKey
      && c.clientName == input.clientName && c.ipAddress == input.ipAddress && c.osInfo == input.osInfo
      && c.status == ActiveStatus
      && c.registeredAt == now && c.lastHeartbeat == None
      && c.id == s.nextId
      && r.value.store == s.(clients := s.clients + [c], nextId := s.nextId + 1)
  {
    var digest := v.hash(plainKey);
    var client := Client(s.nextId, input.clientName, input.ipAddress, input.osInfo, ActiveStatus, digest, now, None);
    if (exists i :: 0 <= i < |s.clients| && s.clients[i].clientName == input.clientName)
       || (exists i :: 0 <= i < |s.clients| && s.clients[i].apiKeyHash == digest)
    then Err(ServerError)
    else Ok(Created(s.(clients := s.clients + [client], nextId := s.nextId + 1), client, plainKey))
  }

  /** `session.get(Client, id)`. */
  function GetClient(s: Store, id: Id): (r: Option<Client>)
    ensures r.Some? ==> r.value in s.clients && r.value.id == id
    ensures r.None? <==> forall i :: 0 <= i < |s.clients| ==> s.clients[i].id != id
  {
    match FirstIndex(s.clients, (c: Client) => c.id == id)
    case None => None
    case Some(i) => Some(s.clients[i])
  }

  /** The first client whose name equals `name` exactly. */
  function GetClientByName(s: Store, name: string): (r: Option<Client>)
    ensures r.Some? ==> exists i :: 0 <= i < |s.clients| && s.clients[i] == r.value
                                    && r.value.clientName == name
                                    && forall j :: 0 <= j < i ==> s.clients[j].clientName != name
    ensures r.None? <==> forall i :: 0 <= i < |s.clients| ==> s.clients[i].clientName != name
  {
    match FirstIndex(s.clients, (c: Client) => c.clientName == name)
    case None => None
    case Some(i) => Some(s.clients[i])
  }

  /** `SELECT * FROM client OFFSET skip LIMIT limit`, in store order. */
  function GetClients(s: Store, skip: nat, limit: nat): (r: seq<Client>)
    ensures |r| <= limit
    ensures forall i :: 0 <= i < |r| ==> skip + i < |s.clients| && r[i] == s.clients[skip + i]
    ensures skip < |s.clients| ==> |r| == Min(limit, |s.clients| - skip)
  {
    Page(s.clients, skip, limit)
  }

  /** Records a heartbeat: the client's row gets `last_heartbeat = now`
      and `status = "active"`; nothing else in the store changes. */
  function UpdateClientHeartbeat(s: Store, c: Client, now: Time): (r: Reply<Client>)
    ensures r.body == c.(lastHeartbeat := Some(now), status := ActiveStatus)
    ensures r.store.commands == s.commands && r.store.events == s.events && r.store.nextId == s.nextId
    ensures |r.store.clients| == |s.clients|
    ensures forall i :: 0 <= i < |s.clients| && s.clients[i].id != c.id ==> r.store.clients[i] == s.clients[i]
    ensures forall i :: 0 <= i < |s.clients| && s.clients[i].id == c.id ==> r.store.clients[i] == r.body
  {
    var updated := c.(lastHeartbeat := Some(now), status := ActiveStatus);
    Reply(s.(clients := ReplaceClient(s.clients, updated)), updated)
  }

  /** A second heartbeat overrides the first: the store after two is the
      store after the later one alone, and the client stays active. */
  lemma HeartbeatIdempotent(s: Store, c: Client, t1: Time, t2: Time)
    ensures var first := UpdateClientHeartbeat(s, c, t1);
            var second := UpdateClientHeartbeat(first.store, first.body, t2);
            && second == UpdateClientHeartbeat(s, c, t2)
            && second.body.status == ActiveStatus
            && second.body.lastHeartbeat == Some(t2)
  {
    var first := UpdateClientHeartbeat(s, c, t1);
    var second := UpdateClientHeartbeat(first.store, first.body, t2);
    var once := UpdateClientHeartbeat(s, c, t2);
    assert second.store.clients == once.store.clients;
  }

  /** The first client whose stored digest equals `digest` exactly. */
  function GetClientByHashedApiKey(s: Store, digest: string): (r: Option<Client>)
    ensures r.Some? ==> r.value in s.clients && r.value.apiKeyHash == digest
    ensures r.None? <==> forall i :: 0 <= i < |s.clients| ==> s.clients[i].apiKeyHash != digest
  {
    match FirstIndex(s.clients, (c: Client) => c.apiKeyHash == digest)
    case None => None
    case Some(i) => Some(s.clients[i])
  }

  /** Registration keeps the table constraints. */
  lemma CreateClientValid(v: Vault, s: Store, input: ClientCreate, plainKey: string, now: Time)
    requires Valid(s)
    ensures var r := CreateClientWithApiKey(v, s, input, plainKey, now);
            r.Ok? ==> Valid(r.value.store)
  {
    var r := CreateClientWithApiKey(v, s, input, plainKey, now);
    if r.Ok? {
      var s' := r.value.store;
      assert ClientIds(s.clients) <= ClientIds(s'.clients) by {
        forall x | x in ClientIds(s.clients) ensures x in ClientIds(s'.clients) {
          var c :| c in s.clients && c.id == x;
          assert c in s'.clients;
        }
      }
    }
  }

  /** A heartbeat keeps the table constraints. */
  lemma HeartbeatValid(s: Store, c: Client, now: Time)
    requires Valid(s)
    requires c in s.clients
    ensures Valid(UpdateClientHeartbeat(s, c, now).store)
  {
    var i :| 0 <= i < |s.clients| && s.clients[i] == c;
    ReplaceClientValid(s, c.(lastHeartbeat := Some(now), status := ActiveStatus));
  }
}
