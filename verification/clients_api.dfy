/** The client endpoints (`endpoints/clients.py`): administrative
    registration and listing, and the agent's heartbeat. */
module ClientsApi {
  import opened Base
  import opened Seqs
  import opened Security
  import opened ClientModel
  import opened Db
  import opened CrudClient
  import opened Deps

  /** `POST /admin/clients`. 422 for an invalid body; 400 when the name is
      taken, checked before anything is written; otherwise the client is
      created with a digest of `plainKey`, which fails only when that
      digest is already stored. The response is the public view of the
      new client plus the plain key, and no digest. */
  function RegisterNewClient(v: Vault, s: Store, input: ClientCreate, plainKey: string, now: Time): (r: Result<Reply<ClientReadWithApiKey>>)
    ensures r == Err(Unprocessable) <==> !ValidClientCreate(input)
    ensures r == Err(BadRequest) <==>
              ValidClientCreate(input) && exists i :: 0 <= i < |s.clients| && s.clients[i].clientName == input.clientName
    ensures r == Err(ServerError) <==>
              && ValidClientCreate(input)
              && (forall i :: 0 <= i < |s.clients| ==> s.clients[i].clientName != input.clientName)
              && exists i :: 0 <= i < |s.clients| && s.clients[i].apiKeyHash == v.hash(plainKey)
    ensures r.Ok? ==> var body := r.value.body;
      && body.apiKey == plainKey
      && body.client.id == s.nextId
      && body.client.clientName == input.clientName
      && body.client.ipAddress == input.ipAddress && body.client.osInfo == input.osInfo
      && body.client.status == ActiveStatus
      && body.client.registeredAt == now && body.client.lastHeartbeat == None
      && r.value.store.commands == s.commands && r.value.store.events == s.events
      && r.value.store.nextId == s.nextId + 1
      && |r.value.store.clients| == |s.clients| + 1
      && r.value.store.clients[..|s.clients|] == s.clients
      && ToRead(r.value.store.clients[|s.clients|]) == body.client
      && r.value.store.clients[|s.clients|].apiKeyHash == v.hash(plainKey)
  {
    if !ValidClientCreate(input) then Err(Unprocessable)
    else match GetClientByName(s, input.clientName)
      case Some(_) => Err(BadRequest)
      case None =>
        match CreateClientWithApiKey(v, s, input, plainKey, now)
        case Err(e) => Err(e)
        case Ok(created) =>
          assert created.store.clients[|s.clients|] == created.client;
          assert created.store.clients[..|s.clients|] == s.clients;
          Ok(Reply(created.store, ClientReadWithApiKey(ToRead(created.client), created.plainKey)))
  }

  /** The status a registration asks for, the schema's `inactive`
      default included, is never what is stored unless it already is
      `active`: registration always activates the client. */
  lemma RegistrationOverridesRequestedStatus(v: Vault, s: Store, input: ClientCreate, plainKey: string, now: Time)
    requires RegisterNewClient(v, s, input, plainKey, now).Ok?
    ensures var client := RegisterNewClient(v, s, input, plainKey, now).value.body.client;
      client.status == RequestedClientStatus(input) <==> RequestedClientStatus(input) == ActiveStatus
  {
  }

  /** `GET /admin/clients`: `skip` defaults to 0 and `limit` to 100. The
      query parameters carry no bounds, so a negative `skip` or `limit`
      reaches PostgreSQL, which refuses a negative OFFSET or LIMIT. */
  function ReadClientsList(s: Store, skip: Option<int>, limit: Option<int>): (r: Result<seq<ClientRead>>)
    ensures var sk := GetOr(skip, DefaultSkip); var lim := GetOr(limit, DefaultListLimit);
      && (r.Err? <==> sk < 0 || lim < 0)
      && (r.Err? ==> r.error == ServerError)
      && (r.Ok? ==> |r.value| <= lim)
      && (r.Ok? ==> forall i :: 0 <= i < |r.value| ==> sk + i < |s.clients| && r.value[i] == ToRead(s.clients[sk + i]))
      && (r.Ok? ==> |r.value| == if sk < |s.clients| then Min(lim, |s.clients| - sk) else 0)
    ensures skip.None? && limit.None? ==> r.Ok? && |r.value| == Min(100, |s.clients|)
  {
    var sk := GetOr(skip, DefaultSkip);
    var lim := GetOr(limit, DefaultListLimit);
    if sk < 0 || lim < 0 then Err(ServerError)
    else
      var page := GetClients(s, sk, lim);
      Ok(seq(|page|, i requires 0 <= i < |page| => ToRead(page[i])))
  }

  /** `GET /admin/clients/{id}`: 404 for an unknown id. */
  function ReadClientById(s: Store, id: Id): (r: Result<ClientRead>)
    ensures r.Err? <==> forall i :: 0 <= i < |s.clients| ==> s.clients[i].id != id
    ensures r.Err? ==> r.error == NotFound
    ensures r.Ok? ==> r.value.id == id && exists c :: c in s.clients && r.value == ToRead(c)
  {
    match GetClient(s, id)
    case None => Err(NotFound)
    case Some(c) => Ok(ToRead(c))
  }

  /** `POST /clients/heartbeat`: only an authenticated, hence active,
      client reaches the update; the reply is its refreshed public view. */
  function ClientHeartbeat(v: Vault, s: Store, key: Option<string>, now: Time): (r: Result<Reply<ClientRead>>)
    ensures Authenticate(v, s, key).Err? ==> r == Err(Authenticate(v, s, key).error)
    ensures Authenticate(v, s, key).Ok? ==> r.Ok?
    ensures r.Ok? ==> var caller := Authenticate(v, s, key).value;
      && r.value.body.id == caller.id
      && r.value.body.status == ActiveStatus
      && r.value.body.lastHeartbeat == Some(now)
      && r.value.body.clientName == caller.clientName
      && r.value.store == UpdateClientHeartbeat(s, caller, now).store
  {
    match Authenticate(v, s, key)
    case Err(e) => Err(e)
    case Ok(caller) =>
      var hb := UpdateClientHeartbeat(s, caller, now);
      Ok(Reply(hb.store, ToRead(hb.body)))
  }

  /** A client whose key is found but whose status is not "active" cannot
      revive itself by heartbeat: the gate answers 403 first. */
  lemma InactiveClientCannotHeartbeat(v: Vault, s: Store, key: string, i: int, now: Time)
    requires FirstVerifying(v, s.clients, key, i)
    requires s.clients[i].status != ActiveStatus
    ensures ClientHeartbeat(v, s, Some(key), now) == Err(Forbidden)
  {
    AuthenticatePicksFirstVerifying(v, s, Some(key));
  }

  /** Under the verify axiom, the key handed out by a registration into a
      store that is not yet full, and whose stored digests do not accept
      that key, authenticates as the new client. */
  lemma RegisteredKeyAuthenticates(v: Vault, s: Store, input: ClientCreate, plainKey: string, now: Time)
    requires Sound(v)
    requires |s.clients| < ScanLimit
    requires forall i :: 0 <= i < |s.clients| ==> !v.verify(plainKey, s.clients[i].apiKeyHash)
    requires RegisterNewClient(v, s, input, plainKey, now).Ok?
    ensures var reply := RegisterNewClient(v, s, input, plainKey, now).value;
            var auth := Authenticate(v, reply.store, Some(reply.body.apiKey));
            && auth.Ok?
            && ToRead(auth.value) == reply.body.client
            && auth.value.id == s.nextId
  {
    var reply := RegisterNewClient(v, s, input, plainKey, now).value;
    var clients := reply.store.clients;
    var n := |s.clients|;
    assert clients[n].apiKeyHash == v.hash(plainKey);
    assert v.verify(plainKey, clients[n].apiKeyHash);
    assert forall j :: 0 <= j < n ==> clients[j] == s.clients[j] by {
      forall j | 0 <= j < n ensures clients[j] == s.clients[j] {
        assert clients[..n][j] == clients[j];
      }
    }
    assert FirstVerifying(v, clients, plainKey, n);
    FirstVerifyingUnique(v, clients, plainKey, n);
    AuthenticatePicksFirstVerifying(v, reply.store, Some(plainKey));
  }

  /** As written, a key registered once 10000 clients are stored never
      authenticates: the new row lies outside the scan window, so unless
      an earlier digest happens to accept the key, every request with it
      gets 401. */
  lemma RegisteredKeyLockedOutWhenFull(v: Vault, s: Store, input: ClientCreate, plainKey: string, now: Time)
    requires |s.clients| >= ScanLimit
    requires forall i :: 0 <= i < |s.clients| ==> !v.verify(plainKey, s.clients[i].apiKeyHash)
    requires RegisterNewClient(v, s, input, plainKey, now).Ok?
    ensures var reply := RegisterNewClient(v, s, input, plainKey, now).value;
            Authenticate(v, reply.store, Some(reply.body.apiKey)) == Err(Unauthorized)
  {
    var reply := RegisterNewClient(v, s, input, plainKey, now).value;
    var clients := reply.store.clients;
    var n := |s.clients|;
    forall j | 0 <= j < Min(|clients|, ScanLimit)
      ensures !v.verify(plainKey, clients[j].apiKeyHash)
    {
      assert clients[..n][j] == clients[j];
    }
    AuthenticatePicksFirstVerifying(v, reply.store, Some(plainKey));
  }

  /** With the uncapped scan, the key handed out by registration
      authenticates as the new client whatever the size of the table. */
  lemma RegisteredKeyAuthenticatesUnbounded(v: Vault, s: Store, input: ClientCreate, plainKey: string, now: Time)
    requires Sound(v)
    requires forall i :: 0 <= i < |s.clients| ==> !v.verify(plainKey, s.clients[i].apiKeyHash)
    requires RegisterNewClient(v, s, input, plainKey, now).Ok?
    ensures var reply := RegisterNewClient(v, s, input, plainKey, now).value;
            var auth := AuthenticateUnbounded(v, reply.store, Some(reply.body.apiKey));
            && auth.Ok?
            && ToRead(auth.value) == reply.body.client
            && auth.value.id == s.nextId
  {
    var reply := RegisterNewClient(v, s, input, plainKey, now).value;
    var clients := reply.store.clients;
    var n := |s.clients|;
    assert v.verify(plainKey, clients[n].apiKeyHash);
    forall j | 0 <= j < n
      ensures !v.verify(plainKey, clients[j].apiKeyHash)
    {
      assert clients[..n][j] == clients[j];
    }
    match FirstIndex(clients, (c: Client) => v.verify(plainKey, c.apiKeyHash))
    case None =>
      assert false;
    case Some(i) =>
      assert i == n;
  }
}
