/** Authentication of agent requests (`get_current_client`): the `X-API-Key`
    header is checked against the stored digests by a linear scan, since a
    salted digest cannot be looked up by content. */
module Deps {
  import opened Base
  import opened Seqs
  import opened Security
  import opened ClientModel
  import opened Db

  /** The scan reads at most this many clients, in store order. */
  const ScanLimit: nat := 10000

  function ScanWindow(clients: seq<Client>): (w: seq<Client>)
    ensures |w| == Min(|clients|, ScanLimit)
    ensures forall i :: 0 <= i < |w| ==> w[i] == clients[i]
  {
    clients[..Min(|clients|, ScanLimit)]
  }

  /** Client `i` is the one the scan stops at for `key`: inside the scan
      window, its digest verifies the key, and no earlier digest does. */
  ghost predicate FirstVerifying(v: Vault, clients: seq<Client>, key: string, i: int)
  {
    && 0 <= i < Min(|clients|, ScanLimit)
    && v.verify(key, clients[i].apiKeyHash)
    && forall j :: 0 <= j < i ==> !v.verify(key, clients[j].apiKeyHash)
  }

  /** 401 when the header is missing, 401 when no digest in the window
      verifies it, 403 when the first verifying client is not active, and
      that client otherwise. The lemma `AuthenticatePicksFirstVerifying`
      states which client that is. */
  function Authenticate(v: Vault, s: Store, key: Option<string>): (r: Result<Client>)
    ensures key.None? ==> r == Err(Unauthorized)
    ensures r.Ok? ==> r.value in s.clients && r.value.status == ActiveStatus && v.verify(key.value, r.value.apiKeyHash)
    ensures r.Err? ==> r.error == Unauthorized || r.error == Forbidden
  {
    match key
    case None => Err(Unauthorized)
    case Some(k) =>
      var window := ScanWindow(s.clients);
      match FirstIndex(window, (c: Client) => v.verify(k, c.apiKeyHash))
      case None => Err(Unauthorized)
      case Some(i) => if window[i].status != ActiveStatus then Err(Forbidden) else Ok(window[i])
  }

  /** The scan stops at the first verifying client of the window, and a
      later verifying client is never considered: 401 exactly when the
      header is missing or nothing in the window verifies, 403 exactly
      when the first verifying client is not active, and success exactly
      when it is, with that client as the result. */
  lemma AuthenticatePicksFirstVerifying(v: Vault, s: Store, key: Option<string>)
    ensures var r := Authenticate(v, s, key);
      && (r == Err(Unauthorized) <==>
            key.None? || forall i :: 0 <= i < Min(|s.clients|, ScanLimit) ==> !v.verify(key.value, s.clients[i].apiKeyHash))
      && (r == Err(Forbidden) <==>
            key.Some? && exists i :: FirstVerifying(v, s.clients, key.value, i) && s.clients[i].status != ActiveStatus)
      && (r.Ok? <==>
            key.Some? && exists i :: FirstVerifying(v, s.clients, key.value, i) && s.clients[i].status == ActiveStatus)
      && (r.Ok? ==> exists i :: FirstVerifying(v, s.clients, key.value, i) && r.value == s.clients[i])
  {
    if key.Some? {
      var k := key.value;
      var window := ScanWindow(s.clients);
      match FirstIndex(window, (c: Client) => v.verify(k, c.apiKeyHash))
      case None =>
        assert forall j :: 0 <= j < Min(|s.clients|, ScanLimit) ==> !v.verify(k, s.clients[j].apiKeyHash) by {
          forall j | 0 <= j < Min(|s.clients|, ScanLimit)
            ensures !v.verify(k, s.clients[j].apiKeyHash)
          {
            assert window[j] == s.clients[j];
          }
        }
      case Some(i) =>
        assert forall j :: 0 <= j < i ==> !v.verify(k, s.clients[j].apiKeyHash) by {
          forall j | 0 <= j < i
            ensures !v.verify(k, s.clients[j].apiKeyHash)
          {
            assert window[j] == s.clients[j];
          }
        }
        assert FirstVerifying(v, s.clients, k, i);
        FirstVerifyingUnique(v, s.clients, k, i);
    }
  }

  lemma FirstVerifyingUnique(v: Vault, clients: seq<Client>, key: string, i: int)
    requires FirstVerifying(v, clients, key, i)
    ensures forall j :: FirstVerifying(v, clients, key, j) ==> j == i
  {
  }

  /** The scan without the 10000-row cap: every stored client is
      considered. This is the evidently intended authentication; the
      endpoints keep the capped scan the code performs. */
  function AuthenticateUnbounded(v: Vault, s: Store, key: Option<string>): (r: Result<Client>)
    ensures key.None? ==> r == Err(Unauthorized)
    ensures r.Ok? ==> r.value in s.clients && r.value.status == ActiveStatus && v.verify(key.value, r.value.apiKeyHash)
    ensures r.Err? ==> r.error == Unauthorized || r.error == Forbidden
  {
    match key
    case None => Err(Unauthorized)
    case Some(k) =>
      match FirstIndex(s.clients, (c: Client) => v.verify(k, c.apiKeyHash))
      case None => Err(Unauthorized)
      case Some(i) => if s.clients[i].status != ActiveStatus then Err(Forbidden) else Ok(s.clients[i])
  }

  /** Up to the cap the two scans agree, so every property stated of the
      capped scan holds of the uncapped one on such tables. */
  lemma CappedScanAgreesBelowCap(v: Vault, s: Store, key: Option<string>)
    requires |s.clients| <= ScanLimit
    ensures Authenticate(v, s, key) == AuthenticateUnbounded(v, s, key)
  {
    assert ScanWindow(s.clients) == s.clients;
  }

  /** Authentication reads the client table only. */
  lemma AuthenticateReadsClientsOnly(v: Vault, s: Store, t: Store, key: Option<string>)
    requires s.clients == t.clients
    ensures Authenticate(v, s, key) == Authenticate(v, t, key)
  {
  }
}
