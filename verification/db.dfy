/** The database as the backend sees it: three tables, each a sequence of
    rows in insertion order, and the source of fresh primary keys. Every
    endpoint is a function from a store to a new store and a response. */
module Db {
  import opened Base
  import opened ClientModel
  import opened CommandModel
  import opened EventModel

  datatype Store = Store(clients: seq<Client>, commands: seq<Command>, events: seq<Event>, nextId: Id)

  /** A successful mutating call: the store after the commit, and the body. */
  datatype Reply<+T> = Reply(store: Store, body: T)

  const EmptyStore: Store := Store([], [], [], 0)

  function ClientIds(clients: seq<Client>): set<Id>
  {
    set c | c in clients :: c.id
  }

  /** The table constraints of the schema: primary keys fresh and unique,
      `client_name` and `api_key_hash` unique, foreign keys to an existing
      client, and the status column within its `VARCHAR(50)`. */
  ghost predicate Valid(s: Store)
  {
    && (forall i :: 0 <= i < |s.clients| ==> s.clients[i].id < s.nextId)
    && (forall i :: 0 <= i < |s.commands| ==> s.commands[i].id < s.nextId)
    && (forall i :: 0 <= i < |s.events| ==> s.events[i].id < s.nextId)
    && (forall i, j :: 0 <= i < j < |s.clients| ==> s.clients[i].id != s.clients[j].id)
    && (forall i, j :: 0 <= i < j < |s.clients| ==> s.clients[i].clientName != s.clients[j].clientName)
    && (forall i, j :: 0 <= i < j < |s.clients| ==> s.clients[i].apiKeyHash != s.clients[j].apiKeyHash)
    && UniqueCommandKeys(s.commands)
    && (forall i, j :: 0 <= i < j < |s.events| ==> s.events[i].id != s.events[j].id)
    && (forall i :: 0 <= i < |s.commands| ==> s.commands[i].clientId in ClientIds(s.clients))
    && (forall i :: 0 <= i < |s.events| ==> s.events[i].clientId in ClientIds(s.clients))
    && (forall i :: 0 <= i < |s.commands| ==> WellFormedStatus(s.commands[i].status))
    && (forall i :: 0 <= i < |s.commands| ==> |StatusText(s.commands[i].status)| <= MaxStatusLength)
  }

  ghost predicate UniqueCommandKeys(commands: seq<Command>)
  {
    forall i, j :: 0 <= i < j < |commands| ==> commands[i].id != commands[j].id
  }

  lemma EmptyStoreValid()
    ensures Valid(EmptyStore)
  {
  }

  /** `UPDATE client SET ... WHERE id = c.id`. */
  function ReplaceClient(clients: seq<Client>, c: Client): (r: seq<Client>)
    ensures |r| == |clients|
    ensures forall i :: 0 <= i < |r| ==> r[i] == if clients[i].id == c.id then c else clients[i]
  {
    seq(|clients|, i requires 0 <= i < |clients| => if clients[i].id == c.id then c else clients[i])
  }

  /** `UPDATE command SET ... WHERE id = c.id`. */
  function ReplaceCommand(commands: seq<Command>, c: Command): (r: seq<Command>)
    ensures |r| == |commands|
    ensures forall i :: 0 <= i < |r| ==> r[i] == if commands[i].id == c.id then c else commands[i]
  {
    seq(|commands|, i requires 0 <= i < |commands| => if commands[i].id == c.id then c else commands[i])
  }

  /** Replacing a row by one with the same key, name and digest keeps the
      store valid. */
  lemma ReplaceClientValid(s: Store, c: Client)
    requires Valid(s)
    requires exists i :: 0 <= i < |s.clients| && s.clients[i].id == c.id
                         && s.clients[i].clientName == c.clientName && s.clients[i].apiKeyHash == c.apiKeyHash
    ensures Valid(s.(clients := ReplaceClient(s.clients, c)))
    ensures ClientIds(ReplaceClient(s.clients, c)) == ClientIds(s.clients)
  {
    var r := ReplaceClient(s.clients, c);
    var k :| 0 <= k < |s.clients| && s.clients[k].id == c.id
             && s.clients[k].clientName == c.clientName && s.clients[k].apiKeyHash == c.apiKeyHash;
    forall i | 0 <= i < |r|
      ensures r[i].id == s.clients[i].id && r[i].clientName == s.clients[i].clientName
      ensures r[i].apiKeyHash == s.clients[i].apiKeyHash
    {
    }
    SameKeysSameClientIds(r, s.clients);
  }

  lemma SameKeysSameClientIds(a: seq<Client>, b: seq<Client>)
    requires |a| == |b|
    requires forall i :: 0 <= i < |a| ==> a[i].id == b[i].id
    ensures ClientIds(a) == ClientIds(b)
  {
    forall x | x in ClientIds(a) ensures x in ClientIds(b) {
      var i :| 0 <= i < |a| && a[i].id == x;
      assert b[i] in b;
    }
    forall x | x in ClientIds(b) ensures x in ClientIds(a) {
      var i :| 0 <= i < |b| && b[i].id == x;
      assert a[i] in a;
    }
  }

  /** Rewriting command rows without touching their keys or owners, and
      with well-formed statuses that fit the column, keeps the store valid. */
  lemma RewriteCommandsValid(s: Store, commands: seq<Command>)
    requires Valid(s)
    requires |commands| == |s.commands|
    requires forall i :: 0 <= i < |commands| ==> commands[i].id == s.commands[i].id && commands[i].clientId == s.commands[i].clientId
    requires forall i :: 0 <= i < |commands| ==> WellFormedStatus(commands[i].status)
    requires forall i :: 0 <= i < |commands| ==> |StatusText(commands[i].status)| <= MaxStatusLength
    ensures Valid(s.(commands := commands))
  {
  }

  /** Rewriting one command row in place, keeping its key and owner, with
      a well-formed status that fits the column, keeps the store valid. */
  lemma ReplaceCommandValid(s: Store, c: Command)
    requires Valid(s)
    requires exists i :: 0 <= i < |s.commands| && s.commands[i].id == c.id && s.commands[i].clientId == c.clientId
    requires WellFormedStatus(c.status) && |StatusText(c.status)| <= MaxStatusLength
    ensures Valid(s.(commands := ReplaceCommand(s.commands, c)))
  {
    var k :| 0 <= k < |s.commands| && s.commands[k].id == c.id && s.commands[k].clientId == c.clientId;
    var rows := ReplaceCommand(s.commands, c);
    forall i | 0 <= i < |rows|
      ensures rows[i].id == s.commands[i].id && rows[i].clientId == s.commands[i].clientId
    {
      if s.commands[i].id == c.id {
        assert i == k by {
          assert UniqueCommandKeys(s.commands);
        }
      }
    }
    RewriteCommandsValid(s, rows);
  }

  /** Appending a command under the next fresh key, for an existing client,
      with a well-formed status that fits the column, keeps the store valid. */
  lemma AppendCommandValid(s: Store, c: Command)
    requires Valid(s)
    requires c.id == s.nextId && c.clientId in ClientIds(s.clients)
    requires WellFormedStatus(c.status) && |StatusText(c.status)| <= MaxStatusLength
    ensures Valid(s.(commands := s.commands + [c], nextId := s.nextId + 1))
  {
    var rows := s.commands + [c];
    assert UniqueCommandKeys(rows) by {
      forall i, j | 0 <= i < j < |rows|
        ensures rows[i].id != rows[j].id
      {
        if j == |s.commands| {
          assert rows[i] == s.commands[i];
        } else {
          assert rows[i] == s.commands[i] && rows[j] == s.commands[j];
        }
      }
    }
  }
}
