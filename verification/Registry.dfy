/** The clients registered at an agent and the entries the agent's node advertises for them
    (cli_agent/agent_manager.go, cli_agent/agent.go), as values with one function per handler. */
module Registry {
  import opened Entries
  import opened Replicas
  import opened Seqs
  import Nodes

  /** An entry as a client registers it. */
  datatype Service = Service(uri: string, entryType: int)

  type ClientId = nat
  type ConnectionId = nat
  type Services = map<string, Service>
  type Uris = map<string, seq<ClientId>>

  /** A client record. The instance id is the client's own; `ClientId` identifies the record itself. */
  datatype Client = Client(instance: string, alive: bool, entries: Services, connections: seq<ConnectionId>)

  /** mUri2Client and the node it advertises through. */
  datatype Board = Board(uris: Uris, node: Nodes.Node)

  /** `records` holds every record a connection may still point to, `clients` is mClientInfo, `bound` the client
      a connection's context names. */
  datatype Agent = Agent(
    clients: map<string, ClientId>,
    records: map<ClientId, Client>,
    bound: map<ConnectionId, ClientId>,
    board: Board)

  const MAX_CONNECTIONS := 10

  function KeyOfService(s: Service): string
  {
    Key(s.uri, s.entryType)
  }

  function At(uris: Uris, k: string): seq<ClientId>
  {
    if k in uris then uris[k] else []
  }

  // ---- The board ----

  function AddOne(b: Board, s: Service, c: ClientId): Board
  {
    var k := KeyOfService(s);
    if k in b.uris then b.(uris := b.uris[k := if c in b.uris[k] then b.uris[k] else b.uris[k] + [c]])
    else Board(b.uris[k := [c]], Nodes.AddEntry(b.node, s.uri, s.entryType))
  }

  function AddAll(b: Board, list: seq<Service>, c: ClientId): Board
  {
    if list == [] then b else AddOne(AddAll(b, list[..|list| - 1], c), list[|list| - 1], c)
  }

  /** The last client of a key takes the key, and the node's advertisement, with it. */
  function RemoveOne(b: Board, s: Service, c: ClientId): Board
  {
    var k := KeyOfService(s);
    var left := Without(At(b.uris, k), c);
    if left == [] then Board(b.uris - {k}, Nodes.RemoveEntry(b.node, s.uri, s.entryType))
    else b.(uris := b.uris[k := left])
  }

  function RemoveAll(b: Board, list: seq<Service>, c: ClientId): Board
  {
    if list == [] then b else RemoveOne(RemoveAll(b, list[..|list| - 1], c), list[|list| - 1], c)
  }

  // ---- Clients ----

  function ServicesOf(list: seq<Service>): Services
  {
    if list == [] then map[]
    else ServicesOf(list[..|list| - 1])[KeyOfService(list[|list| - 1]) := list[|list| - 1]]
  }

  function AddConnection(c: Client, conn: ConnectionId): Client
  {
    if !c.alive || conn in c.connections || |c.connections| > MAX_CONNECTIONS then c
    else c.(connections := c.connections + [conn])
  }

  function SyncEntry(c: Client, list: seq<Service>): Client
  {
    c.(alive := true, entries := ServicesOf(list))
  }

  /** A registration over a connection; `id` is the record to use if the instance has none. */
  function Register(a: Agent, instance: string, conn: ConnectionId, list: seq<Service>, id: ClientId): Agent
    requires instance in a.clients ==> a.clients[instance] in a.records
  {
    var c := if instance in a.clients then a.clients[instance] else id;
    var known := if instance in a.clients then a.records[c] else Client(instance, true, map[], []);
    Agent(
      a.clients[instance := c],
      a.records[c := SyncEntry(AddConnection(known, conn), list)],
      a.bound[conn := c],
      AddAll(a.board, list, c))
  }

  /** deleteClient: `list` is the client's entries in the order the map yielded them. */
  function DeleteClient(a: Agent, c: ClientId, list: seq<Service>): Agent
    requires c in a.records
  {
    a.(records := a.records[c := a.records[c].(alive := false)],
       board := RemoveAll(a.board, list, c),
       clients := a.clients - {a.records[c].instance})
  }

  function CloseConnection(a: Agent, conn: ConnectionId, list: seq<Service>): Agent
    requires conn in a.bound && a.bound[conn] in a.records
  {
    var c := a.bound[conn];
    var left := Without(a.records[c].connections, conn);
    var a' := a.(records := a.records[c := a.records[c].(connections := left)]);
    if left == [] then DeleteClient(a', c, list) else a'
  }

  /** getClient4RpcCallReq: by hash for a keyed request, at random otherwise. */
  datatype Picked = NoClient | Picked(client: ClientId)

  function PickClient(uris: Uris, key: string, choice: nat): Picked
  {
    if |At(uris, key)| == 0 then NoClient else Picked(uris[key][choice % |uris[key]|])
  }

  // ---- What the board keeps ----

  /** The node advertises exactly the keys that have a client, each list is non-empty and free of repeats. */
  ghost predicate Advertises(b: Board)
  {
    && b.node.self.status == Alive && b.node.sequence == b.node.self.version
    && b.uris.Keys == b.node.self.entries.Keys
    && forall k :: k in b.uris ==> b.uris[k] != [] && NoRepeats(b.uris[k])
  }

  ghost predicate Lists(b: Board, c: ClientId, k: string)
  {
    c in At(b.uris, k)
  }

  ghost predicate Names(list: seq<Service>, k: string)
  {
    exists i :: 0 <= i < |list| && KeyOfService(list[i]) == k
  }

  lemma NamesSnoc(list: seq<Service>, k: string)
    requires list != []
    ensures Names(list, k) <==> Names(list[..|list| - 1], k) || KeyOfService(list[|list| - 1]) == k
  {
    hide KeyOfService;
    var n := |list| - 1;
    if Names(list, k) {
      var i :| 0 <= i < |list| && KeyOfService(list[i]) == k;
      assert i < n ==> list[..n][i] == list[i];
    }
    if Names(list[..n], k) {
      var i :| 0 <= i < n && KeyOfService(list[..n][i]) == k;
      assert list[i] == list[..n][i];
    }
  }

  /** What the node does with an addition or a withdrawal, as far as its own entries are concerned. */
  lemma NodeEntries(n: Nodes.Node, s: Service)
    requires n.self.status == Alive && n.sequence == n.self.version
    ensures
      var added := Nodes.AddEntry(n, s.uri, s.entryType);
      added.self.status == Alive && added.sequence == added.self.version &&
      added.self.entries.Keys == n.self.entries.Keys + {KeyOfService(s)}
    ensures
      var removed := Nodes.RemoveEntry(n, s.uri, s.entryType);
      removed.self.status == Alive && removed.sequence == removed.self.version &&
      removed.self.entries.Keys == n.self.entries.Keys - {KeyOfService(s)}
  {
    hide Key;
    var e, w := EntryInfo(s.uri, s.entryType, true), EntryInfo(s.uri, s.entryType, false);
    EffectiveSnoc([], e, true);
    EffectiveSnoc([], w, true);
    assert [] + [e] == [e] && [] + [w] == [w];
    ApplyAllSnoc(n.self.entries, [], e);
    ApplyAllSnoc(n.self.entries, [], w);
  }

  lemma AddOneAdvertises(b: Board, s: Service, c: ClientId)
    requires Advertises(b)
    ensures Advertises(AddOne(b, s, c))
  {
    hide KeyOfService, Nodes.AddEntry, NoRepeats;
    var key := KeyOfService(s);
    if key !in b.uris {
      NodeEntries(b.node, s);
    }
    Extended(At(b.uris, key), c);
    if key !in b.uris {
      Extended([], c);
      assert [] + [c] == [c];
    }
  }

  lemma AddOneLists(b: Board, s: Service, c: ClientId, x: ClientId, k: string)
    ensures Lists(AddOne(b, s, c), x, k) <==> Lists(b, x, k) || (x == c && k == KeyOfService(s))
  {
    hide KeyOfService, Nodes.AddEntry, NoRepeats;
    Extended(At(b.uris, KeyOfService(s)), c);
  }

  lemma AddOneKeeps(b: Board, s: Service, c: ClientId)
    requires Advertises(b)
    ensures Advertises(AddOne(b, s, c))
    ensures forall x, k :: Lists(AddOne(b, s, c), x, k) <==> Lists(b, x, k) || (x == c && k == KeyOfService(s))
  {
    hide KeyOfService, AddOne, Advertises, Lists;
    AddOneAdvertises(b, s, c);
    forall x, k ensures Lists(AddOne(b, s, c), x, k) <==> Lists(b, x, k) || (x == c && k == KeyOfService(s)) {
      AddOneLists(b, s, c, x, k);
    }
  }

  lemma Extended(s: seq<ClientId>, c: ClientId)
    ensures NoRepeats(s) && c !in s ==> NoRepeats(s + [c])
    ensures forall x :: x in s + [c] <==> x in s || x == c
    ensures NoRepeats<ClientId>([])
  {
  }

  lemma RemoveOneKeeps(b: Board, s: Service, c: ClientId)
    requires Advertises(b)
    ensures Advertises(RemoveOne(b, s, c))
    ensures forall x, k :: Lists(RemoveOne(b, s, c), x, k) <==> Lists(b, x, k) && !(x == c && k == KeyOfService(s))
  {
    hide KeyOfService, Nodes.RemoveEntry;
    NodeEntries(b.node, s);
    WithoutKeeps(At(b.uris, KeyOfService(s)), c);
    var b', k := RemoveOne(b, s, c), KeyOfService(s);
    var left := Without(At(b.uris, k), c);
    assert left == [] ==> forall y :: y in At(b.uris, k) ==> y == c;
  }

  lemma {:induction false} AddAllKeeps(b: Board, list: seq<Service>, c: ClientId)
    requires Advertises(b)
    ensures Advertises(AddAll(b, list, c))
    ensures forall x, k :: Lists(AddAll(b, list, c), x, k) <==> Lists(b, x, k) || (x == c && Names(list, k))
  {
    hide KeyOfService, AddOne, Advertises, Lists, Names;
    if list == [] {
      assert forall k :: !Names(list, k) by { NoNames(); }
    } else {
      var init := list[..|list| - 1];
      AddAllKeeps(b, init, c);
      AddOneKeeps(AddAll(b, init, c), list[|list| - 1], c);
      forall k ensures Names(list, k) <==> Names(init, k) || KeyOfService(list[|list| - 1]) == k {
        NamesSnoc(list, k);
      }
    }
  }

  lemma NoNames()
    ensures forall k :: !Names([], k)
  {
  }

  lemma {:induction false} RemoveAllKeeps(b: Board, list: seq<Service>, c: ClientId)
    requires Advertises(b)
    ensures Advertises(RemoveAll(b, list, c))
    ensures forall x, k :: Lists(RemoveAll(b, list, c), x, k) <==> Lists(b, x, k) && !(x == c && Names(list, k))
  {
    hide KeyOfService, RemoveOne, Advertises, Lists, Names;
    if list == [] {
      assert forall k :: !Names(list, k) by { NoNames(); }
    } else {
      var init := list[..|list| - 1];
      RemoveAllKeeps(b, init, c);
      RemoveOneKeeps(RemoveAll(b, init, c), list[|list| - 1], c);
      forall k ensures Names(list, k) <==> Names(init, k) || KeyOfService(list[|list| - 1]) == k {
        NamesSnoc(list, k);
      }
    }
  }

  lemma {:induction false} ServicesOfNames(list: seq<Service>, k: string)
    ensures k in ServicesOf(list) <==> Names(list, k)
    ensures k in ServicesOf(list) ==> KeyOfService(ServicesOf(list)[k]) == k
  {
    hide KeyOfService;
    if list != [] {
      ServicesOfNames(list[..|list| - 1], k);
      NamesSnoc(list, k);
    }
  }
}
