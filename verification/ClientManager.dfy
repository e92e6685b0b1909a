/** The client records and the client manager as objects updated in place (cli_agent/agent.go ClientInfo,
    cli_agent/agent_manager.go ClientManager), each method proved against the function of Registry it carries out. */
module ClientManagers {
  import opened Entries
  import opened Registry
  import opened Seqs
  import RegistryRuns
  import Nodes
  import opened NodeManagers

  ghost predicate FiledByKey(m: Services)
  {
    forall k :: k in m ==> KeyOfService(m[k]) == k
  }

  class ClientInfo {
    const id: ClientId
    const instance: string
    var alive: bool
    var entries: Services
    var connections: seq<ConnectionId>

    function Value(): Client
      reads this
    {
      Client(instance, alive, entries, connections)
    }

    constructor (id: ClientId, instance: string)
      ensures this.id == id && Value() == Client(instance, true, map[], [])
    {
      this.id, this.instance := id, instance;
      alive, entries, connections := true, map[], [];
    }

    method OnClose(conn: ConnectionId) returns (left: nat)
      modifies this`connections
      ensures connections == Without(old(connections), conn) && left == |connections|
    {
      connections := ExceptOne(connections, conn);
      left := |connections|;
    }

    method Connect(conn: ConnectionId)
      modifies this`connections
      ensures Value() == AddConnection(old(Value()), conn)
    {
      if !alive {
        return;
      }
      var known := false;
      for i := 0 to |connections|
        invariant known <==> conn in connections[..i]
      {
        known := known || connections[i] == conn;
      }
      assert connections[..|connections|] == connections;
      if !known && |connections| <= MAX_CONNECTIONS {
        connections := connections + [conn];
      }
    }

    method Sync(list: seq<Service>)
      modifies this
      ensures Value() == SyncEntry(old(Value()), list) && FiledByKey(entries)
    {
      hide KeyOfService;
      var rebuilt: Services := map[];
      for i := 0 to |list|
        invariant rebuilt == ServicesOf(list[..i]) && FiledByKey(rebuilt)
      {
        rebuilt := rebuilt[KeyOfService(list[i]) := list[i]];
        assert list[..i + 1][..i] == list[..i];
      }
      assert list[..|list|] == list;
      entries := rebuilt;
      alive := true;
    }

    method Register(conn: ConnectionId, list: seq<Service>)
      modifies this
      ensures Value() == SyncEntry(AddConnection(old(Value()), conn), list) && FiledByKey(entries)
    {
      hide FiledByKey;
      Connect(conn);
      Sync(list);
    }

    /** Reads the map in whatever order the runtime yields its keys. */
    method GetAllEntry() returns (list: seq<Service>)
      requires FiledByKey(entries)
      ensures RegistryRuns.Reads(list, entries)
      ensures |list| == |entries|
    {
      hide KeyOfService;
      list := [];
      var left := entries.Keys;
      while left != {}
        invariant left <= entries.Keys
        invariant forall k :: Names(list, k) <==> k in entries && k !in left
        invariant |list| + |left| == |entries|
        decreases |left|
      {
        var k :| k in left;
        var longer := list + [entries[k]];
        forall j ensures Names(longer, j) <==> Names(list, j) || j == k {
          NamesSnoc(longer, j);
          assert longer[..|list|] == list;
        }
        list := longer;
        left := left - {k};
      }
    }

    method MarkDead() returns (list: seq<Service>)
      requires FiledByKey(entries)
      modifies this`alive
      ensures Value() == old(Value()).(alive := false)
      ensures RegistryRuns.Reads(list, entries)
    {
      alive := false;
      list := GetAllEntry();
    }
  }

  class ClientManager {
    var clients: map<string, ClientId>
    /** Every record a connection may still point to. */
    var infos: map<ClientId, ClientInfo>
    var bound: map<ConnectionId, ClientId>
    var uris: Uris
    const node: NodeManager

    ghost predicate Filed()
      reads this`infos, infos.Values
    {
      forall c :: c in infos ==> infos[c].id == c && FiledByKey(infos[c].entries)
    }

    ghost predicate Valid()
      reads this, infos.Values, node, node.self, node.infos.Values
    {
      && node.Valid() && Filed()
      && (forall i :: i in clients ==> clients[i] in infos)
      && (forall conn :: conn in bound ==> bound[conn] in infos)
    }

    ghost function Records(): map<ClientId, Client>
      reads this`infos, infos.Values
      ensures Records().Keys == infos.Keys
    {
      map c | c in infos :: infos[c].Value()
    }

    ghost function BoardNow(): Board
      reads this`uris, node, node.self, node.infos.Values
    {
      Board(uris, node.Value())
    }

    ghost function Value(): Agent
      reads this, infos.Values, node, node.self, node.infos.Values
    {
      Agent(clients, Records(), bound, BoardNow())
    }

    constructor (node: NodeManager)
      requires node.Valid()
      ensures Valid() && this.node == node
      ensures Value() == Agent(map[], map[], map[], Board(map[], node.Value()))
    {
      this.node := node;
      clients, infos, bound, uris := map[], map[], map[], map[];
    }

    method AddEntry(list: seq<Service>, c: ClientId)
      requires node.Valid()
      modifies this`uris, node, node.self
      ensures node.Valid() && node.infos == old(node.infos)
      ensures BoardNow() == AddAll(old(BoardNow()), list, c)
    {
      hide KeyOfService, Nodes.AddEntry;
      for i := 0 to |list|
        invariant node.Valid() && node.infos == old(node.infos)
        invariant BoardNow() == AddAll(old(BoardNow()), list[..i], c)
      {
        ghost var before := BoardNow();
        AddService(list[i], c);
        assert list[..i + 1][..i] == list[..i];
      }
      assert list[..|list|] == list;
    }

    method AddService(s: Service, c: ClientId)
      requires node.Valid()
      modifies this`uris, node, node.self
      ensures node.Valid() && node.infos == old(node.infos)
      ensures BoardNow() == AddOne(old(BoardNow()), s, c)
    {
      hide Key, Nodes.AddEntry, NodeManager.Valid, NodeManager.Value;
      var key := KeyOfService(s);
      if key in uris {
        var listed := false;
        for i := 0 to |uris[key]|
          invariant listed <==> c in uris[key][..i]
        {
          listed := listed || uris[key][i] == c;
        }
        assert uris[key][..|uris[key]|] == uris[key];
        if !listed {
          uris := uris[key := uris[key] + [c]];
        } else {
          uris := uris[key := uris[key]];
        }
      } else {
        var announced := node.AddEntry(s.uri, s.entryType);
        uris := uris[key := [c]];
      }
    }

    method RemoveEntry(list: seq<Service>, c: ClientId)
      requires node.Valid()
      modifies this`uris, node, node.self
      ensures node.Valid() && node.infos == old(node.infos)
      ensures BoardNow() == RemoveAll(old(BoardNow()), list, c)
    {
      hide KeyOfService, Nodes.RemoveEntry;
      for i := 0 to |list|
        invariant node.Valid() && node.infos == old(node.infos)
        invariant BoardNow() == RemoveAll(old(BoardNow()), list[..i], c)
      {
        RemoveService(list[i], c);
        assert list[..i + 1][..i] == list[..i];
      }
      assert list[..|list|] == list;
    }

    method RemoveService(s: Service, c: ClientId)
      requires node.Valid()
      modifies this`uris, node, node.self
      ensures node.Valid() && node.infos == old(node.infos)
      ensures BoardNow() == RemoveOne(old(BoardNow()), s, c)
    {
      hide Key, Nodes.RemoveEntry, Without, NodeManager.Valid, NodeManager.Value;
      var key := KeyOfService(s);
      var left := ExceptOne(At(uris, key), c);
      uris := uris[key := left];
      if |left| == 0 {
        uris := uris - {key};
        assert uris == old(uris) - {key};
        var announced := node.RemoveEntry(s.uri, s.entryType);
      }
    }

    method Delete(c: ClientId) returns (list: seq<Service>)
      requires Valid() && c in infos
      modifies this`uris, this`clients, infos[c], node, node.self
      ensures Valid() && infos == old(infos)
      ensures RegistryRuns.Reads(list, old(infos[c].entries))
      ensures Value() == DeleteClient(old(Value()), c, list)
    {
      hide KeyOfService, RemoveAll, RegistryRuns.Reads, Filed, Records, NodeManager.Valid, NodeManager.Value;
      list := Bury(c);
      assert node.Valid() && BoardNow() == old(BoardNow());
      RemoveEntry(list, c);
      clients := clients - {infos[c].instance};
    }

    /** The client record's side of a deletion. */
    method Bury(c: ClientId) returns (list: seq<Service>)
      requires Filed() && c in infos
      modifies infos[c]
      ensures Filed() && c in Records() && infos[c].instance == Records()[c].instance
      ensures RegistryRuns.Reads(list, old(infos[c].entries))
      ensures Records() == old(Records())[c := old(Records())[c].(alive := false)]
    {
      hide KeyOfService, RegistryRuns.Reads, FiledByKey;
      list := infos[c].MarkDead();
    }

    /** A connection that never registered changes nothing. */
    method OnCloseConnection(conn: ConnectionId) returns (list: seq<Service>)
      requires Valid()
      modifies this`uris, this`clients, if conn in bound then {infos[bound[conn]]} else {}, node, node.self
      ensures Valid() && infos == old(infos)
      ensures Value() == if conn in old(bound) then CloseConnection(old(Value()), conn, list) else old(Value())
      ensures conn in old(bound) && Without(old(infos[bound[conn]].connections), conn) == [] ==>
        RegistryRuns.Reads(list, old(infos[bound[conn]].entries))
    {
      hide KeyOfService, RemoveAll, RegistryRuns.Reads, Filed, Records, BoardNow, NodeManager.Valid;
      list := [];
      if conn !in bound {
        return;
      }
      var c := bound[conn];
      var left := Disconnect(c, conn);
      if left == 0 {
        list := Delete(c);
      }
    }

    /** The client record's side of a closed connection. */
    method Disconnect(c: ClientId, conn: ConnectionId) returns (left: nat)
      requires Filed() && c in infos && node.Valid()
      modifies infos[c]
      ensures Filed() && node.Valid() && BoardNow() == old(BoardNow()) && infos[c].entries == old(infos[c].entries)
      ensures left == |Without(old(infos[c].connections), conn)|
        && old(infos[c].connections) == old(Records())[c].connections
      ensures
        var was := old(Records());
        Records() == was[c := was[c].(connections := Without(was[c].connections, conn))]
    {
      hide KeyOfService, FiledByKey, NodeManager.Valid, NodeManager.Value;
      left := infos[c].OnClose(conn);
    }

    method HandleUnregister(conn: ConnectionId) returns (list: seq<Service>)
      requires Valid()
      modifies this`uris, this`clients, if conn in bound then {infos[bound[conn]]} else {}, node, node.self
      ensures Valid() && infos == old(infos)
      ensures if conn in old(bound)
        then Value() == DeleteClient(old(Value()), old(bound)[conn], list)
             && RegistryRuns.Reads(list, old(infos[bound[conn]].entries))
        else Value() == old(Value())
    {
      list := [];
      if conn in bound {
        list := Delete(bound[conn]);
      }
    }

    /** The registration of an instance over a connection; `id` is a record id not in use. */
    method HandleRegister(instance: string, conn: ConnectionId, list: seq<Service>, id: ClientId)
      requires Valid() && id !in infos
      modifies this, if instance in clients then {infos[clients[instance]]} else {}, node, node.self
      ensures Valid()
      ensures Value() == Registry.Register(old(Value()), instance, conn, list, id)
    {
      hide KeyOfService, AddAll, ServicesOf, Filed, Records, BoardNow, NodeManager.Valid, SyncEntry, AddConnection;
      var c := if instance in clients then clients[instance] else id;
      Admit(instance, conn, list, c);
      ListAdmitted(list, c);
    }

    /** The entries of a registration find their place on the board; the records stay as they are. */
    method ListAdmitted(list: seq<Service>, c: ClientId)
      requires node.Valid() && Filed()
      modifies this`uris, node, node.self
      ensures node.Valid() && Filed() && Records() == old(Records())
      ensures BoardNow() == AddAll(old(BoardNow()), list, c)
    {
      hide KeyOfService, AddAll, NodeManager.Valid, NodeManager.Value, FiledByKey;
      AddEntry(list, c);
    }

    /** A registration up to its entries' place on the board, with the record it is to use. */
    method Admit(instance: string, conn: ConnectionId, list: seq<Service>, c: ClientId)
      requires Valid() && if instance in clients then c == clients[instance] else c !in infos
      modifies this`infos, this`clients, this`bound, if instance in clients then {infos[clients[instance]]} else {}
      ensures Filed() && infos.Keys == old(infos.Keys) + {c} && node.Valid() && BoardNow() == old(BoardNow())
      ensures clients == old(clients)[instance := c] && bound == old(bound)[conn := c]
      ensures
        var was := if instance in old(clients) then old(Records())[c] else Client(instance, true, map[], []);
        Records() == old(Records())[c := SyncEntry(AddConnection(was, conn), list)]
    {
      hide KeyOfService, AddAll, ServicesOf, Filed, Records, NodeManager.Valid, NodeManager.Value, SyncEntry,
        AddConnection;
      if instance in clients {
        EnrolKnown(c, conn, list);
        assert clients == clients[instance := c];
      } else {
        EnrolNew(c, instance, conn, list);
        clients := clients[instance := c];
      }
      bound := bound[conn := c];
    }

    /** The client record's side of a registration. */
    method EnrolKnown(c: ClientId, conn: ConnectionId, list: seq<Service>)
      requires Filed() && c in infos
      modifies infos[c]
      ensures Filed()
      ensures Records() == old(Records())[c := SyncEntry(AddConnection(old(Records())[c], conn), list)]
    {
      hide KeyOfService, ServicesOf, FiledByKey, SyncEntry, AddConnection;
      infos[c].Register(conn, list);
    }

    method EnrolNew(c: ClientId, instance: string, conn: ConnectionId, list: seq<Service>)
      requires Filed() && c !in infos
      modifies this`infos
      ensures Filed() && infos.Keys == old(infos.Keys) + {c}
      ensures Records() == old(Records())[c := SyncEntry(AddConnection(Client(instance, true, map[], []), conn), list)]
    {
      hide KeyOfService, ServicesOf, FiledByKey, SyncEntry, AddConnection;
      var info := new ClientInfo(c, instance);
      info.Register(conn, list);
      infos := infos[c := info];
    }

    method Pick(key: string, choice: nat) returns (picked: Picked)
      ensures picked == PickClient(uris, key, choice)
      ensures picked.Picked? ==> picked.client in At(uris, key)
    {
      if key !in uris || |uris[key]| == 0 {
        return NoClient;
      }
      picked := Picked(uris[key][choice % |uris[key]|]);
      assert uris[key][choice % |uris[key]|] in uris[key];
    }
  }
}
