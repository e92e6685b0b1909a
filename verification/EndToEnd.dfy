/** The whole system: a mesh of nodes, each with an agent whose clients register, unregister and vanish. What clients
    do is what the mesh's nodes add and withdraw, and what the nodes hold of each other is what requests are dispatched
    by. */
module EndToEnd {
  import opened Entries
  import opened Replicas
  import opened Nodes
  import opened Seqs
  import Convergence
  import Indexes
  import Mesh
  import MeshTheorems
  import Registry
  import RegistryRuns
  import Path = CallerPath

  datatype System = System(mesh: Mesh.State, agents: map<string, Registry.Agent>)

  datatype Event = OfMesh(event: Mesh.Event) | OfClients(at: string, change: RegistryRuns.Event)

  ghost function Init(names: set<string>): System
  {
    System(Mesh.Init(names), map p | p in names :: RegistryRuns.NewAgent(p))
  }

  // ---- What clients do, told to the mesh ----

  /** A local change of a node and, if it was accepted, its broadcast before the next one. */
  ghost function Announce(m: Mesh.State, change: Mesh.Event): (m': Mesh.State)
    requires change.at in m.nodes && (change.Add? || change.Remove?)
    ensures m'.nodes.Keys == m.nodes.Keys
  {
    var m1 := Mesh.Next(m, change);
    var log := LogOf(m1.logs, change.at);
    if log == LogOf(m.logs, change.at) then m1 else Mesh.Next(m1, Mesh.SendNotify(change.at, |log|))
  }

  ghost function ListOne(m: Mesh.State, at: string, b: Registry.Board, s: Registry.Service): (m': Mesh.State)
    requires at in m.nodes
    ensures m'.nodes.Keys == m.nodes.Keys
  {
    if Registry.KeyOfService(s) in b.uris then m else Announce(m, Mesh.Add(at, s.uri, s.entryType))
  }

  ghost function UnlistOne(m: Mesh.State, at: string, b: Registry.Board, s: Registry.Service, c: Registry.ClientId)
    : (m': Mesh.State)
    requires at in m.nodes
    ensures m'.nodes.Keys == m.nodes.Keys
  {
    var left := Without(Registry.At(b.uris, Registry.KeyOfService(s)), c);
    if left == [] then Announce(m, Mesh.Remove(at, s.uri, s.entryType)) else m
  }

  ghost function ListAll(m: Mesh.State, at: string, b: Registry.Board, list: seq<Registry.Service>,
                         c: Registry.ClientId)
    : (m': Mesh.State)
    requires at in m.nodes
    ensures m'.nodes.Keys == m.nodes.Keys
  {
    if list == [] then m
    else
      var init := list[..|list| - 1];
      ListOne(ListAll(m, at, b, init, c), at, Registry.AddAll(b, init, c), list[|list| - 1])
  }

  ghost function UnlistAll(m: Mesh.State, at: string, b: Registry.Board, list: seq<Registry.Service>,
                         c: Registry.ClientId)
    : (m': Mesh.State)
    requires at in m.nodes
    ensures m'.nodes.Keys == m.nodes.Keys
  {
    if list == [] then m
    else
      var init := list[..|list| - 1];
      UnlistOne(UnlistAll(m, at, b, init, c), at, Registry.RemoveAll(b, init, c), list[|list| - 1], c)
  }

  ghost function Published(m: Mesh.State, at: string, a: Registry.Agent, e: RegistryRuns.Event): (m': Mesh.State)
    requires at in m.nodes && RegistryRuns.Enabled(a, e)
    ensures m'.nodes.Keys == m.nodes.Keys
  {
    match e
    case Registers(instance, _, list, id) =>
      ListAll(m, at, a.board, list, if instance in a.clients then a.clients[instance] else id)
    case Unregisters(conn, list) => UnlistAll(m, at, a.board, list, a.bound[conn])
    case Closes(conn, list) =>
      if Without(a.records[a.bound[conn]].connections, conn) != [] then m
      else UnlistAll(m, at, a.board, list, a.bound[conn])
    case TimesOut(instance, list) => UnlistAll(m, at, a.board, list, a.clients[instance])
    case NodeActivity(_) => m
  }

  // ---- Steps and runs ----

  /** Nodes change their own entries only for their clients, and are not stopped. */
  ghost predicate Enabled(s: System, e: Event)
  {
    match e
    case OfMesh(event) =>
      Mesh.Enabled(s.mesh, event) && event.at in s.agents && !event.Add? && !event.Remove? && !event.StopNode?
    case OfClients(at, change) =>
      at in s.agents && at in s.mesh.nodes && !change.NodeActivity? && RegistryRuns.Enabled(s.agents[at], change)
  }

  function OnNode(a: Registry.Agent, n: Node): Registry.Agent
  {
    a.(board := a.board.(node := n))
  }

  ghost function Next(s: System, e: Event): System
    requires Enabled(s, e)
  {
    match e
    case OfMesh(event) =>
      var m := Mesh.Next(s.mesh, event);
      System(m, s.agents[event.at := OnNode(s.agents[event.at], m.nodes[event.at])])
    case OfClients(at, change) =>
      System(Published(s.mesh, at, s.agents[at], change), s.agents[at := RegistryRuns.Next(s.agents[at], change)])
  }

  ghost predicate Possible(s: System, run: seq<Event>)
    decreases run
  {
    run != [] ==> Enabled(s, run[0]) && Possible(Next(s, run[0]), run[1..])
  }

  ghost function Exec(s: System, run: seq<Event>): System
    requires Possible(s, run)
    decreases run
  {
    if run == [] then s else Exec(Next(s, run[0]), run[1..])
  }

  /** The hypotheses of the mesh, and registrations that only grow. */
  ghost predicate Assumed(s: System, e: Event)
  {
    match e
    case OfMesh(event) => Mesh.Truthful(s.mesh, event) && Mesh.Timely(s.mesh, event)
    case OfClients(at, change) => at in s.agents && RegistryRuns.Grows(s.agents[at], change)
  }

  ghost predicate Legal(s: System, run: seq<Event>)
    requires Possible(s, run)
    decreases run
  {
    run != [] ==> Assumed(s, run[0]) && Legal(Next(s, run[0]), run[1..])
  }

  // ---- One node, seen from its clients and from the mesh ----

  /** Every agent's board is in order, and its node is the mesh's node. */
  ghost predicate Joined(s: System)
  {
    && s.agents.Keys == s.mesh.nodes.Keys
    && forall p :: p in s.agents ==> AgentInOrder(s, p)
  }

  ghost predicate AgentInOrder(s: System, p: string)
    requires p in s.agents && p in s.mesh.nodes
  {
    && s.agents[p].board.node == s.mesh.nodes[p]
    && RegistryRuns.Sound(s.agents[p]) && RegistryRuns.Connected(s.agents[p])
  }

  /** What is announced happens at one node, and keeps what the mesh keeps. */
  lemma Announced(m: Mesh.State, change: Mesh.Event)
    requires change.at in m.nodes && (change.Add? || change.Remove?)
    ensures Announce(m, change).nodes == m.nodes[change.at := Mesh.Next(m, change).nodes[change.at]]
    ensures Mesh.Inv(m) ==> Mesh.Inv(Announce(m, change))
  {
    hide AddEntry, RemoveEntry, Mesh.Inv, Key;
    var m1 := Mesh.Next(m, change);
    var log := LogOf(m1.logs, change.at);
    if Mesh.Inv(m) {
      Mesh.StepInv(m, change);
      if log != LogOf(m.logs, change.at) {
        Mesh.StepInv(m1, Mesh.SendNotify(change.at, |log|));
      }
    }
  }

  /** An accepted change is the last of the node's history and is broadcast under its own number, before any other. */
  lemma AnnouncedIsSent(m: Mesh.State, change: Mesh.Event)
    requires Mesh.Inv(m) && change.at in m.nodes && (change.Add? || change.Remove?)
    ensures
      var m', e := Announce(m, change), EntryInfo(change.uri, change.entryType, change.Add?);
      var log := LogOf(m.logs, change.at);
      if change.Remove? || Accepts(m.nodes[change.at], change.uri, change.entryType)
      then LogOf(m'.logs, change.at) == log + [e] && Mesh.NotifyMsg(change.at, e, |log| + 1) in m'.sent
      else m' == m
  {
    hide AddEntry, RemoveEntry, Mesh.Inv, Key;
    var m1, log := Mesh.Next(m, change), LogOf(m.logs, change.at);
    Mesh.StepInv(m, change);
    OwnerCounts(m1, change.at);
    if change.Add? && !Accepts(m.nodes[change.at], change.uri, change.entryType) {
      Refused(m, change);
    } else {
      assert LogOf(m1.logs, change.at)[|log|] == EntryInfo(change.uri, change.entryType, change.Add?);
    }
  }

  lemma OwnerCounts(m: Mesh.State, p: string)
    requires Mesh.Inv(m) && p in m.nodes
    ensures m.nodes[p].self.version == |LogOf(m.logs, p)|
  {
    hide Mesh.OwnInv, Prefixes, Mesh.Faithful, Indexed, EntriesAt;
    Mesh.ServedHere(m, p);
  }

  lemma Refused(m: Mesh.State, change: Mesh.Event)
    requires Mesh.Inv(m) && change.at in m.nodes && change.Add?
    requires !Accepts(m.nodes[change.at], change.uri, change.entryType)
    ensures Mesh.Next(m, change) == m
  {
    hide Mesh.OwnInv, Prefixes, Mesh.Faithful, Indexed, Key;
    Mesh.KeysAgree(m);
    assert m.nodes[change.at := m.nodes[change.at]] == m.nodes;
    assert m.logs[change.at := LogOf(m.logs, change.at)] == m.logs;
  }

  lemma {:induction false} ListedInMesh(m: Mesh.State, at: string, b: Registry.Board, list: seq<Registry.Service>,
                                        c: Registry.ClientId)
    requires at in m.nodes && m.nodes[at] == b.node
    ensures ListAll(m, at, b, list, c).nodes == m.nodes[at := Registry.AddAll(b, list, c).node]
    ensures Mesh.Inv(m) ==> Mesh.Inv(ListAll(m, at, b, list, c))
  {
    hide Announce, AddEntry, Mesh.Inv, Key;
    if list == [] {
      assert m.nodes[at := b.node] == m.nodes;
    } else {
      var init, s := list[..|list| - 1], list[|list| - 1];
      ListedInMesh(m, at, b, init, c);
      Announced(ListAll(m, at, b, init, c), Mesh.Add(at, s.uri, s.entryType));
    }
  }

  lemma {:induction false} UnlistedInMesh(m: Mesh.State, at: string, b: Registry.Board, list: seq<Registry.Service>,
                                          c: Registry.ClientId)
    requires at in m.nodes && m.nodes[at] == b.node
    ensures UnlistAll(m, at, b, list, c).nodes == m.nodes[at := Registry.RemoveAll(b, list, c).node]
    ensures Mesh.Inv(m) ==> Mesh.Inv(UnlistAll(m, at, b, list, c))
  {
    hide Announce, RemoveEntry, Mesh.Inv, Key;
    if list == [] {
      assert m.nodes[at := b.node] == m.nodes;
    } else {
      var init, s := list[..|list| - 1], list[|list| - 1];
      UnlistedInMesh(m, at, b, init, c);
      Announced(UnlistAll(m, at, b, init, c), Mesh.Remove(at, s.uri, s.entryType));
    }
  }

  lemma PublishedInMesh(m: Mesh.State, at: string, a: Registry.Agent, e: RegistryRuns.Event)
    requires at in m.nodes && m.nodes[at] == a.board.node && RegistryRuns.Enabled(a, e) && !e.NodeActivity?
    ensures Published(m, at, a, e).nodes == m.nodes[at := RegistryRuns.Next(a, e).board.node]
    ensures Mesh.Inv(m) ==> Mesh.Inv(Published(m, at, a, e))
  {
    hide ListAll, UnlistAll, Registry.AddAll, Registry.RemoveAll, Mesh.Inv, RegistryRuns.Reads;
    assert m.nodes[at := a.board.node] == m.nodes;
    match e
    case Registers(instance, conn, list, id) =>
      ListedInMesh(m, at, a.board, list, if instance in a.clients then a.clients[instance] else id);
    case Unregisters(conn, list) => UnlistedInMesh(m, at, a.board, list, a.bound[conn]);
    case Closes(conn, list) => UnlistedInMesh(m, at, a.board, list, a.bound[conn]);
    case TimesOut(instance, list) => UnlistedInMesh(m, at, a.board, list, a.clients[instance]);
  }

  /** What the mesh does to a node without its clients leaves its own entries alone. */
  lemma OthersLeaveOwnEntries(m: Mesh.State, e: Mesh.Event)
    requires Mesh.Enabled(m, e) && !e.Add? && !e.Remove? && !e.StopNode?
    ensures
      var m' := Mesh.Next(m, e);
      && m'.nodes.Keys == m.nodes.Keys && (forall p :: p in m.nodes && p != e.at ==> m'.nodes[p] == m.nodes[p])
      && m'.nodes[e.at].name == m.nodes[e.at].name && m'.nodes[e.at].self == m.nodes[e.at].self
      && m'.nodes[e.at].sequence == m.nodes[e.at].sequence
  {
    hide Enumerates, ModifyEntry, SyncEntry, AddEntry, RemoveEntry, Stop, Indexes.AddEntries, Indexes.DeleteKeys,
      Indexes.ApplyChanges;
  }

  lemma StepJoined(s: System, e: Event)
    requires Joined(s) && Enabled(s, e)
    ensures Joined(Next(s, e))
  {
    hide RegistryRuns.Sound, RegistryRuns.Connected, RegistryRuns.Next, Published, Mesh.Next, Mesh.Enabled;
    var s' := Next(s, e);
    match e
    case OfMesh(event) =>
      OthersLeaveOwnEntries(s.mesh, event);
      assert AgentInOrder(s, event.at);
      SameAgent(s.agents[event.at], s'.mesh.nodes[event.at]);
      forall p | p in s'.agents ensures AgentInOrder(s', p) { assert AgentInOrder(s, p); }
    case OfClients(at, change) =>
      assert AgentInOrder(s, at);
      RegistryRuns.StepSound(s.agents[at], change);
      RegistryRuns.StepConnected(s.agents[at], change);
      PublishedInMesh(s.mesh, at, s.agents[at], change);
      forall p | p in s'.agents ensures AgentInOrder(s', p) { assert AgentInOrder(s, p); }
  }

  lemma SameAgent(a: Registry.Agent, n: Node)
    requires RegistryRuns.Sound(a) && n.self == a.board.node.self && n.sequence == a.board.node.sequence
    ensures RegistryRuns.Sound(OnNode(a, n))
    ensures RegistryRuns.Connected(a) ==> RegistryRuns.Connected(OnNode(a, n))
    ensures RegistryRuns.Exact(a) ==> RegistryRuns.Exact(OnNode(a, n))
  {
    hide NoRepeats, Registry.Lists;
    RegistryRuns.SameUris(a.board, n);
  }

  // ---- With the hypotheses ----

  ghost predicate Inv(s: System)
  {
    Joined(s) && Mesh.Inv(s.mesh) && forall p :: p in s.agents ==> RegistryRuns.Exact(s.agents[p])
  }

  lemma InitInv(names: set<string>)
    ensures Inv(Init(names))
  {
    hide Mesh.Inv, RegistryRuns.Sound, RegistryRuns.Exact, RegistryRuns.Connected;
    Mesh.InitInv(names);
    forall p | p in names ensures AgentInOrder(Init(names), p) && RegistryRuns.Exact(Init(names).agents[p]) {
      RegistryRuns.NewAgentHolds(p);
    }
  }

  lemma StepInv(s: System, e: Event)
    requires Inv(s) && Enabled(s, e) && Assumed(s, e)
    ensures Inv(Next(s, e))
  {
    hide Mesh.Inv, Mesh.Next, Mesh.Enabled, Mesh.Truthful, Mesh.Timely, RegistryRuns.Sound, RegistryRuns.Connected,
      RegistryRuns.Exact, RegistryRuns.Next, RegistryRuns.Enabled, RegistryRuns.Grows, Published;
    StepJoined(s, e);
    match e
    case OfMesh(event) =>
      Mesh.StepInv(s.mesh, event);
      OthersLeaveOwnEntries(s.mesh, event);
      assert AgentInOrder(s, event.at);
      SameAgent(s.agents[event.at], Next(s, e).mesh.nodes[event.at]);
    case OfClients(at, change) =>
      assert AgentInOrder(s, at);
      RegistryRuns.StepExact(s.agents[at], change);
      PublishedInMesh(s.mesh, at, s.agents[at], change);
  }

  /** Every run whatsoever keeps every board in order and its node the mesh's node; under the hypotheses, replicas,
      index and client lists are exact as well. */
  lemma {:induction false} RunInv(s: System, run: seq<Event>)
    requires Joined(s) && Possible(s, run)
    ensures Joined(Exec(s, run))
    ensures Inv(s) && Legal(s, run) ==> Inv(Exec(s, run))
    decreases run
  {
    hide Joined, Inv, Enabled, Next, Assumed;
    if run != [] {
      StepJoined(s, run[0]);
      if Inv(s) && Assumed(s, run[0]) {
        StepInv(s, run[0]);
      }
      RunInv(Next(s, run[0]), run[1..]);
    }
  }

  // ---- Requests ----

  /** The message is at a client of the node that serves the key, sent over one of that client's connections. */
  ghost predicate AtServer(a: Registry.Agent, place: Path.Place, at: string, key: string)
  {
    && place.AtClient? && place.node == at && Serves(a, place.client, key)
    && place.conn in a.records[place.client].connections
  }

  /** The client serves the key, is alive and can be reached. */
  ghost predicate Serves(a: Registry.Agent, c: Registry.ClientId, key: string)
  {
    c in a.records && a.records[c].alive && key in a.records[c].entries && a.records[c].connections != []
  }

  /** In every state of the system, for every node: a request on its way to it is handed to a client that registered the
      key, alive and connected, if and only if the node serves the key; otherwise it is given up. */
  lemma ArrivesIffServed(s: System, m: Path.Flight, d: Path.Draw)
    requires Inv(s) && m.place.ToNode? && m.place.node in s.agents
    ensures
      var at, key := m.place.node, Key(m.request.uri, m.request.entryType);
      var got := Path.Handle(s.agents, m, d).place;
      if key in s.mesh.nodes[at].self.entries then AtServer(s.agents[at], got, at, key) else got == Path.GivenUp
  {
    hide Mesh.Inv, Key;
    var a := s.agents[m.place.node];
    assert AgentInOrder(s, m.place.node);
    CallReaches(a, m, m.place.node, d);
  }

  lemma CallReaches(a: Registry.Agent, m: Path.Flight, at: string, d: Path.Draw)
    requires RegistryRuns.Sound(a) && RegistryRuns.Connected(a) && RegistryRuns.Exact(a)
    ensures
      var key, got := Key(m.request.uri, m.request.entryType), Path.CallClient(a, m, at, d).place;
      if key in a.board.node.self.entries then AtServer(a, got, at, key) else got == Path.GivenUp
  {
    hide Key, NoRepeats;
    var key := Key(m.request.uri, m.request.entryType);
    RegistryRuns.PickedIsListed(a.board, key, d.client);
  }

  /** A client's request that its own node decides. LOCAL_FORCE: handed to a client here that serves the key if and
      only if the node serves the key, and given up otherwise. LOCAL_BETTER: handed to a client here if the node serves
      the key, otherwise cast to another node if and only if one is listed. DEFAULT: cast to a node if and only if one
      is listed. An invalid mode, or a connection that never registered: given up. */
  lemma RequestDecided(s: System, q: Path.Request, f: string, conn: Registry.ConnectionId, requestId: string,
    d: Path.Draw)
    requires Inv(s) && f in s.agents
    ensures
      var n, key := s.mesh.nodes[f], Key(q.uri, q.entryType);
      var got := Path.Handle(s.agents, Path.Sent(q, f, conn, requestId), d).place;
      if conn !in s.agents[f].bound then got == Path.GivenUp
      else
        match q.mode
        case LocalForce => if key in n.self.entries then AtServer(s.agents[f], got, f, key) else got == Path.GivenUp
        case LocalBetter =>
          if key in n.self.entries then AtServer(s.agents[f], got, f, key)
          else if Path.ListedElsewhere(n, key) then got.ToNode? && got.node != f else got == Path.GivenUp
        case Default => if Indexes.At(n.index, key) != [] then got.ToNode? else got == Path.GivenUp
        case Invalid => got == Path.GivenUp
  {
    hide Key, Mesh.Inv, Indexes.At, Indexes.WithoutName, Registry.PickClient, Path.ListedElsewhere, Registry.Advertises,
      RegistryRuns.RegisteredAreListed, RegistryRuns.Exact, RegistryRuns.Connected, Path.DispatchReq;
    assert AgentInOrder(s, f);
    var a, n := s.agents[f], s.mesh.nodes[f];
    NodeIsUp(s, f);
    if conn in a.bound {
      var sent := Path.Sent(q, f, conn, requestId);
      var stack := q.stack + [Path.AgentCaller(a.records[a.bound[conn]].instance, requestId, conn)];
      Path.DispatchDecides(n, q.(stack := stack), d.node);
      CallReaches(a, Path.Stacked(sent, stack, sent.place), f, d);
    }
  }

  lemma NodeIsUp(s: System, f: string)
    requires Inv(s) && f in s.agents
    ensures s.mesh.nodes[f].self.status == Alive && s.mesh.nodes[f].name == f
  {
    hide Mesh.Inv, RegistryRuns.Exact, RegistryRuns.WellNamed, RegistryRuns.RegisteredAreListed;
    assert AgentInOrder(s, f);
    IndexInOrder(s, f);
  }

  /** The follower's record of a node is up to date. */
  predicate UpToDate(s: System, f: string, p: string)
  {
    && f in s.mesh.nodes && p in s.mesh.nodes && p in s.mesh.nodes[f].names
      && s.mesh.nodes[f].names[p] in s.mesh.nodes[f].peers
    && s.mesh.nodes[f].peers[s.mesh.nodes[f].names[p]].version == s.mesh.nodes[p].sequence
  }

  lemma UpToDateHolds(s: System, f: string, p: string)
    requires Inv(s) && UpToDate(s, f, p)
    ensures
      var n := s.mesh.nodes[f];
      n.names[p].name == p && Current(n, n.names[p]) && n.peers[n.names[p]].entries == s.mesh.nodes[p].self.entries
  {
    hide EntriesAt, Mesh.Faithful, OwnListed, Guarded, Foreign, Listed, Retired, AgentInOrder;
    assert Indexed(s.mesh.nodes[f]) && Prefixes(s.mesh.nodes[f].peers, s.mesh.logs);
    Mesh.AtNode(s.mesh, p);
  }

  /** A request that a node forwards to another one, by whichever rule and choice, reaches a client there that serves
      it, provided the record it was forwarded by is up to date. */
  lemma ForwardedRequestArrives(s: System, q: Path.Request, f: string, conn: Registry.ConnectionId, requestId: string,
                                d: Path.Draw)
    requires Inv(s) && f in s.agents
    requires Path.Handle(s.agents, Path.Sent(q, f, conn, requestId), d).place.ToNode?
    requires
      var to := Path.Handle(s.agents, Path.Sent(q, f, conn, requestId), d).place.node;
      to != f && UpToDate(s, f, to)
    ensures
      var m := Path.Handle(s.agents, Path.Sent(q, f, conn, requestId), d);
      var got := Path.Handle(s.agents, m, d).place;
      got.AtClient? && got.node == m.place.node && Serves(s.agents[got.node], got.client, Key(q.uri, q.entryType))
  {
    hide Key, Mesh.Inv, Indexes.At, Indexes.WithoutName, RegistryRuns.Sound, RegistryRuns.Exact, RegistryRuns.Connected,
      Registry.PickClient, Indexed;
    var m := Path.Handle(s.agents, Path.Sent(q, f, conn, requestId), d);
    var n, key := s.mesh.nodes[f], Key(q.uri, q.entryType);
    assert AgentInOrder(s, f);
    IndexInOrder(s, f);
    var stack := m.request.stack;
    ForwardPicksListed(n, q, d, s.agents[f], conn, requestId);
    var r :| r in Indexes.At(n.index, key) && r.name == m.place.node;
    MeshTheorems.PickedRecord(n, r, key);
    UpToDateHolds(s, f, m.place.node);
    ArrivesIffServed(s, m, d);
  }

  lemma IndexInOrder(s: System, f: string)
    requires Inv(s) && f in s.agents
    ensures f in s.mesh.nodes && s.mesh.nodes[f].name == f && Indexed(s.mesh.nodes[f])
  {
    hide Indexed, Own, AgentInOrder, Prefixes, Mesh.Faithful;
    Mesh.AtNode(s.mesh, f);
  }

  /** Whatever node a request is cast to is listed under its key. */
  lemma ForwardPicksListed(n: Node, q: Path.Request, d: Path.Draw, a: Registry.Agent, conn: Registry.ConnectionId,
                           requestId: string)
    requires a.board.node == n && Path.HandleRpcCallReq(a, Path.Sent(q, n.name, conn, requestId), d).place.ToNode?
    ensures
      var m := Path.HandleRpcCallReq(a, Path.Sent(q, n.name, conn, requestId), d);
      && m.request == q.(stack := m.request.stack)
      && exists r :: r in Indexes.At(n.index, Key(q.uri, q.entryType)) && r.name == m.place.node
  {
    hide Key, Registry.PickClient;
    var all := Indexes.At(n.index, Key(q.uri, q.entryType));
    if q.mode == Path.LocalBetter {
      var remote := Indexes.WithoutName(all, n.name);
      var r := remote[d.node % |remote|];
      Indexes.WithoutNameCount(all, n.name, r);
      assert r in multiset(remote);
    } else {
      assert all[d.node % |all|] in all;
    }
  }

  /** A request by DEFAULT or LOCAL_BETTER for a key that some client of a node serves is not given up by the agent of
      any node that holds a live and up-to-date record of it: it is handed to a client there or cast to a node. */
  lemma ServedKeyIsFound(s: System, q: Path.Request, f: string, p: string, conn: Registry.ConnectionId,
                         requestId: string,
                         d: Path.Draw, c: Registry.ClientId)
    requires Inv(s) && f in s.agents && conn in s.agents[f].bound
    requires q.mode == Path.Default || q.mode == Path.LocalBetter
    requires UpToDate(s, f, p) && s.mesh.nodes[f].peers[s.mesh.nodes[f].names[p]].status == Alive
    requires p in s.agents && Serves(s.agents[p], c, Key(q.uri, q.entryType))
    ensures
      var got := Path.Handle(s.agents, Path.Sent(q, f, conn, requestId), d).place;
      got.ToNode? || (got.AtClient? && got.node == f && Serves(s.agents[f], got.client, Key(q.uri, q.entryType)))
  {
    hide Key, Mesh.Inv, Indexes.WithoutName, Indexed, Registry.PickClient;
    var n, key := s.mesh.nodes[f], Key(q.uri, q.entryType);
    assert AgentInOrder(s, f) && AgentInOrder(s, p);
    IndexInOrder(s, f);
    UpToDateHolds(s, f, p);
    assert Registry.Lists(s.agents[p].board, c, key);
    LiveIsListed(n, n.names[p], key);
    var a, sent := s.agents[f], Path.Sent(q, f, conn, requestId);
    if Path.Handle(s.agents, sent, d).place.ToNode? {
    } else {
      var stack := q.stack + [Path.AgentCaller(a.records[a.bound[conn]].instance, requestId, conn)];
      CallReaches(a, Path.Stacked(sent, stack, sent.place), f, d);
    }
  }

  lemma LiveIsListed(n: Node, r: Ref, key: string)
    requires Indexed(n) && r in n.peers && n.peers[r].status == Alive && key in n.peers[r].entries
    ensures Indexes.At(n.index, key) != [] && Indexes.WithoutName(Indexes.At(n.index, key), n.name) != []
  {
    assert Listed(n.index, r, n.peers[r]) && r.name != n.name;
    assert Indexes.Occ(n.index, key, r) == 1;
    Indexes.WithoutNameCount(Indexes.At(n.index, key), n.name, r);
  }

  // ---- After one keepalive round ----

  /** A run of the mesh as a run of the system. */
  function Lifted(run: seq<Mesh.Event>): seq<Event>
    decreases run
  {
    if run == [] then [] else [OfMesh(run[0])] + Lifted(run[1..])
  }

  predicate NotLocal(run: seq<Mesh.Event>)
  {
    forall i :: 0 <= i < |run| ==> !run[i].Add? && !run[i].Remove? && !run[i].StopNode?
  }

  lemma {:induction false} LiftedRun(s: System, run: seq<Mesh.Event>)
    requires Joined(s) && Mesh.Legal(s.mesh, run) && NotLocal(run)
    ensures Possible(s, Lifted(run)) && Legal(s, Lifted(run))
    ensures
      var s' := Exec(s, Lifted(run));
      && s'.mesh == Mesh.Exec(s.mesh, run) && s'.agents.Keys == s.agents.Keys
      && forall p :: p in s.agents ==>
           s'.agents[p].records == s.agents[p].records && s'.agents[p].bound == s.agents[p].bound
    decreases run
  {
    hide Mesh.Enabled, Mesh.Next, Mesh.Truthful, Mesh.Timely, AgentInOrder;
    if run != [] {
      var e := OfMesh(run[0]);
      MeshEventEnabled(s, run[0]);
      StepJoined(s, e);
      assert NotLocal(run[1..]) by { assert forall i :: 0 <= i < |run| - 1 ==> run[1..][i] == run[i + 1]; }
      LiftedRun(Next(s, e), run[1..]);
      assert Lifted(run)[1..] == Lifted(run[1..]);
    }
  }

  lemma MeshEventEnabled(s: System, e: Mesh.Event)
    requires Joined(s) && Mesh.Enabled(s.mesh, e) && !e.Add? && !e.Remove? && !e.StopNode?
    ensures Enabled(s, OfMesh(e))
  {
    hide Mesh.Next, AgentInOrder;
  }

  /** One keepalive round between a follower and a node, in the system: the follower's record is then live and up to
      date, and no client noticed. */
  lemma RoundInSystem(s: System, f: string, r: Ref, list: seq<EntryInfo>)
    requires Inv(s) && f in s.agents && r.name in s.agents && f in s.mesh.nodes && r.name in s.mesh.nodes
    requires r in s.mesh.nodes[f].peers && Current(s.mesh.nodes[f], r) && s.mesh.nodes[f].peers[r].status != Dead
    requires s.mesh.nodes[f].peers[r].status == Alive
      || s.mesh.nodes[f].peers[r].version != s.mesh.nodes[r.name].sequence
    requires Enumerates(list, s.mesh.nodes[r.name].self.entries)
    ensures
      var round := Lifted(Convergence.RoundRun(s.mesh, f, r, list));
      && Possible(s, round) && Legal(s, round)
      && var s' := Exec(s, round);
         && Inv(s') && s'.agents.Keys == s.agents.Keys
         && UpToDate(s', f, r.name) && s'.mesh.nodes[f].names[r.name] == r && s'.mesh.nodes[f].peers[r].status == Alive
         && forall p :: p in s.agents ==>
              s'.agents[p].records == s.agents[p].records && s'.agents[p].bound == s.agents[p].bound
  {
    hide Mesh.Enabled, Mesh.Next, Mesh.Possible, Mesh.Exec, Mesh.AllTruthful, Mesh.AllTimely, Possible, Exec, Legal,
      AgentInOrder, Enumerates, Lifted, Convergence.Round, Indexed, Prefixes, Mesh.Faithful, Mesh.OwnInv,
      RegistryRuns.Exact;
    var run := Convergence.RoundRun(s.mesh, f, r, list);
    Convergence.RoundIsRun(s.mesh, f, r, list);
    Convergence.RoundConverges(s.mesh, f, r, list);
    RoundKeeps(s.mesh.nodes[f], r, s.mesh.nodes[r.name], list);
    LiftedRun(s, run);
    RunInv(s, Lifted(run));
    Mesh.NotOneself(s.mesh, f, r);
    Mesh.ServedHere(s.mesh, r.name);
  }

  lemma RoundKeeps(n: Node, r: Ref, owner: Node, list: seq<EntryInfo>)
    requires r in n.peers
    ensures Convergence.Round(n, r, owner, list).names == n.names
  {
  }

  /** After every run of the system that keeps the hypotheses: once a follower that is live with a node, or behind it,
      has had one keepalive round with it, every request there for a key that some client of the node serves is handed
      to a client or cast to a node, and cast to that node it reaches a client there that is alive and registered the
      key. */
  lemma ServedKeyIsReachable(names: set<string>, run: seq<Event>, f: string, r: Ref, list: seq<EntryInfo>,
                             q: Path.Request, conn: Registry.ConnectionId, requestId: string, d: Path.Draw,
                             c: Registry.ClientId)
    requires Possible(Init(names), run) && Legal(Init(names), run)
    requires q.mode == Path.Default || q.mode == Path.LocalBetter
    requires
      var s := Exec(Init(names), run);
      && f in s.agents && r.name in s.agents && f in s.mesh.nodes && r.name in s.mesh.nodes
      && Serves(s.agents[r.name], c, Key(q.uri, q.entryType)) && conn in s.agents[f].bound
      && r in s.mesh.nodes[f].peers && Current(s.mesh.nodes[f], r) && s.mesh.nodes[f].peers[r].status != Dead
      && (s.mesh.nodes[f].peers[r].status == Alive || s.mesh.nodes[f].peers[r].version != s.mesh.nodes[r.name].sequence)
      && Enumerates(list, s.mesh.nodes[r.name].self.entries)
    ensures
      var s, key := Exec(Init(names), run), Key(q.uri, q.entryType);
      var round := Lifted(Convergence.RoundRun(s.mesh, f, r, list));
      && Possible(s, round) && Legal(s, round)
      && var agents := Exec(s, round).agents;
         var m := Path.Handle(agents, Path.Sent(q, f, conn, requestId), d);
         var got := Path.Handle(agents, m, d).place;
         && f in agents && r.name in agents
         && (m.place.ToNode? || (m.place.AtClient? && m.place.node == f && Serves(agents[f], m.place.client, key)))
         && (m.place == Path.ToNode(r.name) ==>
               got.AtClient? && got.node == r.name && Serves(agents[r.name], got.client, key))
  {
    hide Joined, Mesh.Inv, RegistryRuns.Exact, Init, Possible, Exec, Legal, Enumerates, Path.Handle, Path.Sent, Key,
      Lifted;
    var s := Exec(Init(names), run);
    InitInv(names);
    RunInv(Init(names), run);
    RoundInSystem(s, f, r, list);
    var s' := Exec(s, Lifted(Convergence.RoundRun(s.mesh, f, r, list)));
    ServedKeyIsFound(s', q, f, r.name, conn, requestId, d, c);
    var m := Path.Handle(s'.agents, Path.Sent(q, f, conn, requestId), d);
    if m.place == Path.ToNode(r.name) {
      RecordOfAnother(s, f, r);
      ForwardedRequestArrives(s', q, f, conn, requestId, d);
    }
  }

  lemma RecordOfAnother(s: System, f: string, r: Ref)
    requires Inv(s) && f in s.mesh.nodes && r in s.mesh.nodes[f].peers
    ensures f != r.name
  {
    hide Mesh.OwnInv, Joined;
    Mesh.NotOneself(s.mesh, f, r);
  }

  // ---- Such states exist ----

  /** A client registers one entry at one node, another node meets it and has a client of its own. */
  function FirstRequest(f: string, p: string, s: Registry.Service): seq<Event>
  {
    [OfClients(p, RegistryRuns.Registers("server", 1, [s], 0)), OfMesh(Mesh.Meet(f, p, 0)),
     OfClients(f, RegistryRuns.Registers("caller", 2, [], 0))]
  }

  lemma Three(s: System, a: Event, b: Event, c: Event)
    requires Enabled(s, a) && Assumed(s, a)
    requires Enabled(Next(s, a), b) && Assumed(Next(s, a), b)
    requires Enabled(Next(Next(s, a), b), c) && Assumed(Next(Next(s, a), b), c)
    ensures Possible(s, [a, b, c]) && Legal(s, [a, b, c]) && Exec(s, [a, b, c]) == Next(Next(Next(s, a), b), c)
  {
    hide Enabled, Assumed, Next;
    var s1, s2 := Next(s, a), Next(Next(s, a), b);
    assert [a, b, c][1..] == [b, c] && [b, c][1..] == [c] && [c][1..] == [];
    assert Possible(s2, [c]) && Legal(s2, [c]) && Exec(s2, [c]) == Next(s2, c);
    assert Possible(s1, [b, c]) && Legal(s1, [b, c]) && Exec(s1, [b, c]) == Next(s2, c);
  }

  /** A first registration at a fresh node. */
  lemma FirstRegistration(p: string, instance: string, conn: Registry.ConnectionId, s: Registry.Service)
    ensures
      var a, e := RegistryRuns.NewAgent(p), RegistryRuns.Registers(instance, conn, [s], 0);
      && RegistryRuns.Enabled(a, e) && RegistryRuns.Grows(a, e)
      && var a' := RegistryRuns.Next(a, e);
         && Serves(a', 0, Key(s.uri, s.entryType)) && a'.board.node == AddEntry(NewNode(p), s.uri, s.entryType)
         && a'.board.node.sequence == 1
  {
    hide Key, ModifyEntry, Indexes.Append;
    assert [s][..0] == [];
    var b := Registry.Board(map[], NewNode(p));
    assert Registry.AddAll(b, [s], 0) == Registry.AddOne(b, s, 0);
    assert Registry.ServicesOf([s]) == map[Registry.KeyOfService(s) := s];
  }

  lemma NoServices(a: Registry.Agent, instance: string, conn: Registry.ConnectionId)
    requires 0 !in a.records && instance !in a.clients
    ensures
      var e := RegistryRuns.Registers(instance, conn, [], 0);
      && RegistryRuns.Enabled(a, e) && RegistryRuns.Grows(a, e)
      && conn in RegistryRuns.Next(a, e).bound && RegistryRuns.Next(a, e).board == a.board
  {
  }

  /** From the start, for any two nodes and any entry: everything ServedKeyIsReachable asks for can come about. */
  lemma ReachableFromTheStart(f: string, p: string, s: Registry.Service)
    requires f != p
    ensures
      var run, r := FirstRequest(f, p, s), Ref(p, 0);
      && Possible(Init({f, p}), run) && Legal(Init({f, p}), run)
      && var now := Exec(Init({f, p}), run);
         && f in now.agents && p in now.agents && f in now.mesh.nodes && p in now.mesh.nodes
         && Serves(now.agents[p], 0, Key(s.uri, s.entryType)) && 2 in now.agents[f].bound
         && r in now.mesh.nodes[f].peers && Current(now.mesh.nodes[f], r) && now.mesh.nodes[f].peers[r].status == Alive
         && now.mesh.nodes[f].peers[r].version != now.mesh.nodes[p].sequence
  {
    hide Key, Possible, Exec, Legal, RegistryRuns.Next, RegistryRuns.Enabled, RegistryRuns.Grows, Published, AddEntry,
      Serves;
    var start := Init({f, p});
    var serve, call := RegistryRuns.Registers("server", 1, [s], 0), RegistryRuns.Registers("caller", 2, [], 0);
    var e1, e2, e3 := OfClients(p, serve), OfMesh(Mesh.Meet(f, p, 0)), OfClients(f, call);
    FirstRegistration(p, "server", 1, s);
    PublishedInMesh(start.mesh, p, start.agents[p], serve);
    var s1 := Next(start, e1);
    assert s1.mesh.nodes[f] == NewNode(f) && s1.agents[f] == RegistryRuns.NewAgent(f);
    var s2 := Next(s1, e2);
    assert s2.mesh.nodes[f] == Learn(NewNode(f), p, 0) && s2.mesh.nodes[p] == s1.mesh.nodes[p];
    assert s2.agents[f] == OnNode(RegistryRuns.NewAgent(f), s2.mesh.nodes[f]);
    NoServices(s2.agents[f], "caller", 2);
    PublishedInMesh(s2.mesh, f, s2.agents[f], call);
    Three(start, e1, e2, e3);
  }
}
