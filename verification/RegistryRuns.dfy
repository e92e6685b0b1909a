/** Every run of registrations, unregistrations, closed connections and timeouts at an agent, interleaved with
    whatever the node does about other nodes. */
module RegistryRuns {
  import opened Registry
  import opened Seqs
  import Nodes

  datatype Event =
    | Registers(instance: string, conn: ConnectionId, list: seq<Service>, id: ClientId)
    | Unregisters(conn: ConnectionId, list: seq<Service>)
    | Closes(conn: ConnectionId, list: seq<Service>)
    | TimesOut(instance: string, list: seq<Service>)
    | NodeActivity(node: Nodes.Node)

  function NewAgent(name: string): Agent
  {
    Agent(map[], map[], map[], Board(map[], Nodes.NewNode(name)))
  }

  /** `list` is some reading of the entry map. */
  ghost predicate Reads(list: seq<Service>, m: Services)
  {
    forall k :: Names(list, k) <==> k in m
  }

  ghost predicate BoundTo(a: Agent, conn: ConnectionId, list: seq<Service>)
  {
    conn in a.bound && a.bound[conn] in a.records && Reads(list, a.records[a.bound[conn]].entries)
  }

  ghost predicate Enabled(a: Agent, e: Event)
  {
    match e
    case Registers(instance, _, _, id) =>
      id !in a.records && (instance in a.clients ==> a.clients[instance] in a.records)
    case Unregisters(conn, list) => BoundTo(a, conn, list)
    case Closes(conn, list) => BoundTo(a, conn, list)
    case TimesOut(instance, list) =>
      instance in a.clients && a.clients[instance] in a.records && Reads(list, a.records[a.clients[instance]].entries)
    case NodeActivity(node) =>
      var n := a.board.node;
      node.name == n.name && node.self == n.self && node.sequence == n.sequence
  }

  function Next(a: Agent, e: Event): Agent
    requires Enabled(a, e)
  {
    match e
    case Registers(instance, conn, list, id) => Register(a, instance, conn, list, id)
    case Unregisters(conn, list) => DeleteClient(a, a.bound[conn], list)
    case Closes(conn, list) => CloseConnection(a, conn, list)
    case TimesOut(instance, list) => DeleteClient(a, a.clients[instance], list)
    case NodeActivity(node) => a.(board := a.board.(node := node))
  }

  // ---- In every run, with no hypothesis ----

  ghost predicate WellNamed(a: Agent)
  {
    && (forall id :: id in a.clients ==> a.clients[id] in a.records && a.records[a.clients[id]].instance == id)
    && (forall conn :: conn in a.bound ==> a.bound[conn] in a.records)
  }

  /** What a registered client serves, it is listed for. */
  ghost predicate RegisteredAreListed(a: Agent)
    requires WellNamed(a)
  {
    forall id, k :: id in a.clients && k in a.records[a.clients[id]].entries ==> Lists(a.board, a.clients[id], k)
  }

  /** mClientInfo never leads to a dead record. */
  ghost predicate ClientsAlive(a: Agent)
    requires WellNamed(a)
  {
    forall id :: id in a.clients ==> a.records[a.clients[id]].alive
  }

  ghost predicate Sound(a: Agent)
  {
    WellNamed(a) && ClientsAlive(a) && RegisteredAreListed(a) && Advertises(a.board)
  }

  /** A live client can be reached. */
  ghost predicate Connected(a: Agent)
  {
    forall c :: c in a.records && a.records[c].alive ==> a.records[c].connections != []
  }

  lemma DeleteSound(a: Agent, c: ClientId, list: seq<Service>)
    requires Sound(a) && c in a.records
    ensures Sound(DeleteClient(a, c, list))
  {
    hide Advertises, Lists, Names, RemoveAll;
    RemoveAllKeeps(a.board, list, c);
  }

  lemma RegisterSound(a: Agent, instance: string, conn: ConnectionId, list: seq<Service>, id: ClientId)
    requires Sound(a) && id !in a.records
    ensures Sound(Register(a, instance, conn, list, id))
  {
    hide Lists, Names, AddAll, ServicesOf, Advertises;
    AddAllKeeps(a.board, list, if instance in a.clients then a.clients[instance] else id);
    forall k ensures k in ServicesOf(list) <==> Names(list, k) {
      ServicesOfNames(list, k);
    }
  }

  lemma StepSound(a: Agent, e: Event)
    requires Sound(a) && Enabled(a, e)
    ensures Sound(Next(a, e))
  {
    hide Lists, Names, RemoveAll, AddAll, ServicesOf;
    match e
    case Registers(instance, conn, list, id) =>
      RegisterSound(a, instance, conn, list, id);
    case Unregisters(conn, list) =>
      DeleteSound(a, a.bound[conn], list);
    case Closes(conn, list) =>
      var c := a.bound[conn];
      var left := Without(a.records[c].connections, conn);
      DeleteSound(a.(records := a.records[c := a.records[c].(connections := left)]), c, list);
    case TimesOut(instance, list) =>
      DeleteSound(a, a.clients[instance], list);
    case NodeActivity(node) =>
      assert forall c, k :: Lists(Next(a, e).board, c, k) <==> Lists(a.board, c, k) by { SameUris(a.board, node); }
  }

  lemma SameUris(b: Board, node: Nodes.Node)
    ensures forall c, k :: Lists(b.(node := node), c, k) <==> Lists(b, c, k)
  {
  }

  ghost predicate Possible(a: Agent, run: seq<Event>)
    decreases run
  {
    run != [] ==> Enabled(a, run[0]) && Possible(Next(a, run[0]), run[1..])
  }

  ghost function Exec(a: Agent, run: seq<Event>): Agent
    requires Possible(a, run)
    decreases run
  {
    if run == [] then a else Exec(Next(a, run[0]), run[1..])
  }

  lemma StepConnected(a: Agent, e: Event)
    requires Sound(a) && Connected(a) && Enabled(a, e)
    ensures Connected(Next(a, e))
  {
    hide Advertises, RegisteredAreListed, RemoveAll, AddAll, Reads;
  }

  lemma NewAgentHolds(name: string)
    ensures Sound(NewAgent(name)) && Exact(NewAgent(name)) && OneLive(NewAgent(name)) && Connected(NewAgent(name))
  {
  }

  lemma {:induction false} RunSound(a: Agent, run: seq<Event>)
    requires Sound(a) && Connected(a) && Possible(a, run)
    ensures Sound(Exec(a, run)) && Connected(Exec(a, run))
    decreases run
  {
    hide Sound, Connected, Enabled, Next;
    if run != [] {
      StepSound(a, run[0]);
      StepConnected(a, run[0]);
      RunSound(Next(a, run[0]), run[1..]);
    }
  }

  /** Advertised if and only if served, in every run until the node stops: the keys with a client are the keys of
      the node's own entries, and whichever of its clients is picked, a request for one of them finds a client. */
  lemma AdvertisedIffServed(name: string, run: seq<Event>, key: string, choice: nat)
    requires Possible(NewAgent(name), run)
    ensures
      var b := Exec(NewAgent(name), run).board;
      && (key in b.node.self.entries <==> key in b.uris)
      && (key in b.node.self.entries ==>
            PickClient(b.uris, key, choice).Picked? && PickClient(b.uris, key, choice).client in b.uris[key])
      && (key in b.uris ==> NoRepeats(b.uris[key]))
  {
    NewAgentHolds(name);
    RunSound(NewAgent(name), run);
    var uris := Exec(NewAgent(name), run).board.uris;
    if key in uris {
      assert uris[key][choice % |uris[key]|] in uris[key];
    }
  }

  // ---- Which clients are listed ----

  /** A record is listed under a key exactly if it is alive and registered the key. */
  ghost predicate Exact(a: Agent)
  {
    forall c, k :: Lists(a.board, c, k) <==> c in a.records && a.records[c].alive && k in a.records[c].entries
  }

  /** mClientInfo holds, per instance id, the only alive record of that id. */
  ghost predicate OneLive(a: Agent)
  {
    forall c :: c in a.records && a.records[c].alive ==>
      a.records[c].instance in a.clients && a.clients[a.records[c].instance] == c
  }

  /** A registration of a known instance names all the keys it named before. */
  ghost predicate Grows(a: Agent, e: Event)
  {
    e.Registers? && e.instance in a.clients && a.clients[e.instance] in a.records ==>
      forall k :: k in a.records[a.clients[e.instance]].entries ==> Names(e.list, k)
  }

  /** A connection is not handled after its record was replaced under the same instance id. */
  predicate NotReplaced(a: Agent, c: ClientId)
    requires c in a.records
  {
    a.records[c].instance in a.clients ==> a.clients[a.records[c].instance] == c
  }

  predicate Timely(a: Agent, e: Event)
  {
    match e
    case Unregisters(conn, _) => conn in a.bound && a.bound[conn] in a.records && NotReplaced(a, a.bound[conn])
    case Closes(conn, _) => conn in a.bound && a.bound[conn] in a.records && NotReplaced(a, a.bound[conn])
    case _ => true
  }

  lemma DeleteExact(a: Agent, c: ClientId, list: seq<Service>)
    requires Sound(a) && Exact(a) && c in a.records && Reads(list, a.records[c].entries)
    ensures Exact(DeleteClient(a, c, list))
  {
    hide Advertises, Lists, Names, RemoveAll;
    RemoveAllKeeps(a.board, list, c);
  }

  /** A registration keeps the listing exact if and only if it does not shrink what its instance had registered. */
  lemma RegisterExactIff(a: Agent, e: Event)
    requires Sound(a) && Exact(a) && e.Registers? && Enabled(a, e)
    ensures Exact(Next(a, e)) <==> Grows(a, e)
  {
    hide Advertises, Lists, Names, AddAll, ServicesOf;
    var c := if e.instance in a.clients then a.clients[e.instance] else e.id;
    AddAllKeeps(a.board, e.list, c);
    forall k ensures k in ServicesOf(e.list) <==> Names(e.list, k) {
      ServicesOfNames(e.list, k);
    }
    var a' := Next(a, e);
    assert a'.records[c].alive && a'.records[c].entries == ServicesOf(e.list);
    if !Grows(a, e) {
      var k :| k in a.records[c].entries && !Names(e.list, k);
      assert Lists(a'.board, c, k);
    }
  }

  lemma StepExact(a: Agent, e: Event)
    requires Sound(a) && Exact(a) && Enabled(a, e) && Grows(a, e)
    ensures Exact(Next(a, e))
  {
    hide Lists, Names, RemoveAll, AddAll, Advertises;
    match e
    case Registers(instance, conn, list, id) =>
      RegisterExactIff(a, e);
    case Unregisters(conn, list) =>
      DeleteExact(a, a.bound[conn], list);
    case Closes(conn, list) =>
      var c := a.bound[conn];
      var a' := a.(records := a.records[c := a.records[c].(connections := Without(a.records[c].connections, conn))]);
      DeleteExact(a', c, list);
    case TimesOut(instance, list) =>
      DeleteExact(a, a.clients[instance], list);
    case NodeActivity(node) =>
      SameUris(a.board, node);
  }

  /** Deleting a client keeps one live record per instance if and only if the record was not replaced. */
  lemma DeleteOneLiveIff(a: Agent, c: ClientId, list: seq<Service>)
    requires Sound(a) && OneLive(a) && c in a.records
    ensures OneLive(DeleteClient(a, c, list)) <==> NotReplaced(a, c)
  {
    hide Advertises, RegisteredAreListed, RemoveAll;
    var a' := DeleteClient(a, c, list);
    if !NotReplaced(a, c) {
      var other := a.clients[a.records[c].instance];
      assert a'.records[other].alive && a'.records[other].instance !in a'.clients;
    }
  }

  lemma StepOneLive(a: Agent, e: Event)
    requires Sound(a) && OneLive(a) && Enabled(a, e) && Timely(a, e)
    ensures OneLive(Next(a, e))
  {
    hide Advertises, RegisteredAreListed, RemoveAll, AddAll;
    match e
    case Registers(instance, conn, list, id) =>
    case Unregisters(conn, list) =>
      DeleteOneLiveIff(a, a.bound[conn], list);
    case Closes(conn, list) =>
      var c := a.bound[conn];
      ConnectionsOnly(a, c, Without(a.records[c].connections, conn));
      var a' := a.(records := a.records[c := a.records[c].(connections := Without(a.records[c].connections, conn))]);
      DeleteOneLiveIff(a', c, list);
    case TimesOut(instance, list) =>
      DeleteOneLiveIff(a, a.clients[instance], list);
    case NodeActivity(node) =>
  }

  lemma ConnectionsOnly(a: Agent, c: ClientId, left: seq<ConnectionId>)
    requires Sound(a) && OneLive(a) && c in a.records
    ensures
      var a' := a.(records := a.records[c := a.records[c].(connections := left)]);
      Sound(a') && OneLive(a') && (Exact(a) ==> Exact(a'))
  {
    hide Advertises, Lists;
  }

  /** Every registration in the run grows. */
  ghost predicate Growing(a: Agent, run: seq<Event>)
    requires Possible(a, run)
    decreases run
  {
    run != [] ==> Grows(a, run[0]) && Growing(Next(a, run[0]), run[1..])
  }

  /** No connection of a replaced record is handled late. */
  ghost predicate InTime(a: Agent, run: seq<Event>)
    requires Possible(a, run)
    decreases run
  {
    run != [] ==> Timely(a, run[0]) && InTime(Next(a, run[0]), run[1..])
  }

  lemma {:induction false} RunExact(a: Agent, run: seq<Event>)
    requires Sound(a) && Exact(a) && Possible(a, run) && Growing(a, run)
    ensures Sound(Exec(a, run)) && Exact(Exec(a, run))
    decreases run
  {
    hide Sound, Exact, Enabled, Next, Grows;
    if run != [] {
      StepSound(a, run[0]);
      StepExact(a, run[0]);
      RunExact(Next(a, run[0]), run[1..]);
    }
  }

  lemma {:induction false} RunOneLive(a: Agent, run: seq<Event>)
    requires Sound(a) && OneLive(a) && Possible(a, run) && InTime(a, run)
    ensures Sound(Exec(a, run)) && OneLive(Exec(a, run))
    decreases run
  {
    hide Sound, OneLive, Enabled, Next, Timely;
    if run != [] {
      StepSound(a, run[0]);
      StepOneLive(a, run[0]);
      RunOneLive(Next(a, run[0]), run[1..]);
    }
  }

  /** In every run, with no hypothesis: a client in mClientInfo is listed under every key it registered. */
  lemma RegisteredImpliesListed(name: string, run: seq<Event>, instance: string, key: string)
    requires Possible(NewAgent(name), run)
    ensures
      var a := Exec(NewAgent(name), run);
      instance in a.clients ==>
        && a.clients[instance] in a.records && a.records[a.clients[instance]].instance == instance
        && (key in a.records[a.clients[instance]].entries ==> a.clients[instance] in At(a.board.uris, key))
  {
    NewAgentHolds(name);
    RunSound(NewAgent(name), run);
    var a := Exec(NewAgent(name), run);
    assert instance in a.clients && key in a.records[a.clients[instance]].entries
      ==> Lists(a.board, a.clients[instance], key);
  }

  /** In every run whose registrations only grow: the node advertises a key exactly if some live client registered
      it, and whichever client a request is given to is one of those, with a connection to reach it over. */
  lemma PickedClientServes(name: string, run: seq<Event>, key: string, choice: nat)
    requires Possible(NewAgent(name), run) && Growing(NewAgent(name), run)
    ensures
      var a := Exec(NewAgent(name), run);
      && (key in a.board.node.self.entries <==>
            exists c :: c in a.records && a.records[c].alive && key in a.records[c].entries)
      && (PickClient(a.board.uris, key, choice).Picked? ==>
            var c := PickClient(a.board.uris, key, choice).client;
            c in a.records && a.records[c].alive && key in a.records[c].entries && a.records[c].connections != [])
  {
    NewAgentHolds(name);
    RunExact(NewAgent(name), run);
    RunSound(NewAgent(name), run);
    var a := Exec(NewAgent(name), run);
    PickedIsListed(a.board, key, choice);
    if c :| c in a.records && a.records[c].alive && key in a.records[c].entries {
      assert Lists(a.board, c, key);
    }
  }

  /** In every run in which no connection of a replaced record is handled late, a record is alive exactly if it is
      the one its instance id leads to, so that responses to an instance reach its only live record. */
  lemma OneLiveRecordPerInstance(name: string, run: seq<Event>, c: ClientId)
    requires Possible(NewAgent(name), run) && InTime(NewAgent(name), run)
    ensures
      var a := Exec(NewAgent(name), run);
      c in a.records ==>
        (a.records[c].alive <==> a.records[c].instance in a.clients && a.clients[a.records[c].instance] == c)
  {
    NewAgentHolds(name);
    RunOneLive(NewAgent(name), run);
  }

  lemma PickedIsListed(b: Board, key: string, choice: nat)
    requires Advertises(b)
    ensures PickClient(b.uris, key, choice).Picked? ==> Lists(b, PickClient(b.uris, key, choice).client, key)
    ensures PickClient(b.uris, key, choice).Picked? <==> key in b.node.self.entries
  {
    if key in b.uris {
      assert b.uris[key][choice % |b.uris[key]|] in b.uris[key];
    }
  }

  // ---- Without the hypotheses ----

  /** A registration that drops a key, and then the client's end: the dead record stays listed under the dropped
      key and the node keeps advertising it. */
  lemma DroppedKeyStaysAdvertised(a: Agent, e: Event, list: seq<Service>, k: string)
    requires Sound(a) && Enabled(a, e) && e.Registers? && e.instance in a.clients
    requires k in a.records[a.clients[e.instance]].entries && !Names(e.list, k)
    requires Reads(list, Next(a, e).records[a.clients[e.instance]].entries)
    ensures
      var c := a.clients[e.instance];
      var a' := DeleteClient(Next(a, e), c, list);
      !a'.records[c].alive && Lists(a'.board, c, k) && k in a'.board.node.self.entries
  {
    hide Names, AddAll, RemoveAll, ServicesOf;
    var c := a.clients[e.instance];
    var registered := Next(a, e);
    AddAllKeeps(a.board, e.list, c);
    assert Lists(a.board, c, k);
    ServicesOfNames(e.list, k);
    RemoveAllKeeps(registered.board, list, c);
    assert Lists(DeleteClient(registered, c, list).board, c, k);
  }

  // ---- Connections ----

  /** A registration over a connection binds it to the instance's record; that record's list keeps every connection it
      had, in order, and gains this one at its end unless it is there already or the list is full. */
  lemma RegisterConnects(a: Agent, instance: string, conn: ConnectionId, list: seq<Service>, id: ClientId)
    requires Sound(a) && id !in a.records
    ensures
      var a', c := Register(a, instance, conn, list, id), if instance in a.clients then a.clients[instance] else id;
      var was := if instance in a.clients then a.records[a.clients[instance]].connections else [];
      && a'.clients == a.clients[instance := c] && a'.bound == a.bound[conn := c]
      && a'.records.Keys == a.records.Keys + {c} && a'.records[c].alive && a'.records[c].instance == instance
      && a'.records[c].entries == ServicesOf(list)
      && a'.records[c].connections == (if conn in was || |was| > MAX_CONNECTIONS then was else was + [conn])
      && forall d :: d in a.records && d != c ==> a'.records[d] == a.records[d]
  {
    hide Advertises, RegisteredAreListed, AddAll, ServicesOf;
  }

  /** The end of a client: it is dead, its instance id leads nowhere, it is listed for none of the keys it had
      registered and for no other key that it was not listed for before, and no other record changes. */
  lemma DeleteEnds(a: Agent, c: ClientId, list: seq<Service>, k: string)
    requires Sound(a) && c in a.records && Reads(list, a.records[c].entries)
    ensures
      var a' := DeleteClient(a, c, list);
      && a'.records == a.records[c := a.records[c].(alive := false)] && a'.bound == a.bound
      && a'.clients == a.clients - {a.records[c].instance}
      && (Lists(a'.board, c, k) <==> Lists(a.board, c, k) && k !in a.records[c].entries)
      && forall d :: d != c ==> (Lists(a'.board, d, k) <==> Lists(a.board, d, k))
  {
    hide Advertises, Lists, Names, RemoveAll, RegisteredAreListed;
    RemoveAllKeeps(a.board, list, c);
  }

  /** A close takes exactly that connection out of its client's list and leaves the rest in order; the client is
      deleted if and only if none is left; no other record changes. */
  lemma CloseDisconnects(a: Agent, conn: ConnectionId, list: seq<Service>)
    requires conn in a.bound && a.bound[conn] in a.records
    ensures
      var a', c := CloseConnection(a, conn, list), a.bound[conn];
      var left := Without(a.records[c].connections, conn);
      && a'.bound == a.bound && a'.records.Keys == a.records.Keys && a'.records[c].connections == left
      && (forall x :: x in left <==> x in a.records[c].connections && x != conn)
      && a'.records[c].entries == a.records[c].entries && a'.records[c].instance == a.records[c].instance
      && (a'.records[c].alive <==> a.records[c].alive && left != [])
      && (left == [] ==> a.records[c].instance !in a'.clients)
      && (left != [] ==> a'.clients == a.clients && a'.board == a.board)
      && forall d :: d in a.records && d != c ==> a'.records[d] == a.records[d]
  {
    hide RemoveAll;
    WithoutKeeps(a.records[a.bound[conn]].connections, conn);
  }

  /** Every connection of a live record is open and bound to that record. */
  ghost predicate Attached(a: Agent, open: set<ConnectionId>)
  {
    forall c, conn :: c in a.records && a.records[c].alive && conn in a.records[c].connections ==>
      conn in open && conn in a.bound && a.bound[conn] == c
  }

  /** A registration does not take over a connection that serves another live record. */
  predicate Exclusive(a: Agent, e: Event)
  {
    e.Registers? && e.conn in a.bound && a.bound[e.conn] in a.records ==>
      var d := a.bound[e.conn];
      a.records[d].alive && e.conn in a.records[d].connections ==> e.instance in a.clients && a.clients[e.instance] == d
  }

  function StillOpen(open: set<ConnectionId>, e: Event): set<ConnectionId>
  {
    if e.Registers? then open + {e.conn} else if e.Closes? then open - {e.conn} else open
  }

  /** A registration keeps live records attached to their own connections if and only if it is exclusive. */
  lemma RegisterAttachedIff(a: Agent, e: Event, open: set<ConnectionId>)
    requires Sound(a) && Enabled(a, e) && e.Registers? && Attached(a, open)
    ensures Attached(Next(a, e), open + {e.conn}) <==> Exclusive(a, e)
  {
    hide Sound, Register;
    RegisterConnects(a, e.instance, e.conn, e.list, e.id);
    var a' := Next(a, e);
    var c := if e.instance in a.clients then a.clients[e.instance] else e.id;
    KnownAlive(a);
    if !Exclusive(a, e) {
      var d := a.bound[e.conn];
      assert d != c && a'.records[d] == a.records[d] && a'.bound[e.conn] == c;
    } else {
      forall d, conn | d in a'.records && a'.records[d].alive && conn in a'.records[d].connections
        ensures conn in open + {e.conn} && conn in a'.bound && a'.bound[conn] == d
      {
        assert d != c ==> a'.records[d] == a.records[d];
      }
    }
  }

  lemma KnownAlive(a: Agent)
    requires Sound(a)
    ensures WellNamed(a) && ClientsAlive(a)
  {
    hide Advertises, RegisteredAreListed;
  }

  lemma StepAttached(a: Agent, e: Event, open: set<ConnectionId>)
    requires Sound(a) && Enabled(a, e) && Attached(a, open) && Exclusive(a, e)
    ensures Attached(Next(a, e), StillOpen(open, e))
  {
    hide Sound, RemoveAll, AddAll, Register, CloseConnection;
    match e
    case Registers(_, _, _, _) => RegisterAttachedIff(a, e, open);
    case Closes(conn, list) => CloseDisconnects(a, conn, list);
    case _ =>
  }

  ghost predicate AllExclusive(a: Agent, run: seq<Event>)
    requires Possible(a, run)
    decreases run
  {
    run != [] ==> Exclusive(a, run[0]) && AllExclusive(Next(a, run[0]), run[1..])
  }

  /** The connections that registered and have not closed since. */
  function OpenAfter(open: set<ConnectionId>, run: seq<Event>): set<ConnectionId>
    decreases run
  {
    if run == [] then open else OpenAfter(StillOpen(open, run[0]), run[1..])
  }

  lemma {:induction false} RunAttached(a: Agent, run: seq<Event>, open: set<ConnectionId>)
    requires Sound(a) && Connected(a) && Attached(a, open) && Possible(a, run) && AllExclusive(a, run)
    ensures Attached(Exec(a, run), OpenAfter(open, run))
    decreases run
  {
    hide Sound, Connected, Attached, Enabled, Next, Exclusive;
    if run != [] {
      StepSound(a, run[0]);
      StepConnected(a, run[0]);
      StepAttached(a, run[0], open);
      RunAttached(Next(a, run[0]), run[1..], StillOpen(open, run[0]));
    }
  }

  /** The set is what it says: a connection is open if and only if some registration over it has no close of it after.
      */
  lemma {:induction false} OpenIff(open: set<ConnectionId>, run: seq<Event>, conn: ConnectionId)
    ensures conn in OpenAfter(open, run) <==>
      || (conn in open && forall i :: 0 <= i < |run| ==> !(run[i].Closes? && run[i].conn == conn))
      || exists i :: 0 <= i < |run| && OpensForGood(run, i, conn)
    decreases run
  {
    if run != [] {
      var rest := run[1..];
      OpenIff(StillOpen(open, run[0]), rest, conn);
      assert forall i :: 0 < i < |run| ==> run[i] == rest[i - 1];
      forall i | 0 <= i < |rest| ensures OpensForGood(rest, i, conn) <==> OpensForGood(run, i + 1, conn) {
        assert forall j :: i < j < |rest| ==> rest[j] == run[j + 1];
        assert forall j :: i + 1 < j < |run| ==> run[j] == rest[j - 1];
      }
      if i :| 0 <= i < |rest| && OpensForGood(rest, i, conn) {
        assert OpensForGood(run, i + 1, conn);
      }
      if i :| 0 <= i < |run| && OpensForGood(run, i, conn) {
        assert i > 0 ==> OpensForGood(rest, i - 1, conn);
        assert i == 0 ==> forall j :: 0 <= j < |rest| ==> rest[j] == run[j + 1];
      }
      if run[0].Registers? && run[0].conn == conn
         && (forall j :: 0 <= j < |rest| ==> !(rest[j].Closes? && rest[j].conn == conn)) {
        assert OpensForGood(run, 0, conn);
      }
    }
  }

  /** The event registers over the connection, and the connection does not close after it. */
  ghost predicate OpensForGood(run: seq<Event>, i: nat, conn: ConnectionId)
    requires i < |run|
  {
    && run[i].Registers? && run[i].conn == conn
    && forall j :: i < j < |run| ==> !(run[j].Closes? && run[j].conn == conn)
  }

  /** In every run whose registrations take over no live connection: a live client has a connection, and each
      connection in its list registered, has not closed since, and is bound to it. So a client all of whose connections
      have closed is dead; and if registrations only grow, it is listed nowhere. */
  lemma LiveClientHasOpenConnection(name: string, run: seq<Event>, c: ClientId, k: string)
    requires Possible(NewAgent(name), run) && AllExclusive(NewAgent(name), run)
    ensures
      var a := Exec(NewAgent(name), run);
      c in a.records ==>
        && (a.records[c].alive ==>
              && a.records[c].connections != []
              && forall conn :: conn in a.records[c].connections ==>
                   conn in OpenAfter({}, run) && conn in a.bound && a.bound[conn] == c)
        && ((forall conn :: conn in OpenAfter({}, run) && conn in a.bound ==> a.bound[conn] != c) ==>
              && !a.records[c].alive
              && (Growing(NewAgent(name), run) ==> !Lists(a.board, c, k)))
  {
    hide Possible, Exec, AllExclusive, Growing, OpenAfter;
    NewAgentHolds(name);
    assert Attached(NewAgent(name), {});
    RunAttached(NewAgent(name), run, {});
    RunSound(NewAgent(name), run);
    if Growing(NewAgent(name), run) {
      RunExact(NewAgent(name), run);
    }
    var a := Exec(NewAgent(name), run);
    if c in a.records && a.records[c].alive {
      assert a.records[c].connections[0] in a.records[c].connections;
    }
  }

  // ---- From the start ----

  /** Two instances register over one connection, and it closes: the first client is alive for good, with a connection
      that is no longer open. */
  lemma SharedConnectionReached(name: string, first: string, second: string)
    requires first != second
    ensures
      var run := [Registers(first, 1, [], 0)] + ([Registers(second, 1, [], 1)] + ([Closes(1, [])] + []));
      && Possible(NewAgent(name), run) && OpenAfter({}, run) == {}
      && var a := Exec(NewAgent(name), run);
         0 in a.records && a.records[0].alive && a.records[0].connections == [1] && 1 in a.records
           && !a.records[1].alive
  {
    hide Register, CloseConnection, Sound, Reads, Names, KeyOfService, AddAll, RemoveAll, ServicesOf;
    OneServiceReads(Service("", 0));
    NewAgentHolds(name);
    var e1, e2, e3 := Registers(first, 1, [], 0), Registers(second, 1, [], 1), Closes(1, []);
    var a0 := NewAgent(name);
    RegisterConnects(a0, first, 1, [], 0);
    StepSound(a0, e1);
    var a1 := Next(a0, e1);
    RegisterConnects(a1, second, 1, [], 1);
    var a2 := Next(a1, e2);
    CloseDisconnects(a2, 1, []);
    assert Without([1], 1) == [] by { assert [1][..0] == []; }
    assert a1.records[0].connections == [1] && a2.records[1].connections == [1] && a2.bound[1] == 1;
    Cons(a2, e3, []);
    Cons(a1, e2, [e3] + []);
    Cons(a0, e1, [e2] + ([e3] + []));
    SharedCloses(e1, e2, e3);
  }

  lemma SharedCloses(e1: Event, e2: Event, e3: Event)
    requires e1.Registers? && e2.Registers? && e3.Closes? && e1.conn == e2.conn == e3.conn
    ensures OpenAfter({}, [e1] + ([e2] + ([e3] + []))) == {}
  {
    var run := [e1, e2, e3];
    assert [e1] + ([e2] + ([e3] + [])) == run && run[1..] == [e2, e3] && run[1..][1..] == [e3] && [e3][1..] == [];
    var open := {e1.conn};
    assert StillOpen({}, e1) == open && StillOpen(open, e2) == open && StillOpen(open, e3) == {};
    assert OpenAfter(open, [e3]) == {};
    assert OpenAfter(open, [e2, e3]) == OpenAfter(open, [e3]);
  }

  /** One event in front of a run. */
  lemma Cons(a: Agent, e: Event, run: seq<Event>)
    requires Enabled(a, e) && Possible(Next(a, e), run)
    ensures Possible(a, [e] + run) && Exec(a, [e] + run) == Exec(Next(a, e), run)
  {
    hide Enabled, Next;
    assert ([e] + run)[1..] == run;
  }

  lemma OneServiceReads(s: Service)
    ensures Reads([s], ServicesOf([s])) && Names([s], KeyOfService(s))
    ensures Reads([], ServicesOf([])) && ServicesOf([]) == map[]
  {
    hide KeyOfService;
    forall k ensures Names([s], k) <==> k in ServicesOf([s]) {
      ServicesOfNames([s], k);
    }
    assert KeyOfService([s][0]) == KeyOfService(s);
    NoNames();
  }

  /** A client unregisters and registers again over another connection, and only then does its first connection close:
      its new record is alive, and its instance id leads nowhere. */
  lemma LateCloseReached(name: string, instance: string, s: Service)
    ensures
      var run := [Registers(instance, 1, [s], 0)]
        + ([Unregisters(1, [s])] + ([Registers(instance, 2, [s], 1)] + ([Closes(1, [s])] + [])));
      && Possible(NewAgent(name), run)
      && var a := Exec(NewAgent(name), run);
         1 in a.records && a.records[1].alive && a.records[1].instance == instance && instance !in a.clients
  {
    hide KeyOfService, AddAll, RemoveAll, ServicesOf, Reads, Names;
    OneServiceReads(s);
    var a0 := NewAgent(name);
    var e1, e2, e3, e4 := Registers(instance, 1, [s], 0), Unregisters(1, [s]), Registers(instance, 2, [s], 1),
      Closes(1, [s]);
    var a1 := Next(a0, e1);
    assert AddConnection(Client(instance, true, map[], []), 1).connections == [1];
    assert a1.records == map[0 := Client(instance, true, ServicesOf([s]), [1])] && a1.bound == map[1 := 0];
    var a2 := Next(a1, e2);
    assert a2.records[0].entries == ServicesOf([s]) && a2.records[0].connections == [1] && a2.clients == map[];
    var a3 := Next(a2, e3);
    assert AddConnection(Client(instance, true, map[], []), 2).connections == [2];
    assert a3.records[1] == Client(instance, true, ServicesOf([s]), [2]) && a3.bound[1] == 0
      && a3.records[0] == a2.records[0];
    assert Without([1], 1) == [] by { assert [1][..0] == []; }
    var a4 := Next(a3, e4);
    Cons(a3, e4, []);
    Cons(a2, e3, [e4] + []);
    Cons(a1, e2, [e3] + ([e4] + []));
    Cons(a0, e1, [e2] + ([e3] + ([e4] + [])));
  }

  /** A client registers a key, registers again without it, and unregisters: the dead record stays listed for the key
      and the node goes on advertising it. */
  lemma DroppedKeyReached(name: string, instance: string, s: Service)
    ensures
      var run := [Registers(instance, 1, [s], 0)] + ([Registers(instance, 1, [], 1)] + ([Unregisters(1, [])] + []));
      && Possible(NewAgent(name), run)
      && var a := Exec(NewAgent(name), run);
         && 0 in a.records && !a.records[0].alive && Lists(a.board, 0, KeyOfService(s))
         && KeyOfService(s) in a.board.node.self.entries
  {
    hide KeyOfService, AddAll, RemoveAll, ServicesOf, Reads, Names, Lists, Advertises;
    OneServiceReads(s);
    NewAgentHolds(name);
    var a0 := NewAgent(name);
    var e1, e2, e3 := Registers(instance, 1, [s], 0), Registers(instance, 1, [], 1), Unregisters(1, []);
    StepSound(a0, e1);
    var a1 := Next(a0, e1);
    ServicesOfNames([s], KeyOfService(s));
    assert AddConnection(Client(instance, true, map[], []), 1).connections == [1];
    assert a1.records == map[0 := Client(instance, true, ServicesOf([s]), [1])] && a1.clients == map[instance := 0];
    NoNames();
    DroppedKeyStaysAdvertised(a1, e2, [], KeyOfService(s));
    var a2 := Next(a1, e2);
    var a3 := Next(a2, e3);
    Cons(a2, e3, []);
    Cons(a1, e2, [e3] + []);
    Cons(a0, e1, [e2] + ([e3] + []));
  }
}
