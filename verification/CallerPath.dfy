/** The path of a call through the mesh and of its response back (protocol/caller/caller.go, the dispatchers of
    node/manager.go and the RPC handlers of cli_agent/agent_manager.go): pushes on the way out, pops on the way back. */
module CallerPath {
  import opened Entries
  import opened Replicas
  import Indexes
  import opened Nodes
  import opened Registry

  /** One element of a caller stack; what a client put there itself may be anything. */
  datatype Caller =
    | AgentCaller(instance: string, requestId: string, connection: ConnectionId)
    | NodeCaller(node: string)
    | OtherCaller
    | Unreadable

  type Stack = seq<Caller>

  datatype Mode = Default | LocalForce | LocalBetter | Invalid

  datatype Request = Request(uri: string, entryType: int, mode: Mode, stack: Stack)

  /** The stack of a message as the handlers change it. */
  class RpcMessage {
    var callers: Stack

    constructor (callers: Stack)
      ensures this.callers == callers
    {
      this.callers := callers;
    }

    method PushStack(c: Caller)
      modifies this
      ensures callers == old(callers) + [c]
    {
      callers := callers + [c];
    }

    method PopStack() returns (ok: bool, top: Caller)
      modifies this
      ensures ok <==> old(callers) != []
      ensures if ok then old(callers) == callers + [top] else callers == old(callers)
    {
      if |callers| == 0 {
        return false, OtherCaller;
      }
      ok, top := true, callers[|callers| - 1];
      callers := callers[..|callers| - 1];
    }
  }

  // ---- The way out ----

  datatype Dispatched = CallYourself | Forward(to: string, stack: Stack) | NotFound

  /** DispatchReq; `choice` is the random number of an unkeyed request or the hash of a keyed one. */
  function DispatchReq(n: Node, q: Request, choice: nat): Dispatched
  {
    var key := Key(q.uri, q.entryType);
    var onward := q.stack + [NodeCaller(n.name)];
    match q.mode
    case LocalForce => if key in n.self.entries then CallYourself else NotFound
    case LocalBetter =>
      if key in n.self.entries && n.self.status != Dead then CallYourself
      else
        var remote := Indexes.WithoutName(Indexes.At(n.index, key), n.name);
        if remote == [] then NotFound else Forward(remote[choice % |remote|].name, onward)
    case Default =>
      var all := Indexes.At(n.index, key);
      if all == [] then NotFound else Forward(all[choice % |all|].name, onward)
    case Invalid => NotFound
  }

  type Agents = map<string, Agent>

  // ---- The message in flight ----

  /** Where a message is: on its way to the agent of the client that sends it, to another node, at a client that serves
      it over some connection, on its way back from there, on its way back to another node, answered, or given up. */
  datatype Place =
    | AtAgent(node: string, conn: ConnectionId, requestId: string)
    | ToNode(node: string)
    | AtClient(node: string, client: ClientId, conn: ConnectionId)
    | FromClient(node: string, conn: ConnectionId)
    | BackToNode(node: string)
    | Answered(node: string, client: ClientId, conn: ConnectionId, requestId: string)
    | GivenUp

  /** `hops` and `backs` count the casts of the request and of its response from node to node. */
  datatype Flight = Flight(request: Request, place: Place, hops: nat, backs: nat)

  /** The random numbers drawn while a message is handled, or what takes their place for a keyed request. */
  datatype Draw = Draw(node: nat, client: nat, connection: nat)

  function Stacked(m: Flight, stack: Stack, place: Place): Flight
  {
    m.(request := m.request.(stack := stack), place := place)
  }

  /** getClient4RpcCallReq and rpcCall: only a live client with a connection is reached. */
  function CallClient(a: Agent, m: Flight, at: string, d: Draw): Flight
  {
    match PickClient(a.board.uris, Key(m.request.uri, m.request.entryType), d.client)
    case NoClient => m.(place := GivenUp)
    case Picked(c) =>
      if c !in a.records || !a.records[c].alive || a.records[c].connections == [] then m.(place := GivenUp)
      else
        var open := a.records[c].connections;
        m.(place := AtClient(at, c, open[d.connection % |open|]))
  }

  /** A client's request at its agent: its caller is pushed, then it is dispatched. */
  function HandleRpcCallReq(a: Agent, m: Flight, d: Draw): Flight
    requires m.place.AtAgent?
  {
    var conn := m.place.conn;
    if conn !in a.bound || a.bound[conn] !in a.records then m.(place := GivenUp)
    else
      var stack := m.request.stack + [AgentCaller(a.records[a.bound[conn]].instance, m.place.requestId, conn)];
      match DispatchReq(a.board.node, m.request.(stack := stack), d.node)
      case NotFound => m.(place := GivenUp)
      case CallYourself => CallClient(a, Stacked(m, stack, m.place), m.place.node, d)
      case Forward(to, onward) => Stacked(m, onward, ToNode(to)).(hops := m.hops + 1)
  }

  /** rpcResp: over the connection the request came from if it is still open, otherwise over any other. */
  function Respond(a: Agent, m: Flight, at: string, top: Caller, stack: Stack, d: Draw): Flight
  {
    if !top.AgentCaller? || top.instance !in a.clients || a.clients[top.instance] !in a.records
    then m.(place := GivenUp)
    else
      var c := a.clients[top.instance];
      var open := a.records[c].connections;
      if !a.records[c].alive || open == [] then m.(place := GivenUp)
      else
        var over := if top.connection in open then top.connection else open[d.connection % |open|];
        Stacked(m, stack, Answered(at, c, over, top.requestId))
  }

  /** mNodeInfo knows the node itself and every registered name. */
  predicate Knows(n: Node, name: string)
  {
    name == n.name || name in n.names
  }

  /** A client's response at its agent: DispatchRsp casts it to the node on top of the stack, or it is answered here. */
  function HandleRpcCallResp(a: Agent, m: Flight, d: Draw): Flight
    requires m.place.FromClient?
  {
    var stack := m.request.stack;
    if stack == [] then m.(place := GivenUp)
    else
      var top, rest := stack[|stack| - 1], stack[..|stack| - 1];
      match top
      case Unreadable => m.(place := GivenUp)
      case NodeCaller(name) =>
        if !Knows(a.board.node, name) then m.(place := GivenUp)
        else Stacked(m, rest, BackToNode(name)).(backs := m.backs + 1)
      case _ =>
        if m.place.conn !in a.bound then m.(place := GivenUp) else Respond(a, m, m.place.node, top, rest, d)
  }

  function HandleResponse(a: Agent, m: Flight, d: Draw): Flight
    requires m.place.BackToNode?
  {
    var stack := m.request.stack;
    if stack == [] then m.(place := GivenUp)
    else Respond(a, m, m.place.node, stack[|stack| - 1], stack[..|stack| - 1], d)
  }

  /** Whatever handler the message is due at handles it; a node that is gone handles nothing. A client answers with the
      stack it was sent. */
  function Handle(agents: Agents, m: Flight, d: Draw): Flight
  {
    match m.place
    case AtAgent(at, _, _) => if at in agents then HandleRpcCallReq(agents[at], m, d) else m.(place := GivenUp)
    case ToNode(at) => if at in agents then CallClient(agents[at], m, at, d) else m.(place := GivenUp)
    case AtClient(at, _, conn) => m.(place := FromClient(at, conn))
    case FromClient(at, _) => if at in agents then HandleRpcCallResp(agents[at], m, d) else m.(place := GivenUp)
    case BackToNode(at) => if at in agents then HandleResponse(agents[at], m, d) else m.(place := GivenUp)
    case Answered(_, _, _, _) => m
    case GivenUp => m
  }

  /** One handling of the message: the agents as they are by then, and the random numbers drawn. */
  datatype Step = Step(agents: Agents, draw: Draw)

  /** Every node goes by the name it is reached under. */
  ghost predicate WellNamed(agents: Agents)
  {
    forall p :: p in agents ==> agents[p].board.node.name == p
  }

  ghost predicate AllWellNamed(steps: seq<Step>)
  {
    forall i :: 0 <= i < |steps| ==> WellNamed(steps[i].agents)
  }

  function Travel(m: Flight, steps: seq<Step>): Flight
    decreases steps
  {
    if steps == [] then m else Travel(Handle(steps[0].agents, m, steps[0].draw), steps[1..])
  }

  /** A request as its client sends it, with whatever stack the client put there. */
  function Sent(q: Request, origin: string, conn: ConnectionId, requestId: string): Flight
  {
    Flight(q, AtAgent(origin, conn, requestId), 0, 0)
  }

  // ---- Every journey ----

  /** At a client and on its way from there: at the origin with one caller on the stack, or a hop away with two. */
  predicate Outward(m: Flight, at: string, origin: string, out: Stack, away: Stack)
  {
    m.backs == 0 && if m.hops == 0 then at == origin && m.request.stack == out else m.request.stack == away
  }

  /** What the message looks like at each place of its journey, if the client that sent it registered as `instance`. */
  ghost predicate OnCourse(m: Flight, q: Request, origin: string, conn: ConnectionId, requestId: string,
                           instance: string)
  {
    var out := q.stack + [AgentCaller(instance, requestId, conn)];
    var away := out + [NodeCaller(origin)];
    && m.request == q.(stack := m.request.stack) && m.backs <= m.hops <= 1
    && match m.place
       case AtAgent(_, _, _) => m == Sent(q, origin, conn, requestId)
       case ToNode(_) => m.request.stack == away && m.hops == 1 && m.backs == 0
       case AtClient(at, _, _) => Outward(m, at, origin, out, away)
       case FromClient(at, _) => Outward(m, at, origin, out, away)
       case BackToNode(at) => at == origin && m.backs == m.hops == 1 && m.request.stack == out
       case Answered(at, _, _, id) => at == origin && id == requestId && m.backs == m.hops && m.request.stack == q.stack
       case GivenUp => true
  }

  /** The instance whose request an agent takes a message for. */
  function Sender(agents: Agents, origin: string, conn: ConnectionId): string
  {
    if origin in agents && conn in agents[origin].bound && agents[origin].bound[conn] in agents[origin].records
    then agents[origin].records[agents[origin].bound[conn]].instance else ""
  }

  lemma FirstHandling(agents: Agents, q: Request, origin: string, conn: ConnectionId, requestId: string, d: Draw)
    requires WellNamed(agents)
    ensures
      var m := Handle(agents, Sent(q, origin, conn, requestId), d);
      OnCourse(m, q, origin, conn, requestId, Sender(agents, origin, conn)) && !m.place.AtAgent?
  {
    hide Key, PickClient, Indexes.WithoutName, Indexes.At;
  }

  lemma HandlingStaysOnCourse(agents: Agents, m: Flight, q: Request, origin: string, conn: ConnectionId,
                              requestId: string, instance: string, d: Draw)
    requires OnCourse(m, q, origin, conn, requestId, instance) && !m.place.AtAgent?
    ensures
      var m' := Handle(agents, m, d);
      OnCourse(m', q, origin, conn, requestId, instance) && !m'.place.AtAgent?
  {
    hide Key, PickClient, DispatchReq;
    var out := q.stack + [AgentCaller(instance, requestId, conn)];
    var away := out + [NodeCaller(origin)];
    assert out[|out| - 1] == AgentCaller(instance, requestId, conn) && out[..|out| - 1] == q.stack;
    assert away[|away| - 1] == NodeCaller(origin) && away[..|away| - 1] == out;
  }

  /** Whatever the initial stack, mode, key and choices, and however the agents change between the handlings: every
      journey makes at most one hop between nodes and at most as many back, its stack grows and shrinks by its own
      client and its own node only, and if it is answered, then at its origin, under its own request id and with the
      stack its client sent. */
  lemma {:induction false} Journey(q: Request, origin: string, conn: ConnectionId, requestId: string, steps: seq<Step>)
    requires steps != [] && AllWellNamed(steps)
    ensures OnCourse(Travel(Sent(q, origin, conn, requestId), steps), q, origin, conn, requestId,
                     Sender(steps[0].agents, origin, conn))
  {
    hide OnCourse, Handle, Sender;
    var step := steps[0];
    FirstHandling(step.agents, q, origin, conn, requestId, step.draw);
    JourneyGoesOn(Handle(step.agents, Sent(q, origin, conn, requestId), step.draw), q, origin, conn, requestId,
                  Sender(step.agents, origin, conn), steps[1..]);
  }

  lemma {:induction false} JourneyGoesOn(m: Flight, q: Request, origin: string, conn: ConnectionId, requestId: string,
                                         instance: string, steps: seq<Step>)
    requires OnCourse(m, q, origin, conn, requestId, instance) && !m.place.AtAgent?
    ensures OnCourse(Travel(m, steps), q, origin, conn, requestId, instance)
    decreases steps
  {
    hide OnCourse, Handle;
    if steps != [] {
      HandlingStaysOnCourse(steps[0].agents, m, q, origin, conn, requestId, instance, steps[0].draw);
      JourneyGoesOn(Handle(steps[0].agents, m, steps[0].draw), q, origin, conn, requestId, instance, steps[1..]);
    }
  }

  /** The instance is registered, alive and has a connection. */
  predicate CanAnswer(agents: Agents, origin: string, instance: string)
  {
    && origin in agents && instance in agents[origin].clients
    && var a := agents[origin];
       a.clients[instance] in a.records && a.records[a.clients[instance]].alive
       && a.records[a.clients[instance]].connections != []
  }

  /** From any client a journey has reached, after whatever happened meanwhile: the response comes back if and only if
      the serving node still knows the origin (`back` is the system when its agent handles the response) and the origin
      still has the sender's instance, alive and with a connection (`home` is the system when the origin handles it).
      It comes back to the record of that instance, under its request id, with the initial stack, and over the request's
      own connection if that is still open. */
  lemma {:induction false} ReturnPathReversesForwardPath(
    q: Request, origin: string, conn: ConnectionId, requestId: string, steps: seq<Step>,
    back: Agents, home: Agents, d: Draw)
    requires steps != [] && AllWellNamed(steps) && WellNamed(back)
    requires Travel(Sent(q, origin, conn, requestId), steps).place.AtClient?
    ensures
      var m := Travel(Sent(q, origin, conn, requestId), steps);
      var instance := Sender(steps[0].agents, origin, conn);
      var at := m.place.node;
      var got := Handle(home, Handle(back, Handle(back, m, d), d), d);
      var last := if m.hops == 0 then back else home;
      && (got.place.Answered? <==>
            && at in back && CanAnswer(last, origin, instance)
            && if m.hops == 0 then m.place.conn in back[at].bound else Knows(back[at].board.node, origin))
      && (got.place.Answered? ==>
            var c := last[origin].clients[instance];
            && got.place.node == origin && got.place.client == c && got.place.requestId == requestId
            && got.request == q && got.place.conn in last[origin].records[c].connections
            && (conn in last[origin].records[c].connections ==> got.place.conn == conn))
  {
    hide Key, Travel, DispatchReq, CallClient, HandleRpcCallReq, Sender;
    Journey(q, origin, conn, requestId, steps);
    var instance := Sender(steps[0].agents, origin, conn);
    var out := q.stack + [AgentCaller(instance, requestId, conn)];
    var away := out + [NodeCaller(origin)];
    assert out[|out| - 1] == AgentCaller(instance, requestId, conn) && out[..|out| - 1] == q.stack;
    assert away[|away| - 1] == NodeCaller(origin) && away[..|away| - 1] == out;
  }

  // ---- The handlers on the message itself ----

  /** A client's request at its agent, on the message whose stack it pushes to. */
  method RequestAtAgent(a: Agent, m: Flight, msg: RpcMessage, d: Draw) returns (next: Flight)
    requires m.place.AtAgent? && msg.callers == m.request.stack
    modifies msg
    ensures next == HandleRpcCallReq(a, m, d)
    ensures next.place.GivenUp? || msg.callers == next.request.stack
  {
    hide Key, PickClient;
    var conn := m.place.conn;
    if conn !in a.bound || a.bound[conn] !in a.records {
      return m.(place := GivenUp);
    }
    msg.PushStack(AgentCaller(a.records[a.bound[conn]].instance, m.place.requestId, conn));
    match DispatchReq(a.board.node, m.request.(stack := msg.callers), d.node) {
      case NotFound =>
        next := m.(place := GivenUp);
      case CallYourself =>
        next := CallClient(a, Stacked(m, msg.callers, m.place), m.place.node, d);
      case Forward(to, onward) =>
        msg.PushStack(NodeCaller(a.board.node.name));
        next := Stacked(m, msg.callers, ToNode(to)).(hops := m.hops + 1);
    }
  }

  /** A client's response at its agent, on the message whose stack it pops from. */
  method ResponseAtAgent(a: Agent, m: Flight, msg: RpcMessage, d: Draw) returns (next: Flight)
    requires m.place.FromClient? && msg.callers == m.request.stack
    modifies msg
    ensures next == HandleRpcCallResp(a, m, d)
    ensures next.place.GivenUp? || msg.callers == next.request.stack
  {
    if |msg.callers| == 0 {
      return m.(place := GivenUp);
    }
    var top := msg.callers[|msg.callers| - 1];
    var lost := if top.NodeCaller? then !Knows(a.board.node, top.node) else m.place.conn !in a.bound;
    if top.Unreadable? || lost {
      return m.(place := GivenUp);
    }
    var ok, popped := msg.PopStack();
    assert msg.callers == m.request.stack[..|m.request.stack| - 1];
    if popped.NodeCaller? {
      next := Stacked(m, msg.callers, BackToNode(popped.node)).(backs := m.backs + 1);
    } else {
      next := Respond(a, m, m.place.node, popped, msg.callers, d);
    }
  }

  /** A response that another node cast back. */
  method ResponseAtNode(a: Agent, m: Flight, msg: RpcMessage, d: Draw) returns (next: Flight)
    requires m.place.BackToNode? && msg.callers == m.request.stack
    modifies msg
    ensures next == HandleResponse(a, m, d)
    ensures next.place.GivenUp? || msg.callers == next.request.stack
  {
    var ok, top := msg.PopStack();
    if !ok {
      return m.(place := GivenUp);
    }
    assert msg.callers == m.request.stack[..|m.request.stack| - 1];
    next := Respond(a, m, m.place.node, top, msg.callers, d);
  }

  /** A request answered locally found a client whenever the agent's board is in order. */
  lemma LocalAnswerFindsClient(a: Agent, q: Request, choice: nat, pick: nat)
    requires Advertises(a.board) && DispatchReq(a.board.node, q, choice) == CallYourself
    ensures PickClient(a.board.uris, Key(q.uri, q.entryType), pick).Picked?
    ensures q.mode == LocalForce || q.mode == LocalBetter
  {
    hide Key;
  }

  /** LOCAL_BETTER goes to another node only when the entry is not served here, and never back to this node. */
  lemma ForwardedElsewhere(n: Node, q: Request, choice: nat)
    requires q.mode == LocalBetter && n.self.status == Alive && DispatchReq(n, q, choice).Forward?
    ensures Key(q.uri, q.entryType) !in n.self.entries && DispatchReq(n, q, choice).to != n.name
    ensures exists r :: r in Indexes.At(n.index, Key(q.uri, q.entryType)) && r.name == DispatchReq(n, q, choice).to
  {
    hide Key;
    var key := Key(q.uri, q.entryType);
    var all := Indexes.At(n.index, key);
    var remote := Indexes.WithoutName(all, n.name);
    var r := remote[choice % |remote|];
    Indexes.WithoutNameCount(all, n.name, r);
    assert r in multiset(remote);
  }

  // ---- What a dispatch decides ----

  /** Some node other than this one is listed under the key. */
  ghost predicate ListedElsewhere(n: Node, key: string)
  {
    exists r :: r in Indexes.At(n.index, key) && r.name != n.name
  }

  /** Every mode, decided by what the node serves and what it has listed. LOCAL_FORCE never leaves the node and asks
      only whether it serves the key, stopped or not; LOCAL_BETTER leaves it only if it does not serve the key or is
      stopped, and only for another node; DEFAULT goes to any listed node; an invalid mode goes nowhere. What is
      forwarded carries the node as its last caller. */
  lemma DispatchDecides(n: Node, q: Request, choice: nat)
    ensures
      var key, d := Key(q.uri, q.entryType), DispatchReq(n, q, choice);
      && (d == CallYourself <==>
            key in n.self.entries && (q.mode == LocalForce || (q.mode == LocalBetter && n.self.status != Dead)))
      && (d.Forward? <==>
            || (q.mode == LocalBetter && !(key in n.self.entries && n.self.status != Dead) && ListedElsewhere(n, key))
            || (q.mode == Default && Indexes.At(n.index, key) != []))
      && (d.Forward? ==>
            && d.stack == q.stack + [NodeCaller(n.name)] && (q.mode == LocalBetter ==> d.to != n.name)
            && exists r :: r in Indexes.At(n.index, key) && r.name == d.to)
  {
    hide Key;
    var key := Key(q.uri, q.entryType);
    var all := Indexes.At(n.index, key);
    var remote := Indexes.WithoutName(all, n.name);
    RemoteListed(n, key);
    if q.mode == LocalBetter && remote != [] {
      var r := remote[choice % |remote|];
      assert r in remote;
    }
    if q.mode == Default && all != [] {
      assert all[choice % |all|] in all;
    }
  }

  lemma RemoteListed(n: Node, key: string)
    ensures
      var remote := Indexes.WithoutName(Indexes.At(n.index, key), n.name);
      && (forall r :: r in remote <==> r in Indexes.At(n.index, key) && r.name != n.name)
      && (remote != [] <==> ListedElsewhere(n, key))
  {
    var all := Indexes.At(n.index, key);
    var remote := Indexes.WithoutName(all, n.name);
    forall r ensures r in remote <==> r in all && r.name != n.name {
      Indexes.WithoutNameCount(all, n.name, r);
      assert r in multiset(remote) <==> r in remote;
      assert r in multiset(all) <==> r in all;
    }
    assert remote != [] ==> remote[0] in remote;
  }

  /** Every listed node that a request may go to is one it does go to, for some choice. */
  lemma AnyListedCanBeChosen(n: Node, q: Request, r: Ref)
    requires r in Indexes.At(n.index, Key(q.uri, q.entryType))
    requires
      || q.mode == Default
      || (q.mode == LocalBetter && r.name != n.name && Key(q.uri, q.entryType) !in n.self.entries)
    ensures exists choice :: DispatchReq(n, q, choice) == Forward(r.name, q.stack + [NodeCaller(n.name)])
  {
    hide Key, Indexes.At, Indexes.WithoutName, ListedElsewhere;
    var key := Key(q.uri, q.entryType);
    RemoteListed(n, key);
    var from := if q.mode == Default then Indexes.At(n.index, key)
      else Indexes.WithoutName(Indexes.At(n.index, key), n.name);
    var i :| 0 <= i < |from| && from[i] == r;
    IndexItself(i, |from|);
    assert DispatchReq(n, q, i) == Forward(r.name, q.stack + [NodeCaller(n.name)]);
  }

  lemma IndexItself(i: nat, n: nat)
    requires i < n
    ensures i % n == i
  {
  }

  /** Every client listed for a key, and every connection of it, is called for some draw. */
  lemma AnyClientCanBeCalled(a: Agent, m: Flight, at: string, c: ClientId, conn: ConnectionId)
    requires
      && c in At(a.board.uris, Key(m.request.uri, m.request.entryType)) && c in a.records && a.records[c].alive
      && conn in a.records[c].connections
    ensures exists d :: CallClient(a, m, at, d).place == AtClient(at, c, conn)
  {
    hide Key, At;
    var list, open := At(a.board.uris, Key(m.request.uri, m.request.entryType)), a.records[c].connections;
    var i :| 0 <= i < |list| && list[i] == c;
    var j :| 0 <= j < |open| && open[j] == conn;
    IndexItself(i, |list|);
    IndexItself(j, |open|);
    PickAt(a.board.uris, Key(m.request.uri, m.request.entryType), i);
    assert CallClient(a, m, at, Draw(0, i, j)).place == AtClient(at, c, conn);
  }

  lemma PickAt(uris: Uris, key: string, i: nat)
    requires i < |At(uris, key)|
    ensures PickClient(uris, key, i) == Picked(At(uris, key)[i])
  {
    IndexItself(i, |At(uris, key)|);
  }
}
