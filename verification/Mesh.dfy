/** A mesh of any number of nodes, each owning entries and following the others, over a network that may
    lose, duplicate, delay and reorder notifies and snapshots: what every run keeps. */
module Mesh {
  import opened Entries
  import opened Replicas
  import opened Indexes
  import opened Nodes
  import opened NodeSteps

  datatype Message =
    | NotifyMsg(from: string, entry: EntryInfo, version: nat)
    | SnapshotMsg(from: string, version: nat, list: seq<EntryInfo>)
    | AliveMsg(from: string, version: nat)

  /** `logs` is each node's history of changes to its own entries; `sent` every message ever sent. A message
      in `sent` may be received by anyone, any number of times, in any order, or never. */
  datatype State = State(nodes: map<string, Node>, logs: Logs, sent: set<Message>)

  datatype Event =
    | Add(at: string, uri: string, entryType: int)
    | Remove(at: string, uri: string, entryType: int)
    | StopNode(at: string)
    | SendNotify(at: string, change: nat)
    | SendSnapshot(at: string, version: nat, list: seq<EntryInfo>)
    | SendAlive(at: string)
    | Meet(at: string, name: string, id: nat)
    | RecvNotify(at: string, ref: Ref, msg: Message)
    | RecvAlive(at: string, ref: Ref, msg: Message)
    | RecvSnapshot(at: string, ref: Ref, msg: Message)
    | EmptySync(at: string, ref: Ref)
    | HelloSync(at: string, ref: Ref, version: nat)
    | RecvGoodbye(at: string, ref: Ref)
    | Expire(at: string, ref: Ref)
    | LastClose(at: string, ref: Ref)
    | NewInstance(at: string, ref: Ref)

  function Init(names: set<string>): State
  {
    State(map p | p in names :: NewNode(p), map p | p in names :: [], {})
  }

  /** What can happen at all. A record only receives what the node of its name sent; a task that broadcasts
      change number `change` may run at any later time; a snapshot's version may have been read earlier
      than its entries; a full-sync call whose channel another call's timeout closed succeeds with nothing; new records
      are new. */
  ghost predicate Enabled(s: State, e: Event)
  {
    && e.at in s.nodes
    && var n := s.nodes[e.at];
       match e
       case Add(_, _, _) | Remove(_, _, _) | StopNode(_) | SendAlive(_) => true
       case SendNotify(at, change) => 0 < change <= |LogOf(s.logs, at)|
       case SendSnapshot(_, version, list) => version <= n.self.version && Enumerates(list, n.self.entries)
       case Meet(_, name, id) => Ref(name, id) !in n.peers
       case RecvNotify(_, r, m) => r in n.peers && m in s.sent && m.NotifyMsg? && m.from == r.name
       case RecvAlive(_, r, m) => r in n.peers && m in s.sent && m.AliveMsg? && m.from == r.name
       case RecvSnapshot(_, r, m) => r in n.peers && m in s.sent && m.SnapshotMsg? && m.from == r.name
       case HelloSync(_, _, _) | EmptySync(_, _) | RecvGoodbye(_, _) | Expire(_, _) | LastClose(_, _)
         | NewInstance(_, _) => e.ref in n.peers
  }

  /** What messages must be for replicas to be trusted: a change is broadcast before the next one is made, a snapshot
      is read in one piece, and a peer's instance changes only before anything was learnt from it. */
  predicate Truthful(s: State, e: Event)
  {
    && e.at in s.nodes
    && var n := s.nodes[e.at];
       match e
       case SendNotify(at, change) => at in s.logs && change == |s.logs[at]|
       case SendSnapshot(_, version, _) => version == n.self.version
       case NewInstance(_, r) => r in n.peers && n.peers[r].entries == map[]
       case _ => true
  }

  /** What the index needs besides: a full-sync reply, a goodbye, a timeout or a last close is handled while its record
      is still the one registered under its name. */
  predicate Timely(s: State, e: Event)
  {
    e.at in s.nodes &&
    (e.RecvSnapshot? || e.EmptySync? || e.RecvGoodbye? || e.Expire? || e.LastClose? ==> Current(s.nodes[e.at], e.ref))
  }

  ghost function Next(s: State, e: Event): State
    requires Enabled(s, e)
  {
    var n := s.nodes[e.at];
    var log := LogOf(s.logs, e.at);
    match e
    case Add(at, uri, t) =>
      s.(nodes := s.nodes[at := AddEntry(n, uri, t)], logs := s.logs[at := AddLog(n, log, uri, t)])
    case Remove(at, uri, t) =>
      s.(nodes := s.nodes[at := RemoveEntry(n, uri, t)], logs := s.logs[at := RemoveLog(log, uri, t)])
    case StopNode(at) => s.(nodes := s.nodes[at := Stop(n)])
    case SendNotify(at, change) => s.(sent := s.sent + {NotifyMsg(at, log[change - 1], n.self.version)})
    case SendSnapshot(at, version, list) => s.(sent := s.sent + {SnapshotMsg(at, version, list)})
    case SendAlive(at) => s.(sent := s.sent + {AliveMsg(at, n.sequence)})
    case Meet(at, name, id) => s.(nodes := s.nodes[at := Learn(n, name, id)])
    case RecvNotify(at, r, m) => s.(nodes := s.nodes[at := Notify(n, r, [m.entry], m.version)])
    case RecvAlive(at, r, m) => s.(nodes := s.nodes[at := KeepAlive(n, r, m.version)])
    case RecvSnapshot(at, r, m) => s.(nodes := s.nodes[at := SyncReply(n, r, m.list, m.version)])
    case EmptySync(at, r) => s.(nodes := s.nodes[at := SyncReply(n, r, [], 0)])
    case HelloSync(at, r, version) => s.(nodes := s.nodes[at := StartSync(n, r, version)])
    case RecvGoodbye(at, r) => s.(nodes := s.nodes[at := Goodbye(n, r)])
    case Expire(at, r) => s.(nodes := s.nodes[at := DeleteNode(n, r)])
    case LastClose(at, r) => s.(nodes := s.nodes[at := CloseLast(n, r)])
    case NewInstance(at, r) => s.(nodes := s.nodes[at := ResetInstance(n, r)])
  }

  // ---- Runs ----

  /** Events that are possible at all, with no hypothesis. */
  ghost predicate Possible(s: State, run: seq<Event>)
    decreases run
  {
    run != [] ==> Enabled(s, run[0]) && Possible(Next(s, run[0]), run[1..])
  }

  ghost function Exec(s: State, run: seq<Event>): State
    requires Possible(s, run)
    decreases run
  {
    if run == [] then s else Exec(Next(s, run[0]), run[1..])
  }

  ghost predicate AllTruthful(s: State, run: seq<Event>)
    requires Possible(s, run)
    decreases run
  {
    run != [] ==> Truthful(s, run[0]) && AllTruthful(Next(s, run[0]), run[1..])
  }

  ghost predicate AllTimely(s: State, run: seq<Event>)
    requires Possible(s, run)
    decreases run
  {
    run != [] ==> Timely(s, run[0]) && AllTimely(Next(s, run[0]), run[1..])
  }

  /** A run that keeps both hypotheses. */
  ghost predicate Legal(s: State, run: seq<Event>)
  {
    Possible(s, run) && AllTruthful(s, run) && AllTimely(s, run)
  }

  /** A run goes on where it ended. */
  lemma {:induction false} Concat(s: State, first: seq<Event>, rest: seq<Event>)
    requires Possible(s, first) && Possible(Exec(s, first), rest)
    ensures Possible(s, first + rest) && Exec(s, first + rest) == Exec(Exec(s, first), rest)
    ensures AllTruthful(s, first) && AllTruthful(Exec(s, first), rest) ==> AllTruthful(s, first + rest)
    ensures AllTimely(s, first) && AllTimely(Exec(s, first), rest) ==> AllTimely(s, first + rest)
    decreases first
  {
    hide Enabled, Next, Truthful, Timely;
    if first == [] {
      assert first + rest == rest;
    } else {
      Concat(Next(s, first[0]), first[1..], rest);
      assert (first + rest)[1..] == first[1..] + rest;
    }
  }

  // ---- Single steps, for runs that are written out ----

  lemma One(s: State, a: Event)
    requires Enabled(s, a)
    ensures Possible(s, [a]) && Exec(s, [a]) == Next(s, a)
    ensures Truthful(s, a) ==> AllTruthful(s, [a])
    ensures Timely(s, a) ==> AllTimely(s, [a])
  {
    hide Enabled, Next, Truthful, Timely;
    assert [a][1..] == [];
  }

  lemma Two(s: State, a: Event, b: Event)
    requires Enabled(s, a) && Enabled(Next(s, a), b)
    ensures Possible(s, [a, b]) && Exec(s, [a, b]) == Next(Next(s, a), b)
    ensures Truthful(s, a) && Truthful(Next(s, a), b) ==> AllTruthful(s, [a, b])
    ensures Timely(s, a) && Timely(Next(s, a), b) ==> AllTimely(s, [a, b])
  {
    hide Enabled, Next, Truthful, Timely;
    assert [a, b][1..] == [b];
    One(Next(s, a), b);
  }

  lemma Three(s: State, a: Event, b: Event, c: Event)
    requires Enabled(s, a) && Enabled(Next(s, a), b) && Enabled(Next(Next(s, a), b), c)
    ensures Possible(s, [a, b, c]) && Exec(s, [a, b, c]) == Next(Next(Next(s, a), b), c)
  {
    hide Enabled, Next, Truthful, Timely;
    assert [a, b, c][1..] == [b, c];
    Two(Next(s, a), b, c);
  }

  lemma Sends(s: State, p: string, change: nat, version: nat, list: seq<EntryInfo>)
    requires p in s.nodes
    ensures 0 < change <= |LogOf(s.logs, p)| ==>
      && Enabled(s, SendNotify(p, change))
      && Next(s, SendNotify(p, change)) ==
           s.(sent := s.sent + {NotifyMsg(p, LogOf(s.logs, p)[change - 1], s.nodes[p].self.version)})
    ensures version <= s.nodes[p].self.version && Enumerates(list, s.nodes[p].self.entries) ==>
      && Enabled(s, SendSnapshot(p, version, list))
      && Next(s, SendSnapshot(p, version, list)) == s.(sent := s.sent + {SnapshotMsg(p, version, list)})
      && (version == s.nodes[p].self.version ==> Truthful(s, SendSnapshot(p, version, list)))
    ensures Enabled(s, SendAlive(p)) && Next(s, SendAlive(p)) == s.(sent := s.sent + {AliveMsg(p, s.nodes[p].sequence)})
  {
    hide Enumerates;
  }

  lemma Receives(s: State, f: string, r: Ref, m: Message)
    requires f in s.nodes && r in s.nodes[f].peers && m in s.sent && m.from == r.name
    ensures m.NotifyMsg? ==>
      && Enabled(s, RecvNotify(f, r, m))
      && Next(s, RecvNotify(f, r, m)) == s.(nodes := s.nodes[f := Notify(s.nodes[f], r, [m.entry], m.version)])
    ensures m.SnapshotMsg? ==>
      && Enabled(s, RecvSnapshot(f, r, m))
      && Next(s, RecvSnapshot(f, r, m)) == s.(nodes := s.nodes[f := SyncReply(s.nodes[f], r, m.list, m.version)])
      && (Current(s.nodes[f], r) ==> Timely(s, RecvSnapshot(f, r, m)))
    ensures m.AliveMsg? ==>
      && Enabled(s, RecvAlive(f, r, m))
      && Next(s, RecvAlive(f, r, m)) == s.(nodes := s.nodes[f := KeepAlive(s.nodes[f], r, m.version)])
  {
    hide Notify, SyncReply, KeepAlive;
  }

  function Exchange(s: State, f: string, r: Ref, list: seq<EntryInfo>): seq<Event>
    requires r.name in s.nodes
  {
    var version := s.nodes[r.name].self.version;
    [SendSnapshot(r.name, version, list), RecvSnapshot(f, r, SnapshotMsg(r.name, version, list))]
  }

  /** A snapshot read in one piece, sent and received. */
  lemma ExchangeRun(s: State, f: string, r: Ref, list: seq<EntryInfo>)
    requires f in s.nodes && r in s.nodes[f].peers && r.name in s.nodes
    requires Enumerates(list, s.nodes[r.name].self.entries)
    ensures
      var run := Exchange(s, f, r, list);
      && Possible(s, run) && AllTruthful(s, run) && (Current(s.nodes[f], r) ==> AllTimely(s, run))
      && Exec(s, run).nodes == s.nodes[f := SyncReply(s.nodes[f], r, list, s.nodes[r.name].self.version)]
      && Exec(s, run).logs == s.logs
  {
    hide Enabled, Next, Enumerates, SyncReply, Possible, Exec;
    var version := s.nodes[r.name].self.version;
    Sends(s, r.name, 0, version, list);
    var s1 := Next(s, SendSnapshot(r.name, version, list));
    Receives(s1, f, r, SnapshotMsg(r.name, version, list));
    Two(s, SendSnapshot(r.name, version, list), RecvSnapshot(f, r, SnapshotMsg(r.name, version, list)));
  }

  // ---- What a node keeps about its own entries, in every run ----

  ghost predicate OwnAt(s: State, p: string)
    requires p in s.nodes
  {
    s.nodes[p].name == p && Own(s.nodes[p], LogOf(s.logs, p))
  }

  ghost predicate OwnInv(s: State)
  {
    s.logs.Keys == s.nodes.Keys && forall p :: p in s.nodes ==> OwnAt(s, p)
  }

  /** What an event adds to the history of the node it happens at. */
  ghost function Added(s: State, e: Event): seq<EntryInfo>
    requires e.at in s.nodes
  {
    match e
    case Add(at, uri, t) => if Accepts(s.nodes[at], uri, t) then [EntryInfo(uri, t, true)] else []
    case Remove(_, uri, t) => [EntryInfo(uri, t, false)]
    case _ => []
  }

  /** A step changes one node, and its history by at most one change. */
  lemma NextShape(s: State, e: Event)
    requires Enabled(s, e) && s.logs.Keys == s.nodes.Keys
    ensures
      var s' := Next(s, e);
      && e.at in s.nodes && s'.nodes.Keys == s.nodes.Keys
      && (forall p :: p in s.nodes && p != e.at ==> s'.nodes[p] == s.nodes[p])
      && s'.logs == s.logs[e.at := LogOf(s.logs, e.at) + Added(s, e)]
      && s.sent <= s'.sent
  {
    hide AddEntry, RemoveEntry, Stop, Learn, Notify, SyncReply, Enumerates, StartSync, KeepAlive, Goodbye, Key;
    assert s.logs[e.at := LogOf(s.logs, e.at)] == s.logs;
    assert LogOf(s.logs, e.at) + [] == LogOf(s.logs, e.at);
  }

  lemma OwnerOwn(s: State, e: Event)
    requires OwnInv(s) && Enabled(s, e) && (e.Add? || e.Remove? || e.StopNode? || e.Meet?)
    ensures OwnAt(Next(s, e), e.at)
  {
    hide Own, Key, Append, DropName, DeleteKeys, ModifyEntry;
    assert OwnAt(s, e.at);
    var n, log := s.nodes[e.at], LogOf(s.logs, e.at);
    match e
    case Add(at, uri, t) => AddEntryOwn(n, log, uri, t);
    case Remove(at, uri, t) => RemoveEntryOwn(n, log, uri, t);
    case StopNode(at) => StopOwn(n, log);
    case Meet(at, name, id) => LearnOwn(n, log, name, id);
  }

  lemma SameIndex(ix: Index, name: string)
    ensures SameOutside(ix, ix, Named(name))
  {
  }

  /** The events that are about a record of another node. */
  predicate OfRecord(e: Event)
  {
    e.RecvNotify? || e.RecvAlive? || e.RecvSnapshot? || e.EmptySync? || e.HelloSync? || e.RecvGoodbye? || e.Expire?
    || e.LastClose? || e.NewInstance?
  }

  /** They leave the node's own record alone, and the listing of every other name. */
  lemma RecordElsewhere(s: State, e: Event)
    requires Enabled(s, e) && OfRecord(e)
    ensures
      var n, n' := s.nodes[e.at], Next(s, e).nodes[e.at];
      && n'.name == n.name && n'.self == n.self && n'.sequence == n.sequence && n'.peers.Keys == n.peers.Keys
      && e.ref in n.peers && SameOutside(n.index, n'.index, Named(e.ref.name))
      && forall q :: q in n.peers && q != e.ref ==> n'.peers[q] == n.peers[q]
  {
    hide SameOutside, ApplyChanges, AddEntries, DeleteKeys, ModifyEntry, SyncEntry;
    var n := s.nodes[e.at];
    SameIndex(n.index, e.ref.name);
    match e {
      case RecvNotify(_, r, m) => NotifyElsewhere(n, r, [m.entry], m.version);
      case RecvSnapshot(_, r, m) => SyncReplyElsewhere(n, r, m.list, m.version);
      case EmptySync(_, r) => SyncReplyElsewhere(n, r, [], 0);
      case RecvGoodbye(_, r) => GoodbyeElsewhere(n, r);
      case Expire(_, r) => GoodbyeElsewhere(n, r);
      case _ =>
    }
  }

  lemma PeerOwn(s: State, e: Event)
    requires OwnInv(s) && Enabled(s, e) && OfRecord(e)
    ensures OwnAt(Next(s, e), e.at)
  {
    hide Own, SameOutside, Enabled, Next;
    NextShape(s, e);
    AtNode(s, e.at);
    RecordElsewhere(s, e);
    assert LogOf(s.logs, e.at) + [] == LogOf(s.logs, e.at);
    PeerStepOwn(s.nodes[e.at], Next(s, e).nodes[e.at], LogOf(s.logs, e.at), e.ref);
  }

  /** Every step that is possible at all keeps every node's own entries in order. */
  lemma OwnStep(s: State, e: Event)
    requires OwnInv(s) && Enabled(s, e)
    ensures OwnInv(Next(s, e))
  {
    hide Own, Enabled, Next;
    NextShape(s, e);
    match e {
      case Add(_, _, _) | Remove(_, _, _) | StopNode(_) | Meet(_, _, _) => OwnerOwn(s, e);
      case SendNotify(_, _) | SendSnapshot(_, _, _) | SendAlive(_) => SendChangesNoNode(s, e); assert OwnAt(s, e.at);
      case _ => PeerOwn(s, e);
    }
    var s' := Next(s, e);
    forall p | p in s'.nodes ensures OwnAt(s', p) {
      assert OwnAt(s, p);
      assert p != e.at ==> LogOf(s'.logs, p) == LogOf(s.logs, p);
    }
  }

  lemma SendChangesNoNode(s: State, e: Event)
    requires Enabled(s, e) && (e.SendNotify? || e.SendSnapshot? || e.SendAlive?)
    ensures Next(s, e).nodes == s.nodes && Next(s, e).logs == s.logs
  {
    hide Enumerates;
  }

  // ---- What records of other nodes hold, in every truthful run ----

  /** A message tells the truth about its sender's history. */
  ghost predicate Faithful(m: Message, logs: Logs)
  {
    var log := LogOf(logs, m.from);
    match m
    case NotifyMsg(_, e, v) => 0 < v <= |log| && e == log[v - 1]
    case SnapshotMsg(_, v, list) => v <= |log| && Enumerates(list, EntriesAt(log, v))
    case AliveMsg(_, v) => v <= |log|
  }

  ghost predicate PrefixInv(s: State)
  {
    && OwnInv(s)
    && (forall p :: p in s.nodes ==> Prefixes(s.nodes[p].peers, s.logs))
    && (forall m :: m in s.sent ==> Faithful(m, s.logs))
  }

  lemma FaithfulGrows(m: Message, logs: Logs, p: string, added: seq<EntryInfo>)
    requires Faithful(m, logs)
    ensures Faithful(m, logs[p := LogOf(logs, p) + added])
  {
    hide Enumerates;
    if m.from == p && m.SnapshotMsg? {
      assert (LogOf(logs, p) + added)[..m.version] == LogOf(logs, p)[..m.version];
    }
  }

  lemma PrefixesGrow(peers: map<Ref, Replica>, logs: Logs, p: string, added: seq<EntryInfo>)
    requires Prefixes(peers, logs)
    ensures Prefixes(peers, logs[p := LogOf(logs, p) + added])
  {
    hide EntriesAt;
    forall r | r in peers ensures Prefix(peers[r], LogOf(logs[p := LogOf(logs, p) + added], r.name)) {
      if r.name == p {
        GrowthPrefix(peers[r], LogOf(logs, p), added);
      }
    }
  }

  lemma OneRecord(peers: map<Ref, Replica>, logs: Logs, r: Ref, rep: Replica)
    requires Prefixes(peers, logs) && Prefix(rep, LogOf(logs, r.name))
    ensures Prefixes(peers[r := rep], logs)
  {
    hide Prefix;
  }

  /** What a node receives keeps its records true. */
  lemma MessagePrefix(s: State, e: Event)
    requires PrefixInv(s) && Enabled(s, e) && (e.RecvNotify? || e.RecvSnapshot?)
    ensures Prefixes(Next(s, e).nodes[e.at].peers, s.logs)
  {
    hide OwnInv, EntriesAt, ApplyAll, ApplyChanges, AddEntries, DeleteKeys, Enumerates, Effective, Prefix;
    var n, log := s.nodes[e.at], LogOf(s.logs, e.ref.name);
    assert Prefixes(n.peers, s.logs) && Faithful(e.msg, s.logs);
    match e
    case RecvNotify(_, r, m) =>
      if n.peers[r].status == Alive {
        NotifyPrefix(n.peers[r], log, m.entry, m.version);
        OneRecord(n.peers, s.logs, r, ModifyEntry(n.peers[r], [m.entry], m.version).replica);
      }
    case RecvSnapshot(_, r, m) =>
      SnapshotPrefixIff(n.peers[r], log, m.list, EntriesAt(log, m.version), m.version);
      OneRecord(n.peers, s.logs, r, SyncEntry(n.peers[r], m.list, m.version));
  }

  lemma EmptyReply(n: Node, r: Ref)
    requires r in n.peers
    ensures SyncReply(n, r, [], 0).peers == n.peers[r := Replica(Alive, 0, map[])]
  {
  }

  /** Nothing a record's version and entries depend on changes with its status. */
  lemma StatusPrefixes(peers: map<Ref, Replica>, logs: Logs, r: Ref, status: Status)
    requires Prefixes(peers, logs) && r in peers
    ensures Prefixes(peers[r := peers[r].(status := status)], logs) && Prefixes(peers[r := peers[r]], logs)
  {
    hide EntriesAt;
    OneRecord(peers, logs, r, peers[r].(status := status));
    OneRecord(peers, logs, r, peers[r]);
  }

  lemma OwnChangesNoRecord(n: Node, uri: string, t: int)
    ensures AddEntry(n, uri, t).peers == n.peers && RemoveEntry(n, uri, t).peers == n.peers && Stop(n).peers == n.peers
  {
  }

  lemma RecordPrefix(s: State, e: Event)
    requires PrefixInv(s) && Enabled(s, e) && Truthful(s, e)
    ensures Prefixes(Next(s, e).nodes[e.at].peers, s.logs)
  {
    hide OwnInv, Prefixes, Enumerates, Faithful, AddEntry, RemoveEntry, Notify, SyncReply, DeleteKeys, Key;
    var n := s.nodes[e.at];
    assert Prefixes(n.peers, s.logs);
    match e {
      case Add(_, uri, t) => OwnChangesNoRecord(n, uri, t);
      case Remove(_, uri, t) => OwnChangesNoRecord(n, uri, t);
      case Meet(_, name, id) =>
        EmptyPrefix(LogOf(s.logs, name));
        OneRecord(n.peers, s.logs, Ref(name, id), Replica(Alive, 0, map[]));
      case RecvNotify(_, _, _) | RecvSnapshot(_, _, _) => MessagePrefix(s, e);
      case EmptySync(_, r) =>
        EmptyPrefix(LogOf(s.logs, r.name));
        EmptyReply(n, r);
        OneRecord(n.peers, s.logs, r, Replica(Alive, 0, map[]));
      case HelloSync(_, _, _) | RecvAlive(_, _, _) => StatusPrefixes(n.peers, s.logs, e.ref, Syncing);
      case RecvGoodbye(_, _) | Expire(_, _) => StatusPrefixes(n.peers, s.logs, e.ref, Dead);
      case NewInstance(_, r) =>
        ResetPrefixIff(n.peers[r], LogOf(s.logs, r.name));
        OneRecord(n.peers, s.logs, r, n.peers[r].(version := 0));
      case _ =>
    }
  }

  /** Under Truthful, what is sent is true. */
  lemma SentFaithful(s: State, e: Event, m: Message)
    requires OwnInv(s) && Enabled(s, e) && Truthful(s, e) && m in Next(s, e).sent && m !in s.sent
    ensures Faithful(m, s.logs)
  {
    hide EntriesAt, Enumerates, OwnListed, Guarded, Foreign, OwnInv, Occ, AddEntry, RemoveEntry;
    assert OwnAt(s, e.at) by { AtNode(s, e.at); }
  }

  lemma AtNode(s: State, p: string)
    requires OwnInv(s) && p in s.nodes
    ensures p in s.logs && OwnAt(s, p)
  {
  }

  lemma NotOneself(s: State, f: string, r: Ref)
    requires OwnInv(s) && f in s.nodes && r in s.nodes[f].peers
    ensures f != r.name && s.nodes[f].name == f
  {
    hide LockStep, OwnListed;
    AtNode(s, f);
  }

  /** A node serves what its whole history adds up to. */
  lemma ServedHere(s: State, p: string)
    requires OwnInv(s) && p in s.nodes
    ensures s.nodes[p].self.entries == EntriesAt(LogOf(s.logs, p), |LogOf(s.logs, p)|)
    ensures s.nodes[p].self.version == s.nodes[p].sequence == |LogOf(s.logs, p)| && s.nodes[p].name == p
  {
    hide EntriesAt, Guarded, OwnListed;
    AtNode(s, p);
  }

  lemma PrefixStep(s: State, e: Event)
    requires PrefixInv(s) && Enabled(s, e) && Truthful(s, e)
    ensures PrefixInv(Next(s, e))
  {
    hide OwnInv, Enabled, Next, Truthful, Faithful, Prefixes, Added;
    OwnStep(s, e);
    KeysAgree(s);
    NextShape(s, e);
    RecordPrefix(s, e);
    var s' := Next(s, e);
    forall p | p in s.nodes ensures Prefixes(s'.nodes[p].peers, s'.logs) {
      PrefixesGrow(s'.nodes[p].peers, s.logs, e.at, Added(s, e));
    }
    forall m | m in s'.sent ensures Faithful(m, s'.logs) {
      if m !in s.sent {
        SentFaithful(s, e, m);
      }
      FaithfulGrows(m, s.logs, e.at, Added(s, e));
    }
  }

  lemma KeysAgree(s: State)
    requires OwnInv(s)
    ensures s.logs.Keys == s.nodes.Keys
  {
  }

  // ---- The index as well, in every legal run ----

  ghost predicate Inv(s: State)
  {
    PrefixInv(s) && forall p :: p in s.nodes ==> Indexed(s.nodes[p])
  }

  lemma MessageIndexed(s: State, e: Event)
    requires Inv(s) && Enabled(s, e) && Timely(s, e) && (e.RecvNotify? || e.RecvSnapshot? || e.RecvAlive?)
    ensures Indexed(Next(s, e).nodes[e.at])
  {
    hide Own, Indexed, EntriesAt, Enumerates, ModifyEntry, ApplyChanges, SyncEntry, AddEntries, DeleteKeys;
    var n, log := s.nodes[e.at], LogOf(s.logs, e.ref.name);
    assert Indexed(n) && Prefixes(n.peers, s.logs) && Faithful(e.msg, s.logs);
    match e
    case RecvNotify(at, r, m) =>
      SenderIsGuarded(s, r.name);
      NotifyIndexed(n, r, log, m.entry, m.version);
    case RecvSnapshot(at, r, m) => SyncReplyIndexed(n, r, m.list, EntriesAt(log, m.version), m.version);
    case RecvAlive(at, r, m) => StartSyncIndexed(n, r, m.version);
  }

  lemma SenderIsGuarded(s: State, p: string)
    requires OwnInv(s)
    ensures Guarded(LogOf(s.logs, p))
  {
    hide EntriesAt, KeyOf, OwnListed;
    if p in s.logs {
      assert OwnAt(s, p);
    }
  }

  lemma NothingNamed()
    ensures Enumerates([], map[])
  {
  }

  lemma StepIndexed(s: State, e: Event)
    requires Inv(s) && Enabled(s, e) && Timely(s, e)
    ensures Indexed(Next(s, e).nodes[e.at])
  {
    hide PrefixInv, Indexed, ModifyEntry, SyncEntry, Append, DropName, DeleteKeys, Key, Enumerates;
    var n := s.nodes[e.at];
    assert Indexed(n);
    assert Enumerates([], map[]) by { NothingNamed(); }
    match e {
      case Add(at, uri, t) => AddEntryIndexed(n, uri, t);
      case Remove(at, uri, t) => RemoveEntryIndexed(n, uri, t);
      case StopNode(at) => StopIndexed(n);
      case Meet(at, name, id) => LearnIndexed(n, name, id);
      case HelloSync(at, r, version) => StartSyncIndexed(n, r, version);
      case EmptySync(at, r) => SyncReplyIndexed(n, r, [], map[], 0);
      case RecvGoodbye(at, r) => GoodbyeIndexed(n, r);
      case Expire(at, r) => GoodbyeIndexed(n, r);
      case LastClose(at, r) => CloseLastIndexed(n, r);
      case NewInstance(at, r) => ResetIndexed(n, r);
      case RecvNotify(_, _, _) | RecvAlive(_, _, _) | RecvSnapshot(_, _, _) => MessageIndexed(s, e);
      case _ =>
    }
  }

  lemma StepInv(s: State, e: Event)
    requires Inv(s) && Enabled(s, e) && Truthful(s, e) && Timely(s, e)
    ensures Inv(Next(s, e))
  {
    hide OwnInv, Enabled, Truthful, Timely, Next, Indexed, Prefixes, Faithful;
    PrefixStep(s, e);
    KeysAgree(s);
    NextShape(s, e);
    StepIndexed(s, e);
  }

  // ---- Every run ----

  lemma InitInv(names: set<string>)
    ensures Inv(Init(names))
  {
    hide KeyOf;
    forall p | p in names ensures OwnAt(Init(names), p) && Indexed(Init(names).nodes[p]) {
      FreshNode(p);
    }
  }

  lemma FreshNode(p: string)
    ensures Own(NewNode(p), []) && Indexed(NewNode(p))
  {
  }

  /** Every run whatsoever keeps every node's own entries in order; a truthful one also every record of another node;
      a truthful and timely one also the index. */
  lemma {:induction false} RunInv(s: State, run: seq<Event>)
    requires OwnInv(s) && Possible(s, run)
    ensures OwnInv(Exec(s, run))
    ensures PrefixInv(s) && AllTruthful(s, run) ==> PrefixInv(Exec(s, run))
    ensures Inv(s) && Legal(s, run) ==> Inv(Exec(s, run))
    decreases run
  {
    hide OwnInv, PrefixInv, Indexed, Enabled, Truthful, Timely, Next;
    if run != [] {
      OwnStep(s, run[0]);
      if PrefixInv(s) && Truthful(s, run[0]) {
        PrefixStep(s, run[0]);
        if Inv(s) && Timely(s, run[0]) {
          StepInv(s, run[0]);
        }
      }
      RunInv(Next(s, run[0]), run[1..]);
    }
  }

  /** The state a run from a fresh mesh ends in. */
  ghost function Reached(names: set<string>, run: seq<Event>): State
    requires Possible(Init(names), run)
  {
    Exec(Init(names), run)
  }

  lemma ReachedInv(names: set<string>, run: seq<Event>)
    requires Possible(Init(names), run)
    ensures OwnInv(Reached(names, run))
    ensures AllTruthful(Init(names), run) ==> PrefixInv(Reached(names, run))
    ensures Legal(Init(names), run) ==> Inv(Reached(names, run))
  {
    hide OwnInv, Prefixes, Indexed, Faithful;
    InitInv(names);
    RunInv(Init(names), run);
  }
}
