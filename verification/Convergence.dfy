/** Repair once an owner stops changing, and what each hypothesis of the mesh is needed for. */
module Convergence {
  import opened Entries
  import opened Replicas
  import opened Indexes
  import opened Nodes
  import opened NodeSteps
  import opened Mesh

  /** One keepalive from the owner and, if it asks for one, one completed full sync. */
  function Round(n: Node, r: Ref, owner: Node, list: seq<EntryInfo>): Node
    requires r in n.peers
  {
    var asked := KeepAlive(n, r, owner.sequence);
    if n.peers[r].version == owner.sequence then asked
    else SyncReply(asked, r, list, owner.self.version)
  }

  /** The keepalive as events of the mesh. */
  function Kept(s: State, f: string, r: Ref): seq<Event>
    requires r.name in s.nodes
  {
    [SendAlive(r.name), RecvAlive(f, r, AliveMsg(r.name, s.nodes[r.name].sequence))]
  }

  function RoundRun(s: State, f: string, r: Ref, list: seq<EntryInfo>): seq<Event>
    requires f in s.nodes && r in s.nodes[f].peers && r.name in s.nodes
  {
    Kept(s, f, r) + if s.nodes[f].peers[r].version == s.nodes[r.name].sequence then [] else Exchange(s, f, r, list)
  }

  lemma RoundIsRun(s: State, f: string, r: Ref, list: seq<EntryInfo>)
    requires OwnInv(s) && f in s.nodes && r in s.nodes[f].peers && r.name in s.nodes
    requires s.nodes[f].peers[r].status != Dead && Enumerates(list, s.nodes[r.name].self.entries)
    ensures
      var run := RoundRun(s, f, r, list);
      && Possible(s, run) && AllTruthful(s, run) && (Current(s.nodes[f], r) ==> AllTimely(s, run))
      && Exec(s, run).nodes == s.nodes[f := Round(s.nodes[f], r, s.nodes[r.name], list)] && Exec(s, run).logs == s.logs
  {
    hide Enumerates, Own, SyncReply, Enabled, Next, Possible, Exec, AllTruthful, AllTimely;
    NotOneself(s, f, r);
    var kept := Kept(s, f, r);
    KeptRun(s, f, r);
    var s2 := Exec(s, kept);
    if s.nodes[f].peers[r].version == s.nodes[r.name].sequence {
      assert kept + [] == kept;
    } else {
      ExchangeRun(s2, f, r, list);
      Concat(s, kept, Exchange(s2, f, r, list));
    }
  }

  lemma KeptRun(s: State, f: string, r: Ref)
    requires f in s.nodes && r in s.nodes[f].peers && r.name in s.nodes
    ensures
      var run := Kept(s, f, r);
      && Possible(s, run) && AllTruthful(s, run) && AllTimely(s, run)
      && Exec(s, run).nodes == s.nodes[f := KeepAlive(s.nodes[f], r, s.nodes[r.name].sequence)]
      && Exec(s, run).logs == s.logs
  {
    hide Enabled, Next, KeepAlive, Possible, Exec;
    var alive := AliveMsg(r.name, s.nodes[r.name].sequence);
    Sends(s, r.name, 0, 0, []);
    Receives(Next(s, SendAlive(r.name)), f, r, alive);
    Two(s, SendAlive(r.name), RecvAlive(f, r, alive));
  }

  /** After any run with truthful messages, one round makes a record that is not dead, registered or replaced, hold what
      its owner serves, at the owner's version, and further keepalives change nothing. The record is live afterwards
      exactly if it was live or behind: a record that fell to syncing without falling behind is not repaired. */
  lemma RoundConverges(s: State, f: string, r: Ref, list: seq<EntryInfo>)
    requires PrefixInv(s) && f in s.nodes && r in s.nodes[f].peers && r.name in s.nodes
    requires s.nodes[f].peers[r].status != Dead && Enumerates(list, s.nodes[r.name].self.entries)
    ensures
      var n, owner := s.nodes[f], s.nodes[r.name];
      var n' := Round(n, r, owner, list);
      && r in n'.peers
      && n'.peers[r].version == owner.self.version && n'.peers[r].entries == owner.self.entries
      && (n'.peers[r].status == Alive <==> n.peers[r].status == Alive || n.peers[r].version != owner.sequence)
      && KeepAlive(n', r, owner.sequence) == n'
  {
    hide EntriesAt, Enumerates, OwnListed, Guarded, Foreign, AddEntries, DeleteKeys, ApplyAll, Faithful;
    AtNode(s, r.name);
    assert Prefixes(s.nodes[f].peers, s.logs);
    SnapshotRebuilds(list, s.nodes[r.name].self.entries);
    var n' := Round(s.nodes[f], r, s.nodes[r.name], list);
    assert n'.peers[r := n'.peers[r]] == n'.peers;
  }

  /** And if the index was in order and the record is the registered one, it is then listed for exactly those keys. */
  lemma RoundListed(s: State, f: string, r: Ref, list: seq<EntryInfo>)
    requires Inv(s) && f in s.nodes && r in s.nodes[f].peers && r.name in s.nodes && Current(s.nodes[f], r)
    requires s.nodes[f].peers[r].status != Dead && Enumerates(list, s.nodes[r.name].self.entries)
    requires s.nodes[f].peers[r].status == Alive || s.nodes[f].peers[r].version != s.nodes[r.name].sequence
    ensures
      var owner := s.nodes[r.name];
      var n' := Round(s.nodes[f], r, owner, list);
      Indexed(n') && forall k :: Occ(n'.index, k, r) == if k in owner.self.entries then 1 else 0
  {
    hide Occ, Enumerates, OwnInv, Prefixes, Faithful, Registered, Retired, Round;
    RoundConverges(s, f, r, list);
    RoundIsRun(s, f, r, list);
    var run := RoundRun(s, f, r, list);
    assert Legal(s, run);
    RunInv(s, run);
    assert Indexed(Exec(s, run).nodes[f]);
    var n' := Round(s.nodes[f], r, s.nodes[r.name], list);
    assert Indexed(n') && Listed(n'.index, r, n'.peers[r]);
  }

  // ---- Once the owner has stopped changing, over whole runs ----

  /** The record is at its owner's latest version. */
  ghost predicate Caught(s: State, f: string, r: Ref)
  {
    f in s.nodes && r in s.nodes[f].peers && s.nodes[f].peers[r].version == |LogOf(s.logs, r.name)|
  }

  /** The owner accepts no change. */
  ghost predicate Quiet(s: State, run: seq<Event>, p: string)
    requires Possible(s, run)
    decreases run
  {
    run != [] ==> (run[0].at == p ==> Added(s, run[0]) == []) && Quiet(Next(s, run[0]), run[1..], p)
  }

  /** The steps that take a version away from a record: an older snapshot, an empty one, a change of instance. */
  predicate Regresses(s: State, e: Event, f: string, r: Ref)
  {
    && e.at == f && f in s.nodes && r in s.nodes[f].peers
    && var v := s.nodes[f].peers[r].version;
       match e
       case RecvSnapshot(_, q, m) => q == r && m.version != v
       case EmptySync(_, q) => q == r && v != 0
       case NewInstance(_, q) => q == r && v != 0
       case _ => false
  }

  ghost predicate Steady(s: State, run: seq<Event>, f: string, r: Ref)
    requires Possible(s, run)
    decreases run
  {
    run != [] ==> !Regresses(s, run[0], f, r) && Steady(Next(s, run[0]), run[1..], f, r)
  }

  ghost predicate CaughtThroughout(s: State, run: seq<Event>, f: string, r: Ref)
    requires Possible(s, run)
    decreases run
  {
    Caught(s, f, r) && (run != [] ==> CaughtThroughout(Next(s, run[0]), run[1..], f, r))
  }

  /** A true notify carries no version beyond its sender's history, so it moves no record that is up to date. */
  lemma NotifyMovesNothing(rep: Replica, log: seq<EntryInfo>, e: EntryInfo, version: nat)
    requires rep.version == |log| && version <= |log|
    ensures ModifyEntry(rep, [e], version).replica.version == rep.version
  {
  }

  lemma CaughtStep(s: State, e: Event, f: string, r: Ref)
    requires PrefixInv(s) && Enabled(s, e) && Caught(s, f, r) && (e.at == r.name ==> Added(s, e) == [])
    ensures LogOf(Next(s, e).logs, r.name) == LogOf(s.logs, r.name)
    ensures Caught(Next(s, e), f, r) <==> !Regresses(s, e, f, r)
  {
    hide Enabled, Next, OwnInv, Prefixes, Added, Regresses;
    KeysAgree(s);
    NextShape(s, e);
    assert LogOf(s.logs, e.at) + [] == LogOf(s.logs, e.at);
    if e.at == f {
      RecordStep(s, e, r);
    } else {
      ElsewhereKeeps(s, e, f, r);
    }
  }

  lemma ElsewhereKeeps(s: State, e: Event, f: string, r: Ref)
    requires e.at != f
    ensures !Regresses(s, e, f, r)
  {
  }

  lemma TrueVersion(s: State, m: Message)
    requires PrefixInv(s) && m in s.sent
    ensures m.version <= |LogOf(s.logs, m.from)|
  {
    hide OwnInv, Prefixes, Enumerates, EntriesAt;
    assert Faithful(m, s.logs);
  }

  lemma RecordStep(s: State, e: Event, r: Ref)
    requires PrefixInv(s) && Enabled(s, e) && Caught(s, e.at, r)
    ensures
      var n' := Next(s, e).nodes[e.at];
      r in n'.peers && (n'.peers[r].version == |LogOf(s.logs, r.name)| <==> !Regresses(s, e, e.at, r))
  {
    hide OwnInv, Prefixes, ApplyChanges, AddEntries, DeleteKeys, Enumerates, Effective, ApplyAll, Key, EntriesAt;
    hide AddEntry, RemoveEntry, PrefixInv, Faithful;
    var n := s.nodes[e.at];
    match e {
      case Add(_, uri, t) => OwnChangesNoRecord(n, uri, t);
      case Remove(_, uri, t) => OwnChangesNoRecord(n, uri, t);
      case RecvNotify(_, q, m) =>
        TrueVersion(s, m);
        if q == r {
          NotifyMovesNothing(n.peers[r], LogOf(s.logs, r.name), m.entry, m.version);
        }
      case _ =>
    }
  }

  /** Over every truthful run in which the owner accepts no change: a record that is up to date stays so throughout if
      and only if no older snapshot, no empty one and no change of instance is applied to it. Other nodes may do
      anything, and stale notifies and keepalives may arrive at any time. */
  lemma {:induction false} StaysCaughtIff(s: State, run: seq<Event>, f: string, r: Ref)
    requires PrefixInv(s) && Possible(s, run) && AllTruthful(s, run) && Quiet(s, run, r.name) && Caught(s, f, r)
    ensures CaughtThroughout(s, run, f, r) <==> Steady(s, run, f, r)
    ensures Steady(s, run, f, r) ==> Caught(Exec(s, run), f, r)
    decreases run
  {
    hide PrefixInv, Enabled, Next, Truthful, Caught, Regresses, Added;
    if run != [] {
      CaughtStep(s, run[0], f, r);
      PrefixStep(s, run[0]);
      if Regresses(s, run[0], f, r) {
        LostIsShown(Next(s, run[0]), run[1..], f, r);
      } else {
        StaysCaughtIff(Next(s, run[0]), run[1..], f, r);
      }
    }
  }

  lemma {:induction false} LostIsShown(s: State, run: seq<Event>, f: string, r: Ref)
    requires Possible(s, run) && !Caught(s, f, r)
    ensures !CaughtThroughout(s, run, f, r)
  {
    hide Enabled, Next, Caught;
  }

  /** The owner's history does not grow while it is quiet, and every message it sends meanwhile carries its version. */
  lemma {:induction false} QuietOwner(s: State, run: seq<Event>, p: string)
    requires PrefixInv(s) && Possible(s, run) && AllTruthful(s, run) && Quiet(s, run, p)
    ensures LogOf(Exec(s, run).logs, p) == LogOf(s.logs, p)
    ensures forall m :: m in Exec(s, run).sent && m !in s.sent && m.from == p ==> m.version == |LogOf(s.logs, p)|
    decreases run
  {
    hide PrefixInv, Enabled, Next, Truthful, Added;
    if run != [] {
      QuietStep(s, run[0], p);
      PrefixStep(s, run[0]);
      QuietOwner(Next(s, run[0]), run[1..], p);
    }
  }

  lemma QuietStep(s: State, e: Event, p: string)
    requires PrefixInv(s) && Enabled(s, e) && Truthful(s, e) && (e.at == p ==> Added(s, e) == [])
    ensures LogOf(Next(s, e).logs, p) == LogOf(s.logs, p)
    ensures forall m :: m in Next(s, e).sent && m !in s.sent && m.from == p ==> m.version == |LogOf(s.logs, p)|
  {
    hide Prefixes, Faithful, OwnInv, EntriesAt, Enumerates, AddEntry, RemoveEntry, Notify, SyncReply;
    KeysAgree(s);
    NextShape(s, e);
    ServedHere(s, e.at);
    assert LogOf(s.logs, e.at) + [] == LogOf(s.logs, e.at);
  }

  /** From any state with truthful messages in which the owner has stopped changing: whatever happens before (`mid`),
      once the record has taken a snapshot of the owner's version, in particular any that the owner sent since, it is
      up to date after whatever happens next (`rest`), short of an older or empty snapshot or a change of instance: it
      holds what its owner serves, and a keepalive of the owner changes nothing. */
  lemma QuietOwnerConverges(s: State, mid: seq<Event>, f: string, r: Ref, m: Message, rest: seq<Event>)
    requires PrefixInv(s) && r.name in s.nodes
    requires Possible(s, mid) && AllTruthful(s, mid) && Quiet(s, mid, r.name)
    requires Enabled(Exec(s, mid), RecvSnapshot(f, r, m))
    requires m !in s.sent || m.version == |LogOf(s.logs, r.name)|
    requires
      var taken := Next(Exec(s, mid), RecvSnapshot(f, r, m));
      Possible(taken, rest) && AllTruthful(taken, rest) && Quiet(taken, rest, r.name) && Steady(taken, rest, f, r)
    ensures
      var end := Exec(Next(Exec(s, mid), RecvSnapshot(f, r, m)), rest);
      && f in end.nodes && r in end.nodes[f].peers && r.name in end.nodes
        && LogOf(end.logs, r.name) == LogOf(s.logs, r.name)
      && end.nodes[f].peers[r].version == end.nodes[r.name].self.version
      && end.nodes[f].peers[r].entries == end.nodes[r.name].self.entries
      && KeepAlive(end.nodes[f], r, end.nodes[r.name].sequence) == end.nodes[f]
  {
    hide PrefixInv, Next, Possible, Exec, AllTruthful, Quiet, Steady, Truthful, SyncReply, EntriesAt;
    RunKeeps(s, mid);
    QuietOwner(s, mid, r.name);
    var s1, e := Exec(s, mid), RecvSnapshot(f, r, m);
    SnapshotTakes(s1, f, r, m);
    PrefixStep(s1, e);
    var taken := Next(s1, e);
    RunKeeps(taken, rest);
    QuietOwner(taken, rest, r.name);
    StaysCaughtIff(taken, rest, f, r);
    CaughtHoldsAll(Exec(taken, rest), f, r);
  }

  lemma {:induction false} RunKeeps(s: State, run: seq<Event>)
    requires PrefixInv(s) && Possible(s, run) && AllTruthful(s, run)
    ensures PrefixInv(Exec(s, run)) && Exec(s, run).nodes.Keys == s.nodes.Keys
    decreases run
  {
    hide OwnInv, Prefixes, Faithful, Enabled, Next, Truthful;
    if run != [] {
      PrefixStep(s, run[0]);
      KeysAgree(s);
      NextShape(s, run[0]);
      RunKeeps(Next(s, run[0]), run[1..]);
    }
  }

  lemma SnapshotTakes(s: State, f: string, r: Ref, m: Message)
    requires PrefixInv(s) && Enabled(s, RecvSnapshot(f, r, m)) && m.version == |LogOf(s.logs, r.name)|
    ensures
      var s' := Next(s, RecvSnapshot(f, r, m));
      Caught(s', f, r) && s'.nodes.Keys == s.nodes.Keys && s'.logs == s.logs && Truthful(s, RecvSnapshot(f, r, m))
  {
    hide PrefixInv, ApplyAll, AddEntries, DeleteKeys;
  }

  lemma CaughtHoldsAll(s: State, f: string, r: Ref)
    requires PrefixInv(s) && Caught(s, f, r) && r.name in s.nodes
    ensures
      var n, owner := s.nodes[f], s.nodes[r.name];
      && n.peers[r].version == owner.self.version && n.peers[r].entries == owner.self.entries
      && KeepAlive(n, r, owner.sequence) == n
  {
    hide EntriesAt, OwnInv, Faithful;
    ServedHere(s, r.name);
    assert Prefixes(s.nodes[f].peers, s.logs);
    assert s.nodes[f].peers[r := s.nodes[f].peers[r]] == s.nodes[f].peers;
  }

  /** Why the status clause above is not simply "live": a repeated notify makes a live, up-to-date record fall to
      syncing; from then on every keepalive at its version and the next change leave it as it is. */
  lemma StuckSyncing(n: Node, r: Ref, e: EntryInfo, next: EntryInfo)
    requires r in n.peers && n.peers[r].status == Alive
    ensures
      var n' := Notify(n, r, [e], n.peers[r].version);
      && n' == n.(peers := n.peers[r := n.peers[r].(status := Syncing)])
      && KeepAlive(n', r, n.peers[r].version) == n'
      && Notify(n', r, [next], n.peers[r].version + 1) == n'
  {
    var n' := Notify(n, r, [e], n.peers[r].version);
    assert n'.peers[r := n'.peers[r]] == n'.peers;
  }

  // ---- Messages that are not truthful ----

  /** A broadcast tells the truth exactly if the change it carries is the last one made when it is sent. */
  lemma LateBroadcastFaithfulIff(s: State, at: string, change: nat)
    requires OwnInv(s) && Enabled(s, SendNotify(at, change))
    ensures
      var log := LogOf(s.logs, at);
      Faithful(NotifyMsg(at, log[change - 1], s.nodes[at].self.version), s.logs) <==> log[change - 1] == log[|log| - 1]
  {
    hide EntriesAt, OwnListed, Guarded, Foreign;
    AtNode(s, at);
  }

  /** A snapshot tells the truth exactly if the entries it read are those of the version it read: whatever was changed
      between the two reads was undone again. */
  lemma TornSnapshotFaithfulIff(s: State, at: string, version: nat, list: seq<EntryInfo>)
    requires OwnInv(s) && Enabled(s, SendSnapshot(at, version, list))
    ensures version <= |LogOf(s.logs, at)|
    ensures Faithful(SnapshotMsg(at, version, list), s.logs) <==>
      EntriesAt(LogOf(s.logs, at), version) == s.nodes[at].self.entries
  {
    hide EntriesAt, OwnListed, Guarded, Foreign, Enumerates;
    AtNode(s, at);
    SnapshotRebuilds(list, s.nodes[at].self.entries);
    if Enumerates(list, EntriesAt(LogOf(s.logs, at), version)) {
      SnapshotRebuilds(list, EntriesAt(LogOf(s.logs, at), version));
    }
  }

  // ---- Steps that are not timely ----

  /** A goodbye handled after its record was replaced removes by name: the index stays in order exactly if no live
      record of that name shares a key with the one it was meant for. */
  lemma LateGoodbyeExact(n: Node, r: Ref)
    requires Indexed(n) && r in n.peers && !Current(n, r)
    ensures Indexed(Goodbye(n, r)) <==>
      forall q :: q in n.peers && q.name == r.name && n.peers[q].status == Alive ==>
        n.peers[q].entries.Keys !! n.peers[r].entries.Keys
  {
    hide Occ, Registered;
    var n', keys := Goodbye(n, r), n.peers[r].entries.Keys;
    forall k, x
      ensures Occ(n'.index, k, x) == if x.name == r.name && k in keys then 0 else Occ(n.index, k, x)
    {
      DeleteKeysCount(n.index, r.name, keys, k, x);
    }
    if q, k :| q in n.peers && q.name == r.name && n.peers[q].status == Alive && k in n.peers[q].entries && k in keys {
      LiveStruck(n, n', r, q, k);
    } else {
      LateGoodbyeRegistered(n, n', r);
      forall q | q in n.peers ensures Listed(n'.index, q, n'.peers[q]) {
        LateGoodbyeListed(n, n', r, q);
      }
    }
  }

  lemma LiveStruck(n: Node, n': Node, r: Ref, q: Ref, k: string)
    requires Indexed(n) && r in n.peers && !Current(n, r) && n' == Goodbye(n, r)
    requires q in n.peers && n.peers[q].status == Alive && k in n.peers[q].entries && Occ(n'.index, k, q) == 0
    ensures !Indexed(n')
  {
    hide Occ, DeleteKeys;
    assert q != r && !Listed(n'.index, q, n'.peers[q]);
  }

  lemma LateGoodbyeRegistered(n: Node, n': Node, r: Ref)
    requires Registered(n) && r in n.peers && !Current(n, r) && n' == Goodbye(n, r)
    requires forall k, x :: Occ(n'.index, k, x) <= Occ(n.index, k, x)
    ensures Registered(n')
  {
    hide Occ, DeleteKeys;
  }

  lemma LateGoodbyeListed(n: Node, n': Node, r: Ref, q: Ref)
    requires Indexed(n) && r in n.peers && !Current(n, r) && n' == Goodbye(n, r) && q in n.peers
    requires forall k, x ::
      Occ(n'.index, k, x) == if x.name == r.name && k in n.peers[r].entries.Keys then 0 else Occ(n.index, k, x)
    requires q.name == r.name && n.peers[q].status == Alive ==>
      forall k :: k in n.peers[q].entries ==> k !in n.peers[r].entries
    ensures Listed(n'.index, q, n'.peers[q])
  {
    hide Occ, DeleteKeys;
    assert Listed(n.index, q, n.peers[q]);
  }

  /** A full-sync reply applied to a replaced record always revives it beside its successor. */
  lemma LateReplyRevives(n: Node, r: Ref, list: seq<EntryInfo>, version: nat)
    requires Indexed(n) && r in n.peers && !Current(n, r)
    ensures SyncReply(n, r, list, version).peers[r].status == Alive && !Indexed(SyncReply(n, r, list, version))
  {
    hide Occ;
    assert !Current(SyncReply(n, r, list, version), r);
  }

  /** A last close of a replaced record forgets the name: harmless exactly if the record now registered under it
      is itself retired. */
  lemma LateCloseExact(n: Node, r: Ref)
    requires Indexed(n) && r in n.peers && !Current(n, r) && n.peers[r].status == Dead
    ensures Indexed(CloseLast(n, r)) <==>
      (r.name in n.names ==> Retired(n.index, n.names[r.name], n.peers[n.names[r.name]]))
  {
    hide Occ, Retired, Listed;
    var n' := CloseLast(n, r);
    if r.name in n.names {
      assert !Current(n', n.names[r.name]);
    }
  }

  /** A timeout carried out after its record was replaced delists by name and forgets the name: harmless exactly if the
      record now registered under it is not live and is listed only under keys that are delisted with it. */
  lemma LateExpireExact(n: Node, r: Ref)
    requires Indexed(n) && r in n.peers && !Current(n, r)
    ensures Indexed(DeleteNode(n, r)) <==>
      (r.name in n.names ==>
         var q := n.names[r.name];
         n.peers[q].status != Alive && forall k :: Occ(n.index, k, q) > 0 ==> k in n.peers[r].entries)
  {
    hide Occ, Listed, Retired, DeleteNode;
    var n' := DeleteNode(n, r);
    LateExpireCounts(n, r);
    LateExpireOthers(n, n', r);
    if r.name in n.names {
      SuccessorStays(n, n', r, n.names[r.name]);
    }
  }

  lemma LateExpireCounts(n: Node, r: Ref)
    requires r in n.peers
    ensures
      var n' := DeleteNode(n, r);
      && n'.name == n.name && n'.peers.Keys == n.peers.Keys && n'.names == n.names - {r.name}
      && forall k, x :: Occ(n'.index, k, x) == if x.name == r.name && k in n.peers[r].entries.Keys then 0
        else Occ(n.index, k, x)
  {
    hide Occ, DeleteKeys;
    forall k, x: Ref
      ensures Occ(DeleteNode(n, r).index, k, x) == if x.name == r.name && k in n.peers[r].entries.Keys then 0
        else Occ(n.index, k, x)
    {
      DeleteKeysCount(n.index, r.name, n.peers[r].entries.Keys, k, x);
    }
  }

  /** All but the successor stay as they should be. */
  lemma LateExpireOthers(n: Node, n': Node, r: Ref)
    requires Indexed(n) && r in n.peers && !Current(n, r) && n' == DeleteNode(n, r)
    requires forall k, x ::
      Occ(n'.index, k, x) == if x.name == r.name && k in n.peers[r].entries.Keys then 0 else Occ(n.index, k, x)
    ensures forall q :: q in n'.peers && !(q.name == r.name && Current(n, q)) ==>
      Listed(n'.index, q, n'.peers[q]) && (Current(n', q) || Retired(n'.index, q, n'.peers[q]))
  {
    hide Occ, Listed, Retired, DeleteKeys;
    forall q | q in n'.peers && !(q.name == r.name && Current(n, q))
      ensures Listed(n'.index, q, n'.peers[q]) && (Current(n', q) || Retired(n'.index, q, n'.peers[q]))
    {
      if q.name == r.name {
        RetiredStays(n, n', r, q);
      } else {
        ListedElsewhere(n.index, n'.index, Named(r.name), q, n.peers[q]);
        assert Retired(n.index, q, n.peers[q]) ==> Retired(n'.index, q, n'.peers[q]) by {
          RetiredElsewhere(n.index, n'.index, q, n.peers[q]);
        }
      }
    }
  }

  lemma RetiredElsewhere(a: Index, b: Index, q: Ref, rep: Replica)
    requires Unlisted(a, q) ==> Unlisted(b, q)
    ensures Retired(a, q, rep) ==> Retired(b, q, rep)
  {
  }

  lemma RetiredStays(n: Node, n': Node, r: Ref, q: Ref)
    requires Indexed(n) && r in n.peers && n' == DeleteNode(n, r) && q in n.peers && !Current(n, q)
    requires forall k, x :: Occ(n'.index, k, x) <= Occ(n.index, k, x)
    ensures Retired(n'.index, q, n'.peers[q]) && Listed(n'.index, q, n'.peers[q])
  {
    hide Occ, DeleteKeys;
    assert Retired(n.index, q, n.peers[q]);
  }

  lemma SuccessorStays(n: Node, n': Node, r: Ref, q: Ref)
    requires Indexed(n) && r in n.peers && q in n.peers && q != r && n' == DeleteNode(n, r)
    requires forall k ::
      Occ(n'.index, k, q) == if q.name == r.name && k in n.peers[r].entries.Keys then 0 else Occ(n.index, k, q)
    ensures q.name == r.name ==>
      (Retired(n'.index, q, n'.peers[q]) <==>
         n.peers[q].status != Alive && forall k :: Occ(n.index, k, q) > 0 ==> k in n.peers[r].entries)
    ensures Retired(n'.index, q, n'.peers[q]) ==> Listed(n'.index, q, n'.peers[q])
  {
    hide Occ, DeleteKeys;
  }

  /** A full-sync call that succeeds with nothing, as a call can whose request id is shared: the record forgets all it
      held and starts again, and the next keepalive repairs it unless its owner never changed anything. */
  lemma EmptySyncForgets(n: Node, r: Ref, version: nat)
    requires r in n.peers
    ensures
      var n' := SyncReply(n, r, [], 0);
      && n'.peers == n.peers[r := Replica(Alive, 0, map[])]
      && (NeedSyncAll(n'.peers[r], version).1 <==> version != 0)
      && (KeepAlive(n', r, version).peers[r].status == Syncing <==> version != 0)
  {
    EmptyReply(n, r);
  }

  /** A restarted peer that has not changed anything yet: its keepalives never repair what is still held of its
      former instance. */
  lemma RestartKeepsStaleEntries(n: Node, r: Ref)
    requires r in n.peers && n.peers[r].entries != map[]
    ensures
      var n' := ResetInstance(n, r);
      KeepAlive(n', r, 0) == n' && n'.peers[r].version == 0 && n'.peers[r].entries != EntriesAt([], 0)
  {
    var n' := ResetInstance(n, r);
    assert n'.peers[r := n'.peers[r]] == n'.peers;
    EmptyPrefix([]);
  }
}
