/** What the handlers bring about, beside what they keep: the next change of an owner arrives, a stopped node is
    stopped, a dead record stays dead. */
module Effects {
  import opened Entries
  import opened Replicas
  import opened Indexes
  import opened Nodes
  import opened NodeSteps
  import opened Mesh

  // ---- A notify ----

  /** On a live record the next version applies every entry of a notify, in order, and reports them all; on a dead one
      only the withdrawals. */
  lemma ModifyAll(r: Replica, list: seq<EntryInfo>)
    ensures r.status != Dead ==>
      ModifyEntry(r, list, r.version + 1) ==
        Modified(r.(version := r.version + 1, entries := ApplyAll(r.entries, list)), false, list)
    ensures r.status == Dead ==> forall e :: e in ModifyEntry(r, list, r.version + 1).changed <==> e in list && !e.isNew
  {
    hide ApplyAll;
    EffectiveAll(list);
  }

  lemma {:induction false} EffectiveAll(list: seq<EntryInfo>)
    ensures Effective(list, true) == list
    ensures forall e :: e in Effective(list, false) <==> e in list && !e.isNew
  {
    if list != [] {
      EffectiveAll(list[..|list| - 1]);
      assert list == list[..|list| - 1] + [list[|list| - 1]];
    }
  }

  /** The next change of an owner, addition or withdrawal, takes effect on a live record: it holds what its owner served
      after that change, is listed once under each of those keys and under no other, and nothing else moves. */
  lemma NextNotifyTakesEffect(n: Node, r: Ref, log: seq<EntryInfo>, e: EntryInfo)
    requires Indexed(n) && r in n.peers && n.peers[r].status == Alive && Prefix(n.peers[r], log) && Guarded(log)
    requires n.peers[r].version < |log| && e == log[n.peers[r].version]
    ensures
      var v := n.peers[r].version + 1;
      var n' := Notify(n, r, [e], v);
      && n'.peers == n.peers[r := Replica(Alive, v, EntriesAt(log, v))] && n'.names == n.names
      && (forall k :: Occ(n'.index, k, r) == if k in EntriesAt(log, v) then 1 else 0)
      && (forall k, x :: x != r ==> Occ(n'.index, k, x) == Occ(n.index, k, x))
  {
    hide Occ, EntriesAt, KeyOf, ApplyChanges;
    var rep := n.peers[r];
    ModifyOne(rep, e);
    EntriesAtStep(log, rep.version);
    assert Listed(n.index, r, rep);
    forall k, x
      ensures Occ(ApplyChanges(n.index, r, [e]), k, x) ==
        if x != r || k != KeyOf(e) then Occ(n.index, k, x) else if e.isNew then Occ(n.index, k, x) + 1 else 0
    {
      ApplyChangeCount(n.index, r, e, k, x);
    }
  }

  /** After every truthful and timely run, for every notify that may be received: a live record moves to another
      version if and only if the notify is the next one; then it holds and is listed for what its owner served at that
      version. Otherwise it falls to syncing and nothing else changes. A record that is not live takes no notify. */
  lemma NotifyAdvancesIff(names: set<string>, run: seq<Event>, f: string, r: Ref, m: Message)
    requires Legal(Init(names), run) && Enabled(Reached(names, run), RecvNotify(f, r, m))
    ensures
      var s := Reached(names, run);
      var n, n', log := s.nodes[f], Next(s, RecvNotify(f, r, m)).nodes[f], LogOf(s.logs, r.name);
      var rep, next := n.peers[r], m.version == n.peers[r].version + 1;
      && r in n'.peers
      && (n'.peers[r].version != rep.version <==> rep.status == Alive && next)
      && (rep.status != Alive ==> n' == n)
      && (rep.status == Alive && !next ==> n' == n.(peers := n.peers[r := rep.(status := Syncing)]))
      && (rep.status == Alive && next ==>
            && rep.version < |log| && n'.peers == n.peers[r := Replica(Alive, m.version, EntriesAt(log, m.version))]
            && (forall k :: Occ(n'.index, k, r) == if k in EntriesAt(log, m.version) then 1 else 0)
            && (forall k, x :: x != r ==> Occ(n'.index, k, x) == Occ(n.index, k, x)))
  {
    hide Occ, EntriesAt, OwnInv, Indexed, Possible, Exec, AllTruthful, AllTimely, ApplyChanges, ApplyAll, Effective;
    ReachedInv(names, run);
    var s := Reached(names, run);
    TrueNotify(s, f, r, m);
    if s.nodes[f].peers[r].status == Alive && m.version == s.nodes[f].peers[r].version + 1 {
      NextNotifyTakesEffect(s.nodes[f], r, LogOf(s.logs, r.name), m.entry);
    }
  }

  lemma TrueNotify(s: State, f: string, r: Ref, m: Message)
    requires Inv(s) && Enabled(s, RecvNotify(f, r, m))
    ensures
      var log := LogOf(s.logs, r.name);
      && 0 < m.version <= |log| && m.entry == log[m.version - 1] && Guarded(log)
      && Indexed(s.nodes[f]) && Prefix(s.nodes[f].peers[r], log)
  {
    hide EntriesAt, OwnInv, Indexed, Guarded;
    SenderIsGuarded(s, r.name);
    assert Faithful(m, s.logs) && Prefixes(s.nodes[f].peers, s.logs);
  }

  // ---- Stopping ----

  /** Stopping marks the own record dead, keeps its entries, version and sequence number and all other records, and
      delists the node's own name under every key it serves and nothing else. */
  lemma StopTakesEffect(n: Node)
    ensures
      var n' := Stop(n);
      && n'.self.status == Dead && n'.self.entries == n.self.entries && n'.self.version == n.self.version
      && n'.sequence == n.sequence && n'.peers == n.peers && n'.names == n.names
      && forall k, x ::
           Occ(n'.index, k, x) == if x.name == n.name && k in n.self.entries then 0 else Occ(n.index, k, x)
  {
    hide Occ, DeleteKeys;
    forall k, x: Ref
      ensures Occ(Stop(n).index, k, x) == if x.name == n.name && k in n.self.entries then 0 else Occ(n.index, k, x)
    {
      DeleteKeysCount(n.index, n.name, n.self.entries.Keys, k, x);
    }
  }

  /** The node is stopped, serves at most `served`, and is listed for none of it. */
  ghost predicate Stopped(s: State, p: string, served: set<string>)
  {
    && p in s.nodes && s.nodes[p].self.status == Dead && s.nodes[p].self.entries.Keys <= served
    && forall k :: k in served ==> Occ(s.nodes[p].index, k, SelfRef(s.nodes[p])) == 0
  }

  lemma StoppedStep(s: State, e: Event, p: string, served: set<string>)
    requires OwnInv(s) && Enabled(s, e) && Stopped(s, p, served)
    ensures Stopped(Next(s, e), p, served)
  {
    hide OwnInv, Occ, Enabled, Next;
    KeysAgree(s);
    NextShape(s, e);
    if e.at == p {
      NotOwnName(s, e);
      match e {
        case Add(_, _, _) | Remove(_, _, _) | StopNode(_) | Meet(_, _, _) => StoppedOwnStep(s, e, served);
        case SendNotify(_, _) | SendSnapshot(_, _, _) | SendAlive(_) => SendChangesNoNode(s, e);
        case _ => RecordElsewhere(s, e);
      }
    }
  }

  lemma NotOwnName(s: State, e: Event)
    requires OwnInv(s) && Enabled(s, e)
    ensures s.nodes[e.at].name == e.at && (OfRecord(e) ==> SelfRef(s.nodes[e.at]) !in Named(e.ref.name))
  {
    hide LockStep, OwnListed, Occ, Enumerates;
    AtNode(s, e.at);
  }

  lemma StoppedOwnStep(s: State, e: Event, served: set<string>)
    requires OwnInv(s) && Enabled(s, e) && Stopped(s, e.at, served)
    requires e.Add? || e.Remove? || e.StopNode? || e.Meet?
    ensures Stopped(Next(s, e), e.at, served)
  {
    hide OwnInv, Occ, Key, ModifyEntry, DropName, DeleteKeys, Append, EntriesAt;
    ServedHere(s, e.at);
    var n := s.nodes[e.at];
    match e
    case Add(_, _, _) =>
    case Remove(_, uri, t) =>
      ModifyOne(n.self, EntryInfo(uri, t, false));
      forall k ensures Occ(DropName(n.index, uri, n.name), k, SelfRef(n)) <= Occ(n.index, k, SelfRef(n)) {
        DropNameCount(n.index, uri, n.name, k, SelfRef(n));
      }
    case StopNode(_) => StopTakesEffect(n);
    case Meet(_, _, _) =>
  }

  lemma {:induction false} StoppedRun(s: State, run: seq<Event>, p: string, served: set<string>)
    requires OwnInv(s) && Possible(s, run) && Stopped(s, p, served)
    ensures Stopped(Exec(s, run), p, served)
    decreases run
  {
    hide OwnInv, Stopped, Enabled, Next;
    if run != [] {
      OwnStep(s, run[0]);
      StoppedStep(s, run[0], p, served);
      StoppedRun(Next(s, run[0]), run[1..], p, served);
    }
  }

  /** In every run whatsoever, from the moment a node is stopped: it stays stopped, accepts no addition, serves nothing
      it did not serve then, and is not listed for anything it served then. */
  lemma StoppedForGood(names: set<string>, before: seq<Event>, p: string, after: seq<Event>, uri: string, t: int)
    requires Possible(Init(names), before) && p in Reached(names, before).nodes
    requires Possible(Next(Reached(names, before), StopNode(p)), after)
    ensures
      var s := Reached(names, before);
      var end, served := Exec(Next(s, StopNode(p)), after), s.nodes[p].self.entries.Keys;
      && p in end.nodes && end.nodes[p].self.status == Dead && end.nodes[p].self.entries.Keys <= served
      && !Accepts(end.nodes[p], uri, t) && AddEntry(end.nodes[p], uri, t) == end.nodes[p]
      && forall k :: k in served ==> SelfRef(end.nodes[p]) !in At(end.nodes[p].index, k)
  {
    hide OwnInv, Possible, Exec, Key;
    ReachedInv(names, before);
    var s := Reached(names, before);
    var served := s.nodes[p].self.entries.Keys;
    OwnStep(s, StopNode(p));
    StopTakesEffect(s.nodes[p]);
    var stopped := Next(s, StopNode(p));
    assert stopped.nodes[p] == Stop(s.nodes[p]);
    assert Stopped(stopped, p, served);
    StoppedRun(stopped, after, p, served);
    var end := Exec(stopped, after);
    forall k | k in served ensures SelfRef(end.nodes[p]) !in At(end.nodes[p].index, k) {
      assert Occ(end.nodes[p].index, k, SelfRef(end.nodes[p])) == 0;
    }
  }

  // ---- Dead records ----

  /** The steps that bring a dead record back: a snapshot, an empty one, or a hello that carries another version. */
  predicate Revives(s: State, e: Event, f: string, r: Ref)
  {
    && e.at == f && f in s.nodes && r in s.nodes[f].peers
    && match e
       case RecvSnapshot(_, q, _) => q == r
       case EmptySync(_, q) => q == r
       case HelloSync(_, q, version) => q == r && version != s.nodes[f].peers[r].version
       case _ => false
  }

  ghost predicate IsDead(s: State, f: string, r: Ref)
  {
    f in s.nodes && r in s.nodes[f].peers && s.nodes[f].peers[r].status == Dead
  }

  /** Whatever is not about a record leaves the records there are alone. */
  lemma RecordsStay(s: State, e: Event, r: Ref)
    requires Enabled(s, e) && !OfRecord(e) && r in s.nodes[e.at].peers
    ensures r in Next(s, e).nodes[e.at].peers && Next(s, e).nodes[e.at].peers[r] == s.nodes[e.at].peers[r]
  {
    hide Enumerates, AddEntry, RemoveEntry, Stop, Key;
    if e.Add? || e.Remove? {
      OwnChangesNoRecord(s.nodes[e.at], e.uri, e.entryType);
    } else {
      OwnChangesNoRecord(s.nodes[e.at], "", 0);
    }
  }

  lemma DeadRecordStep(s: State, e: Event)
    requires Enabled(s, e) && OfRecord(e) && IsDead(s, e.at, e.ref)
    ensures IsDead(Next(s, e), e.at, e.ref) <==> !Revives(s, e, e.at, e.ref)
  {
    hide ApplyChanges, AddEntries, DeleteKeys, ApplyAll;
  }

  lemma DeadStep(s: State, e: Event, f: string, r: Ref)
    requires s.logs.Keys == s.nodes.Keys && Enabled(s, e) && IsDead(s, f, r)
    ensures IsDead(Next(s, e), f, r) <==> !Revives(s, e, f, r)
  {
    hide Enabled, Next, SameOutside;
    NextShape(s, e);
    if e.at == f {
      if !OfRecord(e) {
        RecordsStay(s, e, r);
      } else {
        RecordElsewhere(s, e);
        if e.ref == r {
          DeadRecordStep(s, e);
        }
      }
    }
  }

  ghost predicate DeadThroughout(s: State, run: seq<Event>, f: string, r: Ref)
    requires Possible(s, run)
    decreases run
  {
    IsDead(s, f, r) && (run != [] ==> DeadThroughout(Next(s, run[0]), run[1..], f, r))
  }

  ghost predicate NothingRevives(s: State, run: seq<Event>, f: string, r: Ref)
    requires Possible(s, run)
    decreases run
  {
    run != [] ==> !Revives(s, run[0], f, r) && NothingRevives(Next(s, run[0]), run[1..], f, r)
  }

  /** In every run whatsoever a dead record stays dead throughout if and only if no snapshot and no hello of another
      version is handled for it: notifies, keepalives, goodbyes and timeouts leave it dead. */
  lemma {:induction false} StaysDeadIff(s: State, run: seq<Event>, f: string, r: Ref)
    requires OwnInv(s) && Possible(s, run) && IsDead(s, f, r)
    ensures DeadThroughout(s, run, f, r) <==> NothingRevives(s, run, f, r)
    decreases run
  {
    hide OwnInv, Enabled, Next, Revives, IsDead;
    if run != [] {
      KeysAgree(s);
      OwnStep(s, run[0]);
      DeadStep(s, run[0], f, r);
      if !Revives(s, run[0], f, r) {
        StaysDeadIff(Next(s, run[0]), run[1..], f, r);
      } else {
        RevivedShows(Next(s, run[0]), run[1..], f, r);
      }
    }
  }

  lemma {:induction false} RevivedShows(s: State, run: seq<Event>, f: string, r: Ref)
    requires Possible(s, run) && !IsDead(s, f, r)
    ensures !DeadThroughout(s, run, f, r)
  {
    hide Enabled, Next, IsDead;
  }
}
