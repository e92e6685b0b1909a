/** Runs that do without a hypothesis, or meet what a withdrawal under the wrong string leaves behind: from every state
    of a kind, and from a fresh mesh. */
module Counterexamples {
  import opened Entries
  import opened Replicas
  import opened Indexes
  import opened Nodes
  import opened NodeSteps
  import opened Mesh
  import opened MeshTheorems
  import Convergence

  // ---- A broadcast sent late ----

  function LateBroadcast(f: string, r: Ref, log: seq<EntryInfo>, change: nat, uri: string, t: int): seq<Event>
    requires 0 < change <= |log|
  {
    [Add(r.name, uri, t), SendNotify(r.name, change), RecvNotify(f, r, NotifyMsg(r.name, log[change - 1], |log| + 1))]
  }

  /** From every state of the mesh in which a live record is up to date: the owner adds one more entry, and an earlier
      addition, still served, is only now broadcast. The record takes it for the new one: it is wrong at the version it
      claims, and listed twice. */
  lemma LateBroadcastBreaks(s: State, f: string, r: Ref, change: nat, uri: string, t: int)
    requires Inv(s) && f in s.nodes && r in s.nodes[f].peers && r.name in s.nodes
    requires s.nodes[f].peers[r].status == Alive && s.nodes[f].peers[r].version == |LogOf(s.logs, r.name)|
    requires 0 < change <= |LogOf(s.logs, r.name)| && LogOf(s.logs, r.name)[change - 1].isNew
    requires KeyOf(LogOf(s.logs, r.name)[change - 1]) in s.nodes[f].peers[r].entries
    requires Accepts(s.nodes[r.name], uri, t)
    ensures
      var log := LogOf(s.logs, r.name);
      var run := LateBroadcast(f, r, log, change, uri, t);
      && Possible(s, run) && f in Exec(s, run).nodes && r in Exec(s, run).nodes[f].peers
      && !Prefix(Exec(s, run).nodes[f].peers[r], LogOf(Exec(s, run).logs, r.name))
      && Occ(Exec(s, run).nodes[f].index, KeyOf(log[change - 1]), r) == 2
  {
    hide Key, Occ, OwnInv, Faithful, EntriesAt, Notify, Enabled, Next, Prefix, Indexed, Possible, Exec, Apply;
    var p, n, log, e := r.name, s.nodes[f], LogOf(s.logs, r.name), LogOf(s.logs, r.name)[change - 1];
    NotOneself(s, f, r);
    ServedHere(s, p);
    AddGrowsLog(s, p, uri, t);
    var s1 := Next(s, Add(p, uri, t));
    Sends(s1, p, change, 0, []);
    var s2 := Next(s1, SendNotify(p, change));
    Receives(s2, f, r, NotifyMsg(p, e, |log| + 1));
    Three(s, Add(p, uri, t), SendNotify(p, change), RecvNotify(f, r, NotifyMsg(p, e, |log| + 1)));
    UpToDate(s, f, r);
    NotifyKeepsRecords(n, r, [e], |log| + 1);
    SecondListing(n, log, r, e, EntryInfo(uri, t, true));
  }

  lemma UpToDate(s: State, f: string, r: Ref)
    requires Inv(s) && f in s.nodes && r in s.nodes[f].peers
    ensures Indexed(s.nodes[f]) && Prefix(s.nodes[f].peers[r], LogOf(s.logs, r.name))
    ensures s.nodes[f].peers[r].version == |LogOf(s.logs, r.name)| ==>
      s.nodes[f].peers[r].entries == EntriesAt(LogOf(s.logs, r.name), |LogOf(s.logs, r.name)|)
  {
    hide OwnInv, Faithful, Registered, Listed, EntriesAt;
    assert Prefixes(s.nodes[f].peers, s.logs);
  }

  lemma NotifyKeepsRecords(n: Node, r: Ref, list: seq<EntryInfo>, version: nat)
    requires r in n.peers
    ensures Notify(n, r, list, version).peers.Keys == n.peers.Keys
  {
  }

  /** An accepted addition is the next change of the owner's history. */
  lemma AddGrowsLog(s: State, p: string, uri: string, t: int)
    requires OwnInv(s) && p in s.nodes && Accepts(s.nodes[p], uri, t)
    ensures
      Enabled(s, Add(p, uri, t)) &&
      var s', log := Next(s, Add(p, uri, t)), LogOf(s.logs, p);
      && s'.nodes.Keys == s.nodes.Keys && s'.logs == s.logs[p := log + [EntryInfo(uri, t, true)]] && s'.sent == s.sent
      && (forall q :: q in s.nodes && q != p ==> s'.nodes[q] == s.nodes[q])
      && s'.nodes[p].self ==
           Replica(s.nodes[p].self.status, |log| + 1, Apply(s.nodes[p].self.entries, EntryInfo(uri, t, true)))
      && s'.nodes[p].name == p && s'.nodes[p].peers == s.nodes[p].peers
  {
    hide Key, EntriesAt, Guarded, OwnListed, Append, Foreign;
    AtNode(s, p);
    ModifyOne(s.nodes[p].self, EntryInfo(uri, t, true));
  }

  lemma SecondListing(n: Node, log: seq<EntryInfo>, r: Ref, first: EntryInfo, second: EntryInfo)
    requires Indexed(n) && r in n.peers && n.peers[r].status == Alive
    requires n.peers[r].version == |log| && Prefix(n.peers[r], log)
    requires first.isNew && KeyOf(first) in n.peers[r].entries
    requires second.isNew && KeyOf(second) !in n.peers[r].entries
    ensures
      var n' := Notify(n, r, [first], |log| + 1);
      !Prefix(n'.peers[r], log + [second]) && Occ(n'.index, KeyOf(first), r) == 2
  {
    hide Occ, EntriesAt, KeyOf, Registered;
    assert Listed(n.index, r, n.peers[r]);
    ModifyOne(n.peers[r], first);
    EntriesAtExtend(log, second, |log|);
    ApplyChangeCount(n.index, r, first, KeyOf(first), r);
    assert KeyOf(second) !in Apply(n.peers[r].entries, first);
  }

  // ---- A snapshot read around a change ----

  function TornSnapshot(f: string, r: Ref, log: seq<EntryInfo>, list: seq<EntryInfo>, uri: string, t: int): seq<Event>
  {
    [Add(r.name, uri, t), SendSnapshot(r.name, |log|, list), RecvSnapshot(f, r, SnapshotMsg(r.name, |log|, list))]
  }

  /** The broadcast of the last change, and its receipt. */
  function Told(f: string, r: Ref, e: EntryInfo, version: nat): seq<Event>
  {
    [SendNotify(r.name, version), RecvNotify(f, r, NotifyMsg(r.name, e, version))]
  }

  /** From every state of the mesh, for every registered record: an entry added between the read of a snapshot's version
      and the read of its entries makes the record hold what its owner did not serve at that version, and the addition's
      own notify, sent in time, then lists the record twice. */
  lemma TornSnapshotBreaks(s: State, f: string, r: Ref, uri: string, t: int, list: seq<EntryInfo>)
    requires Inv(s) && f in s.nodes && r in s.nodes[f].peers && r.name in s.nodes && Current(s.nodes[f], r)
    requires Accepts(s.nodes[r.name], uri, t)
    requires Enumerates(list, Apply(s.nodes[r.name].self.entries, EntryInfo(uri, t, true)))
    ensures
      var log := LogOf(s.logs, r.name);
      var torn, told := TornSnapshot(f, r, log, list, uri, t), Told(f, r, EntryInfo(uri, t, true), |log| + 1);
      && Possible(s, torn) && f in Exec(s, torn).nodes && r in Exec(s, torn).nodes[f].peers
      && !Prefix(Exec(s, torn).nodes[f].peers[r], LogOf(Exec(s, torn).logs, r.name))
      && Possible(s, torn + told) && f in Exec(s, torn + told).nodes
      && Occ(Exec(s, torn + told).nodes[f].index, Key(uri, t), r) == 2
  {
    hide Key, Occ, OwnInv, Faithful, EntriesAt, Notify, SyncReply, Enumerates, Prefix, Enabled, Next, Indexed, Apply;
    hide Possible, Exec, TornSnapshot;
    var p, log, e := r.name, LogOf(s.logs, r.name), EntryInfo(uri, t, true);
    var torn, notify := TornSnapshot(f, r, log, list, uri, t), NotifyMsg(p, e, |log| + 1);
    NotOneself(s, f, r);
    ServedHere(s, p);
    UpToDate(s, f, r);
    Torn(s.nodes[f], log, r, e, list);
    TornRun(s, f, r, uri, t, list);
    var s3 := Exec(s, torn);
    Sends(s3, p, |log| + 1, 0, []);
    Receives(Next(s3, SendNotify(p, |log| + 1)), f, r, notify);
    Two(s3, SendNotify(p, |log| + 1), RecvNotify(f, r, notify));
    Concat(s, torn, Told(f, r, e, |log| + 1));
  }

  lemma TornRun(s: State, f: string, r: Ref, uri: string, t: int, list: seq<EntryInfo>)
    requires OwnInv(s) && f in s.nodes && r in s.nodes[f].peers && r.name in s.nodes && f != r.name
    requires Accepts(s.nodes[r.name], uri, t)
    requires Enumerates(list, Apply(s.nodes[r.name].self.entries, EntryInfo(uri, t, true)))
    ensures
      var p, log := r.name, LogOf(s.logs, r.name);
      var torn := TornSnapshot(f, r, log, list, uri, t);
      && Possible(s, torn) && Exec(s, torn).nodes.Keys == s.nodes.Keys
      && Exec(s, torn).nodes[f] == SyncReply(s.nodes[f], r, list, |log|)
      && Exec(s, torn).nodes[p].self.version == |log| + 1
      && LogOf(Exec(s, torn).logs, p) == log + [EntryInfo(uri, t, true)]
  {
    hide Key, OwnInv, EntriesAt, SyncReply, Enumerates, Enabled, Next, Apply, Possible, Exec;
    var p, log := r.name, LogOf(s.logs, r.name);
    var snapshot := SnapshotMsg(p, |log|, list);
    AddGrowsLog(s, p, uri, t);
    var s1 := Next(s, Add(p, uri, t));
    Sends(s1, p, 0, |log|, list);
    Receives(Next(s1, SendSnapshot(p, |log|, list)), f, r, snapshot);
    Three(s, Add(p, uri, t), SendSnapshot(p, |log|, list), RecvSnapshot(f, r, snapshot));
  }

  lemma Torn(n: Node, log: seq<EntryInfo>, r: Ref, e: EntryInfo, list: seq<EntryInfo>)
    requires Indexed(n) && r in n.peers && Current(n, r)
    requires e.isNew && KeyOf(e) !in EntriesAt(log, |log|) && Enumerates(list, Apply(EntriesAt(log, |log|), e))
    ensures
      var torn := SyncReply(n, r, list, |log|);
      && r in torn.peers && !Prefix(torn.peers[r], log + [e])
      && Occ(Notify(torn, r, [e], |log| + 1).index, KeyOf(e), r) == 2
  {
    hide Occ, EntriesAt, KeyOf, Enumerates, Registered, Retired;
    var m := Apply(EntriesAt(log, |log|), e);
    var torn := SyncReply(n, r, list, |log|);
    SyncReplyIndexed(n, r, list, m, |log|);
    EntriesAtExtend(log, e, |log|);
    assert Listed(torn.index, r, torn.peers[r]);
    ModifyOne(torn.peers[r], e);
    ApplyChangeCount(torn.index, r, e, KeyOf(e), r);
  }

  // ---- A withdrawal under the wrong string ----

  /** From every state that can be reached at all, for every entry a node serves: adding and withdrawing an entry whose
      URI is that entry's key leaves it served and not listed. */
  lemma StrikingWithdrawal(s: State, p: string, uri: string, t: int, u: int)
    requires OwnInv(s) && p in s.nodes && s.nodes[p].self.status != Dead
    requires Key(uri, t) in s.nodes[p].self.entries
    ensures
      var k := Key(uri, t);
      var run := [Add(p, k, u), Remove(p, k, u)];
      && Legal(s, run) && p in Exec(s, run).nodes && Exec(s, run).nodes[p].peers == s.nodes[p].peers
      && k in Exec(s, run).nodes[p].self.entries && Exec(s, run).nodes[p].self.status != Dead
      && SelfRef(Exec(s, run).nodes[p]) !in At(Exec(s, run).nodes[p].index, k)
  {
    hide Key, Own, Possible, Exec, AllTruthful, AllTimely;
    var k := Key(uri, t);
    var s1 := Next(s, Add(p, k, u));
    var s2 := Next(s1, Remove(p, k, u));
    Two(s, Add(p, k, u), Remove(p, k, u));
    OwnStep(s, Add(p, k, u));
    OwnStep(s1, Remove(p, k, u));
    AtNode(s, p);
    AtNode(s1, p);
    AtNode(s2, p);
    KeyIsLonger(k, u);
    StillServed(s.nodes[p], LogOf(s.logs, p), k, u);
    AddsSinceSnoc(LogOf(s1.logs, p), EntryInfo(k, u, false), k);
    NotListed(s2.nodes[p], LogOf(s2.logs, p), k);
  }

  lemma KeyIsLonger(uri: string, t: int)
    ensures Key(uri, t) != uri
  {
    assert |Key(uri, t)| > |uri|;
  }

  lemma StillServed(n: Node, log: seq<EntryInfo>, k: string, u: int)
    requires Own(n, log) && k in n.self.entries && k != Key(k, u)
    ensures
      var n' := RemoveEntry(AddEntry(n, k, u), k, u);
      k in n'.self.entries && n'.self.status == n.self.status && n'.peers == n.peers
  {
    hide Key, EntriesAt, OwnListed, Foreign, Guarded, Append, DropName;
    ModifyOne(n.self, EntryInfo(k, u, true));
    ModifyOne(AddEntry(n, k, u).self, EntryInfo(k, u, false));
  }

  lemma NotListed(n: Node, log: seq<EntryInfo>, k: string)
    requires Own(n, log) && n.self.status != Dead && AddsSince(log, k) == 0
    ensures SelfRef(n) !in At(n.index, k)
  {
    hide EntriesAt, LockStep, Foreign, AddsSince;
    assert Occ(n.index, k, SelfRef(n)) == 0;
  }

  // ---- From a fresh mesh ----

  /** Two nodes, the first of which has met the second. */
  lemma Introduced(f: string, p: string)
    requires f != p
    ensures
      var s, run := Init({f, p}), [Meet(f, p, 0)];
      && Legal(s, run) && Inv(Exec(s, run)) && Exec(s, run).logs == s.logs && Exec(s, run).sent == {}
      && Exec(s, run).nodes == map[f := Learn(NewNode(f), p, 0), p := NewNode(p)]
  {
    hide Inv, OwnInv, PrefixInv, Possible, Exec, AllTruthful, AllTimely;
    var s, run := Init({f, p}), [Meet(f, p, 0)];
    One(s, Meet(f, p, 0));
    ReachedInv({f, p}, run);
    assert s.nodes[f := Learn(NewNode(f), p, 0)] == map[f := Learn(NewNode(f), p, 0), p := NewNode(p)];
  }

  lemma OneEntry(e: EntryInfo)
    requires e.isNew
    ensures Apply(map[], e) == map[KeyOf(e) := e] && Enumerates([e], Apply(map[], e))
  {
  }

  /** A torn snapshot, from the start: for any two nodes and any entry. */
  lemma TornSnapshotReached(f: string, p: string, uri: string, t: int)
    requires f != p
    ensures
      var r, e := Ref(p, 0), EntryInfo(uri, t, true);
      var torn := [Meet(f, p, 0)] + TornSnapshot(f, r, [], [e], uri, t);
      var run := torn + Told(f, r, e, 1);
      && Possible(Init({f, p}), torn) && f in Reached({f, p}, torn).nodes && r in Reached({f, p}, torn).nodes[f].peers
      && !Prefix(Reached({f, p}, torn).nodes[f].peers[r], LogOf(Reached({f, p}, torn).logs, p))
      && Possible(Init({f, p}), run) && f in Reached({f, p}, run).nodes
      && Occ(Reached({f, p}, run).nodes[f].index, Key(uri, t), r) == 2
  {
    hide Key, Occ, Enumerates, Possible, Exec, Init, Inv, Prefix, TornSnapshot, Told, Apply;
    var r, e := Ref(p, 0), EntryInfo(uri, t, true);
    var s := Init({f, p});
    Introduced(f, p);
    OneEntry(e);
    var met := Exec(s, [Meet(f, p, 0)]);
    assert LogOf(met.logs, p) == [] by { FreshLogs(f, p); }
    TornSnapshotBreaks(met, f, r, uri, t, [e]);
    Concat(s, [Meet(f, p, 0)], TornSnapshot(f, r, [], [e], uri, t));
    Concat(s, [Meet(f, p, 0)], TornSnapshot(f, r, [], [e], uri, t) + Told(f, r, e, 1));
    assert [Meet(f, p, 0)] + (TornSnapshot(f, r, [], [e], uri, t) + Told(f, r, e, 1))
        == [Meet(f, p, 0)] + TornSnapshot(f, r, [], [e], uri, t) + Told(f, r, e, 1);
  }

  lemma FreshLogs(f: string, p: string)
    ensures LogOf(Init({f, p}).logs, p) == []
  {
  }

  function SyncedRun(f: string, p: string, x: EntryInfo): seq<Event>
  {
    [Meet(f, p, 0), Add(p, x.uri, x.entryType), SendSnapshot(p, 1, [x]),
     RecvSnapshot(f, Ref(p, 0), SnapshotMsg(p, 1, [x]))]
  }

  /** A late broadcast, from the start: for any two nodes and any two entries with different keys. */
  lemma LateBroadcastReached(f: string, p: string, x: EntryInfo, uri: string, t: int)
    requires f != p && x.isNew && Key(uri, t) != KeyOf(x)
    ensures
      var r := Ref(p, 0);
      var synced := SyncedRun(f, p, x);
      var run := synced + LateBroadcast(f, r, [x], 1, uri, t);
      && Legal(Init({f, p}), synced)
      && Possible(Init({f, p}), run) && f in Reached({f, p}, run).nodes && r in Reached({f, p}, run).nodes[f].peers
      && !Prefix(Reached({f, p}, run).nodes[f].peers[r], LogOf(Reached({f, p}, run).logs, p))
      && Occ(Reached({f, p}, run).nodes[f].index, KeyOf(x), r) == 2
  {
    hide Key, Occ, Enumerates, Possible, Exec, AllTruthful, AllTimely, Init, Inv, Prefix, LateBroadcast, Apply;
    var r, s := Ref(p, 0), Init({f, p});
    Synced(f, p, x);
    var synced := SyncedRun(f, p, x);
    ReachedInv({f, p}, synced);
    LateBroadcastBreaks(Exec(s, synced), f, r, 1, uri, t);
    Concat(s, synced, LateBroadcast(f, r, [x], 1, uri, t));
  }

  /** The first node holds the one entry of the second. */
  lemma Synced(f: string, p: string, x: EntryInfo)
    requires f != p && x.isNew
    ensures
      var r := Ref(p, 0);
      var run := SyncedRun(f, p, x);
      && Legal(Init({f, p}), run)
      && var s := Exec(Init({f, p}), run);
         && f in s.nodes && p in s.nodes && LogOf(s.logs, p) == [x]
         && s.nodes[p].self == Replica(Alive, 1, map[KeyOf(x) := x])
         && s.nodes[f].peers == map[r := Replica(Alive, 1, map[KeyOf(x) := x])] && s.nodes[f].names == map[p := r]
         && s.nodes[f].name == f
  {
    hide KeyOf, Key, Enumerates, Possible, Exec, AllTruthful, AllTimely, Init, Inv, Apply, Enabled, Next, SyncReply;
    var r, s := Ref(p, 0), Init({f, p});
    var meet, add := Meet(f, p, 0), Add(p, x.uri, x.entryType);
    Introduced(f, p);
    OneEntry(x);
    var s1 := Exec(s, [meet]);
    assert LogOf(s1.logs, p) == [] by { FreshLogs(f, p); }
    FirstAddition(s1, p, x);
    One(s1, add);
    var s2 := Next(s1, add);
    ExchangeRun(s2, f, r, [x]);
    Concat(s1, [add], Exchange(s2, f, r, [x]));
    Concat(s, [meet], [add] + Exchange(s2, f, r, [x]));
    assert [meet] + ([add] + Exchange(s2, f, r, [x])) == SyncedRun(f, p, x);
    SnapshotTaken(s2.nodes[f], r, [x], map[KeyOf(x) := x]);
  }

  lemma FirstAddition(s: State, p: string, x: EntryInfo)
    requires Inv(s) && p in s.nodes && s.nodes[p] == NewNode(p) && LogOf(s.logs, p) == [] && x.isNew
    ensures
      var add := Add(p, x.uri, x.entryType);
      && Enabled(s, add) && Truthful(s, add) && Timely(s, add)
      && Next(s, add).nodes.Keys == s.nodes.Keys && LogOf(Next(s, add).logs, p) == [x] && Next(s, add).sent == s.sent
      && (forall q :: q in s.nodes && q != p ==> Next(s, add).nodes[q] == s.nodes[q])
      && Next(s, add).nodes[p].self == Replica(Alive, 1, map[KeyOf(x) := x]) && Next(s, add).nodes[p].peers == map[]
  {
    hide KeyOf, Key, OwnInv, Prefixes, Faithful, Indexed, Enabled, Next;
    AddGrowsLog(s, p, x.uri, x.entryType);
    OneEntry(x);
    assert x == EntryInfo(x.uri, x.entryType, true);
  }

  lemma SnapshotTaken(n: Node, r: Ref, list: seq<EntryInfo>, m: EntryMap)
    requires r in n.peers && Enumerates(list, m)
    ensures SyncReply(n, r, list, 1).peers == n.peers[r := Replica(Alive, 1, m)]
    ensures SyncReply(n, r, list, 1).names == n.names && SyncReply(n, r, list, 1).name == n.name
  {
    hide Enumerates, AddEntries, DeleteKeys;
    SnapshotRebuilds(list, m);
  }

  lemma NobodyListed(n: Node, k: string)
    requires Indexed(n) && n.peers == map[] && SelfRef(n) !in At(n.index, k)
    ensures At(n.index, k) == []
  {
    hide Occ;
    OwnCount(n, k);
    if At(n.index, k) != [] {
      SomeoneListed(n.index, k);
    }
  }

  lemma OwnCount(n: Node, k: string)
    ensures Occ(n.index, k, SelfRef(n)) > 0 <==> SelfRef(n) in At(n.index, k)
  {
  }

  lemma SomeoneListed(ix: Index, k: string)
    requires At(ix, k) != []
    ensures exists x :: Occ(ix, k, x) > 0
  {
    assert Occ(ix, k, At(ix, k)[0]) > 0;
  }

  /** A struck entry, from the start: for any entry and any type under which its key is added and withdrawn again, the
      entry is served and a look-up of it fails. */
  lemma StruckEntryReached(p: string, uri: string, t: int, u: int)
    ensures
      var run := [Add(p, uri, t)] + [Add(p, Key(uri, t), u), Remove(p, Key(uri, t), u)];
      && Legal(Init({p}), run) && p in Reached({p}, run).nodes
      && Key(uri, t) in Reached({p}, run).nodes[p].self.entries && Reached({p}, run).nodes[p].self.status != Dead
      && EntryCheck(Reached({p}, run).nodes[p], uri, t) == EntryNotFound
  {
    hide Key, Occ, Possible, Exec, AllTruthful, AllTimely, PrefixInv, Indexed, Enabled, Next;
    var s, x := Init({p}), EntryInfo(uri, t, true);
    var first, strike := [Add(p, uri, t)], [Add(p, Key(uri, t), u), Remove(p, Key(uri, t), u)];
    InitInv({p});
    FirstAddition(s, p, x);
    One(s, Add(p, uri, t));
    ReachedInv({p}, first);
    StrikingWithdrawal(Exec(s, first), p, uri, t, u);
    Concat(s, first, strike);
    ReachedInv({p}, first + strike);
    NobodyListed(Reached({p}, first + strike).nodes[p], Key(uri, t));
  }

  /** A reply that comes after its record was replaced, from the start: all messages are truthful, and two live records
      of one node stand side by side. */
  lemma LateReplyReached(f: string, p: string)
    requires f != p
    ensures
      var was, next := Ref(p, 0), Ref(p, 1);
      var run := [Meet(f, p, 0)] + [Expire(f, was), Meet(f, p, 1)]
                 + [SendSnapshot(p, 0, []), RecvSnapshot(f, was, SnapshotMsg(p, 0, []))];
      && Possible(Init({f, p}), run) && AllTruthful(Init({f, p}), run) && f in Reached({f, p}, run).nodes
      && var n := Reached({f, p}, run).nodes[f];
         was in n.peers && next in n.peers && n.peers[was].status == Alive && n.peers[next].status == Alive
           && !Indexed(n)
  {
    hide Possible, Exec, AllTruthful, AllTimely, Init, OwnInv, Prefixes, Faithful, SyncReply, Indexed, DeleteNode,
      Learn;
    var was, s := Ref(p, 0), Init({f, p});
    Replaced(f, p);
    var replaced := [Meet(f, p, 0)] + [Expire(f, was), Meet(f, p, 1)];
    var s3 := Exec(s, replaced);
    ReachedInv({f, p}, replaced);
    ReplacedNode(f, p);
    ExchangeRun(s3, f, was, []);
    Concat(s, replaced, Exchange(s3, f, was, []));
    Convergence.LateReplyRevives(s3.nodes[f], was, [], 0);
    SnapshotChangesOne(s3.nodes[f], was, [], 0);
  }

  lemma Replaced(f: string, p: string)
    requires f != p
    ensures
      var s, run := Init({f, p}), [Meet(f, p, 0)] + [Expire(f, Ref(p, 0)), Meet(f, p, 1)];
      && Legal(s, run) && f in Exec(s, run).nodes && p in Exec(s, run).nodes && Exec(s, run).nodes[p] == NewNode(p)
      && Exec(s, run).nodes[f] == ReplacedAt(f, p)
  {
    hide Possible, Exec, AllTruthful, AllTimely, Init, Inv, DeleteKeys;
    var s := Init({f, p});
    Introduced(f, p);
    var s1 := Exec(s, [Meet(f, p, 0)]);
    Two(s1, Expire(f, Ref(p, 0)), Meet(f, p, 1));
    Concat(s, [Meet(f, p, 0)], [Expire(f, Ref(p, 0)), Meet(f, p, 1)]);
  }

  /** A node that met another, gave it up and met it again. */
  function ReplacedAt(f: string, p: string): Node
    requires f != p
  {
    Learn(DeleteNode(Learn(NewNode(f), p, 0), Ref(p, 0)), p, 1)
  }

  lemma ReplacedNode(f: string, p: string)
    requires f != p
    ensures
      var n := ReplacedAt(f, p);
      Ref(p, 0) in n.peers && Ref(p, 1) in n.peers && n.peers[Ref(p, 1)].status == Alive && !Current(n, Ref(p, 0))
  {
  }

  lemma SnapshotChangesOne(n: Node, r: Ref, list: seq<EntryInfo>, version: nat)
    requires r in n.peers
    ensures SyncReply(n, r, list, version).peers == n.peers[r := SyncEntry(n.peers[r], list, version)]
  {
  }

  /** A notify that comes after the snapshot of its version, from the start, with every hypothesis kept: the record is
      at its owner's version and syncing, and the owner's keepalives leave it so. */
  lemma StuckReached(f: string, p: string, x: EntryInfo)
    requires f != p && x.isNew
    ensures
      var r, run := Ref(p, 0), SyncedRun(f, p, x) + Told(f, Ref(p, 0), x, 1);
      && Legal(Init({f, p}), run)
      && var s := Reached({f, p}, run);
         && f in s.nodes && p in s.nodes && r in s.nodes[f].peers
         && s.nodes[f].peers[r].status == Syncing && s.nodes[f].peers[r].version == s.nodes[p].sequence
         && KeepAlive(s.nodes[f], r, s.nodes[p].sequence) == s.nodes[f]
  {
    hide Key, Possible, Exec, AllTruthful, AllTimely, Init, Inv, SyncedRun, Enabled, Next, KeepAlive, Notify, OwnInv,
      PrefixInv;
    var r, s := Ref(p, 0), Init({f, p});
    Synced(f, p, x);
    var s4 := Exec(s, SyncedRun(f, p, x));
    ReachedInv({f, p}, SyncedRun(f, p, x));
    ServedHere(s4, p);
    Sends(s4, p, 1, 0, []);
    var s5 := Next(s4, SendNotify(p, 1));
    Receives(s5, f, r, NotifyMsg(p, x, 1));
    Two(s4, SendNotify(p, 1), RecvNotify(f, r, NotifyMsg(p, x, 1)));
    assert Truthful(s4, SendNotify(p, 1));
    Concat(s, SyncedRun(f, p, x), Told(f, r, x, 1));
    Convergence.StuckSyncing(s4.nodes[f], r, x, x);
  }

  // ---- Late ends, from the start ----

  function ReplacedRun(f: string, p: string, x: EntryInfo): seq<Event>
  {
    SyncedRun(f, p, x) + [Expire(f, Ref(p, 0)), Meet(f, p, 1)]
  }

  /** The first node gave up its record of the second, which holds the entry, and has met it again. */
  lemma SyncedThenReplaced(f: string, p: string, x: EntryInfo)
    requires f != p && x.isNew
    ensures Legal(Init({f, p}), ReplacedRun(f, p, x))
    ensures
      var s := Reached({f, p}, ReplacedRun(f, p, x));
      && f in s.nodes && p in s.nodes && s.nodes[p].self == Replica(Alive, 1, map[KeyOf(x) := x])
      && s.nodes[f].names == map[p := Ref(p, 1)]
      && s.nodes[f].peers ==
           map[Ref(p, 0) := Replica(Dead, 1, map[KeyOf(x) := x]), Ref(p, 1) := Replica(Alive, 0, map[])]
  {
    hide Key, KeyOf, Possible, Exec, AllTruthful, AllTimely, Init, SyncedRun, DeleteKeys;
    Synced(f, p, x);
    Two(Exec(Init({f, p}), SyncedRun(f, p, x)), Expire(f, Ref(p, 0)), Meet(f, p, 1));
    Concat(Init({f, p}), SyncedRun(f, p, x), [Expire(f, Ref(p, 0)), Meet(f, p, 1)]);
  }

  /** The record of the first node was given up and replaced, and both the old record and the new one hold the entry. */
  function SuccessionRun(f: string, p: string, x: EntryInfo): seq<Event>
  {
    ReplacedRun(f, p, x) + [SendSnapshot(p, 1, [x]), RecvSnapshot(f, Ref(p, 1), SnapshotMsg(p, 1, [x]))]
  }

  ghost predicate Succeeded(s: State, f: string, p: string, x: EntryInfo)
  {
    && f in s.nodes && Ref(p, 0) in s.nodes[f].peers && Ref(p, 1) in s.nodes[f].peers && Current(s.nodes[f], Ref(p, 1))
    && s.nodes[f].peers[Ref(p, 0)] == Replica(Dead, 1, map[KeyOf(x) := x])
    && s.nodes[f].peers[Ref(p, 1)] == Replica(Alive, 1, map[KeyOf(x) := x])
  }

  lemma Succession(f: string, p: string, x: EntryInfo)
    requires f != p && x.isNew
    ensures Legal(Init({f, p}), SuccessionRun(f, p, x)) && Succeeded(Reached({f, p}, SuccessionRun(f, p, x)), f, p, x)
  {
    hide Key, KeyOf, Possible, Exec, AllTruthful, AllTimely, Init, ReplacedRun, SyncReply, Enumerates;
    SyncedThenReplaced(f, p, x);
    var s := Exec(Init({f, p}), ReplacedRun(f, p, x));
    OneEntry(x);
    ExchangeRun(s, f, Ref(p, 1), [x]);
    Concat(Init({f, p}), ReplacedRun(f, p, x), Exchange(s, f, Ref(p, 1), [x]));
    SnapshotTaken(s.nodes[f], Ref(p, 1), [x], map[KeyOf(x) := x]);
  }

  /** A goodbye, a timeout or a last close of the old record, handled only now: the new record, live and holding the
      entry, loses its listing, or its name, or both. */
  lemma LateEndsReached(f: string, p: string, x: EntryInfo)
    requires f != p && x.isNew
    ensures
      var s, was, next := Init({f, p}), Ref(p, 0), Ref(p, 1);
      var goodbye, timeout, closed := SuccessionRun(f, p, x) + [RecvGoodbye(f, was)],
        SuccessionRun(f, p, x) + [Expire(f, was)], SuccessionRun(f, p, x) + [LastClose(f, was)];
      && Possible(s, goodbye) && Possible(s, timeout) && Possible(s, closed)
      && Delisted(Exec(s, goodbye), f, next, KeyOf(x)) && Delisted(Exec(s, timeout), f, next, KeyOf(x))
      && Unregistered(Exec(s, timeout), f, next) && Unregistered(Exec(s, closed), f, next)
  {
    hide Key, KeyOf, Possible, Exec, AllTruthful, AllTimely, Init, Inv, SuccessionRun, Delisted, Unregistered,
      Succeeded;
    var s, was := Init({f, p}), Ref(p, 0);
    Succession(f, p, x);
    var s8 := Exec(s, SuccessionRun(f, p, x));
    LateEnds(s8, f, p, x);
    One(s8, RecvGoodbye(f, was));
    One(s8, Expire(f, was));
    One(s8, LastClose(f, was));
    Concat(s, SuccessionRun(f, p, x), [RecvGoodbye(f, was)]);
    Concat(s, SuccessionRun(f, p, x), [Expire(f, was)]);
    Concat(s, SuccessionRun(f, p, x), [LastClose(f, was)]);
  }

  /** Live, holding the key, and not listed for it. */
  ghost predicate Delisted(s: State, f: string, r: Ref, k: string)
  {
    && f in s.nodes && r in s.nodes[f].peers && s.nodes[f].peers[r].status == Alive && k in s.nodes[f].peers[r].entries
    && Occ(s.nodes[f].index, k, r) == 0
  }

  /** Live, and not known by its name. */
  ghost predicate Unregistered(s: State, f: string, r: Ref)
  {
    && f in s.nodes && r in s.nodes[f].peers && s.nodes[f].peers[r].status == Alive && r.name !in s.nodes[f].names
  }

  lemma LateEnds(s: State, f: string, p: string, x: EntryInfo)
    requires Succeeded(s, f, p, x)
    ensures
      var was, next := Ref(p, 0), Ref(p, 1);
      && Enabled(s, RecvGoodbye(f, was)) && Enabled(s, Expire(f, was)) && Enabled(s, LastClose(f, was))
      && Delisted(Next(s, RecvGoodbye(f, was)), f, next, KeyOf(x))
        && Delisted(Next(s, Expire(f, was)), f, next, KeyOf(x))
      && Unregistered(Next(s, Expire(f, was)), f, next) && Unregistered(Next(s, LastClose(f, was)), f, next)
  {
    hide KeyOf, Occ, DeleteKeys;
    DeleteKeysCount(s.nodes[f].index, p, s.nodes[f].peers[Ref(p, 0)].entries.Keys, KeyOf(x), Ref(p, 1));
  }
}
