/** What each handler of a node keeps: one lemma per handler, for every state and every argument. */
module NodeSteps {
  import opened Entries
  import opened Replicas
  import opened Indexes
  import opened Nodes

  // ---- The node's own entries ----

  lemma ModifyOne(r: Replica, e: EntryInfo)
    ensures ModifyEntry(r, [e], r.version + 1) ==
      if e.isNew && r.status == Dead then Modified(r.(version := r.version + 1), false, [])
      else Modified(r.(version := r.version + 1, entries := Apply(r.entries, e)), false, [e])
  {
    hide KeyOf;
    EffectiveSnoc([], e, r.status != Dead);
    ApplyAllSnoc(r.entries, [], e);
    assert [] + [e] == [e];
  }

  lemma AddsSinceSnoc(log: seq<EntryInfo>, e: EntryInfo, k: string)
    ensures AddsSince(log + [e], k) ==
      if e.isNew && KeyOf(e) == k then AddsSince(log, k) + 1
      else if !e.isNew && e.uri == k then 0 else AddsSince(log, k)
  {
    hide KeyOf;
    assert (log + [e])[..|log|] == log;
  }

  lemma GuardedSnoc(log: seq<EntryInfo>, e: EntryInfo)
    requires Guarded(log) && (e.isNew ==> KeyOf(e) !in EntriesAt(log, |log|))
    ensures Guarded(log + [e])
  {
    hide KeyOf, EntriesAt;
    forall i | 0 <= i < |log + [e]| && (log + [e])[i].isNew
      ensures KeyOf((log + [e])[i]) !in EntriesAt(log + [e], i)
    {
      EntriesAtExtend(log, e, i);
    }
  }

  /** AddEntry never takes the version-gap branch: the history, the version and the entries grow together. */
  lemma AddEntryLockStep(n: Node, log: seq<EntryInfo>, uri: string, t: int)
    requires LockStep(n, log)
    ensures LockStep(AddEntry(n, uri, t), AddLog(n, log, uri, t))
  {
    hide Key, EntriesAt, Append;
    if Accepts(n, uri, t) {
      var e := EntryInfo(uri, t, true);
      ModifyOne(n.self, e);
      EntriesAtExtend(log, e, |log|);
      GuardedSnoc(log, e);
    }
  }

  lemma RemoveEntryLockStep(n: Node, log: seq<EntryInfo>, uri: string, t: int)
    requires LockStep(n, log)
    ensures LockStep(RemoveEntry(n, uri, t), RemoveLog(log, uri, t))
  {
    hide Key, EntriesAt, DropName;
    var e := EntryInfo(uri, t, false);
    ModifyOne(n.self, e);
    EntriesAtExtend(log, e, |log|);
    GuardedSnoc(log, e);
  }

  lemma AddEntryOwn(n: Node, log: seq<EntryInfo>, uri: string, t: int)
    requires Own(n, log)
    ensures Own(AddEntry(n, uri, t), AddLog(n, log, uri, t))
  {
    hide Key, Occ, AddsSince, LockStep;
    AddEntryLockStep(n, log, uri, t);
    if Accepts(n, uri, t) {
      var e := EntryInfo(uri, t, true);
      forall k ensures Occ(AddEntry(n, uri, t).index, k, SelfRef(n)) == AddsSince(log + [e], k) {
        AppendCount(n.index, KeyOf(e), SelfRef(n), k, SelfRef(n));
        AddsSinceSnoc(log, e, k);
      }
    }
  }

  lemma RemoveEntryOwn(n: Node, log: seq<EntryInfo>, uri: string, t: int)
    requires Own(n, log)
    ensures Own(RemoveEntry(n, uri, t), RemoveLog(log, uri, t))
  {
    hide Key, Occ, AddsSince, EntriesAt, Guarded;
    RemoveEntryLockStep(n, log, uri, t);
    var e := EntryInfo(uri, t, false);
    ModifyOne(n.self, e);
    if n.self.status != Dead {
      forall k ensures Occ(RemoveEntry(n, uri, t).index, k, SelfRef(n)) == AddsSince(log + [e], k) {
        DropNameCount(n.index, uri, n.name, k, SelfRef(n));
        AddsSinceSnoc(log, e, k);
      }
    }
  }

  lemma StopOwn(n: Node, log: seq<EntryInfo>)
    requires Own(n, log)
    ensures Own(Stop(n), log)
  {
    hide Occ, EntriesAt, DeleteKeys, AddsSince;
  }

  lemma LearnOwn(n: Node, log: seq<EntryInfo>, name: string, id: nat)
    requires Own(n, log)
    ensures Own(Learn(n, name, id), log)
  {
    hide Occ, EntriesAt, AddsSince;
  }

  // ---- Updates that leave the listings of other records alone ----

  /** The index changed only for records in `touched`. */
  ghost predicate SameOutside(a: Index, b: Index, touched: iset<Ref>)
  {
    forall k, x :: x !in touched ==> Occ(a, k, x) == Occ(b, k, x)
  }

  lemma ListedElsewhere(a: Index, b: Index, touched: iset<Ref>, r: Ref, rep: Replica)
    requires SameOutside(a, b, touched) && r !in touched
    ensures Listed(a, r, rep) ==> Listed(b, r, rep)
    ensures Unlisted(a, r) ==> Unlisted(b, r)
  {
    hide Occ;
  }

  ghost function Named(name: string): iset<Ref>
  {
    iset r: Ref | r.name == name
  }

  /** The node's own listing is untouched by what happens to a record of another node, whatever is received
      for it and whether or not the record is still registered. */
  lemma PeerStepOwn(n: Node, n': Node, log: seq<EntryInfo>, r: Ref)
    requires Own(n, log) && r in n.peers
    requires n'.name == n.name && n'.self == n.self && n'.sequence == n.sequence && n'.peers.Keys == n.peers.Keys
    requires SameOutside(n.index, n'.index, Named(r.name))
    ensures Own(n', log)
  {
    hide Occ, EntriesAt, AddsSince, Guarded;
    assert SelfRef(n) !in Named(r.name);
  }

  lemma NotifyElsewhere(n: Node, r: Ref, list: seq<EntryInfo>, version: nat)
    requires r in n.peers
    ensures SameOutside(n.index, Notify(n, r, list, version).index, Named(r.name))
  {
    hide Occ, ApplyChanges;
    var changed := ModifyEntry(n.peers[r], list, version).changed;
    forall k, x | x != r ensures Occ(ApplyChanges(n.index, r, changed), k, x) == Occ(n.index, k, x) {
      OthersUntouched(n.index, r, changed, k, x);
    }
  }

  lemma SyncReplyElsewhere(n: Node, r: Ref, list: seq<EntryInfo>, version: nat)
    requires r in n.peers
    ensures SameOutside(n.index, SyncReply(n, r, list, version).index, Named(r.name))
  {
    hide Occ, AddEntries, DeleteKeys;
    var keys := n.peers[r].entries.Keys;
    forall k, x: Ref | x.name != r.name
      ensures Occ(AddEntries(DeleteKeys(n.index, r.name, keys), r, list), k, x) == Occ(n.index, k, x)
    {
      OthersUntouched(DeleteKeys(n.index, r.name, keys), r, list, k, x);
      DeleteKeysCount(n.index, r.name, keys, k, x);
    }
  }

  lemma GoodbyeElsewhere(n: Node, r: Ref)
    requires r in n.peers
    ensures SameOutside(n.index, Goodbye(n, r).index, Named(r.name))
  {
    hide Occ, DeleteKeys;
    var keys := n.peers[r].entries.Keys;
    forall k, x: Ref | x.name != r.name ensures Occ(DeleteKeys(n.index, r.name, keys), k, x) == Occ(n.index, k, x) {
      DeleteKeysCount(n.index, r.name, keys, k, x);
    }
  }

  // ---- What a record of another node claims ----

  /** A true notify keeps a record a prefix of its owner's history, duplicated, late or early. */
  lemma NotifyPrefix(rep: Replica, log: seq<EntryInfo>, e: EntryInfo, version: nat)
    requires Prefix(rep, log) && rep.status == Alive
    requires 0 < version <= |log| && e == log[version - 1]
    ensures Prefix(ModifyEntry(rep, [e], version).replica, log)
  {
    hide KeyOf, EntriesAt;
    if version == rep.version + 1 {
      ModifyOne(rep, e);
      EntriesAtStep(log, rep.version);
    }
  }

  /** A snapshot leaves a record a prefix exactly if it names what its owner served at the snapshot's version. */
  lemma SnapshotPrefixIff(rep: Replica, log: seq<EntryInfo>, list: seq<EntryInfo>, m: EntryMap, version: nat)
    requires Enumerates(list, m) && version <= |log|
    ensures Prefix(SyncEntry(rep, list, version), log) <==> m == EntriesAt(log, version)
  {
    hide EntriesAt;
    SnapshotRebuilds(list, m);
  }

  /** A change of instance zeroes the version: the record stays a prefix exactly if it holds nothing. */
  lemma ResetPrefixIff(rep: Replica, log: seq<EntryInfo>)
    ensures Prefix(rep.(version := 0), log) <==> rep.entries == map[]
  {
    EmptyPrefix(log);
  }

  lemma EmptyPrefix(log: seq<EntryInfo>)
    ensures EntriesAt(log, 0) == map[] && Prefix(Replica(Alive, 0, map[]), log)
  {
  }

  /** Histories only grow, and growth disturbs no record. */
  lemma GrowthPrefix(rep: Replica, log: seq<EntryInfo>, added: seq<EntryInfo>)
    requires Prefix(rep, log)
    ensures Prefix(rep, log + added)
  {
    assert (log + added)[..rep.version] == log[..rep.version];
  }

  // ---- The index under steps on the node's own entries ----

  /** A step on the node's own entries keeps everything listed about the others. */
  lemma OwnStepIndexed(n: Node, n': Node)
    requires Indexed(n)
    requires n'.name == n.name && n'.peers == n.peers && n'.names == n.names
    requires SameOutside(n.index, n'.index, Named(n.name))
    requires forall k, x :: x != SelfRef(n) ==> Occ(n'.index, k, x) <= Occ(n.index, k, x)
    ensures Indexed(n')
  {
    hide Occ;
    forall r | r in n.peers
      ensures Listed(n'.index, r, n'.peers[r]) && (Current(n', r) || Retired(n'.index, r, n'.peers[r]))
    {
      ListedElsewhere(n.index, n'.index, Named(n.name), r, n.peers[r]);
    }
  }

  lemma AddEntryIndexed(n: Node, uri: string, t: int)
    requires Indexed(n)
    ensures Indexed(AddEntry(n, uri, t))
  {
    hide Key, Occ, Indexed;
    var n' := AddEntry(n, uri, t);
    forall k, x | x != SelfRef(n) ensures Occ(n'.index, k, x) == Occ(n.index, k, x) {
      AppendCount(n.index, Key(uri, t), SelfRef(n), k, x);
    }
    OwnStepIndexed(n, n');
  }

  lemma RemoveEntryIndexed(n: Node, uri: string, t: int)
    requires Indexed(n)
    ensures Indexed(RemoveEntry(n, uri, t))
  {
    hide Key, Occ, Indexed;
    var n' := RemoveEntry(n, uri, t);
    forall k, x ensures Occ(n'.index, k, x) == if k == uri && x.name == n.name then 0 else Occ(n.index, k, x) {
      DropNameCount(n.index, uri, n.name, k, x);
    }
    OwnStepIndexed(n, n');
  }

  lemma StopIndexed(n: Node)
    requires Indexed(n)
    ensures Indexed(Stop(n))
  {
    hide Key, Occ, Indexed;
    var n' := Stop(n);
    forall k, x
      ensures Occ(n'.index, k, x) == if x.name == n.name && k in n.self.entries.Keys then 0 else Occ(n.index, k, x)
    {
      DeleteKeysCount(n.index, n.name, n.self.entries.Keys, k, x);
    }
    OwnStepIndexed(n, n');
  }

  // ---- The index under steps on one record of another node ----

  /** The shape of every step on a registered record `r`: other names untouched, retired records of the
      same name still unlisted, and `r` itself listed as its new status and entries say. */
  lemma CurrentStepIndexed(n: Node, n': Node, r: Ref, rep: Replica)
    requires Indexed(n) && r in n.peers && Current(n, r)
    requires n'.name == n.name && n'.peers == n.peers[r := rep]
    requires n'.names == n.names || (n'.names == n.names - {r.name} && Retired(n'.index, r, n'.peers[r]))
    requires SameOutside(n.index, n'.index, Named(r.name))
    requires forall k, x :: x != r ==> Occ(n'.index, k, x) <= Occ(n.index, k, x)
    requires Listed(n'.index, r, rep)
    ensures Indexed(n')
  {
    hide Occ, Listed, Retired;
    forall q | q in n.peers && q != r
      ensures Listed(n'.index, q, n'.peers[q]) && (Current(n', q) || Retired(n'.index, q, n'.peers[q]))
    {
      OtherRecord(n, n', r, q);
    }
  }

  lemma OtherRecord(n: Node, n': Node, r: Ref, q: Ref)
    requires q in n.peers && q != r && q in n'.peers && n'.peers[q] == n.peers[q] && Current(n, r)
    requires Listed(n.index, q, n.peers[q]) && (Current(n, q) || Retired(n.index, q, n.peers[q]))
    requires n'.names == n.names || n'.names == n.names - {r.name}
    requires SameOutside(n.index, n'.index, Named(r.name))
    requires forall k, x :: x != r ==> Occ(n'.index, k, x) <= Occ(n.index, k, x)
    ensures Listed(n'.index, q, n'.peers[q]) && (Current(n', q) || Retired(n'.index, q, n'.peers[q]))
  {
    hide Occ;
    if q.name == r.name {
      assert Retired(n.index, q, n.peers[q]);
    } else {
      ListedElsewhere(n.index, n'.index, Named(r.name), q, n.peers[q]);
    }
  }

  lemma GoodbyeIndexed(n: Node, r: Ref)
    requires Indexed(n) && r in n.peers && Current(n, r)
    ensures Indexed(Goodbye(n, r)) && Indexed(DeleteNode(n, r))
    ensures Goodbye(n, r).peers == n.peers[r := n.peers[r].(status := Dead)] && Unlisted(Goodbye(n, r).index, r)
    ensures forall k, x :: x != r ==> Occ(Goodbye(n, r).index, k, x) == Occ(n.index, k, x)
  {
    hide Occ;
    var n', keys := Goodbye(n, r), n.peers[r].entries.Keys;
    forall k, x
      ensures Occ(n'.index, k, x) == if x.name == r.name && k in keys then 0 else Occ(n.index, k, x)
    {
      DeleteKeysCount(n.index, r.name, keys, k, x);
    }
    CurrentStepIndexed(n, n', r, n'.peers[r]);
    CurrentStepIndexed(n, DeleteNode(n, r), r, n'.peers[r]);
  }

  /** A snapshot of any entry map brings a registered record of any status back to life, listed for that map. */
  lemma SyncReplyIndexed(n: Node, r: Ref, list: seq<EntryInfo>, m: EntryMap, version: nat)
    requires Indexed(n) && r in n.peers && Current(n, r) && Enumerates(list, m)
    ensures Indexed(SyncReply(n, r, list, version))
    ensures SyncReply(n, r, list, version).peers[r] == Replica(Alive, version, m)
  {
    hide Occ, Enumerates, KeyOf;
    var n', keys := SyncReply(n, r, list, version), n.peers[r].entries.Keys;
    SnapshotRebuilds(list, m);
    forall k, x
      ensures Occ(n'.index, k, x) ==
        (if x.name == r.name && k in keys then 0 else Occ(n.index, k, x)) + if x == r && k in m then 1 else 0
    {
      DeleteKeysCount(n.index, r.name, keys, k, x);
      AddEntriesCount(DeleteKeys(n.index, r.name, keys), r, list, m, k, x);
    }
    CurrentStepIndexed(n, n', r, n'.peers[r]);
  }

  /** The owner's guard and the receiver's version gate together: the next change of the owner's history is
      applied to exactly the state it was made in, so an addition lists the record once and not twice. */
  lemma NotifyIndexed(n: Node, r: Ref, log: seq<EntryInfo>, e: EntryInfo, version: nat)
    requires Indexed(n) && r in n.peers && Prefix(n.peers[r], log) && Guarded(log)
    requires 0 < version <= |log| && e == log[version - 1]
    ensures Indexed(Notify(n, r, [e], version))
  {
    hide Occ, EntriesAt, KeyOf, Indexed, ApplyChanges;
    var n', rep := Notify(n, r, [e], version), n.peers[r];
    if rep.status == Alive {
      LiveIsCurrent(n, r);
      if version == rep.version + 1 {
        NextChange(n, r, e);
      } else {
        StatusStepIndexed(n, n', r);
      }
    }
  }

  lemma LiveIsCurrent(n: Node, r: Ref)
    requires Indexed(n) && r in n.peers && n.peers[r].status == Alive
    ensures Current(n, r)
  {
    hide Occ, Listed;
  }

  lemma NextChange(n: Node, r: Ref, e: EntryInfo)
    requires Indexed(n) && r in n.peers && n.peers[r].status == Alive && Current(n, r)
    requires e.isNew ==> KeyOf(e) !in n.peers[r].entries
    ensures Indexed(Notify(n, r, [e], n.peers[r].version + 1))
  {
    hide Occ, KeyOf, Registered, Listed, ApplyChanges, Apply, SameOutside;
    var n', rep := Notify(n, r, [e], n.peers[r].version + 1), n.peers[r];
    ModifyOne(rep, e);
    ChangeListed(n.index, r, rep, e);
    CurrentStepIndexed(n, n', r, n'.peers[r]);
  }

  lemma ChangeListed(ix: Index, r: Ref, rep: Replica, e: EntryInfo)
    requires rep.status == Alive && Listed(ix, r, rep) && (e.isNew ==> KeyOf(e) !in rep.entries)
    ensures forall v :: Listed(ApplyChanges(ix, r, [e]), r, Replica(Alive, v, Apply(rep.entries, e)))
    ensures SameOutside(ix, ApplyChanges(ix, r, [e]), Named(r.name))
    ensures forall k, x :: x != r ==> Occ(ApplyChanges(ix, r, [e]), k, x) <= Occ(ix, k, x)
  {
    hide Occ, KeyOf, ApplyChanges;
    forall k, x
      ensures Occ(ApplyChanges(ix, r, [e]), k, x) ==
        if x != r || k != KeyOf(e) then Occ(ix, k, x) else if e.isNew then Occ(ix, k, x) + 1 else 0
    {
      ApplyChangeCount(ix, r, e, k, x);
    }
  }

  /** Falling back to syncing claims nothing new, for a registered record or a retired one. */
  lemma StatusStepIndexed(n: Node, n': Node, r: Ref)
    requires Indexed(n) && r in n.peers
    requires n' == n.(peers := n.peers[r := n.peers[r].(status := Syncing)])
    ensures Indexed(n')
  {
    hide Occ, Listed, Retired;
    SyncingClaimsLess(n.index, r, n.peers[r]);
  }

  lemma SyncingClaimsLess(ix: Index, r: Ref, rep: Replica)
    ensures Listed(ix, r, rep) ==> Listed(ix, r, rep.(status := Syncing))
    ensures Retired(ix, r, rep) ==> Retired(ix, r, rep.(status := Syncing))
  {
    hide Occ;
  }

  lemma StartSyncIndexed(n: Node, r: Ref, version: nat)
    requires Indexed(n) && r in n.peers
    ensures Indexed(StartSync(n, r, version)) && Indexed(KeepAlive(n, r, version))
  {
    hide Indexed;
    assert n.(peers := n.peers[r := n.peers[r]]) == n;
    StatusStepIndexed(n, n.(peers := n.peers[r := n.peers[r].(status := Syncing)]), r);
  }

  lemma CloseLastIndexed(n: Node, r: Ref)
    requires Indexed(n) && r in n.peers && Current(n, r)
    ensures Indexed(CloseLast(n, r))
  {
    hide Occ;
  }

  lemma LearnIndexed(n: Node, name: string, id: nat)
    requires Indexed(n) && Ref(name, id) !in n.peers
    ensures Indexed(Learn(n, name, id))
  {
    hide Occ, Listed, Retired;
    var n', r := Learn(n, name, id), Ref(name, id);
    if n' != n {
      assert Listed(n'.index, r, n'.peers[r]) by {
        NewlyListed(n.index, r, n.peers.Keys, SelfRef(n));
      }
    }
  }

  lemma NewlyListed(ix: Index, r: Ref, known: set<Ref>, self: Ref)
    requires forall k, x :: Occ(ix, k, x) > 0 ==> x in known || x == self
    requires r !in known && r != self
    ensures Listed(ix, r, Replica(Alive, 0, map[]))
  {
    hide Occ;
  }

  /** The version plays no part in a record's listing. */
  lemma ResetIndexed(n: Node, r: Ref)
    requires Indexed(n) && r in n.peers
    ensures Indexed(ResetInstance(n, r))
  {
    hide Occ, Listed, Retired;
    VersionUnlisted(n.index, r, n.peers[r]);
  }

  lemma VersionUnlisted(ix: Index, r: Ref, rep: Replica)
    ensures Listed(ix, r, rep) <==> Listed(ix, r, rep.(version := 0))
    ensures Retired(ix, r, rep) <==> Retired(ix, r, rep.(version := 0))
  {
    hide Occ;
  }
}
