/** What the invariants of the mesh mean for its users: replicas, the index, local changes and lookups, each in every
    state reached under the hypotheses it needs and no others. */
module MeshTheorems {
  import opened Entries
  import opened Replicas
  import opened Indexes
  import opened Nodes
  import opened NodeSteps
  import opened Mesh

  /** A record at version v holds exactly what its owner served after v changes: in every run whose messages are
      truthful, for every record, live, syncing, dead or replaced, however late anything is handled. */
  lemma ReplicaPrefixAgreement(names: set<string>, run: seq<Event>, f: string, r: Ref)
    requires Possible(Init(names), run) && AllTruthful(Init(names), run)
    requires f in Reached(names, run).nodes && r in Reached(names, run).nodes[f].peers
    ensures
      var s := Reached(names, run);
      var rep, log := s.nodes[f].peers[r], LogOf(s.logs, r.name);
      rep.version <= |log| && rep.entries == EntriesAt(log, rep.version)
  {
    hide OwnInv, EntriesAt, Faithful;
    ReachedInv(names, run);
    assert Prefixes(Reached(names, run).nodes[f].peers, Reached(names, run).logs);
  }

  /** A live record is listed exactly once per key it holds and under no other, a syncing one at most that
      often, a dead one never. */
  lemma IndexAgreement(names: set<string>, run: seq<Event>, f: string, r: Ref, k: string)
    requires Legal(Init(names), run)
    requires f in Reached(names, run).nodes && r in Reached(names, run).nodes[f].peers
    ensures
      var n := Reached(names, run).nodes[f];
      var held := if k in n.peers[r].entries then 1 else 0;
      match n.peers[r].status
      case Alive => Occ(n.index, k, r) == held
      case Syncing => Occ(n.index, k, r) <= held
      case Dead => Occ(n.index, k, r) == 0
  {
    hide Occ, PrefixInv, Registered;
    ReachedInv(names, run);
    assert Indexed(Reached(names, run).nodes[f]);
  }

  lemma PickedRecord(n: Node, r: Ref, k: string)
    requires Indexed(n) && r in At(n.index, k) && r.name != n.name
    ensures r in n.peers && Current(n, r) && n.peers[r].status != Dead && k in n.peers[r].entries
  {
    assert Occ(n.index, k, r) > 0;
    assert r in n.peers && Listed(n.index, r, n.peers[r]);
  }

  /** Whatever remote record a dispatch picks under a key is the one registered under its name, is not dead,
      and its owner served that key after the number of changes the record is at. */
  lemma DispatchTarget(names: set<string>, run: seq<Event>, f: string, r: Ref, k: string)
    requires Legal(Init(names), run)
    requires f in Reached(names, run).nodes
    requires r in At(Reached(names, run).nodes[f].index, k) && r.name != f
    ensures
      var s := Reached(names, run);
      var n, log := s.nodes[f], LogOf(s.logs, r.name);
      && r in n.peers && Current(n, r) && n.peers[r].status != Dead
      && n.peers[r].version <= |log| && k in EntriesAt(log, n.peers[r].version)
  {
    hide EntriesAt, OwnInv, Faithful;
    ReachedInv(names, run);
    ServedHere(Reached(names, run), f);
    PickedRecord(Reached(names, run).nodes[f], r, k);
    assert Prefixes(Reached(names, run).nodes[f].peers, Reached(names, run).logs);
  }

  ghost function Scan(n: Node, k: string, syncing: bool): set<Ref>
  {
    set r | r in n.peers && k in n.peers[r].entries
            && (n.peers[r].status == Alive || (syncing && n.peers[r].status == Syncing))
  }

  /** The index against the search it saves: what it lists under a key are, each once, all live records holding the
      key, and besides them at most records that hold it and are being synchronised. */
  lemma LookupRefinesScan(names: set<string>, run: seq<Event>, f: string, k: string, r: Ref)
    requires Legal(Init(names), run) && f in Reached(names, run).nodes && r.name != f
    ensures
      var n := Reached(names, run).nodes[f];
      && Occ(n.index, k, r) <= 1
      && (r in Scan(n, k, false) ==> r in At(n.index, k))
      && (r in At(n.index, k) ==> r in Scan(n, k, true))
  {
    hide OwnInv, Prefixes, Faithful, Indexed, Occ, Scan;
    ReachedInv(names, run);
    ServedHere(Reached(names, run), f);
    assert Indexed(Reached(names, run).nodes[f]);
    IndexRefinesScan(Reached(names, run).nodes[f], k, r);
  }

  lemma IndexRefinesScan(n: Node, k: string, r: Ref)
    requires Indexed(n) && r.name != n.name
    ensures Occ(n.index, k, r) <= 1
    ensures r in Scan(n, k, false) ==> r in At(n.index, k)
    ensures r in At(n.index, k) ==> r in Scan(n, k, true)
  {
    assert r in At(n.index, k) <==> Occ(n.index, k, r) > 0;
    if r in n.peers {
      assert Listed(n.index, r, n.peers[r]);
    }
  }

  // ---- The node's own changes ----

  /** Lock step in every state that can be reached at all, with no hypothesis: the next local change is never taken for
      a version gap, and what the node serves is what all its accepted changes add up to. */
  lemma OwnerLockStep(names: set<string>, run: seq<Event>, f: string, e: EntryInfo)
    requires Possible(Init(names), run) && f in Reached(names, run).nodes
    ensures
      var s := Reached(names, run);
      var n, log := s.nodes[f], LogOf(s.logs, f);
      && n.sequence == n.self.version == |log| && n.self.entries == EntriesAt(log, |log|)
      && !ModifyEntry(n.self, [e], n.sequence + 1).needSync
  {
    hide OwnListed, EntriesAt, KeyOf, PrefixInv, Inv, Guarded;
    ReachedInv(names, run);
    AtNode(Reached(names, run), f);
  }

  /** A local addition takes effect exactly if the sequence number and the record's version agree. */
  lemma LocalAdditionTakesEffectIff(n: Node, uri: string, t: int)
    requires Accepts(n, uri, t)
    ensures Key(uri, t) in AddEntry(n, uri, t).self.entries <==> n.sequence == n.self.version
  {
    hide Key, Append;
    if n.sequence == n.self.version {
      ModifyOne(n.self, EntryInfo(uri, t, true));
    }
  }

  /** Serving a key means that the last change about it was an addition. */
  lemma {:induction false} ServedIffLastIsAddition(log: seq<EntryInfo>, k: string)
    ensures k in EntriesAt(log, |log|) <==>
      exists i :: 0 <= i < |log| && log[i].isNew && KeyOf(log[i]) == k
                  && forall j :: i < j < |log| ==> log[j].isNew || KeyOf(log[j]) != k
  {
    hide KeyOf;
    if log != [] {
      var n := |log| - 1;
      var init, e := log[..n], log[n];
      ServedIffLastIsAddition(init, k);
      assert log == init + [e];
      EntriesAtExtend(init, e, n);
      assert init[..n] == init;
      if KeyOf(e) == k {
      } else if k in EntriesAt(init, n) {
        var i :| 0 <= i < |init| && init[i].isNew && KeyOf(init[i]) == k
                 && forall j :: i < j < |init| ==> init[j].isNew || KeyOf(init[j]) != k;
        assert log[i] == init[i];
        assert forall j :: i < j < n ==> log[j] == init[j];
      }
    }
  }

  /** So does a withdrawal. */
  lemma LocalWithdrawalTakesEffectIff(n: Node, uri: string, t: int)
    requires Key(uri, t) in n.self.entries
    ensures Key(uri, t) !in RemoveEntry(n, uri, t).self.entries <==> n.sequence == n.self.version
  {
    hide Key, DropName;
    if n.sequence == n.self.version {
      ModifyOne(n.self, EntryInfo(uri, t, false));
    }
  }

  // ---- Lookups of the node's own entries ----

  datatype Lookup = Found | EntryNotFound

  /** EntryCheck, and the test DEFAULT dispatch makes before it picks a node. */
  function EntryCheck(n: Node, uri: string, t: int): Lookup
  {
    if |At(n.index, Key(uri, t))| > 0 then Found else EntryNotFound
  }

  /** A withdrawal struck `k` as a bare URI and `k` was not added again since. */
  ghost predicate Struck(log: seq<EntryInfo>, k: string)
  {
    exists i :: 0 <= i < |log| && !log[i].isNew && log[i].uri == k
                && forall j :: i < j < |log| ==> !(log[j].isNew && KeyOf(log[j]) == k)
  }

  ghost function Additions(log: seq<EntryInfo>, k: string): nat
  {
    if log == [] then 0
    else Additions(log[..|log| - 1], k) + if log[|log| - 1].isNew && KeyOf(log[|log| - 1]) == k then 1 else 0
  }

  /** Unless some withdrawn URI equals the key, the node is listed once per accepted addition: the withdrawals
      meant to undo them look under the wrong string. */
  lemma {:induction false} ListingsAreAdditions(log: seq<EntryInfo>, k: string)
    requires forall i :: 0 <= i < |log| && !log[i].isNew ==> log[i].uri != k
    ensures AddsSince(log, k) == Additions(log, k)
  {
    hide KeyOf;
    if log != [] {
      ListingsAreAdditions(log[..|log| - 1], k);
    }
  }

  lemma {:induction false} ListedIffNotStruck(log: seq<EntryInfo>, k: string)
    ensures AddsSince(log, k) > 0 <==> !Struck(log, k) && Additions(log, k) > 0
  {
    hide KeyOf;
    if log != [] {
      var init, e := log[..|log| - 1], log[|log| - 1];
      ListedIffNotStruck(init, k);
      StruckSnoc(init, e, k);
      assert log == init + [e];
    }
  }

  lemma StruckSnoc(log: seq<EntryInfo>, e: EntryInfo, k: string)
    ensures Struck(log + [e], k) <==>
      !(e.isNew && KeyOf(e) == k) && ((!e.isNew && e.uri == k) || Struck(log, k))
  {
    hide KeyOf;
    var l := log + [e];
    assert l[|log|] == e;
    if Struck(l, k) {
      var i :| 0 <= i < |l| && !l[i].isNew && l[i].uri == k
               && forall j :: i < j < |l| ==> !(l[j].isNew && KeyOf(l[j]) == k);
      if i < |log| {
        assert log[i] == l[i];
        assert forall j :: i < j < |log| ==> log[j] == l[j];
      }
    }
    if Struck(log, k) && !(e.isNew && KeyOf(e) == k) {
      var i :| 0 <= i < |log| && !log[i].isNew && log[i].uri == k
               && forall j :: i < j < |log| ==> !(log[j].isNew && KeyOf(log[j]) == k);
      assert l[i] == log[i];
      assert forall j :: i < j < |log| ==> l[j] == log[j];
    }
  }

  lemma {:induction false} ServedWasAdded(log: seq<EntryInfo>, k: string)
    requires k in EntriesAt(log, |log|)
    ensures Additions(log, k) > 0
  {
    hide KeyOf;
    if log != [] {
      var n := |log| - 1;
      assert log == log[..n] + [log[n]] && log[..n][..n] == log[..n];
      EntriesAtExtend(log[..n], log[n], n);
      if !(log[n].isNew && KeyOf(log[n]) == k) {
        ServedWasAdded(log[..n], k);
      }
    }
  }

  /** The additions of one URI under one type. */
  ghost function AdditionsOf(log: seq<EntryInfo>, uri: string, t: int): nat
  {
    if log == [] then 0
    else
      var e := log[|log| - 1];
      AdditionsOf(log[..|log| - 1], uri, t) + if e.isNew && e.uri == uri && e.entryType == t then 1 else 0
  }

  /** Because keys are injective, the additions under a key are the additions of its URI and type. */
  lemma {:induction false} KeyCountsUriAndType(log: seq<EntryInfo>, uri: string, t: int)
    ensures Additions(log, Key(uri, t)) == AdditionsOf(log, uri, t)
  {
    hide Key;
    if log != [] {
      var e := log[|log| - 1];
      KeyCountsUriAndType(log[..|log| - 1], uri, t);
      if KeyOf(e) == Key(uri, t) {
        KeyInjective(e.uri, e.entryType, uri, t);
      }
    }
  }

  /** In every state that can be reached at all, until the node stops: a served entry is listed under its key, so that
      EntryCheck and DEFAULT dispatch find it, exactly unless a withdrawn URI equal to that key struck it; and if no
      such URI was ever withdrawn, it is listed once per accepted addition of that URI and type. */
  lemma OwnEntryFoundIff(names: set<string>, run: seq<Event>, f: string, uri: string, t: int)
    requires Possible(Init(names), run) && f in Reached(names, run).nodes
    requires Reached(names, run).nodes[f].self.status != Dead
    requires Key(uri, t) in Reached(names, run).nodes[f].self.entries
    ensures
      var s := Reached(names, run);
      var n, log, k := s.nodes[f], LogOf(s.logs, f), Key(uri, t);
      && (SelfRef(n) in At(n.index, k) <==> !Struck(log, k))
      && (!Struck(log, k) ==> EntryCheck(n, uri, t) == Found)
      && ((forall i :: 0 <= i < |log| && !log[i].isNew ==> log[i].uri != k) ==>
            Occ(n.index, k, SelfRef(n)) == AdditionsOf(log, uri, t))
  {
    hide EntriesAt, Key, KeyOf, Struck, PrefixInv, Inv, Guarded;
    var s, k := Reached(names, run), Key(uri, t);
    ReachedInv(names, run);
    AtNode(s, f);
    var n, log := s.nodes[f], LogOf(s.logs, f);
    ListedIffNotStruck(log, k);
    ServedWasAdded(log, k);
    assert Occ(n.index, k, SelfRef(n)) == AddsSince(log, k);
    if forall i :: 0 <= i < |log| && !log[i].isNew ==> log[i].uri != k {
      ListingsAreAdditions(log, k);
      KeyCountsUriAndType(log, uri, t);
    }
  }

  /** After every truthful and timely run, for entries of other nodes: EntryCheck finds a key that any live record
      holds, and finds a key only if the node itself is listed for it or some record that is live or being synchronised
      holds it. */
  lemma RemoteEntryFound(names: set<string>, run: seq<Event>, f: string, uri: string, t: int)
    requires Legal(Init(names), run) && f in Reached(names, run).nodes
    ensures
      var n, k := Reached(names, run).nodes[f], Key(uri, t);
      && (Scan(n, k, false) != {} ==> EntryCheck(n, uri, t) == Found)
      && (EntryCheck(n, uri, t) == Found ==> SelfRef(n) in At(n.index, k) || Scan(n, k, true) != {})
  {
    hide OwnInv, Prefixes, Faithful, Indexed, Occ, Scan, Key;
    ReachedInv(names, run);
    assert Indexed(Reached(names, run).nodes[f]);
    CheckRefinesScan(Reached(names, run).nodes[f], Key(uri, t));
  }

  lemma CheckRefinesScan(n: Node, k: string)
    requires Indexed(n)
    ensures Scan(n, k, false) != {} ==> At(n.index, k) != []
    ensures At(n.index, k) != [] ==> SelfRef(n) in At(n.index, k) || Scan(n, k, true) != {}
  {
    if Scan(n, k, false) != {} {
      var r :| r in Scan(n, k, false);
      IndexRefinesScan(n, k, r);
    }
    if At(n.index, k) != [] {
      var x := At(n.index, k)[0];
      assert Occ(n.index, k, x) > 0;
      if x != SelfRef(n) {
        IndexRefinesScan(n, k, x);
      }
    }
  }
}
