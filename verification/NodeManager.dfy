/** The node manager as the object the handlers update in place (node/manager.go NodeManager), each handler
    proved against the function of Nodes it carries out. */
module NodeManagers {
  import opened Entries
  import opened Replicas
  import opened Indexes
  import opened Nodes
  import Seqs

  class NodeManager {
    const self: Info
    var sequence: nat
    var index: Index
    /** Every record that some connection or task may still refer to. */
    var infos: map<Ref, Info>
    /** mNodeInfo without the node itself. */
    var names: map<string, Ref>

    ghost predicate Valid()
      reads this, self, infos.Values
    {
      && self.ref.id == 0 && WellKeyed(self.entries)
      && (forall r :: r in infos ==> infos[r].ref == r && infos[r] != self && WellKeyed(infos[r].entries))
      && (forall p :: p in names ==> names[p] in infos)
    }

    ghost function Value(): Node
      reads this, self, infos.Values
    {
      Node(self.ref.name, self.Value(), sequence, index, Peers(), names)
    }

    ghost function Peers(): map<Ref, Replica>
      reads this`infos, infos.Values
      ensures Peers().Keys == infos.Keys
    {
      map r | r in infos :: infos[r].Value()
    }

    constructor (name: string, instanceId: nat)
      ensures Valid() && fresh(self)
      ensures Value() == NewNode(name)
    {
      self := new Info(Ref(name, 0), instanceId);
      sequence, index, infos, names := 0, map[], map[], map[];
    }

    // ---- Own entries ----

    /** `announced` is what a task then broadcasts. */
    method AddEntry(uri: string, t: int) returns (announced: seq<EntryInfo>)
      requires Valid()
      modifies this, self
      ensures Valid() && infos == old(infos)
      ensures Value() == Nodes.AddEntry(old(Value()), uri, t)
      ensures announced ==
        if Accepts(old(Value()), uri, t)
        then ModifyEntry(old(self.Value()), [EntryInfo(uri, t, true)], old(sequence) + 1).changed else []
    {
      hide Key, ModifyEntry;
      var entry := EntryInfo(uri, t, true);
      if KeyOf(entry) in self.entries || self.status == Dead {
        return [];
      }
      index := Append(index, KeyOf(entry), self.ref);
      sequence := sequence + 1;
      var needSync;
      needSync, announced := self.ModifyEntries([entry], sequence);
      ModifiedWellKeyed(old(self.Value()), [entry], sequence);
    }

    method RemoveEntry(uri: string, t: int) returns (announced: seq<EntryInfo>)
      requires Valid()
      modifies this, self
      ensures Valid() && infos == old(infos)
      ensures Value() == Nodes.RemoveEntry(old(Value()), uri, t)
      ensures announced == ModifyEntry(old(self.Value()), [EntryInfo(uri, t, false)], old(sequence) + 1).changed
    {
      hide Key, WithoutName, ModifyEntry;
      var entry := EntryInfo(uri, t, false);
      var left := ExceptName(At(index, uri), self.ref.name);
      index := index[uri := left];
      sequence := sequence + 1;
      var needSync;
      needSync, announced := self.ModifyEntries([entry], sequence);
      ModifiedWellKeyed(old(self.Value()), [entry], sequence);
    }

    /** `told` are the nodes a goodbye is cast to. */
    method Stop() returns (told: set<string>)
      requires Valid()
      modifies this, self
      ensures Valid() && infos == old(infos)
      ensures Value() == Nodes.Stop(old(Value()))
      ensures told == old(Value()).names.Keys
    {
      hide KeyOf, DeleteEntries, DeleteKeys;
      var list := self.MarkDead();
      DeleteEntry(self.ref.name, list);
      DeleteEntriesIsDeleteKeys(old(index), self.ref.name, list, self.entries);
      told := names.Keys;
    }

    // ---- The index ----

    /** Removes, under the key of every listed entry, each record that carries the name. */
    method DeleteEntry(name: string, list: seq<EntryInfo>)
      modifies this`index
      ensures index == DeleteEntries(old(index), name, list)
    {
      hide KeyOf;
      for i := 0 to |list|
        invariant index == DeleteEntries(old(index), name, list[..i])
      {
        var left := ExceptName(At(index, KeyOf(list[i])), name);
        index := index[KeyOf(list[i]) := left];
        assert list[..i + 1][..i] == list[..i];
      }
      assert list[..|list|] == list;
    }

    // ---- Records of other nodes ----

    method Learn(name: string, id: nat, instanceId: nat)
      requires Valid() && Ref(name, id) !in infos
      modifies this
      ensures Valid()
      ensures Value() == Nodes.Learn(old(Value()), name, id)
    {
      hide WellKeyed;
      if name == self.ref.name || name in names {
        return;
      }
      NothingKeyed();
      AddRecord(Ref(name, id), instanceId);
      names := names[name := Ref(name, id)];
    }

    method AddRecord(r: Ref, instanceId: nat)
      requires Valid() && r !in infos && WellKeyed(map[])
      modifies this`infos
      ensures Valid() && infos.Keys == old(infos.Keys) + {r} && Peers() == old(Peers())[r := Replica(Alive, 0, map[])]
    {
      hide WellKeyed;
      var info := new Info(r, instanceId);
      infos := infos[r := info];
    }

    /** A hello from another node: a new record, or the known one, whose version starts again if the peer is a new
        instance. The full sync it asks for is TrySync, run as a task of its own. */
    method HandleSayHello(name: string, id: nat, instanceId: nat)
      requires Valid() && Ref(name, id) !in infos
      modifies this, self, if name in names then {infos[names[name]]} else {}
      ensures Valid()
      ensures
        var was := old(Value());
        Value() ==
          if name == self.ref.name then
            if old(self.instanceId) != instanceId then was.(self := was.self.(version := 0)) else was
          else if name !in old(names) then Nodes.Learn(was, name, id)
          else if old(infos[names[name]].instanceId) != instanceId then ResetInstance(was, old(names)[name])
          else was
    {
      if name == self.ref.name {
        if self.instanceId != instanceId {
          self.SetInstanceId(instanceId);
        }
      } else if name in names {
        var info := infos[names[name]];
        if info.instanceId != instanceId {
          info.SetInstanceId(instanceId);
          assert Peers() == old(Peers())[names[name] := info.Value()];
        }
      } else {
        Learn(name, id, instanceId);
      }
    }

    /** The first half of trySyncAll, on a record of any status. */
    method TrySync(r: Ref, version: nat) returns (askSnapshot: bool)
      requires Valid() && r in infos
      modifies infos[r]
      ensures Valid()
      ensures Value() == StartSync(old(Value()), r, version)
      ensures askSnapshot <==> old(infos[r].version) != version
    {
      askSnapshot := infos[r].NeedsSync(version);
      assert Peers() == old(Peers())[r := infos[r].Value()];
    }

    method HandleNodeEntryNotify(r: Ref, list: seq<EntryInfo>, version: nat)
      requires Valid() && r in infos
      modifies this`index, infos[r]
      ensures Valid() && infos == old(infos)
      ensures Value() == Notify(old(Value()), r, list, version)
    {
      hide KeyOf, ApplyChanges, ModifyEntry, WellKeyed, Peers;
      if infos[r].status == Syncing || infos[r].status == Dead {
        assert Peers()[r] == infos[r].Value() by { PeerValue(r); }
        return;
      }
      PeerValue(r);
      var needSync, changed := ModifyRecord(r, list, version);
      if !needSync {
        ListChanges(r, changed);
      }
    }

    lemma PeerValue(r: Ref)
      requires r in infos
      ensures Peers()[r] == infos[r].Value()
    {
    }

    /** The record's side of a notify. */
    method ModifyRecord(r: Ref, list: seq<EntryInfo>, version: nat) returns (needSync: bool, changed: seq<EntryInfo>)
      requires Valid() && r in infos
      modifies infos[r]
      ensures Valid()
      ensures
        var m := ModifyEntry(old(Peers())[r], list, version);
        Peers() == old(Peers())[r := m.replica] && needSync == m.needSync && changed == m.changed
    {
      hide KeyOf, ModifyEntry, WellKeyed;
      needSync, changed := infos[r].ModifyEntries(list, version);
      ModifiedWellKeyed(old(infos[r].Value()), list, version);
    }

    method ListChanges(r: Ref, changed: seq<EntryInfo>)
      modifies this`index
      ensures index == ApplyChanges(old(index), r, changed)
    {
      hide KeyOf;
      for i := 0 to |changed|
        invariant index == ApplyChanges(old(index), r, changed[..i])
      {
        var key := KeyOf(changed[i]);
        if changed[i].isNew {
          index := Append(index, key, r);
        } else {
          var left := Seqs.ExceptOne(At(index, key), r);
          index := index[key := left];
        }
        assert changed[..i + 1][..i] == changed[..i];
      }
      assert changed[..|changed|] == changed;
    }

    method HandleKeepAlive(r: Ref, version: nat) returns (askSnapshot: bool)
      requires Valid() && r in infos
      modifies infos[r]
      ensures Valid()
      ensures Value() == KeepAlive(old(Value()), r, version)
      ensures askSnapshot <==> old(infos[r].status) != Dead && old(infos[r].version) != version
    {
      askSnapshot := false;
      if infos[r].status != Dead {
        askSnapshot := TrySync(r, version);
      }
    }

    /** The reply to the snapshot that a keepalive or a hello asked for. */
    method ApplySnapshot(r: Ref, list: seq<EntryInfo>, version: nat)
      requires Valid() && r in infos
      modifies this`index, infos[r]
      ensures Valid() && infos == old(infos)
      ensures Value() == SyncReply(old(Value()), r, list, version)
    {
      hide KeyOf, DeleteEntries, DeleteKeys, AddEntries, SyncEntry, WellKeyed, Enumerates, Peers;
      var known := ReplaceEntries(r, list, version);
      DeleteEntry(r.name, known);
      DeleteEntriesIsDeleteKeys(old(index), r.name, known, old(Peers())[r].entries);
      ListSnapshot(r, list);
    }

    /** The record's side of a snapshot; returns what was known before. */
    method ReplaceEntries(r: Ref, list: seq<EntryInfo>, version: nat) returns (known: seq<EntryInfo>)
      requires Valid() && r in infos
      modifies infos[r]
      ensures Valid() && Enumerates(known, old(Peers())[r].entries)
      ensures Peers() == old(Peers())[r := SyncEntry(old(Peers())[r], list, version)]
    {
      hide KeyOf, WellKeyed, Enumerates;
      known := infos[r].GetAllEntry();
      infos[r].SyncEntries(list, version);
      assert WellKeyed(infos[r].entries) by {
        NothingKeyed();
        ApplyAllWellKeyed(map[], list);
      }
    }

    method ListSnapshot(r: Ref, list: seq<EntryInfo>)
      modifies this`index
      ensures index == AddEntries(old(index), r, list)
    {
      hide KeyOf;
      for i := 0 to |list|
        invariant index == AddEntries(old(index), r, list[..i])
      {
        if list[i].isNew {
          index := Append(index, KeyOf(list[i]), r);
        }
        assert list[..i + 1][..i] == list[..i];
      }
      assert list[..|list|] == list;
    }

    method HandleSayGoodbye(r: Ref)
      requires Valid() && r in infos
      modifies this`index, infos[r]
      ensures Valid() && infos == old(infos)
      ensures Value() == Goodbye(old(Value()), r)
    {
      hide KeyOf, DeleteEntries, DeleteKeys, Enumerates, WellKeyed, Peers;
      var list := BuryRecord(r);
      DeleteEntry(r.name, list);
      DeleteEntriesIsDeleteKeys(old(index), r.name, list, old(Peers())[r].entries);
    }

    /** The record's side of a goodbye. */
    method BuryRecord(r: Ref) returns (list: seq<EntryInfo>)
      requires Valid() && r in infos
      modifies infos[r]
      ensures Valid() && Enumerates(list, old(Peers())[r].entries)
      ensures Peers() == old(Peers())[r := old(Peers())[r].(status := Dead)]
    {
      hide KeyOf, WellKeyed, Enumerates;
      list := infos[r].MarkDead();
    }

    method RemoveNode(r: Ref)
      requires Valid() && r in infos
      modifies this`index, this`names, infos[r]
      ensures Valid() && infos == old(infos)
      ensures Value() == DeleteNode(old(Value()), r)
    {
      HandleSayGoodbye(r);
      names := names - {r.name};
    }

    method OnLastClose(r: Ref)
      requires Valid() && r in infos
      modifies this`names
      ensures Valid()
      ensures Value() == CloseLast(old(Value()), r)
    {
      if infos[r].status == Dead {
        names := names - {r.name};
      }
    }

    // ---- Lookups ----

    /** The records a LOCAL_BETTER request may be forwarded to. */
    method RemoteNodesByUri(key: string) returns (list: seq<Ref>)
      ensures list == WithoutName(At(index, key), self.ref.name)
      ensures forall x :: multiset(list)[x] == if x.name == self.ref.name then 0 else Occ(index, key, x)
    {
      list := ExceptName(At(index, key), self.ref.name);
      forall x ensures multiset(list)[x] == if x.name == self.ref.name then 0 else Occ(index, key, x) {
        WithoutNameCount(At(index, key), self.ref.name, x);
      }
    }
  }

  lemma NothingKeyed()
    ensures WellKeyed(map[])
  {
  }

  lemma ModifiedWellKeyed(r: Replica, list: seq<EntryInfo>, version: nat)
    requires WellKeyed(r.entries)
    ensures WellKeyed(ModifyEntry(r, list, version).replica.entries)
  {
    hide KeyOf;
    ApplyAllWellKeyed(r.entries, Effective(list, r.status != Dead));
  }

  method ExceptName(s: seq<Ref>, name: string) returns (left: seq<Ref>)
    ensures left == WithoutName(s, name)
  {
    left := [];
    for i := 0 to |s|
      invariant left == WithoutName(s[..i], name)
    {
      if s[i].name != name {
        left := left + [s[i]];
      }
      assert s[..i + 1][..i] == s[..i];
    }
    assert s[..|s|] == s;
  }
}
