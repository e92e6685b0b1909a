/** One node's record of a node's entries (node/node.go Info): the values its methods compute,
    what a list of changes means, and the record itself as an object updated in place. */
module Replicas {
  import opened Entries

  datatype Status = Dead | Alive | Syncing

  datatype Replica = Replica(status: Status, version: nat, entries: EntryMap)

  /** The identity of an Info record: the name it carries and which record of that name it is. */
  datatype Ref = Ref(name: string, id: nat)

  // ---- Changes to an entry map ----

  function Apply(m: EntryMap, e: EntryInfo): EntryMap
  {
    if e.isNew then m[KeyOf(e) := e] else m - {KeyOf(e)}
  }

  function ApplyAll(m: EntryMap, list: seq<EntryInfo>): EntryMap
  {
    if list == [] then m
    else Apply(ApplyAll(m, list[..|list| - 1]), list[|list| - 1])
  }

  lemma ApplyAllSnoc(m: EntryMap, list: seq<EntryInfo>, e: EntryInfo)
    ensures ApplyAll(m, list + [e]) == Apply(ApplyAll(m, list), e)
  {
    assert (list + [e])[..|list|] == list;
  }

  /** What an owner serves after the first `v` changes of its history. */
  function EntriesAt(log: seq<EntryInfo>, v: nat): EntryMap
    requires v <= |log|
  {
    ApplyAll(map[], log[..v])
  }

  /** Every entry is filed under its own key, and only additions are filed. */
  ghost predicate WellKeyed(m: EntryMap)
  {
    forall k :: k in m ==> KeyOf(m[k]) == k && m[k].isNew
  }

  /** `list` names every entry of `m` exactly once, in any order. */
  ghost predicate Enumerates(list: seq<EntryInfo>, m: EntryMap)
  {
    && (forall i :: 0 <= i < |list| ==> list[i].isNew && KeyOf(list[i]) in m && m[KeyOf(list[i])] == list[i])
    && (forall i, j :: 0 <= i < j < |list| ==> KeyOf(list[i]) != KeyOf(list[j]))
    && |list| == |m|
  }

  lemma {:induction false} ApplyAllWellKeyed(m: EntryMap, list: seq<EntryInfo>)
    requires WellKeyed(m)
    ensures WellKeyed(ApplyAll(m, list))
  {
    if list != [] {
      ApplyAllWellKeyed(m, list[..|list| - 1]);
    }
  }

  lemma EntriesAtStep(log: seq<EntryInfo>, v: nat)
    requires v < |log|
    ensures EntriesAt(log, v + 1) == Apply(EntriesAt(log, v), log[v])
  {
    assert log[..v + 1][..v] == log[..v];
  }

  lemma EntriesAtExtend(log: seq<EntryInfo>, e: EntryInfo, v: nat)
    requires v <= |log|
    ensures EntriesAt(log + [e], v) == EntriesAt(log, v)
    ensures EntriesAt(log + [e], |log| + 1) == Apply(EntriesAt(log, |log|), e)
  {
    assert (log + [e])[..v] == log[..v];
    assert (log + [e])[..|log|] == log[..|log|] && (log + [e])[..|log| + 1][..|log|] == log[..|log|];
  }

  /** A snapshot of an entry map rebuilds that map, whatever order it was read in. */
  lemma {:induction false} SnapshotRebuilds(list: seq<EntryInfo>, m: EntryMap)
    requires Enumerates(list, m)
    ensures ApplyAll(map[], list) == m
  {
    hide KeyOf;
    if list != [] {
      var n := |list| - 1;
      var k := KeyOf(list[n]);
      EnumeratesInit(list, m);
      SnapshotRebuilds(list[..n], m - {k});
    }
  }

  lemma EnumeratesInit(list: seq<EntryInfo>, m: EntryMap)
    requires list != [] && Enumerates(list, m)
    ensures Enumerates(list[..|list| - 1], m - {KeyOf(list[|list| - 1])})
  {
    hide KeyOf;
    var k := KeyOf(list[|list| - 1]);
    assert (m - {k}).Keys == m.Keys - {k};
  }

  // ---- The record's operations as values ----

  datatype Modified = Modified(replica: Replica, needSync: bool, changed: seq<EntryInfo>)

  /** The entries of a notify that take effect: all of them on a live record, withdrawals on a dead one. */
  function Effective(list: seq<EntryInfo>, alive: bool): seq<EntryInfo>
  {
    if list == [] then []
    else
      var e := list[|list| - 1];
      Effective(list[..|list| - 1], alive) + (if !e.isNew || alive then [e] else [])
  }

  lemma EffectiveSnoc(list: seq<EntryInfo>, e: EntryInfo, alive: bool)
    ensures Effective(list + [e], alive) == Effective(list, alive) + if !e.isNew || alive then [e] else []
  {
    assert (list + [e])[..|list|] == list;
  }

  function ModifyEntry(r: Replica, list: seq<EntryInfo>, version: nat): Modified
  {
    if version != r.version + 1 then Modified(r.(status := Syncing), true, [])
    else
      var changed := Effective(list, r.status != Dead);
      Modified(r.(version := version, entries := ApplyAll(r.entries, changed)), false, changed)
  }

  function SyncEntry(r: Replica, list: seq<EntryInfo>, version: nat): Replica
  {
    Replica(Alive, version, ApplyAll(map[], list))
  }

  function NeedSyncAll(r: Replica, version: nat): (Replica, bool)
  {
    if r.version != version then (r.(status := Syncing), true) else (r, false)
  }

  // ---- The record itself ----

  class Info {
    const ref: Ref
    var status: Status
    var version: nat
    var entries: EntryMap
    var instanceId: nat

    function Value(): Replica
      reads this
    {
      Replica(status, version, entries)
    }

    constructor (ref: Ref, instanceId: nat)
      ensures this.ref == ref && this.instanceId == instanceId
      ensures Value() == Replica(Alive, 0, map[])
    {
      this.ref := ref;
      this.instanceId := instanceId;
      status, version, entries := Alive, 0, map[];
    }

    method ModifyEntries(list: seq<EntryInfo>, nextVersion: nat) returns (needSync: bool, changed: seq<EntryInfo>)
      modifies this
      ensures Modified(Value(), needSync, changed) == ModifyEntry(old(Value()), list, nextVersion)
      ensures instanceId == old(instanceId)
    {
      hide KeyOf;
      changed := [];
      if nextVersion != version + 1 {
        status := Syncing;
        return true, [];
      }
      version := nextVersion;
      ghost var before := entries;
      for i := 0 to |list|
        invariant changed == Effective(list[..i], status != Dead)
        invariant entries == ApplyAll(before, changed)
        invariant version == nextVersion && status == old(status) && instanceId == old(instanceId)
      {
        var e := list[i];
        assert list[..i + 1] == list[..i] + [e];
        EffectiveSnoc(list[..i], e, status != Dead);
        ApplyAllSnoc(before, changed, e);
        if e.isNew && status != Dead {
          entries := entries[KeyOf(e) := e];
          changed := changed + [e];
        } else if !e.isNew {
          entries := entries - {KeyOf(e)};
          changed := changed + [e];
        }
      }
      assert list[..|list|] == list;
      return false, changed;
    }

    method SyncEntries(list: seq<EntryInfo>, snapshotVersion: nat)
      modifies this
      ensures Value() == SyncEntry(old(Value()), list, snapshotVersion)
      ensures instanceId == old(instanceId)
    {
      version := snapshotVersion;
      var rebuilt: EntryMap := map[];
      for i := 0 to |list|
        invariant rebuilt == ApplyAll(map[], list[..i])
      {
        assert list[..i + 1][..i] == list[..i];
        var key := KeyOf(list[i]);
        if list[i].isNew {
          rebuilt := rebuilt[key := list[i]];
        } else {
          rebuilt := rebuilt - {key};
        }
      }
      assert list[..|list|] == list;
      status := Alive;
      entries := rebuilt;
    }

    method NeedsSync(peerVersion: nat) returns (need: bool)
      modifies this
      ensures (Value(), need) == NeedSyncAll(old(Value()), peerVersion)
      ensures instanceId == old(instanceId)
    {
      need := version != peerVersion;
      if need {
        status := Syncing;
      }
    }

    /** Reads the map in whatever order the runtime yields its keys. */
    method GetAllEntry() returns (list: seq<EntryInfo>)
      requires WellKeyed(entries)
      ensures Enumerates(list, entries)
    {
      hide KeyOf;
      list := [];
      var left := entries.Keys;
      while left != {}
        invariant left <= entries.Keys
        invariant Enumerates(list, map k | k in entries && k !in left :: entries[k])
        decreases |left|
      {
        var k :| k in left;
        ghost var was := map j | j in entries && j !in left :: entries[j];
        ghost var now := map j | j in entries && j !in left - {k} :: entries[j];
        assert now == was[k := entries[k]] && k !in was;
        list := list + [entries[k]];
        left := left - {k};
      }
      assert (map k | k in entries && k !in left :: entries[k]) == entries;
    }

    method MarkDead() returns (list: seq<EntryInfo>)
      requires WellKeyed(entries)
      modifies this
      ensures Value() == old(Value()).(status := Dead) && instanceId == old(instanceId)
      ensures Enumerates(list, entries)
    {
      status := Dead;
      list := GetAllEntry();
    }

    /** A restarted peer: the version starts again, the entries of the former instance stay. */
    method SetInstanceId(newInstance: nat)
      modifies this
      ensures Value() == old(Value()).(version := 0) && instanceId == newInstance
    {
      version := 0;
      instanceId := newInstance;
    }
  }
}
