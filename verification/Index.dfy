/** The reverse index `mRpcFunc2Node` (node/manager.go): which records serve a key, as the handlers
    maintain it, and how often a record occurs under a key after each kind of update. */
module Indexes {
  import opened Entries
  import opened Replicas
  import Seqs

  type Index = map<string, seq<Ref>>

  /** A missing key reads as an empty list. */
  function At(ix: Index, k: string): seq<Ref>
  {
    if k in ix then ix[k] else []
  }

  /** How often a record is listed under a key. */
  ghost function Occ(ix: Index, k: string, r: Ref): nat
  {
    multiset(At(ix, k))[r]
  }

  function WithoutName(s: seq<Ref>, name: string): seq<Ref>
  {
    if s == [] then [] else WithoutName(s[..|s| - 1], name) + if s[|s| - 1].name != name then [s[|s| - 1]] else []
  }

  function Append(ix: Index, k: string, r: Ref): Index
  {
    ix[k := At(ix, k) + [r]]
  }

  function DropRef(ix: Index, k: string, r: Ref): Index
  {
    ix[k := Seqs.Without(At(ix, k), r)]
  }

  function DropName(ix: Index, k: string, name: string): Index
  {
    ix[k := WithoutName(At(ix, k), name)]
  }

  /** deleteEntry: everything of that name, under the key of every listed entry. */
  function DeleteEntries(ix: Index, name: string, list: seq<EntryInfo>): Index
  {
    if list == [] then ix
    else DropName(DeleteEntries(ix, name, list[..|list| - 1]), KeyOf(list[|list| - 1]), name)
  }

  /** The same removal as one comprehension: the order in which the entries are visited does not matter. */
  function DeleteKeys(ix: Index, name: string, keys: set<string>): Index
  {
    map k | k in ix.Keys + keys :: if k in keys then WithoutName(At(ix, k), name) else ix[k]
  }

  /** What a notify does to the index: the record appended per addition, taken out per withdrawal. */
  function ApplyChanges(ix: Index, r: Ref, list: seq<EntryInfo>): Index
  {
    if list == [] then ix
    else
      var e := list[|list| - 1];
      var done := ApplyChanges(ix, r, list[..|list| - 1]);
      if e.isNew then Append(done, KeyOf(e), r) else DropRef(done, KeyOf(e), r)
  }

  /** What a full snapshot adds to the index; withdrawals in it are ignored. */
  function AddEntries(ix: Index, r: Ref, list: seq<EntryInfo>): Index
  {
    if list == [] then ix
    else
      var e := list[|list| - 1];
      var done := AddEntries(ix, r, list[..|list| - 1]);
      if e.isNew then Append(done, KeyOf(e), r) else done
  }

  // ---- Occurrences ----

  lemma {:induction false} WithoutNameCount(s: seq<Ref>, name: string, x: Ref)
    ensures multiset(WithoutName(s, name))[x] == if x.name == name then 0 else multiset(s)[x]
  {
    if s != [] {
      WithoutNameCount(s[..|s| - 1], name, x);
      assert s == s[..|s| - 1] + [s[|s| - 1]];
    }
  }

  lemma AppendCount(ix: Index, k: string, r: Ref, j: string, x: Ref)
    ensures Occ(Append(ix, k, r), j, x) == Occ(ix, j, x) + if j == k && x == r then 1 else 0
  {
  }

  lemma DropRefCount(ix: Index, k: string, r: Ref, j: string, x: Ref)
    ensures Occ(DropRef(ix, k, r), j, x) == if j == k && x == r then 0 else Occ(ix, j, x)
  {
    Seqs.WithoutCount(At(ix, k), r, x);
  }

  lemma DropNameCount(ix: Index, k: string, name: string, j: string, x: Ref)
    ensures Occ(DropName(ix, k, name), j, x) == if j == k && x.name == name then 0 else Occ(ix, j, x)
  {
    WithoutNameCount(At(ix, k), name, x);
  }

  lemma DeleteKeysCount(ix: Index, name: string, keys: set<string>, j: string, x: Ref)
    ensures Occ(DeleteKeys(ix, name, keys), j, x) == if x.name == name && j in keys then 0 else Occ(ix, j, x)
  {
    WithoutNameCount(At(ix, j), name, x);
  }

  /** Deleting entry by entry, in the order a map read happens to yield them, is deleting the keys. */
  lemma {:induction false} DeleteEntriesIsDeleteKeys(ix: Index, name: string, list: seq<EntryInfo>, m: EntryMap)
    requires Enumerates(list, m)
    ensures DeleteEntries(ix, name, list) == DeleteKeys(ix, name, m.Keys)
  {
    hide KeyOf, DropName, DeleteKeys;
    if list == [] {
      assert m.Keys == {};
      DeleteNoKeys(ix, name);
    } else {
      var n := |list| - 1;
      var k := KeyOf(list[n]);
      EnumeratesInit(list, m);
      DeleteEntriesIsDeleteKeys(ix, name, list[..n], m - {k});
      DropOneMoreKey(ix, name, (m - {k}).Keys, k);
      assert m.Keys == (m - {k}).Keys + {k};
    }
  }

  lemma DeleteNoKeys(ix: Index, name: string)
    ensures DeleteKeys(ix, name, {}) == ix
  {
  }

  lemma DropOneMoreKey(ix: Index, name: string, keys: set<string>, k: string)
    requires k !in keys
    ensures DropName(DeleteKeys(ix, name, keys), k, name) == DeleteKeys(ix, name, keys + {k})
  {
    hide WithoutName;
    assert At(DeleteKeys(ix, name, keys), k) == At(ix, k);
  }

  lemma {:induction false} AddEntriesCount(ix: Index, r: Ref, list: seq<EntryInfo>, m: EntryMap, j: string, x: Ref)
    requires Enumerates(list, m)
    ensures Occ(AddEntries(ix, r, list), j, x) == Occ(ix, j, x) + if x == r && j in m then 1 else 0
  {
    hide KeyOf, Occ;
    if list != [] {
      var n := |list| - 1;
      EnumeratesInit(list, m);
      AddEntriesCount(ix, r, list[..n], m - {KeyOf(list[n])}, j, x);
      AppendCount(AddEntries(ix, r, list[..n]), KeyOf(list[n]), r, j, x);
    }
  }

  /** However long the list and whatever is in it, only the record itself gains or loses listings. */
  lemma {:induction false} OthersUntouched(ix: Index, r: Ref, list: seq<EntryInfo>, j: string, x: Ref)
    requires x != r
    ensures Occ(ApplyChanges(ix, r, list), j, x) == Occ(ix, j, x)
    ensures Occ(AddEntries(ix, r, list), j, x) == Occ(ix, j, x)
  {
    hide KeyOf, Occ;
    if list != [] {
      var n := |list| - 1;
      var k := KeyOf(list[n]);
      OthersUntouched(ix, r, list[..n], j, x);
      AppendCount(ApplyChanges(ix, r, list[..n]), k, r, j, x);
      DropRefCount(ApplyChanges(ix, r, list[..n]), k, r, j, x);
      AppendCount(AddEntries(ix, r, list[..n]), k, r, j, x);
    }
  }

  lemma ApplyChangeCount(ix: Index, r: Ref, e: EntryInfo, j: string, x: Ref)
    ensures Occ(ApplyChanges(ix, r, [e]), j, x) ==
      if x != r || j != KeyOf(e) then Occ(ix, j, x) else if e.isNew then Occ(ix, j, x) + 1 else 0
  {
    hide KeyOf, Occ;
    assert [e][..0] == [];
    AppendCount(ix, KeyOf(e), r, j, x);
    DropRefCount(ix, KeyOf(e), r, j, x);
  }
}
