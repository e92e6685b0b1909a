/** A node as a value (node/manager.go NodeManager): its own entries, its records of other nodes and
    the index over both, with one function per handler. */
module Nodes {
  import opened Entries
  import opened Replicas
  import opened Indexes

  /** `peers` holds every record that some connection or task may still refer to; `names` is mNodeInfo
      without the node itself, the record currently registered under each name. */
  datatype Node = Node(
    name: string,
    self: Replica,
    sequence: nat,
    index: Index,
    peers: map<Ref, Replica>,
    names: map<string, Ref>)

  function SelfRef(n: Node): Ref
  {
    Ref(n.name, 0)
  }

  function NewNode(name: string): Node
  {
    Node(name, Replica(Alive, 0, map[]), 0, map[], map[], map[])
  }

  predicate Current(n: Node, r: Ref)
  {
    r.name in n.names && n.names[r.name] == r
  }

  // ---- The node's own entries ----

  /** Whether AddEntry goes ahead: not already served, and the node not stopped. */
  predicate Accepts(n: Node, uri: string, t: int)
  {
    Key(uri, t) !in n.self.entries && n.self.status != Dead
  }

  function AddEntry(n: Node, uri: string, t: int): Node
  {
    if !Accepts(n, uri, t) then n
    else n.(
      index := Append(n.index, Key(uri, t), SelfRef(n)),
      sequence := n.sequence + 1,
      self := ModifyEntry(n.self, [EntryInfo(uri, t, true)], n.sequence + 1).replica)
  }

  /** The index is filtered under the bare URI, not under the key AddEntry filed the node at. */
  function RemoveEntry(n: Node, uri: string, t: int): Node
  {
    n.(
      index := DropName(n.index, uri, n.name),
      sequence := n.sequence + 1,
      self := ModifyEntry(n.self, [EntryInfo(uri, t, false)], n.sequence + 1).replica)
  }

  function Stop(n: Node): Node
  {
    n.(self := n.self.(status := Dead), index := DeleteKeys(n.index, n.name, n.self.entries.Keys))
  }

  // ---- Other nodes ----

  /** A first hello, a configured neighbour or gossip: a record for a name not yet known. */
  function Learn(n: Node, name: string, id: nat): Node
  {
    if name == n.name || name in n.names then n
    else n.(peers := n.peers[Ref(name, id) := Replica(Alive, 0, map[])], names := n.names[name := Ref(name, id)])
  }

  function Notify(n: Node, r: Ref, list: seq<EntryInfo>, version: nat): Node
    requires r in n.peers
  {
    if n.peers[r].status != Alive then n
    else
      var m := ModifyEntry(n.peers[r], list, version);
      n.(peers := n.peers[r := m.replica],
         index := if m.needSync then n.index else ApplyChanges(n.index, r, m.changed))
  }

  /** The first half of trySyncAll; the reply is a step of its own. */
  function StartSync(n: Node, r: Ref, version: nat): Node
    requires r in n.peers
  {
    n.(peers := n.peers[r := NeedSyncAll(n.peers[r], version).0])
  }

  function KeepAlive(n: Node, r: Ref, version: nat): Node
    requires r in n.peers
  {
    if n.peers[r].status == Dead then n else StartSync(n, r, version)
  }

  /** The second half of trySyncAll: a full snapshot replaces what was known of the peer. */
  function SyncReply(n: Node, r: Ref, list: seq<EntryInfo>, version: nat): Node
    requires r in n.peers
  {
    n.(peers := n.peers[r := SyncEntry(n.peers[r], list, version)],
       index := AddEntries(DeleteKeys(n.index, r.name, n.peers[r].entries.Keys), r, list))
  }

  function Goodbye(n: Node, r: Ref): Node
    requires r in n.peers
  {
    n.(peers := n.peers[r := n.peers[r].(status := Dead)],
       index := DeleteKeys(n.index, r.name, n.peers[r].entries.Keys))
  }

  /** A node that timed out: as a goodbye, and its name is forgotten. */
  function DeleteNode(n: Node, r: Ref): Node
    requires r in n.peers
  {
    Goodbye(n, r).(names := n.names - {r.name})
  }

  /** The last connection of a record closed. */
  function CloseLast(n: Node, r: Ref): Node
    requires r in n.peers
  {
    if n.peers[r].status == Dead then n.(names := n.names - {r.name}) else n
  }

  /** setInstanceID: the version starts again, the entries stay. */
  function ResetInstance(n: Node, r: Ref): Node
    requires r in n.peers
  {
    n.(peers := n.peers[r := n.peers[r].(version := 0)])
  }

  // ---- What a node keeps about its own entries ----

  /** How often the node itself is listed under `k`: the additions of `k` since the last withdrawal
      whose bare URI happens to equal `k`. */
  ghost function AddsSince(log: seq<EntryInfo>, k: string): nat
  {
    if log == [] then 0
    else
      var e := log[|log| - 1];
      var before := AddsSince(log[..|log| - 1], k);
      if e.isNew && KeyOf(e) == k then before + 1 else if !e.isNew && e.uri == k then 0 else before
  }

  /** No addition is recorded for a key that is already served. */
  ghost predicate Guarded(log: seq<EntryInfo>)
  {
    forall i :: 0 <= i < |log| && log[i].isNew ==> KeyOf(log[i]) !in EntriesAt(log, i)
  }

  /** Lock step: the sequence number, the version of the node's own record and the length of its history
      agree, and the record holds what that history serves. */
  ghost predicate LockStep(n: Node, log: seq<EntryInfo>)
  {
    && n.sequence == |log|
    && n.self == Replica(n.self.status, |log|, EntriesAt(log, |log|))
    && Guarded(log)
  }

  ghost predicate OwnListed(n: Node, log: seq<EntryInfo>)
  {
    n.self.status != Dead ==> forall k :: Occ(n.index, k, SelfRef(n)) == AddsSince(log, k)
  }

  /** No record of another node carries the node's own name. */
  ghost predicate Foreign(n: Node)
  {
    forall r :: r in n.peers ==> r.name != n.name
  }

  ghost predicate Own(n: Node, log: seq<EntryInfo>)
  {
    LockStep(n, log) && OwnListed(n, log) && Foreign(n)
  }

  /** The history after AddEntry and after RemoveEntry. */
  ghost function AddLog(n: Node, log: seq<EntryInfo>, uri: string, t: int): seq<EntryInfo>
  {
    if Accepts(n, uri, t) then log + [EntryInfo(uri, t, true)] else log
  }

  ghost function RemoveLog(log: seq<EntryInfo>, uri: string, t: int): seq<EntryInfo>
  {
    log + [EntryInfo(uri, t, false)]
  }

  // ---- What a node keeps about other nodes ----

  /** A record at version v holds exactly what its owner served after v changes. */
  ghost predicate Prefix(rep: Replica, log: seq<EntryInfo>)
  {
    rep.version <= |log| && rep.entries == EntriesAt(log, rep.version)
  }

  ghost predicate Unlisted(ix: Index, r: Ref)
  {
    forall k :: Occ(ix, k, r) == 0
  }

  /** A live record is listed once under each of its keys and nowhere else, a syncing one at most that,
      a dead one nowhere. */
  ghost predicate Listed(ix: Index, r: Ref, rep: Replica)
  {
    match rep.status
    case Alive => forall k :: Occ(ix, k, r) == if k in rep.entries then 1 else 0
    case Syncing => forall k :: Occ(ix, k, r) <= if k in rep.entries then 1 else 0
    case Dead => Unlisted(ix, r)
  }

  /** A record no longer registered under its name is not live and not listed. */
  ghost predicate Retired(ix: Index, r: Ref, rep: Replica)
  {
    rep.status != Alive && Unlisted(ix, r)
  }

  ghost predicate Registered(n: Node)
  {
    && (forall p :: p in n.names ==> n.names[p] in n.peers && n.names[p].name == p)
    && (forall r :: r in n.peers ==> r.name != n.name && (Current(n, r) || Retired(n.index, r, n.peers[r])))
    && (forall k, x :: Occ(n.index, k, x) > 0 ==> x in n.peers || x == SelfRef(n))
  }

  type Logs = map<string, seq<EntryInfo>>

  ghost function LogOf(logs: Logs, p: string): seq<EntryInfo>
  {
    if p in logs then logs[p] else []
  }

  /** Every record, registered or replaced, live or dead, is what its owner once served. */
  ghost predicate Prefixes(peers: map<Ref, Replica>, logs: Logs)
  {
    forall r :: r in peers ==> Prefix(peers[r], LogOf(logs, r.name))
  }

  /** The index agrees with the records it speeds up. */
  ghost predicate Indexed(n: Node)
  {
    Registered(n) && forall r :: r in n.peers ==> Listed(n.index, r, n.peers[r])
  }
}
