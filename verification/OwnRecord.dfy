/** A node that connects to its own name handles the hello, the full sync it starts and a change of instance on its own
    record (node/manager.go handleSayHello and trySyncAll, which look the name up in a map that holds the node itself).
    When lock step survives that, and what becomes of local changes when it does not. */
module OwnRecord {
  import opened Entries
  import opened Replicas
  import opened Indexes
  import opened Nodes
  import MeshTheorems
  import NodeSteps

  function OwnHello(n: Node, version: nat): Node
  {
    n.(self := NeedSyncAll(n.self, version).0)
  }

  /** The reply to the full sync that the hello may have started. */
  function OwnReply(n: Node, list: seq<EntryInfo>, version: nat): Node
  {
    n.(self := SyncEntry(n.self, list, version),
       index := AddEntries(DeleteKeys(n.index, n.name, n.self.entries.Keys), SelfRef(n), list))
  }

  function OwnReset(n: Node): Node
  {
    n.(self := n.self.(version := 0))
  }

  /** Local changes, one after the other. */
  function Local(n: Node, changes: seq<EntryInfo>): Node
    decreases changes
  {
    if changes == [] then n
    else
      var e := changes[0];
      Local(if e.isNew then AddEntry(n, e.uri, e.entryType) else RemoveEntry(n, e.uri, e.entryType), changes[1..])
  }

  /** Once the sequence number has run ahead of the record's version, every local change is lost, however many follow:
      each is taken for a version gap, and the gap grows. */
  lemma {:induction false} LostForever(n: Node, changes: seq<EntryInfo>)
    requires n.self.version < n.sequence
    ensures
      var n' := Local(n, changes);
      n'.self.entries == n.self.entries && n'.self.version == n.self.version && n'.self.version < n'.sequence
    decreases changes
  {
    hide Key, Append, DropName;
    if changes != [] {
      var e := changes[0];
      var n' := if e.isNew then AddEntry(n, e.uri, e.entryType) else RemoveEntry(n, e.uri, e.entryType);
      LostForever(n', changes[1..]);
    }
  }

  /** While the two agree they go on agreeing. */
  lemma {:induction false} KeptForever(n: Node, changes: seq<EntryInfo>)
    requires n.self.version == n.sequence
    ensures Local(n, changes).self.version == Local(n, changes).sequence
    decreases changes
  {
    hide Key, Append, DropName;
    if changes != [] {
      var e := changes[0];
      NodeSteps.ModifyOne(n.self, e);
      var n' := if e.isNew then AddEntry(n, e.uri, e.entryType) else RemoveEntry(n, e.uri, e.entryType);
      assert e == EntryInfo(e.uri, e.entryType, e.isNew);
      KeptForever(n', changes[1..]);
    }
  }

  /** All that a node's own record can suffer, in one place: after `changes` more local changes, one further addition
      that is not refused, or withdrawal of something served, takes effect exactly if `inStep`. */
  ghost predicate TakesEffectIff(n: Node, changes: seq<EntryInfo>, uri: string, t: int, inStep: bool)
  {
    var m := Local(n, changes);
    && (Accepts(m, uri, t) ==> (Key(uri, t) in AddEntry(m, uri, t).self.entries <==> inStep))
    && (Key(uri, t) in m.self.entries ==> (Key(uri, t) !in RemoveEntry(m, uri, t).self.entries <==> inStep))
  }

  lemma EffectFollowsStep(n: Node, changes: seq<EntryInfo>, uri: string, t: int)
    requires n.self.version <= n.sequence
    ensures TakesEffectIff(n, changes, uri, t, n.self.version == n.sequence)
    ensures n.self.version != n.sequence ==> Local(n, changes).self.entries == n.self.entries
  {
    hide Key, Local, AddEntry, RemoveEntry;
    if n.self.version == n.sequence {
      KeptForever(n, changes);
    } else {
      LostForever(n, changes);
    }
    var m := Local(n, changes);
    if Accepts(m, uri, t) {
      MeshTheorems.LocalAdditionTakesEffectIff(m, uri, t);
    }
    if Key(uri, t) in m.self.entries {
      MeshTheorems.LocalWithdrawalTakesEffectIff(m, uri, t);
    }
  }

  /** The hello by itself breaks nothing, whatever version it carries: all later local changes take effect. */
  lemma OwnHelloHarmless(n: Node, log: seq<EntryInfo>, version: nat, changes: seq<EntryInfo>, uri: string, t: int)
    requires LockStep(n, log)
    ensures LockStep(OwnHello(n, version), log) && TakesEffectIff(OwnHello(n, version), changes, uri, t, true)
  {
    hide EntriesAt, Guarded, TakesEffectIff;
    EffectFollowsStep(OwnHello(n, version), changes, uri, t);
  }

  /** The node's own snapshot, taken at `version`, applied to its own record: lock step survives, and local changes take
      effect from then on, exactly if no local change was made since the snapshot. Otherwise all of them are lost. */
  lemma OwnReplyExact(n: Node, log: seq<EntryInfo>, list: seq<EntryInfo>, version: nat,
                      changes: seq<EntryInfo>, uri: string, t: int)
    requires LockStep(n, log) && version <= |log| && Enumerates(list, EntriesAt(log, version))
    ensures
      var n' := OwnReply(n, list, version);
      && (LockStep(n', log) <==> version == n.sequence)
      && TakesEffectIff(n', changes, uri, t, version == n.sequence)
      && (version != n.sequence ==> Local(n', changes).self.entries == EntriesAt(log, version))
  {
    hide EntriesAt, Guarded, Enumerates, TakesEffectIff, AddEntries, DeleteKeys, Local;
    SnapshotRebuilds(list, EntriesAt(log, version));
    EffectFollowsStep(OwnReply(n, list, version), changes, uri, t);
  }

  /** A change of instance on the own record: harmless exactly if nothing was changed yet. */
  lemma OwnResetExact(n: Node, log: seq<EntryInfo>, changes: seq<EntryInfo>, uri: string, t: int)
    requires LockStep(n, log)
    ensures
      var n' := OwnReset(n);
      && (LockStep(n', log) <==> n.sequence == 0)
      && TakesEffectIff(n', changes, uri, t, n.sequence == 0)
      && (n.sequence != 0 ==> Local(n', changes).self.entries == n.self.entries)
  {
    hide EntriesAt, Guarded, TakesEffectIff, Local;
    EffectFollowsStep(OwnReset(n), changes, uri, t);
  }

  // ---- Every run of what touches the own record ----

  /** `read` are the node's own snapshots that a full sync with itself may still apply. */
  datatype State = State(n: Node, log: seq<EntryInfo>, read: set<(nat, seq<EntryInfo>)>)

  datatype Event =
    | Adds(uri: string, entryType: int)
    | Removes(uri: string, entryType: int)
    | Hears(version: nat)
    | Reads(list: seq<EntryInfo>)
    | Applies(version: nat, list: seq<EntryInfo>)
    | Resets

  ghost predicate Enabled(s: State, e: Event)
  {
    match e
    case Reads(list) => Enumerates(list, s.n.self.entries)
    case Applies(version, list) => (version, list) in s.read
    case _ => true
  }

  ghost function Next(s: State, e: Event): State
    requires Enabled(s, e)
  {
    match e
    case Adds(uri, t) => s.(n := AddEntry(s.n, uri, t), log := AddLog(s.n, s.log, uri, t))
    case Removes(uri, t) => s.(n := RemoveEntry(s.n, uri, t), log := RemoveLog(s.log, uri, t))
    case Hears(version) => s.(n := OwnHello(s.n, version))
    case Reads(list) => s.(read := s.read + {(s.n.self.version, list)})
    case Applies(version, list) => s.(n := OwnReply(s.n, list, version))
    case Resets => s.(n := OwnReset(s.n))
  }

  /** What a node can check before it applies its own snapshot or takes over an instance id. */
  predicate InTime(s: State, e: Event)
  {
    match e
    case Applies(version, _) => version == s.n.sequence
    case Resets => s.n.sequence == 0
    case _ => true
  }

  ghost predicate Possible(s: State, run: seq<Event>)
    decreases run
  {
    run != [] ==> Enabled(s, run[0]) && Possible(Next(s, run[0]), run[1..])
  }

  ghost predicate AllInTime(s: State, run: seq<Event>)
    requires Possible(s, run)
    decreases run
  {
    run != [] ==> InTime(s, run[0]) && AllInTime(Next(s, run[0]), run[1..])
  }

  ghost predicate InStepThroughout(s: State, run: seq<Event>)
    requires Possible(s, run)
    decreases run
  {
    LockStep(s.n, s.log) && (run != [] ==> InStepThroughout(Next(s, run[0]), run[1..]))
  }

  /** Every snapshot that was read is what the node once served. */
  ghost predicate TrueReads(s: State)
  {
    forall version, list :: (version, list) in s.read ==>
      version <= |s.log| && Enumerates(list, EntriesAt(s.log, version))
  }

  lemma ReadsGrow(s: State, e: EntryInfo)
    requires TrueReads(s)
    ensures TrueReads(s.(log := s.log + [e]))
  {
    hide EntriesAt, Enumerates;
    forall version: nat, list | (version, list) in s.read
      ensures version <= |s.log| && Enumerates(list, EntriesAt(s.log + [e], version))
    {
      EntriesAtExtend(s.log, e, version);
    }
  }

  lemma OwnStep(s: State, e: Event)
    requires LockStep(s.n, s.log) && TrueReads(s) && Enabled(s, e)
    ensures LockStep(Next(s, e).n, Next(s, e).log) <==> InTime(s, e)
    ensures TrueReads(Next(s, e))
  {
    hide LockStep, TrueReads, EntriesAt, Enumerates, AddEntry, RemoveEntry, OwnReply, OwnHello, OwnReset,
      TakesEffectIff, Key;
    match e
    case Adds(uri, t) =>
      NodeSteps.AddEntryLockStep(s.n, s.log, uri, t);
      ReadsGrow(s, EntryInfo(uri, t, true));
      SameReads(if Accepts(s.n, uri, t) then s.(log := s.log + [EntryInfo(uri, t, true)]) else s, Next(s, e));
    case Removes(uri, t) =>
      NodeSteps.RemoveEntryLockStep(s.n, s.log, uri, t);
      ReadsGrow(s, EntryInfo(uri, t, false));
      SameReads(s.(log := Next(s, e).log), Next(s, e));
    case Hears(version) =>
      OwnHelloHarmless(s.n, s.log, version, [], "", 0);
      SameReads(s, Next(s, e));
    case Reads(list) => OneMoreRead(s, list);
    case Applies(version, list) =>
      TrueRead(s, version, list);
      OwnReplyExact(s.n, s.log, list, version, [], "", 0);
      SameReads(s, Next(s, e));
    case Resets =>
      OwnResetExact(s.n, s.log, [], "", 0);
      SameReads(s, Next(s, e));
  }

  lemma SameReads(s: State, s': State)
    requires TrueReads(s) && s'.read == s.read
    ensures s'.log == s.log ==> TrueReads(s')
  {
  }

  lemma TrueRead(s: State, version: nat, list: seq<EntryInfo>)
    requires TrueReads(s) && (version, list) in s.read
    ensures version <= |s.log| && Enumerates(list, EntriesAt(s.log, version))
  {
  }

  lemma OneMoreRead(s: State, list: seq<EntryInfo>)
    requires LockStep(s.n, s.log) && TrueReads(s) && Enumerates(list, s.n.self.entries)
    ensures TrueReads(s.(read := s.read + {(s.n.self.version, list)}))
  {
    hide EntriesAt, Enumerates, Guarded;
  }

  /** Over every run of local changes, hellos under the node's own name, snapshots it reads and applies to itself and
      changes of its instance: sequence number, version and history stay in lock step throughout if and only if every
      snapshot is applied before the next local change and the instance changes before the first. */
  lemma {:induction false} OwnRunInStepIff(s: State, run: seq<Event>)
    requires LockStep(s.n, s.log) && TrueReads(s) && Possible(s, run)
    ensures InStepThroughout(s, run) <==> AllInTime(s, run)
    decreases run
  {
    hide LockStep, TrueReads, Enabled, Next, InTime;
    if run != [] {
      OwnStep(s, run[0]);
      if InTime(s, run[0]) {
        OwnRunInStepIff(Next(s, run[0]), run[1..]);
      } else {
        OutOfStepShows(Next(s, run[0]), run[1..]);
      }
    }
  }

  lemma {:induction false} OutOfStepShows(s: State, run: seq<Event>)
    requires Possible(s, run) && !LockStep(s.n, s.log)
    ensures !InStepThroughout(s, run)
  {
    hide LockStep, Enabled, Next;
  }
}
