/** The client's choice of agent (client/agent_manager.go AgentManager): the active host, the pools, the hosts that
    said goodbye; as values with every run of them, then as the object updated in place. */
module Failover {
  import opened Entries

  datatype AgentInfo = AgentInfo(ip: string, port: nat)

  /** A pool of connections to a host, or the nil that reading a missing host yields. */
  datatype Slot = Nil | Pool(host: string, tag: nat)

  datatype Manager = Manager(active: string, pools: map<string, Slot>, goodbyes: map<string, int>, timeout: nat)

  function HostKey(a: AgentInfo): (host: string)
    ensures host != ""
  {
    a.ip + ":" + Digits(a.port)
  }

  function HostKeys(agents: seq<AgentInfo>): set<string>
  {
    set i | 0 <= i < |agents| :: HostKey(agents[i])
  }

  // ---- Operations ----

  /** The first agent becomes the active one; a known host keeps its pool. */
  function AddAgent(m: Manager, host: string, tag: nat): Manager
  {
    m.(active := if m.active == "" then host else m.active,
       pools := if host in m.pools then m.pools else m.pools[host := Pool(host, tag)])
  }

  function DeleteAgent(m: Manager, host: string): Manager
  {
    if host == m.active then m else m.(pools := m.pools - {host})
  }

  /** The first half of UpdateAgent, read without holding the lock: known hosts keep their pool, new ones get
      one each. */
  function Plan(m: Manager, hosts: set<string>, tag: nat): map<string, Slot>
  {
    map h | h in hosts :: if h in m.pools then m.pools[h] else Pool(h, tag)
  }

  /** The second half: the planned pools replace the current ones, except that the active host is carried over. */
  function Commit(m: Manager, plan: map<string, Slot>): Manager
  {
    m.(pools := if m.active in plan then plan
                else plan[m.active := if m.active in m.pools then m.pools[m.active] else Nil])
  }

  predicate Candidate(m: Manager, host: string)
  {
    host in m.pools && host !in m.goodbyes && host != m.active
  }

  predicate HasCandidate(m: Manager)
  {
    exists h :: h in m.pools && Candidate(m, h)
  }

  /** SwitchActiveAgent as one step that settled on `host`. */
  function SwitchTo(m: Manager, host: string): Manager
  {
    if HasCandidate(m) then m.(active := host) else m
  }

  function AddGoodbye(m: Manager, host: string, now: int): Manager
  {
    m.(goodbyes := m.goodbyes[host := now])
  }

  /** The test as written: the record's age with its sign reversed. */
  predicate Overdue(m: Manager, host: string, now: int)
    requires host in m.goodbyes
  {
    m.goodbyes[host] - now > m.timeout
  }

  function ClearGoodbyes(m: Manager, now: int): Manager
  {
    m.(goodbyes := map h | h in m.goodbyes && !Overdue(m, h, now) :: m.goodbyes[h])
  }

  // ---- Runs ----

  /** `plans` are updates and `choices` switches between their two halves; `clock` is the latest time read. */
  datatype State = State(m: Manager, plans: map<nat, map<string, Slot>>, choices: map<nat, string>, clock: int)

  /** A switch is one step (`Switches`), or its two locks are taken at two times (`Chooses`, `Stores`). */
  datatype Event =
    | Adds(agent: AgentInfo, tag: nat)
    | Deletes(host: string)
    | Plans(update: nat, agents: seq<AgentInfo>, tag: nat)
    | Commits(update: nat)
    | Switches(host: string)
    | Chooses(switch: nat, host: string)
    | Stores(switch: nat)
    | SaysGoodbye(host: string, now: int)
    | Clears(now: int)

  function Start(timeout: nat, clock: int): State
  {
    State(Manager("", map[], map[], timeout), map[], map[], clock)
  }

  /** Clocks do not run backwards; a switch settles on some candidate if there is one, and otherwise stores nothing. */
  predicate Enabled(s: State, e: Event)
  {
    match e
    case Commits(u) => u in s.plans
    case Switches(h) => HasCandidate(s.m) ==> Candidate(s.m, h)
    case Chooses(_, h) => Candidate(s.m, h)
    case Stores(w) => w in s.choices
    case SaysGoodbye(_, now) => s.clock <= now
    case Clears(now) => s.clock <= now
    case _ => true
  }

  function Next(s: State, e: Event): State
    requires Enabled(s, e)
  {
    match e
    case Adds(a, tag) => s.(m := AddAgent(s.m, HostKey(a), tag))
    case Deletes(h) => s.(m := DeleteAgent(s.m, h))
    case Plans(u, agents, tag) => s.(plans := s.plans[u := Plan(s.m, HostKeys(agents), tag)])
    case Commits(u) => s.(m := Commit(s.m, s.plans[u]), plans := s.plans - {u})
    case Switches(h) => s.(m := SwitchTo(s.m, h))
    case Chooses(w, h) => s.(choices := s.choices[w := h])
    case Stores(w) => s.(m := s.m.(active := s.choices[w]), choices := s.choices - {w})
    case SaysGoodbye(h, now) => s.(m := AddGoodbye(s.m, h, now), clock := now)
    case Clears(now) => s.(m := ClearGoodbyes(s.m, now), clock := now)
  }

  predicate Possible(s: State, run: seq<Event>)
    decreases run
  {
    run != [] ==> Enabled(s, run[0]) && Possible(Next(s, run[0]), run[1..])
  }

  function Exec(s: State, run: seq<Event>): State
    requires Possible(s, run)
    decreases run
  {
    if run == [] then s else Exec(Next(s, run[0]), run[1..])
  }

  /** The state after the first `i` events. */
  function Upto(s: State, run: seq<Event>, i: nat): State
    requires Possible(s, run) && i <= |run|
    decreases i
  {
    if i == 0 then s else Upto(Next(s, run[0]), run[1..], i - 1)
  }

  /** No update is committed before some agent was added; the shipped client reads the active pool first. */
  predicate NoEarlyCommit(s: State, run: seq<Event>)
    requires Possible(s, run)
    decreases run
  {
    run != [] ==> (run[0].Commits? ==> s.m.active != "") && NoEarlyCommit(Next(s, run[0]), run[1..])
  }

  /** Every host that is stored is pooled when it is stored. */
  predicate SafeStores(s: State, run: seq<Event>)
    requires Possible(s, run)
    decreases run
  {
    run != [] ==> SafeStore(s, run[0]) && SafeStores(Next(s, run[0]), run[1..])
  }

  predicate SafeStore(s: State, e: Event)
  {
    e.Stores? && e.switch in s.choices ==> s.choices[e.switch] in s.m.pools
  }

  ghost predicate SomeAdded(run: seq<Event>)
  {
    exists i :: 0 <= i < |run| && run[i].Adds?
  }

  // ---- The active host ----

  /** Every host's slot is a pool of that host, and only the empty host's is nil; the active host, if any, has one. */
  ghost predicate Pooled(m: Manager)
  {
    && (m.active != "" ==> m.active in m.pools)
    && (forall h :: h in m.pools ==> if h == "" then m.pools[h] == Nil else m.pools[h].Pool? && m.pools[h].host == h)
  }

  ghost predicate Inv(s: State)
  {
    && Pooled(s.m)
    && (forall u, h :: u in s.plans && h in s.plans[u] ==> h != "" && s.plans[u][h].Pool? && s.plans[u][h].host == h)
  }

  /** Nothing is filed under the empty host, and no switch has chosen it. */
  ghost predicate NoNil(s: State)
  {
    "" !in s.m.pools && forall w :: w in s.choices ==> s.choices[w] != ""
  }

  lemma StepInv(s: State, e: Event)
    requires Inv(s) && Enabled(s, e) && SafeStore(s, e)
    ensures Inv(Next(s, e))
    ensures s.m.active in s.m.pools || e.Adds? ==> Next(s, e).m.active in Next(s, e).m.pools
  {
    hide HostKey;
    match e
    case Plans(u, agents, tag) =>
      assert "" !in HostKeys(agents);
    case _ =>
  }

  lemma StepNoNil(s: State, e: Event)
    requires Inv(s) && Enabled(s, e) && NoNil(s) && (e.Commits? ==> s.m.active != "")
    ensures NoNil(Next(s, e)) && (s.m.active != "" || e.Adds? ==> Next(s, e).m.active != "")
  {
    hide HostKey, HostKeys, Plan, HasCandidate;
  }

  /** Over every run of additions, deletions, updates split in two with anything in between, switches and goodbyes. */
  lemma {:induction false} RunInv(s: State, run: seq<Event>)
    requires Inv(s) && Possible(s, run) && SafeStores(s, run)
    ensures
      var m := Exec(s, run).m;
      && Inv(Exec(s, run))
      && (s.m.active in s.m.pools || SomeAdded(run) ==> m.active in m.pools)
      && (NoNil(s) && NoEarlyCommit(s, run) ==>
            NoNil(Exec(s, run)) && (s.m.active != "" || SomeAdded(run) ==> m.active != ""))
    decreases run
  {
    hide Enabled, Next, Inv, NoNil, SafeStore;
    if run != [] {
      StepInv(s, run[0]);
      if NoNil(s) && (run[0].Commits? ==> s.m.active != "") {
        StepNoNil(s, run[0]);
      }
      RunInv(Next(s, run[0]), run[1..]);
      assert forall i :: 1 <= i < |run| ==> run[i] == run[1..][i - 1];
      assert SomeAdded(run) ==> run[0].Adds? || SomeAdded(run[1..]);
    }
  }

  /** In every run from the start whose switches store pooled hosts, one-step switches always: from the first addition
      on, the active host is a key of the pool map, and what is filed there is a pool of that very host, exactly unless
      the empty host is active. */
  lemma ActiveAlwaysPooled(timeout: nat, clock: int, run: seq<Event>)
    requires Possible(Start(timeout, clock), run) && SafeStores(Start(timeout, clock), run) && SomeAdded(run)
    ensures
      var m := Exec(Start(timeout, clock), run).m;
      && m.active in m.pools
      && (m.active != "" <==> m.pools[m.active].Pool? && m.pools[m.active].host == m.active)
  {
    hide Enabled, Next, SomeAdded;
    RunInv(Start(timeout, clock), run);
  }

  /** And the empty host is never active if no update is committed before the first addition. */
  lemma ActiveAlwaysUsable(timeout: nat, clock: int, run: seq<Event>)
    requires Possible(Start(timeout, clock), run) && SafeStores(Start(timeout, clock), run) && SomeAdded(run)
    requires NoEarlyCommit(Start(timeout, clock), run)
    ensures
      var m := Exec(Start(timeout, clock), run).m;
      m.active in m.pools && m.pools[m.active].Pool? && m.pools[m.active].host == m.active
  {
    hide Enabled, Next, SomeAdded;
    RunInv(Start(timeout, clock), run);
  }

  /** A run without split switches stores nothing. */
  lemma {:induction false} OneStepSwitchesAreSafe(s: State, run: seq<Event>)
    requires Possible(s, run) && forall i :: 0 <= i < |run| ==> !run[i].Stores?
    ensures SafeStores(s, run)
    decreases run
  {
    hide Enabled, Next;
    if run != [] {
      OneStepSwitchesAreSafe(Next(s, run[0]), run[1..]);
    }
  }

  /** What an early commit can lead to: whatever agents it announces, and whatever agent is added after it, a switch may
      settle on the empty host, and the active pool is nil. */
  lemma EarlyCommitMakesNilActive(timeout: nat, clock: int, agents: seq<AgentInfo>, a: AgentInfo, tag: nat)
    ensures
      var run := [Plans(0, agents, tag), Commits(0), Adds(a, tag), Switches("")];
      && Possible(Start(timeout, clock), run)
      && var m := Exec(Start(timeout, clock), run).m;
         m.active == "" && "" in m.pools && m.pools[""] == Nil
  {
    hide HostKey;
    var s := Start(timeout, clock);
    var s1 := Next(s, Plans(0, agents, tag));
    var s2 := Next(s1, Commits(0));
    var s3 := Next(s2, Adds(a, tag));
    assert "" !in HostKeys(agents);
    assert s3.m.active == HostKey(a) && s3.m.pools[""] == Nil && Candidate(s3.m, "");
    Cons(s3, Switches(""), []);
    Cons(s2, Adds(a, tag), [Switches("")]);
    Cons(s1, Commits(0), [Adds(a, tag), Switches("")]);
    Cons(s, Plans(0, agents, tag), [Commits(0), Adds(a, tag), Switches("")]);
  }

  /** One event in front of a run. */
  lemma Cons(s: State, e: Event, run: seq<Event>)
    requires Enabled(s, e) && Possible(Next(s, e), run)
    ensures Possible(s, [e] + run) && Exec(s, [e] + run) == Exec(Next(s, e), run)
    ensures |run| == 0 ==> Possible(s, [e]) && Exec(s, [e]) == Next(s, e)
    ensures |run| == 1 ==> [e] + run == [e, run[0]]
    ensures |run| == 2 ==> [e] + run == [e, run[0], run[1]]
    ensures |run| == 3 ==> [e] + run == [e, run[0], run[1], run[2]]
  {
    hide Enabled, Next;
    assert ([e] + run)[1..] == run;
    assert |run| == 0 ==> [e] + run == [e];
  }

  /** An addition leaves the host pooled, by the pool it had if it had one, keeps every other pool, and makes the host
      active if and only if none was. */
  lemma AddResult(m: Manager, a: AgentInfo, tag: nat)
    ensures
      var after := AddAgent(m, HostKey(a), tag);
      && after.pools.Keys == m.pools.Keys + {HostKey(a)}
      && (forall h :: h in m.pools ==> after.pools[h] == m.pools[h])
      && (HostKey(a) !in m.pools ==> after.pools[HostKey(a)] == Pool(HostKey(a), tag))
      && (after.active == if m.active == "" then HostKey(a) else m.active)
      && after.goodbyes == m.goodbyes && after.timeout == m.timeout
  {
    hide HostKey;
  }

  /** A deletion takes away exactly the named host, unless it is active, and no other pool. */
  lemma DeleteResult(m: Manager, host: string)
    ensures
      var after := DeleteAgent(m, host);
      && after.pools.Keys == (if host == m.active then m.pools.Keys else m.pools.Keys - {host})
      && (forall h :: h in after.pools ==> after.pools[h] == m.pools[h])
      && after.active == m.active && after.goodbyes == m.goodbyes && after.timeout == m.timeout
  {
  }

  /** An update over a run: planned at one time, committed at another with anything in between but another plan of the
      same number, it leaves exactly the announced hosts and the host that is active then; hosts known when it was
      planned keep the pool they had then, and the active host the one it has now. */
  lemma UpdateOverRun(s: State, u: nat, agents: seq<AgentInfo>, tag: nat, run: seq<Event>)
    requires Possible(Next(s, Plans(u, agents, tag)), run)
    requires forall i :: 0 <= i < |run| ==> !(run[i].Plans? && run[i].update == u) && run[i] != Commits(u)
    ensures
      var later := Exec(Next(s, Plans(u, agents, tag)), run);
      && Enabled(later, Commits(u))
      && var after := Next(later, Commits(u)).m;
         && after.pools.Keys == HostKeys(agents) + {later.m.active} && after.active == later.m.active
         && (forall h :: h in HostKeys(agents) ==>
               after.pools[h] == if h in s.m.pools then s.m.pools[h] else Pool(h, tag))
         && (later.m.active !in HostKeys(agents) && later.m.active in later.m.pools ==>
               after.pools[later.m.active] == later.m.pools[later.m.active])
  {
    hide HostKeys, Possible, Exec;
    PlanStays(Next(s, Plans(u, agents, tag)), run, u);
  }

  lemma {:induction false} PlanStays(s: State, run: seq<Event>, u: nat)
    requires Possible(s, run) && u in s.plans
    requires forall i :: 0 <= i < |run| ==> !(run[i].Plans? && run[i].update == u) && run[i] != Commits(u)
    ensures u in Exec(s, run).plans && Exec(s, run).plans[u] == s.plans[u]
    decreases run
  {
    hide Enabled, Next;
    if run != [] {
      PlanStep(s, run[0], u);
      PlanStays(Next(s, run[0]), run[1..], u);
    }
  }

  lemma PlanStep(s: State, e: Event, u: nat)
    requires Enabled(s, e) && u in s.plans && !(e.Plans? && e.update == u) && e != Commits(u)
    ensures u in Next(s, e).plans && Next(s, e).plans[u] == s.plans[u]
  {
    hide HostKeys;
  }

  /** The result of an update is exactly the announced hosts and the host active when it is committed, whatever
      happened between its halves, and the active host is never left without the pool it had. */
  lemma CommitResult(before: Manager, m: Manager, agents: seq<AgentInfo>, tag: nat)
    ensures
      var after := Commit(m, Plan(before, HostKeys(agents), tag));
      && after.pools.Keys == HostKeys(agents) + {m.active}
      && (m.active in m.pools && m.active !in HostKeys(agents) ==> after.pools[m.active] == m.pools[m.active])
      && (forall h :: h in HostKeys(agents) ==> after.pools[h] == if h in before.pools then before.pools[h]
        else Pool(h, tag))
  {
    hide HostKeys;
  }

  /** An update files a nil pool under the empty host exactly if it is committed before any agent was added. */
  lemma EarlyCommitUsableIff(m: Manager, plan: map<string, Slot>)
    requires "" !in plan
    ensures "" !in Commit(m, plan).pools <==> m.active != ""
  {
  }

  // ---- A switch in two halves ----

  /** The steps after which a host that was pooled is not: its deletion, or an update that does not announce it; neither
      while it is active. */
  predicate Drops(s: State, e: Event, host: string)
  {
    match e
    case Deletes(h) => h == host && host != s.m.active
    case Commits(u) => u in s.plans && host !in s.plans[u] && host != s.m.active
    case _ => false
  }

  /** The steps after which a host is pooled whatever was before: its addition, or an update that keeps it. */
  predicate Restores(s: State, e: Event, host: string)
  {
    match e
    case Adds(a, _) => HostKey(a) == host
    case Commits(u) => u in s.plans && (host in s.plans[u] || host == s.m.active)
    case _ => false
  }

  ghost predicate SomeRestores(s: State, run: seq<Event>, host: string)
    requires Possible(s, run)
  {
    exists j :: 0 <= j < |run| && Restores(Upto(s, run, j), run[j], host)
  }

  /** Whenever the run drops the host, it restores it later. */
  ghost predicate NotLost(s: State, run: seq<Event>, host: string)
    requires Possible(s, run)
  {
    forall i :: 0 <= i < |run| && Drops(Upto(s, run, i), run[i], host) ==> RestoredAfter(s, run, host, i)
  }

  ghost predicate RestoredAfter(s: State, run: seq<Event>, host: string, i: nat)
    requires Possible(s, run)
  {
    exists j :: i < j < |run| && Restores(Upto(s, run, j), run[j], host)
  }

  lemma StepPooled(s: State, e: Event, host: string)
    requires Enabled(s, e)
    ensures host in Next(s, e).m.pools <==> Restores(s, e, host) || (host in s.m.pools && !Drops(s, e, host))
    ensures !(Restores(s, e, host) && Drops(s, e, host))
  {
    hide HostKey;
  }

  lemma Shift(s: State, run: seq<Event>, i: nat)
    requires Possible(s, run) && i < |run|
    ensures i > 0 ==> run[i] == run[1..][i - 1] && Upto(s, run, i) == Upto(Next(s, run[0]), run[1..], i - 1)
    ensures i == 0 ==> Upto(s, run, i) == s
  {
    hide Enabled, Next;
  }

  /** What a run restores, it restores with its first event or after it. */
  lemma RestoresOfRest(s: State, run: seq<Event>, host: string, i: nat)
    requires Possible(s, run) && run != []
    ensures RestoredAfter(s, run, host, i) <==>
      if i == 0 then SomeRestores(Next(s, run[0]), run[1..], host)
        else RestoredAfter(Next(s, run[0]), run[1..], host, i - 1)
    ensures SomeRestores(s, run, host) <==> Restores(s, run[0], host) || SomeRestores(Next(s, run[0]), run[1..], host)
  {
    hide Enabled, Next, Restores, Upto;
    var s', rest := Next(s, run[0]), run[1..];
    Shift(s, run, 0);
    forall j | 0 < j < |run| ensures run[j] == rest[j - 1] && Upto(s, run, j) == Upto(s', rest, j - 1) {
      Shift(s, run, j);
    }
    if RestoredAfter(s, run, host, i) {
      var j :| i < j < |run| && Restores(Upto(s, run, j), run[j], host);
      assert Restores(Upto(s', rest, j - 1), rest[j - 1], host);
    }
    if j :| 0 <= j < |rest| && Restores(Upto(s', rest, j), rest[j], host) && (i == 0 || i - 1 < j) {
      assert rest[j] == run[j + 1] && Restores(Upto(s, run, j + 1), run[j + 1], host);
    }
    if SomeRestores(s, run, host) {
      var j :| 0 <= j < |run| && Restores(Upto(s, run, j), run[j], host);
      assert j > 0 ==> Restores(Upto(s', rest, j - 1), rest[j - 1], host);
    }
    if j :| 0 <= j < |rest| && Restores(Upto(s', rest, j), rest[j], host) {
      assert rest[j] == run[j + 1] && Restores(Upto(s, run, j + 1), run[j + 1], host);
    }
  }

  lemma NotLostOfRest(s: State, run: seq<Event>, host: string)
    requires Possible(s, run) && run != []
    ensures NotLost(s, run, host) <==>
      && NotLost(Next(s, run[0]), run[1..], host)
      && (Drops(s, run[0], host) ==> SomeRestores(Next(s, run[0]), run[1..], host))
  {
    hide Enabled, Next, Drops, RestoredAfter, SomeRestores, Upto;
    var s', rest := Next(s, run[0]), run[1..];
    Shift(s, run, 0);
    forall i: nat | i < |run|
      ensures i > 0 ==> run[i] == rest[i - 1] && Upto(s, run, i) == Upto(s', rest, i - 1)
      ensures RestoredAfter(s, run, host, i) <==>
        if i == 0 then SomeRestores(s', rest, host) else RestoredAfter(s', rest, host, i - 1)
    {
      Shift(s, run, i);
      RestoresOfRest(s, run, host, i);
    }
    if NotLost(s, run, host) {
      forall i | 0 <= i < |rest| && Drops(Upto(s', rest, i), rest[i], host) ensures RestoredAfter(s', rest, host, i) {
        assert run[i + 1] == rest[i] && RestoredAfter(s, run, host, i + 1);
      }
    }
  }

  /** Over every run: a host is pooled at its end if and only if it was pooled, or restored, and not lost since. */
  lemma {:induction false} PooledIffNotLost(s: State, run: seq<Event>, host: string)
    requires Possible(s, run)
    ensures host in Exec(s, run).m.pools <==>
      (host in s.m.pools || SomeRestores(s, run, host)) && NotLost(s, run, host)
    decreases run
  {
    hide Enabled, Next, Drops, Restores, SomeRestores, NotLost, RestoredAfter;
    if run == [] {
      NothingLost(s, host);
    } else {
      StepPooled(s, run[0], host);
      NotLostOfRest(s, run, host);
      RestoresOfRest(s, run, host, 0);
      PooledIffNotLost(Next(s, run[0]), run[1..], host);
    }
  }

  lemma NothingLost(s: State, host: string)
    ensures Possible(s, []) && NotLost(s, [], host) && !SomeRestores(s, [], host)
  {
  }

  /** A switch in two halves, with any run in between: the host it makes active is pooled then if and only if the run
      did not drop it without restoring it. */
  lemma StoredIsPooledIff(s: State, w: nat, host: string, run: seq<Event>)
    requires Enabled(s, Chooses(w, host)) && Possible(Next(s, Chooses(w, host)), run)
    requires
      var later := Exec(Next(s, Chooses(w, host)), run);
      w in later.choices && later.choices[w] == host
    ensures
      var chosen := Next(s, Chooses(w, host));
      var stored := Next(Exec(chosen, run), Stores(w)).m;
      stored.active == host && (host in stored.pools <==> NotLost(chosen, run, host))
  {
    hide Possible, Exec, NotLost, SomeRestores;
    PooledIffNotLost(Next(s, Chooses(w, host)), run, host);
  }

  ghost predicate ActivePooled(s: State, run: seq<Event>, i: nat)
    requires Possible(s, run) && i <= |run|
  {
    Upto(s, run, i).m.active in Upto(s, run, i).m.pools
  }

  ghost predicate PooledThroughout(s: State, run: seq<Event>)
    requires Possible(s, run)
  {
    forall i: nat :: i <= |run| ==> ActivePooled(s, run, i)
  }

  lemma ThroughoutNow(s: State, run: seq<Event>)
    requires Possible(s, run)
    ensures PooledThroughout(s, run) ==> s.m.active in s.m.pools
  {
    hide Enabled, Next;
    assert PooledThroughout(s, run) ==> ActivePooled(s, run, 0);
  }

  lemma ThroughoutRest(s: State, run: seq<Event>)
    requires Possible(s, run) && run != []
    ensures PooledThroughout(s, run) <==> s.m.active in s.m.pools && PooledThroughout(Next(s, run[0]), run[1..])
  {
    hide Enabled, Next;
    var s', rest := Next(s, run[0]), run[1..];
    forall i: nat | i <= |rest| ensures ActivePooled(s', rest, i) <==> ActivePooled(s, run, i + 1) {
    }
    if PooledThroughout(s, run) {
      assert ActivePooled(s, run, 0);
      forall i: nat | i <= |rest| ensures ActivePooled(s', rest, i) {
        assert ActivePooled(s, run, i + 1);
      }
    }
    if s.m.active in s.m.pools && PooledThroughout(s', rest) {
      forall i: nat | i <= |run| ensures ActivePooled(s, run, i) {
        assert i > 0 ==> ActivePooled(s', rest, i - 1);
      }
    }
  }

  /** The active host stays a key of the pool map throughout a run if and only if every host that is stored is pooled
      when it is stored. */
  lemma {:induction false} PooledThroughoutIff(s: State, run: seq<Event>)
    requires Inv(s) && s.m.active in s.m.pools && Possible(s, run)
    ensures PooledThroughout(s, run) <==> SafeStores(s, run)
    decreases run
  {
    hide Inv, Enabled, Next, SafeStore;
    if run != [] {
      var s', rest := Next(s, run[0]), run[1..];
      ThroughoutRest(s, run);
      if SafeStore(s, run[0]) {
        StepInv(s, run[0]);
        PooledThroughoutIff(s', rest);
      } else {
        StoreShows(s, run[0]);
        ThroughoutNow(s', rest);
      }
    }
  }

  lemma StoreShows(s: State, e: Event)
    requires Enabled(s, e)
    ensures !SafeStore(s, e) ==> Next(s, e).m.active !in Next(s, e).m.pools
  {
  }

  // ---- Goodbyes ----

  ghost predicate Clocked(s: State)
  {
    forall h :: h in s.m.goodbyes ==> s.m.goodbyes[h] <= s.clock
  }

  ghost predicate Says(run: seq<Event>, h: string)
  {
    exists i :: 0 <= i < |run| && run[i].SaysGoodbye? && run[i].host == h
  }

  /** In every run whatsoever, exactly the hosts that have said goodbye are recorded, however much time passes. */
  lemma {:induction false} RecordedIffSaid(s: State, run: seq<Event>, h: string)
    requires Clocked(s) && Possible(s, run)
    ensures Clocked(Exec(s, run)) && (h in Exec(s, run).m.goodbyes <==> h in s.m.goodbyes || Says(run, h))
    decreases run
  {
    hide Enabled, Next, Clocked;
    if run != [] {
      GoodbyeStep(s, run[0], h);
      RecordedIffSaid(Next(s, run[0]), run[1..], h);
      assert forall i :: 1 <= i < |run| ==> run[i] == run[1..][i - 1];
      if Says(run[1..], h) {
        var i :| 0 <= i < |run[1..]| && run[1..][i].SaysGoodbye? && run[1..][i].host == h;
        assert run[i + 1] == run[1..][i];
      }
    }
  }

  lemma GoodbyeStep(s: State, e: Event, h: string)
    requires Clocked(s) && Enabled(s, e)
    ensures Clocked(Next(s, e))
    ensures h in Next(s, e).m.goodbyes <==> h in s.m.goodbyes || (e.SaysGoodbye? && e.host == h)
  {
    hide HostKey;
  }

  /** The time recorded for a host is that of its last goodbye. */
  lemma {:induction false} LastGoodbyeCounts(s: State, h: string, now: int, run: seq<Event>)
    requires Clocked(s) && Enabled(s, SaysGoodbye(h, now)) && Possible(Next(s, SaysGoodbye(h, now)), run)
      && !Says(run, h)
    ensures
      var later := Exec(Next(s, SaysGoodbye(h, now)), run).m;
      h in later.goodbyes && later.goodbyes[h] == now
  {
    hide Possible, Exec, Says;
    GoodbyeStep(s, SaysGoodbye(h, now), h);
    TimeStays(Next(s, SaysGoodbye(h, now)), run, h);
  }

  lemma {:induction false} TimeStays(s: State, run: seq<Event>, h: string)
    requires Clocked(s) && Possible(s, run) && !Says(run, h) && h in s.m.goodbyes
    ensures h in Exec(s, run).m.goodbyes && Exec(s, run).m.goodbyes[h] == s.m.goodbyes[h]
    decreases run
  {
    hide Enabled, Next, Clocked;
    if run != [] {
      GoodbyeStep(s, run[0], h);
      TimeStep(s, run[0], h);
      assert !Says(run[1..], h) by {
        assert forall i :: 0 <= i < |run[1..]| ==> run[1..][i] == run[i + 1];
      }
      TimeStays(Next(s, run[0]), run[1..], h);
    }
  }

  lemma TimeStep(s: State, e: Event, h: string)
    requires Clocked(s) && Enabled(s, e) && h in s.m.goodbyes && !(e.SaysGoodbye? && e.host == h)
    ensures h in Next(s, e).m.goodbyes && Next(s, e).m.goodbyes[h] == s.m.goodbyes[h]
  {
    hide HostKey;
  }

  /** In every run, a host that said goodbye is never chosen again, in one step or two. */
  lemma NeverChosenAgain(s: State, run: seq<Event>, h: string, w: nat)
    requires Clocked(s) && Possible(s, run) && h in s.m.goodbyes
    ensures !Candidate(Exec(s, run).m, h) && !Enabled(Exec(s, run), Chooses(w, h))
    ensures Enabled(Exec(s, run), Switches(h)) ==> SwitchTo(Exec(s, run).m, h) == Exec(s, run).m
  {
    RecordedIffSaid(s, run, h);
  }

  /** But a switch in two halves makes a host active that said goodbye, exactly if it said so in between. */
  lemma StoredSaidGoodbyeIff(s: State, w: nat, host: string, run: seq<Event>)
    requires Clocked(s) && Enabled(s, Chooses(w, host)) && Possible(Next(s, Chooses(w, host)), run)
    requires
      var later := Exec(Next(s, Chooses(w, host)), run);
      w in later.choices && later.choices[w] == host
    ensures
      var stored := Next(Exec(Next(s, Chooses(w, host)), run), Stores(w)).m;
      stored.active == host && (host in stored.goodbyes <==> Says(run, host))
  {
    hide Possible, Exec, Says;
    RecordedIffSaid(Next(s, Chooses(w, host)), run, host);
  }

  /** What expiry removes: only records dated more than the timeout after the present, so nothing at all unless the
      clock went back by more than the timeout. */
  lemma ExpiryNeedsClockGoingBack(m: Manager, now: int, h: string)
    requires h in m.goodbyes
    ensures h !in ClearGoodbyes(m, now).goodbyes <==> m.goodbyes[h] > now + m.timeout
  {
  }

  // ---- From the start ----

  /** Two agents are added and a switch chooses the second. */
  function Chosen(a: AgentInfo, b: AgentInfo): seq<Event>
  {
    [Adds(a, 0), Adds(b, 0), Chooses(0, HostKey(b))]
  }

  lemma ChosenFromStart(timeout: nat, clock: int, a: AgentInfo, b: AgentInfo)
    requires HostKey(a) != HostKey(b)
    ensures
      var s, pools := Start(timeout, clock), map[HostKey(a) := Pool(HostKey(a), 0), HostKey(b) := Pool(HostKey(b), 0)];
      && Possible(s, Chosen(a, b))
      && Exec(s, Chosen(a, b)) == State(Manager(HostKey(a), pools, map[], timeout), map[], map[0 := HostKey(b)], clock)
  {
    hide HostKey;
    var s := Start(timeout, clock);
    var s1 := Next(s, Adds(a, 0));
    var s2 := Next(s1, Adds(b, 0));
    assert Candidate(s2.m, HostKey(b));
    Cons(s2, Chooses(0, HostKey(b)), []);
    Cons(s1, Adds(b, 0), [Chooses(0, HostKey(b))]);
    Cons(s, Adds(a, 0), [Adds(b, 0), Chooses(0, HostKey(b))]);
  }

  /** A run goes on where it ended. */
  lemma {:induction false} Concat(s: State, first: seq<Event>, rest: seq<Event>)
    requires Possible(s, first) && Possible(Exec(s, first), rest)
    ensures Possible(s, first + rest) && Exec(s, first + rest) == Exec(Exec(s, first), rest)
    decreases first
  {
    hide Enabled, Next;
    if first == [] {
      assert first + rest == rest;
    } else {
      Concat(Next(s, first[0]), first[1..], rest);
      assert (first + rest)[1..] == first[1..] + rest;
    }
  }

  /** The chosen host is deleted before it is stored: the active host has no pool. */
  lemma DeletedBeforeStored(timeout: nat, clock: int, a: AgentInfo, b: AgentInfo)
    requires HostKey(a) != HostKey(b)
    ensures
      var s, run := Start(timeout, clock), Chosen(a, b) + [Deletes(HostKey(b)), Stores(0)];
      Possible(s, run) && Exec(s, run).m.active == HostKey(b) && HostKey(b) !in Exec(s, run).m.pools
  {
    hide HostKey, Possible, Exec, Chosen;
    ChosenFromStart(timeout, clock, a, b);
    var s := Exec(Start(timeout, clock), Chosen(a, b));
    var s1 := Next(s, Deletes(HostKey(b)));
    Ends(s1, Stores(0));
    Cons(s, Deletes(HostKey(b)), [Stores(0)]);
    Concat(Start(timeout, clock), Chosen(a, b), [Deletes(HostKey(b)), Stores(0)]);
  }

  /** An update that does not announce the chosen host is carried out before it is stored: the same. */
  lemma UpdatedBeforeStored(timeout: nat, clock: int, a: AgentInfo, b: AgentInfo, agents: seq<AgentInfo>)
    requires HostKey(a) != HostKey(b) && HostKey(b) !in HostKeys(agents)
    ensures
      var s, run := Start(timeout, clock), Chosen(a, b) + [Plans(0, agents, 0), Commits(0), Stores(0)];
      Possible(s, run) && Exec(s, run).m.active == HostKey(b) && HostKey(b) !in Exec(s, run).m.pools
  {
    hide HostKey, Possible, Exec, Chosen, HostKeys;
    ChosenFromStart(timeout, clock, a, b);
    var s := Exec(Start(timeout, clock), Chosen(a, b));
    var s1 := Next(s, Plans(0, agents, 0));
    var s2 := Next(s1, Commits(0));
    Ends(s2, Stores(0));
    Cons(s1, Commits(0), [Stores(0)]);
    Cons(s, Plans(0, agents, 0), [Commits(0), Stores(0)]);
    Concat(Start(timeout, clock), Chosen(a, b), [Plans(0, agents, 0), Commits(0), Stores(0)]);
  }

  /** The chosen host says goodbye before it is stored: it is switched to all the same. */
  lemma GoodbyeBeforeStored(timeout: nat, clock: int, a: AgentInfo, b: AgentInfo, now: int)
    requires HostKey(a) != HostKey(b) && clock <= now
    ensures
      var s, run := Start(timeout, clock), Chosen(a, b) + [SaysGoodbye(HostKey(b), now), Stores(0)];
      Possible(s, run) && Exec(s, run).m.active == HostKey(b) && HostKey(b) in Exec(s, run).m.goodbyes
  {
    hide HostKey, Possible, Exec, Chosen;
    ChosenFromStart(timeout, clock, a, b);
    var s := Exec(Start(timeout, clock), Chosen(a, b));
    var s1 := Next(s, SaysGoodbye(HostKey(b), now));
    Ends(s1, Stores(0));
    Cons(s, SaysGoodbye(HostKey(b), now), [Stores(0)]);
    Concat(Start(timeout, clock), Chosen(a, b), [SaysGoodbye(HostKey(b), now), Stores(0)]);
  }

  lemma Ends(s: State, e: Event)
    requires Enabled(s, e)
    ensures Possible(s, [e]) && Exec(s, [e]) == Next(s, e)
  {
    hide Enabled, Next;
    assert [e][1..] == [];
  }

  // ---- The object ----

  class AgentManager {
    var active: string
    var pools: map<string, Slot>
    var goodbyes: map<string, int>
    const timeout: nat

    function Value(): Manager
      reads this
    {
      Manager(active, pools, goodbyes, timeout)
    }

    constructor (timeout: nat)
      ensures Value() == Start(timeout, 0).m
    {
      this.timeout := timeout;
      active, pools, goodbyes := "", map[], map[];
    }

    method Add(agent: AgentInfo, tag: nat) returns (existed: bool)
      modifies this
      ensures Value() == AddAgent(old(Value()), HostKey(agent), tag)
      ensures existed <==> HostKey(agent) in old(pools)
    {
      var host := HostKey(agent);
      if |active| == 0 {
        active := host;
      }
      existed := host in pools;
      if !existed {
        pools := pools[host := Pool(host, tag)];
      }
    }

    method Delete(host: string) returns (deleted: bool)
      modifies this
      ensures Value() == DeleteAgent(old(Value()), host)
      ensures deleted <==> host in old(pools) && host != old(active)
    {
      if active == host {
        return false;
      }
      deleted := host in pools;
      pools := pools - {host};
    }

    method PlanUpdate(agents: seq<AgentInfo>, tag: nat) returns (plan: map<string, Slot>)
      ensures plan == Plan(Value(), HostKeys(agents), tag)
    {
      hide HostKey;
      plan := map[];
      for i := 0 to |agents|
        invariant plan == Plan(Value(), HostKeys(agents[..i]), tag)
      {
        var host := HostKey(agents[i]);
        assert HostKeys(agents[..i + 1]) == HostKeys(agents[..i]) + {host} by { HostKeysSnoc(agents, i); }
        if host in pools {
          plan := plan[host := pools[host]];
        } else {
          plan := plan[host := Pool(host, tag)];
        }
      }
      assert agents[..|agents|] == agents;
    }

    method CommitUpdate(plan: map<string, Slot>)
      modifies this`pools
      ensures Value() == Commit(old(Value()), plan)
    {
      var all := plan;
      if active !in all {
        all := all[active := if active in pools then pools[active] else Nil];
      }
      pools := all;
    }

    /** The first half of a switch: visits the hosts in whatever order the map yields them and settles on the first
        candidate. */
    method ChooseAgent() returns (found: bool, host: string)
      ensures found <==> HasCandidate(Value())
      ensures found ==> Candidate(Value(), host)
    {
      found, host := false, "";
      var left := pools.Keys;
      while left != {}
        invariant left <= pools.Keys && !found
        invariant forall h :: h in pools && h !in left ==> !Candidate(Value(), h)
        decreases |left|
      {
        host :| host in left;
        left := left - {host};
        if host !in goodbyes && host != active {
          assert Candidate(Value(), host);
          found := true;
          return;
        }
      }
    }

    /** The second half. */
    method StoreAgent(host: string)
      modifies this`active
      ensures active == host
    {
      active := host;
    }

    /** With nothing between its halves it never lands on a host that said goodbye, and it leaves the active host
        whenever there is another to go to. */
    method SwitchActiveAgent()
      modifies this`active
      ensures Value() == SwitchTo(old(Value()), active)
      ensures if HasCandidate(old(Value())) then Candidate(old(Value()), active) else active == old(active)
    {
      var found, host := ChooseAgent();
      if found {
        StoreAgent(host);
      }
    }

    method SwitchToOtherAgent(host: string)
      modifies this`active
      ensures host != old(active) ==> active == old(active)
      ensures host == old(active) ==>
        if HasCandidate(old(Value())) then Candidate(old(Value()), active) else active == old(active)
    {
      if host == active {
        SwitchActiveAgent();
      }
    }

    method AddGoodByeAgent(host: string, now: int) returns (existed: bool)
      modifies this`goodbyes
      ensures Value() == AddGoodbye(old(Value()), host, now)
      ensures existed <==> host in old(goodbyes)
    {
      existed := host in goodbyes;
      goodbyes := goodbyes[host := now];
    }

    /** The goodbye of a host: recorded, and left behind if there is anywhere to go. */
    method HandleGoodbye(host: string, now: int)
      modifies this
      ensures goodbyes == old(goodbyes)[host := now] && pools == old(pools)
      ensures
        if host == old(active) && HasCandidate(AddGoodbye(old(Value()), host, now))
        then active != host && active in pools && active !in goodbyes
        else active == old(active)
    {
      var existed := AddGoodByeAgent(host, now);
      SwitchToOtherAgent(host);
    }

    method ClearGoodbyeTimeout(now: int)
      modifies this`goodbyes
      ensures Value() == ClearGoodbyes(old(Value()), now)
    {
      ghost var before := Value();
      var overdue: set<string> := {};
      var left := goodbyes.Keys;
      while left != {}
        invariant left <= goodbyes.Keys && overdue <= goodbyes.Keys && goodbyes == before.goodbyes
        invariant forall h :: h in goodbyes && h !in left ==> (h in overdue <==> Overdue(before, h, now))
        invariant overdue !! left
        decreases |left|
      {
        var host :| host in left;
        left := left - {host};
        if goodbyes[host] - now > timeout {
          overdue := overdue + {host};
        }
      }
      goodbyes := goodbyes - overdue;
    }
  }

  lemma HostKeysSnoc(agents: seq<AgentInfo>, i: nat)
    requires i < |agents|
    ensures HostKeys(agents[..i + 1]) == HostKeys(agents[..i]) + {HostKey(agents[i])}
  {
    hide HostKey;
    var a, b := agents[..i], agents[..i + 1];
    assert b[i] == agents[i] && forall j :: 0 <= j < i ==> a[j] == b[j];
    forall h | h in HostKeys(b) ensures h in HostKeys(a) + {HostKey(agents[i])} {
      var j :| 0 <= j < |b| && HostKey(b[j]) == h;
      assert j < i ==> HostKey(a[j]) == h;
    }
  }
}
