/** The table of waiting calls as the connection object keeps it (network/common.go ServerConnection): a map of
    context objects whose channels are closed in place, each method proved to carry out the step of Pending it is. */
module Connections {
  import opened Pending

  /** A waiting call's context. Sending on or closing a closed channel would panic. */
  class RpcContext {
    var closed: bool
    var cancelled: bool
    var errorMsg: string

    constructor ()
      ensures !closed && !cancelled && errorMsg == ""
    {
      closed, cancelled, errorMsg := false, false, "";
    }

    method Close()
      requires !closed
      modifies this`closed
      ensures closed
    {
      closed := true;
    }

    /** What is seen of a call in its context: whether its channel was closed and whether it was given an error. */
    ghost predicate Shows(call: Call)
      reads this
    {
      (closed <==> call.closes > 0) && (errorMsg != "" <==> call.err) && (cancelled ==> call.done)
    }
  }

  /** The table holds the contexts of the calls that the table of `s` holds. */
  ghost predicate Filed(table: map<Id, RpcContext>, contexts: map<nat, RpcContext>, s: State)
  {
    && contexts.Keys == s.calls.Keys && table.Keys == s.table.Keys
    && forall id :: id in table ==> s.table[id] in contexts && table[id] == contexts[s.table[id]]
  }

  /** No two calls share a context. */
  ghost predicate Apart(contexts: map<nat, RpcContext>)
  {
    forall c, d :: c in contexts && d in contexts && c != d ==> contexts[c] != contexts[d]
  }

  lemma FiledWithout(table: map<Id, RpcContext>, contexts: map<nat, RpcContext>, s: State, s': State, id: Id)
    requires Filed(table, contexts, s) && s'.calls.Keys == s.calls.Keys && s'.table == s.table - {id}
    ensures Filed(table - {id}, contexts, s')
  {
  }

  lemma FiledWith(table: map<Id, RpcContext>, contexts: map<nat, RpcContext>, s: State, s': State, id: Id, c: nat,
    x: RpcContext)
    requires Filed(table, contexts, s) && Apart(contexts) && c !in contexts && x !in contexts.Values
    requires s'.calls.Keys == s.calls.Keys + {c} && s'.table == s.table[id := c]
    ensures Filed(table[id := x], contexts[c := x], s') && Apart(contexts[c := x])
  {
  }

  lemma KeysFiled(table: map<Id, RpcContext>, contexts: map<nat, RpcContext>, s: State)
    requires Filed(table, contexts, s)
    ensures table.Keys == s.table.Keys && contexts.Keys == s.calls.Keys
  {
  }

  /** Only the call filed under the id has that context. */
  lemma OneOwner(table: map<Id, RpcContext>, contexts: map<nat, RpcContext>, s: State, id: Id)
    requires Filed(table, contexts, s) && Apart(contexts) && id in table
    ensures s.table[id] in contexts && contexts[s.table[id]] == table[id]
    ensures forall c :: c in contexts && c != s.table[id] ==> contexts[c] != table[id]
  {
  }

  class ServerConnection {
    var table: map<Id, RpcContext>
    /** Every context ever filed, by the number of its call. */
    ghost var contexts: map<nat, RpcContext>

    /** The connection is in the state `s` of its pending calls, as far as table and channels go. */
    ghost predicate Matches(s: State)
      reads this, contexts.Values
    {
      && Inv(s) && s.lock.Free? && Filed(table, contexts, s) && Apart(contexts)
      && forall c :: c in contexts ==> contexts[c].Shows(s.calls[c])
    }

    constructor ()
      ensures Matches(START) && table == map[] && contexts == map[]
    {
      table, contexts := map[], map[];
    }

    /** The call's first step: a fresh open context under the id. */
    method AddRpcContext(id: Id, ghost s: State, ghost c: nat) returns (context: RpcContext)
      requires Matches(s) && c !in s.calls
      modifies this
      ensures fresh(context) && table == old(table)[id := context] && contexts == old(contexts)[c := context]
      ensures Enabled(s, Begin(c, id)) && Matches(Next(s, Begin(c, id)))
    {
      hide Inv, Enabled, Next, Filed, Apart;
      BegunCalls(s, c, id);
      KeysFiled(table, contexts, s);
      context := new RpcContext();
      FiledWith(table, contexts, s, Next(s, Begin(c, id)), id, c, context);
      contexts := contexts[c := context];
      table := table[id := context];
    }

    /** A responder takes the context out of the table, whether or not it was there. */
    method GetRpcContext(id: Id, ghost s: State, ghost f: Frame) returns (context: RpcContext?)
      requires Matches(s) && f.id == id && f.no !in s.seen
      modifies this`table
      ensures table == old(table) - {id} && context == if id in old(table) then old(table)[id] else null
      ensures Enabled(s, Take(f)) && Matches(Next(s, Take(f)))
      ensures context != null ==>
        && id in s.table && s.table[id] in contexts && context == contexts[s.table[id]] && !context.closed
        && s.table[id] in Next(s, Take(f)).calls && Next(s, Take(f)).calls[s.table[id]].place == Held(f)
    {
      hide Inv, Enabled, Next, Apart;
      TakenCalls(s, f);
      FiledWithout(table, contexts, s, Next(s, Take(f)), id);
      context := if id in table then table[id] else null;
      table := table - {id};
    }

    /** A timeout of call `c` closes whatever context is filed under the id. */
    method RemoveRpcContext(id: Id, ghost s: State, ghost c: nat)
      requires Matches(s) && c in s.calls && s.calls[c].id == id && s.calls[c].phase.Expired?
      modifies this`table, if id in table then {table[id]} else {}
      ensures table == old(table) - {id} && (id in old(table) ==> old(table)[id].closed)
      ensures Enabled(s, Withdraw(c)) && Matches(Next(s, Withdraw(c)))
    {
      hide Inv, Enabled, Next, Filed, Apart;
      WithdrawnCalls(s, c);
      KeysFiled(table, contexts, s);
      FiledWithout(table, contexts, s, Next(s, Withdraw(c)), id);
      assert id !in table ==> table - {id} == table;
      if id in table {
        OneOwner(table, contexts, s, id);
        table[id].Close();
        table := table - {id};
      }
    }

    /** Fails every waiting call: each context is marked, cancelled and closed, one after the other, and the table is
        left empty. */
    method CleanAllRpcContext(reason: string, ghost s: State) returns (ghost run: seq<Event>)
      requires Matches(s) && reason != ""
      modifies this`table, table.Values
      ensures table == map[] && contexts == old(contexts)
      ensures Possible(s, run) && OnlyCleans(run) && Matches(Exec(s, run))
    {
      hide Enabled, Next, Possible, Exec, Matches;
      run := [];
      ghost var now := s;
      NoEvents(s);
      while table != map[]
        invariant Possible(s, run) && OnlyCleans(run) && now == Exec(s, run) && Matches(now)
        invariant table.Values <= old(table.Values) && contexts == old(contexts)
        decreases |table.Keys|
      {
        var id :| id in table;
        FailOne(id, reason, now);
        RunCleans(s, run, now, id);
        run := run + [CleanMark(id), CleanClose];
        now := Next(Next(now, CleanMark(id)), CleanClose);
      }
    }

    method FailOne(id: Id, reason: string, ghost s: State)
      requires Matches(s) && id in table && reason != ""
      modifies this`table, table[id]
      ensures table == old(table) - {id} && |table.Keys| < |old(table).Keys| && contexts == old(contexts)
      ensures table.Values <= old(table.Values)
      ensures old(table)[id].closed && old(table)[id].cancelled && old(table)[id].errorMsg == reason
      ensures Enabled(s, CleanMark(id)) && Enabled(Next(s, CleanMark(id)), CleanClose)
      ensures Matches(Next(Next(s, CleanMark(id)), CleanClose))
    {
      hide Inv, Enabled, Next, Filed, Apart;
      KeysFiled(table, contexts, s);
      CleanedCalls(s, id);
      FiledWithout(table, contexts, s, Next(Next(s, CleanMark(id)), CleanClose), id);
      OneOwner(table, contexts, s, id);
      var context := table[id];
      context.errorMsg := reason;
      context.cancelled := true;
      context.Close();
      table := table - {id};
      assert table.Keys == old(table).Keys - {id};
    }

    /** What callers do between these calls leaves the connection as it is. */
    lemma CallersLeaveIt(s: State, e: Event)
      requires Matches(s) && Enabled(s, e)
      requires e.WriteFails? || e.Hand? || e.Elapse? || e.Expire? || e.ReceiveClosed?
      ensures Matches(Next(s, e))
    {
      hide Inv, Enabled, Next, Apart;
      CallerCalls(s, e);
    }
  }

  // ---- What the steps do to table and channels ----

  /** The step leaves the channel of a call alone. */
  ghost predicate SameChannel(was: Call, call: Call)
  {
    call.closes == was.closes && call.err == was.err && (was.done ==> call.done)
  }

  lemma BegunCalls(s: State, c: nat, id: Id)
    requires Inv(s) && s.lock.Free? && c !in s.calls
    ensures
      Enabled(s, Begin(c, id)) &&
      var s' := Next(s, Begin(c, id));
      && Inv(s') && s'.calls.Keys == s.calls.Keys + {c} && s'.table == s.table[id := c] && s'.lock.Free?
      && s'.calls[c] == Call(id, InTable, false, false, Waiting, 0, 0)
      && forall d :: d in s.calls ==> SameChannel(s.calls[d], s'.calls[d])
  {
    hide CallInv, FramesApart;
    BeginStep(s, c, id);
  }

  lemma TakenCalls(s: State, f: Frame)
    requires Inv(s) && s.lock.Free? && f.no !in s.seen
    ensures
      Enabled(s, Take(f)) &&
      var s' := Next(s, Take(f));
      && Inv(s') && s'.calls.Keys == s.calls.Keys && s'.table == s.table - {f.id} && s'.lock.Free?
      && (f.id in s.table ==>
            var c := s.table[f.id];
            c in s.calls && s'.calls[c].place == Held(f) && s.calls[c].closes == 0)
      && forall d :: d in s.calls ==> SameChannel(s.calls[d], s'.calls[d])
  {
    hide FramesApart;
    TakeStep(s, f);
    if f.id in s.table {
      assert CallInv(s, s.table[f.id]);
    }
  }

  lemma WithdrawnCalls(s: State, c: nat)
    requires Inv(s) && s.lock.Free? && c in s.calls && s.calls[c].phase.Expired?
    ensures
      Enabled(s, Withdraw(c)) &&
      var s', id := Next(s, Withdraw(c)), s.calls[c].id;
      && Inv(s') && s'.calls.Keys == s.calls.Keys && s'.table == s.table - {id} && s'.lock.Free?
      && forall d :: d in s.calls ==>
           if id in s.table && s.table[id] == d
           then s.calls[d].closes == 0 && s'.calls[d].closes == 1 && s'.calls[d].err == s.calls[d].err
             && s'.calls[d].done == s.calls[d].done
           else SameChannel(s.calls[d], s'.calls[d])
  {
    hide FramesApart;
    WithdrawStep(s, c);
    if s.calls[c].id in s.table {
      assert CallInv(s, s.table[s.calls[c].id]);
    }
  }

  lemma CleanedCalls(s: State, id: Id)
    requires Inv(s) && s.lock.Free? && id in s.table
    ensures
      Enabled(s, CleanMark(id)) && Enabled(Next(s, CleanMark(id)), CleanClose) &&
      var s' := Next(Next(s, CleanMark(id)), CleanClose);
      && Inv(s') && s'.calls.Keys == s.calls.Keys && s'.table == s.table - {id} && s'.lock.Free?
      && forall d :: d in s.calls ==>
           if s.table[id] == d then s.calls[d].closes == 0 && s'.calls[d].closes == 1 && s'.calls[d].err
             && s'.calls[d].done
           else SameChannel(s.calls[d], s'.calls[d])
  {
    hide FramesApart;
    StepInv(s, CleanMark(id));
    StepInv(Next(s, CleanMark(id)), CleanClose);
    assert CallInv(s, s.table[id]);
  }

  lemma CallerCalls(s: State, e: Event)
    requires Inv(s) && Enabled(s, e) && (e.WriteFails? || e.Hand? || e.Elapse? || e.Expire? || e.ReceiveClosed?)
    ensures
      var s' := Next(s, e);
      && Inv(s') && s'.calls.Keys == s.calls.Keys && s'.table == s.table && s'.lock == s.lock
      && forall d :: d in s.calls ==> SameChannel(s.calls[d], s'.calls[d])
  {
    hide CallInv, FramesApart;
    StepInv(s, e);
  }

  lemma NoEvents(s: State)
    ensures Possible(s, []) && Exec(s, []) == s && OnlyCleans([])
  {
  }

  ghost predicate OnlyCleans(run: seq<Event>)
  {
    forall i :: 0 <= i < |run| ==> run[i].CleanMark? || run[i].CleanClose?
  }

  /** A run goes on with the cleaning of one more call. */
  lemma {:induction false} RunCleans(s: State, run: seq<Event>, now: State, id: Id)
    requires Possible(s, run) && now == Exec(s, run)
    requires Enabled(now, CleanMark(id)) && Enabled(Next(now, CleanMark(id)), CleanClose)
    ensures Possible(s, run + [CleanMark(id), CleanClose])
    ensures Exec(s, run + [CleanMark(id), CleanClose]) == Next(Next(now, CleanMark(id)), CleanClose)
    decreases run
  {
    hide Enabled, Next;
    var more := [CleanMark(id), CleanClose];
    if run == [] {
      assert run + more == more && more[1..] == [CleanClose] && [CleanClose][1..] == [];
    } else {
      RunCleans(Next(s, run[0]), run[1..], now, id);
      assert (run + more)[1..] == run[1..] + more;
    }
  }
}
