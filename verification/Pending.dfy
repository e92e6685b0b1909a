/** Calls waiting for their responses (network/common.go, rpc/call.go, router/router.go): the table of waiting
    calls raced over by responders, timeouts and connection cleanup, as interleaved steps. */
module Pending {
  import Wire

  type Id = Wire.bytes

  /** A response frame read from the connection: frames are numbered in the order they were read. */
  datatype Frame = Frame(no: nat, id: Id, body: Wire.bytes)

  /** Where a call's context is: waiting in the table, taken out by a responder that is sending on its channel,
      received by its caller, its channel closed, or overwritten in the table by a later call. */
  datatype Place = InTable | Held(frame: Frame) | Delivered(frame: Frame) | Closed | Overwritten

  /** What a call returned to its caller: success with a response, success with nothing, or failure. */
  datatype Outcome = Response(frame: Frame) | EmptySuccess | Failure

  /** The caller: in its select, past a deadline and about to remove its context, or gone. */
  datatype Phase = Waiting | Expired | Returned(outcome: Outcome)

  /** `exits` and `closes` count how often the context left the table and how often its channel was closed. */
  datatype Call = Call(id: Id, place: Place, err: bool, done: bool, phase: Phase, exits: nat, closes: nat)

  datatype Lock = Free | Cleaning(id: Id)

  datatype State = State(calls: map<nat, Call>, table: map<Id, nat>, lock: Lock, seen: set<nat>)

  datatype Event =
    | Begin(call: nat, id: Id)
    | WriteFails(call: nat)
    | Take(frame: Frame)
    | Hand(call: nat, parses: bool)
    | Elapse(call: nat)
    | Expire(call: nat)
    | Withdraw(call: nat)
    | CleanMark(id: Id)
    | CleanClose
    | ReceiveClosed(call: nat)

  const START := State(map[], map[], Free, {})

  predicate Enabled(s: State, e: Event)
  {
    match e
    case Begin(c, id) => c !in s.calls && s.lock.Free?
    case WriteFails(c) => c in s.calls && s.calls[c].phase.Waiting?
    case Take(f) => f.no !in s.seen && s.lock.Free? && (f.id in s.table ==> s.table[f.id] in s.calls)
    case Hand(c, _) => c in s.calls && s.calls[c].phase.Waiting? && s.calls[c].place.Held?
    case Elapse(c) => c in s.calls
    case Expire(c) => c in s.calls && s.calls[c].phase.Waiting? && s.calls[c].done
    case Withdraw(c) => c in s.calls && s.calls[c].phase.Expired? && s.lock.Free?
    case CleanMark(id) => id in s.table && s.table[id] in s.calls && s.lock.Free?
    case CleanClose => s.lock.Cleaning? && s.lock.id in s.table && s.table[s.lock.id] in s.calls
    case ReceiveClosed(c) => c in s.calls && s.calls[c].phase.Waiting? && s.calls[c].closes > 0
  }

  function Put(s: State, c: nat, call: Call): State
  {
    s.(calls := s.calls[c := call])
  }

  /** Closing the channel of whichever call the table holds under an id, and deleting it there. */
  function CloseUnder(s: State, id: Id): State
    requires id in s.table && s.table[id] in s.calls
  {
    var c := s.table[id];
    var call := s.calls[c];
    Put(s, c, call.(place := Closed, exits := call.exits + 1, closes := call.closes + 1)).(table := s.table - {id})
  }

  function Next(s: State, e: Event): State
    requires Enabled(s, e)
  {
    match e
    case Begin(c, id) =>
      var s' := if id in s.table && s.table[id] in s.calls
                then var o := s.calls[s.table[id]]; Put(s, s.table[id], o.(place := Overwritten, exits := o.exits + 1))
                else s;
      Put(s', c, Call(id, InTable, false, false, Waiting, 0, 0)).(table := s.table[id := c])
    case WriteFails(c) => Put(s, c, s.calls[c].(phase := Returned(Failure)))
    case Take(f) =>
      var s' := s.(seen := s.seen + {f.no});
      if f.id !in s.table then s'
      else
        var c := s.table[f.id];
        Put(s', c, s.calls[c].(place := Held(f), exits := s.calls[c].exits + 1)).(table := s.table - {f.id})
    case Hand(c, parses) =>
      var f := s.calls[c].place.frame;
      Put(s, c, s.calls[c].(place := Delivered(f),
                            phase := Returned(if s.calls[c].err || !parses then Failure else Response(f))))
    case Elapse(c) => Put(s, c, s.calls[c].(done := true))
    case Expire(c) => Put(s, c, s.calls[c].(phase := if s.calls[c].err then Returned(Failure) else Expired))
    case Withdraw(c) =>
      var id := s.calls[c].id;
      var s' := if id in s.table && s.table[id] in s.calls then CloseUnder(s, id) else s;
      Put(s', c, s'.calls[c].(phase := Returned(Failure)))
    case CleanMark(id) =>
      var c := s.table[id];
      Put(s, c, s.calls[c].(err := true, done := true)).(lock := Cleaning(id))
    case CleanClose => CloseUnder(s, s.lock.id).(lock := Free)
    case ReceiveClosed(c) => Put(s, c, s.calls[c].(phase := Returned(if s.calls[c].err then Failure else EmptySuccess)))
  }

  // ---- Runs ----

  ghost predicate Possible(s: State, run: seq<Event>)
    decreases run
  {
    run != [] ==> Enabled(s, run[0]) && Possible(Next(s, run[0]), run[1..])
  }

  ghost function Exec(s: State, run: seq<Event>): State
    requires Possible(s, run)
    decreases run
  {
    if run == [] then s else Exec(Next(s, run[0]), run[1..])
  }

  /** A call that can no longer touch what another call files under its id: it has returned, or the connection's cleanup
      has given it an error and it has not yet looked. */
  predicate Harmless(call: Call)
  {
    call.phase.Returned? || (call.phase.Waiting? && call.err)
  }

  /** What a caller must see to before it starts a call under an id: every earlier call under it is harmless. */
  ghost predicate Unused(s: State, id: Id)
  {
    forall c :: c in s.calls && s.calls[c].id == id ==> Harmless(s.calls[c])
  }

  /** Every call of the run begins under an unused id. */
  ghost predicate OwnIds(s: State, run: seq<Event>)
    requires Possible(s, run)
    decreases run
  {
    run != [] ==> (run[0].Begin? ==> Unused(s, run[0].id)) && OwnIds(Next(s, run[0]), run[1..])
  }

  // ---- What every interleaving keeps, whatever ids are used ----

  /** Each context is in exactly one place, has left the table at most once, and its channel was closed once if
      it is closed and never otherwise: in particular never while a responder is sending on it. */
  ghost predicate CallInv(s: State, c: nat)
    requires c in s.calls
  {
    var call := s.calls[c];
    && (call.place.InTable? <==> call.id in s.table && s.table[call.id] == c)
    && call.exits == (if call.place.InTable? then 0 else 1)
    && call.closes == (if call.place.Closed? then 1 else 0)
    && (call.err ==> call.done && (call.place.Closed? || (call.place.InTable? && s.lock == Cleaning(call.id))))
    && (call.place.Held? || call.place.Delivered? ==> call.place.frame.id == call.id && call.place.frame.no in s.seen)
    && (call.place.Delivered? ==> call.phase.Returned?)
    && (call.phase.Returned? && call.phase.outcome.Response? ==> call.place == Delivered(call.phase.outcome.frame))
  }

  predicate HasFrame(call: Call, no: nat)
  {
    (call.place.Held? || call.place.Delivered?) && call.place.frame.no == no
  }

  ghost predicate TableInv(s: State)
  {
    && (forall id :: id in s.table ==> s.table[id] in s.calls && s.calls[s.table[id]].id == id)
    && (s.lock.Cleaning? ==> s.lock.id in s.table && s.calls[s.table[s.lock.id]].err)
  }

  /** No two calls hold or received the same frame. */
  ghost predicate FramesApart(s: State)
  {
    forall c, d, no :: c in s.calls && d in s.calls && HasFrame(s.calls[c], no) && HasFrame(s.calls[d], no) ==> c == d
  }

  ghost predicate Inv(s: State)
  {
    (forall c :: c in s.calls ==> CallInv(s, c)) && TableInv(s) && FramesApart(s)
  }

  /** A step that touches one call and leaves the table and the lock alone. */
  lemma InPlace(s: State, c: nat, call: Call)
    requires Inv(s) && c in s.calls
    requires call.id == s.calls[c].id && call.err == s.calls[c].err
    requires forall no :: HasFrame(call, no) ==> HasFrame(s.calls[c], no)
    requires CallInv(Put(s, c, call), c)
    ensures Inv(Put(s, c, call))
  {
    hide HasFrame;
    var s' := Put(s, c, call);
    forall d | d in s'.calls ensures CallInv(s', d) {
      assert d != c ==> CallInv(s, d);
    }
    assert FramesApart(s');
  }

  /** A step that takes the call under `id` out of the table. */
  lemma TakenOut(s: State, id: Id, call: Call, seen: set<nat>)
    requires Inv(s) && id in s.table && s.seen <= seen && (s.lock.Free? || s.lock.id == id)
    requires call.id == id
    requires forall no :: HasFrame(call, no) ==> no !in s.seen
    requires CallInv(State(s.calls[s.table[id] := call], s.table - {id}, Free, seen), s.table[id])
    ensures Inv(State(s.calls[s.table[id] := call], s.table - {id}, Free, seen))
  {
    hide HasFrame;
    var c := s.table[id];
    var s' := State(s.calls[c := call], s.table - {id}, Free, seen);
    forall d | d in s'.calls ensures CallInv(s', d) {
      assert d != c ==> CallInv(s, d);
    }
    FramesStayApart(s, s', c);
  }

  lemma FramesStayApart(s: State, s': State, c: nat)
    requires FramesApart(s) && (forall d :: d in s.calls ==> CallInv(s, d)) && c in s'.calls
    requires forall d :: d in s'.calls && d != c ==> d in s.calls && s'.calls[d] == s.calls[d]
    requires forall no :: HasFrame(s'.calls[c], no) ==> no !in s.seen
    ensures FramesApart(s')
  {
    forall d, no | d in s'.calls && d != c && HasFrame(s'.calls[d], no) ensures !HasFrame(s'.calls[c], no) {
      assert CallInv(s, d);
    }
  }

  /** A call under an id that is in the table overwrites what is filed there; both contexts stay accounted for. */
  lemma BeginStep(s: State, c: nat, id: Id)
    requires Inv(s) && Enabled(s, Begin(c, id))
    ensures Inv(Next(s, Begin(c, id)))
  {
    var s' := Next(s, Begin(c, id));
    if id in s.table {
      var o := s.table[id];
      assert CallInv(s, o);
      var gone := s.calls[o].(place := Overwritten, exits := s.calls[o].exits + 1);
      var cleared := State(s.calls[o := gone], s.table - {id}, Free, s.seen);
      TakenOut(s, id, gone, s.seen);
      NewCall(cleared, c, id);
      assert s'.table == cleared.table[id := c];
    } else {
      NewCall(s, c, id);
    }
  }

  lemma NewCall(s: State, c: nat, id: Id)
    requires Inv(s) && c !in s.calls && id !in s.table && s.lock.Free?
    ensures Inv(State(s.calls[c := Call(id, InTable, false, false, Waiting, 0, 0)], s.table[id := c], Free, s.seen))
  {
    hide HasFrame;
    var s' := State(s.calls[c := Call(id, InTable, false, false, Waiting, 0, 0)], s.table[id := c], Free, s.seen);
    forall d | d in s'.calls ensures CallInv(s', d) {
      assert d != c ==> CallInv(s, d);
    }
    NoFrame(s'.calls[c]);
    FramesStayApart(s, s', c);
  }

  lemma NoFrame(call: Call)
    requires call.place.InTable?
    ensures forall no :: !HasFrame(call, no)
  {
  }

  lemma CallerStep(s: State, e: Event)
    requires Inv(s) && Enabled(s, e)
    requires e.WriteFails? || e.Hand? || e.Elapse? || e.Expire? || e.ReceiveClosed?
    ensures Inv(Next(s, e))
  {
    assert CallInv(s, e.call);
    InPlace(s, e.call, Next(s, e).calls[e.call]);
  }

  lemma TakeStep(s: State, f: Frame)
    requires Inv(s) && Enabled(s, Take(f))
    ensures Inv(Next(s, Take(f)))
  {
    var s' := Next(s, Take(f));
    if f.id in s.table {
      var c := s.table[f.id];
      assert CallInv(s, c);
      assert !s.calls[c].err;
      TakenOut(s, f.id, s'.calls[c], s'.seen);
    } else {
      forall d | d in s'.calls ensures CallInv(s', d) {
        assert CallInv(s, d);
      }
    }
  }

  lemma CloseStep(s: State, e: Event)
    requires Inv(s) && Enabled(s, e) && (e.Withdraw? || e.CleanMark? || e.CleanClose?)
    ensures Inv(Next(s, e))
  {
    match e
    case Withdraw(c) => WithdrawStep(s, c);
    case CleanMark(id) =>
      var c, s' := s.table[id], Next(s, e);
      assert CallInv(s, c);
      forall d | d in s'.calls ensures CallInv(s', d) {
        assert d != c ==> CallInv(s, d);
      }
    case CleanClose =>
      var c, s' := s.table[s.lock.id], Next(s, e);
      assert CallInv(s, c);
      TakenOut(s, s.lock.id, s'.calls[c], s.seen);
  }

  /** A caller past its deadline closes whatever is filed under its id, its own context or another's. */
  lemma WithdrawStep(s: State, c: nat)
    requires Inv(s) && Enabled(s, Withdraw(c))
    ensures Inv(Next(s, Withdraw(c)))
  {
    hide FramesApart;
    var id, s' := s.calls[c].id, Next(s, Withdraw(c));
    assert CallInv(s, c);
    if id in s.table {
      var o := s.table[id];
      assert CallInv(s, o);
      var closed := CloseUnder(s, id);
      assert closed == State(s.calls[o := closed.calls[o]], s.table - {id}, Free, s.seen);
      TakenOut(s, id, closed.calls[o], s.seen);
      assert CallInv(closed, c);
      InPlace(closed, c, s'.calls[c]);
    } else {
      InPlace(s, c, s'.calls[c]);
    }
  }

  lemma StepInv(s: State, e: Event)
    requires Inv(s) && Enabled(s, e)
    ensures Inv(Next(s, e))
  {
    hide Inv, Enabled, Next;
    match e
    case Begin(c, id) => BeginStep(s, c, id);
    case Take(f) => TakeStep(s, f);
    case Withdraw(_) | CleanMark(_) | CleanClose => CloseStep(s, e);
    case _ => CallerStep(s, e);
  }

  lemma {:induction false} RunInv(s: State, run: seq<Event>)
    requires Inv(s) && Possible(s, run)
    ensures Inv(Exec(s, run))
    decreases run
  {
    hide Inv, Enabled, Next;
    if run != [] {
      StepInv(s, run[0]);
      RunInv(Next(s, run[0]), run[1..]);
    }
  }

  /** In every interleaving, whatever ids are used: a context leaves the table at most once, its channel is closed at
      most once and never while or after a responder sends on it, and it is in the table exactly if no one took it
      out. */
  lemma ChannelSafety(run: seq<Event>, c: nat)
    requires Possible(START, run)
    ensures
      var s := Exec(START, run);
      c in s.calls ==>
        var call := s.calls[c];
        && call.exits + (if call.id in s.table && s.table[call.id] == c then 1 else 0) == 1
        && call.closes <= call.exits
        && (call.place.Held? || call.place.Delivered? ==> call.closes == 0 && call.exits == 1)
        && (call.closes == 1 <==> call.place.Closed?)
  {
    RunInv(START, run);
    var s := Exec(START, run);
    assert c in s.calls ==> CallInv(s, c);
  }

  /** In every interleaving, whatever ids are used: a call that returns a response returns a frame of its own request id
      that a responder took it out of the table for, and no frame reaches two callers. */
  lemma ResponseIsOwn(run: seq<Event>, c: nat, d: nat)
    requires Possible(START, run)
    ensures
      var s := Exec(START, run);
      c in s.calls && s.calls[c].phase.Returned? && s.calls[c].phase.outcome.Response? ==>
        var f := s.calls[c].phase.outcome.frame;
        && f.id == s.calls[c].id && f.no in s.seen && s.calls[c].place == Delivered(f)
        && (d in s.calls && d != c && s.calls[d].phase.Returned? && s.calls[d].phase.outcome.Response? ==>
              s.calls[d].phase.outcome.frame.no != f.no)
  {
    RunInv(START, run);
    var s := Exec(START, run);
    if c in s.calls && s.calls[c].phase.Returned? && s.calls[c].phase.outcome.Response? {
      assert CallInv(s, c) && HasFrame(s.calls[c], s.calls[c].phase.outcome.frame.no);
      if d in s.calls && d != c && s.calls[d].phase.Returned? && s.calls[d].phase.outcome.Response? {
        assert CallInv(s, d) && HasFrame(s.calls[d], s.calls[d].phase.outcome.frame.no);
      }
    }
  }

  // ---- Who is harmed by a shared id ----

  /** The call did not and, while its peers stay harmless, cannot succeed with nothing. */
  ghost predicate Unharmed(s: State, c: nat)
    requires c in s.calls
  {
    var call := s.calls[c];
    && (call.place.Closed? && !call.err ==> call.phase.Returned?)
    && (call.phase.Returned? ==> !call.phase.outcome.EmptySuccess?)
    && (!Harmless(call) ==> forall d :: d in s.calls && d != c && s.calls[d].id == call.id ==> Harmless(s.calls[d]))
  }

  /** What a step does to a call: its id stays, and its channel is closed without an error only by a caller past its
      deadline. */
  lemma StepOnCall(s: State, e: Event, c: nat)
    requires Inv(s) && Enabled(s, e) && c in s.calls
    ensures
      c in Next(s, e).calls &&
      var was, call := s.calls[c], Next(s, e).calls[c];
      && call.id == was.id && (was.err ==> call.err)
      && (call.place.Closed? && !was.place.Closed? ==>
            call.err || (e.Withdraw? && e.call in s.calls && s.calls[e.call].phase.Expired?
              && s.calls[e.call].id == was.id))
      && (call.phase.Returned? && !was.phase.Returned? && call.phase.outcome.EmptySuccess? ==>
            was.place.Closed? && !was.err)
      && (Harmless(was) ==> Harmless(call)) && (was.phase.Returned? ==> call.phase == was.phase)
      && (e == Withdraw(c) ==> call.phase.Returned?)
  {
    hide FramesApart;
    assert CallInv(s, c);
    if e.CleanClose? || e.Withdraw? {
      assert TableInv(s);
    }
  }

  /** Only a call that begins is new, and it is new under its id. */
  lemma NewCalls(s: State, e: Event)
    requires Enabled(s, e)
    ensures s.calls.Keys <= Next(s, e).calls.Keys
    ensures forall d :: d in Next(s, e).calls && d !in s.calls ==> e == Begin(d, Next(s, e).calls[d].id)
  {
  }

  lemma StepUnharmed(s: State, e: Event, c: nat)
    requires Inv(s) && Enabled(s, e) && (e.Begin? ==> Unused(s, e.id)) && c in s.calls && Unharmed(s, c)
    ensures c in Next(s, e).calls && Unharmed(Next(s, e), c)
  {
    hide Inv, Next, Enabled;
    var s' := Next(s, e);
    NewCalls(s, e);
    forall d | d in s.calls
      ensures s'.calls[d].id == s.calls[d].id && (Harmless(s.calls[d]) ==> Harmless(s'.calls[d]))
    {
      StepOnCall(s, e, d);
    }
    StepOnCall(s, e, c);
  }

  lemma {:induction false} RunUnharmed(s: State, run: seq<Event>, c: nat)
    requires Inv(s) && Possible(s, run) && OwnIds(s, run) && c in s.calls && Unharmed(s, c)
    ensures c in Exec(s, run).calls && Unharmed(Exec(s, run), c)
    decreases run
  {
    hide Inv, Enabled, Next, Unharmed, Unused;
    if run != [] {
      StepInv(s, run[0]);
      StepUnharmed(s, run[0], c);
      RunUnharmed(Next(s, run[0]), run[1..], c);
    }
  }

  /** A call that begins under an unused id is unharmed. */
  lemma BeginUnharmed(s: State, c: nat, id: Id)
    requires Inv(s) && Enabled(s, Begin(c, id)) && Unused(s, id)
    ensures c in Next(s, Begin(c, id)).calls && Unharmed(Next(s, Begin(c, id)), c)
  {
    hide CallInv, FramesApart;
  }

  lemma {:induction false} AllUnharmed(s: State, run: seq<Event>)
    requires Inv(s) && Possible(s, run) && OwnIds(s, run) && forall c :: c in s.calls ==> Unharmed(s, c)
    ensures forall c :: c in Exec(s, run).calls ==> Unharmed(Exec(s, run), c)
    decreases run
  {
    hide Inv, Enabled, Next, Unharmed, Unused;
    if run != [] {
      var s', e := Next(s, run[0]), run[0];
      StepInv(s, e);
      NewCalls(s, e);
      forall c | c in s'.calls ensures Unharmed(s', c) {
        if c in s.calls {
          StepUnharmed(s, e, c);
        } else {
          BeginUnharmed(s, c, e.id);
        }
      }
      AllUnharmed(s', run[1..]);
    }
  }

  /** In every interleaving in which calls begin under unused ids, a call succeeds only with a response: one of its own
      request id, taken for it and given to no other caller. */
  lemma SuccessIsOwnResponse(run: seq<Event>, c: nat, d: nat)
    requires Possible(START, run) && OwnIds(START, run)
    ensures
      var s := Exec(START, run);
      c in s.calls && s.calls[c].phase.Returned? && !s.calls[c].phase.outcome.Failure? ==>
        && s.calls[c].phase.outcome.Response?
        && var f := s.calls[c].phase.outcome.frame;
           && f.id == s.calls[c].id && f.no in s.seen && s.calls[c].place == Delivered(f)
           && (d in s.calls && d != c && s.calls[d].phase.Returned? && s.calls[d].phase.outcome.Response? ==>
                 s.calls[d].phase.outcome.frame.no != f.no)
  {
    hide Possible, Exec, OwnIds;
    ResponseIsOwn(run, c, d);
    AllUnharmed(START, run);
    assert c in Exec(START, run).calls ==> Unharmed(Exec(START, run), c);
  }

  /** Some continuation in which no further id is shared ends with the call succeeding with nothing. */
  ghost predicate CanSucceedEmpty(s: State, c: nat)
  {
    exists run :: Possible(s, run) && OwnIds(s, run) && c in Exec(s, run).calls
                  && Exec(s, run).calls[c].phase == Returned(EmptySuccess)
  }

  /** The hypothesis is exact, in every state that can be reached at all: a call begun now can come to succeed with
      nothing if and only if some earlier call under its id is not harmless. */
  lemma SharedIdHarmsIff(s: State, c: nat, id: Id)
    requires Inv(s) && Enabled(s, Begin(c, id))
    ensures CanSucceedEmpty(Next(s, Begin(c, id)), c) <==> !Unused(s, id)
  {
    hide Inv, Enabled, Next;
    var s' := Next(s, Begin(c, id));
    StepInv(s, Begin(c, id));
    if Unused(s, id) {
      BeginUnharmed(s, c, id);
      forall run | Possible(s', run) && OwnIds(s', run) && c in Exec(s', run).calls
        ensures Exec(s', run).calls[c].phase != Returned(EmptySuccess)
      {
        RunUnharmed(s', run, c);
      }
    } else {
      var d :| d in s.calls && s.calls[d].id == id && !Harmless(s.calls[d]);
      TimeoutHitsOther(s, d, c, id);
    }
  }

  /** The timeout of a call that is not harmless closes the channel of the call filed under the same id. */
  lemma TimeoutHitsOther(s: State, d: nat, c: nat, id: Id)
    requires Inv(s) && Enabled(s, Begin(c, id)) && d in s.calls && s.calls[d].id == id && !Harmless(s.calls[d])
    ensures CanSucceedEmpty(Next(s, Begin(c, id)), c)
  {
    hide Inv, FramesApart;
    var s0 := Next(s, Begin(c, id));
    if s.calls[d].phase.Waiting? {
      var s1 := Next(s0, Elapse(d));
      var s2 := Next(s1, Expire(d));
      ExpiredHitsOther(s2, d, c);
      Prepend(s1, Expire(d), c);
      Prepend(s0, Elapse(d), c);
    } else {
      ExpiredHitsOther(s0, d, c);
    }
  }

  lemma ExpiredHitsOther(s: State, d: nat, c: nat)
    requires d in s.calls && c in s.calls && d != c && s.calls[d].phase.Expired? && s.lock.Free?
    requires s.calls[d].id in s.table && s.table[s.calls[d].id] == c && s.calls[c].phase.Waiting? && !s.calls[c].err
    ensures CanSucceedEmpty(s, c)
  {
    var s1 := Next(s, Withdraw(d));
    var s2 := Next(s1, ReceiveClosed(c));
    var nothing: seq<Event> := [];
    assert Possible(s2, nothing) && OwnIds(s2, nothing) && Exec(s2, nothing) == s2;
    Prepend(s1, ReceiveClosed(c), c);
    Prepend(s, Withdraw(d), c);
  }

  lemma Prepend(s: State, e: Event, c: nat)
    requires Enabled(s, e) && !e.Begin? && CanSucceedEmpty(Next(s, e), c)
    ensures CanSucceedEmpty(s, c)
  {
    hide Enabled, Next;
    var s' := Next(s, e);
    var run :| Possible(s', run) && OwnIds(s', run) && c in Exec(s', run).calls
               && Exec(s', run).calls[c].phase == Returned(EmptySuccess);
    assert ([e] + run)[1..] == run && ([e] + run)[0] == e;
    assert Possible(s, [e] + run) && Exec(s, [e] + run) == Exec(s', run);
  }

  // ---- Who releases a responder ----

  /** In some continuation the context is delivered. */
  ghost predicate CanDeliver(s: State, c: nat)
  {
    exists run :: Possible(s, run) && c in Exec(s, run).calls && Exec(s, run).calls[c].place.Delivered?
  }

  /** A responder that holds a context is released in some continuation if and only if the caller is still in its
      select: once the caller is past its deadline or gone, the responder holds the context for good. */
  lemma HeldDeliverableIff(s: State, c: nat)
    requires Inv(s) && c in s.calls && s.calls[c].place.Held?
    ensures CanDeliver(s, c) <==> s.calls[c].phase.Waiting?
  {
    hide Inv, CallInv;
    if s.calls[c].phase.Waiting? {
      var run := [Hand(c, true)];
      OneStep(s, Hand(c, true));
      assert Exec(s, run).calls[c].place.Delivered?;
    } else {
      forall run | Possible(s, run) && c in Exec(s, run).calls ensures !Exec(s, run).calls[c].place.Delivered? {
        HeldForGood(s, run, c);
      }
    }
  }

  lemma {:induction false} HeldForGood(s: State, run: seq<Event>, c: nat)
    requires Inv(s) && Possible(s, run) && c in s.calls && s.calls[c].place.Held? && !s.calls[c].phase.Waiting?
    ensures c in Exec(s, run).calls && Exec(s, run).calls[c].place == s.calls[c].place
    decreases run
  {
    hide Inv, Enabled, Next;
    if run != [] {
      StepInv(s, run[0]);
      HeldStays(s, run[0], c);
      HeldForGood(Next(s, run[0]), run[1..], c);
    }
  }

  lemma HeldStays(s: State, e: Event, c: nat)
    requires Inv(s) && Enabled(s, e) && c in s.calls && s.calls[c].place.Held? && !s.calls[c].phase.Waiting?
    ensures c in Next(s, e).calls && Next(s, e).calls[c].place == s.calls[c].place
      && !Next(s, e).calls[c].phase.Waiting?
  {
    hide FramesApart;
    assert CallInv(s, c);
  }

  // ---- How calls end ----

  /** In some continuation the call returns the frame. */
  ghost predicate CanReturn(s: State, c: nat, f: Frame)
  {
    exists run :: Possible(s, run) && c in Exec(s, run).calls && Exec(s, run).calls[c].phase == Returned(Response(f))
  }

  /** In every state of the invariant: a call whose context a responder holds for a frame returns that frame in some
      continuation if and only if its caller is still waiting. */
  lemma HeldSucceedsIff(s: State, c: nat)
    requires Inv(s) && c in s.calls && s.calls[c].place.Held?
    ensures CanReturn(s, c, s.calls[c].place.frame) <==> s.calls[c].phase.Waiting?
  {
    hide FramesApart;
    assert CallInv(s, c);
    var f := s.calls[c].place.frame;
    if s.calls[c].phase.Waiting? {
      var run := [Hand(c, true)];
      OneStep(s, Hand(c, true));
      assert Exec(s, run).calls[c].phase == Returned(Response(f));
    } else {
      forall run | Possible(s, run) && c in Exec(s, run).calls
        ensures Exec(s, run).calls[c].phase != Returned(Response(f))
      {
        HeldForGood(s, run, c);
        RunInv(s, run);
        assert CallInv(Exec(s, run), c);
      }
    }
  }

  /** Every frame that is handed over can be parsed. */
  predicate AllParse(run: seq<Event>)
  {
    forall i :: 0 <= i < |run| && run[i].Hand? ==> run[i].parses
  }

  ghost predicate Rewarded(s: State)
  {
    forall c :: c in s.calls && s.calls[c].place.Delivered? ==>
      s.calls[c].phase == Returned(Response(s.calls[c].place.frame))
  }

  lemma RewardedStep(s: State, e: Event)
    requires Inv(s) && Rewarded(s) && Enabled(s, e) && (e.Hand? ==> e.parses)
    ensures Rewarded(Next(s, e))
  {
    hide FramesApart;
    var s' := Next(s, e);
    forall c | c in s'.calls && s'.calls[c].place.Delivered?
      ensures s'.calls[c].phase == Returned(Response(s'.calls[c].place.frame))
    {
      if c in s.calls {
        assert CallInv(s, c);
      }
    }
  }

  lemma {:induction false} RewardedRun(s: State, run: seq<Event>)
    requires Inv(s) && Rewarded(s) && Possible(s, run) && AllParse(run)
    ensures Rewarded(Exec(s, run))
    decreases run
  {
    hide Inv, Rewarded, Enabled, Next;
    if run != [] {
      StepInv(s, run[0]);
      RewardedStep(s, run[0]);
      RewardedRun(Next(s, run[0]), run[1..]);
    }
  }

  /** In every interleaving whose frames can be parsed, whatever ids are used: a call has returned a frame if and only
      if that frame was delivered to it. */
  lemma DeliveredIffReturned(run: seq<Event>, c: nat, f: Frame)
    requires Possible(START, run) && AllParse(run)
    ensures
      var s := Exec(START, run);
      c in s.calls ==> (s.calls[c].place == Delivered(f) <==> s.calls[c].phase == Returned(Response(f)))
  {
    hide Possible, Exec;
    RunInv(START, run);
    RewardedRun(START, run);
    var s := Exec(START, run);
    if c in s.calls {
      assert CallInv(s, c);
    }
  }

  lemma OneStep(s: State, a: Event)
    requires Enabled(s, a)
    ensures Possible(s, [a]) && Exec(s, [a]) == Next(s, a)
  {
    hide Enabled, Next;
    assert [a][1..] == [];
  }

  lemma TwoSteps(s: State, a: Event, b: Event)
    requires Enabled(s, a) && Enabled(Next(s, a), b)
    ensures Possible(s, [a, b]) && Exec(s, [a, b]) == Next(Next(s, a), b)
  {
    hide Enabled, Next;
    assert [a, b][1..] == [b];
    OneStep(Next(s, a), b);
  }

  /** In every state of the invariant a failed write ends a waiting call in failure, and once its deadline has passed
      without an error it can go on to fail, with nothing left in the table under its id. */
  lemma WaitingCallFails(s: State, c: nat)
    requires Inv(s) && c in s.calls && s.calls[c].phase.Waiting?
    ensures Enabled(s, WriteFails(c)) && Next(s, WriteFails(c)).calls[c].phase == Returned(Failure)
    ensures s.lock.Free? && s.calls[c].done && !s.calls[c].err ==>
      && Possible(s, [Expire(c), Withdraw(c)])
      && var s' := Exec(s, [Expire(c), Withdraw(c)]);
         c in s'.calls && s'.calls[c].phase == Returned(Failure) && s.calls[c].id !in s'.table
  {
    hide CallInv, FramesApart, Possible, Exec;
    if s.lock.Free? && s.calls[c].done && !s.calls[c].err {
      TwoSteps(s, Expire(c), Withdraw(c));
    }
  }

  /** If the connection is cleaned while a waiting call's context is in the table, both ways on from there end in
      failure: the closed channel and the cancelled deadline. */
  lemma CleanedCallFails(s: State, c: nat)
    requires Inv(s) && c in s.calls && s.calls[c].phase.Waiting? && s.calls[c].place.InTable? && s.lock.Free?
    ensures
      && Possible(s, [CleanMark(s.calls[c].id), CleanClose])
      && var s' := Exec(s, [CleanMark(s.calls[c].id), CleanClose]);
         && c in s'.calls && s.calls[c].id !in s'.table
         && Enabled(s', ReceiveClosed(c)) && Next(s', ReceiveClosed(c)).calls[c].phase == Returned(Failure)
         && Enabled(s', Expire(c)) && Next(s', Expire(c)).calls[c].phase == Returned(Failure)
  {
    hide Inv, Possible, Exec;
    Cleaned(s, c);
    TwoSteps(s, CleanMark(s.calls[c].id), CleanClose);
  }

  lemma Cleaned(s: State, c: nat)
    requires Inv(s) && c in s.calls && s.calls[c].place.InTable? && s.lock.Free?
    ensures
      Enabled(s, CleanMark(s.calls[c].id)) && Enabled(Next(s, CleanMark(s.calls[c].id)), CleanClose) &&
      var s' := Next(Next(s, CleanMark(s.calls[c].id)), CleanClose);
      && c in s'.calls && s'.table == s.table - {s.calls[c].id} && s'.calls[c].phase == s.calls[c].phase
      && s'.calls[c].err && s'.calls[c].done && s'.calls[c].closes > 0
  {
    hide FramesApart;
    assert CallInv(s, c);
  }

  // ---- From the start ----

  /** A call whose response arrives in time succeeds with it. */
  lemma ResponseReached(f: Frame)
    ensures
      var begun := Next(START, Begin(0, f.id));
      && Enabled(begun, Take(f)) && Enabled(Next(begun, Take(f)), Hand(0, true))
      && Next(Next(begun, Take(f)), Hand(0, true)).calls[0].phase == Returned(Response(f))
  {
  }

  /** Two calls under one id, the empty one included, are enough for an empty success. */
  lemma ReusedIdReached(id: Id)
    ensures
      var one := Next(START, Begin(0, id));
      Enabled(one, Begin(1, id)) && CanSucceedEmpty(Next(one, Begin(1, id)), 1)
  {
    hide CanSucceedEmpty;
    StepInv(START, Begin(0, id));
    SharedIdHarmsIff(Next(START, Begin(0, id)), 1, id);
    assert !Harmless(Next(START, Begin(0, id)).calls[0]);
  }

  /** A response that arrives just after its caller's deadline leaves its responder waiting for good. */
  lemma AbandonedResponderReached(f: Frame)
    ensures
      var expired := Next(Next(Next(START, Begin(0, f.id)), Elapse(0)), Expire(0));
      && Enabled(expired, Take(f))
      && Next(expired, Take(f)).calls[0].place == Held(f) && !CanDeliver(Next(expired, Take(f)), 0)
  {
    hide CanDeliver;
    var begun := Next(START, Begin(0, f.id));
    var elapsed := Next(begun, Elapse(0));
    var expired := Next(elapsed, Expire(0));
    StepInv(START, Begin(0, f.id));
    StepInv(begun, Elapse(0));
    StepInv(elapsed, Expire(0));
    StepInv(expired, Take(f));
    HeldDeliverableIff(Next(expired, Take(f)), 0);
  }
}
