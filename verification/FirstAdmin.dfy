/**
 First-administrator registration: any number of concurrent calls, each serialised by a
 transaction-scoped advisory lock onto a count-then-insert under READ COMMITTED.
 */
module FirstAdmin {
  import opened Wrappers
  import Text

  datatype Answer =
    | Registered
    | Closed     // 409: an administrator already exists
    | Blank      // blank username
    | Aborted    // connection lost, 5xx

  datatype Phase =
    | Begin
    | Locked     // holds the advisory lock
    | Cleared    // counted no administrator under the lock
    | Done(answer: Answer)

  datatype Call = Call(username: string, phase: Phase)

  /** A committed row, with the call that inserted it. */
  datatype Admin = Admin(username: string, caller: nat)

  datatype State = State(admins: seq<Admin>, lock: Option<nat>, calls: map<nat, Call>)

  datatype Event =
    | Start(t: nat, username: string)
    | Advance(t: nat)
    | Abort(t: nat)

  function Goto(s: State, t: nat, phase: Phase): State
    requires t in s.calls
  {
    s.(calls := s.calls[t := s.calls[t].(phase := phase)])
  }

  /** The transaction ends and with it the lock it may hold. */
  function Finish(s: State, t: nat, answer: Answer): State
    requires t in s.calls
  {
    Goto(s, t, Done(answer)).(lock := if s.lock == Some(t) then None else s.lock)
  }

  predicate Taken(s: State, username: string) {
    exists i :: 0 <= i < |s.admins| && s.admins[i].username == username
  }

  function AdvanceCall(s: State, t: nat): State
    requires t in s.calls
  {
    var name := s.calls[t].username;
    match s.calls[t].phase
    case Begin =>
      if Text.Strip(name) == [] then Finish(s, t, Blank)
      else if s.lock.Some? then s
      else Goto(s, t, Locked).(lock := Some(t))
    case Locked => if |s.admins| > 0 then Finish(s, t, Closed) else Goto(s, t, Cleared)
    case Cleared =>
      if Taken(s, name) then Finish(s, t, Closed)
      else Finish(s, t, Registered).(admins := s.admins + [Admin(name, t)])
    case Done(_) => s
  }

  function Step(s: State, e: Event): State {
    match e
    case Start(t, name) => if t in s.calls then s else s.(calls := s.calls[t := Call(name, Begin)])
    case Advance(t) => if t in s.calls then AdvanceCall(s, t) else s
    case Abort(t) => if t in s.calls && !s.calls[t].phase.Done? then Finish(s, t, Aborted) else s
  }

  function Run(s: State, events: seq<Event>): State {
    if events == [] then s else Step(Run(s, events[..|events| - 1]), events[|events| - 1])
  }

  /** What one call's phase says about the lock and the table. */
  ghost predicate CallOk(s: State, t: nat)
    requires t in s.calls
  {
    var p := s.calls[t].phase;
    && (s.lock == Some(t) <==> p.Locked? || p.Cleared?)
    && (p.Cleared? ==> s.admins == [])
    && (p == Done(Registered) <==> s.admins == [Admin(s.calls[t].username, t)])
  }

  ghost predicate Inv(s: State) {
    && |s.admins| <= 1
    && (|s.admins| == 1 ==> s.admins[0].caller in s.calls && s.calls[s.admins[0].caller].phase == Done(Registered))
    && (s.lock.Some? ==> s.lock.value in s.calls)
    && (forall t {:trigger CallOk(s, t)} :: t in s.calls ==> CallOk(s, t))
  }

  /** The caller's own step keeps what its phase says. */
  lemma OwnStepKeeps(s: State, t: nat)
    requires Inv(s) && t in s.calls
    ensures var s2 := AdvanceCall(s, t);
            CallOk(s2, t) && |s2.admins| <= 1
            && (|s2.admins| == 1 ==>
                    s2.admins[0].caller in s2.calls && s2.calls[s2.admins[0].caller].phase == Done(Registered))
  {
    assert CallOk(s, t);
    var s2 := AdvanceCall(s, t);
    if s2.admins != s.admins {
      assert s2.admins == [Admin(s.calls[t].username, t)];
      assert s2.admins[0].caller == t;
    }
  }

  lemma OtherCallKept(s: State, t: nat, u: nat)
    requires Inv(s) && t in s.calls && u in s.calls && u != t
    ensures CallOk(AdvanceCall(s, t), u)
  {
    assert CallOk(s, t) && CallOk(s, u);
    var s2 := AdvanceCall(s, t);
    if s2.admins != s.admins {
      assert s2.admins[0].caller == t;
    }
  }

  lemma AdvanceKeeps(s: State, t: nat)
    requires Inv(s) && t in s.calls
    ensures Inv(AdvanceCall(s, t))
  {
    OwnStepKeeps(s, t);
    forall u | u in s.calls && u != t
      ensures CallOk(AdvanceCall(s, t), u)
    {
      OtherCallKept(s, t, u);
    }
  }

  lemma StepKeeps(s: State, e: Event)
    requires Inv(s)
    ensures Inv(Step(s, e))
  {
    if e.Advance? && e.t in s.calls {
      AdvanceKeeps(s, e.t);
    } else {
      var s2 := Step(s, e);
      forall t | t in s2.calls
        ensures CallOk(s2, t)
      {
        assert t in s.calls ==> CallOk(s, t);
      }
    }
  }

  /** On an empty table, at most one administrator is ever committed and at most one call succeeds,
      over every interleaving; the row is the winner's. */
  lemma {:induction false} AtMostOneAdmin(events: seq<Event>)
    ensures var s := Run(State([], None, map[]), events);
            && Inv(s) && |s.admins| <= 1
            && (forall t :: t in s.calls && s.calls[t].phase == Done(Registered) ==>
                    s.admins == [Admin(s.calls[t].username, t)])
  {
    if events != [] {
      AtMostOneAdmin(events[..|events| - 1]);
      StepKeeps(Run(State([], None, map[]), events[..|events| - 1]), events[|events| - 1]);
    }
    var s := Run(State([], None, map[]), events);
    assert forall t :: t in s.calls ==> CallOk(s, t);
  }

  /** Once a row is committed, the table stays as it is whatever happens next, and every call that
      gets the lock from then on is told 409. */
  lemma {:induction false} ClosedForGood(s: State, events: seq<Event>, t: nat)
    requires Inv(s) && s.admins != []
    ensures var s2 := Run(s, events);
            && Inv(s2) && s2.admins == s.admins
            && (t in s2.calls && s2.calls[t].phase.Locked? ==> Step(s2, Advance(t)).calls[t].phase == Done(Closed))
            && (t in s2.calls && s2.admins[0].caller != t ==> s2.calls[t].phase != Done(Registered))
  {
    if events != [] {
      var before, e := Run(s, events[..|events| - 1]), events[|events| - 1];
      ClosedForGood(s, events[..|events| - 1], t);
      StepKeeps(before, e);
      if e.t in before.calls {
        assert CallOk(before, e.t);
      }
    }
    var s2 := Run(s, events);
    if t in s2.calls {
      assert CallOk(s2, t);
    }
  }

  // --- One call, alone --------------------------------------------------

  class AdminTable {
    var state: State

    constructor ()
      ensures state == State([], None, map[])
    {
      state := State([], None, map[]);
    }

    method AcquireLock(t: nat)
      requires Inv(state) && state.lock.None? && t in state.calls && state.calls[t].phase.Begin?
      modifies this
      ensures Inv(state) && state.admins == old(state.admins) && t in state.calls
      ensures state.calls == old(state.calls)[t := state.calls[t]]
      ensures state.calls[t].username == old(state.calls)[t].username
      ensures state.calls[t].phase == if Text.Strip(state.calls[t].username) == [] then Done(Blank) else Locked
      ensures state.lock == if state.calls[t].phase.Locked? then Some(t) else None
    {
      AdvanceKeeps(state, t);
      state := AdvanceCall(state, t);
    }

    method CountAdmins(t: nat)
      requires Inv(state) && state.lock == Some(t) && t in state.calls && state.calls[t].phase.Locked?
      modifies this
      ensures Inv(state) && state.admins == old(state.admins) && t in state.calls
      ensures state.calls == old(state.calls)[t := state.calls[t]]
      ensures state.calls[t].username == old(state.calls)[t].username
      ensures state.calls[t].phase == if state.admins != [] then Done(Closed) else Cleared
      ensures state.lock == if state.calls[t].phase.Cleared? then Some(t) else None
    {
      AdvanceKeeps(state, t);
      state := AdvanceCall(state, t);
    }

    method InsertAdmin(t: nat)
      requires Inv(state) && state.lock == Some(t) && t in state.calls && state.calls[t].phase.Cleared?
              && state.admins == []
      modifies this
      ensures Inv(state) && state.lock.None? && t in state.calls
      ensures state.admins == [Admin(old(state.calls)[t].username, t)] && state.calls[t].phase == Done(Registered)
    {
      AdvanceKeeps(state, t);
      state := AdvanceCall(state, t);
    }

    /** register_first_admin with nobody else at it: succeeds exactly on an empty table with a
        non-blank name, and gives the lock back whatever it answers. */
    method RegisterFirstAdmin(t: nat, username: string) returns (answer: Answer)
      requires Inv(state) && state.lock.None? && t !in state.calls
      modifies this
      ensures Inv(state) && state.lock.None?
      ensures answer == if Text.Strip(username) == [] then Blank
                        else if old(state.admins) != [] then Closed
                        else Registered
      ensures state.admins == if answer == Registered then [Admin(username, t)] else old(state.admins)
    {
      StepKeeps(state, Start(t, username));
      state := Step(state, Start(t, username));
      AcquireLock(t);
      if state.calls[t].phase.Done? {
        return Blank;
      }
      CountAdmins(t);
      if state.calls[t].phase.Done? {
        return Closed;
      }
      InsertAdmin(t);
      return Registered;
    }
  }
}
