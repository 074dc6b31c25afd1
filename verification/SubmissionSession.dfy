/**
 One request with nobody else in the database: each method runs the protocol's steps for one
 handler and has to end as a sequential reading of that handler says.
 */
module SubmissionSession {
  import opened Wrappers
  import opened SubmissionModel
  import opened SubmissionInvariant
  import opened ServiceBounds
  import opened SubmissionProperties

  /** What one uncontended idempotent create answers. */
  function SerialOutcome(s: State, key: Option<Key>, req: Request): Outcome {
    if key.Some? && key.value in s.db.claims then
      var claim := s.db.claims[key.value];
      if claim.req != req then KeyReused else if claim.app.Some? then Replayed(claim.app.value) else Vanished
    else if req.serviceId !in s.db.services || !Available(s.db.services[req.serviceId]) then Unavailable
    else if !InRange(s.db.services[req.serviceId], req.budget) then OutOfRange
    else Created(s.nextApp, s.nextToken)
  }

  function SerialDb(s: State, key: Option<Key>, req: Request): Db {
    if SerialOutcome(s, key, req).Created? then
      CommittedCreate(s.db, key, req, s.db.services[req.serviceId], s.nextApp, s.nextToken)
    else s.db
  }

  /** The row holds what was sent, under the name of the service. */
  predicate HoldsRow(row: Application, req: Request, svc: Service) {
    StoredAsSent(row, req) && row.product == svc.name
  }

  /** What a patch names has the patch's value, and what it does not name has the old one. */
  predicate Took<T(==)>(after: T, before: T, patch: Option<T>) {
    match patch case Some(v) => after == v case None => after == before
  }

  predicate PatchedRow(before: Application, after: Application, p: AppPatch) {
    && after.serviceId == before.serviceId
    && Took(after.product, before.product, p.product) && Took(after.budget, before.budget, p.budget)
    && after.fields.Keys == before.fields.Keys + p.fields.Keys
    && forall c :: c in after.fields ==> after.fields[c] == if c in p.fields then p.fields[c] else before.fields[c]
  }

  predicate PatchedService(before: Service, after: Service, p: ServicePatch) {
    && Took(after.name, before.name, p.name) && Took(after.active, before.active, p.active)
    && Took(after.budgetMin, before.budgetMin, p.budgetMin) && Took(after.budgetMax, before.budgetMax, p.budgetMax)
  }

  predicate Quiescent(s: State) {
    forall t :: t in s.txs ==> s.txs[t].phase.Done?
  }

  /** The rows once a service has been patched. */
  function PatchedDb(db: Db, id: int, p: ServicePatch): Db {
    if id in db.services then db.(services := db.services[id := ApplyServicePatch(db.services[id], p)]) else db
  }

  /** Writing what differs is writing what the patch says. */
  lemma AppDeltaWrites(row: Application, p: AppPatch)
    ensures PatchedRow(row, ApplyAppPatch(row, AppDelta(row, p)), p)
    ensures AppDelta(row, p) == NO_EDIT ==> PatchedRow(row, row, p)
  {
    if AppDelta(row, p) == NO_EDIT {
      forall c | c in p.fields ensures c in row.fields && row.fields[c] == p.fields[c] {
        assert c !in AppDelta(row, p).fields;
      }
    }
  }

  /** Nobody else holds anything. */
  predicate Alone(s: State, t: TxId) {
    forall u :: u in s.txs && u != t ==> s.txs[u].phase.Done?
  }

  class Session {
    var state: State

    constructor (s: State)
      requires Inv(s)
      ensures state == s
    {
      state := s;
    }

    /** The transaction begins. */
    method Begin(t: TxId, job: Job)
      requires Inv(state) && t !in state.txs
      modifies this
      ensures Inv(state) && state == Step(old(state), Start(t, job))
    {
      StepKeeps(state, Start(t, job));
      state := Step(state, Start(t, job));
    }

    /** One statement of an open transaction, or its commit. */
    method Statement(t: TxId)
      requires Inv(state) && t in state.txs
      modifies this
      ensures Inv(state) && state == AdvanceTx(old(state), t)
    {
      StepKeeps(state, Advance(t));
      state := Step(state, Advance(t));
    }

    /** _create_application_row: lock and check the service, insert the row. */
    method CreateApplicationRow(t: TxId, key: Option<Key>, req: Request) returns (ok: bool)
      requires Inv(state) && t in state.txs && state.txs[t] == Tx(Submit(key, req), Claimed) && Alone(state, t)
      modifies this
      ensures Inv(state) && t in state.txs && Alone(state, t)
      ensures state.nextToken == old(state.nextToken) && state.db == old(state.db)
      ensures ok == (&& req.serviceId in state.db.services && Available(state.db.services[req.serviceId])
                     && InRange(state.db.services[req.serviceId], req.budget))
      ensures ok ==>
                && state.txs[t] == Tx(Submit(key, req), Inserted(state.db.services[req.serviceId], old(state.nextApp)))
                && state.history == old(state.history)
                && HoldsRow(NewApplication(req, state.txs[t].phase.svc), req, state.txs[t].phase.svc)
      ensures !ok ==>
                && state.txs[t].phase == Done(
                     if req.serviceId in state.db.services && Available(state.db.services[req.serviceId])
                     then OutOfRange else Unavailable)
                && state.history == old(state.history) + [Obs(Submit(key, req), state.txs[t].phase.outcome)]
    {
      ok := CheckSetting(t, key, req);
      if ok {
        InsertRow(t, key, req, state.db.services[req.serviceId]);
      }
    }

    /** The INSERT of the application, under the lock on its service. */
    method InsertRow(t: TxId, key: Option<Key>, req: Request, svc: Service)
      requires Inv(state) && t in state.txs && state.txs[t] == Tx(Submit(key, req), Checked(svc)) && Alone(state, t)
      modifies this
      ensures Inv(state) && t in state.txs && Alone(state, t) && state.db == old(state.db)
      ensures state.txs[t] == Tx(Submit(key, req), Inserted(svc, old(state.nextApp)))
      ensures state.nextToken == old(state.nextToken) && state.history == old(state.history)
      ensures HoldsRow(NewApplication(req, svc), req, svc)
    {
      Statement(t);
    }

    /** The service row is locked, looked at and accepted or refused. */
    method CheckSetting(t: TxId, key: Option<Key>, req: Request) returns (ok: bool)
      requires Inv(state) && t in state.txs && state.txs[t] == Tx(Submit(key, req), Claimed) && Alone(state, t)
      modifies this
      ensures Inv(state) && t in state.txs && Alone(state, t)
      ensures state.nextToken == old(state.nextToken) && state.nextApp == old(state.nextApp)
      ensures state.db == old(state.db)
      ensures ok == (&& req.serviceId in state.db.services && Available(state.db.services[req.serviceId])
                     && InRange(state.db.services[req.serviceId], req.budget))
      ensures ok ==>
                && state.txs[t] == Tx(Submit(key, req), Checked(state.db.services[req.serviceId]))
                && state.history == old(state.history)
      ensures !ok ==>
                && state.txs[t].phase == Done(
                     if req.serviceId in state.db.services && Available(state.db.services[req.serviceId])
                     then OutOfRange else Unavailable)
                && state.history == old(state.history) + [Obs(Submit(key, req), state.txs[t].phase.outcome)]
    {
      StepKeeps(state, Advance(t));
      assert Step(state, Advance(t)) == CheckService(state, t, req);
      state := CheckService(state, t, req);
      ok := state.txs[t].phase.Checked?;
    }

    /** create_capability, then the commit of application, capability and claim together. */
    method MintAndCommit(t: TxId, key: Option<Key>, req: Request, svc: Service, id: nat) returns (o: Outcome)
      requires Inv(state) && t in state.txs && state.txs[t] == Tx(Submit(key, req), Inserted(svc, id))
              && Alone(state, t)
      modifies this
      ensures Inv(state) && Quiescent(state)
      ensures o == Created(id, old(state.nextToken))
      ensures state.db == CommittedCreate(old(state.db), key, req, svc, id, old(state.nextToken))
      ensures id in state.db.apps && HoldsRow(state.db.apps[id], req, svc)
      ensures state.history == old(state.history) + [Obs(Submit(key, req), o)]
    {
      StepKeeps(state, Advance(t));
      state := Step(state, Advance(t));
      StepKeeps(state, Advance(t));
      state := Step(state, Advance(t));
      o := state.txs[t].phase.outcome;
    }

    /** SELECT ... FOR UPDATE of the claim that won: refused at once, or held. */
    method LockLostClaim(t: TxId, key: Key, req: Request)
      requires Inv(state) && t in state.txs && state.txs[t] == Tx(Submit(Some(key), req), Beaten) && Alone(state, t)
      modifies this
      ensures Inv(state) && t in state.txs && Alone(state, t) && state.db == old(state.db)
      ensures state.txs[t] == Tx(Submit(Some(key), req),
                                 if key !in state.db.claims then Done(Retry)
                                 else if state.db.claims[key].req != req then Done(KeyReused)
                                 else ClaimLocked(state.db.claims[key].app.value))
      ensures state.history == old(state.history) +
              if state.txs[t].phase.Done? then [Obs(Submit(Some(key), req), state.txs[t].phase.outcome)] else []
    {
      Statement(t);
    }

    /** _replay_existing_idempotent_request. */
    method ReplayExistingIdempotentRequest(t: TxId, key: Key, req: Request) returns (o: Outcome)
      requires Inv(state) && t in state.txs && state.txs[t] == Tx(Submit(Some(key), req), Beaten) && Alone(state, t)
      modifies this
      ensures Inv(state) && Quiescent(state)
      ensures state.db == old(state.db) && state.history == old(state.history) + [Obs(Submit(Some(key), req), o)]
      ensures o == if key !in state.db.claims then Retry
                   else if state.db.claims[key].req == req then Replayed(state.db.claims[key].app.value) else KeyReused
    {
      LockLostClaim(t, key, req);
      if state.txs[t].phase.ClaimLocked? {
        Statement(t);
      }
      o := state.txs[t].phase.outcome;
    }

    /** create_application_idempotent, and create_application when no key was sent: it answers and
        commits exactly what the sequential specification says, and never blocks on itself. */
    method CreateApplication(t: TxId, key: Option<Key>, req: Request) returns (o: Outcome)
      requires Inv(state) && t !in state.txs && Quiescent(state)
      modifies this
      ensures Inv(state) && Quiescent(state)
      ensures o == SerialOutcome(old(state), key, req)
      ensures state.db == SerialDb(old(state), key, req)
      ensures o.Created? ==> o.id in state.db.apps && req.serviceId in state.db.services
                             && HoldsRow(state.db.apps[o.id], req, state.db.services[req.serviceId])
      ensures state.history == old(state.history) + [Obs(Submit(key, req), o)]
    {
      StepKeeps(state, Start(t, Submit(key, req)));
      state := Step(state, Start(t, Submit(key, req)));
      StepKeeps(state, Advance(t));
      state := Step(state, Advance(t));
      if state.txs[t].phase.Beaten? {
        assert state.db.claims[key.value].app.Some?;
        o := ReplayExistingIdempotentRequest(t, key.value, req);
        return;
      }
      var ok := CreateApplicationRow(t, key, req);
      if ok {
        o := MintAndCommit(t, key, req, state.db.services[req.serviceId], state.txs[t].phase.id);
      } else {
        o := state.txs[t].phase.outcome;
      }
    }

    /** try_consume_capability: the conditional UPDATE. */
    method TryConsumeCapability(t: TxId, a: nat, token: Option<Token>, data: string) returns (ok: bool)
      requires Inv(state) && t in state.txs && state.txs[t] == Tx(SendMetric(a, token, data), Phase.Begin)
              && Alone(state, t)
      modifies this
      ensures Inv(state) && t in state.txs && Alone(state, t)
      ensures ok == Spendable(state.db, a, token) && state.db == old(state.db)
      ensures ok ==> state.txs[t] == Tx(SendMetric(a, token, data), Spent) && state.history == old(state.history)
      ensures !ok ==> state.txs[t].phase == Done(Refused)
                      && state.history == old(state.history) + [Obs(SendMetric(a, token, data), Refused)]
    {
      Statement(t);
      ok := state.txs[t].phase.Spent?;
    }

    /** The INSERT that shares the UPDATE's transaction: it cannot clash. */
    method InsertBehaviorMetric(t: TxId, a: nat, token: Option<Token>, data: string)
      requires Inv(state) && t in state.txs && state.txs[t] == Tx(SendMetric(a, token, data), Spent) && Alone(state, t)
      modifies this
      ensures Inv(state) && t in state.txs && Alone(state, t)
      ensures state.txs[t] == Tx(SendMetric(a, token, data), Reported) && state.db == old(state.db)
              && state.history == old(state.history)
    {
      assert TxOk(state, state.txs[t]);
      assert a in state.db.apps && a !in state.db.metrics;
      Statement(t);
    }

    /** POST /behavior-metrics: spends the capability and stores the metric, or is refused and leaves
        everything as it was. No other answer is possible. */
    method CreateBehaviorMetric(t: TxId, a: nat, token: Option<Token>, data: string) returns (o: Outcome)
      requires Inv(state) && t !in state.txs && Quiescent(state)
      modifies this
      ensures Inv(state) && Quiescent(state)
      ensures o == if Spendable(old(state.db), a, token) then Accepted else Refused
      ensures state.db == if o == Accepted then CommittedMetric(old(state.db), a, data) else old(state.db)
      ensures state.history == old(state.history) + [Obs(SendMetric(a, token, data), o)]
    {
      Begin(t, SendMetric(a, token, data));
      var ok := TryConsumeCapability(t, a, token, data);
      if !ok {
        return Refused;
      }
      InsertBehaviorMetric(t, a, token, data);
      CommitBehaviorMetric(t, a, token, data);
      return Accepted;
    }

    /** The commit of the spent capability and the metric together. */
    method CommitBehaviorMetric(t: TxId, a: nat, token: Option<Token>, data: string)
      requires Inv(state) && t in state.txs && state.txs[t] == Tx(SendMetric(a, token, data), Reported)
              && Alone(state, t)
      modifies this
      ensures Inv(state) && Quiescent(state)
      ensures state.db == CommittedMetric(old(state.db), a, data)
      ensures state.history == old(state.history) + [Obs(SendMetric(a, token, data), Accepted)]
    {
      Statement(t);
    }

    /** The cascade, with nobody in its way. */
    method CascadeDelete(t: TxId, a: nat)
      requires Inv(state) && t in state.txs && state.txs[t] == Tx(DeleteApp(a), Found) && Alone(state, t)
              && a in state.db.apps
      modifies this
      ensures Inv(state) && t in state.txs && Alone(state, t)
      ensures state.txs[t] == Tx(DeleteApp(a), Cascading(ClaimsOn(old(state.db), a)))
      ensures state.db == old(state.db) && state.history == old(state.history)
    {
      LockApplication(t, a);
      Statement(t);
    }

    method LockApplication(t: TxId, a: nat)
      requires Inv(state) && t in state.txs && state.txs[t] == Tx(DeleteApp(a), Found) && Alone(state, t)
              && a in state.db.apps
      modifies this
      ensures Inv(state) && t in state.txs && Alone(state, t)
      ensures state.txs[t] == Tx(DeleteApp(a), AppLocked) && state.db == old(state.db)
              && state.history == old(state.history)
    {
      Statement(t);
    }

    /** DELETE of an application: its claims, its capability and its metric go with it. */
    method DeleteApplication(t: TxId, a: nat) returns (o: Outcome)
      requires Inv(state) && t !in state.txs && Quiescent(state)
      modifies this
      ensures Inv(state) && Quiescent(state)
      ensures o == if a in old(state.db).apps then Removed else NotFound
      ensures state.db == if o == Removed
              then CommittedDelete(old(state.db), a, ClaimsOn(old(state.db), a)) else old(state.db)
      ensures state.history == old(state.history) + [Obs(DeleteApp(a), o)]
    {
      Begin(t, DeleteApp(a));
      Statement(t);
      if state.txs[t].phase.Done? {
        return NotFound;
      }
      CascadeDelete(t, a);
      Statement(t);
      return Removed;
    }

    /** The changed columns are written and committed. */
    method WriteApplication(t: TxId, a: nat, p: AppPatch)
      requires Inv(state) && t in state.txs && a in state.db.apps && Alone(state, t)
      requires state.txs[t] == Tx(PatchApp(a, p), Edited(AppDelta(state.db.apps[a], p)))
      modifies this
      ensures Inv(state) && Quiescent(state) && t in state.txs && state.txs[t].phase == Done(Updated)
      ensures a in state.db.apps && PatchedRow(old(state.db).apps[a], state.db.apps[a], p)
      ensures state.db == old(state.db).(apps := old(state.db).apps[a := state.db.apps[a]])
    {
      AppDeltaWrites(state.db.apps[a], p);
      Statement(t);
    }

    /** PATCH of an application, alone: the row takes what the patch names, and nothing else changes. */
    method UpdateApplication(t: TxId, a: nat, p: AppPatch) returns (o: Outcome)
      requires Inv(state) && t !in state.txs && Quiescent(state)
      modifies this
      ensures Inv(state) && Quiescent(state)
      ensures o == if a in old(state.db).apps then Updated else NotFound
      ensures o == NotFound ==> state.db == old(state.db)
      ensures o == Updated ==>
                && a in state.db.apps && PatchedRow(old(state.db).apps[a], state.db.apps[a], p)
                && state.db == old(state.db).(apps := old(state.db).apps[a := state.db.apps[a]])
    {
      Begin(t, PatchApp(a, p));
      if a in state.db.apps {
        AppDeltaWrites(state.db.apps[a], p);
      }
      Statement(t);
      if state.txs[t].phase.Edited? {
        WriteApplication(t, a, p);
      }
      o := state.txs[t].phase.outcome;
    }

    /** DELETE of a metric leaves the capability spent. */
    method DeleteBehaviorMetric(t: TxId, a: nat) returns (o: Outcome)
      requires Inv(state) && t !in state.txs && Quiescent(state)
      modifies this
      ensures Inv(state) && Quiescent(state)
      ensures o == if a in old(state.db).metrics then Removed else NotFound
      ensures state.db == old(state.db).(metrics := old(state.db).metrics - {a})
    {
      Begin(t, DeleteMetric(a));
      Statement(t);
      if state.txs[t].phase.Found? {
        Statement(t);
      }
      o := state.txs[t].phase.outcome;
      assert a !in old(state.db).metrics ==> old(state.db).metrics - {a} == old(state.db).metrics;
    }

    /** The changed columns are written under the row lock and committed. */
    method WriteAdminSetting(t: TxId, id: int, p: ServicePatch)
      requires Inv(state) && t in state.txs && id in state.db.services && Alone(state, t)
      requires state.txs[t] == Tx(PatchService(id, p), Merged(Delta(state.db.services[id], p)))
      modifies this
      ensures Inv(state) && Quiescent(state) && t in state.txs && state.txs[t].phase == Done(Updated)
      ensures state.db == PatchedDb(old(state.db), id, p)
    {
      DeltaIsPatch(state.db.services[id], p);
      Statement(t);
      Statement(t);
    }

    /** PATCH of a service, alone: the merged bounds are in order or nothing changes. */
    method UpdateAdminSetting(t: TxId, id: int, p: ServicePatch) returns (o: Outcome)
      requires Inv(state) && t !in state.txs && Quiescent(state)
      modifies this
      ensures Inv(state) && Quiescent(state)
      ensures o == if id !in old(state.db).services then NotFound
                   else if Ordered(ApplyServicePatch(old(state.db).services[id], p)) then Updated else InvalidMerge
      ensures state.db == if o != Updated then old(state.db)
                          else PatchedDb(old(state.db), id, p)
      ensures o == Updated ==> id in state.db.services
                               && PatchedService(old(state.db).services[id], state.db.services[id], p)
      ensures AllOrdered(old(state.db)) ==> AllOrdered(state.db)
    {
      Begin(t, PatchService(id, p));
      var write := ReadAdminSetting(t, id, p);
      if write {
        WriteAdminSetting(t, id, p);
      }
      o := state.txs[t].phase.outcome;
    }

    /** The unlocked read, the merge and its check; nothing is left to write if no column changes. */
    method ReadAdminSetting(t: TxId, id: int, p: ServicePatch) returns (write: bool)
      requires Inv(state) && t in state.txs && state.txs[t] == Tx(PatchService(id, p), Phase.Begin) && Alone(state, t)
      modifies this
      ensures Inv(state) && t in state.txs && Alone(state, t) && state.db == old(state.db)
      ensures write ==> id in state.db.services && Ordered(ApplyServicePatch(state.db.services[id], p))
                        && state.txs[t] == Tx(PatchService(id, p), Merged(Delta(state.db.services[id], p)))
      ensures !write ==> state.txs[t].phase == Done(
                if id !in state.db.services then NotFound
                else if Ordered(ApplyServicePatch(state.db.services[id], p)) then Updated else InvalidMerge)
      ensures !write && state.txs[t].phase.outcome == Updated ==>
              ApplyServicePatch(state.db.services[id], p) == state.db.services[id]
    {
      if id in state.db.services {
        DeltaIsPatch(state.db.services[id], p);
      }
      Statement(t);
      write := state.txs[t].phase.Merged?;
    }

    /** DELETE of a service: refused while an application refers to it. */
    method DeleteAdminSetting(t: TxId, id: int) returns (o: Outcome)
      requires Inv(state) && t !in state.txs && Quiescent(state)
      modifies this
      ensures Inv(state) && Quiescent(state)
      ensures o == if id !in old(state.db).services then NotFound
                   else if Referenced(old(state.db), id) then InUse
                   else Removed
      ensures state.db == if o == Removed
              then old(state.db).(services := old(state.db).services - {id}) else old(state.db)
    {
      Begin(t, DeleteService(id));
      Statement(t);
      if state.txs[t].phase.Done? {
        return NotFound;
      }
      LockSetting(t, id);
      if state.txs[t].phase.Done? {
        return InUse;
      }
      Statement(t);
      return Removed;
    }

    method LockSetting(t: TxId, id: int)
      requires Inv(state) && t in state.txs && state.txs[t] == Tx(DeleteService(id), Found) && Alone(state, t)
      modifies this
      ensures Inv(state) && t in state.txs && Alone(state, t) && state.db == old(state.db)
      ensures state.txs[t]
              == Tx(DeleteService(id),
                    if id in state.db.services && Referenced(state.db, id) then Done(InUse)
                    else ServiceLocked(NO_CHANGE))
    {
      Statement(t);
    }
  }
}
