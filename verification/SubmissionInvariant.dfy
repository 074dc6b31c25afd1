/** What every reachable state of the submission protocol satisfies. */
module SubmissionInvariant {
  import opened Wrappers
  import opened SubmissionModel

  // --- The invariant ----------------------------------------------------

  predicate HasId(x: Tx) {
    x.job.Submit? && (x.phase.Inserted? || x.phase.Minted?)
  }

  predicate HasToken(x: Tx) {
    x.job.Submit? && x.phase.Minted?
  }

  /** Two transactions hold no lock in common and were given different ids and tokens. */
  ghost predicate Apart(x: Tx, y: Tx) {
    && (forall k :: !(HoldsClaim(x, k) && HoldsClaim(y, k)))
    && (forall id :: !(HoldsService(x, id) && HoldsService(y, id)))
    && (forall a :: !(DeletesApp(x, a) && (DeletesApp(y, a) || SharesApp(y, a))))
    && (forall a :: !(SharesApp(x, a) && DeletesApp(y, a)))
    && (forall a :: !(HoldsCap(x, a) && HoldsCap(y, a)))
    && (HasId(x) && HasId(y) ==> x.phase.id != y.phase.id)
    && (HasToken(x) && HasToken(y) ==> x.phase.mint != y.phase.mint)
  }

  ghost predicate AllApart(s: State) {
    forall t, u {:trigger Apart(s.txs[t], s.txs[u])} ::
      t in s.txs && u in s.txs && t != u ==> Apart(s.txs[t], s.txs[u])
  }

  ghost predicate ServiceFact(db: Db, req: Request, svc: Service) {
    && req.serviceId in db.services && db.services[req.serviceId] == svc
    && Available(svc) && InRange(svc, req.budget)
  }

  /** A claim that is being written is not committed yet. */
  predicate ClaimFact(db: Db, key: Option<Key>) {
    key.Some? ==> key.value !in db.claims
  }

  ghost predicate SubmitOk(s: State, key: Option<Key>, req: Request, p: Phase) {
    match p
    case Claimed => ClaimFact(s.db, key)
    case Checked(svc) => ClaimFact(s.db, key) && ServiceFact(s.db, req, svc)
    case Inserted(svc, id) =>
      ClaimFact(s.db, key) && ServiceFact(s.db, req, svc) && s.origin <= id < s.nextApp && id !in s.db.apps
    case Minted(svc, id, token) =>
      && ClaimFact(s.db, key) && ServiceFact(s.db, req, svc)
      && s.origin <= id < s.nextApp && id !in s.db.apps && token < s.nextToken
    case Beaten => key.Some?
    case ClaimLocked(id) => key.Some? && key.value in s.db.claims && s.db.claims[key.value] == Claim(req, Some(id))
    case _ => true
  }

  /** What a transaction's phase promises about the committed rows. */
  ghost predicate TxOk(s: State, x: Tx) {
    match x.job
    case Submit(key, req) => SubmitOk(s, key, req, x.phase)
    case SendMetric(a, token, _) =>
      && (x.phase.Spent? || x.phase.Reported? ==> Spendable(s.db, a, token))
      && (x.phase.Reported? ==> a in s.db.apps && a !in s.db.metrics)
    case DeleteApp(a) =>
      && (x.phase.AppLocked? || x.phase.Cascading? ==> a in s.db.apps)
      && (x.phase.Cascading? ==> x.phase.keys == ClaimsOn(s.db, a))
    case DeleteService(id) => x.phase.ServiceLocked? ==> !Referenced(s.db, id)
    case PatchService(id, p) =>
      && (x.phase.Merged? || x.phase.ServiceLocked? ==> ServicePart(x.phase.delta, p))
      && (x.phase.ServiceLocked? ==> id in s.db.services)
    case PatchApp(_, p) => x.phase.Edited? ==> AppPart(x.phase.edit, p)
    case _ => true
  }

  predicate Part<T(==)>(some: Option<T>, all: Option<T>) {
    some.Some? ==> some == all
  }

  /** What is to be written was asked for. */
  predicate ServicePart(delta: ServicePatch, p: ServicePatch) {
    && Part(delta.name, p.name) && Part(delta.budgetMin, p.budgetMin) && Part(delta.budgetMax, p.budgetMax)
    && Part(delta.active, p.active)
  }

  predicate AppPart(edit: AppPatch, p: AppPatch) {
    && Part(edit.product, p.product) && Part(edit.budget, p.budget)
    && forall c :: c in edit.fields ==> c in p.fields && p.fields[c] == edit.fields[c]
  }

  ghost predicate AllOk(s: State) {
    forall t {:trigger TxOk(s, s.txs[t])} :: t in s.txs ==> TxOk(s, s.txs[t])
  }

  /** Every committed claim points at an existing application; capabilities and metrics belong to
      one; an application made by the protocol has its capability; an unused capability has no
      metric; foreign keys to services hold. */
  ghost predicate DbOk(s: State) {
    && (forall k :: k in s.db.claims ==> s.db.claims[k].app.Some? && s.db.claims[k].app.value in s.db.apps)
    && s.db.caps.Keys <= s.db.apps.Keys
    && s.db.metrics.Keys <= s.db.apps.Keys
    && (forall a :: a in s.db.apps ==> a < s.nextApp)
    && (forall a :: a in s.db.apps && a >= s.origin ==> a in s.db.caps)
    && (forall a :: a in s.db.caps ==> s.origin <= a)
    && (forall a :: a in s.db.caps && !s.db.caps[a].used ==> a !in s.db.metrics)
    && (forall a :: a in s.db.caps ==> s.db.caps[a].token < s.nextToken)
    && (forall a :: a in s.db.apps && s.db.apps[a].serviceId.Some? ==> s.db.apps[a].serviceId.value in s.db.services)
    && s.origin <= s.nextApp
  }

  ghost predicate Inv(s: State) {
    DbOk(s) && AllOk(s) && AllApart(s)
  }

  // --- Steps that commit nothing ----------------------------------------

  lemma ApartSymmetric(x: Tx, y: Tx)
    requires Apart(x, y)
    ensures Apart(y, x)
  {
  }

  /** `s2` is `s` with transaction `t` replaced and the same committed rows. */
  ghost predicate Quiet(s: State, s2: State, t: TxId) {
    && t in s2.txs
    && s2.txs == s.txs[t := s2.txs[t]]
    && s2.db == s.db && s2.origin == s.origin
    && s2.nextApp >= s.nextApp && s2.nextToken >= s.nextToken
  }

  lemma QuietKeeps(s: State, s2: State, t: TxId)
    requires Inv(s) && Quiet(s, s2, t)
    requires TxOk(s2, s2.txs[t])
    requires forall u :: u in s.txs && u != t ==> Apart(s2.txs[t], s.txs[u])
    ensures Inv(s2)
  {
    forall u | u in s2.txs
      ensures TxOk(s2, s2.txs[u])
    {
      if u != t {
        assert TxOk(s, s.txs[u]);
      }
    }
    forall u, v | u in s2.txs && v in s2.txs && u != v
      ensures Apart(s2.txs[u], s2.txs[v])
    {
      if v == t {
        ApartSymmetric(s2.txs[t], s2.txs[u]);
      }
    }
  }

  // --- Steps that commit ------------------------------------------------

  lemma DoneApart(x: Tx, y: Tx)
    requires x.phase.Done?
    ensures Apart(x, y) && Apart(y, x)
  {
  }

  /** `t` answers and leaves `db` committed: what is left to check are the rows themselves and what
      the other transactions were promised about them. */
  lemma CommitKeeps(s: State, t: TxId, db: Db, outcome: Outcome)
    requires Inv(s) && t in s.txs
    requires DbOk(Finish(s, t, db, outcome))
    requires forall u :: u in s.txs && u != t ==> TxOk(Finish(s, t, db, outcome), s.txs[u])
    ensures Inv(Finish(s, t, db, outcome))
  {
    var s2 := Finish(s, t, db, outcome);
    forall u, v | u in s2.txs && v in s2.txs && u != v
      ensures Apart(s2.txs[u], s2.txs[v])
    {
      if u == t {
        DoneApart(s2.txs[t], s2.txs[v]);
      } else if v == t {
        DoneApart(s2.txs[t], s2.txs[u]);
      }
    }
    assert TxOk(s2, s2.txs[t]);
  }

  lemma AnswerKeeps(s: State, t: TxId, outcome: Outcome)
    requires Inv(s) && t in s.txs
    ensures Inv(Finish(s, t, s.db, outcome))
  {
    var s2 := Finish(s, t, s.db, outcome);
    forall u | u in s.txs && u != t
      ensures TxOk(s2, s.txs[u])
    {
      assert TxOk(s, s.txs[u]);
    }
    CommitKeeps(s, t, s.db, outcome);
  }

  lemma CreateKeepsRows(s: State, t: TxId, key: Option<Key>, req: Request, svc: Service, id: nat, token: Token)
    requires Inv(s) && t in s.txs && s.txs[t] == Tx(Submit(key, req), Minted(svc, id, token))
    ensures DbOk(Finish(s, t, CommittedCreate(s.db, key, req, svc, id, token), Created(id, token)))
  {
    assert SubmitOk(s, key, req, s.txs[t].phase) by {
      assert TxOk(s, s.txs[t]);
    }
    RowsOfCreate(s, Finish(s, t, CommittedCreate(s.db, key, req, svc, id, token), Created(id, token)), key, req, svc,
            id, token);
  }

  lemma RowsOfCreate(s: State, s2: State, key: Option<Key>, req: Request, svc: Service, id: nat, token: Token)
    requires DbOk(s) && SubmitOk(s, key, req, Minted(svc, id, token))
    requires s2.db == CommittedCreate(s.db, key, req, svc, id, token)
    requires s2.origin == s.origin && s2.nextApp == s.nextApp && s2.nextToken == s.nextToken
    ensures DbOk(s2)
  {
    assert s2.db.apps.Keys == s.db.apps.Keys + {id} && s2.db.caps.Keys == s.db.caps.Keys + {id};
    forall k | k in s2.db.claims
      ensures s2.db.claims[k].app.Some? && s2.db.claims[k].app.value in s2.db.apps
    {
      assert k in s.db.claims || key == Some(k);
    }
  }

  /** A creation leaves alone what another submission was promised: it has another key and another id. */
  lemma CreateKeepsSubmit(s: State, t: TxId, key: Option<Key>, req: Request, svc: Service, id: nat, token: Token,
          u: TxId)
    requires Inv(s) && t in s.txs && s.txs[t] == Tx(Submit(key, req), Minted(svc, id, token))
    requires u in s.txs && u != t && s.txs[u].job.Submit?
    ensures TxOk(Finish(s, t, CommittedCreate(s.db, key, req, svc, id, token), Created(id, token)), s.txs[u])
  {
    var x, y := s.txs[t], s.txs[u];
    assert SubmitOk(s, key, req, x.phase) by { assert TxOk(s, x); }
    assert SubmitOk(s, y.job.key, y.job.req, y.phase) by { assert TxOk(s, y); }
    assert Apart(x, y);
    if key.Some? {
      assert HoldsClaim(x, key.value) && !HoldsClaim(y, key.value);
    }
  }

  lemma CreateKeepsServiceDelete(s: State, t: TxId, key: Option<Key>, req: Request, svc: Service, id: nat,
          token: Token, u: TxId)
    requires Inv(s) && t in s.txs && s.txs[t] == Tx(Submit(key, req), Minted(svc, id, token))
    requires u in s.txs && u != t && s.txs[u].job.DeleteService? && s.txs[u].phase.ServiceLocked?
    ensures !Referenced(CommittedCreate(s.db, key, req, svc, id, token), s.txs[u].job.service)
  {
    var db := CommittedCreate(s.db, key, req, svc, id, token);
    assert TxOk(s, s.txs[u]);
    assert Apart(s.txs[t], s.txs[u]);
    assert HoldsService(s.txs[t], req.serviceId) && !HoldsService(s.txs[u], req.serviceId);
    assert forall a :: a in db.apps && a != id ==> a in s.db.apps && db.apps[a] == s.db.apps[a];
  }

  lemma CreateKeepsOther(s: State, t: TxId, key: Option<Key>, req: Request, svc: Service, id: nat, token: Token,
          u: TxId)
    requires Inv(s) && t in s.txs && s.txs[t] == Tx(Submit(key, req), Minted(svc, id, token))
    requires u in s.txs && u != t && !s.txs[u].job.Submit?
    ensures TxOk(Finish(s, t, CommittedCreate(s.db, key, req, svc, id, token), Created(id, token)), s.txs[u])
  {
    var x, db := s.txs[u], CommittedCreate(s.db, key, req, svc, id, token);
    assert SubmitOk(s, key, req, s.txs[t].phase) by { assert TxOk(s, s.txs[t]); }
    assert TxOk(s, x);
    match x.job {
      case DeleteService(_) =>
        if x.phase.ServiceLocked? {
          CreateKeepsServiceDelete(s, t, key, req, svc, id, token, u);
        }
      case DeleteApp(a) =>
        if x.phase.Cascading? {
          assert ClaimsOn(db, a) == ClaimsOn(s.db, a);
        }
      case SendMetric(a, mine, _) =>
        assert Spendable(s.db, a, mine) ==> Spendable(db, a, mine);
      case _ =>
    }
  }

  lemma CreateKeeps(s: State, t: TxId, key: Option<Key>, req: Request, svc: Service, id: nat, token: Token)
    requires Inv(s) && t in s.txs && s.txs[t] == Tx(Submit(key, req), Minted(svc, id, token))
    ensures Inv(Finish(s, t, CommittedCreate(s.db, key, req, svc, id, token), Created(id, token)))
  {
    CreateKeepsRows(s, t, key, req, svc, id, token);
    forall u | u in s.txs && u != t
      ensures TxOk(Finish(s, t, CommittedCreate(s.db, key, req, svc, id, token), Created(id, token)), s.txs[u])
    {
      if s.txs[u].job.Submit? {
        CreateKeepsSubmit(s, t, key, req, svc, id, token, u);
      } else {
        CreateKeepsOther(s, t, key, req, svc, id, token, u);
      }
    }
    CommitKeeps(s, t, CommittedCreate(s.db, key, req, svc, id, token), Created(id, token));
  }

  lemma MetricKeeps(s: State, t: TxId)
    requires Inv(s) && t in s.txs && s.txs[t].job.SendMetric? && s.txs[t].phase.Reported?
    ensures Inv(AdvanceTx(s, t))
  {
    var a, data := s.txs[t].job.app, s.txs[t].job.data;
    var db := CommittedMetric(s.db, a, data);
    var s2 := Finish(s, t, db, Accepted);
    assert TxOk(s, s.txs[t]);
    assert HoldsCap(s.txs[t], a);
    forall u | u in s.txs && u != t
      ensures TxOk(s2, s.txs[u])
    {
      assert TxOk(s, s.txs[u]) && Apart(s.txs[t], s.txs[u]);
      if s.txs[u].job.DeleteApp? {
        assert ClaimsOn(db, s.txs[u].job.app) == ClaimsOn(s.db, s.txs[u].job.app);
      }
      if s.txs[u].job.SendMetric? && (s.txs[u].phase.Spent? || s.txs[u].phase.Reported?) {
        assert HoldsCap(s.txs[u], s.txs[u].job.app);
      }
    }
    CommitKeeps(s, t, db, Accepted);
  }

  lemma DeleteKeeps(s: State, t: TxId)
    requires Inv(s) && t in s.txs && s.txs[t].job.DeleteApp? && s.txs[t].phase.Cascading?
    ensures Inv(AdvanceTx(s, t))
  {
    var a, keys := s.txs[t].job.app, s.txs[t].phase.keys;
    var db := CommittedDelete(s.db, a, keys);
    var s2 := Finish(s, t, db, Removed);
    assert TxOk(s, s.txs[t]);
    assert HoldsCap(s.txs[t], a) && DeletesApp(s.txs[t], a);
    forall k | k in db.claims
      ensures db.claims[k].app.Some? && db.claims[k].app.value in db.apps
    {
      assert k !in ClaimsOn(s.db, a);
    }
    forall u | u in s.txs && u != t
      ensures TxOk(s2, s.txs[u])
    {
      var x := s.txs[u];
      assert TxOk(s, x) && Apart(s.txs[t], x);
      if x.job.DeleteApp? {
        assert !DeletesApp(x, a);
        assert x.job.app != a ==> ClaimsOn(db, x.job.app) == ClaimsOn(s.db, x.job.app);
      }
      if x.job.SendMetric? {
        assert !HoldsCap(x, a);
      }
      if x.job.Submit? && x.phase.ClaimLocked? {
        assert HoldsClaim(x, x.job.key.value);
        assert !HoldsClaim(s.txs[t], x.job.key.value);
      }
    }
    CommitKeeps(s, t, db, Removed);
  }

  /** Committed rows that keep every key, id and capability keep what others were promised. */
  lemma RowEditKeeps(s: State, t: TxId, db: Db, outcome: Outcome)
    requires Inv(s) && t in s.txs
    requires db.claims == s.db.claims && db.caps == s.db.caps && db.services == s.db.services
    requires db.apps.Keys == s.db.apps.Keys && db.metrics.Keys <= s.db.metrics.Keys
    requires forall a :: a in db.apps ==> db.apps[a].serviceId == s.db.apps[a].serviceId
    ensures Inv(Finish(s, t, db, outcome))
  {
    var s2 := Finish(s, t, db, outcome);
    forall u | u in s.txs && u != t
      ensures TxOk(s2, s.txs[u])
    {
      assert TxOk(s, s.txs[u]);
      if s.txs[u].job.DeleteApp? {
        assert ClaimsOn(db, s.txs[u].job.app) == ClaimsOn(s.db, s.txs[u].job.app);
      }
    }
    CommitKeeps(s, t, db, outcome);
  }

  lemma PatchAppKeeps(s: State, t: TxId)
    requires Inv(s) && t in s.txs && s.txs[t].job.PatchApp?
    ensures Inv(AdvanceTx(s, t))
  {
    var PatchApp(a, p) := s.txs[t].job;
    match s.txs[t].phase {
      case Begin =>
        AnswerKeeps(s, t, NotFound);
        AnswerKeeps(s, t, Updated);
        if a in s.db.apps {
          QuietKeeps(s, Goto(s, t, Edited(AppDelta(s.db.apps[a], p))), t);
        }
      case Edited(edit) =>
        if a in s.db.apps {
          RowEditKeeps(s, t, s.db.(apps := s.db.apps[a := ApplyAppPatch(s.db.apps[a], edit)]), Updated);
        } else {
          AnswerKeeps(s, t, Aborted);
        }
      case _ =>
    }
  }

  lemma DeleteMetricKeeps(s: State, t: TxId)
    requires Inv(s) && t in s.txs && s.txs[t].job.DeleteMetric?
    ensures Inv(AdvanceTx(s, t))
  {
    var a := s.txs[t].job.app;
    match s.txs[t].phase {
      case Begin =>
        if a in s.db.metrics {
          QuietKeeps(s, Goto(s, t, Found), t);
        } else {
          AnswerKeeps(s, t, NotFound);
        }
      case Found => RowEditKeeps(s, t, s.db.(metrics := s.db.metrics - {a}), Removed);
      case _ =>
    }
  }

  /** A committed write to a service row was made under its lock, so no creation is looking at it. */
  lemma ServiceWriteKeeps(s: State, t: TxId, id: int, services: map<int, Service>, outcome: Outcome)
    requires Inv(s) && t in s.txs && HoldsService(s.txs[t], id)
    requires s.txs[t].job.PatchService? ==> id in services
    requires services - {id} == s.db.services - {id}
    requires id !in services ==> !Referenced(s.db, id)
    ensures Inv(Finish(s, t, s.db.(services := services), outcome))
  {
    var db := s.db.(services := services);
    var s2 := Finish(s, t, db, outcome);
    forall i | i != id && i in s.db.services
      ensures i in services && services[i] == s.db.services[i]
    {
      assert i in services - {id} && (services - {id})[i] == (s.db.services - {id})[i];
    }
    forall u | u in s.txs && u != t
      ensures TxOk(s2, s.txs[u])
    {
      var x := s.txs[u];
      assert TxOk(s, x) && Apart(s.txs[t], x);
      assert !HoldsService(x, id);
      if x.job.DeleteApp? {
        assert ClaimsOn(db, x.job.app) == ClaimsOn(s.db, x.job.app);
      }
    }
    CommitKeeps(s, t, db, outcome);
  }

  // --- One lemma per statement ------------------------------------------

  /** Before the service is locked, a submission holds at most its claim. */
  lemma ClaimOnlyApart(x: Tx, y: Tx, k: Key)
    requires x.job.Submit? && (x.phase.Claimed? || x.phase.Beaten? || x.phase.ClaimLocked?)
    requires x.job.key == Some(k) ==> x.phase.Beaten? || !HoldsClaim(y, k)
    requires x.job.key == Some(k) || x.job.key == None
    ensures Apart(x, y)
  {
  }

  lemma ServiceTooApart(x: Tx, x2: Tx, y: Tx, svc: Service)
    requires x.job.Submit? && x.phase.Claimed? && x2 == x.(phase := Checked(svc))
    requires Apart(x, y) && !HoldsService(y, x.job.req.serviceId)
    ensures Apart(x2, y)
  {
    assert forall k :: HoldsClaim(x2, k) <==> HoldsClaim(x, k);
  }

  lemma InsertClaimKeeps(s: State, t: TxId, k: Key, req: Request)
    requires Inv(s) && t in s.txs && s.txs[t] == Tx(Submit(Some(k), req), Begin)
    ensures Inv(InsertClaim(s, t, k))
  {
    var s2 := InsertClaim(s, t, k);
    if s2 != s {
      forall u | u in s.txs && u != t
        ensures Apart(s2.txs[t], s.txs[u])
      {
        assert !WritesClaim(s.txs[u], k);
        assert HoldsClaim(s.txs[u], k) ==> k in s.db.claims by { assert TxOk(s, s.txs[u]); }
        ClaimOnlyApart(s2.txs[t], s.txs[u], k);
      }
      QuietKeeps(s, s2, t);
    }
  }

  lemma NoKeyKeeps(s: State, t: TxId, req: Request)
    requires Inv(s) && t in s.txs && s.txs[t] == Tx(Submit(None, req), Begin)
    ensures Inv(Goto(s, t, Claimed))
  {
    var s2 := Goto(s, t, Claimed);
    forall u | u in s.txs && u != t
      ensures Apart(s2.txs[t], s.txs[u])
    {
      ClaimOnlyApart(s2.txs[t], s.txs[u], "");
    }
    QuietKeeps(s, s2, t);
  }

  lemma CheckServiceKeeps(s: State, t: TxId, key: Option<Key>, req: Request)
    requires Inv(s) && t in s.txs && s.txs[t] == Tx(Submit(key, req), Claimed)
    ensures Inv(CheckService(s, t, req))
  {
    AnswerKeeps(s, t, Unavailable);
    AnswerKeeps(s, t, OutOfRange);
    var s2 := CheckService(s, t, req);
    if s2.txs[t].phase.Checked? {
      var svc := s2.txs[t].phase.svc;
      assert SubmitOk(s, key, req, Claimed) by { assert TxOk(s, s.txs[t]); }
      forall u | u in s.txs && u != t
        ensures Apart(s2.txs[t], s.txs[u])
      {
        assert !HoldsService(s.txs[u], req.serviceId);
        ServiceTooApart(s.txs[t], s2.txs[t], s.txs[u], svc);
      }
      QuietKeeps(s, s2, t);
    }
  }

  predicate Inside(p: Phase) {
    p.Checked? || p.Inserted? || p.Minted?
  }

  /** Once the service is locked a submission holds the same locks up to its commit. */
  lemma MovesOnApart(x: Tx, x2: Tx, y: Tx)
    requires Apart(x, y) && x.job.Submit? && x2.job == x.job && Inside(x.phase) && Inside(x2.phase)
    requires HasId(x2) && HasId(y) ==> x2.phase.id != y.phase.id
    requires HasToken(x2) && HasToken(y) ==> x2.phase.mint != y.phase.mint
    ensures Apart(x2, y)
  {
    assert forall k :: HoldsClaim(x2, k) <==> HoldsClaim(x, k);
    assert forall i :: HoldsService(x2, i) <==> HoldsService(x, i);
  }

  /** Every id and token in use is smaller than its counter. */
  lemma IdsAreBelow(s: State, u: TxId)
    requires AllOk(s) && u in s.txs
    ensures HasId(s.txs[u]) ==> s.txs[u].phase.id < s.nextApp
    ensures HasToken(s.txs[u]) ==> s.txs[u].phase.mint < s.nextToken
  {
    assert TxOk(s, s.txs[u]);
  }

  lemma InsertApplicationKeeps(s: State, t: TxId, key: Option<Key>, req: Request, svc: Service)
    requires Inv(s) && t in s.txs && s.txs[t] == Tx(Submit(key, req), Checked(svc))
    ensures Inv(InsertApplication(s, t, svc))
  {
    var s2 := InsertApplication(s, t, svc);
    assert SubmitOk(s, key, req, Checked(svc)) by { assert TxOk(s, s.txs[t]); }
    forall u | u in s.txs && u != t
      ensures Apart(s2.txs[t], s.txs[u])
    {
      assert Apart(s.txs[t], s.txs[u]);
      IdsAreBelow(s, u);
      MovesOnApart(s.txs[t], s2.txs[t], s.txs[u]);
    }
    QuietKeeps(s, s2, t);
  }

  lemma MintCapabilityKeeps(s: State, t: TxId, key: Option<Key>, req: Request, svc: Service, id: nat)
    requires Inv(s) && t in s.txs && s.txs[t] == Tx(Submit(key, req), Inserted(svc, id))
    ensures Inv(MintCapability(s, t, svc, id))
  {
    var s2 := MintCapability(s, t, svc, id);
    assert SubmitOk(s, key, req, Inserted(svc, id)) by { assert TxOk(s, s.txs[t]); }
    forall u | u in s.txs && u != t
      ensures Apart(s2.txs[t], s.txs[u])
    {
      assert Apart(s.txs[t], s.txs[u]);
      IdsAreBelow(s, u);
      MovesOnApart(s.txs[t], s2.txs[t], s.txs[u]);
    }
    QuietKeeps(s, s2, t);
  }

  lemma LockClaimKeeps(s: State, t: TxId, k: Key, req: Request)
    requires Inv(s) && t in s.txs && s.txs[t] == Tx(Submit(Some(k), req), Beaten)
    ensures Inv(LockClaim(s, t, k, req))
  {
    AnswerKeeps(s, t, Retry);
    AnswerKeeps(s, t, KeyReused);
    AnswerKeeps(s, t, Vanished);
    var s2 := LockClaim(s, t, k, req);
    if s2.txs[t].phase.ClaimLocked? {
      forall u | u in s.txs && u != t
        ensures Apart(s2.txs[t], s.txs[u])
      {
        assert !HoldsClaim(s.txs[u], k);
        ClaimOnlyApart(s2.txs[t], s.txs[u], k);
      }
      QuietKeeps(s, s2, t);
    }
  }

  lemma SubmitKeeps(s: State, t: TxId)
    requires Inv(s) && t in s.txs && s.txs[t].job.Submit?
    ensures Inv(AdvanceTx(s, t))
  {
    var key, req := s.txs[t].job.key, s.txs[t].job.req;
    match s.txs[t].phase {
      case Begin =>
        if key.Some? {
          InsertClaimKeeps(s, t, key.value, req);
        } else {
          NoKeyKeeps(s, t, req);
        }
      case Claimed => CheckServiceKeeps(s, t, key, req);
      case Checked(svc) => InsertApplicationKeeps(s, t, key, req, svc);
      case Inserted(svc, id) => MintCapabilityKeeps(s, t, key, req, svc, id);
      case Minted(svc, id, token) => CreateKeeps(s, t, key, req, svc, id, token);
      case Beaten =>
        if key.Some? {
          LockClaimKeeps(s, t, key.value, req);
        }
      case ClaimLocked(id) =>
        AnswerKeeps(s, t, Replayed(id));
        AnswerKeeps(s, t, Vanished);
      case _ =>
    }
  }

  lemma SpendCapabilityKeeps(s: State, t: TxId, a: nat, token: Option<Token>, data: string)
    requires Inv(s) && t in s.txs && s.txs[t] == Tx(SendMetric(a, token, data), Begin)
    ensures Inv(SpendCapability(s, t, a, token))
  {
    AnswerKeeps(s, t, Refused);
    var s2 := SpendCapability(s, t, a, token);
    if s2.txs[t].phase.Spent? {
      forall u | u in s.txs && u != t
        ensures Apart(s2.txs[t], s.txs[u])
      {
        assert !HoldsCap(s.txs[u], a);
      }
      QuietKeeps(s, s2, t);
    }
  }

  lemma InsertMetricKeeps(s: State, t: TxId, a: nat, token: Option<Token>, data: string)
    requires Inv(s) && t in s.txs && s.txs[t] == Tx(SendMetric(a, token, data), Spent)
    ensures Inv(InsertMetric(s, t, a))
  {
    AnswerKeeps(s, t, Clash);
    var s2 := InsertMetric(s, t, a);
    if s2.txs[t].phase.Reported? {
      assert TxOk(s, s.txs[t]);
      forall u | u in s.txs && u != t
        ensures Apart(s2.txs[t], s.txs[u])
      {
        assert !(DeletesApp(s.txs[u], a) || SharesApp(s.txs[u], a)) && Apart(s.txs[t], s.txs[u]);
        assert forall b :: HoldsCap(s2.txs[t], b) <==> HoldsCap(s.txs[t], b);
      }
      QuietKeeps(s, s2, t);
    }
  }

  lemma SendMetricKeeps(s: State, t: TxId)
    requires Inv(s) && t in s.txs && s.txs[t].job.SendMetric?
    ensures Inv(AdvanceTx(s, t))
  {
    var SendMetric(a, token, data) := s.txs[t].job;
    match s.txs[t].phase {
      case Begin => SpendCapabilityKeeps(s, t, a, token, data);
      case Spent => InsertMetricKeeps(s, t, a, token, data);
      case Reported => MetricKeeps(s, t);
      case _ =>
    }
  }

  lemma LockAppKeeps(s: State, t: TxId, a: nat)
    requires Inv(s) && t in s.txs && s.txs[t] == Tx(DeleteApp(a), Found)
    ensures Inv(LockApp(s, t, a))
  {
    AnswerKeeps(s, t, Removed);
    var s2 := LockApp(s, t, a);
    if s2.txs[t].phase.AppLocked? {
      forall u | u in s.txs && u != t
        ensures Apart(s2.txs[t], s.txs[u])
      {
        assert !(DeletesApp(s.txs[u], a) || SharesApp(s.txs[u], a));
      }
      QuietKeeps(s, s2, t);
    }
  }

  lemma CascadeKeeps(s: State, t: TxId, a: nat)
    requires Inv(s) && t in s.txs && s.txs[t] == Tx(DeleteApp(a), AppLocked)
    ensures Inv(Cascade(s, t, a))
  {
    var s2 := Cascade(s, t, a);
    if s2 != s {
      assert TxOk(s, s.txs[t]);
      forall u | u in s.txs && u != t
        ensures Apart(s2.txs[t], s.txs[u])
      {
        assert Apart(s.txs[t], s.txs[u]);
        assert !HoldsCap(s.txs[u], a);
        assert forall k :: k in ClaimsOn(s.db, a) ==> !HoldsClaim(s.txs[u], k);
        assert forall b :: DeletesApp(s2.txs[t], b) <==> DeletesApp(s.txs[t], b);
      }
      QuietKeeps(s, s2, t);
    }
  }

  lemma DeleteAppKeeps(s: State, t: TxId)
    requires Inv(s) && t in s.txs && s.txs[t].job.DeleteApp?
    ensures Inv(AdvanceTx(s, t))
  {
    var a := s.txs[t].job.app;
    match s.txs[t].phase {
      case Begin =>
        AnswerKeeps(s, t, NotFound);
        if a in s.db.apps {
          QuietKeeps(s, Goto(s, t, Found), t);
        }
      case Found => LockAppKeeps(s, t, a);
      case AppLocked => CascadeKeeps(s, t, a);
      case Cascading(_) => DeleteKeeps(s, t);
      case _ =>
    }
  }

  lemma LockServiceKeeps(s: State, t: TxId, id: int, delta: ServicePatch)
    requires Inv(s) && t in s.txs && Free(s, t, x => HoldsService(x, id))
    requires s.txs[t].job.PatchService? || s.txs[t].job.DeleteService?
    requires s.txs[t].job.service == id
    requires s.txs[t].job.PatchService? ==> id in s.db.services && ServicePart(delta, s.txs[t].job.patch)
    requires s.txs[t].job.DeleteService? ==> !Referenced(s.db, id)
    ensures Inv(Goto(s, t, ServiceLocked(delta)))
  {
    var s2 := Goto(s, t, ServiceLocked(delta));
    forall u | u in s.txs && u != t
      ensures Apart(s2.txs[t], s.txs[u])
    {
      assert !HoldsService(s.txs[u], id);
      assert forall i :: HoldsService(s2.txs[t], i) ==> i == id;
    }
    QuietKeeps(s, s2, t);
  }

  lemma PatchServiceKeeps(s: State, t: TxId)
    requires Inv(s) && t in s.txs && s.txs[t].job.PatchService?
    ensures Inv(AdvanceTx(s, t))
  {
    var PatchService(id, p) := s.txs[t].job;
    match s.txs[t].phase {
      case Begin =>
        AnswerKeeps(s, t, NotFound);
        AnswerKeeps(s, t, InvalidMerge);
        AnswerKeeps(s, t, Updated);
        if id in s.db.services {
          QuietKeeps(s, Goto(s, t, Merged(Delta(s.db.services[id], p))), t);
        }
      case Merged(delta) =>
        assert ServicePart(delta, p) by { assert TxOk(s, s.txs[t]); }
        AnswerKeeps(s, t, Aborted);
        if Free(s, t, x => HoldsService(x, id)) && id in s.db.services {
          LockServiceKeeps(s, t, id, delta);
        }
      case ServiceLocked(delta) =>
        if id in s.db.services {
          ServiceWriteKeeps(s, t, id, s.db.services[id := ApplyServicePatch(s.db.services[id], delta)], Updated);
        }
      case _ =>
    }
  }

  lemma DeleteServiceKeeps(s: State, t: TxId)
    requires Inv(s) && t in s.txs && s.txs[t].job.DeleteService?
    ensures Inv(AdvanceTx(s, t))
  {
    var id := s.txs[t].job.service;
    match s.txs[t].phase {
      case Begin =>
        AnswerKeeps(s, t, NotFound);
        if id in s.db.services {
          QuietKeeps(s, Goto(s, t, Found), t);
        }
      case Found =>
        AnswerKeeps(s, t, InUse);
        if Free(s, t, x => HoldsService(x, id)) && !(id in s.db.services && Referenced(s.db, id)) {
          assert DbOk(s);
          LockServiceKeeps(s, t, id, NO_CHANGE);
        }
      case ServiceLocked(_) =>
        assert TxOk(s, s.txs[t]);
        ServiceWriteKeeps(s, t, id, s.db.services - {id}, Removed);
      case _ =>
    }
  }

  // --- Every run --------------------------------------------------------

  lemma StepKeeps(s: State, e: Event)
    requires Inv(s)
    ensures Inv(Step(s, e))
  {
    match e {
      case Start(t, job) =>
        if t !in s.txs {
          var s2 := Step(s, e);
          QuietKeeps(s, s2, t);
        }
      case Abort(t) =>
        if t in s.txs {
          AnswerKeeps(s, t, Aborted);
        }
      case Advance(t) =>
        if t in s.txs {
          match s.txs[t].job {
            case Submit(_, _) => SubmitKeeps(s, t);
            case SendMetric(_, _, _) => SendMetricKeeps(s, t);
            case DeleteApp(_) => DeleteAppKeeps(s, t);
            case PatchApp(_, _) => PatchAppKeeps(s, t);
            case DeleteMetric(_) => DeleteMetricKeeps(s, t);
            case PatchService(_, _) => PatchServiceKeeps(s, t);
            case DeleteService(_) => DeleteServiceKeeps(s, t);
          }
        }
    }
  }

  /** Every reachable state satisfies the invariant, whatever the interleaving. */
  lemma {:induction false} RunKeeps(s: State, events: seq<Event>)
    requires Inv(s)
    ensures Inv(Run(s, events))
  {
    if events != [] {
      RunKeeps(s, events[..|events| - 1]);
      StepKeeps(Run(s, events[..|events| - 1]), events[|events| - 1]);
    }
  }

  lemma InitHolds(s: State)
    requires Init(s)
    ensures Inv(s)
  {
  }
}
