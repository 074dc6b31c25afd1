/**
 The protocol against a specification without transactions: one atomic object that
 remembers, per key, the request and the application, and, per application, whether
 its single metric submission is still allowed. Every interleaving answers as this
 object would, in the order in which the answers were given.
 */
module SubmissionRefinement {
  import opened Wrappers
  import opened SubmissionModel
  import opened SubmissionInvariant

  datatype Entry = Entry(req: Request, app: nat)

  /** `issued` and `minted` are every id and token ever handed out; `dropped` every key that was
      known and was forgotten with its application. */
  datatype Atomic = Atomic(
    keys: map<Key, Entry>, tickets: map<nat, Capability>, issued: set<nat>, minted: set<Token>, dropped: set<Key>)

  const NOTHING := Atomic(map[], map[], {}, {}, {})

  predicate ValidTicket(a: Atomic, app: nat, token: Option<Token>) {
    token.Some? && app in a.tickets && a.tickets[app] == Capability(token.value, false)
  }

  /** The answers the atomic object may give. 404-like answers of administrative jobs are free. */
  predicate Allows(a: Atomic, o: Obs) {
    match o.job
    case Submit(key, req) =>
      var known := key.Some? && key.value in a.keys;
      (match o.outcome
       case Created(id, token) => !known && id !in a.issued && token !in a.minted
       case Replayed(id) => known && a.keys[key.value] == Entry(req, id)
       case KeyReused => known && a.keys[key.value].req != req
       case Unavailable => !known
       case OutOfRange => !known
       case Retry => key.Some? && !known && key.value in a.dropped
       case Aborted => true
       case _ => false)
    case SendMetric(app, token, _) =>
      (match o.outcome
       case Accepted => ValidTicket(a, app, token)
       case Refused => !ValidTicket(a, app, token)
       case Aborted => true
       case _ => false)
    case _ => true
  }

  function Apply(a: Atomic, o: Obs): Atomic {
    match (o.job, o.outcome)
    case (Submit(key, req), Created(id, token)) =>
      Atomic(if key.Some? then a.keys[key.value := Entry(req, id)] else a.keys,
             a.tickets[id := Capability(token, false)], a.issued + {id}, a.minted + {token}, a.dropped)
    case (SendMetric(app, _, _), Accepted) =>
      if app in a.tickets then a.(tickets := a.tickets[app := a.tickets[app].(used := true)]) else a
    case (DeleteApp(app), Removed) =>
      a.(keys := map k | k in a.keys && a.keys[k].app != app :: a.keys[k], tickets := a.tickets - {app},
         dropped := a.dropped + set k | k in a.keys && a.keys[k].app == app)
    case _ => a
  }

  function After(h: seq<Obs>): Atomic {
    if h == [] then NOTHING else Apply(After(h[..|h| - 1]), h[|h| - 1])
  }

  ghost predicate Legal(h: seq<Obs>) {
    forall i {:trigger h[i]} :: 0 <= i < |h| ==> Allows(After(h[..i]), h[i])
  }

  // --- Refinement -------------------------------------------------------

  function AbsKeys(db: Db): map<Key, Entry> {
    map k | k in db.claims && db.claims[k].app.Some? :: Entry(db.claims[k].req, db.claims[k].app.value)
  }

  /** Has seen the claim of another transaction and has not looked at it yet. */
  predicate Lost(x: Tx) {
    x.job.Submit? && x.job.key.Some? && x.phase.Beaten?
  }

  /** The committed rows are what the atomic object holds; ids and tokens still to be given out are new
      to it, and a key whose claim was seen is known to it or was forgotten. */
  ghost predicate Linked(s: State, a: Atomic) {
    && a.keys == AbsKeys(s.db)
    && a.tickets == s.db.caps
    && (forall id :: id in a.issued ==> s.origin <= id < s.nextApp)
    && (forall tok :: tok in a.minted ==> tok < s.nextToken)
    && (forall t {:trigger HasId(s.txs[t])} :: t in s.txs && HasId(s.txs[t]) ==> s.txs[t].phase.id !in a.issued)
    && (forall t {:trigger HasToken(s.txs[t])} :: t in s.txs && HasToken(s.txs[t]) ==> s.txs[t].phase.mint !in a.minted)
    && (forall t {:trigger Lost(s.txs[t])} :: t in s.txs && Lost(s.txs[t]) ==>
          s.txs[t].job.key.value in a.keys.Keys + a.dropped)
  }

  /** The answers given so far are the atomic object's, and the state is its state after them. */
  ghost predicate Refines(s: State) {
    Legal(s.history) && Linked(s, After(s.history))
  }

  lemma Extend(h: seq<Obs>, o: Obs)
    requires Legal(h) && Allows(After(h), o)
    ensures Legal(h + [o]) && After(h + [o]) == Apply(After(h), o)
  {
    var h2 := h + [o];
    assert h2[..|h|] == h;
    forall i | 0 <= i < |h2|
      ensures Allows(After(h2[..i]), h2[i])
    {
      if i < |h| {
        assert h2[..i] == h[..i] && h2[i] == h[i];
      }
    }
  }

  /** The atomic object issues no more than the answering transaction holds. */
  ghost predicate IssuesOwn(a: Atomic, b: Atomic, x: Tx) {
    && b.issued <= a.issued + (if HasId(x) then {x.phase.id} else {})
    && b.minted <= a.minted + (if HasToken(x) then {x.phase.mint} else {})
  }

  /** The ids and tokens the other transactions hold are still theirs alone. */
  lemma AnswerLeavesIds(s: State, a: Atomic, t: TxId, u: TxId, b: Atomic)
    requires AllApart(s) && Linked(s, a) && t in s.txs && u in s.txs && u != t && IssuesOwn(a, b, s.txs[t])
    ensures HasId(s.txs[u]) ==> s.txs[u].phase.id !in b.issued
    ensures HasToken(s.txs[u]) ==> s.txs[u].phase.mint !in b.minted
  {
    assert Apart(s.txs[t], s.txs[u]);
  }

  lemma KeysStayKnown(a: Atomic, o: Obs)
    ensures a.keys.Keys + a.dropped <= Apply(a, o).keys.Keys + Apply(a, o).dropped
  {
  }

  lemma IssuedInBounds(s: State, a: Atomic, t: TxId, b: Atomic)
    requires AllOk(s) && Linked(s, a) && t in s.txs && IssuesOwn(a, b, s.txs[t])
    ensures forall id :: id in b.issued ==> s.origin <= id < s.nextApp
    ensures forall tok :: tok in b.minted ==> tok < s.nextToken
  {
    assert TxOk(s, s.txs[t]);
  }

  lemma AnswerLinks(s: State, a: Atomic, t: TxId, db: Db, outcome: Outcome, b: Atomic)
    requires AllOk(s) && AllApart(s) && Linked(s, a) && t in s.txs
    requires b.keys == AbsKeys(db) && b.tickets == db.caps && IssuesOwn(a, b, s.txs[t])
    requires a.keys.Keys + a.dropped <= b.keys.Keys + b.dropped
    ensures Linked(Finish(s, t, db, outcome), b)
  {
    IssuedInBounds(s, a, t, b);
    forall u | u in s.txs && u != t
      ensures HasId(s.txs[u]) ==> s.txs[u].phase.id !in b.issued
      ensures HasToken(s.txs[u]) ==> s.txs[u].phase.mint !in b.minted
    {
      AnswerLeavesIds(s, a, t, u, b);
    }
  }

  /** An answer that the atomic object allows, with the rows it leaves. */
  lemma AnswerRefines(s: State, t: TxId, db: Db, outcome: Outcome)
    requires Inv(s) && Refines(s) && t in s.txs
    requires var a, o := After(s.history), Obs(s.txs[t].job, outcome);
             && Allows(a, o)
             && Apply(a, o).keys == AbsKeys(db) && Apply(a, o).tickets == db.caps
             && IssuesOwn(a, Apply(a, o), s.txs[t])
    ensures Refines(Finish(s, t, db, outcome))
  {
    var a, o := After(s.history), Obs(s.txs[t].job, outcome);
    Extend(s.history, o);
    KeysStayKnown(a, o);
    AnswerLinks(s, a, t, db, outcome, Apply(a, o));
  }

  /** A step that answers nothing and commits nothing. */
  lemma QuietRefines(s: State, s2: State, t: TxId)
    requires Refines(s) && Quiet(s, s2, t) && s2.history == s.history
    requires HasId(s2.txs[t]) ==>
      s2.txs[t].phase.id == s.nextApp || (t in s.txs && HasId(s.txs[t]) && s2.txs[t].phase.id == s.txs[t].phase.id)
    requires HasToken(s2.txs[t]) ==> s2.txs[t].phase.mint == s.nextToken
    requires Lost(s2.txs[t]) ==>
            s2.txs[t].job.key.value in s.db.claims && s.db.claims[s2.txs[t].job.key.value].app.Some?
    ensures Refines(s2)
  {
    forall u | u in s2.txs
      ensures HasId(s2.txs[u]) ==> s2.txs[u].phase.id !in After(s2.history).issued
      ensures HasToken(s2.txs[u]) ==> s2.txs[u].phase.mint !in After(s2.history).minted
      ensures Lost(s2.txs[u]) ==> s2.txs[u].job.key.value in After(s2.history).keys.Keys + After(s2.history).dropped
    {
      if u != t {
        assert Lost(s.txs[u]) == Lost(s2.txs[u]);
        assert HasId(s.txs[u]) == HasId(s2.txs[u]) && HasToken(s.txs[u]) == HasToken(s2.txs[u]);
      }
    }
  }

  /** Moving on to a phase that carries no id. */
  lemma GotoRefines(s: State, t: TxId, phase: Phase)
    requires Refines(s) && t in s.txs && !phase.Inserted? && !phase.Minted? && !phase.Beaten?
    ensures Refines(Goto(s, t, phase))
  {
    QuietRefines(s, Goto(s, t, phase), t);
  }

  lemma AbsKeysOfCreate(db: Db, key: Option<Key>, req: Request, svc: Service, id: nat, token: Token)
    ensures AbsKeys(CommittedCreate(db, key, req, svc, id, token))
         == if key.Some? then AbsKeys(db)[key.value := Entry(req, id)] else AbsKeys(db)
  {
  }

  lemma CreateAllowed(s: State, t: TxId, key: Option<Key>, req: Request, svc: Service, id: nat, token: Token)
    requires Inv(s) && Refines(s) && t in s.txs && s.txs[t] == Tx(Submit(key, req), Minted(svc, id, token))
    ensures Allows(After(s.history), Obs(Submit(key, req), Created(id, token)))
  {
    assert SubmitOk(s, key, req, s.txs[t].phase) by { assert TxOk(s, s.txs[t]); }
    assert HasId(s.txs[t]) && HasToken(s.txs[t]);
  }

  lemma CreateRefines(s: State, t: TxId, key: Option<Key>, req: Request, svc: Service, id: nat, token: Token)
    requires Inv(s) && Refines(s) && t in s.txs && s.txs[t] == Tx(Submit(key, req), Minted(svc, id, token))
    ensures Refines(Finish(s, t, CommittedCreate(s.db, key, req, svc, id, token), Created(id, token)))
  {
    AbsKeysOfCreate(s.db, key, req, svc, id, token);
    CreateAllowed(s, t, key, req, svc, id, token);
    assert HasId(s.txs[t]) && HasToken(s.txs[t]);
    AnswerRefines(s, t, CommittedCreate(s.db, key, req, svc, id, token), Created(id, token));
  }

  /** An answer that changes neither the rows nor the atomic object. */
  lemma PlainAnswerRefines(s: State, t: TxId, outcome: Outcome)
    requires Inv(s) && Refines(s) && t in s.txs
    requires var a, o := After(s.history), Obs(s.txs[t].job, outcome); Allows(a, o) && Apply(a, o) == a
    ensures Refines(Finish(s, t, s.db, outcome))
  {
    AnswerRefines(s, t, s.db, outcome);
  }

  lemma CheckServiceRefines(s: State, t: TxId, key: Option<Key>, req: Request)
    requires Inv(s) && Refines(s) && t in s.txs && s.txs[t] == Tx(Submit(key, req), Claimed)
    ensures Refines(CheckService(s, t, req))
  {
    if Free(s, t, x => HoldsService(x, req.serviceId)) {
      if req.serviceId !in s.db.services || !Available(s.db.services[req.serviceId]) {
        RejectionRefines(s, t, key, req, Unavailable);
      } else if !InRange(s.db.services[req.serviceId], req.budget) {
        RejectionRefines(s, t, key, req, OutOfRange);
      } else {
        GotoRefines(s, t, Checked(s.db.services[req.serviceId]));
      }
    }
  }

  /** A rejected submission holds the claim of a key that is not known. */
  lemma RejectionRefines(s: State, t: TxId, key: Option<Key>, req: Request, outcome: Outcome)
    requires Inv(s) && Refines(s) && t in s.txs && s.txs[t] == Tx(Submit(key, req), Claimed)
    requires outcome == Unavailable || outcome == OutOfRange
    ensures Refines(Finish(s, t, s.db, outcome))
  {
    assert SubmitOk(s, key, req, Claimed) by { assert TxOk(s, s.txs[t]); }
    PlainAnswerRefines(s, t, outcome);
  }

  lemma LockClaimRefines(s: State, t: TxId, k: Key, req: Request)
    requires Inv(s) && Refines(s) && t in s.txs && s.txs[t] == Tx(Submit(Some(k), req), Beaten)
    ensures Refines(LockClaim(s, t, k, req))
  {
    if Free(s, t, x => HoldsClaim(x, k)) {
      if k !in s.db.claims {
        assert Lost(s.txs[t]);
        PlainAnswerRefines(s, t, Retry);
      } else {
        assert s.db.claims[k].app.Some? && k in AbsKeys(s.db);
        if s.db.claims[k].req != req {
          PlainAnswerRefines(s, t, KeyReused);
        } else {
          GotoRefines(s, t, ClaimLocked(s.db.claims[k].app.value));
        }
      }
    }
  }

  lemma SubmitRefines(s: State, t: TxId)
    requires Inv(s) && Refines(s) && t in s.txs && s.txs[t].job.Submit?
    ensures Refines(AdvanceTx(s, t))
  {
    var Submit(key, req) := s.txs[t].job;
    match s.txs[t].phase {
      case Begin =>
        if key.Some? && Free(s, t, x => WritesClaim(x, key.value)) && key.value in s.db.claims {
          QuietRefines(s, Goto(s, t, Beaten), t);
        } else {
          GotoRefines(s, t, Claimed);
        }
      case Claimed => CheckServiceRefines(s, t, key, req);
      case Checked(svc) => QuietRefines(s, InsertApplication(s, t, svc), t);
      case Inserted(svc, id) =>
        assert HasId(s.txs[t]);
        QuietRefines(s, MintCapability(s, t, svc, id), t);
      case Minted(svc, id, token) => CreateRefines(s, t, key, req, svc, id, token);
      case Beaten =>
        if key.Some? {
          LockClaimRefines(s, t, key.value, req);
        }
      case ClaimLocked(id) =>
        assert SubmitOk(s, key, req, ClaimLocked(id)) by { assert TxOk(s, s.txs[t]); }
        assert id in s.db.apps;
        PlainAnswerRefines(s, t, Replayed(id));
      case _ =>
    }
  }

  lemma SendMetricRefines(s: State, t: TxId, a: nat, token: Option<Token>, data: string)
    requires Inv(s) && Refines(s) && t in s.txs && s.txs[t].job == SendMetric(a, token, data)
    ensures Refines(AdvanceMetric(s, t, a, token, data))
  {
    assert TxOk(s, s.txs[t]);
    match s.txs[t].phase {
      case Begin =>
        if Spendable(s.db, a, token) {
          GotoRefines(s, t, Spent);
        } else {
          PlainAnswerRefines(s, t, Refused);
        }
      case Spent =>
        assert a in s.db.apps && a !in s.db.metrics;
        GotoRefines(s, t, Reported);
      case Reported =>
        var db := CommittedMetric(s.db, a, data);
        assert db.caps == s.db.caps[a := s.db.caps[a].(used := true)];
        AnswerRefines(s, t, db, Accepted);
      case _ =>
    }
  }

  lemma AbsKeysOfDelete(db: Db, a: nat)
    ensures AbsKeys(CommittedDelete(db, a, ClaimsOn(db, a)))
         == map k | k in AbsKeys(db) && AbsKeys(db)[k].app != a :: AbsKeys(db)[k]
  {
  }

  lemma DeleteRefines(s: State, t: TxId, a: nat, keys: set<Key>)
    requires Inv(s) && Refines(s) && t in s.txs && s.txs[t] == Tx(DeleteApp(a), Cascading(keys))
    ensures Refines(Finish(s, t, CommittedDelete(s.db, a, keys), Removed))
  {
    var db := CommittedDelete(s.db, a, keys);
    assert keys == ClaimsOn(s.db, a) by { assert TxOk(s, s.txs[t]); }
    AbsKeysOfDelete(s.db, a);
    AnswerRefines(s, t, db, Removed);
  }

  lemma DeleteNothing(s: State, a: nat)
    requires Inv(s) && Refines(s) && a !in s.db.apps
    ensures Apply(After(s.history), Obs(DeleteApp(a), Removed)) == After(s.history)
  {
    var m := After(s.history);
    forall k | k in m.keys
      ensures m.keys[k].app != a
    {
      assert k in s.db.claims;
    }
  }

  lemma LockAppRefines(s: State, t: TxId, a: nat)
    requires Inv(s) && Refines(s) && t in s.txs && s.txs[t].job == DeleteApp(a)
    ensures Refines(LockApp(s, t, a))
  {
    if a in s.db.apps {
      GotoRefines(s, t, AppLocked);
    } else {
      DeleteNothing(s, a);
      PlainAnswerRefines(s, t, Removed);
    }
  }

  lemma DeleteAppRefines(s: State, t: TxId, a: nat)
    requires Inv(s) && Refines(s) && t in s.txs && s.txs[t].job == DeleteApp(a)
    ensures Refines(AdvanceDelete(s, t, a))
  {
    match s.txs[t].phase {
      case Begin =>
        if a in s.db.apps {
          GotoRefines(s, t, Found);
        } else {
          PlainAnswerRefines(s, t, NotFound);
        }
      case Found => LockAppRefines(s, t, a);
      case AppLocked => GotoRefines(s, t, Cascading(ClaimsOn(s.db, a)));
      case Cascading(keys) => DeleteRefines(s, t, a, keys);
      case _ =>
    }
  }

  predicate Administrative(job: Job) {
    !job.Submit? && !job.SendMetric? && !job.DeleteApp?
  }

  /** Administrative jobs that touch neither claims nor capabilities are invisible. */
  lemma AdminAnswerRefines(s: State, t: TxId, db: Db, outcome: Outcome)
    requires Inv(s) && Refines(s) && t in s.txs && Administrative(s.txs[t].job)
    requires db.claims == s.db.claims && db.caps == s.db.caps
    ensures Refines(Finish(s, t, db, outcome))
  {
    AnswerRefines(s, t, db, outcome);
  }

  lemma PatchAppRefines(s: State, t: TxId, a: nat, p: AppPatch)
    requires Inv(s) && Refines(s) && t in s.txs && s.txs[t].job == PatchApp(a, p)
    ensures Refines(AdvancePatchApp(s, t, a, p))
  {
    match s.txs[t].phase {
      case Begin =>
        AdminAnswerRefines(s, t, s.db, NotFound);
        AdminAnswerRefines(s, t, s.db, Updated);
        if a in s.db.apps {
          GotoRefines(s, t, Edited(AppDelta(s.db.apps[a], p)));
        }
      case Edited(edit) =>
        AdminAnswerRefines(s, t, s.db, Aborted);
        if a in s.db.apps {
          AdminAnswerRefines(s, t, s.db.(apps := s.db.apps[a := ApplyAppPatch(s.db.apps[a], edit)]), Updated);
        }
      case _ =>
    }
  }

  lemma DeleteMetricRefines(s: State, t: TxId, a: nat)
    requires Inv(s) && Refines(s) && t in s.txs && s.txs[t].job == DeleteMetric(a)
    ensures Refines(AdvanceDeleteMetric(s, t, a))
  {
    match s.txs[t].phase {
      case Begin =>
        AdminAnswerRefines(s, t, s.db, NotFound);
        GotoRefines(s, t, Found);
      case Found => AdminAnswerRefines(s, t, s.db.(metrics := s.db.metrics - {a}), Removed);
      case _ =>
    }
  }

  lemma PatchServiceRefines(s: State, t: TxId, id: int, p: ServicePatch)
    requires Inv(s) && Refines(s) && t in s.txs && s.txs[t].job == PatchService(id, p)
    ensures Refines(AdvancePatchService(s, t, id, p))
  {
    var s2 := AdvancePatchService(s, t, id, p);
    match s.txs[t].phase {
      case Begin =>
        if s2.txs[t].phase.Done? {
          AdminAnswerRefines(s, t, s.db, s2.txs[t].phase.outcome);
        } else {
          GotoRefines(s, t, s2.txs[t].phase);
        }
      case Merged(delta) =>
        if id in s.db.services {
          GotoRefines(s, t, ServiceLocked(delta));
        } else {
          AdminAnswerRefines(s, t, s.db, Aborted);
        }
      case ServiceLocked(_) =>
        if id in s.db.services {
          AdminAnswerRefines(s, t, s2.db, Updated);
        }
      case _ =>
    }
  }

  lemma DeleteServiceRefines(s: State, t: TxId, id: int)
    requires Inv(s) && Refines(s) && t in s.txs && s.txs[t].job == DeleteService(id)
    ensures Refines(AdvanceDeleteService(s, t, id))
  {
    match s.txs[t].phase {
      case Begin =>
        if id in s.db.services {
          GotoRefines(s, t, Found);
        } else {
          AdminAnswerRefines(s, t, s.db, NotFound);
        }
      case Found =>
        if id in s.db.services && Referenced(s.db, id) {
          AdminAnswerRefines(s, t, s.db, InUse);
        } else {
          GotoRefines(s, t, ServiceLocked(NO_CHANGE));
        }
      case ServiceLocked(_) => AdminAnswerRefines(s, t, s.db.(services := s.db.services - {id}), Removed);
      case _ =>
    }
  }

  lemma EditRefines(s: State, t: TxId)
    requires Inv(s) && Refines(s) && t in s.txs && Administrative(s.txs[t].job)
    ensures Refines(AdvanceTx(s, t))
  {
    match s.txs[t].job
    case PatchApp(a, p) => PatchAppRefines(s, t, a, p);
    case DeleteMetric(a) => DeleteMetricRefines(s, t, a);
    case PatchService(id, p) => PatchServiceRefines(s, t, id, p);
    case DeleteService(id) => DeleteServiceRefines(s, t, id);
  }

  lemma AdvanceRefines(s: State, t: TxId)
    requires Inv(s) && Refines(s) && t in s.txs
    ensures Refines(AdvanceTx(s, t))
  {
    match s.txs[t].job
    case Submit(_, _) => SubmitRefines(s, t);
    case SendMetric(a, token, data) => SendMetricRefines(s, t, a, token, data);
    case DeleteApp(a) => DeleteAppRefines(s, t, a);
    case _ => EditRefines(s, t);
  }

  lemma StartRefines(s: State, t: TxId, job: Job)
    requires Refines(s) && t !in s.txs
    ensures Refines(s.(txs := s.txs[t := Tx(job, Begin)]))
  {
  }

  lemma AbortRefines(s: State, t: TxId)
    requires Inv(s) && Refines(s) && t in s.txs
    ensures Refines(Finish(s, t, s.db, Aborted))
  {
    assert Apply(After(s.history), Obs(s.txs[t].job, Aborted)) == After(s.history);
    AnswerRefines(s, t, s.db, Aborted);
  }

  lemma StepRefines(s: State, e: Event)
    requires Inv(s) && Refines(s)
    ensures Refines(Step(s, e))
  {
    match e {
      case Start(t, job) =>
        if t !in s.txs {
          StartRefines(s, t, job);
        }
      case Abort(t) =>
        if t in s.txs {
          AbortRefines(s, t);
        }
      case Advance(t) =>
        if t in s.txs {
          AdvanceRefines(s, t);
        }
    }
  }

  /** Every interleaving of any number of requests answers as the atomic object does, and leaves
      exactly the claims and capabilities that the atomic object holds. */
  lemma {:induction false} EveryRunRefines(s: State, events: seq<Event>)
    requires Init(s)
    ensures Inv(Run(s, events)) && Refines(Run(s, events))
  {
    if events == [] {
      InitHolds(s);
    } else {
      var before := Run(s, events[..|events| - 1]);
      EveryRunRefines(s, events[..|events| - 1]);
      StepKeeps(before, events[|events| - 1]);
      StepRefines(before, events[|events| - 1]);
    }
  }
}
