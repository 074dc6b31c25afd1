/**
 What the committed rows hold, told from the requests alone: every column and every metric is what
 somebody sent, and nobody is refused for a reason that the rows do not give.
 */
module SubmissionRecords {
  import opened Wrappers
  import opened SubmissionModel
  import opened SubmissionInvariant
  import opened SubmissionRefinement
  import opened SubmissionProperties
  import ServiceBounds
  import Text

  // --- Single commits ---------------------------------------------------

  /** The column stayed, or became what the patch says. */
  predicate KeptOrSet<T(==)>(after: T, before: T, patch: Option<T>) {
    after == before || patch == Some(after)
  }

  predicate EditedRow(before: Application, after: Application, p: AppPatch) {
    && after.serviceId == before.serviceId
    && KeptOrSet(after.product, before.product, p.product)
    && KeptOrSet(after.budget, before.budget, p.budget)
    && (forall c :: c in before.fields ==> c in after.fields)
    && (forall c :: c in after.fields ==>
            || (c in before.fields && after.fields[c] == before.fields[c])
            || (c in p.fields && after.fields[c] == p.fields[c]))
  }

  predicate EditedService(before: Service, after: Service, p: ServicePatch) {
    && KeptOrSet(after.name, before.name, p.name)
    && KeptOrSet(after.budgetMin, before.budgetMin, p.budgetMin)
    && KeptOrSet(after.budgetMax, before.budgetMax, p.budgetMax)
    && KeptOrSet(after.active, before.active, p.active)
  }

  lemma EditWrites(before: Application, edit: AppPatch, p: AppPatch)
    requires AppPart(edit, p)
    ensures EditedRow(before, ApplyAppPatch(before, edit), p)
  {
  }

  lemma RequestsEditNothing(s: State, t: TxId, a: nat)
    requires Inv(s) && t in s.txs && (s.txs[t].job.Submit? || s.txs[t].job.SendMetric? || s.txs[t].job.DeleteApp?)
    requires a in s.db.apps && a in AdvanceTx(s, t).db.apps
    ensures AdvanceTx(s, t).db.apps[a] == s.db.apps[a]
  {
    assert TxOk(s, s.txs[t]);
  }

  lemma OthersEditNothing(s: State, t: TxId, a: nat)
    requires t in s.txs && Administrative(s.txs[t].job) && !s.txs[t].job.PatchApp?
    ensures AdvanceTx(s, t).db.apps == s.db.apps
  {
  }

  /** A stored application changes only in the commit of a patch of it, and only in columns that the
      patch names, to what the patch says. */
  lemma OnlyPatchesEdit(s: State, e: Event, a: nat)
    requires Inv(s) && a in s.db.apps && a in Step(s, e).db.apps && Step(s, e).db.apps[a] != s.db.apps[a]
    ensures e.t in s.txs && s.txs[e.t].job.PatchApp? && s.txs[e.t].job.app == a
    ensures EditedRow(s.db.apps[a], Step(s, e).db.apps[a], s.txs[e.t].job.appPatch)
    ensures Step(s, e).history == s.history + [Obs(s.txs[e.t].job, Updated)]
  {
    var x := s.txs[e.t];
    match x.job
    case PatchApp(_, p) =>
      assert TxOk(s, x);
      EditWrites(s.db.apps[a], x.phase.edit, p);
    case Submit(_, _) => RequestsEditNothing(s, e.t, a);
    case SendMetric(_, _, _) => RequestsEditNothing(s, e.t, a);
    case DeleteApp(_) => RequestsEditNothing(s, e.t, a);
    case _ => OthersEditNothing(s, e.t, a);
  }

  /** The same of a service. */
  lemma OnlyPatchesEditServices(s: State, e: Event, id: int)
    requires Inv(s) && id in s.db.services && id in Step(s, e).db.services
            && Step(s, e).db.services[id] != s.db.services[id]
    ensures e.t in s.txs && s.txs[e.t].job.PatchService? && s.txs[e.t].job.service == id
    ensures EditedService(s.db.services[id], Step(s, e).db.services[id], s.txs[e.t].job.patch)
    ensures Step(s, e).history == s.history + [Obs(s.txs[e.t].job, Updated)]
  {
    var x := s.txs[e.t];
    match x.job
    case PatchService(_, _) => assert TxOk(s, x);
    case DeleteService(_) =>
    case PatchApp(_, _) => ServiceBounds.EditsLeaveServices(s, e.t);
    case DeleteMetric(_) => ServiceBounds.EditsLeaveServices(s, e.t);
    case _ => ServiceBounds.RequestsLeaveServices(s, e.t);
  }

  // --- Refusals ---------------------------------------------------------

  /** No service that can be chosen: none with this id, or one that is inactive or has a blank name. */
  predicate NoService(db: Db, req: Request) {
    req.serviceId in db.services ==>
      var svc := db.services[req.serviceId];
      !svc.active || forall i :: 0 <= i < |svc.name| ==> Text.IsSpace(svc.name[i])
  }

  predicate Outside(svc: Service, budget: int) {
    budget < svc.budgetMin || budget > svc.budgetMax
  }

  /** With the bounds that the patch names and the row's other one, the lower is above the upper. */
  predicate Crossed(svc: Service, p: ServicePatch) {
    match (p.budgetMin, p.budgetMax)
    case (Some(low), Some(high)) => low > high
    case (Some(low), None) => low > svc.budgetMax
    case (None, Some(high)) => svc.budgetMin > high
    case (None, None) => svc.budgetMin > svc.budgetMax
  }

  /** What the committed rows say to each refusal. */
  ghost predicate Deserved(db: Db, o: Obs) {
    match o.job
    case Submit(_, req) =>
      && (o.outcome == Unavailable ==> NoService(db, req))
      && (o.outcome == OutOfRange ==> !NoService(db, req) && Outside(db.services[req.serviceId], req.budget))
    case DeleteService(id) =>
      && (o.outcome == NotFound ==> id !in db.services)
      && (o.outcome == InUse ==> exists a :: a in db.apps && db.apps[a].serviceId == Some(id))
    case PatchService(id, p) =>
      && (o.outcome == NotFound ==> id !in db.services)
      && (o.outcome == InvalidMerge ==> id in db.services && Crossed(db.services[id], p))
    case PatchApp(a, _) => o.outcome == NotFound ==> a !in db.apps
    case DeleteApp(a) => o.outcome == NotFound ==> a !in db.apps
    case DeleteMetric(a) => o.outcome == NotFound ==> a !in db.metrics
    case SendMetric(_, _, _) => true
  }

  /** At most one answer is given, and only if deserved. */
  ghost predicate AnswersDeservedly(s: State, s2: State) {
    s2.history == s.history || (|s2.history| == |s.history| + 1 && Deserved(s.db, s2.history[|s.history|]))
  }

  lemma NoServiceIs(db: Db, req: Request)
    ensures NoService(db, req) <==> !(req.serviceId in db.services && Available(db.services[req.serviceId]))
  {
    if req.serviceId in db.services {
      Text.StripBlank(db.services[req.serviceId].name);
    }
  }

  lemma CheckDeserves(s: State, t: TxId, req: Request)
    requires t in s.txs && s.txs[t].job.Submit? && s.txs[t].job.req == req
    ensures AnswersDeservedly(s, CheckService(s, t, req))
  {
    NoServiceIs(s.db, req);
  }

  lemma OtherAnswersAreNoRefusals(s: State, t: TxId)
    requires t in s.txs && s.txs[t].job.Submit? && !s.txs[t].phase.Claimed?
    ensures AnswersDeservedly(s, AdvanceTx(s, t))
  {
  }

  lemma SubmissionsDeserve(s: State, t: TxId)
    requires t in s.txs && s.txs[t].job.Submit?
    ensures AnswersDeservedly(s, AdvanceTx(s, t))
  {
    if s.txs[t].phase.Claimed? {
      CheckDeserves(s, t, s.txs[t].job.req);
      assert AdvanceTx(s, t) == CheckService(s, t, s.txs[t].job.req);
    } else {
      OtherAnswersAreNoRefusals(s, t);
    }
  }

  lemma EditsDeserve(s: State, t: TxId)
    requires t in s.txs && Administrative(s.txs[t].job)
    ensures AnswersDeservedly(s, AdvanceTx(s, t))
  {
  }

  lemma OthersDeserve(s: State, t: TxId)
    requires t in s.txs && (s.txs[t].job.SendMetric? || s.txs[t].job.DeleteApp?)
    ensures AnswersDeservedly(s, AdvanceTx(s, t))
  {
  }

  /** Nobody is refused without the rows, as they are committed at that moment, giving the reason. */
  lemma RefusalsAreDeserved(s: State, e: Event)
    ensures AnswersDeservedly(s, Step(s, e))
  {
    if e.Advance? && e.t in s.txs {
      if s.txs[e.t].job.Submit? {
        SubmissionsDeserve(s, e.t);
      } else if Administrative(s.txs[e.t].job) {
        EditsDeserve(s, e.t);
      } else {
        OthersDeserve(s, e.t);
      }
    }
  }

  // --- The rows, told from the answers ----------------------------------

  /** What the answers given so far say about a row: a column that a patch has named is no longer known,
      because its write depends on what the patch had read. */
  datatype Known = Known(serviceId: Option<int>, budget: Option<int>, fields: Columns)

  datatype Ledger = Ledger(apps: map<nat, Known>, metrics: map<nat, string>)

  function Opened(db: Db): Ledger {
    Ledger(map a | a in db.apps :: Known(db.apps[a].serviceId, Some(db.apps[a].budget), db.apps[a].fields), db.metrics)
  }

  function Forgotten(k: Known, p: AppPatch): Known {
    k.(budget := if p.budget.Some? then None else k.budget, fields := k.fields - p.fields.Keys)
  }

  function Entered(l: Ledger, o: Obs): Ledger {
    match (o.job, o.outcome)
    case (Submit(_, req), Created(id, _)) =>
      l.(apps := l.apps[id := Known(Some(req.serviceId), Some(req.budget), req.fields)])
    case (PatchApp(a, p), Updated) =>
      if a in l.apps then l.(apps := l.apps[a := Forgotten(l.apps[a], p)]) else l
    case (DeleteApp(a), Removed) => Ledger(l.apps - {a}, l.metrics - {a})
    case (SendMetric(a, _, data), Accepted) => l.(metrics := l.metrics[a := data])
    case (DeleteMetric(a), Removed) => l.(metrics := l.metrics - {a})
    case _ => l
  }

  function Booked(l: Ledger, h: seq<Obs>): Ledger {
    if h == [] then l else Entered(Booked(l, h[..|h| - 1]), h[|h| - 1])
  }

  predicate Fits(k: Known, row: Application) {
    && row.serviceId == k.serviceId
    && (k.budget.Some? ==> k.budget == Some(row.budget))
    && (forall c :: c in k.fields ==> c in row.fields && row.fields[c] == k.fields[c])
  }

  ghost predicate Reflects(l: Ledger, db: Db) {
    && l.apps.Keys == db.apps.Keys && l.metrics == db.metrics
    && forall a :: a in db.apps ==> Fits(l.apps[a], db.apps[a])
  }

  /** The step's answer, entered into the ledger, if it gives one. */
  ghost predicate Tracks(l: Ledger, s: State, s2: State) {
    || (s2.history == s.history && Reflects(l, s2.db))
    || (|s2.history| > 0 && s2.history == s.history + [s2.history[|s2.history| - 1]]
        && Reflects(Entered(l, s2.history[|s2.history| - 1]), s2.db))
  }

  lemma FinishTracks(l: Ledger, s: State, t: TxId, db: Db, outcome: Outcome)
    requires t in s.txs && Reflects(Entered(l, Obs(s.txs[t].job, outcome)), db)
    ensures Tracks(l, s, Finish(s, t, db, outcome))
  {
    var h := Finish(s, t, db, outcome).history;
    assert h[|h| - 1] == Obs(s.txs[t].job, outcome);
  }

  lemma CreateTracks(l: Ledger, s: State, t: TxId, key: Option<Key>, req: Request, svc: Service, id: nat, token: Token)
    requires t in s.txs && s.txs[t].job == Submit(key, req) && Reflects(l, s.db)
    ensures Tracks(l, s, Finish(s, t, CommittedCreate(s.db, key, req, svc, id, token), Created(id, token)))
  {
    FinishTracks(l, s, t, CommittedCreate(s.db, key, req, svc, id, token), Created(id, token));
  }

  lemma SubmitTracks(l: Ledger, s: State, t: TxId)
    requires Reflects(l, s.db) && t in s.txs && s.txs[t].job.Submit?
    ensures Tracks(l, s, AdvanceTx(s, t))
  {
    var Submit(key, req) := s.txs[t].job;
    if s.txs[t].phase.Minted? {
      CreateTracks(l, s, t, key, req, s.txs[t].phase.svc, s.txs[t].phase.id, s.txs[t].phase.mint);
    } else {
      SubmitMovesNothing(s, t);
    }
  }

  /** No row changes, and no creation is answered. */
  ghost predicate MovesNothing(s: State, s2: State, job: Job) {
    && s2.db == s.db
    && (s2.history == s.history
        || exists o: Outcome :: !o.Created? && s2.history == s.history + [Obs(job, o)])
  }

  lemma CheckMovesNothing(s: State, t: TxId, req: Request)
    requires t in s.txs
    ensures MovesNothing(s, CheckService(s, t, req), s.txs[t].job)
  {
  }

  lemma OthersMoveNothing(s: State, t: TxId)
    requires t in s.txs && s.txs[t].job.Submit? && !s.txs[t].phase.Minted? && !s.txs[t].phase.Claimed?
    ensures MovesNothing(s, AdvanceTx(s, t), s.txs[t].job)
  {
  }

  /** Before its commit a submission changes no row, and no answer but the commit's is entered. */
  lemma SubmitMovesNothing(s: State, t: TxId)
    requires t in s.txs && s.txs[t].job.Submit? && !s.txs[t].phase.Minted?
    ensures MovesNothing(s, AdvanceTx(s, t), s.txs[t].job)
  {
    if s.txs[t].phase.Claimed? {
      CheckMovesNothing(s, t, s.txs[t].job.req);
      assert AdvanceTx(s, t) == CheckService(s, t, s.txs[t].job.req);
    } else {
      OthersMoveNothing(s, t);
    }
  }

  lemma MetricTracks(l: Ledger, s: State, t: TxId)
    requires Reflects(l, s.db) && t in s.txs && s.txs[t].job.SendMetric?
    ensures Tracks(l, s, AdvanceTx(s, t))
  {
    var SendMetric(a, _, data) := s.txs[t].job;
    FinishTracks(l, s, t, CommittedMetric(s.db, a, data), Accepted);
    FinishTracks(l, s, t, s.db, Refused);
    FinishTracks(l, s, t, s.db, Clash);
  }

  lemma DeleteTracks(l: Ledger, s: State, t: TxId)
    requires DbOk(s) && Reflects(l, s.db) && t in s.txs && s.txs[t].job.DeleteApp?
    ensures Tracks(l, s, AdvanceTx(s, t))
  {
    var a := s.txs[t].job.app;
    FinishTracks(l, s, t, s.db, NotFound);
    match s.txs[t].phase
    case Found =>
      if a !in s.db.apps {
        assert l.apps - {a} == l.apps && l.metrics - {a} == l.metrics;
        FinishTracks(l, s, t, s.db, Removed);
      }
    case Cascading(keys) => FinishTracks(l, s, t, CommittedDelete(s.db, a, keys), Removed);
    case _ =>
  }

  lemma EditFits(k: Known, row: Application, edit: AppPatch, p: AppPatch)
    requires Fits(k, row) && AppPart(edit, p)
    ensures Fits(Forgotten(k, p), ApplyAppPatch(row, edit)) && Fits(Forgotten(k, p), row)
  {
  }

  lemma EditTracks(l: Ledger, s: State, t: TxId, a: nat, p: AppPatch, edit: AppPatch)
    requires Reflects(l, s.db) && t in s.txs && s.txs[t].job == PatchApp(a, p) && a in s.db.apps && AppPart(edit, p)
    ensures Tracks(l, s, Finish(s, t, s.db, Updated))
    ensures Tracks(l, s, Finish(s, t, s.db.(apps := s.db.apps[a := ApplyAppPatch(s.db.apps[a], edit)]), Updated))
  {
    EditFits(l.apps[a], s.db.apps[a], edit, p);
    FinishTracks(l, s, t, s.db, Updated);
    FinishTracks(l, s, t, s.db.(apps := s.db.apps[a := ApplyAppPatch(s.db.apps[a], edit)]), Updated);
  }

  lemma PatchTracks(l: Ledger, s: State, t: TxId)
    requires Inv(s) && Reflects(l, s.db) && t in s.txs && s.txs[t].job.PatchApp?
    ensures Tracks(l, s, AdvanceTx(s, t))
  {
    var PatchApp(a, p) := s.txs[t].job;
    FinishTracks(l, s, t, s.db, NotFound);
    FinishTracks(l, s, t, s.db, Aborted);
    if a in s.db.apps {
      match s.txs[t].phase
      case Begin => EditTracks(l, s, t, a, p, NO_EDIT);
      case Edited(edit) =>
        assert TxOk(s, s.txs[t]);
        EditTracks(l, s, t, a, p, edit);
      case _ =>
    }
  }

  lemma DeleteMetricTracks(l: Ledger, s: State, t: TxId)
    requires Reflects(l, s.db) && t in s.txs && s.txs[t].job.DeleteMetric?
    ensures Tracks(l, s, AdvanceTx(s, t))
  {
    var a := s.txs[t].job.app;
    FinishTracks(l, s, t, s.db, NotFound);
    FinishTracks(l, s, t, s.db.(metrics := s.db.metrics - {a}), Removed);
  }

  lemma SettingsTrack(l: Ledger, s: State, t: TxId)
    requires Reflects(l, s.db) && t in s.txs && (s.txs[t].job.PatchService? || s.txs[t].job.DeleteService?)
    ensures Tracks(l, s, AdvanceTx(s, t))
  {
    var s2 := AdvanceTx(s, t);
    if s2.history != s.history {
      FinishTracks(l, s, t, s2.db, s2.txs[t].phase.outcome);
    }
  }

  lemma StepTracks(l: Ledger, s: State, e: Event)
    requires Inv(s) && Reflects(l, s.db)
    ensures Tracks(l, s, Step(s, e))
  {
    if e.Advance? && e.t in s.txs {
      match s.txs[e.t].job
      case Submit(_, _) => SubmitTracks(l, s, e.t);
      case SendMetric(_, _, _) => MetricTracks(l, s, e.t);
      case DeleteApp(_) => DeleteTracks(l, s, e.t);
      case PatchApp(_, _) => PatchTracks(l, s, e.t);
      case DeleteMetric(_) => DeleteMetricTracks(l, s, e.t);
      case _ => SettingsTrack(l, s, e.t);
    } else if e.Abort? && e.t in s.txs {
      FinishTracks(l, s, e.t, s.db, Aborted);
    }
  }

  /** After every run the committed applications are those that the answers created and did not delete,
      each holding in every column that no patch has named what was sent for it; and the committed
      metrics are exactly those accepted, as sent. */
  lemma {:induction false} RowsAreWhatWasSent(s: State, events: seq<Event>)
    requires Init(s)
    ensures Inv(Run(s, events)) && Reflects(Booked(Opened(s.db), Run(s, events).history), Run(s, events).db)
  {
    if events == [] {
      InitHolds(s);
    } else {
      var before := Run(s, events[..|events| - 1]);
      var l := Booked(Opened(s.db), before.history);
      RowsAreWhatWasSent(s, events[..|events| - 1]);
      StepKeeps(before, events[|events| - 1]);
      StepTracks(l, before, events[|events| - 1]);
      var h := Run(s, events).history;
      assert h != before.history ==> h[..|h| - 1] == before.history;
    }
  }

  // --- A known key and its row ------------------------------------------

  predicate PatchesBudget(o: Obs, a: nat) {
    o.job.PatchApp? && o.job.app == a && o.outcome == Updated && o.job.appPatch.budget.Some?
  }

  predicate PatchesColumn(o: Obs, a: nat, c: string) {
    o.job.PatchApp? && o.job.app == a && o.outcome == Updated && c in o.job.appPatch.fields
  }

  /** What the ledger still knows of the application a key points at. */
  ghost predicate KnownAsSent(l: Ledger, h: seq<Obs>, e: Entry) {
    && e.app in l.apps
    && l.apps[e.app].serviceId == Some(e.req.serviceId)
    && (l.apps[e.app].budget == Some(e.req.budget) || exists i :: 0 <= i < |h| && PatchesBudget(h[i], e.app))
    && forall c :: c in e.req.fields ==>
         || (c in l.apps[e.app].fields && l.apps[e.app].fields[c] == e.req.fields[c])
         || exists i :: 0 <= i < |h| && PatchesColumn(h[i], e.app, c)
  }

  lemma {:induction false} KeysAreIssued(h: seq<Obs>, k: Key)
    requires k in After(h).keys
    ensures After(h).keys[k].app in After(h).issued
  {
    var init := h[..|h| - 1];
    if k in After(init).keys && After(init).keys[k] == After(h).keys[k] {
      KeysAreIssued(init, k);
    }
  }

  /** One more answer about another application, or a patch of this one. */
  lemma StaysKnown(l: Ledger, h: seq<Obs>, o: Obs, e: Entry)
    requires KnownAsSent(l, h, e)
    requires o.job.Submit? && o.outcome.Created? ==> o.outcome.id != e.app
    requires !DeletesId(o, e.app)
    ensures KnownAsSent(Entered(l, o), h + [o], e)
  {
    var h2 := h + [o];
    assert h2[|h|] == o;
    forall c | c in e.req.fields && !(c in l.apps[e.app].fields && l.apps[e.app].fields[c] == e.req.fields[c])
      ensures exists i :: 0 <= i < |h2| && PatchesColumn(h2[i], e.app, c)
    {
      var i :| 0 <= i < |h| && PatchesColumn(h[i], e.app, c);
      assert h2[i] == h[i];
    }
    if l.apps[e.app].budget != Some(e.req.budget) {
      var i :| 0 <= i < |h| && PatchesBudget(h[i], e.app);
      assert h2[i] == h[i];
    }
  }

  /** The answer that makes a key known. */
  lemma BecomesKnown(l: Ledger, h: seq<Obs>, o: Obs, k: Key)
    requires k in Apply(After(h), o).keys
    requires k in After(h).keys ==> After(h).keys[k] != Apply(After(h), o).keys[k]
    ensures KnownAsSent(Entered(l, o), h + [o], Apply(After(h), o).keys[k])
  {
  }

  lemma {:induction false} KeysStayKnown(l: Ledger, h: seq<Obs>, k: Key)
    requires Legal(h) && k in After(h).keys
    ensures KnownAsSent(Booked(l, h), h, After(h).keys[k])
  {
    var init, o, e := h[..|h| - 1], h[|h| - 1], After(h).keys[k];
    assert forall i :: 0 <= i < |init| ==> init[..i] == h[..i] && init[i] == h[i];
    assert Allows(After(init), o);
    assert h == init + [o];
    if k in After(init).keys && After(init).keys[k] == e {
      KeysStayKnown(l, init, k);
      KeysAreIssued(init, k);
      StaysKnown(Booked(l, init), init, o, e);
    } else {
      BecomesKnown(Booked(l, init), init, o, k);
    }
  }

  /** The row of an application as it was asked for: in every column but those that a patch has named. */
  ghost predicate HoldsRequest(db: Db, h: seq<Obs>, req: Request, a: nat) {
    && a in db.apps && db.apps[a].serviceId == Some(req.serviceId)
    && (db.apps[a].budget == req.budget || exists i :: 0 <= i < |h| && PatchesBudget(h[i], a))
    && forall c :: c in req.fields ==>
         || (c in db.apps[a].fields && db.apps[a].fields[c] == req.fields[c])
         || exists i :: 0 <= i < |h| && PatchesColumn(h[i], a, c)
  }

  lemma KnownKeyHoldsRequest(s: State, events: seq<Event>, k: Key)
    requires Init(s) && k in After(Run(s, events).history).keys
    ensures var e := After(Run(s, events).history).keys[k];
            HoldsRequest(Run(s, events).db, Run(s, events).history, e.req, e.app)
  {
    EveryRunRefines(s, events);
    RowsAreWhatWasSent(s, events);
    KeysStayKnown(Opened(s.db), Run(s, events).history, k);
  }

  /** A submission that was told an application, new or replayed, was told the one it asked for: its
      row is there until it is deleted, and holds the request in every column that no patch names. */
  lemma SuccessHoldsRequest(s: State, events: seq<Event>, i: nat, k: Key, req: Request, id: nat)
    requires Init(s) && i < |Run(s, events).history| && Succeeds(Run(s, events).history[i], k, req, id)
    requires forall m :: i < m < |Run(s, events).history| ==> !DeletesId(Run(s, events).history[m], id)
    ensures HoldsRequest(Run(s, events).db, Run(s, events).history, req, id)
  {
    var h := Run(s, events).history;
    EveryRunRefines(s, events);
    SuccessIsKnown(h, i, k, req, id);
    KeyStays(h, i + 1, |h|, k, Entry(req, id));
    assert h[..|h|] == h;
    KnownKeyHoldsRequest(s, events, k);
  }
}
