/** What the submission protocol is for, read off its refinement and its steps. */
module SubmissionProperties {
  import opened Wrappers
  import opened SubmissionModel
  import opened SubmissionInvariant
  import opened SubmissionRefinement

  // --- Whole histories --------------------------------------------------

  predicate Succeeds(o: Obs, k: Key, req: Request, id: nat) {
    o.job == Submit(Some(k), req) && (o.outcome == Replayed(id) || (o.outcome.Created? && o.outcome.id == id))
  }

  predicate DeletesId(o: Obs, id: nat) {
    o == Obs(DeleteApp(id), Removed)
  }

  /** Once known, a key keeps its request and application until that application is deleted. */
  lemma {:induction false} KeyStays(h: seq<Obs>, i: nat, j: nat, k: Key, e: Entry)
    requires Legal(h) && i <= j <= |h|
    requires k in After(h[..i]).keys && After(h[..i]).keys[k] == e
    requires forall m :: i <= m < j ==> !DeletesId(h[m], e.app)
    ensures k in After(h[..j]).keys && After(h[..j]).keys[k] == e
  {
    if i < j {
      KeyStays(h, i, j - 1, k, e);
      assert h[..j][..j - 1] == h[..j - 1];
      assert Allows(After(h[..j - 1]), h[j - 1]);
    }
  }

  lemma SuccessIsKnown(h: seq<Obs>, i: nat, k: Key, req: Request, id: nat)
    requires Legal(h) && i < |h| && Succeeds(h[i], k, req, id)
    ensures k in After(h[..i + 1]).keys && After(h[..i + 1]).keys[k] == Entry(req, id)
  {
    assert h[..i + 1][..i] == h[..i];
    assert Allows(After(h[..i]), h[i]);
  }

  /** Exactly once: after a key has succeeded, and until that application is deleted, every
      completed submission with the key answers with the same application and no token if the
      request is the same, and with 409 if it is not. */
  lemma KeyDecides(h: seq<Obs>, i: nat, j: nat, k: Key, req: Request, id: nat)
    requires Legal(h) && i < j < |h|
    requires Succeeds(h[i], k, req, id)
    requires forall m :: i < m < j ==> !DeletesId(h[m], id)
    requires h[j].job.Submit? && h[j].job.key == Some(k) && h[j].outcome != Aborted
    ensures h[j].outcome == if h[j].job.req == req then Replayed(id) else KeyReused
  {
    SuccessIsKnown(h, i, k, req, id);
    KeyStays(h, i + 1, j, k, Entry(req, id));
    assert Allows(After(h[..j]), h[j]);
  }

  lemma {:induction false} IssuedGrows(h: seq<Obs>, i: nat, j: nat)
    requires i <= j <= |h|
    ensures After(h[..i]).issued <= After(h[..j]).issued && After(h[..i]).minted <= After(h[..j]).minted
  {
    if i < j {
      IssuedGrows(h, i, j - 1);
      assert h[..j][..j - 1] == h[..j - 1];
    }
  }

  /** No application id and no capability token is ever handed out twice, whatever is deleted. */
  lemma CreatedOnce(h: seq<Obs>, i: nat, j: nat)
    requires Legal(h) && i < j < |h|
    requires h[i].job.Submit? && h[i].outcome.Created? && h[j].job.Submit? && h[j].outcome.Created?
    ensures h[i].outcome.id != h[j].outcome.id && h[i].outcome.token != h[j].outcome.token
  {
    IssuedGrows(h, i + 1, j);
    assert h[..i + 1][..i] == h[..i];
    assert Allows(After(h[..j]), h[j]);
  }

  /** A capability that is spent, or gone with its application, never becomes valid again. */
  predicate SpentForGood(a: Atomic, id: nat) {
    id in a.issued && (id in a.tickets ==> a.tickets[id].used)
  }

  lemma {:induction false} TicketsAreIssued(h: seq<Obs>, n: nat)
    requires n <= |h|
    ensures After(h[..n]).tickets.Keys <= After(h[..n]).issued
  {
    if n > 0 {
      TicketsAreIssued(h, n - 1);
      assert h[..n][..n - 1] == h[..n - 1];
    }
  }

  lemma {:induction false} SpentStays(h: seq<Obs>, i: nat, j: nat, id: nat)
    requires Legal(h) && i <= j <= |h| && SpentForGood(After(h[..i]), id)
    ensures SpentForGood(After(h[..j]), id)
  {
    if i < j {
      SpentStays(h, i, j - 1, id);
      assert h[..j][..j - 1] == h[..j - 1];
      assert Allows(After(h[..j - 1]), h[j - 1]);
    }
  }

  /** At most one public metric submission per application ever succeeds, even if an admin deletes
      the metric (or the application) in between. */
  lemma MetricOnce(h: seq<Obs>, i: nat, j: nat, a: nat)
    requires Legal(h) && i < j < |h|
    requires h[i].job.SendMetric? && h[i].job.app == a && h[i].outcome == Accepted
    requires h[j].job.SendMetric? && h[j].job.app == a
    ensures h[j].outcome != Accepted
  {
    assert Allows(After(h[..i]), h[i]);
    assert h[..i + 1][..i] == h[..i];
    TicketsAreIssued(h, i);
    SpentStays(h, i + 1, j, a);
    assert Allows(After(h[..j]), h[j]);
  }

  // --- Single commits ---------------------------------------------------

  /** The service row is there, active, with a non-blank name that is the stored product name, and its
      bounds contain the budget; the application has one unused capability and no metric. */
  ghost predicate SoundCreation(db: Db, a: nat) {
    && a in db.apps && db.apps[a].serviceId.Some? && db.apps[a].serviceId.value in db.services
    && var svc := db.services[db.apps[a].serviceId.value];
    && svc.active && Available(svc)
    && db.apps[a].product == svc.name
    && svc.budgetMin <= db.apps[a].budget <= svc.budgetMax
    && a in db.caps && !db.caps[a].used && a !in db.metrics
  }

  /** The row holds what was sent. */
  predicate StoredAsSent(row: Application, req: Request) {
    row.serviceId == Some(req.serviceId) && row.budget == req.budget && row.fields == req.fields
  }

  /** The submission is told the application and its token, and its claim, if it sent a key, points at it. */
  ghost predicate ToldOf(x: Tx, y: Tx, db: Db, a: nat) {
    && x.job.Submit? && a in db.caps && y == Tx(x.job, Done(Created(a, db.caps[a].token)))
    && (x.job.key.Some? ==> x.job.key.value in db.claims && db.claims[x.job.key.value] == Claim(x.job.req, Some(a)))
  }

  lemma RequestsAddNothing(s: State, t: TxId)
    requires t in s.txs && (s.txs[t].job.SendMetric? || s.txs[t].job.DeleteApp? || s.txs[t].job.DeleteMetric?)
    ensures AdvanceTx(s, t).db.apps.Keys <= s.db.apps.Keys
  {
  }

  lemma EditsAddNothing(s: State, t: TxId)
    requires t in s.txs && (s.txs[t].job.PatchApp? || s.txs[t].job.PatchService? || s.txs[t].job.DeleteService?)
    ensures AdvanceTx(s, t).db.apps.Keys <= s.db.apps.Keys
  {
  }

  lemma OnlyCreationsAdd(s: State, e: Event, a: nat)
    requires Inv(s) && a in Step(s, e).db.apps && a !in s.db.apps
    ensures e.t in s.txs && s.txs[e.t].job.Submit? && s.txs[e.t].phase.Minted? && s.txs[e.t].phase.id == a
  {
    if e.Advance? && e.t in s.txs && !s.txs[e.t].job.Submit? {
      if s.txs[e.t].job.PatchApp? || s.txs[e.t].job.PatchService? || s.txs[e.t].job.DeleteService? {
        EditsAddNothing(s, e.t);
      } else {
        RequestsAddNothing(s, e.t);
      }
    }
  }

  lemma CreationIsSound(s: State, key: Option<Key>, req: Request, svc: Service, a: nat, token: Token)
    requires DbOk(s) && SubmitOk(s, key, req, Minted(svc, a, token))
    ensures SoundCreation(CommittedCreate(s.db, key, req, svc, a, token), a)
    ensures StoredAsSent(CommittedCreate(s.db, key, req, svc, a, token).apps[a], req)
  {
  }

  /** Every commit that adds an application is a sound creation and stores what was sent. */
  lemma CreationCommit(s: State, e: Event, a: nat)
    requires Inv(s)
    requires a in Step(s, e).db.apps && a !in s.db.apps
    ensures SoundCreation(Step(s, e).db, a)
    ensures e.t in s.txs && e.t in Step(s, e).txs && ToldOf(s.txs[e.t], Step(s, e).txs[e.t], Step(s, e).db, a)
    ensures s.txs[e.t].job.Submit? && StoredAsSent(Step(s, e).db.apps[a], s.txs[e.t].job.req)
  {
    OnlyCreationsAdd(s, e, a);
    var x := s.txs[e.t];
    assert TxOk(s, x);
    CreationIsSound(s, x.job.key, x.job.req, x.phase.svc, a, x.phase.mint);
  }

  /** The capability went from unused to used, and its metric was stored, in one commit. */
  predicate SpentWith(before: Db, after: Db, a: nat) {
    && a in before.caps && a in after.caps
    && after.caps[a] == before.caps[a].(used := true) && !before.caps[a].used
    && a !in before.metrics && a in after.metrics
  }

  lemma SubmissionSpendsNothing(s: State, t: TxId, a: nat)
    requires Inv(s) && t in s.txs && s.txs[t].job.Submit? && a in s.db.caps
    ensures a in AdvanceTx(s, t).db.caps && AdvanceTx(s, t).db.caps[a] == s.db.caps[a]
  {
    assert TxOk(s, s.txs[t]);
  }

  lemma AdministrationSpendsNothing(s: State, t: TxId, a: nat)
    requires t in s.txs && !s.txs[t].job.Submit? && !s.txs[t].job.SendMetric?
    requires a in s.db.caps && a in AdvanceTx(s, t).db.caps
    ensures AdvanceTx(s, t).db.caps[a] == s.db.caps[a]
  {
  }

  lemma OnlyMetricsSpend(s: State, e: Event, a: nat)
    requires Inv(s) && a in s.db.caps && a in Step(s, e).db.caps && Step(s, e).db.caps[a] != s.db.caps[a]
    ensures e.t in s.txs && s.txs[e.t].job.SendMetric? && s.txs[e.t].job.app == a && s.txs[e.t].phase.Reported?
  {
    if e.Advance? && e.t in s.txs {
      if s.txs[e.t].job.Submit? {
        SubmissionSpendsNothing(s, e.t, a);
      } else if !s.txs[e.t].job.SendMetric? {
        AdministrationSpendsNothing(s, e.t, a);
      }
    }
  }

  /** A capability is marked used only in a commit that also stores the metric it paid for, and it
      never changes otherwise. */
  lemma SpentWithMetric(s: State, e: Event, a: nat)
    requires Inv(s) && a in s.db.caps && a in Step(s, e).db.caps && Step(s, e).db.caps[a] != s.db.caps[a]
    ensures SpentWith(s.db, Step(s, e).db, a)
    ensures e.t in Step(s, e).txs && Step(s, e).txs[e.t].phase == Done(Accepted)
  {
    OnlyMetricsSpend(s, e, a);
    assert TxOk(s, s.txs[e.t]);
  }

  // --- Runs without deletes ---------------------------------------------

  /** Failed attempts leave no claim: a known key was put there by a creation with its request. */
  lemma {:induction false} KnownKeyWasCreated(h: seq<Obs>, n: nat, k: Key) returns (i: nat)
    requires Legal(h) && n <= |h| && k in After(h[..n]).keys
    ensures i < n && h[i].outcome.Created?
    ensures h[i].job == Submit(Some(k), After(h[..n]).keys[k].req) && h[i].outcome.id == After(h[..n]).keys[k].app
  {
    assert h[..n][..n - 1] == h[..n - 1];
    if k in After(h[..n - 1]).keys && After(h[..n - 1]).keys[k] == After(h[..n]).keys[k] {
      i := KnownKeyWasCreated(h, n - 1, k);
    } else {
      i := n - 1;
    }
  }

  ghost predicate NoDeletes(h: seq<Obs>) {
    forall i :: 0 <= i < |h| ==> !(h[i].job.DeleteApp? && h[i].outcome == Removed)
  }

  lemma {:induction false} NothingDropped(h: seq<Obs>, n: nat)
    requires NoDeletes(h) && n <= |h|
    ensures After(h[..n]).dropped == {}
  {
    if n > 0 {
      NothingDropped(h, n - 1);
      assert h[..n][..n - 1] == h[..n - 1];
    }
  }

  /** In a run without deletes in which a key is only ever sent with one request, no submission of it
      is told 409, and once one has succeeded every completed one is given the same application. */
  lemma DeleteFreeRun(s: State, events: seq<Event>, k: Key, req: Request, j: nat)
    requires Init(s)
    requires var h := Run(s, events).history;
             && NoDeletes(h) && j < |h| && h[j].job == Submit(Some(k), req)
             && (forall i :: 0 <= i < |h| && h[i].job.Submit? && h[i].job.key == Some(k) ==> h[i].job.req == req)
    ensures var h := Run(s, events).history;
            && h[j].outcome != KeyReused && h[j].outcome != Retry && h[j].outcome != Vanished
            && (forall i, id :: 0 <= i < j && Succeeds(h[i], k, req, id) && h[j].outcome != Aborted ==>
                  h[j].outcome == Replayed(id))
  {
    var h := Run(s, events).history;
    EveryRunRefines(s, events);
    NothingDropped(h, j);
    assert Allows(After(h[..j]), h[j]);
    if h[j].outcome == KeyReused {
      var i := KnownKeyWasCreated(h, j, k);
      assert false;
    }
    forall i, id | 0 <= i < j && Succeeds(h[i], k, req, id) && h[j].outcome != Aborted
      ensures h[j].outcome == Replayed(id)
    {
      KeyDecides(h, i, j, k, req, id);
    }
  }
}
