/**
 A service's budget bounds under concurrent patches: each PATCH checks the state it merged from an
 unlocked read, and later writes only the columns that differ from that read.
 */
module ServiceBounds {
  import opened Wrappers
  import opened SubmissionModel

  predicate Ordered(svc: Service) {
    svc.budgetMin <= svc.budgetMax
  }

  predicate AllOrdered(db: Db) {
    forall id :: id in db.services ==> Ordered(db.services[id])
  }

  /** Writing only the columns that differ from the row that was read is applying the patch to it. */
  lemma DeltaIsPatch(svc: Service, p: ServicePatch)
    ensures ApplyServicePatch(svc, Delta(svc, p)) == ApplyServicePatch(svc, p)
    ensures Delta(svc, p) == NO_CHANGE ==> ApplyServicePatch(svc, p) == svc
  {
  }

  // --- One write --------------------------------------------------------

  /** Both bounds are written, or neither. */
  predicate Balanced(delta: ServicePatch) {
    delta.budgetMin.Some? == delta.budgetMax.Some?
  }

  /** The write leaves the bounds in order whatever the row has become since it was read. */
  ghost predicate SafeWrite(delta: ServicePatch) {
    forall now :: Ordered(now) ==> Ordered(ApplyServicePatch(now, delta))
  }

  /** A patch that passed the check against the row it read writes safely exactly if it writes both
      bounds or neither. */
  lemma SafeExactlyWhenBalanced(svc: Service, p: ServicePatch)
    requires Ordered(svc) && Ordered(ApplyServicePatch(svc, p))
    ensures SafeWrite(Delta(svc, p)) <==> Balanced(Delta(svc, p))
  {
    var d := Delta(svc, p);
    if d.budgetMin.Some? && d.budgetMax.None? {
      var now := svc.(budgetMin := d.budgetMin.value - 1, budgetMax := d.budgetMin.value - 1);
      assert Ordered(now) && !Ordered(ApplyServicePatch(now, d));
    }
    if d.budgetMin.None? && d.budgetMax.Some? {
      var now := svc.(budgetMin := d.budgetMax.value + 1, budgetMax := d.budgetMax.value + 1);
      assert Ordered(now) && !Ordered(ApplyServicePatch(now, d));
    }
  }

  predicate NamesNoBound(p: ServicePatch) {
    p.budgetMin.None? && p.budgetMax.None?
  }

  /** The patch's own bounds are out of order: it is refused whatever row it reads. */
  predicate AlwaysRefused(p: ServicePatch) {
    p.budgetMin.Some? && p.budgetMax.Some? && p.budgetMin.value > p.budgetMax.value
  }

  /** Before the row is even read: a patch is safe whatever it reads and whatever happens meanwhile
      exactly if it names no bound or can only be refused. Naming both is not enough, for a bound that
      happens to equal the row's own is not written. */
  lemma SafeExactlyWhenUnbounded(p: ServicePatch)
    ensures (forall svc :: Ordered(svc) && Ordered(ApplyServicePatch(svc, p)) ==> SafeWrite(Delta(svc, p)))
       <==> NamesNoBound(p) || AlwaysRefused(p)
  {
    if NamesNoBound(p) {
      forall svc | Ordered(svc) && Ordered(ApplyServicePatch(svc, p)) ensures SafeWrite(Delta(svc, p)) {
        SafeExactlyWhenBalanced(svc, p);
      }
    } else if !AlwaysRefused(p) {
      var low := if p.budgetMin.Some? then p.budgetMin.value else p.budgetMax.value;
      var high := if p.budgetMax.Some? then p.budgetMax.value else p.budgetMin.value;
      var svc := if p.budgetMax.Some? then Service("", low, high + 1, true) else Service("", low - 1, high, true);
      assert Ordered(svc) && Ordered(ApplyServicePatch(svc, p));
      SafeExactlyWhenBalanced(svc, p);
    }
  }

  // --- Runs -------------------------------------------------------------

  /** What a patch is about to write. */
  predicate Writing(x: Tx) {
    x.job.PatchService? && (x.phase.Merged? || x.phase.ServiceLocked?)
  }

  /** What is about to be written is safe to write. */
  ghost predicate WritesSafely(s: State) {
    forall t {:trigger Writing(s.txs[t])} :: t in s.txs && Writing(s.txs[t]) ==> SafeWrite(s.txs[t].phase.delta)
  }

  predicate WritesBalanced(s: State) {
    forall t {:trigger Writing(s.txs[t])} :: t in s.txs && Writing(s.txs[t]) ==> Balanced(s.txs[t].phase.delta)
  }

  lemma RequestsLeaveServices(s: State, t: TxId)
    requires t in s.txs && (s.txs[t].job.Submit? || s.txs[t].job.SendMetric? || s.txs[t].job.DeleteApp?)
    ensures AdvanceTx(s, t).db.services == s.db.services
  {
  }

  lemma EditsLeaveServices(s: State, t: TxId)
    requires t in s.txs && (s.txs[t].job.PatchApp? || s.txs[t].job.DeleteMetric?)
    ensures AdvanceTx(s, t).db.services == s.db.services
  {
  }

  lemma PatchKeepsOrder(s: State, t: TxId)
    requires AllOrdered(s.db) && WritesSafely(s) && t in s.txs && s.txs[t].job.PatchService?
    ensures AllOrdered(AdvanceTx(s, t).db)
  {
    var x := s.txs[t];
    if x.phase.ServiceLocked? && x.job.service in s.db.services {
      assert Writing(x);
      assert Ordered(ApplyServicePatch(s.db.services[x.job.service], x.phase.delta));
    }
  }

  /** Only patches move bounds, and a patch writes what it said it would. */
  lemma ServicesAfter(s: State, e: Event)
    requires AllOrdered(s.db) && WritesSafely(s)
    ensures AllOrdered(Step(s, e).db)
  {
    if e.Advance? && e.t in s.txs {
      match s.txs[e.t].job
      case PatchService(_, _) => PatchKeepsOrder(s, e.t);
      case DeleteService(id) => assert AdvanceTx(s, e.t).db.services.Keys <= s.db.services.Keys;
      case PatchApp(_, _) => EditsLeaveServices(s, e.t);
      case DeleteMetric(_) => EditsLeaveServices(s, e.t);
      case _ => RequestsLeaveServices(s, e.t);
    }
  }

  /** Only this transaction moves, and it keeps its job. */
  predicate Moves(s: State, s2: State, t: TxId)
    requires t in s.txs
  {
    t in s2.txs && s2.txs[t].job == s.txs[t].job && s2.txs == s.txs[t := s2.txs[t]]
  }

  lemma StaysMoves(s: State, t: TxId)
    requires t in s.txs
    ensures Moves(s, s, t)
  {
    assert s.txs[t := s.txs[t]] == s.txs;
  }

  lemma CheckMoves(s: State, t: TxId, req: Request)
    requires t in s.txs
    ensures Moves(s, CheckService(s, t, req), t)
  {
    StaysMoves(s, t);
  }

  lemma OtherSubmitMoves(s: State, t: TxId)
    requires t in s.txs && s.txs[t].job.Submit? && !s.txs[t].phase.Claimed?
    ensures Moves(s, AdvanceTx(s, t), t)
  {
    StaysMoves(s, t);
  }

  lemma SubmissionMoves(s: State, t: TxId)
    requires t in s.txs && s.txs[t].job.Submit?
    ensures Moves(s, AdvanceTx(s, t), t)
  {
    if s.txs[t].phase.Claimed? {
      CheckMoves(s, t, s.txs[t].job.req);
      assert AdvanceTx(s, t) == CheckService(s, t, s.txs[t].job.req);
    } else {
      OtherSubmitMoves(s, t);
    }
  }

  lemma RequestMoves(s: State, t: TxId)
    requires t in s.txs && (s.txs[t].job.SendMetric? || s.txs[t].job.DeleteApp? || s.txs[t].job.DeleteMetric?)
    ensures Moves(s, AdvanceTx(s, t), t)
  {
    StaysMoves(s, t);
  }

  lemma EditMoves(s: State, t: TxId)
    requires t in s.txs && (s.txs[t].job.PatchApp? || s.txs[t].job.PatchService? || s.txs[t].job.DeleteService?)
    ensures Moves(s, AdvanceTx(s, t), t)
  {
    StaysMoves(s, t);
  }

  lemma AdvanceFrame(s: State, t: TxId)
    requires t in s.txs
    ensures Moves(s, AdvanceTx(s, t), t)
  {
    if s.txs[t].job.Submit? {
      SubmissionMoves(s, t);
    } else if s.txs[t].job.SendMetric? || s.txs[t].job.DeleteApp? || s.txs[t].job.DeleteMetric? {
      RequestMoves(s, t);
    } else {
      EditMoves(s, t);
    }
  }

  /** A transaction about to write was about to write the same before, or has just read the row and
      passed the check. */
  lemma WriteHasRead(s: State, t: TxId)
    requires t in s.txs && s.txs[t].job.PatchService? && Writing(AdvanceTx(s, t).txs[t])
    ensures var x, y := s.txs[t], AdvanceTx(s, t).txs[t];
            if Writing(x) then y.phase.delta == x.phase.delta
            else x.job.service in s.db.services
                 && var svc := s.db.services[x.job.service];
                    y.phase.delta == Delta(svc, x.job.patch) && Ordered(ApplyServicePatch(svc, x.job.patch))
  {
  }

  /** A transaction that begins to write was checked against an ordered row. */
  lemma NewWriteIsChecked(s: State, t: TxId)
    requires AllOrdered(s.db) && WritesSafely(s) && t in s.txs && Writing(AdvanceTx(s, t).txs[t])
    requires Balanced(AdvanceTx(s, t).txs[t].phase.delta)
    ensures SafeWrite(AdvanceTx(s, t).txs[t].phase.delta)
  {
    var x := s.txs[t];
    AdvanceFrame(s, t);
    WriteHasRead(s, t);
    if !Writing(x) {
      SafeExactlyWhenBalanced(s.db.services[x.job.service], x.job.patch);
    }
  }

  lemma StepWritesSafely(s: State, e: Event)
    requires AllOrdered(s.db) && WritesSafely(s) && WritesBalanced(Step(s, e))
    ensures WritesSafely(Step(s, e))
  {
    var s2 := Step(s, e);
    if e.Advance? && e.t in s.txs {
      AdvanceFrame(s, e.t);
      forall t | t in s2.txs && Writing(s2.txs[t]) ensures SafeWrite(s2.txs[t].phase.delta) {
        if t == e.t {
          NewWriteIsChecked(s, t);
        } else {
          assert Writing(s.txs[t]);
        }
      }
    } else {
      forall t | t in s2.txs && Writing(s2.txs[t]) ensures SafeWrite(s2.txs[t].phase.delta) {
        assert t in s.txs && Writing(s.txs[t]);
      }
    }
  }

  ghost predicate AllBalanced(s: State, events: seq<Event>) {
    forall n :: 0 <= n <= |events| ==> WritesBalanced(Run(s, events[..n]))
  }

  /** In every run in which no patch is about to write one bound without the other, all bounds stay in
      order. */
  lemma {:induction false} BalancedRunsStayOrdered(s: State, events: seq<Event>)
    requires AllOrdered(s.db) && s.txs == map[] && AllBalanced(s, events)
    ensures AllOrdered(Run(s, events).db) && WritesSafely(Run(s, events))
    decreases |events|
  {
    if events != [] {
      var init, e := events[..|events| - 1], events[|events| - 1];
      forall n | 0 <= n <= |init| ensures WritesBalanced(Run(s, init[..n])) {
        assert init[..n] == events[..n];
      }
      BalancedRunsStayOrdered(s, init);
      ServicesAfter(Run(s, init), e);
      assert events[..|events|] == events;
      StepWritesSafely(Run(s, init), e);
    }
  }

  // --- A run that crosses the bounds ------------------------------------

  const SMALL := ServicePatch(None, None, Some(5), None)
  const LARGE := ServicePatch(None, Some(8), None, None)

  /** One service with bounds 0..10, nothing else. */
  const QUIET := State(Db(map[1 := Service("s", 0, 10, true)], map[], map[], map[], map[]), map[], 0, 0, 0, [])

  /** Both patches read before either writes. */
  const CROSSING := [Start(1, PatchService(1, SMALL)), Start(2, PatchService(1, LARGE)), Advance(1), Advance(2),
                     Advance(1), Advance(1), Advance(2), Advance(2)]

  /** Two patches that are each in order against the row they read cross the bounds together. */
  lemma ConcurrentPatchesCross()
    ensures Init(QUIET) && AllOrdered(QUIET.db)
    ensures Run(QUIET, CROSSING).db.services == map[1 := Service("s", 8, 5, true)]
    ensures !AllOrdered(Run(QUIET, CROSSING).db)
  {
    var prefix := [Start(1, PatchService(1, SMALL)), Start(2, PatchService(1, LARGE)), Advance(1), Advance(2)];
    BothRead();
    RunMore(QUIET, prefix, Advance(1));
    RunMore(QUIET, prefix + [Advance(1)], Advance(1));
    RunMore(QUIET, prefix + [Advance(1)] + [Advance(1)], Advance(2));
    RunMore(QUIET, prefix + [Advance(1)] + [Advance(1)] + [Advance(2)], Advance(2));
    assert CROSSING == prefix + [Advance(1)] + [Advance(1)] + [Advance(2)] + [Advance(2)];
    BothWrite(Run(QUIET, prefix));
  }

  lemma RunMore(s: State, events: seq<Event>, e: Event)
    ensures Run(s, events + [e]) == Step(Run(s, events), e)
  {
    assert (events + [e])[..|events|] == events;
  }

  /** Where the two stand after their reads. */
  ghost predicate ReadBoth(s: State) {
    && s.db == QUIET.db
    && s.txs == map[1 := Tx(PatchService(1, SMALL), Merged(SMALL)), 2 := Tx(PatchService(1, LARGE), Merged(LARGE))]
  }

  lemma BothRead()
    ensures ReadBoth(Run(QUIET,
            [Start(1, PatchService(1, SMALL)), Start(2, PatchService(1, LARGE)), Advance(1), Advance(2)]))
  {
    var start1, start2 := Start(1, PatchService(1, SMALL)), Start(2, PatchService(1, LARGE));
    RunMore(QUIET, [], start1);
    RunMore(QUIET, [start1], start2);
    RunMore(QUIET, [start1, start2], Advance(1));
    RunMore(QUIET, [start1, start2, Advance(1)], Advance(2));
    assert [] + [start1] == [start1] && [start1] + [start2] == [start1, start2];
    assert [start1, start2] + [Advance(1)] == [start1, start2, Advance(1)];
    assert [start1, start2, Advance(1)] + [Advance(2)] == [start1, start2, Advance(1), Advance(2)];
    TwoReads();
  }

  lemma TwoReads()
    ensures var s := Step(Step(QUIET, Start(1, PatchService(1, SMALL))), Start(2, PatchService(1, LARGE)));
            ReadBoth(Step(Step(s, Advance(1)), Advance(2)))
  {
    var s2 := Step(Step(QUIET, Start(1, PatchService(1, SMALL))), Start(2, PatchService(1, LARGE)));
    assert s2.txs == map[1 := Tx(PatchService(1, SMALL), Begin), 2 := Tx(PatchService(1, LARGE), Begin)];
    assert Delta(QUIET.db.services[1], SMALL) == SMALL && Delta(QUIET.db.services[1], LARGE) == LARGE;
    var s3 := Step(s2, Advance(1));
    assert s3.txs[1] == Tx(PatchService(1, SMALL), Merged(SMALL)) && s3.db == QUIET.db;
  }

  lemma BothWrite(s: State)
    requires ReadBoth(s)
    ensures Step(Step(Step(Step(s, Advance(1)), Advance(1)), Advance(2)), Advance(2)).db.services
         == map[1 := Service("s", 8, 5, true)]
  {
    var s1 := Step(s, Advance(1));
    assert s1.txs[1].phase == ServiceLocked(SMALL);
    var s2 := Step(s1, Advance(1));
    assert s2.db.services == map[1 := Service("s", 0, 5, true)];
    var s3 := Step(s2, Advance(2));
    assert s3.txs[2].phase == ServiceLocked(LARGE);
  }

  /** The step at which it happens: with the patch about to write, all states with ordered bounds stay
      ordered if and only if the patch writes both bounds or neither. */
  lemma StepSafeExactlyWhenBalanced(t: TxId, id: int, p: ServicePatch, svc: Service)
    requires Ordered(svc) && Ordered(ApplyServicePatch(svc, p))
    ensures (forall s :: AboutToWrite(s, t, id, p, svc) && AllOrdered(s.db) ==> AllOrdered(Step(s, Advance(t)).db))
       <==> Balanced(Delta(svc, p))
  {
    var d := Delta(svc, p);
    SafeExactlyWhenBalanced(svc, p);
    if Balanced(d) {
      forall s | AboutToWrite(s, t, id, p, svc) && AllOrdered(s.db) ensures AllOrdered(Step(s, Advance(t)).db) {
        assert Ordered(ApplyServicePatch(s.db.services[id], d));
      }
    } else {
      var now :| Ordered(now) && !Ordered(ApplyServicePatch(now, d));
      var s := QUIET.(db := QUIET.db.(services := map[id := now]),
                      txs := map[t := Tx(PatchService(id, p), ServiceLocked(d))]);
      assert AboutToWrite(s, t, id, p, svc) && AllOrdered(s.db);
      assert Step(s, Advance(t)).db.services[id] == ApplyServicePatch(now, d);
    }
  }

  /** The patch holds the row lock; the row may have changed since it was read as `svc`. */
  ghost predicate AboutToWrite(s: State, t: TxId, id: int, p: ServicePatch, svc: Service) {
    t in s.txs && s.txs[t] == Tx(PatchService(id, p), ServiceLocked(Delta(svc, p))) && id in s.db.services
  }

  /** A patch that finds the row as it read it leaves all bounds in order, whatever it writes. */
  lemma UnchangedRowStaysOrdered(s: State, t: TxId, id: int, p: ServicePatch, svc: Service)
    requires AboutToWrite(s, t, id, p, svc) && s.db.services[id] == svc
    requires Ordered(ApplyServicePatch(svc, p)) && AllOrdered(s.db)
    ensures AllOrdered(Step(s, Advance(t)).db)
  {
    DeltaIsPatch(svc, p);
  }
}
