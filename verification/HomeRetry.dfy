/**
 The public form end to end: the browser's keep-or-clear rule for its Idempotency-Key against
 the atomic object that the submission protocol refines, with requests and responses that may be
 delayed or lost. One page mount, any number of submits.
 */
module HomeRetry {
  import opened Wrappers
  import opened SubmissionModel
  import opened SubmissionRefinement

  /** What the page learns from one attempt. */
  datatype Reply =
    | Success          // 201
    | Rejected         // 422 or 409
    | Ambiguous        // network error, time-out, 5xx, any other status

  function ReplyOf(o: Outcome): Reply {
    match o
    case Created(_, _) => Success
    case Replayed(_) => Success
    case Aborted => Ambiguous
    case _ => Rejected
  }

  /** When a failed attempt clears the key. */
  datatype Policy = Policy(onRejected: bool, onAmbiguous: bool)

  /** What home.ts does: a 422/409 clears, anything else keeps. */
  const HOME := Policy(true, false)

  // --- The page ---------------------------------------------------------

  datatype Page = Page(service: Option<int>, key: Option<Key>, busy: bool, sent: bool)

  predicate CanSubmit(p: Page) {
    p.service.Some? && !p.busy && !p.sent
  }

  function StartPage(p: Page, active: bool, newKey: Key): Page {
    if !active then p.(service := None) else p.(busy := true, key := if p.key.Some? then p.key else Some(newKey))
  }

  function SettlePage(p: Page, policy: Policy, r: Reply): Page {
    match r
    case Success => p.(sent := true)
    case Rejected => p.(busy := false, key := if policy.onRejected then None else p.key)
    case Ambiguous => p.(busy := false, key := if policy.onAmbiguous then None else p.key)
  }

  /** HomeState and the two halves of handleSubmit around its await. */
  class HomeState {
    var selectedService: Option<int>
    var idempotencyKey: Option<Key>
    var createdApplicationId: Option<nat>
    var submitDisabled: bool
    var formHidden: bool

    function View(): Page
      reads this
    {
      Page(selectedService, idempotencyKey, submitDisabled, formHidden)
    }

    constructor ()
      ensures View() == Page(None, None, false, false) && createdApplicationId == None
    {
      selectedService, idempotencyKey, createdApplicationId := None, None, None;
      submitDisabled, formHidden := false, false;
    }

    /** Up to the POST: `active` is the re-check of the selected service. */
    method BeginAttempt(active: bool, newKey: Key) returns (key: Option<Key>)
      requires CanSubmit(View())
      modifies this
      ensures View() == StartPage(old(View()), active, newKey)
      ensures createdApplicationId == old(createdApplicationId)
      ensures key == if active then View().key else None
      ensures active ==> key.Some? && (key == old(idempotencyKey) || (old(idempotencyKey).None? && key == Some(newKey)))
      ensures active ==> submitDisabled && selectedService == old(selectedService) && idempotencyKey == key
      ensures !active ==> selectedService.None? && !submitDisabled && idempotencyKey == old(idempotencyKey)
    {
      submitDisabled := true;
      if !active {
        submitDisabled := false;
        selectedService := None;
        return None;
      }
      if idempotencyKey.None? {
        idempotencyKey := Some(newKey);
      }
      key := idempotencyKey;
    }

    method OnCreated(id: nat)
      modifies this
      ensures View() == SettlePage(old(View()), HOME, Success)
      ensures createdApplicationId == Some(id) && !CanSubmit(View())
    {
      createdApplicationId := Some(id);
      formHidden := true;
    }

    /** `status` is the HTTP status of an ApiError, None for anything else that was thrown. */
    method OnError(status: Option<int>)
      modifies this
      ensures View() == SettlePage(old(View()), HOME,
                                   if status == Some(422) || status == Some(409) then Rejected else Ambiguous)
      ensures createdApplicationId == old(createdApplicationId)
    {
      submitDisabled := false;
      if status.Some? && (status.value == 422 || status.value == 409) {
        idempotencyKey := None;
      }
    }
  }

  // --- Page, network and server -----------------------------------------

  datatype Attempt = Attempt(key: Key, req: Request)

  /** `sending` are attempts the server has not dealt with; `replies` its answers; `waiting` the
      attempt the page still listens for; `mine` the applications created by this page. */
  datatype World = World(
    page: Page, req: Request, server: Atomic, next: nat,
    sending: map<nat, Attempt>, replies: map<nat, Outcome>, waiting: Option<nat>, mine: set<nat>)

  datatype Event =
    | Press(newKey: Key)                   // the visitor presses the button, the service is active
    | Serve(n: nat, outcome: Outcome)       // the server answers attempt n
    | Deliver                               // the awaited answer reaches the page
    | Lose                                  // the page gives up waiting
    | Edit(req: Request)                    // the visitor changes the form
    | Others(o: Obs)                        // some other client or administrator

  function AttemptObs(a: Attempt, outcome: Outcome): Obs {
    Obs(Submit(Some(a.key), a.req), outcome)
  }

  predicate KeyInUse(w: World, k: Key) {
    w.page.key == Some(k) || k in w.server.keys || k in w.server.dropped
    || exists n :: n in w.sending && w.sending[n].key == k
  }

  /** Which events can happen. Generated keys are new; other clients use other keys and nobody
      deletes applications. */
  predicate Enabled(w: World, e: Event) {
    match e
    case Press(newKey) => CanSubmit(w.page) && w.waiting.None? && !KeyInUse(w, newKey)
    case Serve(n, outcome) => n in w.sending && Allows(w.server, AttemptObs(w.sending[n], outcome))
    case Deliver => w.waiting.Some? && w.waiting.value in w.replies
    case Lose => w.waiting.Some?
    case Edit(_) => !w.page.sent
    case Others(o) =>
      && Allows(w.server, o) && !(o.job.DeleteApp? && o.outcome == Removed)
      && (o.job.Submit? && o.job.key.Some? ==> !KeyInUse(w, o.job.key.value) || o.job.key.value in w.server.keys)
      && (o.job.Submit? && o.job.key.Some? ==> w.page.key != o.job.key)
  }

  function Next(w: World, policy: Policy, e: Event): World
    requires Enabled(w, e)
  {
    match e
    case Press(newKey) =>
      var page := StartPage(w.page, true, newKey);
      w.(page := page, next := w.next + 1, waiting := Some(w.next),
         sending := w.sending[w.next := Attempt(page.key.value, w.req)])
    case Serve(n, outcome) =>
      w.(server := Apply(w.server, AttemptObs(w.sending[n], outcome)), sending := w.sending - {n},
         replies := w.replies[n := outcome],
         mine := if outcome.Created? then w.mine + {outcome.id} else w.mine)
    case Deliver =>
      w.(page := SettlePage(w.page, policy, ReplyOf(w.replies[w.waiting.value])), waiting := None)
    case Lose => w.(page := SettlePage(w.page, policy, Ambiguous), waiting := None)
    case Edit(req) => w.(req := req)
    case Others(o) => w.(server := Apply(w.server, o))
  }

  predicate NoneEarlier(w: World, n: nat) {
    forall m :: m in w.sending ==> m >= n
  }

  /** The attempt the page waits for is rejected only when no earlier one is still on its way. */
  predicate Settled(w: World, e: Event) {
    e.Serve? && w.waiting == Some(e.n) && ReplyOf(e.outcome) == Rejected ==> NoneEarlier(w, e.n)
  }

  predicate Unedited(events: seq<Event>) {
    forall i :: 0 <= i < |events| ==> !events[i].Edit?
  }

  ghost predicate Possible(w: World, policy: Policy, events: seq<Event>)
    decreases events
  {
    events == [] || (Enabled(w, events[0]) && Possible(Next(w, policy, events[0]), policy, events[1..]))
  }

  ghost function Run(w: World, policy: Policy, events: seq<Event>): World
    requires Possible(w, policy, events)
    decreases events
  {
    if events == [] then w else Run(Next(w, policy, events[0]), policy, events[1..])
  }

  ghost predicate AllSettled(w: World, policy: Policy, events: seq<Event>)
    requires Possible(w, policy, events)
    decreases events
  {
    events != [] ==> Settled(w, events[0]) && AllSettled(Next(w, policy, events[0]), policy, events[1..])
  }

  /** A freshly mounted page with a selected service, whatever the server holds. */
  predicate Mounted(w: World) {
    && w.page.service.Some? && w.page.key.None? && !w.page.busy && !w.page.sent
    && w.sending == map[] && w.replies == map[] && w.waiting.None? && w.mine == {}
  }

  // --- Safety -----------------------------------------------------------

  /** While the page holds key `k`: every attempt on its way carries it, and the page has created
      nothing yet unless the server knows `k`. */
  ghost predicate KeyOk(w: World, k: Key) {
    && (forall n :: n in w.sending ==> w.sending[n] == Attempt(k, w.req))
    && k !in w.server.dropped
    && (if k in w.server.keys then w.server.keys[k].req == w.req && w.mine == {w.server.keys[k].app} else w.mine == {})
  }

  ghost predicate Inv(w: World) {
    && (if w.page.key.Some? then KeyOk(w, w.page.key.value) else w.sending == map[] && w.mine == {} && w.waiting.None?)
    && (forall n :: n in w.sending || n in w.replies ==> n < w.next)
    && (w.waiting.Some? && w.waiting.value in w.replies && ReplyOf(w.replies[w.waiting.value]) == Rejected ==>
          w.sending == map[] && w.mine == {})
    && (w.waiting.Some? ==> w.waiting.value in w.sending || w.waiting.value in w.replies)
    && (w.waiting.Some? ==> w.waiting.value + 1 == w.next && w.page.service.Some?)
    && (forall n :: n in w.sending ==> n !in w.replies)
    && (w.page.sent ==> w.page.key.Some? && w.waiting.None?)
  }

  lemma NextKeeps(w: World, policy: Policy, e: Event)
    requires Inv(w) && Enabled(w, e) && Settled(w, e) && !e.Edit? && !policy.onAmbiguous
    ensures Inv(Next(w, policy, e))
  {
  }

  lemma {:induction false} RunKeeps(w: World, policy: Policy, events: seq<Event>)
    requires Inv(w) && !policy.onAmbiguous
    requires Possible(w, policy, events) && AllSettled(w, policy, events) && Unedited(events)
    ensures Inv(Run(w, policy, events))
    decreases events
  {
    if events != [] {
      NextKeeps(w, policy, events[0]);
      RunKeeps(Next(w, policy, events[0]), policy, events[1..]);
    }
  }

  /** One page mount with an unchanged form and no deletes leaves at most one application, however
      many submits there are and whichever responses are lost, unless an awaited attempt is rejected
      while an earlier one is still on its way. */
  lemma AtMostOneApplication(w: World, events: seq<Event>)
    requires Mounted(w) && Possible(w, HOME, events) && AllSettled(w, HOME, events) && Unedited(events)
    ensures |Run(w, HOME, events).mine| <= 1
  {
    RunKeeps(w, HOME, events);
  }

  // --- Why exactly this rule --------------------------------------------

  const VISIT := Request(1, 0, map[])
  const FRESH_PAGE := World(Page(Some(1), None, false, false), VISIT, NOTHING, 0, map[], map[], None, {})

  /** A policy that forgets the key after an ambiguous failure duplicates: the first response is
      lost after the commit, and the second attempt looks new to the server. */
  lemma ForgettingDuplicates(policy: Policy) returns (events: seq<Event>)
    requires policy.onAmbiguous
    ensures Possible(FRESH_PAGE, policy, events) && AllSettled(FRESH_PAGE, policy, events) && Unedited(events)
    ensures Run(FRESH_PAGE, policy, events).mine == {1, 2}
  {
    var e0, e1, e2, e3, e4 := Press("a"), Serve(0, Created(1, 1)), Lose, Press("b"), Serve(1, Created(2, 2));
    var w0 := FRESH_PAGE;
    var w1 := Next(w0, policy, e0);
    var w2 := Next(w1, policy, e1);
    var w3 := Next(w2, policy, e2);
    var w4 := Next(w3, policy, e3);
    var w5 := Next(w4, policy, e4);
    Chain(w4, policy, e4, []);
    Chain(w3, policy, e3, [e4]);
    Chain(w2, policy, e2, [e3, e4]);
    Chain(w1, policy, e1, [e2, e3, e4]);
    Chain(w0, policy, e0, [e1, e2, e3, e4]);
    events := [e0, e1, e2, e3, e4];
  }

  lemma Chain(w: World, policy: Policy, e: Event, rest: seq<Event>)
    requires Enabled(w, e) && Possible(Next(w, policy, e), policy, rest)
    ensures Possible(w, policy, [e] + rest)
    ensures Run(w, policy, [e] + rest) == Run(Next(w, policy, e), policy, rest)
    ensures AllSettled(w, policy, [e] + rest) == (Settled(w, e) && AllSettled(Next(w, policy, e), policy, rest))
  {
    assert ([e] + rest)[1..] == rest;
  }

  /** Keeping the key after an ambiguous failure is exactly what makes the page safe, whether or not
      a 422/409 clears it. */
  lemma SafeExactlyWhenKept(policy: Policy)
    ensures (forall w, events ::
               Mounted(w) && Possible(w, policy, events) && AllSettled(w, policy, events) && Unedited(events) ==>
                 |Run(w, policy, events).mine| <= 1)
       <==> !policy.onAmbiguous
  {
    if policy.onAmbiguous {
      var events := ForgettingDuplicates(policy);
      assert Mounted(FRESH_PAGE) && |Run(FRESH_PAGE, policy, events).mine| == 2;
    } else {
      forall w, events |
        Mounted(w) && Possible(w, policy, events) && AllSettled(w, policy, events) && Unedited(events)
        ensures |Run(w, policy, events).mine| <= 1
      {
        RunKeeps(w, policy, events);
      }
    }
  }

  /** Two attempts on their way under key "a", the later one still awaited ... */
  const OVERTAKEN := World(Page(Some(1), Some("a"), true, false), VISIT, NOTHING, 2,
                           map[0 := Attempt("a", VISIT), 1 := Attempt("a", VISIT)], map[], Some(1), {})
  /** ... and the page after the later one was told 422. */
  const GIVEN_UP := World(Page(Some(1), None, false, false), VISIT, NOTHING, 2,
                          map[0 := Attempt("a", VISIT)], map[1 := Unavailable], None, {})

  lemma LateAttemptCreates()
    ensures var late := [Serve(0, Created(1, 1)), Press("c"), Serve(2, Created(2, 2))];
            Possible(GIVEN_UP, HOME, late) && Run(GIVEN_UP, HOME, late).mine == {1, 2}
  {
    var e0, e1, e2 := Serve(0, Created(1, 1)), Press("c"), Serve(2, Created(2, 2));
    var w1 := Next(GIVEN_UP, HOME, e0);
    var w2 := Next(w1, HOME, e1);
    Chain(w2, HOME, e2, []);
    Chain(w1, HOME, e1, [e2]);
    Chain(GIVEN_UP, HOME, e0, [e1, e2]);
  }

  /** The proviso on late attempts is needed: an attempt that is dealt with after a 422 for a later
      one creates an application under a key the page has already given up. */
  lemma StaleAttemptDuplicates() returns (events: seq<Event>)
    ensures Possible(FRESH_PAGE, HOME, events) && Run(FRESH_PAGE, HOME, events).mine == {1, 2}
  {
    var late := [Serve(0, Created(1, 1)), Press("c"), Serve(2, Created(2, 2))];
    LateAttemptCreates();
    var e0, e1, e2, e3, e4 := Press("a"), Lose, Press("b"), Serve(1, Unavailable), Deliver;
    var w1 := Next(FRESH_PAGE, HOME, e0);
    var w2 := Next(w1, HOME, e1);
    assert Next(w2, HOME, e2) == OVERTAKEN;
    var w4 := Next(OVERTAKEN, HOME, e3);
    assert Next(w4, HOME, e4) == GIVEN_UP;
    Chain(w4, HOME, e4, late);
    Chain(OVERTAKEN, HOME, e3, [e4] + late);
    Chain(w2, HOME, e2, [e3] + ([e4] + late));
    Chain(w1, HOME, e1, [e2] + ([e3] + ([e4] + late)));
    Chain(FRESH_PAGE, HOME, e0, [e1] + ([e2] + ([e3] + ([e4] + late))));
    events := [e0] + ([e1] + ([e2] + ([e3] + ([e4] + late))));
  }

  // --- The exact proviso ------------------------------------------------

  predicate Above(n: nat, s: set<nat>) {
    forall x :: x in s ==> x < n
  }

  lemma {:induction false} FreshNat(s: set<nat>) returns (n: nat)
    ensures Above(n, s)
  {
    if s == {} {
      n := 0;
    } else {
      var y :| y in s;
      var rest := FreshNat(s - {y});
      n := if rest <= y then y + 1 else rest;
      forall x | x in s ensures x < n {
        assert x == y || x in s - {y};
      }
    }
  }

  /** The page can always generate a key that nobody has used: one longer than all of them. */
  lemma FreshKey(w: World) returns (k: Key)
    ensures !KeyInUse(w, k)
  {
    var sent := set n | n in w.sending :: w.sending[n].key;
    var held := if w.page.key.Some? then {w.page.key.value} else {};
    var used := w.server.keys.Keys + w.server.dropped + sent + held;
    var lengths := set u | u in used :: |u|;
    var n := FreshNat(lengths);
    k := seq(n, _ => 'k');
    forall u | u in used ensures u != k {
      assert |u| in lengths;
    }
    forall m | m in w.sending ensures w.sending[m].key != k {
      assert w.sending[m].key in sent;
    }
  }

  /** The server can always create one more application. */
  lemma FreshTicket(a: Atomic) returns (id: nat, token: Token)
    ensures id !in a.issued && token !in a.minted
  {
    id := FreshNat(a.issued);
    token := FreshNat(a.minted);
  }

  /** Some settled continuation with an unchanged form leaves two applications. */
  ghost predicate CanDuplicate(w: World) {
    exists events :: Possible(w, HOME, events) && AllSettled(w, HOME, events) && Unedited(events)
                     && |Run(w, HOME, events).mine| > 1
  }

  lemma DuplicateAfter(w: World, e: Event)
    requires Enabled(w, e) && Settled(w, e) && !e.Edit? && CanDuplicate(Next(w, HOME, e))
    ensures CanDuplicate(w)
  {
    var w1 := Next(w, HOME, e);
    var rest :| Possible(w1, HOME, rest) && AllSettled(w1, HOME, rest) && Unedited(rest)
            && |Run(w1, HOME, rest).mine| > 1;
    Chain(w, HOME, e, rest);
    assert Unedited([e] + rest);
  }

  /** The page has forgotten its key, and has an application already: the next submit makes another. */
  lemma SecondSubmitDuplicates(w: World, id: nat)
    requires CanSubmit(w.page) && w.page.key.None? && w.waiting.None? && w.mine == {id} && id in w.server.issued
    ensures CanDuplicate(w)
  {
    var k := FreshKey(w);
    var id2, token := FreshTicket(w.server);
    var w1 := Next(w, HOME, Press(k));
    assert w1.sending[w.next] == Attempt(k, w.req);
    var e := Serve(w.next, Created(id2, token));
    assert Enabled(w1, e);
    var w2 := Next(w1, HOME, e);
    assert w2.mine == {id, id2};
    assert Possible(w2, HOME, []) && Run(w2, HOME, []) == w2 && Unedited([]);
    DuplicateAfter(w1, e);
    DuplicateAfter(w, Press(k));
  }

  /** An earlier attempt that outlives the rejection of a later one creates an application under the
      key the page gives up, and the next submit creates another. */
  lemma StrayDuplicates(w: World, n: nat, outcome: Outcome, m: nat)
    requires Inv(w) && w.waiting == Some(n) && Enabled(w, Serve(n, outcome)) && ReplyOf(outcome) == Rejected
    requires m in w.sending && m < n
    ensures CanDuplicate(Next(w, HOME, Serve(n, outcome)))
  {
    var k := w.page.key.value;
    var w1 := Next(w, HOME, Serve(n, outcome));
    assert w1.server == w.server && k !in w.server.keys && w.mine == {};
    var w2 := Next(w1, HOME, Deliver);
    var id, token := FreshTicket(w2.server);
    var e := Serve(m, Created(id, token));
    assert w2.sending[m] == Attempt(k, w.req) && Enabled(w2, e);
    var w3 := Next(w2, HOME, e);
    SecondSubmitDuplicates(w3, id);
    DuplicateAfter(w2, e);
    DuplicateAfter(w1, Deliver);
  }

  /** When the awaited attempt is rejected, every settled continuation with an unchanged form leaves
      at most one application if and only if no earlier attempt is still on its way. */
  lemma RejectionSafeExactlyWhenSettled(w: World, n: nat, outcome: Outcome)
    requires Inv(w) && w.waiting == Some(n) && Enabled(w, Serve(n, outcome)) && ReplyOf(outcome) == Rejected
    ensures !CanDuplicate(Next(w, HOME, Serve(n, outcome))) <==> NoneEarlier(w, n)
  {
    var e := Serve(n, outcome);
    var w1 := Next(w, HOME, e);
    if NoneEarlier(w, n) {
      NextKeeps(w, HOME, e);
      forall events | Possible(w1, HOME, events) && AllSettled(w1, HOME, events) && Unedited(events)
        ensures |Run(w1, HOME, events).mine| <= 1
      {
        RunKeeps(w1, HOME, events);
      }
    } else {
      var m :| m in w.sending && m < n;
      StrayDuplicates(w, n, outcome, m);
    }
  }

  // --- Why a rejection clears the key -----------------------------------

  /** The key the page holds is known to the server for another form content. */
  ghost predicate Stuck(w: World, k: Key) {
    && w.page.key == Some(k) && !w.page.sent
    && k in w.server.keys && w.server.keys[k].req != w.req
    && (forall n :: n in w.sending ==> w.sending[n].key == k)
    && (w.waiting.Some? && w.waiting.value in w.sending ==> w.sending[w.waiting.value] == Attempt(k, w.req))
    && (w.waiting.Some? && w.waiting.value in w.replies ==> ReplyOf(w.replies[w.waiting.value]) != Success)
    && (forall n :: n in w.sending || n in w.replies ==> n < w.next)
  }

  /** An edit after a commit whose response was lost gets there, from every freshly mounted page. */
  lemma EditAfterCommitSticks(w: World, policy: Policy, newKey: Key, id: nat, token: Token, edited: Request)
    requires Mounted(w) && Enabled(w, Press(newKey)) && !policy.onAmbiguous
    requires id !in w.server.issued && token !in w.server.minted && edited != w.req
    ensures var events := [Press(newKey)] + ([Serve(w.next, Created(id, token))] + ([Lose] + ([Edit(edited)] + [])));
            && Possible(w, policy, events) && AllSettled(w, policy, events)
            && var w4 := Run(w, policy, events);
            Stuck(w4, newKey) && CanSubmit(w4.page) && w4.waiting.None?
  {
    var e1, e2, e3, e4 := Press(newKey), Serve(w.next, Created(id, token)), Lose, Edit(edited);
    var w1 := Next(w, policy, e1);
    var w2 := Next(w1, policy, e2);
    var w3 := Next(w2, policy, e3);
    Chain(w3, policy, e4, []);
    Chain(w2, policy, e3, [e4] + []);
    Chain(w1, policy, e2, [e3] + ([e4] + []));
    Chain(w, policy, e1, [e2] + ([e3] + ([e4] + [])));
  }

  /** Why a 409 has to clear: from there on, a page that never clears can never submit the form it now
      shows, in any run. */
  lemma {:induction false} NeverClearingIsStuck(w: World, k: Key, events: seq<Event>)
    requires Stuck(w, k) && Possible(w, Policy(false, false), events) && Unedited(events)
    ensures !Run(w, Policy(false, false), events).page.sent
    decreases events
  {
    if events != [] {
      NeverClearingIsStuck(Next(w, Policy(false, false), events[0]), k, events[1..]);
    }
  }

  /** Some continuation with an unchanged form ends with it submitted. */
  ghost predicate CanFinish(w: World, policy: Policy) {
    exists events :: Possible(w, policy, events) && Unedited(events) && Run(w, policy, events).page.sent
  }

  lemma FinishAfter(w: World, policy: Policy, e: Event)
    requires Enabled(w, e) && !e.Edit? && CanFinish(Next(w, policy, e), policy)
    ensures CanFinish(w, policy)
  {
    var w1 := Next(w, policy, e);
    var rest :| Possible(w1, policy, rest) && Unedited(rest) && Run(w1, policy, rest).page.sent;
    Chain(w, policy, e, rest);
    assert Unedited([e] + rest);
  }

  /** Without a key, one submit can succeed. */
  lemma FreshSubmitFinishes(w: World, policy: Policy)
    requires CanSubmit(w.page) && w.page.key.None? && w.waiting.None?
    ensures CanFinish(w, policy)
  {
    var k := FreshKey(w);
    var id, token := FreshTicket(w.server);
    var w1 := Next(w, policy, Press(k));
    assert w1.sending[w.next] == Attempt(k, w.req);
    var e := Serve(w.next, Created(id, token));
    var w2 := Next(w1, policy, e);
    var w3 := Next(w2, policy, Deliver);
    assert Possible(w3, policy, []) && Run(w3, policy, []) == w3 && Unedited([]);
    FinishAfter(w2, policy, Deliver);
    FinishAfter(w1, policy, e);
    FinishAfter(w, policy, Press(k));
  }

  /** The key is given up along one attempt: after its 409, or after its loss. */
  lemma ClearingFinishes(w: World, k: Key, policy: Policy)
    requires Stuck(w, k) && CanSubmit(w.page) && w.waiting.None?
    requires policy.onRejected || policy.onAmbiguous
    ensures CanFinish(w, policy)
  {
    var unused := FreshKey(w);
    var w1 := Next(w, policy, Press(unused));
    assert w1.sending[w.next] == Attempt(k, w.req);
    if policy.onRejected {
      var e := Serve(w.next, KeyReused);
      var w2 := Next(w1, policy, e);
      FreshSubmitFinishes(Next(w2, policy, Deliver), policy);
      FinishAfter(w2, policy, Deliver);
      FinishAfter(w1, policy, e);
    } else {
      FreshSubmitFinishes(Next(w1, policy, Lose), policy);
      FinishAfter(w1, policy, Lose);
    }
    FinishAfter(w, policy, Press(unused));
  }

  /** The edited form can be submitted in some run exactly if the policy ever clears the key. */
  lemma StuckExactlyWhenNeverCleared(w: World, k: Key, policy: Policy)
    requires Stuck(w, k) && CanSubmit(w.page) && w.waiting.None?
    ensures CanFinish(w, policy) <==> policy.onRejected || policy.onAmbiguous
  {
    if policy.onRejected || policy.onAmbiguous {
      ClearingFinishes(w, k, policy);
    } else {
      assert policy == Policy(false, false);
      forall events | Possible(w, policy, events) && Unedited(events) ensures !Run(w, policy, events).page.sent {
        NeverClearingIsStuck(w, k, events);
      }
    }
  }

  /** With the page's own rule the next attempt carries a key the server has not seen, so it is not
      told 409 for that key again. */
  lemma ClearingUnsticks(w: World, k: Key, newKey: Key, outcome: Outcome)
    requires Stuck(w, k) && w.waiting.Some? && w.waiting.value in w.replies
    requires w.page.busy && ReplyOf(w.replies[w.waiting.value]) == Rejected
    requires var w1 := Next(w, HOME, Deliver);
             && Enabled(w1, Press(newKey))
             && var w2 := Next(w1, HOME, Press(newKey));
             Enabled(w2, Serve(w.next, outcome))
    ensures outcome.Created? || outcome == Unavailable || outcome == OutOfRange || outcome == Aborted
  {
    var w1 := Next(w, HOME, Deliver);
    assert w1.page.key == None;
  }
}
