/**
 The administrator's statistics tab. Unlike the applications tab it refuses overlapping loads and
 tells responses apart by activation alone.
 */
module AnalyticsSection {
  import opened Wrappers

  datatype Period = Day | Week | Month

  datatype Request = Request(period: Period, activation: nat)

  /** An overview, by any name that tells two of them apart. */
  datatype Answer =
    | Loaded(overview: nat)
    | Unauthorized
    | Failed

  /** `requests` and `answered` are history. */
  datatype View = View(
    period: Period, overview: Option<nat>, loading: bool, hasLoadError: bool,
    tabActive: bool, activation: nat, mountCurrent: bool, hostActive: bool,
    requests: seq<Request>, answered: map<nat, Answer>)

  const MOUNTED := View(Week, None, false, false, false, 0, true, true, [], map[])

  predicate Interactive(v: View) {
    v.tabActive && v.mountCurrent && v.hostActive
  }

  predicate StillCurrent(v: View, activation: nat) {
    activation == v.activation && v.mountCurrent && v.hostActive
  }

  datatype Event =
    | Activate                          // only from another tab: the switcher ignores the open one
    | Deactivate
    | Choose(period: Period)
    | Refresh
    | Respond(n: nat, answer: Answer)    // the answer to the n-th request
    | Supersede
    | HostEnds

  function StartLoad(v: View): View {
    if v.loading then v
    else v.(loading := true, hasLoadError := false, overview := None,
            requests := v.requests + [Request(v.period, v.activation)])
  }

  function Leave(v: View): View {
    v.(tabActive := false, activation := v.activation + 1, loading := false)
  }

  predicate Answerable(v: View, n: nat) {
    n < |v.requests| && n !in v.answered
  }

  function FinishLoad(v: View, n: nat, answer: Answer): View
    requires n < |v.requests|
  {
    var seen := v.(answered := v.answered[n := answer]);
    if !StillCurrent(v, v.requests[n].activation) then seen
    else
      match answer
      case Loaded(overview) => seen.(overview := Some(overview), loading := false)
      case Unauthorized => Leave(seen).(hostActive := false)
      case Failed => seen.(loading := false, hasLoadError := true)
  }

  function ActivateTab(v: View): View {
    StartLoad(v.(tabActive := true, activation := v.activation + 1))
  }

  function Step(v: View, e: Event): View {
    match e
    case Activate => if v.tabActive then v else ActivateTab(v)
    case Deactivate => Leave(v)
    case Choose(period) =>
      if !Interactive(v) || period == v.period then v
      else StartLoad(v.(period := period, loading := false, activation := v.activation + 1))
    case Refresh => if !Interactive(v) then v else StartLoad(v)
    case Respond(n, answer) => if Answerable(v, n) then FinishLoad(v, n, answer) else v
    case Supersede => v.(mountCurrent := false)
    case HostEnds => v.(hostActive := false)
  }

  function Run(v: View, events: seq<Event>): View
    decreases |events|
  {
    if events == [] then v else Step(Run(v, events[..|events| - 1]), events[|events| - 1])
  }

  // --- The section itself -----------------------------------------------

  class Section {
    var period: Period
    var overview: Option<nat>
    var loading: bool
    var hasLoadError: bool
    var tabActive: bool
    var currentActivationId: nat
    var mountCurrent: bool
    var hostActive: bool
    ghost var requests: seq<Request>
    ghost var answered: map<nat, Answer>

    ghost function Now(): View
      reads this
    {
      View(period, overview, loading, hasLoadError, tabActive, currentActivationId, mountCurrent, hostActive, requests,
              answered)
    }

    constructor ()
      ensures Now() == MOUNTED
    {
      period, overview, loading, hasLoadError := Week, None, false, false;
      tabActive, currentActivationId, mountCurrent, hostActive := false, 0, true, true;
      requests, answered := [], map[];
    }

    /** loadOverview up to its await; None when it refuses. */
    method BeginLoad() returns (request: Option<Request>)
      modifies this
      ensures Now() == StartLoad(old(Now()))
      ensures request.Some? <==> !old(loading)
    {
      if loading {
        return None;
      }
      loading := true;
      hasLoadError := false;
      overview := None;
      request := Some(Request(period, currentActivationId));
      requests := requests + [request.value];
    }

    /** The response to the n-th request, under the activation it was made under. */
    method EndLoad(ghost n: nat, activationId: nat, answer: Answer)
      requires Answerable(Now(), n) && requests[n].activation == activationId
      modifies this
      ensures Now() == FinishLoad(old(Now()), n, answer)
    {
      answered := answered[n := answer];
      if activationId != currentActivationId || !mountCurrent || !hostActive {
        return;
      }
      loading := false;
      if answer.Loaded? {
        overview := Some(answer.overview);
      } else if answer.Unauthorized? {
        LeaveTab();
        hostActive := false;
      } else {
        hasLoadError := true;
      }
    }

    method EnterTab()
      modifies this
      ensures Now() == ActivateTab(old(Now()))
    {
      tabActive := true;
      currentActivationId := currentActivationId + 1;
      var _ := BeginLoad();
    }

    method LeaveTab()
      modifies this
      ensures Now() == Step(old(Now()), Deactivate)
    {
      tabActive := false;
      currentActivationId := currentActivationId + 1;
      loading := false;
    }

    method OnPeriodClick(chosen: Period)
      modifies this
      ensures Now() == Step(old(Now()), Choose(chosen))
      ensures old(tabActive && mountCurrent && hostActive) ==> period == chosen
    {
      if !(tabActive && mountCurrent && hostActive) || chosen == period {
        return;
      }
      period := chosen;
      loading := false;
      currentActivationId := currentActivationId + 1;
      var _ := BeginLoad();
    }

    method OnRefreshClick()
      modifies this
      ensures Now() == Step(old(Now()), Refresh)
    {
      if !(tabActive && mountCurrent && hostActive) {
        return;
      }
      var _ := BeginLoad();
    }
  }

  // --- The invariant of every run ---------------------------------------

  ghost predicate Inv(v: View) {
    && (forall n :: n in v.answered ==> n < |v.requests|)
    && (forall i :: 0 <= i < |v.requests| ==> v.requests[i].activation <= v.activation)
    && (!v.tabActive ==> !v.loading)
    && (Interactive(v) ==> Serving(v))
  }

  /** While the tab is in use, every request of this activation but the latest has its answer; the
      latest has one exactly when the tab is not loading, and it is what is shown. */
  ghost predicate Serving(v: View) {
    && v.requests != []
    && var last := |v.requests| - 1;
    && v.requests[last] == Request(v.period, v.activation)
    && (forall i :: 0 <= i < last && v.requests[i].activation == v.activation ==> i in v.answered)
    && (v.loading <==> last !in v.answered)
    && (v.loading || v.hasLoadError ==> v.overview == None)
    && (v.hasLoadError ==> !v.loading && v.answered[last] == Failed)
    && (!v.loading && !v.hasLoadError ==> v.overview.Some? && v.answered[last] == Loaded(v.overview.value))
  }

  /** A load that is not refused restores the invariant, provided no request of the same activation is
      still open. */
  lemma StartKeeps(v: View)
    requires !v.loading && v.tabActive
    requires forall n :: n in v.answered ==> n < |v.requests|
    requires forall i :: 0 <= i < |v.requests| ==> v.requests[i].activation <= v.activation
    requires forall i :: 0 <= i < |v.requests| && v.requests[i].activation == v.activation ==> i in v.answered
    ensures Inv(StartLoad(v))
  {
  }

  lemma RespondKeeps(v: View, n: nat, answer: Answer)
    requires Inv(v) && Answerable(v, n)
    ensures Inv(FinishLoad(v, n, answer))
  {
    if Interactive(v) && v.requests[n].activation == v.activation {
      assert n == |v.requests| - 1;
    }
  }

  lemma StepKeeps(v: View, e: Event)
    requires Inv(v)
    ensures Inv(Step(v, e))
  {
    match e
    case Activate =>
      if !v.tabActive {
        StartKeeps(v.(tabActive := true, activation := v.activation + 1));
      }
    case Choose(period) =>
      if Interactive(v) {
        StartKeeps(v.(period := period, loading := false, activation := v.activation + 1));
      }
    case Refresh =>
      if Interactive(v) && !v.loading {
        StartKeeps(v);
      }
    case Respond(n, answer) =>
      if Answerable(v, n) {
        RespondKeeps(v, n, answer);
      }
    case _ =>
  }

  lemma {:induction false} RunKeeps(events: seq<Event>)
    ensures Inv(Run(MOUNTED, events))
    decreases |events|
  {
    if events != [] {
      RunKeeps(events[..|events| - 1]);
      StepKeeps(Run(MOUNTED, events[..|events| - 1]), events[|events| - 1]);
    }
  }

  /** The period clicked last while the tab was in use; at first it is the week. */
  ghost function ChosenPeriod(events: seq<Event>): Period
    decreases |events|
  {
    if events == [] then Week
    else
      var init, last := events[..|events| - 1], events[|events| - 1];
      if last.Choose? && Interactive(Run(MOUNTED, init)) then last.period else ChosenPeriod(init)
  }

  lemma {:induction false} PeriodIsTheUsers(events: seq<Event>)
    ensures Run(MOUNTED, events).period == ChosenPeriod(events)
    decreases |events|
  {
    if events != [] {
      PeriodIsTheUsers(events[..|events| - 1]);
    }
  }

  /** In every run, while the tab is in use, the latest request asked for the period that was clicked
      last; and while it is neither loading nor in error, the overview shown is the answer to it. */
  lemma ShowsTheSelectedPeriod(events: seq<Event>)
    ensures var v := Run(MOUNTED, events);
            v.period == ChosenPeriod(events)
            && (Interactive(v) ==> v.requests != [] && v.requests[|v.requests| - 1].period == ChosenPeriod(events))
    ensures var v := Run(MOUNTED, events);
            Interactive(v) && !v.loading && !v.hasLoadError ==>
              v.requests != [] && var last := |v.requests| - 1;
              v.requests[last].period == v.period && v.overview.Some?
              && last in v.answered && v.answered[last] == Loaded(v.overview.value)
  {
    RunKeeps(events);
    PeriodIsTheUsers(events);
  }

  /** A click on another period asks for it at once, even over a load that is under way. */
  lemma PeriodClickAsks(v: View, period: Period)
    requires Interactive(v) && period != v.period
    ensures var w := Step(v, Choose(period));
            && w.period == period && w.loading && w.overview == None
            && w.requests == v.requests + [Request(period, v.activation + 1)] && w.activation == v.activation + 1
  {
  }

  /** Besides, a request is issued when the tab is entered, and on Refresh unless one is under way. */
  lemma EventsAsk(v: View, e: Event)
    requires !v.tabActive ==> !v.loading
    ensures var w := Step(v, e);
            if || (e.Activate? && !v.tabActive) || (e.Choose? && Interactive(v) && e.period != v.period)
               || (e.Refresh? && Interactive(v) && !v.loading)
            then w.requests == v.requests + [Request(w.period, w.activation)] && w.loading && !w.hasLoadError
            else w.requests == v.requests
  {
  }

  /** Another mount has taken over the container, the panel was rendered anew, or its session expired. */
  predicate Over(v: View) {
    !v.mountCurrent || !v.hostActive
  }

  /** These three end the section, and nothing else does. */
  lemma OverExactlyAfter(v: View, e: Event)
    ensures Over(Step(v, e)) <==>
              || Over(v) || e.Supersede? || e.HostEnds?
              || (e.Respond? && Answerable(v, e.n) && StillCurrent(v, v.requests[e.n].activation)
                  && e.answer == Unauthorized)
  {
  }

  /** A section that is over stays over: it is not in use, and no response is shown. */
  lemma OverForGood(v: View, e: Event)
    requires Over(v)
    ensures var w := Step(v, e);
            && Over(w) && !Interactive(w)
            && (e.Respond? ==> w == v || w == v.(answered := v.answered[e.n := e.answer]))
            && (!e.Activate? ==> w.requests == v.requests && w.overview == v.overview && w.period == v.period)
  {
  }

  /** A response of an earlier activation, or to a section no longer shown, changes nothing. */
  lemma SupersededChangesNothing(v: View, n: nat, answer: Answer)
    requires Answerable(v, n) && !StillCurrent(v, v.requests[n].activation)
    ensures Step(v, Respond(n, answer)) == v.(answered := v.answered[n := answer])
  {
  }

  /** The tab switcher's guard matters: activating the open tab again while it loads refuses the new
      load and disowns the old one, so that its answer is ignored and the tab keeps loading. */
  lemma ActivatingTwiceSticks(answer: Answer)
    ensures var v := ActivateTab(Step(MOUNTED, Activate));
            Interactive(v) && v.loading && |v.requests| == 1
            && var w := Step(v, Respond(0, answer));
               w.loading && Interactive(w) && forall n, a :: Step(w, Respond(n, a)) == w
  {
  }
}
