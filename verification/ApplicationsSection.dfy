/**
 The administrator's applications tab: requests that answer late, out of order or never, while the
 filter, the search text, the page and the tab itself keep changing.
 */
module ApplicationsSection {
  import opened Wrappers

  datatype Level = Low | Medium | High

  /** What one request asks for; an absent criterion narrows nothing. */
  datatype Query = Query(search: Option<string>, priority: Option<Level>)

  /** A request remembers the activation it was made under; its generation is its place in the log. */
  datatype Request = Request(skip: int, query: Query, activation: nat)

  /** A page of the list; the backend echoes the skip it was asked for. */
  datatype Page = Page(items: seq<nat>, total: nat)

  datatype Answer =
    | Loaded(page: Page)
    | Unauthorized
    | Failed

  const PAGE_SIZE := 100

  // --- String.prototype.trim --------------------------------------------

  predicate IsJsSpace(c: char) {
    || '\t' <= c <= '\r' || c == ' ' || c == '\U{A0}' || c == '\U{1680}' || '\U{2000}' <= c <= '\U{200A}'
    || c == '\U{2028}' || c == '\U{2029}' || c == '\U{202F}' || c == '\U{205F}' || c == '\U{3000}' || c == '\U{FEFF}'
  }

  function Trim(s: string): string {
    if s == [] then s
    else if IsJsSpace(s[0]) then Trim(s[1..])
    else if IsJsSpace(s[|s| - 1]) then Trim(s[..|s| - 1])
    else s
  }

  predicate Blank(s: string) {
    forall i :: 0 <= i < |s| ==> IsJsSpace(s[i])
  }

  /** The text without the white space before and after it. */
  predicate Trimmed(s: string, before: string, inner: string, after: string) {
    && s == before + inner + after && Blank(before) && Blank(after)
    && (inner != [] ==> !IsJsSpace(inner[0]) && !IsJsSpace(inner[|inner| - 1]))
  }

  lemma TrimmedBefore(c: char, rest: string, before: string, inner: string, after: string)
    requires IsJsSpace(c) && Trimmed(rest, before, inner, after)
    ensures Trimmed([c] + rest, [c] + before, inner, after)
  {
  }

  lemma TrimmedAfter(rest: string, c: char, before: string, inner: string, after: string)
    requires IsJsSpace(c) && Trimmed(rest, before, inner, after)
    ensures Trimmed(rest + [c], before, inner, after + [c])
  {
  }

  lemma {:induction false} TrimIs(s: string) returns (before: string, after: string)
    ensures Trimmed(s, before, Trim(s), after)
    decreases |s|
  {
    before, after := [], [];
    if s != [] && IsJsSpace(s[0]) {
      before, after := TrimIs(s[1..]);
      TrimmedBefore(s[0], s[1..], before, Trim(s), after);
      assert s == [s[0]] + s[1..];
      before := [s[0]] + before;
    } else if s != [] && IsJsSpace(s[|s| - 1]) {
      before, after := TrimIs(s[..|s| - 1]);
      TrimmedAfter(s[..|s| - 1], s[|s| - 1], before, Trim(s), after);
      assert s == s[..|s| - 1] + [s[|s| - 1]];
      after := after + [s[|s| - 1]];
    }
  }

  function BuildPrioritizedQuery(filter: Option<Level>, search: string): Query {
    Query(if Trim(search) != "" then Some(Trim(search)) else None, filter)
  }

  // --- The section's state ----------------------------------------------

  /** `requests` is the log of every request so far, `answered` the answers that have arrived; both
      are history. `timer` is the pending debounce. */
  datatype View = View(
    items: seq<nat>, skip: int, total: Option<nat>, filter: Option<Level>, search: string,
    loading: bool, hasLoadError: bool, generation: nat, timer: bool,
    tabActive: bool, activation: nat, mountCurrent: bool, hostActive: bool,
    requests: seq<Request>, answered: map<nat, Answer>)

  const MOUNTED := View([], 0, None, None, "", false, false, 0, false, false, 0, true, true, [], map[])

  predicate Interactive(v: View) {
    v.tabActive && v.mountCurrent && v.hostActive
  }

  /** The pager has buttons only beside a list that is loaded; otherwise it is rendered empty. */
  predicate PagerShown(v: View) {
    v.total.Some? && !v.loading && !v.hasLoadError
  }

  predicate StillCurrent(v: View, activation: nat) {
    activation == v.activation && v.mountCurrent && v.hostActive
  }

  datatype Event =
    | Activate
    | Deactivate                        // also dispose()
    | Filter(level: Option<Level>)
    | Type(text: string)
    | TimerFires
    | Refresh
    | Previous
    | Next
    | Respond(generation: nat, answer: Answer)
    | Supersede                         // another mount takes over the container
    | HostEnds                          // the admin panel is rendered anew

  // --- Steps ------------------------------------------------------------

  /** loadApplications up to its await. */
  function StartLoad(v: View): View {
    v.(generation := v.generation + 1, loading := true, hasLoadError := false, items := [],
       requests := v.requests + [Request(v.skip, BuildPrioritizedQuery(v.filter, v.search), v.activation)])
  }

  function Leave(v: View): View {
    v.(tabActive := false, activation := v.activation + 1, loading := false, timer := false)
  }

  /** The same function after its await. */
  function FinishLoad(v: View, generation: nat, answer: Answer): View
    requires 1 <= generation <= |v.requests|
  {
    var r := v.requests[generation - 1];
    var seen := v.(answered := v.answered[generation := answer]);
    if generation != v.generation || !StillCurrent(v, r.activation) then seen else Applied(seen, r, answer)
  }

  function Applied(v: View, r: Request, answer: Answer): View {
    match answer
    case Loaded(page) => v.(items := page.items, skip := r.skip, total := Some(page.total), loading := false)
    case Unauthorized => Leave(v).(hostActive := false)
    case Failed => v.(items := [], loading := false, hasLoadError := true)
  }

  /** A request answers at most once. */
  predicate Answerable(v: View, generation: nat) {
    1 <= generation <= |v.requests| && generation !in v.answered
  }

  function Step(v: View, e: Event): View {
    match e
    case Activate => StartLoad(v.(tabActive := true, activation := v.activation + 1, skip := 0))
    case Deactivate => Leave(v)
    case Filter(level) =>
      if !Interactive(v) || level == v.filter then v
      else StartLoad(v.(filter := level, timer := false, skip := 0))
    case Type(text) => if !Interactive(v) then v else v.(search := text, timer := true)
    case TimerFires =>
      if !v.timer then v
      else if !Interactive(v) then v.(timer := false)
      else StartLoad(v.(timer := false, skip := 0))
    case Refresh => if !Interactive(v) || v.loading then v else StartLoad(v)
    case Previous =>
      if !Interactive(v) || !PagerShown(v) || v.skip <= 0 then v
      else StartLoad(v.(skip := if v.skip >= PAGE_SIZE then v.skip - PAGE_SIZE else 0))
    case Next =>
      if !Interactive(v) || !PagerShown(v) || v.skip + |v.items| >= v.total.value then v
      else StartLoad(v.(skip := v.skip + PAGE_SIZE))
    case Respond(g, answer) => if Answerable(v, g) then FinishLoad(v, g, answer) else v
    case Supersede => v.(mountCurrent := false)
    case HostEnds => v.(hostActive := false)
  }

  function Run(v: View, events: seq<Event>): View
    decreases |events|
  {
    if events == [] then v else Step(Run(v, events[..|events| - 1]), events[|events| - 1])
  }

  // --- The section itself -----------------------------------------------

  class Section {
    var items: seq<nat>
    var skip: int
    var total: Option<nat>
    var filterLevel: Option<Level>
    var searchQuery: string
    var loading: bool
    var hasLoadError: bool
    var loadGeneration: nat
    var searchDebounceTimer: bool
    var tabActive: bool
    var currentActivationId: nat
    var mountCurrent: bool
    var hostActive: bool
    ghost var requests: seq<Request>
    ghost var answered: map<nat, Answer>

    ghost function Now(): View
      reads this
    {
      View(items, skip, total, filterLevel, searchQuery, loading, hasLoadError, loadGeneration, searchDebounceTimer,
           tabActive, currentActivationId, mountCurrent, hostActive, requests, answered)
    }

    constructor ()
      ensures Now() == MOUNTED
    {
      items, skip, total, filterLevel, searchQuery := [], 0, None, None, "";
      loading, hasLoadError, loadGeneration, searchDebounceTimer := false, false, 0, false;
      tabActive, currentActivationId, mountCurrent, hostActive := false, 0, true, true;
      requests, answered := [], map[];
    }

    predicate IsInteractive()
      reads this
    {
      tabActive && mountCurrent && hostActive
    }

    /** Issues a request for the current criteria; the two captured values are returned with it. */
    method BeginLoad() returns (request: Request, generation: nat)
      modifies this
      ensures Now() == StartLoad(old(Now()))
      ensures generation == loadGeneration && requests[|requests| - 1] == request
    {
      loadGeneration := loadGeneration + 1;
      generation := loadGeneration;
      loading := true;
      hasLoadError := false;
      items := [];
      request := Request(skip, BuildPrioritizedQuery(filterLevel, searchQuery), currentActivationId);
      requests := requests + [request];
    }

    /** The response to a request, under the values captured when it was issued. */
    method EndLoad(request: Request, generation: nat, answer: Answer)
      requires Answerable(Now(), generation) && requests[generation - 1] == request
      modifies this
      ensures Now() == FinishLoad(old(Now()), generation, answer)
    {
      answered := answered[generation := answer];
      if generation != loadGeneration || request.activation != currentActivationId || !mountCurrent || !hostActive {
        return;
      }
      Apply(request, answer);
    }

    method Apply(request: Request, answer: Answer)
      modifies this
      ensures Now() == Applied(old(Now()), request, answer)
    {
      if answer.Loaded? {
        items := answer.page.items;
        skip := request.skip;
        total := Some(answer.page.total);
        loading := false;
      } else if answer.Unauthorized? {
        loading := false;
        LeaveTab();
        hostActive := false;
      } else {
        loading := false;
        hasLoadError := true;
        items := [];
      }
    }

    method ActivateTab()
      modifies this
      ensures Now() == Step(old(Now()), Activate)
    {
      tabActive := true;
      currentActivationId := currentActivationId + 1;
      skip := 0;
      var _, _ := BeginLoad();
    }

    method LeaveTab()
      modifies this
      ensures Now() == Step(old(Now()), Deactivate)
    {
      tabActive := false;
      currentActivationId := currentActivationId + 1;
      loading := false;
      ClearSearchDebounce();
    }

    method ClearSearchDebounce()
      modifies this`searchDebounceTimer
      ensures !searchDebounceTimer
    {
      if searchDebounceTimer {
        searchDebounceTimer := false;
      }
    }

    method RequestFilteredReload()
      modifies this
      ensures Now() == StartLoad(old(Now()).(skip := 0))
    {
      skip := 0;
      var _, _ := BeginLoad();
    }

    method OnFilterClick(level: Option<Level>)
      modifies this
      ensures Now() == Step(old(Now()), Filter(level))
      ensures old(IsInteractive()) ==> filterLevel == level
      ensures old(IsInteractive()) && level != old(filterLevel) ==> loading && skip == 0 && !searchDebounceTimer
    {
      if !IsInteractive() {
        return;
      }
      if level == filterLevel {
        return;
      }
      filterLevel := level;
      ClearSearchDebounce();
      RequestFilteredReload();
    }

    method OnSearchInput(text: string)
      modifies this
      ensures Now() == Step(old(Now()), Type(text))
    {
      if !IsInteractive() {
        return;
      }
      searchQuery := text;
      ClearSearchDebounce();
      searchDebounceTimer := true;
    }

    method OnTimer()
      requires searchDebounceTimer
      modifies this
      ensures Now() == Step(old(Now()), TimerFires)
    {
      searchDebounceTimer := false;
      if !IsInteractive() {
        return;
      }
      RequestFilteredReload();
    }

    method OnRefreshClick()
      modifies this
      ensures Now() == Step(old(Now()), Refresh)
    {
      if !IsInteractive() || loading {
        return;
      }
      var _, _ := BeginLoad();
    }

    /** A click on the pager; without buttons it lands on neither of them. */
    method OnPagerClick(previous: bool)
      modifies this
      ensures Now() == Step(old(Now()), if previous then Previous else Next)
    {
      if !IsInteractive() || loading {
        return;
      }
      var buttons := total.Some? && !hasLoadError;
      if !buttons {
        return;
      }
      if previous {
        if skip <= 0 {
          return;
        }
        skip := if skip - PAGE_SIZE > 0 then skip - PAGE_SIZE else 0;
        var _, _ := BeginLoad();
      } else {
        if skip + |items| >= total.value {
          return;
        }
        skip := skip + PAGE_SIZE;
        var _, _ := BeginLoad();
      }
    }
  }

  // --- The invariant of every run ---------------------------------------

  function Last(v: View): Request
    requires v.requests != []
  {
    v.requests[|v.requests| - 1]
  }

  /** The answer whose page is on display. */
  ghost predicate ShowsLast(v: View)
    requires v.requests != []
  {
    && v.generation in v.answered && v.answered[v.generation].Loaded?
    && var page := v.answered[v.generation].page;
    v.items == page.items && v.total == Some(page.total) && v.skip == Last(v).skip
  }

  ghost predicate Inv(v: View) {
    && v.generation == |v.requests|
    && (forall g :: g in v.answered ==> 1 <= g <= v.generation)
    && v.skip >= 0 && v.skip % PAGE_SIZE == 0
    && (forall r :: r in v.requests ==> r.skip >= 0 && r.skip % PAGE_SIZE == 0)
    && (Interactive(v) ==> Serving(v))
  }

  /** What holds while the tab is in use. */
  ghost predicate Serving(v: View) {
    && v.requests != []
    && Last(v).activation == v.activation && Last(v).skip == v.skip
    && Last(v).query.priority == v.filter
    && (!v.timer ==> Last(v).query == BuildPrioritizedQuery(v.filter, v.search))
    && (v.loading <==> v.generation !in v.answered)
    && (v.loading || v.hasLoadError ==> v.items == [])
    && (v.hasLoadError ==> !v.loading && v.answered[v.generation] == Failed)
    && (!v.loading && !v.hasLoadError ==> ShowsLast(v))
  }

  lemma StartKeeps(v: View)
    requires v.generation == |v.requests|
    requires forall g :: g in v.answered ==> 1 <= g <= v.generation
    requires v.skip >= 0 && v.skip % PAGE_SIZE == 0
    requires forall r :: r in v.requests ==> r.skip >= 0 && r.skip % PAGE_SIZE == 0
    ensures Inv(StartLoad(v))
  {
  }

  lemma RespondKeeps(v: View, g: nat, answer: Answer)
    requires Inv(v) && Answerable(v, g)
    ensures Inv(FinishLoad(v, g, answer))
  {
    if Interactive(v) && g == v.generation {
      assert v.requests[g - 1] == Last(v);
    }
  }

  lemma PagerKeeps(v: View)
    requires Inv(v)
    ensures Inv(Step(v, Previous)) && Inv(Step(v, Next))
  {
    if v.skip > 0 {
      StartKeeps(v.(skip := if v.skip >= PAGE_SIZE then v.skip - PAGE_SIZE else 0));
    }
    StartKeeps(v.(skip := v.skip + PAGE_SIZE));
  }

  lemma CriteriaKeep(v: View, level: Option<Level>)
    requires Inv(v)
    ensures Inv(Step(v, Filter(level))) && Inv(Step(v, TimerFires))
  {
    StartKeeps(v.(filter := level, timer := false, skip := 0));
    StartKeeps(v.(timer := false, skip := 0));
  }

  lemma ReloadKeeps(v: View)
    requires Inv(v)
    ensures Inv(Step(v, Activate)) && Inv(Step(v, Refresh))
  {
    StartKeeps(v.(tabActive := true, activation := v.activation + 1, skip := 0));
    StartKeeps(v);
  }

  lemma QuietKeeps(v: View, text: string)
    requires Inv(v)
    ensures Inv(Step(v, Deactivate)) && Inv(Step(v, Type(text)))
  {
  }

  lemma StepKeeps(v: View, e: Event)
    requires Inv(v)
    ensures Inv(Step(v, e))
  {
    match e
    case Activate => ReloadKeeps(v);
    case Deactivate => QuietKeeps(v, "");
    case Filter(level) => CriteriaKeep(v, level);
    case Type(text) => QuietKeeps(v, text);
    case TimerFires => CriteriaKeep(v, None);
    case Refresh => ReloadKeeps(v);
    case Previous => PagerKeeps(v);
    case Next => PagerKeeps(v);
    case Respond(g, answer) =>
      if Answerable(v, g) {
        RespondKeeps(v, g, answer);
      }
    case Supersede =>
    case HostEnds =>
  }

  lemma {:induction false} RunKeeps(events: seq<Event>)
    ensures Inv(Run(MOUNTED, events))
    decreases |events|
  {
    if events != [] {
      RunKeeps(events[..|events| - 1]);
      StepKeeps(Run(MOUNTED, events[..|events| - 1]), events[|events| - 1]);
    }
  }

  /** In every run: while the tab is in use, not loading and not in error, what is shown is the answer
      to the most recently issued request, asked with the current filter, and with the current text
      unless a debounce is pending. */
  lemma ShowsWhatWasAskedLast(events: seq<Event>)
    ensures var v := Run(MOUNTED, events);
            Interactive(v) && !v.loading && !v.hasLoadError ==>
              v.requests != [] && ShowsLast(v)
              && Last(v).query.priority == v.filter
              && (!v.timer ==> Last(v).query.search == if Trim(v.search) == "" then None else Some(Trim(v.search)))
    ensures Run(MOUNTED, events).skip % PAGE_SIZE == 0
  {
    RunKeeps(events);
  }

  // --- What the administrator did ---------------------------------------

  /** The level of the last click on a filter made while the tab was in use; at first there is none. */
  ghost function ChosenLevel(events: seq<Event>): Option<Level>
    decreases |events|
  {
    if events == [] then None
    else
      var init, last := events[..|events| - 1], events[|events| - 1];
      if last.Filter? && Interactive(Run(MOUNTED, init)) then last.level else ChosenLevel(init)
  }

  /** The last text typed while the tab was in use. */
  ghost function TypedText(events: seq<Event>): string
    decreases |events|
  {
    if events == [] then ""
    else
      var init, last := events[..|events| - 1], events[|events| - 1];
      if last.Type? && Interactive(Run(MOUNTED, init)) then last.text else TypedText(init)
  }

  /** Text was typed while the tab was in use, and since then the debounce has not fired, no other filter
      was chosen and the tab was not left. */
  ghost predicate Unsent(events: seq<Event>)
    decreases |events|
  {
    events != []
    && var init, last := events[..|events| - 1], events[|events| - 1];
       match last
       case Type(_) => Interactive(Run(MOUNTED, init)) || Unsent(init)
       case TimerFires => false
       case Deactivate => false
       case Filter(level) => Unsent(init) && !(Interactive(Run(MOUNTED, init)) && level != ChosenLevel(init))
       case _ => Unsent(init)
  }

  lemma {:induction false} CriteriaAreTheUsers(events: seq<Event>)
    ensures var v := Run(MOUNTED, events);
            && v.filter == ChosenLevel(events) && v.search == TypedText(events)
            && (v.hostActive ==> v.timer == Unsent(events))
    decreases |events|
  {
    if events != [] {
      CriteriaAreTheUsers(events[..|events| - 1]);
      UserStep(Run(MOUNTED, events[..|events| - 1]), events[|events| - 1]);
      DebounceStep(Run(MOUNTED, events[..|events| - 1]), events[|events| - 1]);
    }
  }

  /** Whether the debounce is pending after an event. */
  predicate StillPending(v: View, e: Event) {
    match e
    case Type(_) => Interactive(v) || v.timer
    case TimerFires => false
    case Deactivate => false
    case Filter(level) => v.timer && !(Interactive(v) && level != v.filter)
    case _ => v.timer
  }

  /** What one event does to the criteria and to the debounce. */
  lemma UserStep(v: View, e: Event)
    ensures var w := Step(v, e);
            && w.filter == (if e.Filter? && Interactive(v) then e.level else v.filter)
            && w.search == (if e.Type? && Interactive(v) then e.text else v.search)
  {
  }

  lemma DebounceStep(v: View, e: Event)
    ensures Step(v, e).hostActive ==> v.hostActive && Step(v, e).timer == StillPending(v, e)
  {
  }

  /** In every run, while the tab is in use, the latest request asks for the level that was chosen last
      and, unless typed text is unsent, for the text that was typed last, without the white space around it. */
  lemma AsksWhatTheUserChose(events: seq<Event>) returns (before: string, text: string, after: string)
    ensures Trimmed(TypedText(events), before, text, after)
    ensures var v := Run(MOUNTED, events);
            Interactive(v) ==>
              && v.requests != [] && Last(v).query.priority == ChosenLevel(events)
              && (!Unsent(events) ==> Last(v).query.search == if text == "" then None else Some(text))
  {
    RunKeeps(events);
    CriteriaAreTheUsers(events);
    text := Trim(TypedText(events));
    before, after := TrimIs(TypedText(events));
  }

  /** A click on a filter not chosen yet chooses it and asks once, from the first page and with the text as
      it stands. */
  lemma FilterClickAsks(v: View, level: Option<Level>)
    requires Interactive(v) && level != v.filter
    ensures var w := Step(v, Filter(level));
            && w.filter == level && !w.timer && w.loading && w.items == [] && w.skip == 0
            && w.requests == v.requests + [Request(0, BuildPrioritizedQuery(level, v.search), v.activation)]
            && w.generation == v.generation + 1
  {
  }

  /** Where the request that an event issues starts; None if it issues none. */
  function AskedFrom(v: View, e: Event): Option<int> {
    match e
    case Activate => Some(0)
    case Filter(level) => if Interactive(v) && level != v.filter then Some(0) else None
    case TimerFires => if v.timer && Interactive(v) then Some(0) else None
    case Refresh => if Interactive(v) && !v.loading then Some(v.skip) else None
    case Next =>
      if Interactive(v) && PagerShown(v) && v.total.value > v.skip + |v.items| then Some(v.skip + 100) else None
    case Previous =>
      if !Interactive(v) || !PagerShown(v) || v.skip <= 0 then None
      else Some(if v.skip < 100 then 0 else v.skip - 100)
    case _ => None
  }

  /** Each event issues one request or none, under the criteria as they stand after it. */
  lemma EventsAsk(v: View, e: Event)
    ensures var w := Step(v, e);
            match AskedFrom(v, e)
            case None => w.requests == v.requests && w.generation == v.generation
            case Some(skip) =>
              && w.requests == v.requests + [Request(skip, BuildPrioritizedQuery(w.filter, w.search), w.activation)]
              && w.generation == v.generation + 1 && w.skip == skip && w.loading && !w.hasLoadError && w.items == []
  {
    if e.Respond? && Answerable(v, e.generation) {
      AnswersAreNoRequests(v, e.generation, e.answer);
    }
  }

  /** Another mount has taken over the container, the panel was rendered anew, or its session expired. */
  predicate Over(v: View) {
    !v.mountCurrent || !v.hostActive
  }

  /** These three end the section, and nothing else does. */
  lemma OverExactlyAfter(v: View, e: Event)
    ensures Over(Step(v, e)) <==>
              || Over(v) || e.Supersede? || e.HostEnds?
              || (e.Respond? && Answerable(v, e.generation) && e.generation == v.generation
                  && StillCurrent(v, v.requests[e.generation - 1].activation) && e.answer == Unauthorized)
  {
  }

  /** A section that is over stays over: it is not in use, no response is shown, and only entering the
      tab still asks for anything. */
  lemma OverForGood(v: View, e: Event)
    requires Over(v)
    ensures var w := Step(v, e);
            && Over(w) && !Interactive(w)
            && (e.Respond? ==> w == v || w == v.(answered := v.answered[e.generation := e.answer]))
            && (!e.Activate? ==> w.requests == v.requests && w.items == v.items && w.filter == v.filter
                                 && w.search == v.search)
  {
  }

  /** A response that is not to the latest request of the current activation changes nothing. */
  lemma SupersededChangesNothing(v: View, g: nat, answer: Answer)
    requires Answerable(v, g) && (g != v.generation || !StillCurrent(v, v.requests[g - 1].activation))
    ensures Step(v, Respond(g, answer)) == v.(answered := v.answered[g := answer])
  {
  }

  lemma LoadingCanEnd(v: View, page: Page)
    requires Inv(v) && Interactive(v) && v.loading
    ensures Answerable(v, v.generation)
    ensures var w := FinishLoad(v, v.generation, Loaded(page));
            Interactive(w) && !w.loading && !w.hasLoadError && w.items == page.items && w.total == Some(page.total)
                    && w.skip == v.skip
  {
    assert v.requests[v.generation - 1] == Last(v);
  }

  /** Nothing is lost either: while the tab is in use and loading, the answer still to come is that of
      the latest request, and it will be shown. */
  lemma LoadingEnds(events: seq<Event>, page: Page)
    requires Interactive(Run(MOUNTED, events)) && Run(MOUNTED, events).loading
    ensures Answerable(Run(MOUNTED, events), Run(MOUNTED, events).generation)
    ensures var v := Run(MOUNTED, events);
            var w := Step(v, Respond(v.generation, Loaded(page)));
            Interactive(w) && !w.loading && !w.hasLoadError && w.items == page.items && w.total == Some(page.total)
                    && w.skip == v.skip
  {
    RunKeeps(events);
    LoadingCanEnd(Run(MOUNTED, events), page);
  }

  // --- Walking through a list that does not change ----------------------

  /** The page the backend returns for a skip, from a fixed list of rows. */
  function PageAt(list: seq<nat>, skip: nat): Page {
    var from_ := if skip < |list| then skip else |list|;
    var to := if skip + PAGE_SIZE < |list| then skip + PAGE_SIZE else |list|;
    Page(list[from_..to], |list|)
  }

  /** Open the tab, then press Next and wait for the answer `n` times. */
  function Walk(list: seq<nat>, n: nat): View {
    if n == 0 then Step(Step(MOUNTED, Activate), Respond(1, Loaded(PageAt(list, 0))))
    else Step(Step(Walk(list, n - 1), Next), Respond(n + 1, Loaded(PageAt(list, n * PAGE_SIZE))))
  }

  /** After `n` pages the (n+1)-st is shown, and Next and Previous are live exactly when there is a
      page in their direction. */
  ghost predicate At(v: View, list: seq<nat>, n: nat) {
    && Interactive(v) && !v.loading && !v.hasLoadError && !v.timer
    && v.generation == |v.requests| == n + 1 && (forall g :: g in v.answered ==> g <= n + 1)
    && v.skip == n * PAGE_SIZE && v.items == PageAt(list, v.skip).items && v.total == Some(|list|)
  }

  lemma OneMorePage(v: View, list: seq<nat>, n: nat)
    requires n > 0 && At(v, list, n - 1) && n * PAGE_SIZE < |list|
    ensures At(Step(Step(v, Next), Respond(n + 1, Loaded(PageAt(list, n * PAGE_SIZE)))), list, n)
  {
    var w := Step(v, Next);
    assert |v.items| == PAGE_SIZE;
    assert w == StartLoad(v.(skip := v.skip + PAGE_SIZE));
    assert w.requests[n].activation == v.activation;
  }

  lemma FirstPage(list: seq<nat>)
    ensures At(Walk(list, 0), list, 0)
  {
    var w := Step(MOUNTED, Activate);
    assert w.requests[0].activation == w.activation;
  }

  lemma {:induction false} WalkShows(list: seq<nat>, n: nat)
    requires n == 0 || n * PAGE_SIZE < |list|
    ensures At(Walk(list, n), list, n)
  {
    if n == 0 {
      FirstPage(list);
    } else {
      WalkShows(list, n - 1);
      OneMorePage(Walk(list, n - 1), list, n);
    }
  }

  lemma NextExactlyWhenMore(v: View, list: seq<nat>, n: nat)
    requires At(v, list, n) && (n == 0 || n * PAGE_SIZE < |list|)
    ensures Step(v, Next) == v <==> |list| <= (n + 1) * PAGE_SIZE
  {
    assert Step(v, Next) == v || Step(v, Next).generation == v.generation + 1;
  }

  /** Previous asks for the page before, and there is none before the first. */
  lemma PreviousGoesBack(list: seq<nat>, n: nat)
    requires n == 0 || n * PAGE_SIZE < |list|
    ensures var v := Walk(list, n);
            if n == 0 then Step(v, Previous) == v
            else Step(v, Previous) == StartLoad(v.(skip := (n - 1) * PAGE_SIZE))
  {
    WalkShows(list, n);
  }

  /** The items shown on the pages walked through, in order. */
  function Seen(list: seq<nat>, n: nat): seq<nat> {
    (if n == 0 then [] else Seen(list, n - 1)) + Walk(list, n).items
  }

  /** The part of the list that n pages make up. */
  function Pages(list: seq<nat>, n: nat): seq<nat> {
    list[..if n * PAGE_SIZE < |list| then n * PAGE_SIZE else |list|]
  }

  lemma PagesGrow(list: seq<nat>, n: nat)
    ensures Pages(list, n) + PageAt(list, n * PAGE_SIZE).items == Pages(list, n + 1)
    ensures Pages(list, n) == list <==> |list| <= n * PAGE_SIZE
  {
  }

  lemma WalkItems(list: seq<nat>, n: nat)
    requires n == 0 || n * PAGE_SIZE < |list|
    ensures Walk(list, n).items == PageAt(list, n * PAGE_SIZE).items
  {
    WalkShows(list, n);
  }

  lemma SeenMore(list: seq<nat>, n: nat, before: seq<nat>)
    requires (n == 0 || n * PAGE_SIZE < |list|) && before == Pages(list, n)
    ensures before + Walk(list, n).items == Pages(list, n + 1)
  {
    WalkItems(list, n);
    PagesGrow(list, n);
  }

  lemma {:induction false} SeenIsPages(list: seq<nat>, n: nat)
    requires n == 0 || n * PAGE_SIZE < |list|
    ensures Seen(list, n) == Pages(list, n + 1)
  {
    if n == 0 {
      SeenMore(list, 0, []);
    } else {
      SeenIsPages(list, n - 1);
      SeenMore(list, n, Seen(list, n - 1));
    }
  }

  /** Walking forward shows the list from its beginning without gaps or repetitions, and Next is
      refused exactly when all of it has been seen. */
  lemma WalkCoversTheList(list: seq<nat>, n: nat)
    requires n == 0 || n * PAGE_SIZE < |list|
    ensures Seen(list, n) == Pages(list, n + 1)
    ensures Step(Walk(list, n), Next) == Walk(list, n) <==> Seen(list, n) == list
  {
    SeenIsPages(list, n);
    PagesGrow(list, n + 1);
    WalkShows(list, n);
    NextExactlyWhenMore(Walk(list, n), list, n);
  }

  // --- Empty pages ------------------------------------------------------

  /** The page a backend with `total` matching rows returns. */
  predicate Honest(page: Page, skip: int) {
    |page.items| == if page.total <= skip then 0
                    else if page.total - skip < PAGE_SIZE then page.total - skip
                    else PAGE_SIZE
  }

  /** Rows deleted between two pages leave an empty page beyond the first one, shown as if there were
      no rows at all. */
  lemma EmptyPageBeyondTheFirst(hundred: seq<nat>)
    requires |hundred| == 100
    ensures Honest(Page(hundred, 101), 0) && Honest(Page([], 100), 100)
    ensures var first := Step(Step(MOUNTED, Activate), Respond(1, Loaded(Page(hundred, 101))));
            var v := Step(Step(first, Next), Respond(2, Loaded(Page([], 100))));
            Interactive(v) && !v.loading && v.items == [] && v.skip == 100 && v.total == Some(100)
  {
    var a := Step(MOUNTED, Activate);
    var b := Step(a, Respond(1, Loaded(Page(hundred, 101))));
    assert b.items == hundred && b.skip == 0 && b.total == Some(101) && !b.loading;
    var c := Step(b, Next);
    assert c.skip == 100 && c.generation == 2 && |c.requests| == 2;
  }

  /** When the pager moves on from an honest page, the honest page that follows is empty if and only if
      it counts no more rows than were walked past. */
  lemma NextPageEmptyExactlyWhenShrunk(v: View, after: Page)
    requires Inv(v) && Interactive(v) && PagerShown(v) && Honest(Page(v.items, v.total.value), v.skip)
    requires v.skip + |v.items| < v.total.value && Honest(after, v.skip + PAGE_SIZE)
    ensures var w := Step(Step(v, Next), Respond(v.generation + 1, Loaded(after)));
            Interactive(w) && PagerShown(w) && (w.items == [] <==> after.total <= v.skip + |v.items|)
  {
    ShownAfterIs(v, Next, after);
  }

  // --- The guard the pager lacks ----------------------------------------

  /** The clicks that load again without going back to the first page. */
  predicate Reloads(e: Event) {
    e.Next? || e.Previous? || e.Refresh?
  }

  /** What the next request would ask for is what the page on display was asked for. */
  predicate QueryUnchanged(v: View)
    requires v.requests != []
  {
    BuildPrioritizedQuery(v.filter, v.search) == Last(v).query
  }

  /** An honest answer to the request that the click issues, from a backend in which no query has come
      to find fewer rows than it did. */
  predicate CanAnswer(v: View, e: Event, after: Page)
    requires v.requests != [] && v.total.Some?
  {
    && Honest(after, Step(v, e).skip)
    && (QueryUnchanged(v) ==> after.total >= v.total.value)
  }

  function ShownAfter(v: View, e: Event, after: Page): View {
    Step(Step(v, e), Respond(v.generation + 1, Loaded(after)))
  }

  lemma ShownAfterIs(v: View, e: Event, after: Page)
    requires Inv(v) && Interactive(v) && Reloads(e) && Step(v, e) != v
    ensures var w := ShownAfter(v, e, after);
            Interactive(w) && PagerShown(w) && w.items == after.items && w.skip == Step(v, e).skip
  {
    var w := Step(v, e);
    assert w.generation == v.generation + 1 == |w.requests|;
    assert w.requests[v.generation] == Last(w) && v.generation + 1 !in w.answered;
  }

  /** From an honest page with items, a click on Next, Previous or Refresh that stays beyond the first
      page shows items under every answer of such a backend if and only if the criteria still read as
      they did when the page was asked for. */
  lemma ReloadShowsItemsExactlyWhenQueryUnchanged(v: View, e: Event)
    requires Inv(v) && Interactive(v) && PagerShown(v) && Honest(Page(v.items, v.total.value), v.skip)
    requires v.items != [] && Reloads(e) && Step(v, e) != v && Step(v, e).skip > 0
    ensures (forall after :: CanAnswer(v, e, after) ==> ShownAfter(v, e, after).items != []) <==> QueryUnchanged(v)
  {
    forall after ensures ShownAfter(v, e, after).items == after.items {
      ShownAfterIs(v, e, after);
    }
    var nothing := Page([], 0);
    assert !QueryUnchanged(v) ==> CanAnswer(v, e, nothing) && ShownAfter(v, e, nothing).items == [];
    assert v.total.value > Step(v, e).skip;
  }

  // --- Empty pages in whole runs ----------------------------------------

  /** Every page that arrived was an honest one. */
  ghost predicate AllHonest(v: View)
    requires v.generation == |v.requests|
  {
    forall g :: g in v.answered && 1 <= g <= v.generation && v.answered[g].Loaded? ==>
      Honest(v.answered[g].page, v.requests[g - 1].skip)
  }

  /** What one query found was never fewer rows than an earlier request for the same query found. */
  ghost predicate TotalsNeverFall(v: View)
    requires v.generation == |v.requests|
  {
    forall g, h :: 1 <= g < h <= v.generation && Found(v, g) && Found(v, h)
                   && v.requests[g - 1].query == v.requests[h - 1].query ==>
      v.answered[g].page.total <= v.answered[h].page.total
  }

  predicate Found(v: View, g: nat) {
    g in v.answered && v.answered[g].Loaded?
  }

  /** An earlier answer to the query asked last found more rows than are skipped now. */
  ghost predicate Promised(v: View)
    requires v.requests != [] && v.generation == |v.requests|
  {
    exists g :: 1 <= g < v.generation && Found(v, g) && v.requests[g - 1].query == Last(v).query
                && v.answered[g].page.total > Last(v).skip
  }

  /** A request beyond the first page follows such an answer. */
  ghost predicate PagesFollow(v: View)
    requires Inv(v)
  {
    Interactive(v) && Last(v).skip > 0 ==> Promised(v)
  }

  /** Every request beyond the first page asked for what the request before it asked for. */
  ghost predicate QueriesKept(v: View) {
    forall i :: 0 < i < |v.requests| && v.requests[i].skip > 0 ==> v.requests[i].query == v.requests[i - 1].query
  }

  lemma OneMoreRequest(v: View, w: View, r: Request)
    requires v.requests != [] && w.requests == v.requests + [r]
    ensures QueriesKept(w) <==> QueriesKept(v) && (r.skip > 0 ==> r.query == Last(v).query)
  {
    if QueriesKept(w) {
      QueriesKeptBefore(v, w);
      assert w.requests[|v.requests|] == r && w.requests[|v.requests| - 1] == Last(v);
    }
  }

  /** A click that stays beyond the first page finds the criteria unchanged. */
  predicate Guarded(v: View, e: Event) {
    Reloads(e) && Interactive(v) && v.requests != [] && Step(v, e) != v && Step(v, e).skip > 0 ==> QueryUnchanged(v)
  }

  lemma ClickKeepsQueries(v: View, e: Event)
    requires Inv(v) && Interactive(v) && Reloads(e) && Step(v, e) != v
    ensures QueriesKept(Step(v, e)) <==> QueriesKept(v) && Guarded(v, e)
  {
    OneMoreRequest(v, Step(v, e), Last(Step(v, e)));
  }

  lemma FirstPageKeepsQueries(v: View, w: View, r: Request)
    requires QueriesKept(v) && w.requests == v.requests + [r] && r.skip == 0
    ensures QueriesKept(w)
  {
    if v.requests != [] {
      OneMoreRequest(v, w, r);
    }
  }

  lemma AnswersAreNoRequests(v: View, g: nat, answer: Answer)
    requires 1 <= g <= |v.requests|
    ensures FinishLoad(v, g, answer).requests == v.requests
  {
  }

  lemma OtherEventsKeepQueries(v: View, e: Event)
    requires Inv(v) && QueriesKept(v) && !Reloads(e)
    ensures QueriesKept(Step(v, e))
  {
    var w := Step(v, e);
    match e
    case Activate => FirstPageKeepsQueries(v, w, Last(w));
    case Filter(_) =>
      if w != v {
        FirstPageKeepsQueries(v, w, Last(w));
      }
    case TimerFires =>
      if v.timer && Interactive(v) {
        FirstPageKeepsQueries(v, w, Last(w));
      }
    case Respond(g, answer) =>
      if Answerable(v, g) {
        AnswersAreNoRequests(v, g, answer);
      }
    case _ =>
  }

  lemma StepKeepsQueries(v: View, e: Event)
    requires Inv(v)
    ensures QueriesKept(Step(v, e)) <==> QueriesKept(v) && Guarded(v, e)
  {
    if Reloads(e) {
      if Step(v, e) != v {
        ClickKeepsQueries(v, e);
      }
    } else if QueriesKept(v) {
      OtherEventsKeepQueries(v, e);
    } else {
      HistoryGrows(v, e);
      if QueriesKept(Step(v, e)) {
        QueriesKeptBefore(v, Step(v, e));
      }
    }
  }

  ghost predicate AllGuarded(events: seq<Event>) {
    forall n :: 0 <= n < |events| ==> GuardedAt(events, n)
  }

  predicate GuardedAt(events: seq<Event>, n: nat)
    requires n < |events|
  {
    Guarded(Run(MOUNTED, events[..n]), events[n])
  }

  lemma AllGuardedSplits(events: seq<Event>)
    requires events != []
    ensures AllGuarded(events) <==> AllGuarded(events[..|events| - 1]) && GuardedAt(events, |events| - 1)
  {
    var init := events[..|events| - 1];
    forall n | 0 <= n < |init| ensures GuardedAt(init, n) == GuardedAt(events, n) {
      assert init[..n] == events[..n] && init[n] == events[n];
    }
  }

  /** That is what the missing guard is for: the log of a run is of this kind if and only if every
      click that stayed beyond the first page found the criteria unchanged. */
  lemma {:induction false} QueriesKeptExactlyWhenGuarded(events: seq<Event>)
    ensures QueriesKept(Run(MOUNTED, events)) <==> AllGuarded(events)
    decreases |events|
  {
    if events != [] {
      var init := events[..|events| - 1];
      QueriesKeptExactlyWhenGuarded(init);
      RunKeeps(init);
      AllGuardedSplits(events);
      StepKeepsQueries(Run(MOUNTED, init), events[|events| - 1]);
    }
  }

  /** History only grows. */
  predicate Extends(v: View, w: View) {
    v.requests <= w.requests && forall g :: g in v.answered ==> g in w.answered && w.answered[g] == v.answered[g]
  }

  lemma HistoryGrows(v: View, e: Event)
    ensures Extends(v, Step(v, e))
  {
  }

  lemma HonestBefore(v: View, w: View)
    requires v.generation == |v.requests| && w.generation == |w.requests| && Extends(v, w) && AllHonest(w)
    ensures AllHonest(v)
  {
    forall g | g in v.answered && 1 <= g <= v.generation && v.answered[g].Loaded?
      ensures Honest(v.answered[g].page, v.requests[g - 1].skip)
    {
      assert w.requests[g - 1] == v.requests[g - 1];
    }
  }

  lemma QueriesKeptBefore(v: View, w: View)
    requires v.requests <= w.requests && QueriesKept(w)
    ensures QueriesKept(v)
  {
    forall i | 0 < i < |v.requests| && v.requests[i].skip > 0
      ensures v.requests[i].query == v.requests[i - 1].query
    {
      assert w.requests[i] == v.requests[i] && w.requests[i - 1] == v.requests[i - 1];
    }
  }

  /** Loading the same query again, no further down than promised. */
  lemma PromiseCarries(v: View, w: View, g: nat)
    requires Inv(v) && v.requests != [] && w.generation == |w.requests| && w.requests != []
    requires 1 <= g <= v.generation < w.generation && Found(v, g)
    requires w.requests[..v.generation] == v.requests && w.answered == v.answered
    requires v.requests[g - 1].query == Last(w).query && v.answered[g].page.total > Last(w).skip
    ensures Promised(w)
  {
    assert w.requests[g - 1] == v.requests[g - 1];
    assert Found(w, g);
  }

  lemma NextFollows(v: View)
    requires Inv(v) && AllHonest(v) && PagesFollow(v) && Inv(Step(v, Next)) && QueriesKept(Step(v, Next))
    ensures PagesFollow(Step(v, Next))
  {
    var w := Step(v, Next);
    if w != v {
      assert w.requests[v.generation] == Last(w) && w.requests[v.generation - 1] == Last(v);
      assert Honest(v.answered[v.generation].page, Last(v).skip);
      PromiseCarries(v, w, v.generation);
    }
  }

  lemma ReloadFollows(v: View, e: Event)
    requires Inv(v) && PagesFollow(v) && (e.Previous? || e.Refresh?) && Inv(Step(v, e)) && QueriesKept(Step(v, e))
    ensures PagesFollow(Step(v, e))
  {
    var w := Step(v, e);
    if w != v && Last(w).skip > 0 {
      assert w.requests[v.generation] == Last(w) && w.requests[v.generation - 1] == Last(v);
      var g :| 1 <= g < v.generation && Found(v, g) && v.requests[g - 1].query == Last(v).query
               && v.answered[g].page.total > Last(v).skip;
      PromiseCarries(v, w, g);
    }
  }

  lemma AnswerFollows(v: View, g: nat, answer: Answer)
    requires Inv(v) && PagesFollow(v) && Answerable(v, g) && Inv(FinishLoad(v, g, answer))
    ensures PagesFollow(FinishLoad(v, g, answer))
  {
    var w := FinishLoad(v, g, answer);
    if Interactive(w) && Last(w).skip > 0 {
      var h :| 1 <= h < v.generation && Found(v, h) && v.requests[h - 1].query == Last(v).query
               && v.answered[h].page.total > Last(v).skip;
      assert Found(w, h);
    }
  }

  lemma StepFollows(v: View, e: Event)
    requires Inv(v) && AllHonest(v) && PagesFollow(v) && QueriesKept(Step(v, e))
    ensures Inv(Step(v, e)) && PagesFollow(Step(v, e))
  {
    StepKeeps(v, e);
    match e
    case Next => NextFollows(v);
    case Previous => ReloadFollows(v, e);
    case Refresh => ReloadFollows(v, e);
    case Respond(g, answer) =>
      if Answerable(v, g) {
        AnswerFollows(v, g, answer);
      }
    case _ =>
  }

  lemma {:induction false} RunFollows(events: seq<Event>)
    requires Run(MOUNTED, events).generation == |Run(MOUNTED, events).requests| && AllHonest(Run(MOUNTED, events))
    requires QueriesKept(Run(MOUNTED, events))
    ensures Inv(Run(MOUNTED, events)) && PagesFollow(Run(MOUNTED, events))
    decreases |events|
  {
    RunKeeps(events);
    if events != [] {
      var before, e := Run(MOUNTED, events[..|events| - 1]), events[|events| - 1];
      RunKeeps(events[..|events| - 1]);
      HistoryGrows(before, e);
      HonestBefore(before, Run(MOUNTED, events));
      QueriesKeptBefore(before, Run(MOUNTED, events));
      RunFollows(events[..|events| - 1]);
      StepFollows(before, e);
    }
  }

  /** In every run in which the pages are honest, the totals of a query never fall, and every request
      beyond the first page kept the query of the one before it: an empty page is the first page. */
  lemma EmptyPageIsTheFirst(events: seq<Event>)
    requires var v := Run(MOUNTED, events);
             && v.generation == |v.requests| && AllHonest(v) && TotalsNeverFall(v) && QueriesKept(v)
             && Interactive(v) && !v.loading && !v.hasLoadError
    ensures Run(MOUNTED, events).items == [] ==> Run(MOUNTED, events).skip == 0
  {
    RunFollows(events);
    LaterPagesHaveItems(Run(MOUNTED, events));
  }

  lemma LaterPagesHaveItems(v: View)
    requires Inv(v) && PagesFollow(v) && AllHonest(v) && TotalsNeverFall(v)
    requires Interactive(v) && !v.loading && !v.hasLoadError
    ensures v.skip > 0 ==> v.items != []
  {
    if v.skip > 0 {
      var g :| 1 <= g < v.generation && Found(v, g) && v.requests[g - 1].query == Last(v).query
               && v.answered[g].page.total > Last(v).skip;
      assert Found(v, v.generation) && Honest(v.answered[v.generation].page, Last(v).skip);
    }
  }

  /** The last proviso is needed: Next asks for the page after the one shown, but with the text typed
      since, so a click within the debounce shows an empty page although no total ever changed. */
  lemma TypingBeforeNextShowsNothing(hundred: seq<nat>)
    requires |hundred| == 100
    ensures var first := Step(Step(MOUNTED, Activate), Respond(1, Loaded(Page(hundred, 150))));
            var v := Step(Step(Step(first, Type("x")), Next), Respond(2, Loaded(Page([], 0))));
            && v.generation == |v.requests| == 2 && AllHonest(v) && TotalsNeverFall(v)
            && Interactive(v) && !v.loading && !v.hasLoadError && v.items == [] && v.skip == 100 && !QueriesKept(v)
  {
    var a := Step(MOUNTED, Activate);
    var b := Step(a, Respond(1, Loaded(Page(hundred, 150))));
    assert b.items == hundred && b.skip == 0 && b.total == Some(150) && PagerShown(b);
    var d := Step(Step(b, Type("x")), Next);
    assert Trim("") == "" && Trim("x") == "x";
    assert d.requests == [Request(0, Query(None, None), 1), Request(100, Query(Some("x"), None), 1)];
    var v := Step(d, Respond(2, Loaded(Page([], 0))));
    assert v.answered == map[1 := Loaded(Page(hundred, 150)), 2 := Loaded(Page([], 0))];
    assert v.requests[1].skip == 100 && v.requests[1].query != v.requests[0].query;
  }
}
