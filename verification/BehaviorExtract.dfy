/**
 Reading loosely typed behaviour rows: which entries count, and what aggregating many rows yields.
 */
module BehaviorExtract {
  import opened Wrappers
  import opened Tallies
  import Text

  // --- Values as they come out of JSONB ---------------------------------

  datatype Number =
    | NaN
    | Infinite(negative: bool)
    | Finite(value: real)

  datatype Json =
    | Null
    | Bool(b: bool)
    | Int(i: int)
    | Float(f: Number)
    | Str(s: string)
    | List(items: seq<Json>)
    | Dict(entries: seq<(string, Json)>)

  /** dict.get: Null stands for a missing key. */
  function Get(entries: seq<(string, Json)>, key: string): Json {
    if entries == [] then Null
    else if entries[0].0 == key then entries[0].1
    else Get(entries[1..], key)
  }

  function ValidNumber(v: Json): (r: Option<real>)
    ensures r.Some? ==> r.value >= 0.0
  {
    match v
    case Int(i) => if i >= 0 then Some(i as real) else None
    case Float(Finite(x)) => if x >= 0.0 then Some(x) else None
    case _ => None
  }

  function ValidCount(v: Json): Option<nat> {
    match v
    case Int(i) => if i >= 0 then Some(i) else None
    case Float(Finite(x)) => if x >= 0.0 && x == x.Floor as real then Some(x.Floor) else None
    case _ => None
  }

  const MAX_NAME_LENGTH := 200

  function CleanName(raw: Json): (r: Option<string>)
    ensures r.Some? ==> 0 < |r.value| <= MAX_NAME_LENGTH && !Text.IsSpace(r.value[0])
  {
    if !raw.Str? then None
    else
      var stripped := Text.Strip(raw.s);
      if stripped == [] then None
      else if |stripped| > MAX_NAME_LENGTH then Some(stripped[..MAX_NAME_LENGTH]) else Some(stripped)
  }

  // --- Dictionaries -----------------------------------------------------

  /** Interactions with a section, and milliseconds spent on it. */
  datatype Activity = Activity(hovers: nat, ms: real)

  const NO_ACTIVITY := Activity(0, 0.0)

  function AddCounts(a: nat, b: nat): nat {
    a + b
  }

  function AddActivity(a: Activity, b: Activity): Activity {
    Activity(a.hovers + b.hovers, a.ms + b.ms)
  }

  const COUNTS: Adder<nat> := Adder<nat>.Adder(0, AddCounts)
  const SECTIONS: Adder<Activity> := Adder<Activity>.Adder(NO_ACTIVITY, AddActivity)

  lemma Lawful()
    ensures COUNTS.Lawful() && SECTIONS.Lawful()
  {
  }

  // --- Clicked buttons --------------------------------------------------

  /** One list item, when it is a usable click count. */
  function ButtonEntry(item: Json): Option<(string, nat)> {
    if !item.Dict? then None
    else
      match CleanName(Get(item.entries, "button"))
      case None => None
      case Some(name) =>
        match ValidCount(Get(item.entries, "count"))
        case None => None
        case Some(count) => if count > 0 then Some((name, count)) else None
  }

  /** The usable items, in order. */
  function ButtonEntriesOf(items: seq<Json>): seq<(string, nat)> {
    if items == [] then []
    else
      var rest := ButtonEntriesOf(items[..|items| - 1]);
      match ButtonEntry(items[|items| - 1]) case Some(e) => rest + [e] case None => rest
  }

  function ButtonEntries(clickedButtons: Json): seq<(string, nat)> {
    if clickedButtons.List? then ButtonEntriesOf(clickedButtons.items) else []
  }

  function ButtonCounts(clickedButtons: Json): map<string, nat> {
    Tally(COUNTS, ButtonEntries(clickedButtons))
  }

  lemma BumpCounts(m: map<string, nat>, name: string, count: nat)
    ensures Bump(COUNTS, m, name, count) == m[name := (if name in m then m[name] else 0) + count]
  {
  }

  lemma BumpActivity(m: map<string, Activity>, name: string, amount: Activity)
    ensures Bump(SECTIONS, m, name, amount)
            == m[name := AddActivity(if name in m then m[name] else NO_ACTIVITY, amount)]
  {
  }

  lemma ButtonStep(items: seq<Json>, i: nat)
    requires i < |items|
    ensures var before := Tally(COUNTS, ButtonEntriesOf(items[..i]));
            Tally(COUNTS, ButtonEntriesOf(items[..i + 1])) ==
            match ButtonEntry(items[i]) case Some(e) => Bump(COUNTS, before, e.0, e.1) case None => before
  {
    var entries := ButtonEntriesOf(items[..i]);
    assert items[..i + 1][..i] == items[..i];
    if ButtonEntry(items[i]).Some? {
      assert (entries + [ButtonEntry(items[i]).value])[..|entries|] == entries;
    }
  }

  method ExtractButtonCounts(clickedButtons: Json) returns (counts: map<string, nat>)
    ensures counts == ButtonCounts(clickedButtons)
  {
    counts := map[];
    if !clickedButtons.List? {
      return;
    }
    var items := clickedButtons.items;
    var i := 0;
    while i < |items|
      invariant 0 <= i <= |items|
      invariant counts == Tally(COUNTS, ButtonEntriesOf(items[..i]))
    {
      var entry := ButtonEntry(items[i]);
      ButtonStep(items, i);
      i := i + 1;
      if entry.None? {
        continue;
      }
      var (name, count) := entry.value;
      BumpCounts(counts, name, count);
      counts := counts[name := (if name in counts then counts[name] else 0) + count];
    }
    assert items[..|items|] == items;
  }

  // --- What a click is, told from the raw item --------------------------

  /** The value found under a key is that of its first entry. */
  ghost predicate Under(entries: seq<(string, Json)>, key: string, v: Json) {
    exists i :: 0 <= i < |entries| && entries[i] == (key, v) && forall j :: 0 <= j < i ==> entries[j].0 != key
  }

  lemma UnderTail(entries: seq<(string, Json)>, key: string, v: Json)
    requires entries != [] && entries[0].0 != key
    ensures Under(entries, key, v) <==> Under(entries[1..], key, v)
  {
    var rest := entries[1..];
    if Under(entries, key, v) {
      var i :| 0 <= i < |entries| && entries[i] == (key, v) && forall j :: 0 <= j < i ==> entries[j].0 != key;
      assert rest[i - 1] == (key, v) && forall j :: 0 <= j < i - 1 ==> rest[j] == entries[j + 1];
    }
    if Under(rest, key, v) {
      var i :| 0 <= i < |rest| && rest[i] == (key, v) && forall j :: 0 <= j < i ==> rest[j].0 != key;
      assert entries[i + 1] == (key, v) && forall j :: 0 < j < i + 1 ==> entries[j] == rest[j - 1];
    }
  }

  lemma {:induction false} GetIs(entries: seq<(string, Json)>, key: string, v: Json)
    requires v != Null
    ensures Get(entries, key) == v <==> Under(entries, key, v)
  {
    if entries != [] {
      if entries[0].0 == key {
        assert entries[0] == (key, entries[0].1);
      } else {
        UnderTail(entries, key, v);
        GetIs(entries[1..], key, v);
      }
    }
  }

  /** A text whose inner part, without the white space around it and cut after 200 characters, is `name`. */
  ghost predicate Names(raw: Json, name: string) {
    raw.Str? && exists before, inner, after :: NamesWith(raw.s, before, inner, after, name)
  }

  predicate NamesWith(text: string, before: string, inner: string, after: string, name: string) {
    && Text.Around(text, before, inner, after) && Text.Bare(inner) && inner != []
    && name == if |inner| <= 200 then inner else inner[..200]
  }

  lemma CleanNameIs(raw: Json, name: string)
    ensures CleanName(raw) == Some(name) <==> Names(raw, name)
  {
    if raw.Str? {
      var before, after := Text.StripSplits(raw.s);
      if CleanName(raw) == Some(name) {
        assert NamesWith(raw.s, before, Text.Strip(raw.s), after, name);
      }
      if b, inner, a :| NamesWith(raw.s, b, inner, a, name) {
        Text.SameInner(raw.s, b, inner, a, before, Text.Strip(raw.s), after);
      }
    }
  }

  /** A number with this whole value. */
  predicate IsWhole(v: Json, n: nat) {
    v == Int(n) || v == Float(Finite(n as real))
  }

  /** A finite number with this value, not below zero. */
  predicate IsAmount(v: Json, x: real) {
    x >= 0.0 && ((v.Int? && v.i as real == x) || v == Float(Finite(x)))
  }

  lemma NumbersAre(v: Json, n: nat, x: real)
    ensures ValidCount(v) == Some(n) <==> IsWhole(v, n)
    ensures ValidNumber(v) == Some(x) <==> IsAmount(v, x)
  {
  }

  /** A dictionary with a name under "button" and a positive whole number under "count". */
  ghost predicate Click(item: Json, name: string, count: nat) {
    && item.Dict? && count > 0
    && (exists v :: Under(item.entries, "button", v) && Names(v, name))
    && (exists v :: Under(item.entries, "count", v) && IsWhole(v, count))
  }

  lemma NameUnder(entries: seq<(string, Json)>, key: string, name: string)
    ensures CleanName(Get(entries, key)) == Some(name) <==> exists v :: Under(entries, key, v) && Names(v, name)
  {
    CleanNameIs(Get(entries, key), name);
    if Get(entries, key) != Null {
      GetIs(entries, key, Get(entries, key));
    }
    if v :| Under(entries, key, v) && Names(v, name) {
      GetIs(entries, key, v);
    }
  }

  lemma WholeUnder(entries: seq<(string, Json)>, key: string, n: nat)
    ensures ValidCount(Get(entries, key)) == Some(n) <==> exists v :: Under(entries, key, v) && IsWhole(v, n)
  {
    NumbersAre(Get(entries, key), n, 0.0);
    if Get(entries, key) != Null {
      GetIs(entries, key, Get(entries, key));
    }
    if v :| Under(entries, key, v) && IsWhole(v, n) {
      GetIs(entries, key, v);
    }
  }

  lemma AmountUnder(entries: seq<(string, Json)>, key: string, x: real)
    ensures ValidNumber(Get(entries, key)) == Some(x) <==> exists v :: Under(entries, key, v) && IsAmount(v, x)
  {
    NumbersAre(Get(entries, key), 0, x);
    if Get(entries, key) != Null {
      GetIs(entries, key, Get(entries, key));
    }
    if v :| Under(entries, key, v) && IsAmount(v, x) {
      GetIs(entries, key, v);
    }
  }

  lemma ButtonEntryIs(item: Json, name: string, count: nat)
    ensures ButtonEntry(item) == Some((name, count)) <==> Click(item, name, count)
  {
    if item.Dict? {
      NameUnder(item.entries, "button", name);
      WholeUnder(item.entries, "count", count);
    }
  }

  /** No name: missing, not a text, or nothing but white space. */
  predicate Nameless(v: Json) {
    v.Str? ==> Text.Blank(v.s)
  }

  /** No positive whole number: missing, of another type, not finite, fractional, zero or negative. */
  predicate Countless(v: Json) {
    match v
    case Int(i) => i <= 0
    case Float(Finite(x)) => x <= 0.0 || x.Floor as real != x
    case _ => true
  }

  lemma NamelessIs(v: Json)
    ensures Nameless(v) <==> CleanName(v).None?
  {
    if v.Str? {
      Text.StripBlank(v.s);
    }
  }

  lemma CountlessIs(v: Json)
    ensures Countless(v) <==> ValidCount(v) == None || ValidCount(v) == Some(0)
  {
  }

  lemma NoEntryIs(item: Json)
    ensures ButtonEntry(item).None? <==> forall name, count: nat :: !Click(item, name, count)
  {
    forall name, count: nat ensures ButtonEntry(item) == Some((name, count)) <==> Click(item, name, count) {
      ButtonEntryIs(item, name, count);
    }
    assert ButtonEntry(item).Some? ==> Click(item, ButtonEntry(item).value.0, ButtonEntry(item).value.1);
  }

  /** An item is no click for one of these reasons only: it is no dictionary, there is no name under
      "button", or no positive whole number under "count". */
  lemma NoClickExactlyWhen(item: Json)
    ensures (forall name, count: nat :: !Click(item, name, count))
       <==> !item.Dict? || Nameless(Get(item.entries, "button")) || Countless(Get(item.entries, "count"))
  {
    NoEntryIs(item);
    if item.Dict? {
      NamelessIs(Get(item.entries, "button"));
      CountlessIs(Get(item.entries, "count"));
    }
  }

  lemma OneMoreItem(items: seq<Json>, item: Json)
    ensures var before := ButtonCounts(List(items));
            ButtonCounts(List(items + [item])) ==
            match ButtonEntry(item) case Some(e) => Bump(COUNTS, before, e.0, e.1) case None => before
  {
    assert (items + [item])[..|items|] == items && (items + [item])[..|items| + 1] == items + [item];
    ButtonStep(items + [item], |items|);
  }

  /** One more click raises exactly its own name, by exactly its own count, ... */
  lemma ClickCounts(items: seq<Json>, item: Json, name: string, count: nat)
    requires Click(item, name, count)
    ensures var before := ButtonCounts(List(items));
            ButtonCounts(List(items + [item])) == before[name := (if name in before then before[name] else 0) + count]
  {
    ButtonEntryIs(item, name, count);
    OneMoreItem(items, item);
    BumpCounts(ButtonCounts(List(items)), name, count);
  }

  /** ... and one more item of any other kind changes nothing. */
  lemma OthersCountNothing(items: seq<Json>, item: Json)
    requires forall name, count: nat :: !Click(item, name, count)
    ensures ButtonCounts(List(items + [item])) == ButtonCounts(List(items))
  {
    NoEntryIs(item);
    OneMoreItem(items, item);
  }

  /** Without a list of items there are no clicks. */
  lemma NothingListed(v: Json)
    requires !v.List? || v.items == []
    ensures ButtonCounts(v) == map[]
  {
  }

  /** How many clicks on one button one item stands for. */
  ghost function ClicksOn(item: Json, name: string): nat {
    if exists count: nat :: Click(item, name, count) then
      var count: nat :| Click(item, name, count);
      count
    else 0
  }

  ghost function AllClicksOn(items: seq<Json>, name: string): nat {
    if items == [] then 0 else AllClicksOn(items[..|items| - 1], name) + ClicksOn(items[|items| - 1], name)
  }

  lemma ClicksOnIs(item: Json, name: string)
    ensures ClicksOn(item, name)
         == match ButtonEntry(item) case Some(e) => if e.0 == name then e.1 else 0 case None => 0
  {
    forall count: nat ensures ButtonEntry(item) == Some((name, count)) <==> Click(item, name, count) {
      ButtonEntryIs(item, name, count);
    }
    if ButtonEntry(item).Some? && ButtonEntry(item).value.0 == name {
      assert Click(item, name, ButtonEntry(item).value.1);
    }
  }

  lemma {:induction false} SumOfClicks(items: seq<Json>, name: string)
    ensures SumOf(COUNTS, ButtonEntriesOf(items), name) == AllClicksOn(items, name)
    decreases |items|
  {
    if items != [] {
      var init, item := items[..|items| - 1], items[|items| - 1];
      var rest := ButtonEntriesOf(init);
      SumOfClicks(init, name);
      ClicksOnIs(item, name);
      if ButtonEntry(item).Some? {
        assert (rest + [ButtonEntry(item).value])[..|rest|] == rest;
      }
    }
  }

  /** The same on any button. */
  ghost function Clicks(item: Json): nat {
    if exists name, count: nat :: Click(item, name, count) then
      var name, count: nat :| Click(item, name, count);
      count
    else 0
  }

  ghost function AllClicks(items: seq<Json>): nat {
    if items == [] then 0 else AllClicks(items[..|items| - 1]) + Clicks(items[|items| - 1])
  }

  lemma ClicksIs(item: Json)
    ensures Clicks(item) == match ButtonEntry(item) case Some(e) => e.1 case None => 0
  {
    forall name, count: nat ensures ButtonEntry(item) == Some((name, count)) <==> Click(item, name, count) {
      ButtonEntryIs(item, name, count);
    }
    if ButtonEntry(item).Some? {
      assert Click(item, ButtonEntry(item).value.0, ButtonEntry(item).value.1);
    }
  }

  lemma {:induction false} SumOfAllClicks(items: seq<Json>)
    ensures SumEntries(COUNTS, ButtonEntriesOf(items)) == AllClicks(items)
    decreases |items|
  {
    if items != [] {
      var init, item := items[..|items| - 1], items[|items| - 1];
      var rest := ButtonEntriesOf(init);
      SumOfAllClicks(init);
      ClicksIs(item);
      if ButtonEntry(item).Some? {
        assert (rest + [ButtonEntry(item).value])[..|rest|] == rest;
      }
    }
  }

  // --- Section activity -------------------------------------------------

  function OrZero(count: Option<nat>): nat {
    match count case Some(n) => n case None => 0
  }

  function OrZeroMs(ms: Option<real>): real {
    match ms case Some(x) => x case None => 0.0
  }

  /** One dictionary entry: an unusable field counts as zero, two unusable ones as nothing. */
  function SectionEntry(key: string, value: Json): Option<(string, Activity)> {
    var name := CleanName(Str(key));
    if name.None? || !value.Dict? then None
    else
      var hovers := OrZero(ValidCount(Get(value.entries, "hovers")));
      var ms := OrZeroMs(ValidNumber(Get(value.entries, "ms")));
      if hovers == 0 && ms == 0.0 then None else Some((name.value, Activity(hovers, ms)))
  }

  function SectionEntriesOf(entries: seq<(string, Json)>): seq<(string, Activity)> {
    if entries == [] then []
    else
      var rest, last := SectionEntriesOf(entries[..|entries| - 1]), entries[|entries| - 1];
      match SectionEntry(last.0, last.1) case Some(e) => rest + [e] case None => rest
  }

  function SectionEntries(cursorHoverData: Json): seq<(string, Activity)> {
    if cursorHoverData.Dict? then SectionEntriesOf(cursorHoverData.entries) else []
  }

  function SectionRaw(cursorHoverData: Json): map<string, Activity> {
    Tally(SECTIONS, SectionEntries(cursorHoverData))
  }

  lemma SectionStep(entries: seq<(string, Json)>, i: nat)
    requires i < |entries|
    ensures var before := Tally(SECTIONS, SectionEntriesOf(entries[..i]));
            Tally(SECTIONS, SectionEntriesOf(entries[..i + 1])) ==
            match SectionEntry(entries[i].0, entries[i].1) case Some(e) => Bump(SECTIONS, before, e.0, e.1)
                    case None => before
  {
    var usable := SectionEntriesOf(entries[..i]);
    assert entries[..i + 1][..i] == entries[..i];
    if SectionEntry(entries[i].0, entries[i].1).Some? {
      assert (usable + [SectionEntry(entries[i].0, entries[i].1).value])[..|usable|] == usable;
    }
  }

  method ExtractSectionRaw(cursorHoverData: Json) returns (result: map<string, Activity>)
    ensures result == SectionRaw(cursorHoverData)
  {
    result := map[];
    if !cursorHoverData.Dict? {
      return;
    }
    var entries := cursorHoverData.entries;
    var i := 0;
    while i < |entries|
      invariant 0 <= i <= |entries|
      invariant result == Tally(SECTIONS, SectionEntriesOf(entries[..i]))
    {
      var entry := SectionEntry(entries[i].0, entries[i].1);
      SectionStep(entries, i);
      i := i + 1;
      if entry.None? {
        continue;
      }
      var (name, amount) := entry.value;
      var previous := if name in result then result[name] else NO_ACTIVITY;
      BumpActivity(result, name, amount);
      result := result[name := AddActivity(previous, amount)];
    }
    assert entries[..|entries|] == entries;
  }

  // --- What a visit is, told from the raw entry -------------------------

  /** The whole number under "hovers", or 0 if there is none. */
  ghost predicate HoversAre(entries: seq<(string, Json)>, hovers: nat) {
    || (exists v :: Under(entries, "hovers", v) && IsWhole(v, hovers))
    || (hovers == 0 && forall v, n: nat :: Under(entries, "hovers", v) ==> !IsWhole(v, n))
  }

  /** The amount under "ms", or 0 if there is none. */
  ghost predicate MsAre(entries: seq<(string, Json)>, ms: real) {
    || (exists v :: Under(entries, "ms", v) && IsAmount(v, ms))
    || (ms == 0.0 && forall v, x :: Under(entries, "ms", v) ==> !IsAmount(v, x))
  }

  /** A section's name as key of a dictionary, with some hovers or some time. */
  ghost predicate Visit(key: string, value: Json, name: string, hovers: nat, ms: real) {
    && Names(Str(key), name) && value.Dict?
    && HoversAre(value.entries, hovers) && MsAre(value.entries, ms)
    && (hovers > 0 || ms > 0.0)
  }

  lemma HoversAreIs(entries: seq<(string, Json)>, hovers: nat)
    ensures HoversAre(entries, hovers) <==> hovers == OrZero(ValidCount(Get(entries, "hovers")))
  {
    forall n: nat
      ensures ValidCount(Get(entries, "hovers")) == Some(n)
         <==> exists v :: Under(entries, "hovers", v) && IsWhole(v, n)
    {
      WholeUnder(entries, "hovers", n);
    }
  }

  lemma MsAreIs(entries: seq<(string, Json)>, ms: real)
    ensures MsAre(entries, ms) <==> ms == OrZeroMs(ValidNumber(Get(entries, "ms")))
  {
    forall x
      ensures ValidNumber(Get(entries, "ms")) == Some(x) <==> exists v :: Under(entries, "ms", v) && IsAmount(v, x)
    {
      AmountUnder(entries, "ms", x);
    }
  }

  lemma SectionEntryIs(key: string, value: Json, name: string, hovers: nat, ms: real)
    ensures SectionEntry(key, value) == Some((name, Activity(hovers, ms))) <==> Visit(key, value, name, hovers, ms)
  {
    CleanNameIs(Str(key), name);
    if value.Dict? {
      HoversAreIs(value.entries, hovers);
      MsAreIs(value.entries, ms);
    }
  }

  lemma NoVisitIs(key: string, value: Json)
    ensures SectionEntry(key, value).None? <==> forall name, hovers: nat, ms :: !Visit(key, value, name, hovers, ms)
  {
    forall name, hovers: nat, ms
      ensures SectionEntry(key, value) == Some((name, Activity(hovers, ms))) <==> Visit(key, value, name, hovers, ms)
    {
      SectionEntryIs(key, value, name, hovers, ms);
    }
    if SectionEntry(key, value).Some? {
      var (name, a) := SectionEntry(key, value).value;
      assert Visit(key, value, name, a.hovers, a.ms);
    }
  }

  lemma SectionAdds(entries: seq<(string, Json)>, e: (string, Json), name: string, a: Activity)
    requires SectionEntry(e.0, e.1) == Some((name, a))
    ensures SectionRaw(Dict(entries + [e])) == Bump(SECTIONS, SectionRaw(Dict(entries)), name, a)
  {
    OneMoreSection(entries, e);
  }

  lemma OneMoreSection(entries: seq<(string, Json)>, e: (string, Json))
    ensures var before := SectionRaw(Dict(entries));
            SectionRaw(Dict(entries + [e])) ==
            match SectionEntry(e.0, e.1) case Some(v) => Bump(SECTIONS, before, v.0, v.1) case None => before
  {
    assert (entries + [e])[..|entries|] == entries && (entries + [e])[..|entries| + 1] == entries + [e];
    SectionStep(entries + [e], |entries|);
  }

  function SoFar(m: map<string, Activity>, name: string): Activity {
    if name in m then m[name] else Activity(0, 0.0)
  }

  /** `after` is `before` with one section raised. */
  predicate Raised(before: map<string, Activity>, after: map<string, Activity>, name: string, hovers: nat, ms: real) {
    after == before[name := Activity(SoFar(before, name).hovers + hovers, SoFar(before, name).ms + ms)]
  }

  lemma BumpRaises(m: map<string, Activity>, name: string, hovers: nat, ms: real)
    ensures Raised(m, Bump(SECTIONS, m, name, Activity(hovers, ms)), name, hovers, ms)
  {
    BumpActivity(m, name, Activity(hovers, ms));
  }

  /** One more visit raises exactly its own section, in each part by its own amount, ... */
  lemma VisitCounts(entries: seq<(string, Json)>, e: (string, Json), name: string, hovers: nat, ms: real)
    requires Visit(e.0, e.1, name, hovers, ms)
    ensures Raised(SectionRaw(Dict(entries)), SectionRaw(Dict(entries + [e])), name, hovers, ms)
  {
    SectionEntryIs(e.0, e.1, name, hovers, ms);
    SectionAdds(entries, e, name, Activity(hovers, ms));
    BumpRaises(SectionRaw(Dict(entries)), name, hovers, ms);
  }

  /** ... and one more entry of any other kind changes nothing. */
  lemma OthersVisitNothing(entries: seq<(string, Json)>, e: (string, Json))
    requires forall name, hovers: nat, ms :: !Visit(e.0, e.1, name, hovers, ms)
    ensures SectionRaw(Dict(entries + [e])) == SectionRaw(Dict(entries))
  {
    NoVisitIs(e.0, e.1);
    OneMoreSection(entries, e);
  }

  /** No positive amount: missing, of another type, not finite, zero or negative. */
  predicate Timeless(v: Json) {
    match v
    case Int(i) => i <= 0
    case Float(Finite(x)) => x <= 0.0
    case _ => true
  }

  lemma TimelessIs(v: Json)
    ensures Timeless(v) <==> OrZeroMs(ValidNumber(v)) == 0.0
  {
  }

  /** An entry is no visit for one of these reasons only: it has no name, its value is no dictionary, or
      there is neither a positive number of hovers nor a positive time. */
  lemma NoVisitExactlyWhen(key: string, value: Json)
    ensures (forall name, hovers: nat, ms :: !Visit(key, value, name, hovers, ms))
       <==> || Nameless(Str(key)) || !value.Dict?
            || (Countless(Get(value.entries, "hovers")) && Timeless(Get(value.entries, "ms")))
  {
    NoVisitIs(key, value);
    NamelessIs(Str(key));
    if value.Dict? {
      CountlessIs(Get(value.entries, "hovers"));
      TimelessIs(Get(value.entries, "ms"));
    }
  }

  lemma NothingVisited(v: Json)
    requires !v.Dict? || v.entries == []
    ensures SectionRaw(v) == map[]
  {
  }

  /** What one entry adds to one section. */
  ghost function VisitsTo(e: (string, Json), name: string): Activity {
    if exists hovers: nat, ms :: Visit(e.0, e.1, name, hovers, ms) then
      var hovers: nat, ms :| Visit(e.0, e.1, name, hovers, ms);
      Activity(hovers, ms)
    else NO_ACTIVITY
  }

  lemma VisitsToIs(e: (string, Json), name: string)
    ensures VisitsTo(e, name)
         == match SectionEntry(e.0, e.1) case Some(v) => (if v.0 == name then v.1 else NO_ACTIVITY)
            case None => NO_ACTIVITY
  {
    forall hovers: nat, ms
      ensures SectionEntry(e.0, e.1) == Some((name, Activity(hovers, ms))) <==> Visit(e.0, e.1, name, hovers, ms)
    {
      SectionEntryIs(e.0, e.1, name, hovers, ms);
    }
    if SectionEntry(e.0, e.1).Some? && SectionEntry(e.0, e.1).value.0 == name {
      var a := SectionEntry(e.0, e.1).value.1;
      assert Visit(e.0, e.1, name, a.hovers, a.ms);
    }
  }

  function EntryOf(e: (string, Json)): seq<(string, Activity)> {
    AsEntries(SectionEntry(e.0, e.1))
  }

  lemma {:induction false} EntriesFlatten(entries: seq<(string, Json)>)
    ensures SectionEntriesOf(entries) == Flatten(EntryOf, entries)
    decreases |entries|
  {
    if entries != [] {
      EntriesFlatten(entries[..|entries| - 1]);
    }
  }

  lemma OneEntry(e: (string, Json), name: string)
    ensures SumOf(SECTIONS, EntryOf(e), name) == VisitsTo(e, name)
  {
    Lawful();
    VisitsToIs(e, name);
    if SectionEntry(e.0, e.1).Some? {
      SumOfOne(SECTIONS, SectionEntry(e.0, e.1).value, name);
    }
  }

  /** What one row adds to one section. */
  ghost function RowVisitsTo(hovered: Json, name: string): Activity {
    if hovered.Dict? then SumRows(SECTIONS, e => VisitsTo(e, name), hovered.entries) else NO_ACTIVITY
  }

  lemma RowVisitsToIs(hovered: Json, name: string)
    ensures SumOf(SECTIONS, SectionEntries(hovered), name) == RowVisitsTo(hovered, name)
  {
    if hovered.Dict? {
      Lawful();
      forall e ensures SumOf(SECTIONS, EntryOf(e), name) == VisitsTo(e, name) {
        OneEntry(e, name);
      }
      EntriesFlatten(hovered.entries);
      SumOfFlatten(SECTIONS, EntryOf, e => VisitsTo(e, name), hovered.entries, name);
    }
  }

  // --- Many rows --------------------------------------------------------

  datatype Metric = Metric(
    id: nat, applicationId: Option<nat>, createdAt: Option<int>,
    timeOnPage: Json, clickedButtons: Json, cursorHoverData: Json, returnCount: Json)

  function ButtonTotals(metrics: seq<Metric>): map<string, nat> {
    MergeAll(COUNTS, (m: Metric) => ButtonCounts(m.clickedButtons), metrics)
  }

  function SectionTotals(metrics: seq<Metric>): map<string, Activity> {
    MergeAll(SECTIONS, (m: Metric) => SectionRaw(m.cursorHoverData), metrics)
  }

  /** Adds one row's dictionary, in whatever order its items come. */
  method AddRow<V(!new)>(ad: Adder<V>, total: map<string, V>, row: map<string, V>) returns (sum: map<string, V>)
    requires ad.Lawful()
    ensures sum == Merge(ad, total, row)
  {
    sum := total;
    var keys := row.Keys;
    while keys != {}
      invariant keys <= row.Keys
      invariant sum.Keys == total.Keys + (row.Keys - keys)
      invariant forall n :: n in sum ==>
              sum[n] == if n in row.Keys - keys then ad.plus(Lookup(ad, total, n), row[n]) else total[n]
      decreases keys
    {
      var name :| name in keys;
      sum := sum[name := ad.plus(Lookup(ad, sum, name), row[name])];
      keys := keys - {name};
    }
    assert row.Keys - keys == row.Keys;
    forall n | n in sum ensures sum[n] == Merge(ad, total, row)[n] {
      if n !in row {
        assert ad.plus(total[n], ad.zero) == total[n];
      }
    }
  }

  method AggregateButtonCounts(metrics: seq<Metric>) returns (total: map<string, nat>)
    ensures total == ButtonTotals(metrics)
  {
    total := map[];
    Lawful();
    var i := 0;
    while i < |metrics|
      invariant 0 <= i <= |metrics|
      invariant total == ButtonTotals(metrics[..i])
    {
      var row := ExtractButtonCounts(metrics[i].clickedButtons);
      assert metrics[..i + 1][..i] == metrics[..i];
      total := AddRow(COUNTS, total, row);
      i := i + 1;
    }
    assert metrics[..|metrics|] == metrics;
  }

  method AggregateSections(metrics: seq<Metric>) returns (total: map<string, Activity>)
    ensures total == SectionTotals(metrics)
  {
    total := map[];
    Lawful();
    var i := 0;
    while i < |metrics|
      invariant 0 <= i <= |metrics|
      invariant total == SectionTotals(metrics[..i])
    {
      var row := ExtractSectionRaw(metrics[i].cursorHoverData);
      assert metrics[..i + 1][..i] == metrics[..i];
      total := AddRow(SECTIONS, total, row);
      i := i + 1;
    }
    assert metrics[..|metrics|] == metrics;
  }

  // --- What the aggregates mean -----------------------------------------

  /** Two lists of rows aggregate to the pointwise sum of their aggregates. */
  lemma AggregatesAdd(a: seq<Metric>, b: seq<Metric>)
    ensures ButtonTotals(a + b) == Merge(COUNTS, ButtonTotals(a), ButtonTotals(b))
    ensures SectionTotals(a + b) == Merge(SECTIONS, SectionTotals(a), SectionTotals(b))
  {
    Lawful();
    MergeAllConcat(COUNTS, (m: Metric) => ButtonCounts(m.clickedButtons), a, b);
    MergeAllConcat(SECTIONS, (m: Metric) => SectionRaw(m.cursorHoverData), a, b);
  }

  /** The order of the rows does not matter. */
  lemma AggregatesPermute(a: seq<Metric>, b: seq<Metric>)
    requires multiset(a) == multiset(b)
    ensures ButtonTotals(a) == ButtonTotals(b) && SectionTotals(a) == SectionTotals(b)
  {
    Lawful();
    MergeAllPermutes(COUNTS, (m: Metric) => ButtonCounts(m.clickedButtons), a, b);
    MergeAllPermutes(SECTIONS, (m: Metric) => SectionRaw(m.cursorHoverData), a, b);
  }

  /** Every usable entry of every row. */
  function AllButtonEntries(metrics: seq<Metric>): seq<(string, nat)> {
    Flatten((m: Metric) => ButtonEntries(m.clickedButtons), metrics)
  }

  function AllSectionEntries(metrics: seq<Metric>): seq<(string, Activity)> {
    Flatten((m: Metric) => SectionEntries(m.cursorHoverData), metrics)
  }

  lemma TotalsAreTallies(metrics: seq<Metric>)
    ensures ButtonTotals(metrics) == Tally(COUNTS, AllButtonEntries(metrics))
    ensures SectionTotals(metrics) == Tally(SECTIONS, AllSectionEntries(metrics))
  {
    Lawful();
    MergeAllIsTally(COUNTS, (m: Metric) => ButtonEntries(m.clickedButtons),
            (m: Metric) => ButtonCounts(m.clickedButtons), metrics);
    MergeAllIsTally(SECTIONS, (m: Metric) => SectionEntries(m.cursorHoverData),
            (m: Metric) => SectionRaw(m.cursorHoverData), metrics);
  }

  // --- The same, told from the raw rows ---------------------------------

  /** The clicks on one button in all rows. */
  ghost function RawClicksOn(metrics: seq<Metric>, name: string): nat {
    if metrics == [] then 0
    else
      var clicked := metrics[|metrics| - 1].clickedButtons;
      RawClicksOn(metrics[..|metrics| - 1], name) + if clicked.List? then AllClicksOn(clicked.items, name) else 0
  }

  /** The clicks in all rows. */
  ghost function RawClicks(metrics: seq<Metric>): nat {
    if metrics == [] then 0
    else
      var clicked := metrics[|metrics| - 1].clickedButtons;
      RawClicks(metrics[..|metrics| - 1]) + if clicked.List? then AllClicks(clicked.items) else 0
  }

  /** The activity in one section in all rows. */
  ghost function RawVisitsTo(metrics: seq<Metric>, name: string): Activity {
    SumRows(SECTIONS, (m: Metric) => RowVisitsTo(m.cursorHoverData, name), metrics)
  }

  lemma {:induction false} RawClicksOnIs(metrics: seq<Metric>, name: string)
    ensures SumOf(COUNTS, AllButtonEntries(metrics), name) == RawClicksOn(metrics, name)
    decreases |metrics|
  {
    if metrics != [] {
      var init, clicked := metrics[..|metrics| - 1], metrics[|metrics| - 1].clickedButtons;
      Lawful();
      RawClicksOnIs(init, name);
      SumOfConcat(COUNTS, AllButtonEntries(init), ButtonEntries(clicked), name);
      if clicked.List? {
        SumOfClicks(clicked.items, name);
      }
    }
  }

  lemma {:induction false} RawClicksIs(metrics: seq<Metric>)
    ensures SumEntries(COUNTS, AllButtonEntries(metrics)) == RawClicks(metrics)
    decreases |metrics|
  {
    if metrics != [] {
      var init, clicked := metrics[..|metrics| - 1], metrics[|metrics| - 1].clickedButtons;
      Lawful();
      RawClicksIs(init);
      SumConcat(COUNTS, AllButtonEntries(init), ButtonEntries(clicked));
      if clicked.List? {
        SumOfAllClicks(clicked.items);
      }
    }
  }

  lemma RawVisitsToIs(metrics: seq<Metric>, name: string)
    ensures SumOf(SECTIONS, AllSectionEntries(metrics), name) == RawVisitsTo(metrics, name)
  {
    Lawful();
    forall m: Metric ensures SumOf(SECTIONS, SectionEntries(m.cursorHoverData), name)
                          == RowVisitsTo(m.cursorHoverData, name)
    {
      RowVisitsToIs(m.cursorHoverData, name);
    }
    SumOfFlatten(SECTIONS, (m: Metric) => SectionEntries(m.cursorHoverData),
            (m: Metric) => RowVisitsTo(m.cursorHoverData, name), metrics, name);
  }

  /** Each button's total is the number of clicks on it in the raw rows, each section's the activity in it. */
  lemma TotalsByName(metrics: seq<Metric>, name: string)
    ensures Lookup(COUNTS, ButtonTotals(metrics), name) == SumOf(COUNTS, AllButtonEntries(metrics), name)
    ensures Lookup(SECTIONS, SectionTotals(metrics), name) == SumOf(SECTIONS, AllSectionEntries(metrics), name)
    ensures Lookup(COUNTS, ButtonTotals(metrics), name) == RawClicksOn(metrics, name)
    ensures Lookup(SECTIONS, SectionTotals(metrics), name) == RawVisitsTo(metrics, name)
  {
    Lawful();
    TotalsAreTallies(metrics);
    TallyIsSumByName(COUNTS, AllButtonEntries(metrics), name);
    TallyIsSumByName(SECTIONS, AllSectionEntries(metrics), name);
    RawClicksOnIs(metrics, name);
    RawVisitsToIs(metrics, name);
  }

  /** The grand totals are the sums of all usable entries, in whatever order the names are listed; that of
      the buttons is the number of clicks in the raw rows. */
  lemma GrandTotals(metrics: seq<Metric>, buttons: seq<(string, nat)>, sections: seq<(string, Activity)>)
    requires Lists(buttons, ButtonTotals(metrics)) && Lists(sections, SectionTotals(metrics))
    ensures SumEntries(COUNTS, buttons) == SumEntries(COUNTS, AllButtonEntries(metrics))
    ensures SumEntries(SECTIONS, sections) == SumEntries(SECTIONS, AllSectionEntries(metrics))
    ensures SumEntries(COUNTS, buttons) == RawClicks(metrics)
  {
    Lawful();
    TotalsAreTallies(metrics);
    GrandTotal(COUNTS, AllButtonEntries(metrics), buttons);
    GrandTotal(SECTIONS, AllSectionEntries(metrics), sections);
    RawClicksIs(metrics);
  }
}
