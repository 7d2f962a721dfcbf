/**
 Suggestion chips: a chip patches the intent read off the last search and replays it as a tool call.
 Reading the intent back from that call must give the patched intent, or the next chip would work on
 something else; and every chip must bring the conversation closer to having none left to offer.
 */
module ChipReplay {
  import opened Wrappers
  import opened Routing

  const MAX_KEYWORDS := 20
  const MAX_REGION_HINTS := 20
  const MAX_TEXT_CHARS := 80
  const MAX_DAYS := 4
  const MAX_SUGGESTIONS := 3

  const MOODS: set<string> := {"sea", "mountain", "lake", "island", "hanok", "night", "street"}
  const MAX_MOOD_HINTS := 7

  const SEARCHES: set<string> := {"category_search", "title_search", "photo_match", "festival", "plan_itinerary"}

  datatype Crowd = Quiet | Any | Popular

  /** `extras` stands for the intent's fields that no tool call carries; `Blank` is all of them at default. */
  datatype Extras = Blank | Extras(text: string)

  datatype Intent = Intent(
    categoryKeywords: seq<string>, regionHints: seq<string>, namedPlaces: seq<string>, crowd: Crowd,
    moodHints: seq<string>, festivalOnly: bool, indoorOnly: bool, nearMe: bool, days: Option<int>, extras: Extras)

  datatype Axis = CrowdAxis | IndoorAxis | NearAxis | RegionAxis | CategoryAxis

  const ALL_AXES := {CrowdAxis, IndoorAxis, NearAxis, RegionAxis, CategoryAxis}

  datatype Patch = Patch(crowd: Option<Crowd>, indoorOnly: Option<bool>, nearMe: Option<bool>, drop: Option<Axis>)

  // ----- patches -----

  function Cleared(i: Intent, axis: Axis): Intent {
    match axis
    case CrowdAxis => i.(crowd := Any)
    case IndoorAxis => i.(indoorOnly := false)
    case NearAxis => i.(nearMe := false)
    case RegionAxis => i.(regionHints := [])
    case CategoryAxis => i.(categoryKeywords := [], moodHints := [])
  }

  /** The fields a patch sets outright. */
  function Assigned(i: Intent, p: Patch): Intent {
    i.(crowd := if p.crowd.Some? then p.crowd.value else i.crowd,
       indoorOnly := if p.indoorOnly.Some? then p.indoorOnly.value else i.indoorOnly,
       nearMe := if p.nearMe.Some? then p.nearMe.value else i.nearMe)
  }

  function ApplyPatch(i: Intent, patch: Option<Patch>): Intent {
    match patch
    case None => i
    case Some(p) =>
      var updated := Assigned(i, p);
      if p.drop.Some? then Cleared(updated, p.drop.value) else updated
  }

  // ----- reading arguments -----

  function Get(args: Args, key: string): Json {
    if key in args then args[key] else JNull
  }

  function NonEmptyTexts(items: seq<Json>): seq<string> {
    if items == [] then []
    else (if items[0].JText? && items[0].s != "" then [items[0].s] else []) + NonEmptyTexts(items[1..])
  }

  function Texts(args: Args, key: string): seq<string> {
    match Get(args, key)
    case JList(items) => NonEmptyTexts(items)
    case _ => []
  }

  predicate Truthy(j: Json) {
    match j
    case JNull => false
    case JBool(b) => b
    case JInt(n) => n != 0
    case JFloat(x) => x != 0.0
    case JText(s) => s != ""
    case JList(items) => items != []
    case JObject(fields) => |fields| != 0
  }

  /** The JSON values Python takes for false are the empty ones. */
  lemma FalsyIsEmpty(j: Json)
    ensures !Truthy(j) <==> j in {JNull, JBool(false), JInt(0), JFloat(0.0), JText(""), JList([]), JObject(map[])}
  {
    if j.JObject? && |j.fields| == 0 { assert j.fields == map[]; }
  }

  /** `days_of`; a JSON true is an integer in Python. */
  function DaysOf(args: Args): (d: int)
    ensures 1 <= d <= MAX_DAYS
  {
    match Get(args, "days")
    case JInt(n) => if n < 1 then 2 else if n < MAX_DAYS then n else MAX_DAYS
    case JBool(b) => if b then 1 else 2
    case _ => 2
  }

  /** A whole number of days is kept within one and four; less than one, or anything else, is the usual two. */
  lemma DaysAreClamped(args: Args, n: int)
    ensures Get(args, "days") == JInt(n) ==> DaysOf(args) == if n in {1, 2, 3} then n else if n >= 4 then 4 else 2
    ensures Get(args, "days") == JBool(true) ==> DaysOf(args) == 1
    ensures !Get(args, "days").JInt? && Get(args, "days") != JBool(true) ==> DaysOf(args) == 2
  {
  }

  function CrowdOf(j: Json): Crowd {
    if j == JText("quiet") then Quiet else if j == JText("popular") then Popular else Any
  }

  function CrowdText(c: Crowd): string {
    match c case Quiet => "quiet" case Any => "any" case Popular => "popular"
  }

  function MoodsOf(texts: seq<string>): seq<string> {
    if texts == [] then [] else (if texts[0] in MOODS then [texts[0]] else []) + MoodsOf(texts[1..])
  }

  function OrElse(a: seq<string>, b: seq<string>): seq<string> {
    if a != [] then a else b
  }

  predicate ShortTexts(texts: seq<string>, most: nat) {
    |texts| <= most && forall t :: t in texts ==> |t| <= MAX_TEXT_CHARS
  }

  /** The limits the intent's own schema enforces on construction. */
  predicate Validates(i: Intent) {
    && ShortTexts(i.categoryKeywords, MAX_KEYWORDS) && ShortTexts(i.regionHints, MAX_REGION_HINTS)
    && |i.moodHints| <= MAX_MOOD_HINTS && (i.days.Some? ==> 1 <= i.days.value <= 7)
  }

  const DEFAULT := Intent([], [], [], Any, [], false, false, false, None, Blank)

  function LastRegions(calls: seq<ToolCall>): seq<string> {
    if calls == [] then []
    else OrElse(Texts(calls[|calls| - 1].args, "regions"), LastRegions(calls[..|calls| - 1]))
  }

  function LastSearch(calls: seq<ToolCall>): Option<ToolCall> {
    if calls == [] then None
    else if calls[|calls| - 1].name in SEARCHES then Some(calls[|calls| - 1])
    else LastSearch(calls[..|calls| - 1])
  }

  function ReadCall(call: ToolCall): Intent {
    var args := call.args;
    Intent(OrElse(Texts(args, "categories"), Texts(args, "keywords")), Texts(args, "regions"), [],
           CrowdOf(Get(args, "crowd")), MoodsOf(Texts(args, "moods")), call.name == "festival",
           Truthy(Get(args, "indoor")), Truthy(Get(args, "near")),
           if call.name == "plan_itinerary" then Some(DaysOf(args)) else None, Blank)
  }

  /** `intent_of`; none when the schema refuses what the call carried. */
  function IntentOf(calls: seq<ToolCall>): Option<Intent> {
    var i := match LastSearch(calls)
             case Some(call) => ReadCall(call)
             case None => DEFAULT.(regionHints := LastRegions(calls));
    if Validates(i) then Some(i) else None
  }

  // ----- writing arguments -----

  function TextList(texts: seq<string>): (j: Json)
    ensures j.JList? && |j.items| == |texts|
  {
    JList(seq(|texts|, i requires 0 <= i < |texts| => JText(texts[i])))
  }

  function With(args: Args, present: bool, key: string, value: Json): Args {
    if present then args[key := value] else args
  }

  datatype Entry = Entry(key: string, present: bool, value: Json)

  function Build(entries: seq<Entry>): Args {
    if entries == [] then map[]
    else
      var e := entries[|entries| - 1];
      With(Build(entries[..|entries| - 1]), e.present, e.key, e.value)
  }

  function Entries(i: Intent): seq<Entry> {
    [Entry("days", i.days.Some?, if i.days.Some? then JInt(i.days.value) else JNull),
     Entry("regions", i.regionHints != [], TextList(i.regionHints)),
     Entry("categories", i.categoryKeywords != [], TextList(i.categoryKeywords)),
     Entry("moods", i.moodHints != [], TextList(i.moodHints)),
     Entry("crowd", i.crowd != Any, JText(CrowdText(i.crowd))),
     Entry("indoor", i.indoorOnly, JBool(true)),
     Entry("near", i.nearMe, JBool(true))]
  }

  function SearchArgs(i: Intent): Args {
    Build(Entries(i))
  }

  function CallFromIntent(i: Intent): ToolCall {
    if i.festivalOnly then ToolCall("festival", map["regions" := TextList(i.regionHints)])
    else ToolCall(if i.days.Some? then "plan_itinerary" else "category_search", SearchArgs(i))
  }

  // ----- the inverse -----

  predicate NoEmptyText(texts: seq<string>) {
    forall t :: t in texts ==> t != ""
  }

  /** What every intent read off calls looks like; patches keep it so. */
  predicate Replayable(i: Intent) {
    && Validates(i) && i.namedPlaces == [] && i.extras == Blank
    && NoEmptyText(i.categoryKeywords) && NoEmptyText(i.regionHints)
    && (forall m :: m in i.moodHints ==> m in MOODS && m != "")
    && (i.days.Some? ==> 1 <= i.days.value <= MAX_DAYS && !i.festivalOnly)
  }

  lemma {:induction false} TextsAreNonEmpty(items: seq<Json>)
    ensures NoEmptyText(NonEmptyTexts(items))
  {
    if items != [] { TextsAreNonEmpty(items[1..]); }
  }

  lemma {:induction false} MoodsAreMoods(texts: seq<string>)
    requires NoEmptyText(texts)
    ensures forall m :: m in MoodsOf(texts) ==> m in MOODS && m != ""
  {
    if texts != [] {
      assert forall t :: t in texts[1..] ==> t in texts;
      MoodsAreMoods(texts[1..]);
    }
  }

  lemma TextsOfKeyAreNonEmpty(args: Args, key: string)
    ensures NoEmptyText(Texts(args, key))
  {
    if Get(args, key).JList? { TextsAreNonEmpty(Get(args, key).items); }
  }

  lemma {:induction false} LastRegionsAreNonEmpty(calls: seq<ToolCall>)
    ensures NoEmptyText(LastRegions(calls))
  {
    hide Texts;
    if calls != [] {
      TextsOfKeyAreNonEmpty(calls[|calls| - 1].args, "regions");
      LastRegionsAreNonEmpty(calls[..|calls| - 1]);
    }
  }

  lemma IntentsAreReplayable(calls: seq<ToolCall>)
    requires IntentOf(calls).Some?
    ensures Replayable(IntentOf(calls).value)
  {
    hide Texts, DaysOf, CrowdOf, Truthy, ShortTexts, MoodsOf;
    match LastSearch(calls)
    case None => LastRegionsAreNonEmpty(calls);
    case Some(call) =>
      TextsOfKeyAreNonEmpty(call.args, "categories");
      TextsOfKeyAreNonEmpty(call.args, "keywords");
      TextsOfKeyAreNonEmpty(call.args, "regions");
      TextsOfKeyAreNonEmpty(call.args, "moods");
      MoodsAreMoods(Texts(call.args, "moods"));
  }

  /** The intent is read off the last search among the calls, and that call alone. */
  lemma {:induction false} LastSearchDecides(calls: seq<ToolCall>, k: nat)
    requires k < |calls| && calls[k].name in SEARCHES
    requires forall j | k < j < |calls| :: calls[j].name !in SEARCHES
    ensures IntentOf(calls) == IntentOf([calls[k]])
    ensures IntentOf(calls).Some? ==>
              var i, args := IntentOf(calls).value, calls[k].args;
              && (i.festivalOnly <==> calls[k].name == "festival") && (i.days.Some? <==> calls[k].name == "plan_itinerary")
              && (i.nearMe <==> "near" in args && Truthy(args["near"]))
              && (i.indoorOnly <==> "indoor" in args && Truthy(args["indoor"]))
              && (i.crowd == Quiet <==> "crowd" in args && args["crowd"] == JText("quiet"))
              && (i.crowd == Popular <==> "crowd" in args && args["crowd"] == JText("popular"))
  {
    LastSearchIs(calls, k);
    LastSearchIs([calls[k]], 0);
    hide Texts, DaysOf, MoodsOf, Validates, LastSearch, LastRegions;
  }

  lemma {:induction false} LastSearchIs(calls: seq<ToolCall>, k: nat)
    requires k < |calls| && calls[k].name in SEARCHES
    requires forall j | k < j < |calls| :: calls[j].name !in SEARCHES
    ensures LastSearch(calls) == Some(calls[k])
  {
    if k < |calls| - 1 { LastSearchIs(calls[..|calls| - 1], k); }
  }

  /** Without a search only the regions are kept: those of the last call that names any. */
  lemma {:induction false} RegionsWithoutSearch(calls: seq<ToolCall>, k: nat)
    requires forall j | 0 <= j < |calls| :: calls[j].name !in SEARCHES
    requires k < |calls| && Texts(calls[k].args, "regions") != []
    requires forall j | k < j < |calls| :: Texts(calls[j].args, "regions") == []
    ensures IntentOf(calls).Some? ==> IntentOf(calls).value == DEFAULT.(regionHints := Texts(calls[k].args, "regions"))
  {
    NoSearch(calls);
    RegionsOfLast(calls, k);
    hide Texts, Validates, LastSearch, LastRegions;
  }

  lemma {:induction false} NoSearch(calls: seq<ToolCall>)
    requires forall j | 0 <= j < |calls| :: calls[j].name !in SEARCHES
    ensures LastSearch(calls) == None
  {
    if calls != [] { NoSearch(calls[..|calls| - 1]); }
  }

  lemma {:induction false} RegionsOfLast(calls: seq<ToolCall>, k: nat)
    requires k < |calls| && Texts(calls[k].args, "regions") != []
    requires forall j | k < j < |calls| :: Texts(calls[j].args, "regions") == []
    ensures LastRegions(calls) == Texts(calls[k].args, "regions")
  {
    hide Texts;
    if k < |calls| - 1 { RegionsOfLast(calls[..|calls| - 1], k); }
  }

  /** Field by field: a patch sets what it names, then clears its axis, and leaves the rest. */
  lemma PatchIsExact(i: Intent, p: Patch)
    ensures var after := ApplyPatch(i, Some(p));
            && after.crowd == (if p.drop == Some(CrowdAxis) then Any else if p.crowd.Some? then p.crowd.value else i.crowd)
            && after.indoorOnly == (if p.drop == Some(IndoorAxis) then false
                                    else if p.indoorOnly.Some? then p.indoorOnly.value else i.indoorOnly)
            && after.nearMe == (if p.drop == Some(NearAxis) then false else if p.nearMe.Some? then p.nearMe.value else i.nearMe)
            && after.regionHints == (if p.drop == Some(RegionAxis) then [] else i.regionHints)
            && after.categoryKeywords == (if p.drop == Some(CategoryAxis) then [] else i.categoryKeywords)
            && after.moodHints == (if p.drop == Some(CategoryAxis) then [] else i.moodHints)
            && (after.namedPlaces, after.festivalOnly, after.days, after.extras)
               == (i.namedPlaces, i.festivalOnly, i.days, i.extras)
  {
  }

  lemma PatchesKeepReplayable(i: Intent, patch: Option<Patch>)
    requires Replayable(i)
    ensures Replayable(ApplyPatch(i, patch)) && ApplyPatch(i, patch).festivalOnly == i.festivalOnly
  {
    hide Cleared;
    match patch
    case None =>
    case Some(p) =>
      var updated := Assigned(i, p);
      assert Replayable(updated);
      hide Assigned, Replayable;
      if p.drop.Some? { ClearingKeepsReplayable(updated, p.drop.value); }
  }

  lemma ClearingKeepsReplayable(i: Intent, axis: Axis)
    requires Replayable(i)
    ensures Replayable(Cleared(i, axis)) && Cleared(i, axis).festivalOnly == i.festivalOnly
  {
    assert ShortTexts([], MAX_KEYWORDS) && ShortTexts([], MAX_REGION_HINTS) && NoEmptyText([]);
    hide ShortTexts, NoEmptyText;
  }

  lemma {:induction false} TextListReadsBack(texts: seq<string>)
    requires NoEmptyText(texts)
    ensures NonEmptyTexts(TextList(texts).items) == texts
  {
    if texts != [] {
      assert texts[0] in texts && forall t :: t in texts[1..] ==> t in texts;
      TextListReadsBack(texts[1..]);
      assert TextList(texts).items[1..] == TextList(texts[1..]).items;
    }
  }

  lemma {:induction false} MoodsReadBack(texts: seq<string>)
    requires forall m :: m in texts ==> m in MOODS
    ensures MoodsOf(texts) == texts
  {
    if texts != [] { MoodsReadBack(texts[1..]); }
  }

  predicate DistinctKeys(entries: seq<Entry>) {
    forall j, k | 0 <= j < k < |entries| :: entries[j].key != entries[k].key
  }

  /** Arguments built from distinct keys look up as they were entered, and nothing else is there. */
  lemma {:induction false} BuiltArgsLookUp(entries: seq<Entry>, n: nat)
    requires DistinctKeys(entries) && n <= |entries|
    ensures forall k :: 0 <= k < n ==>
              Get(Build(entries[..n]), entries[k].key) == if entries[k].present then entries[k].value else JNull
    ensures forall key :: (forall k :: 0 <= k < n ==> entries[k].key != key) ==> Get(Build(entries[..n]), key) == JNull
  {
    if n > 0 {
      BuiltArgsLookUp(entries, n - 1);
      var before, e := entries[..n - 1], entries[n - 1];
      assert entries[..n][..n - 1] == before && entries[..n][n - 1] == e;
      assert Build(entries[..n]) == With(Build(before), e.present, e.key, e.value);
      WithLooksUp(Build(before), e.present, e.key, e.value);
      hide With, Get, Build;
      assert forall k :: 0 <= k < n - 1 ==> entries[k].key != e.key;
      assert before == entries[..n - 1];
      forall key | forall k :: 0 <= k < n ==> entries[k].key != key
        ensures Get(Build(entries[..n]), key) == JNull
      {
        assert entries[n - 1].key != key;
      }
    }
  }

  lemma WithLooksUp(args: Args, present: bool, key: string, value: Json)
    requires present || Get(args, key) == JNull
    ensures Get(With(args, present, key, value), key) == if present then value else JNull
    ensures forall k :: k != key ==> Get(With(args, present, key, value), k) == Get(args, k)
  {
  }

  lemma KeysDiffer(i: Intent)
    ensures DistinctKeys(Entries(i))
    ensures forall k :: 0 <= k < 7 ==> Entries(i)[k].key != "keywords"
  {
    hide TextList, CrowdText;
    assert "days"[0] == 'd' && "near"[0] == 'n' && "moods"[0] == 'm' && "crowd"[0] == 'c';
    assert |"regions"| == 7 && |"categories"| == 10 && |"indoor"| == 6 && |"keywords"| == 8;
  }

  /** Each argument of a replayed search, as it will be looked up. */
  lemma SearchArgsLookUp(i: Intent)
    ensures forall k :: 0 <= k < 7 ==>
              Get(SearchArgs(i), Entries(i)[k].key) == if Entries(i)[k].present then Entries(i)[k].value else JNull
    ensures Get(SearchArgs(i), "keywords") == JNull
  {
    KeysDiffer(i);
    hide Get, Build, DistinctKeys, TextList, CrowdText;
    BuiltArgsLookUp(Entries(i), 7);
    assert Entries(i)[..7] == Entries(i);
  }

  predicate OnlyRegions(i: Intent) {
    i.categoryKeywords == [] && i.moodHints == [] && i.crowd == Any && !i.indoorOnly && !i.nearMe
  }

  lemma TextsReplay(args: Args, key: string, texts: seq<string>)
    requires NoEmptyText(texts) && Get(args, key) == if texts != [] then TextList(texts) else JNull
    ensures Texts(args, key) == texts
  {
    TextListReadsBack(texts);
  }

  lemma TextFieldsReplay(i: Intent)
    requires Replayable(i)
    ensures var args := SearchArgs(i);
            && Texts(args, "regions") == i.regionHints && Texts(args, "keywords") == []
            && Texts(args, "categories") == i.categoryKeywords && Texts(args, "moods") == i.moodHints
  {
    SearchArgsLookUp(i);
    var args := SearchArgs(i);
    hide SearchArgs, Get, TextList, Texts;
    assert Get(args, Entries(i)[1].key) == if i.regionHints != [] then TextList(i.regionHints) else JNull;
    assert Get(args, Entries(i)[2].key) == if i.categoryKeywords != [] then TextList(i.categoryKeywords) else JNull;
    assert Get(args, Entries(i)[3].key) == if i.moodHints != [] then TextList(i.moodHints) else JNull;
    TextsReplay(args, "regions", i.regionHints);
    TextsReplay(args, "categories", i.categoryKeywords);
    TextsReplay(args, "moods", i.moodHints);
    TextsReplay(args, "keywords", []);
  }

  lemma FlagFieldsReplay(i: Intent)
    requires Replayable(i)
    ensures var args := SearchArgs(i);
            && CrowdOf(Get(args, "crowd")) == i.crowd
            && Truthy(Get(args, "indoor")) == i.indoorOnly && Truthy(Get(args, "near")) == i.nearMe
            && (i.days.Some? ==> DaysOf(args) == i.days.value)
  {
    SearchArgsLookUp(i);
    var args := SearchArgs(i);
    hide SearchArgs, TextList, Get;
    assert Get(args, Entries(i)[0].key) == if i.days.Some? then JInt(i.days.value) else JNull;
    assert Get(args, Entries(i)[4].key) == if i.crowd != Any then JText(CrowdText(i.crowd)) else JNull;
    assert Get(args, Entries(i)[5].key) == if i.indoorOnly then JBool(true) else JNull;
    assert Get(args, Entries(i)[6].key) == if i.nearMe then JBool(true) else JNull;
  }

  lemma SearchReplays(i: Intent)
    requires Replayable(i) && !i.festivalOnly
    ensures ReadCall(CallFromIntent(i)) == i
  {
    TextFieldsReplay(i);
    FlagFieldsReplay(i);
    MoodsReadBack(i.moodHints);
    hide SearchArgs, Texts, CrowdOf, Truthy, DaysOf, Get, MoodsOf, Validates, NoEmptyText;
  }

  lemma FestivalReplays(i: Intent)
    requires Replayable(i) && i.festivalOnly
    ensures ReadCall(CallFromIntent(i)) == DEFAULT.(festivalOnly := true, regionHints := i.regionHints)
  {
    TextListReadsBack(i.regionHints);
    hide TextList, NonEmptyTexts, Validates;
  }

  /**
   A tapped chip replays faithfully: reading the intent back from the call made of the patched intent
   gives the patched intent, if and only if it is not a festival search with conditions besides its
   region, which the festival tool does not take.
   */
  lemma ReplayIsFaithfulIff(calls: seq<ToolCall>, patch: Option<Patch>)
    requires IntentOf(calls).Some?
    ensures var patched := ApplyPatch(IntentOf(calls).value, patch);
            IntentOf([CallFromIntent(patched)]) == Some(patched) <==> !patched.festivalOnly || OnlyRegions(patched)
  {
    var i := IntentOf(calls).value;
    IntentsAreReplayable(calls);
    PatchesKeepReplayable(i, patch);
    hide IntentOf, ApplyPatch;
    ReplayOne(ApplyPatch(i, patch));
  }

  lemma ReplayOne(i: Intent)
    requires Replayable(i)
    ensures IntentOf([CallFromIntent(i)]) == Some(i) <==> !i.festivalOnly || OnlyRegions(i)
  {
    var call := CallFromIntent(i);
    assert call.name in SEARCHES;
    assert LastSearch([call]) == Some(call);
    if i.festivalOnly { FestivalReplays(i); } else { SearchReplays(i); }
    hide CallFromIntent, ReadCall, ShortTexts, NoEmptyText;
  }

  // ----- chips -----

  predicate NamedPlaceIsTheOnlyConstraint(i: Intent, keywords: seq<string>, prefixes: seq<string>, near: bool) {
    && i.namedPlaces != [] && keywords == [] && prefixes == [] && !near
    && i.moodHints == [] && !i.indoorOnly && i.crowd == Any
  }

  const NO_PATCH := Patch(None, None, None, None)

  predicate DropLeavesNamedPlaceOnly(i: Intent, axis: Axis, hasCoords: bool) {
    var dropped := ApplyPatch(i, Some(NO_PATCH.(drop := Some(axis))));
    NamedPlaceIsTheOnlyConstraint(dropped, dropped.categoryKeywords, dropped.regionHints, dropped.nearMe && hasCoords)
  }

  predicate RegionReleasable(i: Intent, axes: set<Axis>, hasCoords: bool) {
    RegionAxis in axes && i.regionHints != [] && !DropLeavesNamedPlaceOnly(i, RegionAxis, hasCoords)
  }

  const WIDEN_REGION := NO_PATCH.(drop := Some(RegionAxis))

  function First(chips: seq<Patch>, n: nat): seq<Patch> {
    if |chips| <= n then chips else chips[..n]
  }

  /** `derive`; a chip is its patch. */
  function Derive(i: Intent, hasCoords: bool, axes: set<Axis>, indoorAvailable: bool): seq<Patch> {
    if i.festivalOnly then []
    else
      var crowd := if CrowdAxis !in axes then []
                   else if i.crowd == Any then [NO_PATCH.(crowd := Some(Quiet))]
                   else if i.crowd == Quiet then [NO_PATCH.(crowd := Some(Popular))]
                   else [];
      var indoor := if IndoorAxis in axes && !i.indoorOnly && indoorAvailable then [NO_PATCH.(indoorOnly := Some(true))]
                    else [];
      var near := if NearAxis in axes && hasCoords && !i.nearMe then [NO_PATCH.(nearMe := Some(true))] else [];
      var chips := crowd + indoor + near;
      if RegionReleasable(i, axes, hasCoords) then First(chips, MAX_SUGGESTIONS - 1) + [WIDEN_REGION]
      else First(chips, MAX_SUGGESTIONS)
  }

  /**
   Which chips are offered, exactly: the crowd chip for the next step from any to quiet to popular; indoor when
   something indoors was found; near me when there are coordinates, and room beside the other three; and the
   region chip, which always has room.
   */
  lemma ChipsAreExact(i: Intent, hasCoords: bool, axes: set<Axis>, indoorAvailable: bool)
    ensures var chips := Derive(i, hasCoords, axes, indoorAvailable);
            var quiet, popular := NO_PATCH.(crowd := Some(Quiet)), NO_PATCH.(crowd := Some(Popular));
            var indoor, near := NO_PATCH.(indoorOnly := Some(true)), NO_PATCH.(nearMe := Some(true));
            && (quiet in chips <==> !i.festivalOnly && CrowdAxis in axes && i.crowd == Any)
            && (popular in chips <==> !i.festivalOnly && CrowdAxis in axes && i.crowd == Quiet)
            && (indoor in chips <==> !i.festivalOnly && IndoorAxis in axes && !i.indoorOnly && indoorAvailable)
            && (WIDEN_REGION in chips <==> !i.festivalOnly && RegionReleasable(i, axes, hasCoords))
            && (near in chips <==> !i.festivalOnly && NearAxis in axes && hasCoords && !i.nearMe
                                   && !(indoor in chips && WIDEN_REGION in chips && (quiet in chips || popular in chips)))
  {
    hide DropLeavesNamedPlaceOnly;
  }

  /** The region may be given up unless that leaves nothing but a named place. */
  lemma RegionChipIsExact(i: Intent, axes: set<Axis>, hasCoords: bool)
    ensures RegionReleasable(i, axes, hasCoords) <==>
            && RegionAxis in axes && i.regionHints != []
            && (i.namedPlaces == [] || i.categoryKeywords != [] || (i.nearMe && hasCoords) || i.moodHints != []
                || i.indoorOnly || i.crowd != Any)
  {
  }

  /** A plan's only chips are about crowds, and after a search by saved places there are none. */
  function Axes(i: Intent, fromSaved: bool): set<Axis> {
    if fromSaved then {} else if i.days.Some? then {CrowdAxis} else ALL_AXES
  }

  function DeriveForZero(i: Intent, hasCoords: bool, axes: set<Axis>): seq<Patch> {
    if RegionReleasable(i, axes, hasCoords) then [WIDEN_REGION] else []
  }

  /** What chips can still change; of a plan, only the crowd. */
  function Measure(i: Intent): (m: nat)
    ensures m <= if i.days.Some? then 2 else 5
  {
    var crowd := match i.crowd case Any => 2 case Quiet => 1 case Popular => 0;
    if i.days.Some? then crowd
    else crowd + (if i.indoorOnly then 0 else 1) + (if i.nearMe then 0 else 1) + (if i.regionHints == [] then 0 else 1)
  }

  /** What one turn had and found, and the chip tapped on its answer. */
  datatype Offer = Offer(p: Patch, foundNothing: bool, hasCoords: bool, fromSaved: bool, indoorAvailable: bool)

  /**
   The intent a turn hands back with its chips: what it searched for, except that a turn that found nothing
   and has no coordinates takes "near me" back.
   */
  function HandedBack(i: Intent, t: Offer): Intent {
    if TakesNearBack(i, t) then i.(nearMe := false) else i
  }

  predicate TakesNearBack(i: Intent, t: Offer) {
    t.foundNothing && !t.hasCoords && i.nearMe
  }

  predicate Offered(i: Intent, t: Offer) {
    t.p in if t.foundNothing then DeriveForZero(HandedBack(i, t), t.hasCoords, Axes(i, t.fromSaved))
           else Derive(i, t.hasCoords, Axes(i, t.fromSaved), t.indoorAvailable)
  }

  /** Every chip on offer lowers the measure of the intent it comes with, by exactly one. */
  lemma ChipsMakeProgress(i: Intent, t: Offer)
    requires Offered(i, t)
    ensures Measure(ApplyPatch(HandedBack(i, t), Some(t.p))) + 1 == Measure(HandedBack(i, t))
    ensures ApplyPatch(HandedBack(i, t), Some(t.p)).regionHints in {i.regionHints, []}
    ensures ApplyPatch(HandedBack(i, t), Some(t.p)).days == i.days
    ensures t.foundNothing ==> i.regionHints != [] && ApplyPatch(HandedBack(i, t), Some(t.p)).regionHints == []
  {
    hide DropLeavesNamedPlaceOnly;
    if t.foundNothing {
      assert t.p == WIDEN_REGION;
    } else {
      DerivedChips(i, t);
    }
  }

  lemma DerivedChips(i: Intent, t: Offer)
    requires t.p in Derive(i, t.hasCoords, Axes(i, t.fromSaved), t.indoorAvailable)
    ensures || (t.p == NO_PATCH.(crowd := Some(Quiet)) && i.crowd == Any)
            || (t.p == NO_PATCH.(crowd := Some(Popular)) && i.crowd == Quiet)
            || (t.p == NO_PATCH.(indoorOnly := Some(true)) && !i.indoorOnly)
            || (t.p == NO_PATCH.(nearMe := Some(true)) && !i.nearMe)
            || (t.p == WIDEN_REGION && i.regionHints != [])
  {
    hide DropLeavesNamedPlaceOnly;
  }

  /** The chips of a turn that found something, with coordinates and something indoors. */
  function Chips(i: Intent): seq<Patch> {
    Derive(i, true, Axes(i, false), true)
  }

  /** With coordinates and something indoors, chips run out exactly when there is nothing left to change. */
  lemma ChipsRunOutExactly(i: Intent)
    requires i.namedPlaces == []
    ensures Chips(i) == [] <==> i.festivalOnly || Measure(i) == 0
    ensures |Chips(i)| <= MAX_SUGGESTIONS
  {
  }

  /**
   The failing input: a festival search that also asked for quiet places and found nothing.  The chip it is
   offered widens the region, and its replay forgets the crowd.
   */
  lemma FestivalChipIsForgotten()
    ensures var calls := [ToolCall("festival", map["regions" := JList([JText("busan")]), "crowd" := JText("quiet")])];
            var read := DEFAULT.(festivalOnly := true, regionHints := ["busan"], crowd := Quiet);
            var patched := ApplyPatch(read, Some(WIDEN_REGION));
            && IntentOf(calls) == Some(read) && Offered(read, Offer(WIDEN_REGION, true, true, false, true))
            && patched.crowd == Quiet && IntentOf([CallFromIntent(patched)]) == Some(patched.(crowd := Any))
  {
    QuietFestivalIsRead();
    var read := DEFAULT.(festivalOnly := true, regionHints := ["busan"], crowd := Quiet);
    var patched := read.(regionHints := []);
    assert ApplyPatch(read, Some(WIDEN_REGION)) == patched && DeriveForZero(read, true, ALL_AXES) == [WIDEN_REGION];
    hide IntentOf, CallFromIntent;
    FestivalReadsBack(patched);
  }

  lemma QuietFestivalIsRead()
    ensures var call := ToolCall("festival", map["regions" := JList([JText("busan")]), "crowd" := JText("quiet")]);
            IntentOf([call]) == Some(DEFAULT.(festivalOnly := true, regionHints := ["busan"], crowd := Quiet))
  {
    var call := ToolCall("festival", map["regions" := JList([JText("busan")]), "crowd" := JText("quiet")]);
    assert LastSearch([call]) == Some(call);
    assert Texts(call.args, "regions") == ["busan"];
    hide Texts, LastSearch;
  }

  // ----- chains of taps -----

  /** What the replayed call of a tap will be read back as. */
  function Tap(i: Intent, t: Offer): Option<Intent> {
    IntentOf([CallFromIntent(ApplyPatch(HandedBack(i, t), Some(t.p)))])
  }

  /**
   A sequence of taps, each on a chip offered by the turn that replayed the one before; the replayed call is
   taken to be that turn's last search.
   */
  predicate Taps(i: Intent, taps: seq<Offer>)
    decreases |taps|
  {
    taps == [] || (Offered(i, taps[0]) && Tap(i, taps[0]).Some? && Taps(Tap(i, taps[0]).value, taps[1..]))
  }

  function EndOf(i: Intent, taps: seq<Offer>): Intent
    requires Taps(i, taps)
    decreases |taps|
  {
    if taps == [] then i else EndOf(Tap(i, taps[0]).value, taps[1..])
  }

  /** How often "near me" was taken back along the way. */
  function TimesTakenBack(i: Intent, taps: seq<Offer>): nat
    requires Taps(i, taps)
    decreases |taps|
  {
    if taps == [] then 0
    else (if TakesNearBack(i, taps[0]) then 1 else 0) + TimesTakenBack(Tap(i, taps[0]).value, taps[1..])
  }

  lemma HandedBackStays(i: Intent, t: Offer)
    requires Replayable(i)
    ensures Replayable(HandedBack(i, t)) && HandedBack(i, t).festivalOnly == i.festivalOnly
  {
  }

  /** Off festivals a tap leads to just the patched intent. */
  lemma OneTap(i: Intent, t: Offer)
    requires Replayable(i) && !i.festivalOnly
    ensures var next := ApplyPatch(HandedBack(i, t), Some(t.p));
            Replayable(next) && !next.festivalOnly && Tap(i, t) == Some(next)
  {
    HandedBackStays(i, t);
    PatchesKeepReplayable(HandedBack(i, t), Some(t.p));
    hide ApplyPatch, Replayable, HandedBack;
    ReplayOne(ApplyPatch(HandedBack(i, t), Some(t.p)));
    hide IntentOf, CallFromIntent;
  }

  /** The one tap more that an intent may be good for: a search, not a plan, with a region in it. */
  function Spare(i: Intent): (n: nat)
    ensures n <= 1
  {
    if i.regionHints != [] && i.days.None? then 1 else 0
  }

  lemma SpareFollows(i: Intent, next: Intent)
    requires next.days == i.days && next.regionHints in {i.regionHints, []}
    ensures Spare(next) <= Spare(i) && (next.regionHints == [] ==> Spare(next) == 0)
  {
  }

  lemma TapIsCounted(i: Intent, t: Offer)
    requires Replayable(i) && !i.festivalOnly && Offered(i, t)
    ensures var back, next := if TakesNearBack(i, t) then 1 else 0, Tap(i, t);
            && next.Some? && Replayable(next.value) && !next.value.festivalOnly
            && Measure(next.value) + 1 == Measure(i) + back && back + Spare(next.value) <= Spare(i)
  {
    OneTap(i, t);
    ChipsMakeProgress(i, t);
    MeasureHandedBack(i, t);
    hide *;
    SpareFollows(i, ApplyPatch(HandedBack(i, t), Some(t.p)));
  }

  /**
   Conservation: off festivals every tap uses up one of the measure, and a turn that takes "near me" back
   returns one, which can happen once at most, because its only chip gives up the region.
   */
  lemma {:induction false} TapsAreCounted(i: Intent, taps: seq<Offer>)
    requires Replayable(i) && !i.festivalOnly && Taps(i, taps)
    ensures |taps| + Measure(EndOf(i, taps)) == Measure(i) + TimesTakenBack(i, taps)
    ensures TimesTakenBack(i, taps) <= Spare(i)
    decreases |taps|
  {
    if taps != [] {
      TapIsCounted(i, taps[0]);
      hide Offered, Replayable, Measure, Tap, TakesNearBack, Spare;
      TapsAreCounted(Tap(i, taps[0]).value, taps[1..]);
    }
  }

  lemma MeasureHandedBack(i: Intent, t: Offer)
    requires Offered(i, t)
    ensures Measure(HandedBack(i, t)) == Measure(i) + if TakesNearBack(i, t) then 1 else 0
    ensures TakesNearBack(i, t) ==> t.foundNothing && Spare(i) == 1
  {
  }

  /** A festival intent is offered nothing but to widen its region, and then nothing at all. */
  lemma FestivalIsTappedOnce(i: Intent, t: Offer)
    requires Replayable(i) && i.festivalOnly && Offered(i, t)
    ensures i.regionHints != []
    ensures var next := Tap(i, t); next.Some? && next.value.festivalOnly && next.value.regionHints == []
  {
    ChipsMakeProgress(i, t);
    HandedBackStays(i, t);
    PatchesKeepReplayable(HandedBack(i, t), Some(t.p));
    FestivalReadsBack(ApplyPatch(HandedBack(i, t), Some(t.p)));
    hide ApplyPatch, Replayable, HandedBack, DeriveForZero, Measure, IntentOf, CallFromIntent;
    assert Derive(i, t.hasCoords, Axes(i, t.fromSaved), t.indoorAvailable) == [];
  }

  lemma FestivalReadsBack(i: Intent)
    requires Replayable(i) && i.festivalOnly
    ensures IntentOf([CallFromIntent(i)]) == Some(DEFAULT.(festivalOnly := true, regionHints := i.regionHints))
  {
    var call := CallFromIntent(i);
    assert call.name in SEARCHES;
    assert LastSearch([call]) == Some(call);
    FestivalReplays(i);
    hide CallFromIntent, ReadCall, ShortTexts, NoEmptyText;
  }

  lemma NothingOffered(i: Intent, t: Offer)
    requires i.festivalOnly && i.regionHints == []
    ensures !Offered(i, t)
  {
  }

  lemma FestivalTapsAreFew(i: Intent, taps: seq<Offer>)
    requires Replayable(i) && i.festivalOnly && Taps(i, taps)
    ensures |taps| <= 1 && (taps != [] ==> i.regionHints != []) && i.days.None?
  {
    if taps != [] {
      FestivalIsTappedOnce(i, taps[0]);
      hide Offered, Replayable, Tap;
      if |taps| > 1 { NothingOffered(Tap(i, taps[0]).value, taps[1]); }
    }
  }

  /** However the turns go, at most six chips can be tapped in a row, of a plan at most two. */
  lemma TapsAreFew(i: Intent, taps: seq<Offer>)
    requires Replayable(i) && Taps(i, taps)
    ensures |taps| <= Measure(i) + Spare(i) <= if i.days.Some? then 2 else 6
  {
    hide Replayable, Taps;
    if i.festivalOnly { FestivalTapsAreFew(i, taps); } else { TapsAreCounted(i, taps); }
  }

  /**
   The bound of five is the measure's, and exactly this breaks it: a chain outlasts the measure it starts with
   if and only if some turn found nothing, had no coordinates and took "near me" back, and the chain went on
   until nothing was left to change.
   */
  lemma OneTapMoreIff(i: Intent, taps: seq<Offer>)
    requires Replayable(i) && Taps(i, taps)
    ensures |taps| > Measure(i)
            <==> !i.festivalOnly && TimesTakenBack(i, taps) == 1 && Measure(EndOf(i, taps)) == 0
  {
    if i.festivalOnly {
      hide Replayable, Taps;
      FestivalTapsAreFew(i, taps);
    } else {
      hide Replayable, Taps, Measure;
      TapsAreCounted(i, taps);
    }
  }

  /** `n` chips can be tapped in a row, "near me" being taken back `back` times. */
  ghost predicate CanTap(i: Intent, n: nat, back: nat) {
    exists taps :: |taps| == n && Taps(i, taps) && TimesTakenBack(i, taps) == back
  }

  predicate Leads(i: Intent, t: Offer, next: Intent) {
    Offered(i, t) && ApplyPatch(HandedBack(i, t), Some(t.p)) == next
  }

  lemma NoMoreTaps(i: Intent)
    ensures CanTap(i, 0, 0)
  {
    assert Taps(i, []) && TimesTakenBack(i, []) == 0;
  }

  lemma OneMoreTap(i: Intent, t: Offer, next: Intent, n: nat, back: nat)
    requires Replayable(i) && !i.festivalOnly && Leads(i, t, next) && CanTap(next, n, back)
    ensures CanTap(i, n + 1, back + if TakesNearBack(i, t) then 1 else 0)
  {
    OneTap(i, t);
    hide Offered, ApplyPatch, HandedBack, Tap, TakesNearBack, CanTap, Replayable;
    TapFirst(i, t, next, n, back);
  }

  lemma TapFirst(i: Intent, t: Offer, next: Intent, n: nat, back: nat)
    requires Offered(i, t) && Tap(i, t) == Some(next) && CanTap(next, n, back)
    ensures CanTap(i, n + 1, back + if TakesNearBack(i, t) then 1 else 0)
  {
    hide Offered, Tap, TakesNearBack;
    var rest :| |rest| == n && Taps(next, rest) && TimesTakenBack(next, rest) == back;
    var taps := [t] + rest;
    assert taps[1..] == rest;
    assert Taps(i, taps);
  }

  /** A chip tapped where the turn found something, had coordinates and every axis open. */
  function Open(p: Patch): Offer {
    Offer(p, false, true, false, true)
  }

  lemma OpenLeads(i: Intent, p: Patch)
    requires p in Chips(i)
    ensures Leads(i, Open(p), ApplyPatch(i, Some(p)))
  {
    hide Derive, ApplyPatch;
  }

  /** A turn without coordinates that found nothing: its one chip, on the intent without "near me". */
  const LOST := Offer(WIDEN_REGION, true, false, false, true)

  lemma LostChip(i: Intent)
    requires i.namedPlaces == [] && Spare(i) == 1
    ensures Leads(i, LOST, i.(nearMe := false, regionHints := []))
  {
    assert !DropLeavesNamedPlaceOnly(HandedBack(i, LOST), RegionAxis, false);
    hide DropLeavesNamedPlaceOnly;
    assert DeriveForZero(HandedBack(i, LOST), false, ALL_AXES)[0] == WIDEN_REGION;
  }

  /** The intents an open search goes through stay open searches. */
  predicate OpenSearch(i: Intent) {
    Replayable(i) && !i.festivalOnly
  }

  lemma TapOpen(i: Intent, p: Patch, next: Intent, n: nat, back: nat)
    requires OpenSearch(i) && Leads(i, Open(p), next) && CanTap(next, n, back)
    ensures CanTap(i, n + 1, back)
  {
    hide Replayable, CanTap;
    OneMoreTap(i, Open(p), next, n, back);
  }

  lemma OpenStaysOpen(i: Intent, t: Offer, next: Intent)
    requires OpenSearch(i) && Leads(i, t, next)
    ensures OpenSearch(next) && next.namedPlaces == []
  {
    OneTap(i, t);
    hide ApplyPatch, HandedBack, Offered;
  }

  lemma FirstChipIsNotTheRegion(i: Intent)
    requires !i.festivalOnly && !i.nearMe && Spare(i) == 1
    ensures var chips := Chips(i); chips != [] && Spare(ApplyPatch(i, Some(chips[0]))) == 1
  {
    hide DropLeavesNamedPlaceOnly;
  }

  /** Every open search can be tapped down until nothing is left to change. */
  lemma {:induction false} MeasureCanBeTapped(i: Intent)
    requires OpenSearch(i)
    ensures CanTap(i, Measure(i), 0)
    decreases Measure(i)
  {
    if Measure(i) == 0 {
      NoMoreTaps(i);
    } else {
      ChipsRunOutExactly(i);
      TapFirstChip(i, Chips(i)[0]);
      var next := ApplyPatch(i, Some(Chips(i)[0]));
      hide Derive, ApplyPatch, OpenSearch, Measure, CanTap, Leads;
      MeasureCanBeTapped(next);
      TapOpen(i, Chips(i)[0], next, Measure(next), 0);
    }
  }

  lemma TapFirstChip(i: Intent, p: Patch)
    requires OpenSearch(i) && p in Chips(i)
    ensures var next := ApplyPatch(i, Some(p));
            Leads(i, Open(p), next) && OpenSearch(next) && Measure(next) + 1 == Measure(i)
  {
    OpenLeads(i, p);
    OpenStaysOpen(i, Open(p), ApplyPatch(i, Some(p)));
    hide Derive, ApplyPatch, Replayable;
    ChipsMakeProgress(i, Open(p));
  }

  /** And with a region in it, one tap further: one tap takes the region and returns "near me". */
  lemma {:induction false} OneMoreCanBeTapped(i: Intent)
    requires OpenSearch(i) && Spare(i) == 1
    ensures CanTap(i, Measure(i) + 1, 1)
    decreases Measure(i)
  {
    if i.nearMe {
      var lost := i.(nearMe := false, regionHints := []);
      LostChip(i);
      OpenStaysOpen(i, LOST, lost);
      MeasureCanBeTapped(lost);
      assert Measure(lost) == Measure(i) && TakesNearBack(i, LOST);
      hide OpenSearch, Measure, CanTap, Leads, TakesNearBack;
      OpenMeans(i);
      OneMoreTap(i, LOST, lost, Measure(i), 0);
    } else {
      FirstChipIsNotTheRegion(i);
      var p := Chips(i)[0];
      var next := ApplyPatch(i, Some(p));
      TapFirstChip(i, p);
      hide Derive, ApplyPatch, OpenSearch, Measure, CanTap, Leads;
      OneMoreCanBeTapped(next);
      TapOpen(i, p, next, Measure(next) + 1, 1);
    }
  }

  lemma OpenMeans(i: Intent)
    requires OpenSearch(i)
    ensures Replayable(i) && !i.festivalOnly
  {
    hide Replayable;
  }

  /** An intent can be tapped more often than its measure says exactly when it is an open search with a region. */
  lemma OutlastsItsMeasureIff(i: Intent)
    requires Replayable(i)
    ensures (exists taps :: Taps(i, taps) && |taps| > Measure(i)) <==> !i.festivalOnly && Spare(i) == 1
  {
    hide Replayable, Taps, CanTap;
    forall taps | Taps(i, taps) && |taps| > Measure(i)
      ensures !i.festivalOnly && Spare(i) == 1
    {
      TapsAreFew(i, taps);
      OneTapMoreIff(i, taps);
    }
    if !i.festivalOnly && Spare(i) == 1 {
      OneMoreCanBeTapped(i);
      CanTapMeans(i, Measure(i) + 1, 1);
    }
  }

  /** The failing input: a search of Busan with nothing else set can be tapped six times, one more than its measure. */
  lemma SixTapsCanHappen()
    ensures var busan := DEFAULT.(regionHints := ["busan"]);
            IntentOf([CallFromIntent(busan)]) == Some(busan) && Measure(busan) == 5 && CanTap(busan, 6, 1)
  {
    var busan := DEFAULT.(regionHints := ["busan"]);
    assert OpenSearch(busan) && Spare(busan) == 1;
    hide Taps, CanTap, IntentOf, CallFromIntent;
    OneMoreCanBeTapped(busan);
    ReplayOne(busan);
  }

  lemma CanTapMeans(i: Intent, n: nat, back: nat)
    requires CanTap(i, n, back)
    ensures exists taps :: Taps(i, taps) && |taps| == n
  {
    hide Taps, TimesTakenBack;
  }
}
