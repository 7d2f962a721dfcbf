/**
 Which spots a run leaves visible: what a full run shows and hides, and what it takes for a hidden spot to
 come back.
 */
module SyncVisibility {
  import opened Wrappers
  import opened Sets
  import opened Digits
  import opened Calendar
  import opened SyncPlan
  import opened SpotTable
  import opened PageLoop
  import opened SyncRuns
  import opened SyncAttempts
  import opened SyncHistory

  predicate Shown(rows: Table, id: string) {
    id in rows && rows[id].show == 1
  }

  /** Listed spot `x` ends up visible over the stored rows: by itself, or by the row it may not overwrite. */
  predicate ShownOver(rows: Table, x: Spot) {
    if Writes(rows, x) then x.show == 1 else rows[x.id].show == 1
  }

  lemma FullRunRows(s: Store, plan: seq<Query>, service: Service, from: Option<string>)
    requires FetchAll(service, plan).end == Complete
    ensures var items := FetchAll(service, plan).items;
            var rows, t := UpsertAll(s.rows, items), RunOn(s, Full, plan, service, from);
            var ok := t.runs[|t.runs| - 1].status == Success;
            && (ok <==> items == [] || !SeesTooFew(rows, Ids(items)))
            && t.rows == if ok && items != [] then HideUnseen(rows, Ids(items)) else rows
  {
    hide UpsertAll, AdvancedWatermark, FetchAll, Newest, Outcomes, HideUnseen, SeesTooFew;
    IdsOfSomething(FetchAll(service, plan).items);
  }

  lemma IdsOfSomething(items: seq<Spot>)
    ensures Ids(items) == {} <==> items == []
  {
    if items != [] { assert items[0].id in Ids(items); }
  }

  /** A full run that succeeds against an honest service has received exactly the catalogue. */
  lemma FullRunFetchesTheCatalogue(s: Store, e: Event)
    requires Dated(e) && Honest(e) && e.full && Succeeds(s, e)
    ensures var f := FetchAll(e.service, [None]);
            f.end == Complete && forall x :: x in f.items <==> x in e.catalogue.Values
  {
    hide Ordinal, FetchAll, Honest;
    AttemptRuns(s, e);
    RunOnRows(s, Full, [None], e.service, None);
    HonestFetch(e, [None]);
    forall x | x in e.catalogue.Values
      ensures AskedBy([None], x.time.value.date)
    {
      EverythingAsksAll(x.time.value.date);
    }
  }

  /**
   After a successful full run against an honest service the visible spots are exactly those of its
   catalogue that are listed as shown, or are stored as shown where the listing is not newer.  An empty
   catalogue hides nothing.
   */
  lemma FullRunShows(s: Store, e: Event, id: string)
    requires Dated(e) && Honest(e) && e.full && Succeeds(s, e)
    ensures var t := Execute(s, e);
            if e.catalogue.Keys == {} then t.rows == s.rows
            else Shown(t.rows, id) <==> id in e.catalogue && ShownOver(s.rows, e.catalogue[id])
  {
    hide Ordinal, FetchAll, Honest, Overwrites, SeesTooFew, RunOn, Execute, UpsertAll;
    AttemptRuns(s, e);
    FullRunFetchesTheCatalogue(s, e);
    FullRunRows(s, [None], e.service, None);
    var items := FetchAll(e.service, [None]).items;
    if items == [] {
      NothingGiven(s.rows);
      NoValuesNoKeys(e.catalogue);
    } else {
      KeyedValue(e.catalogue, items[0]);
      var rows := UpsertAll(s.rows, items);
      assert Execute(s, e).rows == HideUnseen(rows, Ids(items));
      if id in e.catalogue {
        var x := e.catalogue[id];
        assert x in e.catalogue.Values && x in items;
        forall y | y in items && y.id == id
          ensures y == x
        {
          KeyedValue(e.catalogue, y);
        }
        OneVersionUpserts(s.rows, items, x);
      } else {
        forall y | y in items
          ensures y.id != id
        {
          KeyedValue(e.catalogue, y);
        }
        assert id !in Ids(items);
      }
    }
  }

  lemma NoValuesNoKeys(t: Table)
    requires forall x :: x !in t.Values
    ensures t.Keys == {}
  {
    assert forall k :: k in t ==> t[k] in t.Values;
  }

  lemma KeyedValue(t: Table, x: Spot)
    requires Keyed(t) && x in t.Values
    ensures x.id in t && t[x.id] == x
  {
  }

  // ----- hidden spots -----

  /** What an attempt is given, successful or not; nothing when its plan is refused. */
  function Given(s: Store, e: Event): seq<Spot>
    requires e.today.year <= 9998
  {
    if PlanOf(s, e).Ok? then FetchAll(e.service, PlanOf(s, e).value).items else []
  }

  /** No attempt of the list is given a spot with this id. */
  ghost predicate NeverGiven(s: Store, events: seq<Event>, id: string)
    requires Representable(events)
    decreases |events|
  {
    events != [] ==> id !in Ids(Given(s, events[0])) && NeverGiven(Execute(s, events[0]), events[1..], id)
  }

  ghost function ExecuteAll(s: Store, events: seq<Event>): Store
    requires Representable(events)
    decreases |events|
  {
    if events == [] then s else ExecuteAll(Execute(s, events[0]), events[1..])
  }

  /** Any attempt's effect on one row: the upsert, and then the hide if it is a full run that did not list it. */
  lemma RowAfter(s: Store, e: Event, id: string)
    requires e.today.year <= 9998
    ensures var t, rows := Execute(s, e), UpsertAll(s.rows, Given(s, e));
            && t.rows.Keys == rows.Keys
            && (id in rows ==> t.rows[id] == rows[id] || t.rows[id] == rows[id].(show := 0))
            && (id in rows && id in Ids(Given(s, e)) ==> t.rows[id] == rows[id])
            && (id in rows && rows[id].show == 0 ==> t.rows[id] == rows[id])
            && (id in rows && rows[id].show == 1 && e.full && Succeeds(s, e) && Given(s, e) != [] && id !in Ids(Given(s, e)) ==>
                  t.rows[id] == rows[id].(show := 0))
  {
    hide UpsertAll, FetchAll, AdvancedWatermark, Newest, Outcomes, Plan;
    IdsOfSomething(Given(s, e));
    if PlanOf(s, e).Err? { NothingGiven(s.rows); }
  }

  lemma NothingGiven(t: Table)
    ensures UpsertAll(t, []) == t
  {
  }

  lemma NotGivenIsUntouched(t: Table, items: seq<Spot>, id: string)
    requires id !in Ids(items)
    ensures id in UpsertAll(t, items) <==> id in t
    ensures id in t ==> UpsertAll(t, items)[id] == t[id]
  {
    hide UpsertAll;
    var x := Spot(id, None, 0, "");
    assert x.id !in Ids(items);
    OneVersionUpserts(t, items, x);
  }

  lemma {:induction false} HiddenRowStays(s: Store, events: seq<Event>, id: string)
    requires Representable(events) && NeverGiven(s, events, id) && id in s.rows && s.rows[id].show == 0
    ensures var t := ExecuteAll(s, events); id in t.rows && t.rows[id] == s.rows[id]
    decreases |events|
  {
    hide Execute, Given, UpsertAll, Ids;
    if events != [] {
      RowAfter(s, events[0], id);
      NotGivenIsUntouched(s.rows, Given(s, events[0]), id);
      HiddenRowStays(Execute(s, events[0]), events[1..], id);
    }
  }

  /**
   What the upsert guard costs after a hide: a visible dated spot that a successful full run does not list
   is hidden, stays so through any attempts that do not list it either, and when it is listed again it is
   visible exactly if its modified time has moved on.
   */
  lemma HiddenSpotReturnsOnlyWhenModified(s: Store, full: Event, quiet: seq<Event>, again: Event, x: Spot)
    requires full.today.year <= 9998 && again.today.year <= 9998 && Representable(quiet)
    requires full.full && Succeeds(s, full) && Given(s, full) != [] && x.id !in Ids(Given(s, full))
    requires Shown(s.rows, x.id) && s.rows[x.id].time.Some?
    requires NeverGiven(Execute(s, full), quiet, x.id) && x.show == 1
    requires var given := Given(ExecuteAll(Execute(s, full), quiet), again);
             x in given && forall y :: y in given && y.id == x.id ==> y == x
    ensures Shown(Execute(ExecuteAll(Execute(s, full), quiet), again).rows, x.id)
            <==> x.time.Some? && Instant(s.rows[x.id].time.value) < Instant(x.time.value)
  {
    hide Execute, Given, UpsertAll, Instant, Succeeds;
    var hidden := Execute(s, full);
    RowAfter(s, full, x.id);
    NotGivenIsUntouched(s.rows, Given(s, full), x.id);
    HiddenRowStays(hidden, quiet, x.id);
    var before := ExecuteAll(hidden, quiet);
    RowAfter(before, again, x.id);
    OneVersionUpserts(before.rows, Given(before, again), x);
    assert x.id in Ids(Given(before, again));
  }

  // ----- runs made again -----

  /**
   A run that broke off part-way and is made again on the same day leaves the rows that one clean run
   would have left.
   */
  lemma RerunLeavesTheCleanRows(s: Store, broken: Event, whole: Event)
    requires broken.today.year <= 9998 && (broken.full, broken.today) == (whole.full, whole.today)
    requires PlanOf(s, whole).Ok? && FetchAll(broken.service, PlanOf(s, whole).value).end != Complete
    requires Keyed(s.rows) && Timed(Given(s, whole)) && OneVersionPerTime(s.rows, Given(s, whole))
    requires forall x :: x in Given(s, broken) ==> x in Given(s, whole)
    ensures Execute(Execute(s, broken), whole).rows == Execute(s, whole).rows
  {
    hide UpsertAll, FetchAll, AdvancedWatermark, Newest, Outcomes, Plan, HideUnseen, SeesTooFew, Keyed, OneVersionPerTime;
    var plan := PlanOf(s, whole).value;
    var mode, from := if whole.full then Full else Incremental, if whole.full then None else LastWatermark(s.runs);
    FailedRunKeepsTheWatermark(s, mode, plan, broken.service, from);
    RerunAfterPartialCommit(s.rows, Given(s, whole), Given(s, broken));
  }
}
