/** Small histories of the kinds the sync's results speak of. */
module SyncExamples {
  import opened Wrappers
  import opened Sets
  import opened Digits
  import opened Calendar
  import opened SyncPlan
  import opened SpotTable
  import opened PageLoop
  import opened SyncRuns
  import opened SyncAttempts
  import opened SyncHistory
  import opened SyncVisibility

  /** A service that has one spot and always answers. */
  function OneSpot(s: Spot): Service
    requires s.time.Some?
  {
    q => page => if Asks(q, s.time.value.date) then Page(if page == 1 then [s] else [], 1) else Page([], 0)
  }

  lemma OneSpotIsHonest(s: Spot, q: Query)
    requires s.time.Some?
    ensures var list := if Asks(q, s.time.value.date) then [s] else [];
            Lists(q, map[s.id := s], list) && SlicesOrFails(OneSpot(s)(q), list)
  {
    hide Asks;
    var catalogue := map[s.id := s];
    assert catalogue[s.id] == s && catalogue.Values == {s};
    var list := if Asks(q, s.time.value.date) then [s] else [];
    forall page: nat | page >= 1
      ensures Slice(list, page) == if page == 1 then list else []
    {
    }
  }

  lemma OneSpotIsListed(s: Spot, q: Query)
    requires s.time.Some?
    ensures Listing(OneSpot(s)(q)) == Fetched(Complete, if Asks(q, s.time.value.date) then [s] else [], 1)
  {
    hide Asks;
  }

  lemma OneSpotIsFetched(s: Spot)
    requires s.time.Some?
    ensures FetchAll(OneSpot(s), [None]) == Fetched(Complete, [s], 1)
  {
    EverythingAsksAll(s.time.value.date);
    var plan: seq<Query> := [None];
    OneSpotIsListed(s, None);
    assert plan[1..] == [];
  }

  lemma {:induction false} OneSpotAlwaysAnswers(s: Spot, plan: seq<Query>)
    requires s.time.Some?
    ensures FetchAll(OneSpot(s), plan).end == Complete
  {
    hide OneSpot, Asks, Listing;
    if plan != [] {
      OneSpotIsListed(s, plan[0]);
      OneSpotAlwaysAnswers(s, plan[1..]);
    }
  }

  lemma OneSpotEventIsHonest(e: Event, s: Spot)
    requires s.time.Some? && e.service == OneSpot(s) && e.catalogue == map[s.id := s]
    ensures Honest(e)
  {
    hide Lists, SlicesOrFails, Asks, OneSpot;
    forall q: Query
      ensures HonestAbout(e, q)
    {
      OneSpotIsHonest(s, q);
    }
  }

  lemma OneSpotIsStored(s: Spot)
    ensures var rows := UpsertAll(map[], [s]);
            rows == map[s.id := s] && Ids([s]) == {s.id} && !SeesTooFew(rows, {s.id})
  {
    var none: Table := map[];
    assert [s][..0] == [];
    assert UpsertAll(none, []) == none;
    var rows := UpsertAll(none, [s]);
    assert rows == Upsert(none, s);
    assert Visible(rows) <= {s.id};
    SubsetSize(Visible(rows), {s.id});
  }

  /** An attempt against a service whose whole catalogue is one spot. */
  function OneSpotEvent(full: bool, today: Date, s: Spot): Event
    requires s.time.Some?
  {
    Event(full, today, OneSpot(s), map[s.id := s])
  }

  const EMPTY := Store(map[], [])

  lemma FirstWatermark(s: Spot)
    requires s.time.Some?
    ensures AdvancedWatermark(None, Newest(None, [s]), [None]) == Some(StampText(s.time.value))
  {
    var plan: seq<Query> := [None];
    assert plan[..0] == [] && LastText(plan) == None;
    assert [s][..0] == [] && Newest(None, [s]) == s.time;
    assert Candidates(None, s.time, plan) == [StampText(s.time.value)];
  }

  lemma FirstRunStores(s: Spot, today: Date)
    requires s.time.Some? && today.year <= 9998
    ensures var e := OneSpotEvent(true, today, s);
            Succeeds(EMPTY, e) && Execute(EMPTY, e).rows.Keys == {s.id} && SameVersion(Execute(EMPTY, e).rows[s.id], s)
            && LastWatermark(Execute(EMPTY, e).runs) == Some(StampText(s.time.value))
  {
    hide FetchAll, OneSpot, AdvancedWatermark, UpsertAll, SeesTooFew, Ids, RunOn, Newest, LastWatermark, StampText;
    var e := OneSpotEvent(true, today, s);
    AttemptRuns(EMPTY, e);
    OneSpotIsFetched(s);
    OneSpotIsStored(s);
    FirstWatermark(s);
    NoWatermarkYet();
    FullRunRows(EMPTY, [None], e.service, None);
    RunOnRows(EMPTY, Full, [None], e.service, None);
    WatermarkAfter(EMPTY, e);
  }

  lemma OneSpotEventIsDated(full: bool, today: Date, s: Spot)
    requires s.time.Some? && today.year <= 9998 && Ordinal(s.time.value.date) <= Ordinal(today)
    ensures var e := OneSpotEvent(full, today, s); Dated(e) && Honest(e) && e.today == today
  {
    hide Ordinal, OneSpot, Honest;
    OneSpotEventIsHonest(OneSpotEvent(full, today, s), s);
  }

  lemma AfterOne(e: Event)
    requires e.today.year <= 9998
    ensures After([e]) == Execute(EMPTY, e) && (Succeeds(EMPTY, e) ==> LastSuccess([e]) == Some(0))
  {
    hide Execute, Succeeds;
    assert [e][..0] == [];
  }

  lemma AfterTwo(a: Event, b: Event)
    requires a.today.year <= 9998 && b.today.year <= 9998
    ensures After([a, b]) == Execute(After([a]), b) && (Succeeds(After([a]), b) ==> LastSuccess([a, b]) == Some(1))
  {
    hide Execute, Succeeds;
    assert [a, b][..1] == [a];
  }

  /** A full run on any dated spot, from empty tables, succeeds. */
  lemma AFirstRun(s: Spot, today: Date)
    requires s.time.Some? && today.year <= 9998 && Ordinal(s.time.value.date) <= Ordinal(today)
    ensures var e := OneSpotEvent(true, today, s); World([e]) && LastSuccess([e]) == Some(0)
  {
    hide Ordinal, Dated, Honest, Execute, Succeeds, OneSpotEvent;
    OneSpotEventIsDated(true, today, s);
    FirstRunStores(s, today);
    AfterOne(OneSpotEvent(true, today, s));
  }

  /** A spot listed on one day and listed again, changed, on a later one that a plan can still reach. */
  ghost predicate Changes(s: Spot, changed: Spot, first: Date, second: Date) {
    && s.time.Some? && changed.time.Some? && s.id == changed.id && second.year <= 9998 && first.year <= 9998
    && Ordinal(s.time.value.date) <= Ordinal(first) <= Ordinal(changed.time.value.date) <= Ordinal(second)
    && Instant(s.time.value) < Instant(changed.time.value) && PlanFrom(s.time.value.date, second).Ok?
  }

  lemma ChangesMeans(s: Spot, changed: Spot, first: Date, second: Date)
    requires Changes(s, changed, first, second)
    ensures s.time.Some? && changed.time.Some? && second.year <= 9998 && first.year <= 9998
    ensures PlanFrom(s.time.value.date, second).Ok?
  {
    hide Ordinal, Instant, PlanFrom;
  }

  lemma BothEvents(s: Spot, changed: Spot, first: Date, second: Date)
    requires Changes(s, changed, first, second)
    ensures var a, b := OneSpotEvent(true, first, s), OneSpotEvent(false, second, changed);
            World([a, b]) && a.today == first && b.today == second
  {
    ChangeEvolves(s, changed, first, second);
    hide Ordinal, Instant, Dated, Honest, OneSpotEvent, Evolves, PlanFrom;
    OneSpotEventIsDated(true, first, s);
    OneSpotEventIsDated(false, second, changed);
    WorldOfTwo(OneSpotEvent(true, first, s), OneSpotEvent(false, second, changed));
  }

  lemma TwoSuccesses(a: Event, b: Event)
    requires a.today.year <= 9998 && b.today.year <= 9998
    requires Succeeds(EMPTY, a) && Succeeds(Execute(EMPTY, a), b)
    ensures Representable([a, b]) && LastSuccess([a, b]) == Some(1)
  {
    AfterOne(a);
    AfterTwo(a, b);
    hide Succeeds, Execute, After, LastSuccess;
  }

  lemma SecondRunSucceeds(s: Spot, changed: Spot, first: Date, second: Date)
    requires Changes(s, changed, first, second)
    ensures var a, b := OneSpotEvent(true, first, s), OneSpotEvent(false, second, changed);
            Succeeds(EMPTY, a) && Succeeds(Execute(EMPTY, a), b)
  {
    assert OneSpotEvent(true, first, s).today == first;
    hide *;
    ChangesMeans(s, changed, first, second);
    FirstRunStores(s, first);
    IncrementalRunSucceeds(Execute(EMPTY, OneSpotEvent(true, first, s)), changed, second, s.time.value);
  }

  lemma BothSucceed(s: Spot, changed: Spot, first: Date, second: Date)
    requires Changes(s, changed, first, second)
    ensures var events := [OneSpotEvent(true, first, s), OneSpotEvent(false, second, changed)];
            Representable(events) && LastSuccess(events) == Some(1)
  {
    BothEvents(s, changed, first, second);
    hide *;
    ChangesMeans(s, changed, first, second);
    SecondRunSucceeds(s, changed, first, second);
    TwoSuccesses(OneSpotEvent(true, first, s), OneSpotEvent(false, second, changed));
  }

  /**
   A spot is listed by a full run, changes, and an incremental run on a later day asks for the days since:
   the history is one of those the results speak of, both runs succeed, and the change is stored.
   */
  lemma AnIncrementalRun(s: Spot, changed: Spot, first: Date, second: Date)
    requires Changes(s, changed, first, second)
    ensures var events := [OneSpotEvent(true, first, s), OneSpotEvent(false, second, changed)];
            && World(events) && LastSuccess(events) == Some(1)
            && s.id in After(events).rows && SameVersion(After(events).rows[s.id], changed)
  {
    OneSpotCatalogue(false, second, changed);
    BothEvents(s, changed, first, second);
    BothSucceed(s, changed, first, second);
    hide *;
    SuccessLeavesCurrentVersions([OneSpotEvent(true, first, s), OneSpotEvent(false, second, changed)], s.id);
  }

  lemma WorldOfTwo(a: Event, b: Event)
    requires Dated(a) && Honest(a) && Dated(b) && Honest(b) && Evolves(a, b)
    ensures World([a, b])
  {
    hide Honest, Evolves;
  }

  lemma OneSpotCatalogue(full: bool, today: Date, s: Spot)
    requires s.time.Some?
    ensures var c := OneSpotEvent(full, today, s).catalogue; s.id in c && c[s.id] == s
  {
  }

  lemma ChangeEvolves(s: Spot, changed: Spot, first: Date, second: Date)
    requires s.time.Some? && changed.time.Some? && s.id == changed.id && second.year <= 9998 && first.year <= 9998
    requires Ordinal(s.time.value.date) <= Ordinal(first) <= Ordinal(changed.time.value.date) <= Ordinal(second)
    requires Instant(s.time.value) < Instant(changed.time.value)
    ensures var a, b := OneSpotEvent(true, first, s), OneSpotEvent(false, second, changed);
            Dated(a) && Dated(b) && Evolves(a, b)
  {
    hide Ordinal, Instant, OneSpot, Honest;
  }

  lemma IncrementalRunSucceeds(before: Store, s: Spot, today: Date, from: Moment)
    requires s.time.Some? && today.year <= 9998
    requires LastWatermark(before.runs) == Some(StampText(from)) && PlanFrom(from.date, today).Ok?
    ensures Succeeds(before, OneSpotEvent(false, today, s))
  {
    hide Ordinal, PlanFrom, StampText, LastWatermark, ParseDay, FetchAll, OneSpot, UpsertAll, AdvancedWatermark, Outcomes;
    var e := OneSpotEvent(false, today, s);
    StampedWatermarkParses(from);
    var plan := PlanOf(before, e).value;
    OneSpotAlwaysAnswers(s, plan);
  }

  // ----- a hidden spot that does not come back -----

  /** A service that answers every query with one list of at most a page. */
  function OneList(list: seq<Spot>): Service {
    q => page => Page(if page == 1 then list else [], |list|)
  }

  lemma OneListIsFetched(list: seq<Spot>)
    requires list != []
    ensures FetchAll(OneList(list), [None]) == Fetched(Complete, list, 1)
  {
    var plan: seq<Query> := [None];
    assert plan[1..] == [];
    assert Listing(OneList(list)(None)) == Fetched(Complete, list, 1);
  }

  function FullListing(today: Date, list: seq<Spot>): Event {
    Event(true, today, OneList(list), map[])
  }

  /** A full listing over at most twice as many spots as it holds is not refused. */
  lemma FullListingSucceeds(s: Store, today: Date, list: seq<Spot>)
    requires today.year <= 9998 && list != [] && Keyed(s.rows) && Timed(list)
    requires |s.rows.Keys + Ids(list)| <= 2 * |Ids(list)|
    ensures var e := FullListing(today, list);
            && Succeeds(s, e) && Given(s, e) == list
            && Execute(s, e).rows.Keys == s.rows.Keys + Ids(list) && Keyed(Execute(s, e).rows)
  {
    hide FetchAll, OneList, UpsertAll, RunOn, Ids, AsRecent, Instant;
    var e := FullListing(today, list);
    OneListIsFetched(list);
    AttemptRuns(s, e);
    FullRunRows(s, [None], e.service, None);
    RunOnRows(s, Full, [None], e.service, None);
    UpsertAllKeepsNewest(s.rows, list);
    SubsetSize(Visible(UpsertAll(s.rows, list)), UpsertAll(s.rows, list).Keys);
  }

  lemma TwoIds(a: Spot, b: Spot)
    requires a.id != b.id
    ensures Ids([a, b]) == {a.id, b.id} && |Ids([a, b])| == 2 && Ids([a]) == {a.id} && |Ids([a])| == 1
  {
  }

  predicate TwoSpots(kept: Spot, dropped: Spot) {
    kept.id != dropped.id && dropped.show == 1 && kept.time.Some? && dropped.time.Some?
  }

  lemma BothAreListed(kept: Spot, dropped: Spot, today: Date)
    requires TwoSpots(kept, dropped) && today.year <= 9998
    ensures var both := FullListing(today, [kept, dropped]);
            var s := Execute(EMPTY, both);
            && Succeeds(EMPTY, both) && s.rows.Keys == Ids([kept, dropped]) && s.rows[dropped.id] == dropped && Keyed(s.rows)
  {
    var list := [kept, dropped];
    var both := FullListing(today, list);
    TwoIds(kept, dropped);
    OneVersionUpserts(EMPTY.rows, list, dropped);
    hide *;
    StartsKeyed();
    TwoAreTimed(kept, dropped);
    FullListingSucceeds(EMPTY, today, list);
    RowAfter(EMPTY, both, dropped.id);
  }

  lemma StartsKeyed()
    ensures Keyed(EMPTY.rows) && EMPTY.rows == map[]
  {
  }

  lemma TwoAreTimed(kept: Spot, dropped: Spot)
    requires TwoSpots(kept, dropped)
    ensures Timed([kept, dropped]) && Timed([kept])
  {
  }

  lemma OneIsMissing(s: Store, kept: Spot, dropped: Spot, today: Date)
    requires TwoSpots(kept, dropped) && today.year <= 9998 && Keyed(s.rows) && s.rows.Keys == Ids([kept, dropped])
    ensures var one, both := FullListing(today, [kept]), FullListing(today, [kept, dropped]);
            && Succeeds(s, one) && Given(s, one) == [kept] && dropped.id !in Ids([kept])
            && Given(Execute(s, one), both) == [kept, dropped]
  {
    TwoIds(kept, dropped);
    assert Ids([kept, dropped]) + Ids([kept]) == Ids([kept, dropped]);
    assert Ids([kept, dropped]) + Ids([kept, dropped]) == Ids([kept, dropped]);
    hide *;
    var one := FullListing(today, [kept]);
    TwoAreTimed(kept, dropped);
    FullListingSucceeds(s, today, [kept]);
    FullListingSucceeds(Execute(s, one), today, [kept, dropped]);
  }

  /**
   Two spots are listed, then only the first, then both again, the second unchanged: three full runs, all
   received completely, and the second spot stays hidden.
   */
  lemma RelistedSpotStaysHidden(kept: Spot, dropped: Spot, today: Date)
    requires TwoSpots(kept, dropped) && today.year <= 9998
    ensures var both, one := FullListing(today, [kept, dropped]), FullListing(today, [kept]);
            var s := Execute(EMPTY, both);
            && Succeeds(EMPTY, both) && Shown(s.rows, dropped.id)
            && Succeeds(s, one) && dropped in Given(Execute(s, one), both)
            && !Shown(Execute(Execute(s, one), both).rows, dropped.id)
  {
    var list := [kept, dropped];
    var both, one := FullListing(today, list), FullListing(today, [kept]);
    assert forall y :: y in list && y.id == dropped.id ==> y == dropped;
    assert dropped in list && both.today == one.today == today && one.full && [kept] != [];
    NoneInBetween(Execute(Execute(EMPTY, both), one), dropped.id);
    hide *;
    BothAreListed(kept, dropped, today);
    var s := Execute(EMPTY, both);
    OneIsMissing(s, kept, dropped, today);
    IsShown(s.rows, dropped);
    HiddenSpotReturnsOnlyWhenModified(s, one, [], both, dropped);
  }

  lemma IsShown(rows: Table, x: Spot)
    requires x.id in rows && rows[x.id] == x
    ensures Shown(rows, x.id) <==> x.show == 1
  {
  }

  lemma NoneInBetween(s: Store, id: string)
    ensures Representable([]) && NeverGiven(s, [], id) && ExecuteAll(s, []) == s
  {
  }
}
