/**
 Whole histories of the sync: successful, failed and refused runs, incremental and full, against a
 catalogue that keeps changing.  The main result is that every spot of the catalogue the newest successful
 run faced is stored in the version it had there or a later one, although each run asks only for recent days.
 */
module SyncHistory {
  import opened Wrappers
  import opened Digits
  import opened Sets
  import opened Calendar
  import opened SyncPlan
  import opened SpotTable
  import opened PageLoop
  import opened SyncRuns
  import opened SyncAttempts

  ghost predicate Dated(e: Event) {
    && e.today.year <= 9998
    && Keyed(e.catalogue)
    && forall id :: id in e.catalogue ==>
         e.catalogue[id].time.Some? && Ordinal(e.catalogue[id].time.value.date) <= Ordinal(e.today)
  }

  /** `list` is the catalogue's listing for query `q`, in whatever order. */
  ghost predicate Lists(q: Query, catalogue: Table, list: seq<Spot>) {
    forall s :: s in list <==> s in catalogue.Values && s.time.Some? && Asks(q, s.time.value.date)
  }

  ghost predicate HonestAbout(e: Event, q: Query) {
    exists list :: Lists(q, e.catalogue, list) && SlicesOrFails(e.service(q), list)
  }

  /** The service pages through its own catalogue whenever it answers. */
  ghost predicate Honest(e: Event) {
    forall q: Query :: HonestAbout(e, q)
  }

  /**
   How the catalogue may change from one attempt to a later one: modified times only grow, a spot
   that keeps its modified time keeps its content, and nothing is stamped into a day already past.
   */
  ghost predicate Evolves(a: Event, b: Event)
    requires Dated(a) && Dated(b)
  {
    && Ordinal(a.today) <= Ordinal(b.today)
    && (forall id :: id in a.catalogue && id in b.catalogue ==>
          && Instant(a.catalogue[id].time.value) <= Instant(b.catalogue[id].time.value)
          && (a.catalogue[id].time == b.catalogue[id].time ==> a.catalogue[id] == b.catalogue[id]))
    && (forall id :: id in b.catalogue && Ordinal(b.catalogue[id].time.value.date) < Ordinal(a.today) ==>
          id in a.catalogue && a.catalogue[id] == b.catalogue[id])
  }

  ghost predicate World(events: seq<Event>)
    ensures World(events) ==> Representable(events)
  {
    && (forall i | 0 <= i < |events| :: Dated(events[i]) && Honest(events[i]))
    && (forall i, j | 0 <= i < j < |events| :: Evolves(events[i], events[j]))
  }

  // ----- one run against an honest service -----

  lemma {:induction false} HonestFetch(e: Event, plan: seq<Query>)
    requires Dated(e) && Honest(e)
    ensures forall s :: s in FetchAll(e.service, plan).items ==> s in e.catalogue.Values
    ensures FetchAll(e.service, plan).end == Complete ==>
              forall s :: s in e.catalogue.Values && s.time.Some? && AskedBy(plan, s.time.value.date)
                          ==> s in FetchAll(e.service, plan).items
  {
    hide Listing, Ordinal, Asks;
    if plan != [] {
      var q := plan[0];
      assert HonestAbout(e, q);
      var list :| Lists(q, e.catalogue, list) && SlicesOrFails(e.service(q), list);
      SlicedListing(e.service(q), list);
      HonestFetch(e, plan[1..]);
      assert forall x :: x in plan ==> x == q || x in plan[1..];
    }
  }

  // ----- what every history keeps -----

  /** Every stored row is some version the catalogue once had. */
  ghost predicate Descends(events: seq<Event>, rows: Table) {
    Keyed(rows) && forall id :: id in rows ==> FromHistory(events, rows[id])
  }

  ghost predicate FromHistory(events: seq<Event>, row: Spot) {
    exists j :: 0 <= j < |events| && row.id in events[j].catalogue && SameVersion(row, events[j].catalogue[row.id])
  }

  ghost predicate CaughtUp(e: Event, rows: Table) {
    forall id :: id in e.catalogue ==> id in rows && AsRecent(rows[id], e.catalogue[id])
  }

  ghost predicate Kept(events: seq<Event>)
    requires World(events)
  {
    var rows, last := After(events).rows, LastSuccess(events);
    Descends(events, rows) && (last.Some? ==> CaughtUp(events[last.value], rows))
  }

  lemma RowsKeepDescending(pre: seq<Event>, e: Event, plan: seq<Query>, rows: Table)
    requires Dated(e) && Honest(e) && Descends(pre, rows)
    ensures Descends(pre + [e], UpsertAll(rows, FetchAll(e.service, plan).items))
    ensures Timed(FetchAll(e.service, plan).items)
  {
    hide UpsertAll, FetchAll, Ordinal;
    var items := FetchAll(e.service, plan).items;
    HonestFetch(e, plan);
    UpsertAllKeepsNewest(rows, items);
    forall id | id in UpsertAll(rows, items)
      ensures FromHistory(pre + [e], UpsertAll(rows, items)[id])
    {
      var row := UpsertAll(rows, items)[id];
      if row in items {
        assert (pre + [e])[|pre|] == e;
      } else {
        var j :| 0 <= j < |pre| && row.id in pre[j].catalogue && SameVersion(row, pre[j].catalogue[row.id]);
        assert (pre + [e])[j] == pre[j];
      }
    }
  }

  /** A successful run catches up with its catalogue, days it did not ask for included. */
  lemma SuccessCatchesUp(last: Option<Event>, e: Event, wm: Option<string>, plan: seq<Query>, rows: Table)
    requires Dated(e) && Honest(e) && Keyed(rows)
    requires plan == [None] || Plan(wm, e.today) == Ok(plan)
    requires FetchAll(e.service, plan).end == Complete
    requires last.None? ==> wm.None?
    requires last.Some? ==> Dated(last.value) && Evolves(last.value, e) && CaughtUp(last.value, rows)
                            && (wm.Some? ==> StampedBy(wm.value, last.value.today))
    ensures CaughtUp(e, UpsertAll(rows, FetchAll(e.service, plan).items))
  {
    hide UpsertAll, FetchAll, Instant, Ordinal, StampText, ParseDay, PlanFrom, Asks;
    var items := FetchAll(e.service, plan).items;
    HonestFetch(e, plan);
    UpsertAllKeepsNewest(rows, items);
    forall id | id in e.catalogue
      ensures id in UpsertAll(rows, items) && AsRecent(UpsertAll(rows, items)[id], e.catalogue[id])
    {
      var x := e.catalogue[id];
      assert x in e.catalogue.Values;
      var d := x.time.value.date;
      if AskedBy(plan, d) {
        assert x in items;
      } else {
        EverythingAsksAll(d);
        assert plan != [None];
        var m: Moment :| wm.value == StampText(m) && Ordinal(m.date) <= Ordinal(last.value.today);
        StampedWatermarkParses(m);
        assert PlanFrom(m.date, e.today) == Ok(plan);
        PlanStartsByTheWatermark(m.date, e.today, d);
        assert last.value.catalogue[id] == x;
      }
    }
  }

  lemma DescendsUpToHiding(events: seq<Event>, rows: Table, shown: Table)
    requires Descends(events, rows)
    requires shown.Keys == rows.Keys && forall id :: id in rows ==> SameVersion(shown[id], rows[id])
    ensures Descends(events, shown)
  {
    forall id | id in shown
      ensures FromHistory(events, shown[id])
    {
      var j :| 0 <= j < |events| && id in events[j].catalogue && SameVersion(rows[id], events[j].catalogue[id]);
    }
  }

  lemma CaughtUpUpToHiding(e: Event, rows: Table, shown: Table)
    requires CaughtUp(e, rows)
    requires shown.Keys == rows.Keys && forall id :: id in rows ==> SameVersion(shown[id], rows[id])
    ensures CaughtUp(e, shown)
  {
    hide Instant;
  }

  lemma CaughtUpStays(e: Event, rows: Table, items: seq<Spot>)
    requires CaughtUp(e, rows) && Keyed(rows) && Timed(items)
    ensures CaughtUp(e, UpsertAll(rows, items))
  {
    hide Instant, UpsertAll;
    UpsertAllKeepsNewest(rows, items);
    forall id | id in e.catalogue
      ensures AsRecent(UpsertAll(rows, items)[id], e.catalogue[id])
    {
      assert AsRecent(rows[id], e.catalogue[id]);
      assert AsRecent(UpsertAll(rows, items)[id], rows[id]);
    }
  }

  /** What is known of the newest success before one more attempt. */
  ghost predicate Standing(last: Option<Event>, e: Event, s: Store)
    requires Dated(e)
  {
    var wm := LastWatermark(s.runs);
    match last
    case None => wm.None?
    case Some(l) => Dated(l) && Evolves(l, e) && CaughtUp(l, s.rows) && (wm.Some? ==> StampedBy(wm.value, l.today))
  }

  lemma RunKeepsStanding(last: Option<Event>, e: Event, s: Store, plan: seq<Query>)
    requires Dated(e) && Honest(e) && Keyed(s.rows) && Standing(last, e, s)
    requires PlanOf(s, e) == Ok(plan)
    ensures var t := Execute(s, e);
            if Succeeds(s, e) then CaughtUp(e, t.rows) else last.Some? ==> CaughtUp(last.value, t.rows)
  {
    hide UpsertAll, FetchAll, Instant, Ordinal, RunOn, StampedBy, AdvancedWatermark, Newest, Honest, Less, Evolves,
      CaughtUp, Plan;
    AttemptRuns(s, e);
    var t := Execute(s, e);
    var items := FetchAll(e.service, plan).items;
    RunOnRows(s, if e.full then Full else Incremental, plan, e.service, if e.full then None else LastWatermark(s.runs));
    HonestFetchIsTimed(e, plan);
    if last.Some? {
      CaughtUpStays(last.value, s.rows, items);
      CaughtUpUpToHiding(last.value, UpsertAll(s.rows, items), t.rows);
    }
    if t.runs[|s.runs|].status == Success {
      SuccessCatchesUp(last, e, LastWatermark(s.runs), plan, s.rows);
      CaughtUpUpToHiding(e, UpsertAll(s.rows, items), t.rows);
    }
  }

  lemma HonestFetchIsTimed(e: Event, plan: seq<Query>)
    requires Dated(e) && Honest(e)
    ensures Timed(FetchAll(e.service, plan).items)
  {
    hide Ordinal, FetchAll;
    HonestFetch(e, plan);
  }

  /** The rows still descend from the catalogue's history after one more attempt of any kind. */
  lemma ExecuteKeepsDescending(pre: seq<Event>, e: Event, s: Store)
    requires Dated(e) && Honest(e) && Descends(pre, s.rows)
    ensures Descends(pre + [e], Execute(s, e).rows)
  {
    hide UpsertAll, FetchAll, Ordinal, RunOn, Honest, Descends, Plan;
    match PlanOf(s, e)
    case Err(_) => DescendsLonger(pre, e, s.rows);
    case Ok(plan) =>
      RunOnRows(s, if e.full then Full else Incremental, plan, e.service,
                if e.full then None else LastWatermark(s.runs));
      RowsKeepDescending(pre, e, plan, s.rows);
      DescendsUpToHiding(pre + [e], UpsertAll(s.rows, FetchAll(e.service, plan).items), Execute(s, e).rows);
  }

  /** The invariant survives one more attempt of any kind. */
  lemma KeptByOneMore(pre: seq<Event>, e: Event)
    requires World(pre + [e]) && World(pre) && Kept(pre)
    ensures Kept(pre + [e])
  {
    hide Ordinal, Instant, Evolves, StampedBy, Honest, Execute, CaughtUp, LastWatermark, FromHistory;
    var events := pre + [e];
    assert events[..|events| - 1] == pre && events[|events| - 1] == e;
    var s := After(pre);
    var last := if LastSuccess(pre).Some? then Some(pre[LastSuccess(pre).value]) else None;
    if last.Some? {
      assert events[LastSuccess(pre).value] == last.value;
      assert Evolves(events[LastSuccess(pre).value], events[|pre|]);
    }
    WorldIsInTime(pre);
    WatermarkStandsBy(pre);
    ExecuteKeepsDescending(pre, e, s);
    match PlanOf(s, e)
    case Err(_) => RefusedRunChangesNothing(s, e);
    case Ok(plan) => RunKeepsStanding(last, e, s, plan);
  }

  /** In such a world nothing is listed before its time. */
  lemma WorldIsInTime(events: seq<Event>)
    requires World(events)
    ensures InTime(events)
  {
    hide Ordinal, Instant, Honest, Execute, After, LastWatermark, Plan;
    forall i | 0 <= i < |events|
      ensures FetchesInTime(After(events[..i]), events[i])
    {
      var s, e := After(events[..i]), events[i];
      if PlanOf(s, e).Ok? { HonestFetchIsInTime(e, PlanOf(s, e).value); }
    }
    forall i, j | 0 <= i < j < |events|
      ensures Ordinal(events[i].today) <= Ordinal(events[j].today)
    {
      assert Evolves(events[i], events[j]);
    }
  }

  lemma HonestFetchIsInTime(e: Event, plan: seq<Query>)
    requires Dated(e) && Honest(e)
    ensures forall x :: x in FetchAll(e.service, plan).items && x.time.Some? ==> Ordinal(x.time.value.date) <= Ordinal(e.today)
  {
    hide Ordinal, FetchAll;
    HonestFetch(e, plan);
  }

  lemma DescendsLonger(pre: seq<Event>, e: Event, rows: Table)
    requires Descends(pre, rows)
    ensures Descends(pre + [e], rows)
  {
    forall id | id in rows
      ensures FromHistory(pre + [e], rows[id])
    {
      var j :| 0 <= j < |pre| && id in pre[j].catalogue && SameVersion(rows[id], pre[j].catalogue[id]);
      assert (pre + [e])[j] == pre[j];
    }
  }

  lemma WorldBefore(events: seq<Event>)
    requires World(events) && events != []
    ensures World(events[..|events| - 1])
  {
    hide Dated, Honest, Evolves;
  }

  lemma {:induction false} KeptAlways(events: seq<Event>)
    requires World(events)
    ensures Kept(events)
  {
    if events != [] {
      hide Dated, Honest, Evolves, Kept;
      var pre, e := events[..|events| - 1], events[|events| - 1];
      assert pre + [e] == events;
      WorldBefore(events);
      hide World;
      KeptAlways(pre);
      KeptByOneMore(pre, e);
    }
  }

  lemma SameInstantSameVersion(a: Event, b: Event, row: Spot)
    requires Dated(a) && Dated(b) && Evolves(a, b)
    requires row.id in a.catalogue && row.id in b.catalogue
    requires SameVersion(row, a.catalogue[row.id]) && AsRecent(row, b.catalogue[row.id])
    ensures SameVersion(row, b.catalogue[row.id])
  {
    hide Instant, Ordinal;
    StampOrder(row.time.value, b.catalogue[row.id].time.value);
  }

  /** The stored version is one the catalogue had at event `i` or since. */
  ghost predicate VersionSince(events: seq<Event>, i: nat, row: Spot) {
    exists j :: i <= j < |events| && row.id in events[j].catalogue && SameVersion(row, events[j].catalogue[row.id])
  }

  lemma NotOlderMeansSince(events: seq<Event>, rows: Table, i: nat, id: string)
    requires World(events) && Descends(events, rows) && i < |events|
    requires CaughtUp(events[i], rows) && id in events[i].catalogue
    ensures id in rows && rows[id].id == id && VersionSince(events, i, rows[id])
  {
    hide Ordinal, Instant, Honest, Evolves, SameVersion, AsRecent, Dated;
    var row := rows[id];
    var j :| 0 <= j < |events| && row.id in events[j].catalogue && SameVersion(row, events[j].catalogue[row.id]);
    if j < i {
      SameInstantSameVersion(events[j], events[i], row);
      assert VersionSince(events, i, row);
    }
  }

  // ----- the results -----

  /**
   No modification is lost: after any history, every spot of the catalogue the newest successful run faced is
   stored in the version that catalogue had, or in one it had at a later attempt that broke off.
   */
  lemma NoModificationIsLost(events: seq<Event>, id: string)
    requires World(events) && LastSuccess(events).Some? && id in events[LastSuccess(events).value].catalogue
    ensures id in After(events).rows && After(events).rows[id].id == id
    ensures VersionSince(events, LastSuccess(events).value, After(events).rows[id])
  {
    hide World, After, LastSuccess, LastWatermark, StampedBy, Descends, CaughtUp, VersionSince;
    KeptAlways(events);
    NotOlderMeansSince(events, After(events).rows, LastSuccess(events).value, id);
  }

  /** So right after a success every spot is stored in its current version. */
  lemma SuccessLeavesCurrentVersions(events: seq<Event>, id: string)
    requires World(events) && LastSuccess(events) == Some(|events| - 1)
    requires id in events[|events| - 1].catalogue
    ensures id in After(events).rows && SameVersion(After(events).rows[id], events[|events| - 1].catalogue[id])
  {
    hide World, After, LastSuccess, SameVersion;
    NoModificationIsLost(events, id);
  }
}
