/**
 The guard in front of hiding: which full runs are refused, and how much a run may hide.  The guard counts
 the ids received and not the visible spots among them, so it bounds what is hidden only when the two agree.
 */
module FullRuns {
  import opened Wrappers
  import opened Sets
  import opened Calendar
  import opened SyncPlan
  import opened SpotTable
  import opened PageLoop
  import opened SyncRuns
  import opened SyncAttempts
  import opened SyncHistory
  import opened SyncVisibility
  import opened SyncExamples

  /** The ids an attempt received, and the spots that are visible once those are upserted. */
  function Received(s: Store, e: Event): set<string>
    requires e.today.year <= 9998
  {
    set x | x in Given(s, e) :: x.id
  }

  function VisibleBefore(s: Store, e: Event): set<string>
    requires e.today.year <= 9998
  {
    var rows := UpsertAll(s.rows, Given(s, e));
    set id | id in rows && rows[id].show == 1
  }

  ghost predicate CameThrough(s: Store, e: Event) {
    e.today.year <= 9998 && e.full && FetchAll(e.service, [None]).end == Complete && Given(s, e) != []
  }

  /**
   A full run whose listing came through succeeds if and only if it received at least half as many ids as
   there are visible spots.  Refused, it leaves the upserted rows and a failed record; otherwise it hides
   exactly the visible spots it did not receive.
   */
  lemma FullRunSucceedsIff(s: Store, e: Event)
    requires CameThrough(s, e)
    ensures var received, visible := Received(s, e), VisibleBefore(s, e);
            var upserted, t := UpsertAll(s.rows, Given(s, e)), Execute(s, e);
            && (Succeeds(s, e) <==> 2 * |received| >= |visible|)
            && |t.runs| == |s.runs| + 1 && t.runs[..|s.runs|] == s.runs
            && (!Succeeds(s, e) ==> t.rows == upserted && t.runs[|s.runs|] == RunRecord(Full, Errored, None, None, ZERO))
            && (Succeeds(s, e) ==>
                  && t.rows.Keys == upserted.Keys
                  && (forall id :: id in upserted ==>
                        t.rows[id] == if id in visible - received then upserted[id].(show := 0) else upserted[id]))
  {
    hide UpsertAll, AdvancedWatermark, FetchAll, Newest, Outcomes;
    var items := Given(s, e);
    IdsOfSomething(items);
    var rows := UpsertAll(s.rows, items);
    assert Ids(items) == Received(s, e);
    assert Visible(rows) == VisibleBefore(s, e);
    hide Ids, Visible;
  }

  /** An incremental run, and a full one that received nothing or broke off, hides nothing. */
  lemma OtherRunsHideNothing(s: Store, e: Event)
    requires e.today.year <= 9998 && !CameThrough(s, e)
    ensures Execute(s, e).rows == UpsertAll(s.rows, Given(s, e))
  {
    hide UpsertAll, AdvancedWatermark, FetchAll, Newest, Outcomes, Plan;
    IdsOfSomething(Given(s, e));
    if PlanOf(s, e).Err? { NothingGiven(s.rows); }
  }

  /** A successful full run accounts for every row it fetched and for every spot it hid. */
  lemma FullCountersBalance(s: Store, e: Event)
    requires CameThrough(s, e) && Succeeds(s, e)
    ensures var c, hidden := Execute(s, e).runs[|s.runs|].tally, VisibleBefore(s, e) - Received(s, e);
            && c.fetched == |Given(s, e)| && c.calls <= MAX_PAGES
            && c.fetched + |hidden| == c.inserted + c.updated + c.skipped + c.softDeleted
  {
    hide UpsertAll, AdvancedWatermark, FetchAll, Newest, Outcomes, Count;
    var items := Given(s, e);
    IdsOfSomething(items);
    assert Ids(items) == Received(s, e);
    assert Visible(UpsertAll(s.rows, items)) == VisibleBefore(s, e);
    hide Ids, Visible, VisibleBefore, Received, HideUnseen;
    EveryRowIsCountedOnce(Outcomes(s.rows, items));
    CallsAreBounded(e.service, [None]);
  }

  lemma SplitSize(a: set<string>, b: set<string>)
    ensures |a| == |a * b| + |a - b|
  {
    assert a == a * b + (a - b);
  }

  /**
   Of the visible spots a successful full run hides at most half, if and only if at least half of them are
   among the ids it received; so it does whenever everything it received is visible.
   */
  lemma AtMostHalfIsHiddenIff(s: Store, e: Event)
    requires CameThrough(s, e) && Succeeds(s, e)
    ensures var received, visible := Received(s, e), VisibleBefore(s, e);
            var hidden := set id | id in visible && id in Execute(s, e).rows && Execute(s, e).rows[id].show != 1;
            && (2 * |hidden| <= |visible| <==> 2 * |visible * received| >= |visible|)
            && (received <= visible ==> 2 * |hidden| <= |visible|)
  {
    FullRunSucceedsIff(s, e);
    hide UpsertAll, Given, Execute, Succeeds, Received;
    var received, visible := Received(s, e), VisibleBefore(s, e);
    assert (set id | id in visible && id in Execute(s, e).rows && Execute(s, e).rows[id].show != 1) == visible - received;
    SplitSize(visible, received);
    if received <= visible { assert visible * received == received; }
  }

  const BOTH_SHOWN: Table := map["a" := Spot("a", None, 1, ""), "b" := Spot("b", None, 1, "")]

  lemma ThirdIsStored(x: Spot)
    requires x.id == "c" && x.show == 0
    ensures var rows := UpsertAll(BOTH_SHOWN, [x]);
            rows == BOTH_SHOWN["c" := x] && (set id | id in rows && rows[id].show == 1) == {"a", "b"}
  {
    assert [x][..0] == [];
    assert UpsertAll(BOTH_SHOWN, []) == BOTH_SHOWN;
  }

  /**
   The failing input: two visible spots, and a full listing of one other that is not shown.  The guard is
   satisfied and the run hides both, so that nothing is visible.
   */
  lemma EverythingCanBeHidden(x: Spot, today: Date)
    requires today.year <= 9998 && x.id == "c" && x.show == 0
    ensures var s, e := Store(BOTH_SHOWN, []), FullListing(today, [x]);
            && CameThrough(s, e) && Succeeds(s, e) && VisibleBefore(s, e) == {"a", "b"}
            && forall id :: id in Execute(s, e).rows ==> Execute(s, e).rows[id].show != 1
  {
    var s, e := Store(BOTH_SHOWN, []), FullListing(today, [x]);
    OneListIsFetched([x]);
    ThirdIsStored(x);
    hide UpsertAll, FetchAll, Execute, Succeeds, OneList, BOTH_SHOWN;
    assert Given(s, e) == [x];
    assert Received(s, e) == {"c"};
    FullRunSucceedsIff(s, e);
  }
}
