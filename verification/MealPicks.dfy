/**
 Which meal every pick places: a stop exactly when its pool still holds a place that is not planned already,
 and then the nearest such place to the first sight of its day.  Said of the pools asked for, the selected
 sights and the picks made before, and not of the pools as they shrink.
 */
module MealPicks {
  import opened Wrappers
  import opened Itinerary
  import opened ItineraryRules

  /** `stop` is the first of the nearest rows of the pool that are not among `planned`. */
  ghost predicate IsNearestNew(dist: Metric, head: Row, pool: seq<Row>, planned: set<string>, stop: Row, k: int) {
    && 0 <= k < |pool| && pool[k] == stop && stop.contentId !in planned
    && forall j | 0 <= j < |pool| && pool[j].contentId !in planned ::
         dist(head, stop) <= dist(head, pool[j]) && (j < k ==> dist(head, stop) < dist(head, pool[j]))
  }

  /** What pick `t` had to do, given the sights' ids and the stops of the picks before it. */
  ghost predicate PickIsRight(dist: Metric, meals: seq<Kind>, base: set<string>, head: Row, log: seq<Pick>, t: nat)
    requires t < |log|
  {
    log[t].kind < |meals|
    && var pool, planned := meals[log[t].kind].rows, base + Ids(Stops(log[..t]));
       match log[t].stop
       case None => forall x :: x in pool ==> x.contentId in planned
       case Some(stop) => exists k :: IsNearestNew(dist, head, pool, planned, stop, k)
  }

  // ----- shrinking pools -----

  /** What is left of every pool offers the same new places, in the same order, as the pool itself. */
  ghost predicate PoolsTrail(meals: seq<Kind>, st: State) {
    |st.left| == |meals|
    && forall k | 0 <= k < |meals| :: Untaken(st.left[k].rows, st.taken) == Untaken(meals[k].rows, st.taken)
  }

  lemma UntakenStep(x: Row, rest: seq<Row>, taken: set<string>)
    ensures Untaken([x] + rest, taken) == (if x.contentId in taken then [] else [x]) + Untaken(rest, taken)
  {
    assert ([x] + rest)[1..] == rest;
  }

  lemma NothingUntaken(taken: set<string>)
    ensures Untaken([], taken) == []
  {
  }

  lemma {:induction false} UntakenConcat(a: seq<Row>, b: seq<Row>, taken: set<string>)
    ensures Untaken(a + b, taken) == Untaken(a, taken) + Untaken(b, taken)
  {
    hide Untaken;
    if a == [] {
      NothingUntaken(taken);
      assert a + b == b;
    } else {
      var rest := a[1..];
      UntakenConcat(rest, b, taken);
      UntakenStep(a[0], rest + b, taken);
      UntakenStep(a[0], rest, taken);
      assert a == [a[0]] + rest;
      assert a + b == [a[0]] + (rest + b);
    }
  }

  /** A new place of the pool stands where the new places before it end. */
  lemma NewPlaceStands(pool: seq<Row>, taken: set<string>, k: nat)
    requires k < |pool| && pool[k].contentId !in taken
    ensures var n := |Untaken(pool[..k], taken)|; n < |Untaken(pool, taken)| && Untaken(pool, taken)[n] == pool[k]
  {
    UntakenConcat(pool[..k], pool[k..], taken);
    assert pool == pool[..k] + pool[k..];
    assert pool[k..][0] == pool[k];
  }

  lemma EarlierStandsBefore(pool: seq<Row>, taken: set<string>, j: nat, k: nat)
    requires j < k <= |pool| && pool[j].contentId !in taken
    ensures |Untaken(pool[..j], taken)| < |Untaken(pool[..k], taken)|
  {
    NewPlaceStands(pool[..k], taken, j);
    assert pool[..k][..j] == pool[..j];
  }

  lemma {:induction false} NewPlaceIsOne(pool: seq<Row>, taken: set<string>, n: nat) returns (k: nat)
    requires n < |Untaken(pool, taken)|
    ensures k < |pool| && pool[k].contentId !in taken && |Untaken(pool[..k], taken)| == n
  {
    hide Untaken;
    NothingUntaken(taken);
    var front, last := pool[..|pool| - 1], pool[|pool| - 1];
    assert pool == front + [last];
    UntakenConcat(front, [last], taken);
    UntakenStep(last, [], taken);
    assert [last] + [] == [last];
    if n < |Untaken(front, taken)| {
      k := NewPlaceIsOne(front, taken, n);
      assert front[..k] == pool[..k];
    } else {
      k := |pool| - 1;
    }
  }

  /** The assembler's choice, the first of the nearest of what is not taken, is that of the pool itself. */
  lemma ChoiceIsNearestNew(dist: Metric, head: Row, pool: seq<Row>, taken: set<string>)
    requires Untaken(pool, taken) != []
    ensures var places := Untaken(pool, taken);
            exists k :: IsNearestNew(dist, head, pool, taken, places[NearestIndex(dist, head, places)], k)
  {
    hide Untaken;
    var places := Untaken(pool, taken);
    var n := NearestIndex(dist, head, places);
    var k := NewPlaceIsOne(pool, taken, n);
    NewPlaceStands(pool, taken, k);
    forall j | 0 <= j < |pool| && pool[j].contentId !in taken
      ensures dist(head, places[n]) <= dist(head, pool[j]) && (j < k ==> dist(head, places[n]) < dist(head, pool[j]))
    {
      NewPlaceStands(pool, taken, j);
      if j < k { EarlierStandsBefore(pool, taken, j, k); }
    }
    assert IsNearestNew(dist, head, pool, taken, places[n], k);
  }

  /** Taking more places out of two pools that offer the same leaves them offering the same. */
  lemma {:induction false} TakingTwice(rows: seq<Row>, taken: set<string>, more: set<string>)
    ensures Untaken(Untaken(rows, taken), taken + more) == Untaken(rows, taken + more)
  {
    hide Untaken;
    if rows == [] {
      NothingUntaken(taken);
      NothingUntaken(taken + more);
    } else {
      var rest := rows[1..];
      TakingTwice(rest, taken, more);
      UntakenStep(rows[0], rest, taken);
      UntakenStep(rows[0], rest, taken + more);
      assert rows == [rows[0]] + rest;
      if rows[0].contentId in taken {
        assert Untaken(rows, taken) == Untaken(rest, taken);
      } else {
        UntakenStep(rows[0], Untaken(rest, taken), taken + more);
      }
    }
  }

  lemma {:induction false} RemovedIsTaken(rows: seq<Row>, x: Row, taken: set<string>)
    requires x.contentId in taken
    ensures Untaken(RemoveFirst(rows, x), taken) == Untaken(rows, taken)
  {
    hide Untaken;
    if rows != [] {
      var rest := rows[1..];
      assert rows == [rows[0]] + rest;
      UntakenStep(rows[0], rest, taken);
      if rows[0] != x {
        RemovedIsTaken(rest, x, taken);
        UntakenStep(rows[0], RemoveFirst(rest, x), taken);
      }
    }
  }

  lemma PoolsStillTrail(meals: seq<Kind>, st: State, kind: nat, chosen: Row)
    requires PoolsTrail(meals, st) && kind < |meals|
    ensures PoolsTrail(meals, st.(left := st.left[kind := st.left[kind].(rows := RemoveFirst(st.left[kind].rows, chosen))],
                                  taken := st.taken + {chosen.contentId}))
  {
    hide Untaken, RemoveFirst;
    var taken := st.taken + {chosen.contentId};
    forall k | 0 <= k < |meals|
      ensures Untaken(st.left[k].rows, taken) == Untaken(meals[k].rows, taken)
    {
      TakingTwice(st.left[k].rows, st.taken, {chosen.contentId});
      TakingTwice(meals[k].rows, st.taken, {chosen.contentId});
    }
    RemovedIsTaken(st.left[kind].rows, chosen, taken);
  }

  // ----- every pick -----

  ghost predicate Trails(meals: seq<Kind>, base: set<string>, st: State) {
    Sound(meals, base, st) && PoolsTrail(meals, st)
  }

  lemma ServePicksRight(dist: Metric, head: Row, meals: seq<Kind>, base: set<string>, st: State, kind: nat)
    requires Trails(meals, base, st) && kind < |meals|
    ensures var next := Serve(dist, head, st, kind);
            && Trails(meals, base, next) && |next.log| == |st.log| + 1 && next.log[..|st.log|] == st.log
            && PickIsRight(dist, meals, base, head, next.log, |st.log|)
  {
    ServeKeepsSound(dist, head, meals, base, st, kind);
    hide NearestIndex, RemoveFirst, Stops, Ids, ShortIsHonest, FromPools, Distinct, IsNearestNew;
    assert Untaken(st.left[kind].rows, st.taken) == Untaken(meals[kind].rows, st.taken);
    var places := Untaken(meals[kind].rows, st.taken);
    if places != [] {
      ChoiceIsNearestNew(dist, head, meals[kind].rows, st.taken);
      PoolsStillTrail(meals, st, kind, places[NearestIndex(dist, head, places)]);
    }
  }

  /** The picks of `log` from `from` on are right, all with the same head. */
  ghost predicate RightFrom(dist: Metric, meals: seq<Kind>, base: set<string>, head: Row, log: seq<Pick>, from: nat) {
    forall t: nat | from <= t < |log| :: PickIsRight(dist, meals, base, head, log, t)
  }

  lemma PickStaysRight(dist: Metric, meals: seq<Kind>, base: set<string>, head: Row, log: seq<Pick>, more: seq<Pick>, t: nat)
    requires t < |log| <= |more| && more[..|log|] == log && PickIsRight(dist, meals, base, head, log, t)
    ensures PickIsRight(dist, meals, base, head, more, t)
  {
    assert more[t] == log[t] && more[..t] == log[..t];
  }

  lemma {:induction false} ServeAllPicksRight(dist: Metric, head: Row, meals: seq<Kind>, base: set<string>, st: State,
                                              kinds: seq<nat>)
    requires Trails(meals, base, st) && InRange(kinds, |meals|) && |st.left| == |meals|
    ensures var next := ServeAll(dist, head, st, kinds);
            && Trails(meals, base, next) && |st.log| <= |next.log| && next.log[..|st.log|] == st.log
            && RightFrom(dist, meals, base, head, next.log, |st.log|)
  {
    hide Serve, Trails, PickIsRight;
    if kinds != [] {
      var front := kinds[..|kinds| - 1];
      ServeAllPicksRight(dist, head, meals, base, st, front);
      var before, next := ServeAll(dist, head, st, front), ServeAll(dist, head, st, kinds);
      ServePicksRight(dist, head, meals, base, before, kinds[|kinds| - 1]);
      forall t: nat | |st.log| <= t < |next.log|
        ensures PickIsRight(dist, meals, base, head, next.log, t)
      {
        if t < |before.log| { PickStaysRight(dist, meals, base, head, before.log, next.log, t); }
      }
    }
  }

  // ----- every day -----

  /** The picks of one day are right, with the day's first sight as their head. */
  ghost predicate DayIsRight(dist: Metric, meals: seq<Kind>, ordered: seq<Row>, perDay: nat, perMeal: nat, log: seq<Pick>,
                             day: nat)
  {
    day * perDay < |ordered|
    && forall t: nat | day * perMeal <= t < day * perMeal + perMeal ::
         t < |log| && PickIsRight(dist, meals, Ids(ordered), ordered[day * perDay], log, t)
  }

  lemma HeadOfDay(ordered: seq<Row>, perDay: nat, day: nat)
    requires Fills(ordered, perDay, day)
    ensures day * perDay < |ordered| && DaySights(ordered, day, perDay)[0] == ordered[day * perDay]
  {
    assert (day + 1) * perDay == day * perDay + perDay;
  }

  lemma {:induction false} DaysPickRight(dist: Metric, ordered: seq<Row>, perDay: nat, meals: seq<Kind>, n: nat)
    requires forall d :: 0 <= d < n ==> Fills(ordered, perDay, d)
    ensures var st, p := StateAfter(dist, ordered, perDay, StartState(meals, ordered), n), PerMeal(|meals|);
            && Trails(meals, Ids(ordered), st) && |st.log| == n * p
            && forall d :: 0 <= d < n ==> DayIsRight(dist, meals, ordered, perDay, p, st.log, d)
  {
    hide ServeAll, Trails, DaySights, DayPicks, Ids, PickIsRight, PerMeal, StartState, Placed;
    var start, p := StartState(meals, ordered), PerMeal(|meals|);
    if n == 0 {
      TrailsAtStart(meals, ordered);
    } else {
      var d := n - 1;
      DaysPickRight(dist, ordered, perDay, meals, d);
      var before, after := StateAfter(dist, ordered, perDay, start, d), StateAfter(dist, ordered, perDay, start, n);
      TrailsSize(meals, Ids(ordered), before);
      HeadOfDay(ordered, perDay, d);
      assert Fills(ordered, perDay, d);
      ServeAllPicksRight(dist, ordered[d * perDay], meals, Ids(ordered), before, DayPicks(d, |meals|));
      LogGrowsByTheDay(dist, ordered, perDay, meals, d);
      hide StateAfter;
      OneDayMore(n, p);
      forall e | 0 <= e < n
        ensures DayIsRight(dist, meals, ordered, perDay, p, after.log, e)
      {
        if e < d { DayStaysRight(dist, meals, ordered, perDay, p, before.log, after.log, e); }
      }
    }
  }

  lemma DayStaysRight(dist: Metric, meals: seq<Kind>, ordered: seq<Row>, perDay: nat, perMeal: nat, log: seq<Pick>,
                      more: seq<Pick>, day: nat)
    requires DayIsRight(dist, meals, ordered, perDay, perMeal, log, day) && |log| <= |more| && more[..|log|] == log
    ensures DayIsRight(dist, meals, ordered, perDay, perMeal, more, day)
  {
    hide PickIsRight;
    forall t: nat | day * perMeal <= t < day * perMeal + perMeal
      ensures t < |more| && PickIsRight(dist, meals, Ids(ordered), ordered[day * perDay], more, t)
    {
      assert t < |log| && PickIsRight(dist, meals, Ids(ordered), ordered[day * perDay], log, t);
      PickStaysRight(dist, meals, Ids(ordered), ordered[day * perDay], log, more, t);
    }
  }

  lemma TrailsAtStart(meals: seq<Kind>, ordered: seq<Row>)
    ensures Trails(meals, Ids(ordered), StartState(meals, ordered)) && StartState(meals, ordered).log == []
  {
    StartIsSound(meals, ordered);
  }

  lemma TrailsSize(meals: seq<Kind>, base: set<string>, st: State)
    requires Trails(meals, base, st)
    ensures |st.left| == |meals|
  {
  }

  /** A day's leg holds the day's sights and the stops of the day's picks. */
  ghost predicate LegIsOfDay(leg: seq<Row>, ordered: seq<Row>, perDay: nat, perMeal: nat, log: seq<Pick>, day: nat)
  {
    var from, to := Min(day * perDay, |ordered|), Min(day * perDay + perDay, |ordered|);
    && day * perMeal <= (day + 1) * perMeal <= |log|
    && multiset(leg) == multiset(ordered[from..to]) + multiset(Stops(log[day * perMeal..(day + 1) * perMeal]))
  }

  lemma {:induction false} LogsExtend(dist: Metric, ordered: seq<Row>, perDay: nat, meals: seq<Kind>, d: nat, n: nat)
    requires d <= n && forall e :: 0 <= e < n ==> Fills(ordered, perDay, e)
    ensures var start := StartState(meals, ordered);
            var early, late := StateAfter(dist, ordered, perDay, start, d).log, StateAfter(dist, ordered, perDay, start, n).log;
            |early| <= |late| && late[..|early|] == early
    decreases n
  {
    hide StateAfter, Placed, PerMeal, DayPicks;
    if d < n {
      LogsExtend(dist, ordered, perDay, meals, d, n - 1);
      LogGrowsByTheDay(dist, ordered, perDay, meals, n - 1);
    }
  }

  lemma {:induction false} LegAt(dist: Metric, ordered: seq<Row>, perDay: nat, start: State, n: nat, d: nat)
    requires d < n
    ensures |Legs(dist, ordered, perDay, start, n)| == n
    ensures Legs(dist, ordered, perDay, start, n)[d] == Leg(dist, ordered, perDay, start, d)
  {
    hide Leg;
    if n > 0 {
      if d < n - 1 { LegAt(dist, ordered, perDay, start, n - 1, d); }
      LegsCount(dist, ordered, perDay, start, n - 1);
    }
  }

  lemma {:induction false} LegsCount(dist: Metric, ordered: seq<Row>, perDay: nat, start: State, n: nat)
    ensures |Legs(dist, ordered, perDay, start, n)| == n
  {
    hide Leg;
    if n > 0 { LegsCount(dist, ordered, perDay, start, n - 1); }
  }

  lemma PicksOfDay(dist: Metric, ordered: seq<Row>, perDay: nat, meals: seq<Kind>, n: nat, d: nat)
    requires d < n && forall e :: 0 <= e < n ==> Fills(ordered, perDay, e)
    ensures var start, p := StartState(meals, ordered), PerMeal(|meals|);
            var log := StateAfter(dist, ordered, perDay, start, n).log;
            && d * p <= (d + 1) * p <= |log|
            && Placed(dist, ordered, perDay, start, d) == Stops(log[d * p..(d + 1) * p])
  {
    hide StateAfter, PerMeal, DayPicks, Stops, PickIsRight, Trails, StartState, DayIsRight, Fills, Ids;
    var start, p := StartState(meals, ordered), PerMeal(|meals|);
    DaysPickRight(dist, ordered, perDay, meals, d);
    DaysPickRight(dist, ordered, perDay, meals, d + 1);
    LogsExtend(dist, ordered, perDay, meals, d, d + 1);
    LogsExtend(dist, ordered, perDay, meals, d + 1, n);
    OneDayMore(d + 1, p);
    SamePart(StateAfter(dist, ordered, perDay, start, d + 1).log, StateAfter(dist, ordered, perDay, start, n).log, d * p);
  }

  lemma SamePart(mid: seq<Pick>, log: seq<Pick>, from: nat)
    requires from <= |mid| <= |log| && log[..|mid|] == mid
    ensures mid[from..] == log[from..|mid|]
  {
  }

  lemma LegHoldsItsDay(dist: Metric, ordered: seq<Row>, perDay: nat, meals: seq<Kind>, n: nat, d: nat)
    requires d < n && forall e :: 0 <= e < n ==> Fills(ordered, perDay, e)
    ensures var p, log := PerMeal(|meals|), StateAfter(dist, ordered, perDay, StartState(meals, ordered), n).log;
            LegIsOfDay(Leg(dist, ordered, perDay, StartState(meals, ordered), d), ordered, perDay, p, log, d)
  {
    hide StateAfter, PerMeal, Stops, StartState, Placed, Greedy, Chain, Fills;
    PicksOfDay(dist, ordered, perDay, meals, n, d);
    var placed := Placed(dist, ordered, perDay, StartState(meals, ordered), d);
    ChainIsGreedyPermutation(dist, DaySights(ordered, d, perDay) + placed);
    assert (d + 1) * perDay == d * perDay + perDay;
  }

  /**
   Every pick of every plan: there are one or two a day, for as many kinds; each places a stop exactly when its
   pool holds a place that is neither a selected sight nor an earlier stop, and then the nearest such place to the
   first sight of its day, in whose leg the stop then stands.
   */
  lemma EveryPickIsRight(dist: Metric, sights: seq<Row>, meals: seq<Kind>, days: nat, d: nat)
    requires sights != [] && days >= 1 && d < |Assembled(dist, sights, meals, days).legs|
    ensures var p := if |meals| < 2 then |meals| else 2;
            var ordered, log := Chain(dist, FirstSights(sights, 3 - p, days)), Picks(dist, sights, meals, days);
            var legs := Assembled(dist, sights, meals, days).legs;
            && |log| == |legs| * p
            && DayIsRight(dist, meals, ordered, 3 - p, p, log, d) && LegIsOfDay(legs[d], ordered, 3 - p, p, log, d)
  {
    var p := PerMeal(|meals|);
    assert p == if |meals| < 2 then |meals| else 2;
    var chosen := Selected(sights, meals, days);
    var ordered, perDay := Chain(dist, chosen), PerDay(meals);
    hide Chain, StateAfter, StartState, DaysFilled, Assembled, Legs, DaySights, DayIsRight, LegIsOfDay, Stops, Trails, Leg;
    LegsOfPlan(dist, sights, meals, days);
    var n := DaysFilled(|ordered|, perDay);
    LegsCount(dist, ordered, perDay, StartState(meals, ordered), n);
    DaysPickRight(dist, ordered, perDay, meals, n);
    LegAt(dist, ordered, perDay, StartState(meals, ordered), n, d);
    LegHoldsItsDay(dist, ordered, perDay, meals, n, d);
  }
}
