/**
 What every assembled itinerary satisfies: nothing is planned twice, every selected sight is planned,
 meals come only from their pools and in fair rotation, and the report names exactly the kinds that
 missed a place.
 */
module ItineraryRules {
  import opened Wrappers
  import opened Itinerary

  /** No two rows share a content id. */
  predicate Distinct(rows: seq<Row>) {
    |Ids(rows)| == |rows|
  }

  predicate DistinctWords(meals: seq<Kind>) {
    forall i, j | 0 <= i < j < |meals| :: meals[i].word != meals[j].word
  }

  function Flatten(legs: seq<seq<Row>>): seq<Row> {
    if legs == [] then [] else Flatten(legs[..|legs| - 1]) + legs[|legs| - 1]
  }

  lemma IdsConcat(a: seq<Row>, b: seq<Row>)
    ensures Ids(a + b) == Ids(a) + Ids(b)
  {
  }

  lemma {:induction false} IdsAtMost(rows: seq<Row>)
    ensures |Ids(rows)| <= |rows|
  {
    if rows == [] {
      assert Ids(rows) == {};
    } else {
      var front, last := rows[..|rows| - 1], rows[|rows| - 1];
      assert rows == front + [last] && Ids([last]) == {last.contentId};
      hide Ids;
      IdsAtMost(front);
      IdsConcat(front, [last]);
    }
  }

  lemma DistinctConcat(a: seq<Row>, b: seq<Row>)
    ensures Distinct(a + b) <==> Distinct(a) && Distinct(b) && Ids(a) !! Ids(b)
  {
    IdsConcat(a, b);
    IdsAtMost(a);
    IdsAtMost(b);
    assert |Ids(a) + Ids(b)| == |Ids(a)| + |Ids(b)| - |Ids(a) * Ids(b)|;
  }

  lemma SameMultisetSameIds(a: seq<Row>, b: seq<Row>)
    requires multiset(a) == multiset(b)
    ensures Ids(a) == Ids(b) && |a| == |b|
  {
    assert |multiset(a)| == |a| && |multiset(b)| == |b|;
    forall x | x in a ensures x in b { assert x in multiset(a); }
    forall x | x in b ensures x in a { assert x in multiset(b); }
  }

  predicate Differ(rows: seq<Row>) {
    forall i, j | 0 <= i < j < |rows| :: rows[i].contentId != rows[j].contentId
  }

  /** The content ids of distinct rows differ position by position. */
  lemma {:induction false} DistinctRowsDiffer(rows: seq<Row>)
    requires Distinct(rows)
    ensures Differ(rows)
  {
    if rows != [] {
      var front, last := rows[..|rows| - 1], rows[|rows| - 1];
      assert rows == front + [last];
      DistinctConcat(front, [last]);
      DistinctRowsDiffer(front);
      forall i | 0 <= i < |front|
        ensures rows[i].contentId != last.contentId
      {
        assert front[i].contentId in Ids(front) && last.contentId in Ids([last]);
      }
    }
  }

  // ----- what serving keeps -----

  ghost predicate ShortIsHonest(meals: seq<Kind>, st: State) {
    forall w :: w in st.short <==> exists t :: 0 <= t < |st.log| && MissedBy(meals, st.log[t], w)
  }

  predicate MissedBy(meals: seq<Kind>, p: Pick, w: string) {
    p.stop.None? && p.kind < |meals| && meals[p.kind].word == w
  }

  ghost predicate FromPools(meals: seq<Kind>, log: seq<Pick>) {
    forall t | 0 <= t < |log| ::
      log[t].kind < |meals| && (log[t].stop.Some? ==> log[t].stop.value in meals[log[t].kind].rows)
  }

  ghost predicate Sound(meals: seq<Kind>, base: set<string>, st: State) {
    && |st.left| == |meals|
    && (forall k | 0 <= k < |meals| ::
          st.left[k].word == meals[k].word && forall x :: x in st.left[k].rows ==> x in meals[k].rows)
    && st.taken == base + Ids(Stops(st.log))
    && Distinct(Stops(st.log)) && Ids(Stops(st.log)) !! base
    && FromPools(meals, st.log)
    && ShortIsHonest(meals, st)
  }

  lemma OneMoreStop(log: seq<Pick>, p: Pick)
    ensures Stops(log + [p]) == Stops(log) + if p.stop.Some? then [p.stop.value] else []
  {
    assert (log + [p])[..|log|] == log;
  }

  lemma ShortStaysHonest(meals: seq<Kind>, st: State, next: State, p: Pick)
    requires ShortIsHonest(meals, st) && p.kind < |meals| && next.log == st.log + [p]
    requires next.short == if p.stop.None? then st.short + {meals[p.kind].word} else st.short
    ensures ShortIsHonest(meals, next)
  {
    forall w | w in next.short
      ensures exists t :: 0 <= t < |next.log| && MissedBy(meals, next.log[t], w)
    {
      if w in st.short {
        var t :| 0 <= t < |st.log| && MissedBy(meals, st.log[t], w);
        assert MissedBy(meals, next.log[t], w);
      } else {
        assert MissedBy(meals, next.log[|st.log|], w);
      }
    }
    forall w, t | 0 <= t < |next.log| && MissedBy(meals, next.log[t], w)
      ensures w in next.short
    {
      if t < |st.log| { assert MissedBy(meals, st.log[t], w); }
    }
  }

  /** A stop that is new to the plan: what its pool loses and the plan gains. */
  lemma NewStopKeepsSound(meals: seq<Kind>, base: set<string>, st: State, kind: nat, chosen: Row)
    requires Sound(meals, base, st) && kind < |meals|
    requires chosen in st.left[kind].rows && chosen.contentId !in st.taken
    ensures Sound(meals, base, State(st.left[kind := st.left[kind].(rows := RemoveFirst(st.left[kind].rows, chosen))],
                                     st.taken + {chosen.contentId}, st.short, st.log + [Pick(kind, Some(chosen))]))
  {
    hide Stops, MissedBy, ShortIsHonest, RemoveFirst, Distinct, Ids;
    var next := State(st.left[kind := st.left[kind].(rows := RemoveFirst(st.left[kind].rows, chosen))],
                      st.taken + {chosen.contentId}, st.short, st.log + [Pick(kind, Some(chosen))]);
    OneMoreStop(st.log, Pick(kind, Some(chosen)));
    ShortStaysHonest(meals, st, next, Pick(kind, Some(chosen)));
    RemoveFirstRemovesOne(st.left[kind].rows, chosen);
    DistinctConcat(Stops(st.log), [chosen]);
    IdsConcat(Stops(st.log), [chosen]);
    OneIsDistinct(chosen);
  }

  lemma OneIsDistinct(r: Row)
    ensures Ids([r]) == {r.contentId} && Distinct([r])
  {
    assert Ids([r]) == {r.contentId};
  }

  lemma ServeKeepsSound(dist: Metric, head: Row, meals: seq<Kind>, base: set<string>, st: State, kind: nat)
    requires Sound(meals, base, st) && kind < |meals|
    ensures Sound(meals, base, Serve(dist, head, st, kind))
  {
    hide NearestIndex, Stops, MissedBy, ShortIsHonest, RemoveFirst, Ids;
    var next := Serve(dist, head, st, kind);
    var pool := Untaken(st.left[kind].rows, st.taken);
    if pool == [] {
      OneMoreStop(st.log, Pick(kind, None));
      ShortStaysHonest(meals, st, next, Pick(kind, None));
      assert Stops(next.log) == Stops(st.log);
    } else {
      var chosen := pool[NearestIndex(dist, head, pool)];
      assert chosen in pool;
      hide Sound;
      NewStopKeepsSound(meals, base, st, kind, chosen);
    }
  }

  lemma {:induction false} ServeAllKeepsSound(dist: Metric, head: Row, meals: seq<Kind>, base: set<string>, st: State,
                                              kinds: seq<nat>)
    requires Sound(meals, base, st) && InRange(kinds, |meals|)
    ensures Sound(meals, base, ServeAll(dist, head, st, kinds))
  {
    hide Serve, Sound;
    SoundSize(meals, base, st);
    if kinds != [] {
      var front := kinds[..|kinds| - 1];
      ServeAllKeepsSound(dist, head, meals, base, st, front);
      ServeKeepsSound(dist, head, meals, base, ServeAll(dist, head, st, front), kinds[|kinds| - 1]);
    }
  }

  lemma SoundSize(meals: seq<Kind>, base: set<string>, st: State)
    requires Sound(meals, base, st)
    ensures |st.left| == |meals|
  {
  }

  lemma {:induction false} DaysKeepSound(dist: Metric, ordered: seq<Row>, perDay: nat, meals: seq<Kind>, n: nat)
    ensures Sound(meals, Ids(ordered), StateAfter(dist, ordered, perDay, StartState(meals, ordered), n))
  {
    hide ServeAll, Sound, DaySights, DayPicks;
    if n == 0 {
      StartIsSound(meals, ordered);
    } else {
      DaysKeepSound(dist, ordered, perDay, meals, n - 1);
      var before := StateAfter(dist, ordered, perDay, StartState(meals, ordered), n - 1);
      SoundSize(meals, Ids(ordered), before);
      var sights := DaySights(ordered, n - 1, perDay);
      if sights != [] {
        ServeAllKeepsSound(dist, sights[0], meals, Ids(ordered), before, DayPicks(n - 1, |meals|));
      }
    }
  }

  lemma StartIsSound(meals: seq<Kind>, ordered: seq<Row>)
    ensures Sound(meals, Ids(ordered), StartState(meals, ordered))
  {
    assert Stops([]) == [] && Ids([]) == {};
  }

  // ----- conservation -----

  /** The day's new log entries place exactly what the day's leg adds. */
  lemma LogGrowsByTheDay(dist: Metric, ordered: seq<Row>, perDay: nat, meals: seq<Kind>, day: nat)
    requires Fills(ordered, perDay, day)
    ensures var start := StartState(meals, ordered);
            var before := StateAfter(dist, ordered, perDay, start, day).log;
            var after := StateAfter(dist, ordered, perDay, start, day + 1).log;
            && |after| == |before| + PerMeal(|meals|) && after[..|before|] == before
            && (forall i :: 0 <= i < PerMeal(|meals|) ==> after[|before| + i].kind == DayPicks(day, |meals|)[i])
            && Stops(after) == Stops(before) + Placed(dist, ordered, perDay, start, day)
            && |Placed(dist, ordered, perDay, start, day)| <= PerMeal(|meals|)
  {
    hide ServeAll, Stops, DayPicks;
    var start := StartState(meals, ordered);
    var before := StateAfter(dist, ordered, perDay, start, day);
    var after := StateAfter(dist, ordered, perDay, start, day + 1);
    ServeAllLogs(dist, DaySights(ordered, day, perDay)[0], before, DayPicks(day, |meals|));
    assert after.log == before.log + after.log[|before.log|..];
    StopsConcat(before.log, after.log[|before.log|..]);
    StopsAreFew(after.log[|before.log|..]);
  }

  lemma {:induction false} StopsAreFew(log: seq<Pick>)
    ensures |Stops(log)| <= |log|
  {
    if log != [] { StopsAreFew(log[..|log| - 1]); }
  }

  function FirstSights(ordered: seq<Row>, perDay: nat, days: nat): seq<Row> {
    ordered[..Min(days * perDay, |ordered|)]
  }

  ghost predicate HoldEverything(legs: seq<seq<Row>>, sights: seq<Row>, stops: seq<Row>) {
    multiset(Flatten(legs)) == multiset(sights) + multiset(stops)
  }

  ghost predicate GoodLeg(dist: Metric, size: nat, leg: seq<Row>) {
    1 <= |leg| <= size && Greedy(dist, leg)
  }

  lemma NextSights(ordered: seq<Row>, perDay: nat, day: nat)
    ensures FirstSights(ordered, perDay, day + 1) == FirstSights(ordered, perDay, day) + DaySights(ordered, day, perDay)
    ensures |DaySights(ordered, day, perDay)| <= perDay
  {
    assert (day + 1) * perDay == day * perDay + perDay;
  }

  /** After `n` days the legs hold the first sights and every stop placed, each as often as it occurs there. */
  lemma {:induction false} LegsHoldEverything(dist: Metric, ordered: seq<Row>, perDay: nat, meals: seq<Kind>, n: nat)
    requires forall d :: 0 <= d < n ==> Fills(ordered, perDay, d)
    ensures HoldEverything(Legs(dist, ordered, perDay, StartState(meals, ordered), n),
                           FirstSights(ordered, perDay, n),
                           Stops(StateAfter(dist, ordered, perDay, StartState(meals, ordered), n).log))
  {
    hide DaySights, Placed, Chain, ServeAll;
    var start := StartState(meals, ordered);
    if n == 0 {
      assert Stops([]) == [] && FirstSights(ordered, perDay, 0) == [];
    } else {
      var d := n - 1;
      LegsHoldEverything(dist, ordered, perDay, meals, d);
      hide StateAfter, Stops, StartState, FirstSights, Flatten;
      NextSights(ordered, perDay, d);
      LogGrowsByTheDay(dist, ordered, perDay, meals, d);
      var sights, placed := DaySights(ordered, d, perDay), Placed(dist, ordered, perDay, start, d);
      var legs := Legs(dist, ordered, perDay, start, d);
      var leg := Leg(dist, ordered, perDay, start, d);
      ChainIsGreedyPermutation(dist, sights + placed);
      assert Legs(dist, ordered, perDay, start, n) == legs + [leg];
      MultisetOfThree(legs, leg, FirstSights(ordered, perDay, d), sights,
                      Stops(StateAfter(dist, ordered, perDay, start, d).log), placed);
    }
  }

  lemma {:induction false} LegsAreGood(dist: Metric, ordered: seq<Row>, perDay: nat, meals: seq<Kind>, n: nat)
    requires forall d :: 0 <= d < n ==> Fills(ordered, perDay, d)
    ensures var legs := Legs(dist, ordered, perDay, StartState(meals, ordered), n);
            |legs| == n && forall leg :: leg in legs ==> GoodLeg(dist, perDay + PerMeal(|meals|), leg)
  {
    hide DaySights, Placed, Chain, Greedy, StateAfter, StartState;
    if n > 0 {
      var d := n - 1;
      LegsAreGood(dist, ordered, perDay, meals, d);
      var start := StartState(meals, ordered);
      var sights, placed := DaySights(ordered, d, perDay), Placed(dist, ordered, perDay, start, d);
      assert Fills(ordered, perDay, d) && sights != [];
      NextSights(ordered, perDay, d);
      LogGrowsByTheDay(dist, ordered, perDay, meals, d);
      ChainIsGreedyPermutation(dist, sights + placed);
      assert |Leg(dist, ordered, perDay, start, d)| == |sights| + |placed|;
    }
  }

  lemma MultisetOfThree(legs: seq<seq<Row>>, leg: seq<Row>, a: seq<Row>, b: seq<Row>, c: seq<Row>, d: seq<Row>)
    requires multiset(Flatten(legs)) == multiset(a) + multiset(c) && multiset(leg) == multiset(b + d)
    ensures multiset(Flatten(legs + [leg])) == multiset(a + b) + multiset(c + d)
  {
    assert (legs + [leg])[..|legs|] == legs;
    assert Flatten(legs + [leg]) == Flatten(legs) + leg;
  }

  function PerDay(meals: seq<Kind>): nat {
    PER_DAY - PerMeal(|meals|)
  }

  function Selected(sights: seq<Row>, meals: seq<Kind>, days: nat): seq<Row> {
    sights[..Min(days * PerDay(meals), |sights|)]
  }

  /** The picks behind an assembled plan, in the order they were made. */
  function Picks(dist: Metric, sights: seq<Row>, meals: seq<Kind>, days: nat): seq<Pick> {
    var ordered := Chain(dist, Selected(sights, meals, days));
    StateAfter(dist, ordered, PerDay(meals), StartState(meals, ordered), DaysFilled(|ordered|, PerDay(meals))).log
  }

  /** The plan spans as many days as the sights fill, up to the days asked for. */
  lemma SpanOfPlan(sights: nat, perDay: nat, days: nat)
    requires 1 <= perDay <= 3
    ensures var chosen := Min(days * perDay, sights);
            && DaysFilled(chosen, perDay) == Min(days, DaysFilled(sights, perDay))
            && DaysFilled(chosen, perDay) * perDay >= chosen
  {
    if perDay == 1 {
    } else if perDay == 2 {
    } else {
    }
  }

  lemma {:induction false} StopsComeFromPools(meals: seq<Kind>, log: seq<Pick>)
    requires FromPools(meals, log)
    ensures forall x :: x in Stops(log) ==> exists k :: 0 <= k < |meals| && x in meals[k].rows
  {
    if log != [] { StopsComeFromPools(meals, log[..|log| - 1]); }
  }

  /** The plan's legs over the chained selection, whose days are all filled. */
  lemma LegsOfPlan(dist: Metric, sights: seq<Row>, meals: seq<Kind>, days: nat)
    requires sights != [] && days >= 1
    ensures var chosen := Selected(sights, meals, days);
            var ordered, perDay := Chain(dist, chosen), PerDay(meals);
            var n := DaysFilled(|ordered|, perDay);
            && chosen != [] && multiset(ordered) == multiset(chosen) && FirstSights(ordered, perDay, n) == ordered
            && n == Min(days, DaysFilled(|sights|, perDay))
            && Assembled(dist, sights, meals, days).legs == Legs(dist, ordered, perDay, StartState(meals, ordered), n)
            && (forall d :: 0 <= d < n ==> Fills(ordered, perDay, d))
  {
    hide StateAfter, Chain, Greedy, DaySights, StartState, DaysFilled;
    var perDay := PerDay(meals);
    var chosen := Selected(sights, meals, days);
    var ordered := Chain(dist, chosen);
    ChainIsGreedyPermutation(dist, chosen);
    SpanOfPlan(|sights|, perDay, days);
    assert |multiset(ordered)| == |ordered|;
    forall d | 0 <= d < DaysFilled(|ordered|, perDay) ensures Fills(ordered, perDay, d) {
      DaysFilledAreThoseWithSights(ordered, perDay, d);
    }
  }

  /** The plan spans exactly the days the sights fill, up to those asked for, and no leg is too long. */
  lemma PlanSpans(dist: Metric, sights: seq<Row>, meals: seq<Kind>, days: nat)
    requires sights != [] && days >= 1
    ensures var plan := Assembled(dist, sights, meals, days);
            && |plan.legs| == Min(days, DaysFilled(|sights|, PerDay(meals)))
            && (forall leg :: leg in plan.legs ==> GoodLeg(dist, PER_DAY, leg))
  {
    hide StateAfter, Chain, Greedy, StartState, DaysFilled, Assembled, Legs, GoodLeg;
    LegsOfPlan(dist, sights, meals, days);
    var ordered := Chain(dist, Selected(sights, meals, days));
    LegsAreGood(dist, ordered, PerDay(meals), meals, DaysFilled(|ordered|, PerDay(meals)));
  }

  /** It holds each selected sight once and otherwise just the stops that were placed, all from the pools. */
  lemma PlanHolds(dist: Metric, sights: seq<Row>, meals: seq<Kind>, days: nat)
    requires sights != [] && days >= 1
    ensures var plan := Assembled(dist, sights, meals, days);
            var extra := Stops(Picks(dist, sights, meals, days));
            && multiset(Flatten(plan.legs)) == multiset(Selected(sights, meals, days)) + multiset(extra)
            && (forall x :: x in extra ==> exists k :: 0 <= k < |meals| && x in meals[k].rows)
  {
    hide StateAfter, Chain, Greedy, StartState, DaysFilled, Assembled, Legs, Stops, Flatten, Selected, FirstSights;
    LegsOfPlan(dist, sights, meals, days);
    var ordered := Chain(dist, Selected(sights, meals, days));
    var n := DaysFilled(|ordered|, PerDay(meals));
    LegsHoldEverything(dist, ordered, PerDay(meals), meals, n);
    DaysKeepSound(dist, ordered, PerDay(meals), meals, n);
    StopsComeFromPools(meals, Picks(dist, sights, meals, days));
  }

  lemma SelectedIsDistinct(sights: seq<Row>, meals: seq<Kind>, days: nat)
    requires Distinct(sights)
    ensures Distinct(Selected(sights, meals, days))
  {
    hide Distinct;
    var chosen := Selected(sights, meals, days);
    assert sights == chosen + sights[|chosen|..];
    DistinctConcat(chosen, sights[|chosen|..]);
  }

  /** And repeats no content id, even where pools overlap each other and the sights. */
  lemma PlanIsDistinct(dist: Metric, sights: seq<Row>, meals: seq<Kind>, days: nat)
    requires Distinct(sights) && sights != [] && days >= 1
    ensures var all := Flatten(Assembled(dist, sights, meals, days).legs); Distinct(all) && Differ(all)
  {
    hide StateAfter, Chain, Greedy, StartState, DaysFilled, Assembled, Legs, Stops, Flatten, Selected, Ids, FirstSights, Differ;
    LegsOfPlan(dist, sights, meals, days);
    PlanHolds(dist, sights, meals, days);
    SelectedIsDistinct(sights, meals, days);
    var chosen, extra := Selected(sights, meals, days), Stops(Picks(dist, sights, meals, days));
    var ordered := Chain(dist, chosen);
    DaysKeepSound(dist, ordered, PerDay(meals), meals, DaysFilled(|ordered|, PerDay(meals)));
    SameMultisetSameIds(chosen, ordered);
    DistinctConcat(chosen, extra);
    var all := Flatten(Assembled(dist, sights, meals, days).legs);
    assert multiset(all) == multiset(chosen + extra);
    SameMultisetSameIds(all, chosen + extra);
    DistinctRowsDiffer(all);
  }

  /**
   Conservation: with distinct sights, the plan repeats no content id even where pools overlap each
   other and the sights; it holds each selected sight once and otherwise only members of the pools; no
   day has more than three stops; and it spans exactly the days the sights fill, up to those asked for.
   */
  lemma PlanConserves(dist: Metric, sights: seq<Row>, meals: seq<Kind>, days: nat)
    requires Distinct(sights) && sights != [] && days >= 1
    ensures var plan := Assembled(dist, sights, meals, days);
            var extra := Stops(Picks(dist, sights, meals, days));
            && Differ(Flatten(plan.legs))
            && multiset(Flatten(plan.legs)) == multiset(Selected(sights, meals, days)) + multiset(extra)
            && (forall x :: x in extra ==> exists k :: 0 <= k < |meals| && x in meals[k].rows)
            && |plan.legs| == Min(days, DaysFilled(|sights|, PerDay(meals)))
            && (forall leg :: leg in plan.legs ==> GoodLeg(dist, PER_DAY, leg))
  {
    hide *;
    PlanIsDistinct(dist, sights, meals, days);
    PlanHolds(dist, sights, meals, days);
    PlanSpans(dist, sights, meals, days);
  }

  // ----- rotation and fairness -----

  ghost predicate Rotates(log: seq<Pick>, kinds: nat)
    requires kinds > 0
  {
    forall t | 0 <= t < |log| :: log[t].kind == t % kinds
  }

  lemma OneDayMore(n: nat, p: nat)
    requires n > 0
    ensures n * p == (n - 1) * p + p
  {
  }

  lemma RotationContinues(before: seq<Pick>, after: seq<Pick>, kinds: nat, picks: seq<nat>)
    requires kinds > 0 && Rotates(before, kinds) && |after| == |before| + |picks| && after[..|before|] == before
    requires forall i :: 0 <= i < |picks| ==> after[|before| + i].kind == picks[i]
    requires forall i :: 0 <= i < |picks| ==> picks[i] == (|before| + i) % kinds
    ensures Rotates(after, kinds)
  {
    forall t | 0 <= t < |after|
      ensures after[t].kind == t % kinds
    {
      if t < |before| {
        assert after[t] == before[t];
      } else {
        var i := t - |before|;
        assert after[|before| + i].kind == picks[i];
      }
    }
  }

  lemma {:induction false} PicksRotate(dist: Metric, ordered: seq<Row>, perDay: nat, meals: seq<Kind>, n: nat)
    requires meals != [] && forall d :: 0 <= d < n ==> Fills(ordered, perDay, d)
    ensures var log := StateAfter(dist, ordered, perDay, StartState(meals, ordered), n).log;
            |log| == n * PerMeal(|meals|) && Rotates(log, |meals|)
  {
    hide Fills, PerMeal, Rotates, Placed, Stops, ServeAll, StartState, DaySights;
    if n > 0 {
      PicksRotate(dist, ordered, perDay, meals, n - 1);
      LogGrowsByTheDay(dist, ordered, perDay, meals, n - 1);
      hide StateAfter;
      OneDayMore(n, PerMeal(|meals|));
      RotationContinues(StateAfter(dist, ordered, perDay, StartState(meals, ordered), n - 1).log,
                        StateAfter(dist, ordered, perDay, StartState(meals, ordered), n).log,
                        |meals|, DayPicks(n - 1, |meals|));
    } else {
      EmptyRotation(dist, ordered, perDay, meals);
    }
  }

  lemma EmptyRotation(dist: Metric, ordered: seq<Row>, perDay: nat, meals: seq<Kind>)
    requires meals != []
    ensures var log := StateAfter(dist, ordered, perDay, StartState(meals, ordered), 0).log;
            log == [] && Rotates(log, |meals|)
  {
  }

  /** How often kind `k` was picked. */
  function Times(log: seq<Pick>, k: nat): nat {
    if log == [] then 0 else Times(log[..|log| - 1], k) + if log[|log| - 1].kind == k then 1 else 0
  }

  lemma NextTurn(t: nat, kinds: nat)
    requires kinds > 0
    ensures if t % kinds == kinds - 1 then (t + 1) % kinds == 0 && (t + 1) / kinds == t / kinds + 1
            else (t + 1) % kinds == t % kinds + 1 && (t + 1) / kinds == t / kinds
  {
    var q, r := t / kinds, t % kinds;
    assert t == q * kinds + r;
    if r == kinds - 1 {
      assert (q + 1) * kinds == q * kinds + kinds;
      DivModIs(t + 1, kinds, q + 1, 0);
    } else {
      DivModIs(t + 1, kinds, q, r + 1);
    }
  }

  lemma AtLeastOnce(times: int, kinds: int)
    requires times >= 1 && kinds > 0
    ensures times * kinds >= kinds
  {
    var more := times - 1;
    assert more * kinds >= 0;
    assert times * kinds == more * kinds + kinds;
  }

  lemma QuotientIsUnique(kinds: int, q: int, r: int, q': int, r': int)
    requires 0 <= r < kinds && 0 <= r' < kinds && q * kinds + r == q' * kinds + r'
    ensures q == q' && r == r'
  {
    assert (q - q') * kinds == q * kinds - q' * kinds == r' - r;
    if q > q' { AtLeastOnce(q - q', kinds); }
    assert (q' - q) * kinds == r - r';
    if q < q' { AtLeastOnce(q' - q, kinds); }
  }

  lemma DivModIs(t: nat, kinds: nat, q: nat, r: nat)
    requires kinds > 0 && t == q * kinds + r && r < kinds
    ensures t / kinds == q && t % kinds == r
  {
    var q', r' := t / kinds, t % kinds;
    assert t == q' * kinds + r' && 0 <= r' < kinds;
    QuotientIsUnique(kinds, q, r, q', r');
  }

  lemma {:induction false} TimesInRotation(log: seq<Pick>, kinds: nat, k: nat)
    requires kinds > 0 && Rotates(log, kinds) && k < kinds
    ensures Times(log, k) == |log| / kinds + if k < |log| % kinds then 1 else 0
  {
    if log != [] {
      TimesInRotation(log[..|log| - 1], kinds, k);
      NextTurn(|log| - 1, kinds);
    } else {
      DivModIs(0, kinds, 0, 0);
    }
  }

  /** Fairness: a day's picks are different kinds, and no kind is picked two times more than another. */
  lemma PicksAreFair(dist: Metric, sights: seq<Row>, meals: seq<Kind>, days: nat, i: nat, j: nat)
    requires sights != [] && days >= 1 && i < |meals| && j < |meals|
    ensures var log := Picks(dist, sights, meals, days);
            && Times(log, i) <= Times(log, j) + 1
            && (forall t :: 0 <= t < |log| - 1 && |meals| >= 2 ==> log[t].kind != log[t + 1].kind)
  {
    hide StateAfter, Chain, DaySights, StartState, DaysFilled;
    var perDay := PerDay(meals);
    var ordered := Chain(dist, Selected(sights, meals, days));
    var n := DaysFilled(|ordered|, perDay);
    forall d | 0 <= d < n ensures Fills(ordered, perDay, d) { DaysFilledAreThoseWithSights(ordered, perDay, d); }
    PicksRotate(dist, ordered, perDay, meals, n);
    var log := Picks(dist, sights, meals, days);
    TimesInRotation(log, |meals|, i);
    TimesInRotation(log, |meals|, j);
    forall t | 0 <= t < |log| - 1 && |meals| >= 2
      ensures log[t].kind != log[t + 1].kind
    {
      NextTurn(t, |meals|);
    }
  }

  /**
   Honest reporting: a kind is left out of `short` exactly when it was picked at least once and every
   one of its picks placed a stop.
   */
  lemma ShortIsExact(dist: Metric, sights: seq<Row>, meals: seq<Kind>, days: nat, k: nat)
    requires DistinctWords(meals) && sights != [] && days >= 1 && k < |meals|
    ensures var log := Picks(dist, sights, meals, days);
            meals[k].word !in Assembled(dist, sights, meals, days).short
            <==> k in KindsOf(log) && forall t :: 0 <= t < |log| && log[t].kind == k ==> log[t].stop.Some?
  {
    hide StateAfter, Chain, Greedy, DaySights, StartState, DaysFilled, Ids, Stops, Legs, KindsOf;
    var perDay := PerDay(meals);
    var chosen := Selected(sights, meals, days);
    var ordered := Chain(dist, chosen);
    ChainIsGreedyPermutation(dist, chosen);
    assert chosen != [];
    var n := DaysFilled(|ordered|, perDay);
    DaysKeepSound(dist, ordered, perDay, meals, n);
    var end := StateAfter(dist, ordered, perDay, StartState(meals, ordered), n);
    var w := meals[k].word;
    assert w in Unserved(meals, KindsOf(end.log)) <==> k !in KindsOf(end.log);
    ShortOfOneKind(meals, end, k);
  }

  lemma ShortOfOneKind(meals: seq<Kind>, st: State, k: nat)
    requires DistinctWords(meals) && ShortIsHonest(meals, st) && FromPools(meals, st.log) && k < |meals|
    ensures meals[k].word in st.short <==> exists t :: 0 <= t < |st.log| && st.log[t].kind == k && st.log[t].stop.None?
  {
    var w := meals[k].word;
    if w in st.short {
      var t :| 0 <= t < |st.log| && MissedBy(meals, st.log[t], w);
      assert st.log[t].kind == k;
    }
    if t :| 0 <= t < |st.log| && st.log[t].kind == k && st.log[t].stop.None? {
      assert MissedBy(meals, st.log[t], w);
    }
  }
}
