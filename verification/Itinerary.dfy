/**
 The itinerary assembler: sights chained greedily and split over the days, one or two meals a day drawn
 in rotation from per-kind pools that shrink and must not repeat anything already planned, and a report
 of the kinds that did not fit.  Distances are an arbitrary function; only comparisons matter.
 */
module Itinerary {
  import opened Wrappers

  const PER_DAY := 3

  datatype Row = Row(contentId: string, title: string, lat: real, lng: real)

  type Metric = (Row, Row) -> real

  /** A requested kind of meal and the places still available for it. */
  datatype Kind = Kind(word: string, rows: seq<Row>)

  // ----- nearest and chain -----

  /** Python's `min`: the first of the nearest. */
  function NearestIndex(dist: Metric, from: Row, pool: seq<Row>): (k: nat)
    requires pool != []
    ensures k < |pool|
    ensures forall j :: 0 <= j < |pool| ==> dist(from, pool[k]) <= dist(from, pool[j])
    ensures forall j :: 0 <= j < k ==> dist(from, pool[k]) < dist(from, pool[j])
  {
    var last := |pool| - 1;
    if last == 0 then 0
    else
      var k := NearestIndex(dist, from, pool[..last]);
      if dist(from, pool[last]) < dist(from, pool[k]) then last else k
  }

  /** `list.remove`: without the first element equal to `x`. */
  function RemoveFirst(rows: seq<Row>, x: Row): seq<Row> {
    if rows == [] then [] else if rows[0] == x then rows[1..] else [rows[0]] + RemoveFirst(rows[1..], x)
  }

  lemma {:induction false} RemoveFirstRemovesOne(rows: seq<Row>, x: Row)
    requires x in rows
    ensures multiset(RemoveFirst(rows, x)) == multiset(rows) - multiset{x}
    ensures |RemoveFirst(rows, x)| == |rows| - 1
    ensures forall y :: y in RemoveFirst(rows, x) ==> y in rows
  {
    assert rows == [rows[0]] + rows[1..];
    if rows[0] != x { RemoveFirstRemovesOne(rows[1..], x); }
  }

  function ChainOn(dist: Metric, ordered: seq<Row>, remaining: seq<Row>): seq<Row>
    requires ordered != []
    decreases |remaining|
  {
    if remaining == [] then ordered
    else
      var nearest := remaining[NearestIndex(dist, ordered[|ordered| - 1], remaining)];
      RemoveFirstRemovesOne(remaining, nearest);
      ChainOn(dist, ordered + [nearest], RemoveFirst(remaining, nearest))
  }

  function Chain(dist: Metric, rows: seq<Row>): seq<Row> {
    if rows == [] then [] else ChainOn(dist, [rows[0]], rows[1..])
  }

  method ChainRows(dist: Metric, rows: seq<Row>) returns (ordered: seq<Row>)
    ensures ordered == Chain(dist, rows)
  {
    if rows == [] {
      return [];
    }
    var remaining := rows[1..];
    ordered := [rows[0]];
    while remaining != []
      invariant ordered != [] && ChainOn(dist, ordered, remaining) == Chain(dist, rows)
      decreases |remaining|
    {
      var nearest := remaining[NearestIndex(dist, ordered[|ordered| - 1], remaining)];
      RemoveFirstRemovesOne(remaining, nearest);
      remaining := RemoveFirst(remaining, nearest);
      ordered := ordered + [nearest];
    }
  }

  /** Each stop of the chain is followed by the nearest of all the stops still to come. */
  ghost predicate Greedy(dist: Metric, rows: seq<Row>) {
    forall i, j :: 0 <= i < |rows| - 1 && i < j < |rows| ==> dist(rows[i], rows[i + 1]) <= dist(rows[i], rows[j])
  }

  lemma {:induction false} ChainOnKeepsRows(dist: Metric, ordered: seq<Row>, remaining: seq<Row>)
    requires ordered != []
    ensures multiset(ChainOn(dist, ordered, remaining)) == multiset(ordered) + multiset(remaining)
    ensures ordered <= ChainOn(dist, ordered, remaining)
    decreases |remaining|
  {
    if remaining != [] {
      var nearest := remaining[NearestIndex(dist, ordered[|ordered| - 1], remaining)];
      RemoveFirstRemovesOne(remaining, nearest);
      ChainOnKeepsRows(dist, ordered + [nearest], RemoveFirst(remaining, nearest));
      assert multiset(ordered + [nearest]) == multiset(ordered) + multiset{nearest};
      assert nearest in multiset(remaining);
    }
  }

  lemma {:induction false} ChainOnIsGreedy(dist: Metric, ordered: seq<Row>, remaining: seq<Row>, i: nat, j: nat)
    requires ordered != []
    requires |ordered| - 1 <= i < |ChainOn(dist, ordered, remaining)| - 1
    requires i < j < |ChainOn(dist, ordered, remaining)|
    ensures var c := ChainOn(dist, ordered, remaining); dist(c[i], c[i + 1]) <= dist(c[i], c[j])
    decreases |remaining|
  {
    if remaining != [] {
      var last := ordered[|ordered| - 1];
      var nearest := remaining[NearestIndex(dist, last, remaining)];
      RemoveFirstRemovesOne(remaining, nearest);
      var rest := RemoveFirst(remaining, nearest);
      var c := ChainOn(dist, ordered + [nearest], rest);
      ChainOnKeepsRows(dist, ordered + [nearest], rest);
      if i >= |ordered| {
        ChainOnIsGreedy(dist, ordered + [nearest], rest, i, j);
      } else if j > |ordered| {
        TailComesFrom(c, ordered + [nearest], rest, j);
      }
    }
  }

  lemma TailComesFrom(c: seq<Row>, front: seq<Row>, rest: seq<Row>, j: nat)
    requires front <= c && multiset(c) == multiset(front) + multiset(rest) && |front| <= j < |c|
    ensures c[j] in rest
  {
    assert c == front + c[|front|..];
    assert multiset(c) == multiset(front) + multiset(c[|front|..]);
    assert multiset(c[|front|..]) == multiset(c) - multiset(front) == multiset(rest);
    assert c[j] in c[|front|..];
    assert c[j] in multiset(c[|front|..]);
  }

  /** The chain is a rearrangement that starts where the list starts and never skips a nearer stop. */
  lemma ChainIsGreedyPermutation(dist: Metric, rows: seq<Row>)
    ensures multiset(Chain(dist, rows)) == multiset(rows) && Greedy(dist, Chain(dist, rows))
    ensures rows != [] ==> Chain(dist, rows) != [] && Chain(dist, rows)[0] == rows[0]
    ensures |Chain(dist, rows)| == |rows|
  {
    if rows != [] {
      ChainOnKeepsRows(dist, [rows[0]], rows[1..]);
      assert rows == [rows[0]] + rows[1..];
      assert |multiset(Chain(dist, rows))| == |multiset(rows)|;
      var c := Chain(dist, rows);
      forall i, j | 0 <= i < |c| - 1 && i < j < |c|
        ensures dist(c[i], c[i + 1]) <= dist(c[i], c[j])
      {
        ChainOnIsGreedy(dist, [rows[0]], rows[1..], i, j);
      }
    }
  }

  // ----- one meal of each kind -----

  function Untaken(rows: seq<Row>, taken: set<string>): (r: seq<Row>)
    ensures forall x :: x in r <==> x in rows && x.contentId !in taken
  {
    if rows == [] then []
    else (if rows[0].contentId in taken then [] else [rows[0]]) + Untaken(rows[1..], taken)
  }

  /** What became of one pick: which kind, and the stop it placed. */
  datatype Pick = Pick(kind: nat, stop: Option<Row>)

  /** The assembler's mutable state; `log` records the picks so far. */
  datatype State = State(left: seq<Kind>, taken: set<string>, short: set<string>, log: seq<Pick>)

  function Serve(dist: Metric, head: Row, st: State, kind: nat): (r: State)
    requires kind < |st.left|
    ensures |r.left| == |st.left|
  {
    var pool := Untaken(st.left[kind].rows, st.taken);
    if pool == [] then
      st.(short := st.short + {st.left[kind].word}, log := st.log + [Pick(kind, None)])
    else
      var chosen := pool[NearestIndex(dist, head, pool)];
      State(st.left[kind := st.left[kind].(rows := RemoveFirst(st.left[kind].rows, chosen))],
            st.taken + {chosen.contentId}, st.short, st.log + [Pick(kind, Some(chosen))])
  }

  predicate InRange(kinds: seq<nat>, n: nat) {
    forall i | 0 <= i < |kinds| :: kinds[i] < n
  }

  function ServeAll(dist: Metric, head: Row, st: State, kinds: seq<nat>): (r: State)
    requires InRange(kinds, |st.left|)
    ensures |r.left| == |st.left|
  {
    if kinds == [] then st
    else Serve(dist, head, ServeAll(dist, head, st, kinds[..|kinds| - 1]), kinds[|kinds| - 1])
  }

  function Stops(log: seq<Pick>): seq<Row> {
    if log == [] then []
    else Stops(log[..|log| - 1]) + if log[|log| - 1].stop.Some? then [log[|log| - 1].stop.value] else []
  }

  // ----- the days -----

  /** How many meals a day gets; the rest of the day is for sights. */
  function PerMeal(kinds: nat): nat {
    if kinds < PER_DAY - 1 then kinds else PER_DAY - 1
  }

  function DayPicks(day: nat, kinds: nat): (ks: seq<nat>)
    ensures |ks| == PerMeal(kinds) && InRange(ks, kinds)
  {
    seq(PerMeal(kinds), slot requires 0 <= slot < PerMeal(kinds) => (day * PerMeal(kinds) + slot) % kinds)
  }

  function Min(a: int, b: int): int {
    if a < b then a else b
  }

  function DaySights(ordered: seq<Row>, day: nat, perDay: nat): seq<Row> {
    ordered[Min(day * perDay, |ordered|)..Min((day + 1) * perDay, |ordered|)]
  }

  /** How many days the chained sights fill. */
  function DaysFilled(sights: nat, perDay: nat): nat
    requires perDay > 0
  {
    (sights + perDay - 1) / perDay
  }

  predicate Fills(ordered: seq<Row>, perDay: nat, day: nat) {
    DaySights(ordered, day, perDay) != []
  }

  /** The state after the first `n` days, all of which have sights. */
  function StateAfter(dist: Metric, ordered: seq<Row>, perDay: nat, st: State, n: nat): (r: State)
    ensures |r.left| == |st.left|
  {
    if n == 0 then st
    else
      var before := StateAfter(dist, ordered, perDay, st, n - 1);
      var sights := DaySights(ordered, n - 1, perDay);
      if sights == [] then before
      else ServeAll(dist, sights[0], before, DayPicks(n - 1, |st.left|))
  }

  /** What the picks of one day placed. */
  function Placed(dist: Metric, ordered: seq<Row>, perDay: nat, st: State, day: nat): seq<Row> {
    var before := StateAfter(dist, ordered, perDay, st, day).log;
    var after := StateAfter(dist, ordered, perDay, st, day + 1).log;
    Stops(after[Min(|before|, |after|)..])
  }

  function Leg(dist: Metric, ordered: seq<Row>, perDay: nat, st: State, day: nat): seq<Row> {
    Chain(dist, DaySights(ordered, day, perDay) + Placed(dist, ordered, perDay, st, day))
  }

  function Legs(dist: Metric, ordered: seq<Row>, perDay: nat, st: State, n: nat): seq<seq<Row>> {
    if n == 0 then [] else Legs(dist, ordered, perDay, st, n - 1) + [Leg(dist, ordered, perDay, st, n - 1)]
  }

  function KindsOf(log: seq<Pick>): set<nat> {
    set p | p in log :: p.kind
  }

  function Unserved(meals: seq<Kind>, served: set<nat>): set<string> {
    set k | 0 <= k < |meals| && k !in served :: meals[k].word
  }

  function Ids(rows: seq<Row>): set<string> {
    set r | r in rows :: r.contentId
  }

  function StartState(meals: seq<Kind>, ordered: seq<Row>): State {
    State(meals, Ids(ordered), {}, [])
  }

  datatype Plan = Plan(legs: seq<seq<Row>>, short: set<string>)

  /** The assembler with the backbone settled: `perDay` sights a day from `sights`, meals from `meals`. */
  function Assembled(dist: Metric, sights: seq<Row>, meals: seq<Kind>, days: nat): Plan {
    var perDay := PER_DAY - PerMeal(|meals|);
    var ordered := Chain(dist, sights[..Min(days * perDay, |sights|)]);
    if ordered == [] then Plan([], {})
    else
      var start := StartState(meals, ordered);
      var n := DaysFilled(|ordered|, perDay);
      var end := StateAfter(dist, ordered, perDay, start, n);
      Plan(Legs(dist, ordered, perDay, start, n), end.short + Unserved(meals, KindsOf(end.log)))
  }

  /** Without sights or days there is no plan and nothing to report. */
  lemma NothingToPlan(dist: Metric, sights: seq<Row>, meals: seq<Kind>, days: nat)
    requires sights == [] || days == 0
    ensures Assembled(dist, sights, meals, days) == Plan([], {})
  {
    hide StateAfter, Legs, StartState, DaysFilled, Unserved;
    var perDay: nat := PER_DAY - PerMeal(|meals|);
    assert days == 0 ==> days * perDay == 0;
    assert sights[..Min(days * perDay, |sights|)] == [];
  }

  lemma DaysFilledAreThoseWithSights(ordered: seq<Row>, perDay: nat, day: nat)
    requires 1 <= perDay <= 3
    ensures Fills(ordered, perDay, day) <==> day < DaysFilled(|ordered|, perDay)
  {
    if perDay == 1 {
    } else if perDay == 2 {
    } else {
    }
  }

  lemma StopsConcat(a: seq<Pick>, b: seq<Pick>)
    ensures Stops(a + b) == Stops(a) + Stops(b)
  {
    if b == [] {
      assert a + b == a;
    } else {
      assert (a + b)[..|a + b| - 1] == a + b[..|b| - 1];
      StopsConcat(a, b[..|b| - 1]);
    }
  }

  /** The picks of a day follow the log so far, one entry per pick, in order. */
  lemma {:induction false} ServeAllLogs(dist: Metric, head: Row, st: State, kinds: seq<nat>)
    requires InRange(kinds, |st.left|)
    ensures var log := ServeAll(dist, head, st, kinds).log;
            && |log| == |st.log| + |kinds| && log[..|st.log|] == st.log
            && forall i :: 0 <= i < |kinds| ==> log[|st.log| + i].kind == kinds[i]
  {
    hide Untaken, NearestIndex, RemoveFirst;
    if kinds != [] { ServeAllLogs(dist, head, st, kinds[..|kinds| - 1]); }
  }

  // ----- the code -----

  class Assembler {
    var left: seq<Kind>
    var taken: set<string>
    var short: set<string>
    var served: set<nat>
    ghost var log: seq<Pick>

    constructor (meals: seq<Kind>, ordered: seq<Row>)
      ensures View() == StartState(meals, ordered) && served == {}
    {
      left, taken, short, served := meals, Ids(ordered), {}, {};
      log := [];
    }

    ghost function View(): State
      reads this
    {
      State(left, taken, short, log)
    }

    method ServeKind(dist: Metric, head: Row, kind: nat) returns (stop: Option<Row>)
      requires kind < |left|
      modifies this`left, this`taken, this`short, this`log
      ensures View() == Serve(dist, head, old(View()), kind) && log == old(log) + [Pick(kind, stop)]
    {
      var pool := Untaken(left[kind].rows, taken);
      if pool == [] {
        short := short + {left[kind].word};
        log := log + [Pick(kind, None)];
        return None;
      }
      var chosen := pool[NearestIndex(dist, head, pool)];
      left := left[kind := left[kind].(rows := RemoveFirst(left[kind].rows, chosen))];
      taken := taken + {chosen.contentId};
      log := log + [Pick(kind, Some(chosen))];
      stop := Some(chosen);
    }

    method OneOfEach(dist: Metric, head: Row, kinds: seq<nat>) returns (picked: seq<Row>)
      requires InRange(kinds, |left|)
      modifies this`left, this`taken, this`short, this`log
      ensures View() == ServeAll(dist, head, old(View()), kinds)
      ensures |old(log)| <= |log| && picked == Stops(log[|old(log)|..])
    {
      hide Serve;
      picked := [];
      var i := 0;
      while i < |kinds|
        invariant 0 <= i <= |kinds|
        invariant View() == ServeAll(dist, head, old(View()), kinds[..i])
        invariant |old(log)| <= |log| && picked == Stops(log[|old(log)|..])
      {
        assert kinds[..i + 1][..i] == kinds[..i];
        ghost var before := log;
        var stop := ServeKind(dist, head, kinds[i]);
        StopsConcat(before[|old(log)|..], [Pick(kinds[i], stop)]);
        assert log[|old(log)|..] == before[|old(log)|..] + [Pick(kinds[i], stop)];
        assert [Pick(kinds[i], stop)][..0] == [];
        if stop.Some? {
          picked := picked + [stop.value];
        }
        i := i + 1;
      }
      assert kinds[..i] == kinds;
    }

    /** One day: its sights, one meal of each kind whose turn it is, and the chain through them. */
    method PlanDay(dist: Metric, ordered: seq<Row>, perDay: nat, day: nat, ghost start: State) returns (leg: seq<Row>)
      requires View() == StateAfter(dist, ordered, perDay, start, day) && Fills(ordered, perDay, day)
      requires served == KindsOf(log)
      modifies this
      ensures View() == StateAfter(dist, ordered, perDay, start, day + 1)
      ensures leg == Leg(dist, ordered, perDay, start, day) && served == KindsOf(log)
    {
      hide ServeAll, Serve, Stops, DayPicks, KindsOf, DaySights, Chain;
      leg := DaySights(ordered, day, perDay);
      var picks := DayPicks(day, |left|);
      ghost var before := View();
      ServeAllLogs(dist, leg[0], before, picks);
      served := served + set k | k in picks;
      var picked := OneOfEach(dist, leg[0], picks);
      ServedAre(before.log, log, picks);
      leg := ChainRows(dist, leg + picked);
    }

    method ReportUnserved(meals: seq<Kind>)
      modifies this`short
      ensures short == old(short) + Unserved(meals, served)
    {
      var k := 0;
      while k < |meals|
        invariant 0 <= k <= |meals|
        invariant short == old(short) + Unserved(meals[..k], served)
      {
        UnservedGrows(meals, served, k);
        if k !in served {
          short := short + {meals[k].word};
        }
        k := k + 1;
      }
      assert meals[..k] == meals;
    }
  }

  /** With no sights at all, the first food pool takes their place. */
  method Assemble(dist: Metric, sights: seq<Row>, meals: seq<Kind>, days: nat) returns (r: Plan)
    ensures r == if sights == [] && meals != [] then Assembled(dist, meals[0].rows, meals[1..], days)
                 else Assembled(dist, sights, meals, days)
  {
    hide Chain, ServeAll, Leg, DaysFilled;
    var backbone, rest := sights, meals;
    if sights == [] && meals != [] {
      backbone, rest := meals[0].rows, meals[1..];
    }
    var perMeal := PerMeal(|rest|);
    var perDay := PER_DAY - perMeal;
    var ordered := ChainRows(dist, backbone[..Min(days * perDay, |backbone|)]);
    if ordered == [] {
      return Plan([], {});
    }
    ChainIsGreedyPermutation(dist, backbone[..Min(days * perDay, |backbone|)]);
    r := AssembleDays(dist, ordered, rest, days);
  }

  /** The day loop and the report of kinds that never came up. */
  method AssembleDays(dist: Metric, ordered: seq<Row>, meals: seq<Kind>, days: nat) returns (r: Plan)
    requires |ordered| <= days * (PER_DAY - PerMeal(|meals|))
    ensures var perDay := PER_DAY - PerMeal(|meals|);
            var start := StartState(meals, ordered);
            var n := DaysFilled(|ordered|, perDay);
            var end := StateAfter(dist, ordered, perDay, start, n);
            r == Plan(Legs(dist, ordered, perDay, start, n), end.short + Unserved(meals, KindsOf(end.log)))
  {
    hide Leg, ServeAll, DaysFilled, KindsOf, Unserved, StateAfter, DaySights;
    var perMeal := PerMeal(|meals|);
    var perDay := PER_DAY - perMeal;
    ghost var start := StartState(meals, ordered);
    ghost var n := DaysFilled(|ordered|, perDay);
    var a := new Assembler(meals, ordered);
    var legs: seq<seq<Row>> := [];
    var day := 0;
    NothingServed(dist, ordered, perDay, start);
    DaysFilledFits(|ordered|, perDay, days);
    while day < days
      invariant 0 <= day <= n
      invariant a.View() == StateAfter(dist, ordered, perDay, start, day)
      invariant a.served == KindsOf(a.log)
      invariant legs == Legs(dist, ordered, perDay, start, day)
    {
      DaysFilledAreThoseWithSights(ordered, perDay, day);
      if DaySights(ordered, day, perDay) == [] {
        break;
      }
      var leg := a.PlanDay(dist, ordered, perDay, day, start);
      legs := legs + [leg];
      day := day + 1;
    }
    a.ReportUnserved(meals);
    r := Plan(legs, a.short);
  }

  lemma NothingServed(dist: Metric, ordered: seq<Row>, perDay: nat, start: State)
    ensures StateAfter(dist, ordered, perDay, start, 0) == start && KindsOf([]) == {}
  {
  }

  lemma DaysFilledFits(sights: nat, perDay: nat, days: nat)
    requires 1 <= perDay <= 3
    ensures DaysFilled(sights, perDay) <= days <==> sights <= days * perDay
  {
    if perDay == 1 {
    } else if perDay == 2 {
    } else {
    }
  }

  lemma UnservedGrows(meals: seq<Kind>, served: set<nat>, k: nat)
    requires k < |meals|
    ensures Unserved(meals[..k + 1], served) ==
            Unserved(meals[..k], served) + if k in served then {} else {meals[k].word}
  {
    var fewer, more := meals[..k], meals[..k + 1];
    assert forall i :: 0 <= i < k ==> fewer[i] == more[i];
  }

  lemma ServedAre(before: seq<Pick>, after: seq<Pick>, picks: seq<nat>)
    requires |after| == |before| + |picks| && after[..|before|] == before
    requires forall i :: 0 <= i < |picks| ==> after[|before| + i].kind == picks[i]
    ensures KindsOf(after) == KindsOf(before) + set k | k in picks
  {
    forall p | p in after
      ensures p.kind in KindsOf(before) + set k | k in picks
    {
      var i :| 0 <= i < |after| && after[i] == p;
      if i < |before| { assert before[i] == p; } else { assert picks[i - |before|] == p.kind; }
    }
    forall k | k in picks
      ensures k in KindsOf(after)
    {
      var i :| 0 <= i < |picks| && picks[i] == k;
      assert after[|before| + i].kind == k && after[|before| + i] in after;
    }
    assert forall p :: p in before ==> p in after by {
      assert after == before + after[|before|..];
    }
  }
}
