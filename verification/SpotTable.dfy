/**
 The spots table under the sync: the "strictly newer" upsert, the outcomes it counts, and the
 hiding of spots a full listing no longer mentions.
 */
module SpotTable {
  import opened Wrappers
  import opened Calendar

  /** One listed spot.  `body` stands for the columns the sync copies without looking at them. */
  datatype Spot = Spot(id: string, time: Option<Moment>, show: int, body: string)

  type Table = map<string, Spot>

  datatype Outcome = Inserted | Updated | SoftDeleted | Skipped

  /** The conflict guard: the arriving spot may overwrite the stored one. */
  predicate Overwrites(arriving: Spot, stored: Spot) {
    stored.time.None? || (arriving.time.Some? && Instant(stored.time.value) < Instant(arriving.time.value))
  }

  predicate Writes(t: Table, s: Spot) {
    s.id in t ==> Overwrites(s, t[s.id])
  }

  function Upsert(t: Table, s: Spot): Table {
    if Writes(t, s) then t[s.id := s] else t
  }

  function OutcomeOf(t: Table, s: Spot): Outcome {
    if !Writes(t, s) then Skipped
    else if s.show == 0 then SoftDeleted
    else if s.id !in t then Inserted
    else Updated
  }

  function UpsertAll(t: Table, ss: seq<Spot>): Table {
    if ss == [] then t else Upsert(UpsertAll(t, ss[..|ss| - 1]), ss[|ss| - 1])
  }

  function Outcomes(t: Table, ss: seq<Spot>): (os: seq<Outcome>)
    ensures |os| == |ss|
  {
    if ss == [] then []
    else Outcomes(t, ss[..|ss| - 1]) + [OutcomeOf(UpsertAll(t, ss[..|ss| - 1]), ss[|ss| - 1])]
  }

  function Count(os: seq<Outcome>, o: Outcome): nat {
    if os == [] then 0 else Count(os[..|os| - 1], o) + if os[|os| - 1] == o then 1 else 0
  }

  function Ids(ss: seq<Spot>): set<string> {
    set s | s in ss :: s.id
  }

  /** The newest modified time, an undated spot never replacing a dated one. */
  function Newest(start: Option<Moment>, ss: seq<Spot>): Option<Moment> {
    if ss == [] then start
    else
      var soFar := Newest(start, ss[..|ss| - 1]);
      var s := ss[|ss| - 1];
      if s.time.Some? && (soFar.None? || Instant(s.time.value) > Instant(soFar.value)) then s.time else soFar
  }

  // ----- batches -----

  lemma {:induction false} UpsertAllConcat(t: Table, a: seq<Spot>, b: seq<Spot>)
    ensures UpsertAll(t, a + b) == UpsertAll(UpsertAll(t, a), b)
  {
    if b == [] {
      assert a + b == a;
    } else {
      UpsertAllConcat(t, a, b[..|b| - 1]);
      assert (a + b)[..|a + b| - 1] == a + b[..|b| - 1];
    }
  }

  lemma {:induction false} OutcomesConcat(t: Table, a: seq<Spot>, b: seq<Spot>)
    ensures Outcomes(t, a + b) == Outcomes(t, a) + Outcomes(UpsertAll(t, a), b)
  {
    if b == [] {
      assert a + b == a;
    } else {
      OutcomesConcat(t, a, b[..|b| - 1]);
      UpsertAllConcat(t, a, b[..|b| - 1]);
      assert (a + b)[..|a + b| - 1] == a + b[..|b| - 1];
    }
  }

  lemma {:induction false} CountConcat(a: seq<Outcome>, b: seq<Outcome>, o: Outcome)
    ensures Count(a + b, o) == Count(a, o) + Count(b, o)
  {
    if b == [] {
      assert a + b == a;
    } else {
      CountConcat(a, b[..|b| - 1], o);
      assert (a + b)[..|a + b| - 1] == a + b[..|b| - 1];
    }
  }

  lemma {:induction false} NewestConcat(start: Option<Moment>, a: seq<Spot>, b: seq<Spot>)
    ensures Newest(start, a + b) == Newest(Newest(start, a), b)
  {
    if b == [] {
      assert a + b == a;
    } else {
      NewestConcat(start, a, b[..|b| - 1]);
      assert (a + b)[..|a + b| - 1] == a + b[..|b| - 1];
    }
  }

  /** Taking the maximum per listing and then over listings is the maximum over everything. */
  lemma {:induction false} NewestOfParts(start: Option<Moment>, b: seq<Spot>)
    ensures var part := Newest(None, b);
            Newest(start, b) ==
            if part.Some? && (start.None? || Instant(part.value) > Instant(start.value)) then part else start
  {
    hide Instant;
    if b != [] {
      NewestOfParts(start, b[..|b| - 1]);
    }
  }

  lemma {:induction false} NewestIsListed(start: Option<Moment>, ss: seq<Spot>)
    ensures var m := Newest(start, ss); m == start || exists s :: s in ss && s.time == m
  {
    hide Instant;
    if ss != [] {
      NewestIsListed(start, ss[..|ss| - 1]);
      assert ss[|ss| - 1] in ss;
    }
  }

  /** Every fetched row is counted exactly once. */
  lemma {:induction false} EveryRowIsCountedOnce(os: seq<Outcome>)
    ensures Count(os, Inserted) + Count(os, Updated) + Count(os, SoftDeleted) + Count(os, Skipped) == |os|
  {
    if os != [] { EveryRowIsCountedOnce(os[..|os| - 1]); }
  }

  lemma SizeAfterUpsert(t: Table, x: Spot)
    ensures var o, u := OutcomeOf(t, x), Upsert(t, x);
            && (o == Inserted ==> |u| == |t| + 1 && x.show != 0)
            && (o == Updated ==> |u| == |t| && x.show != 0)
            && (o == SoftDeleted ==> |t| <= |u| <= |t| + 1 && x.show == 0)
            && (o == Skipped ==> u == t)
  {
    hide Overwrites;
    var u := Upsert(t, x);
    assert u.Keys == t.Keys || u.Keys == t.Keys + {x.id};
    assert |u.Keys| == |u| && |t.Keys| == |t|;
  }

  /**
   What is counted is what happened: rows counted as inserted are ids new to the table, those counted as hidden
   may be, and no others are.
   */
  lemma {:induction false} InsertedAreNewIds(t: Table, ss: seq<Spot>)
    ensures var os, u := Outcomes(t, ss), UpsertAll(t, ss);
            && |t| + Count(os, Inserted) <= |u| <= |t| + Count(os, Inserted) + Count(os, SoftDeleted)
            && ((forall s :: s in ss ==> s.show != 0) ==> Count(os, SoftDeleted) == 0)
            && ((forall s :: s in ss ==> s.show == 0) ==> Count(os, Inserted) == Count(os, Updated) == 0)
  {
    hide Upsert, OutcomeOf;
    if ss != [] {
      var front, last := ss[..|ss| - 1], ss[|ss| - 1];
      assert ss == front + [last];
      InsertedAreNewIds(t, front);
      SizeAfterUpsert(UpsertAll(t, front), last);
      assert Outcomes(t, ss)[..|front|] == Outcomes(t, front);
    }
  }

  /** Row `i` is skipped exactly when what is stored by then is dated and not older; otherwise it is stored. */
  lemma SkippedAreNotNewer(t: Table, ss: seq<Spot>, i: nat)
    requires i < |ss|
    ensures var x, before, after := ss[i], UpsertAll(t, ss[..i]), UpsertAll(t, ss[..i + 1]);
            var skipped := Outcomes(t, ss)[i] == Skipped;
            && (skipped <==> x.id in before && before[x.id].time.Some?
                             && (x.time.None? || Instant(x.time.value) <= Instant(before[x.id].time.value)))
            && after == if skipped then before else before[x.id := x]
  {
    OutcomeAt(t, ss, i);
    assert ss[..i + 1][..i] == ss[..i];
  }

  lemma {:induction false} OutcomeAt(t: Table, ss: seq<Spot>, i: nat)
    requires i < |ss|
    ensures Outcomes(t, ss)[i] == OutcomeOf(UpsertAll(t, ss[..i]), ss[i])
  {
    hide OutcomeOf, UpsertAll;
    var front := ss[..|ss| - 1];
    if i < |front| {
      OutcomeAt(t, front, i);
      assert front[..i] == ss[..i];
    }
  }

  // ----- what a batch leaves -----

  ghost predicate Keyed(t: Table) {
    forall id :: id in t ==> t[id].id == id
  }

  ghost predicate Timed(ss: seq<Spot>) {
    forall s :: s in ss ==> s.time.Some?
  }

  /** `a` is at least as recent as `b`; an undated row is older than anything. */
  predicate AsRecent(a: Spot, b: Spot) {
    b.time.Some? ==> a.time.Some? && Instant(a.time.value) >= Instant(b.time.value)
  }

  /** Where the rows of `u` come from: a batch over table `t`. */
  ghost predicate DrawnFrom(t: Table, ss: seq<Spot>, u: Table) {
    && Keyed(u) && u.Keys == t.Keys + Ids(ss)
    && (forall id :: id in u ==>
          u[id] in ss || (id in t && id !in Ids(ss) && u[id] == t[id]) || (id in t && u[id] == t[id] && t[id].time.Some?))
  }

  /** No version of the table or the batch is more recent than the row of `u`. */
  ghost predicate NothingNewer(t: Table, ss: seq<Spot>, u: Table) {
    && (forall id :: id in t ==> id in u && AsRecent(u[id], t[id]))
    && (forall s :: s in ss ==> s.id in u && AsRecent(u[s.id], s))
  }

  /** A batch keeps, for every spot, the newest version among the table and the batch. */
  lemma {:induction false} UpsertAllKeepsNewest(t: Table, ss: seq<Spot>)
    requires Keyed(t) && Timed(ss)
    ensures DrawnFrom(t, ss, UpsertAll(t, ss)) && NothingNewer(t, ss, UpsertAll(t, ss))
  {
    if ss != [] {
      var front, s := ss[..|ss| - 1], ss[|ss| - 1];
      assert ss == front + [s];
      hide DrawnFrom, NothingNewer, Upsert;
      UpsertAllKeepsNewest(t, front);
      OneMoreIsDrawn(t, front, UpsertAll(t, front), s);
      OneMoreIsNewest(t, front, UpsertAll(t, front), s);
    } else {
      assert Ids(ss) == {};
    }
  }

  lemma OneMoreIsDrawn(t: Table, ss: seq<Spot>, u: Table, s: Spot)
    requires DrawnFrom(t, ss, u) && s.time.Some?
    ensures DrawnFrom(t, ss + [s], Upsert(u, s))
  {
    hide Instant;
    assert Ids(ss + [s]) == Ids(ss) + {s.id};
  }

  lemma UpsertIsNewest(u: Table, s: Spot)
    requires s.time.Some?
    ensures var w := Upsert(u, s);
            && s.id in w && AsRecent(w[s.id], s) && (s.id in u ==> AsRecent(w[s.id], u[s.id]))
            && forall id :: id in u && id != s.id ==> id in w && w[id] == u[id]
  {
    hide Instant;
  }

  lemma AsRecentChains(a: Spot, b: Spot, c: Spot)
    requires AsRecent(a, b) && AsRecent(b, c)
    ensures AsRecent(a, c)
  {
    hide Instant;
  }

  lemma OneMoreIsNewest(t: Table, ss: seq<Spot>, u: Table, s: Spot)
    requires NothingNewer(t, ss, u) && s.time.Some?
    ensures NothingNewer(t, ss + [s], Upsert(u, s))
  {
    UpsertIsNewest(u, s);
    hide Upsert, AsRecent;
    var w := Upsert(u, s);
    forall id | id in t
      ensures id in w && AsRecent(w[id], t[id])
    {
      if id == s.id { AsRecentChains(w[id], u[id], t[id]); }
    }
    forall x | x in ss + [s]
      ensures x.id in w && AsRecent(w[x.id], x)
    {
      if x.id == s.id && x in ss { AsRecentChains(w[x.id], u[x.id], x); }
    }
  }

  /** Rows and listing never disagree about what a spot looked like at one moment. */
  ghost predicate OneVersionPerTime(t: Table, ss: seq<Spot>) {
    forall a, b :: (a in ss || a in t.Values) && (b in ss || b in t.Values) && a.id == b.id && a.time == b.time
                   ==> a == b
  }

  /**
   Convergence: the order in which rows arrive, how often they are repeated, and where an earlier
   attempt stopped make no difference to the table.
   */
  lemma OrderAndRepetitionDoNotMatter(t: Table, a: seq<Spot>, b: seq<Spot>)
    requires Keyed(t) && Timed(a) && OneVersionPerTime(t, a)
    requires forall s :: s in a <==> s in b
    ensures UpsertAll(t, a) == UpsertAll(t, b)
  {
    hide Instant;
    var ta, tb := UpsertAll(t, a), UpsertAll(t, b);
    assert Ids(a) == Ids(b);
    UpsertAllKeepsNewest(t, a);
    UpsertAllKeepsNewest(t, b);
    forall id | id in ta
      ensures ta[id] == tb[id]
    {
      if id in Ids(a) {
        assert ta[id].time.Some? && tb[id].time.Some?;
        assert AsRecent(ta[id], tb[id]) && AsRecent(tb[id], ta[id]);
        StampOrder(ta[id].time.value, tb[id].time.value);
      }
    }
  }

  /** A run that stopped part-way and was run again leaves the table one clean run would have left. */
  lemma RerunAfterPartialCommit(t: Table, listed: seq<Spot>, committed: seq<Spot>)
    requires Keyed(t) && Timed(listed) && OneVersionPerTime(t, listed)
    requires forall s :: s in committed ==> s in listed
    ensures UpsertAll(UpsertAll(t, committed), listed) == UpsertAll(t, listed)
  {
    UpsertAllConcat(t, committed, listed);
    OrderAndRepetitionDoNotMatter(t, listed, committed + listed);
  }

  /** A batch that knows one version of a spot: it is stored if the guard lets it, and otherwise nothing happens to it. */
  lemma {:induction false} OneVersionUpserts(t: Table, ss: seq<Spot>, x: Spot)
    requires forall s :: s in ss && s.id == x.id ==> s == x
    ensures var u := UpsertAll(t, ss);
            && (x.id in u <==> x in ss || x.id in t)
            && (x.id in u ==> u[x.id] == if x in ss && Writes(t, x) then x else t[x.id])
  {
    hide Overwrites;
    if ss != [] {
      var front := ss[..|ss| - 1];
      assert ss == front + [ss[|ss| - 1]];
      OneVersionUpserts(t, front, x);
    }
  }

  // ----- hiding -----

  function Visible(t: Table): set<string> {
    set id | id in t && t[id].show == 1
  }

  predicate SeesTooFew(t: Table, seen: set<string>) {
    Visible(t) != {} && 2 * |seen| < |Visible(t)|
  }

  function HideUnseen(t: Table, seen: set<string>): Table {
    map id | id in t :: if t[id].show == 1 && id !in seen then t[id].(show := 0) else t[id]
  }

  /** Same spot at the same moment, whether or not a full run has hidden the row. */
  predicate SameVersion(a: Spot, b: Spot) {
    a.id == b.id && a.time == b.time && a.body == b.body
  }
}
