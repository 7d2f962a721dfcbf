/**
 The precomputed matches of an overseas spot: the three nearest domestic spots over two embedding
 sources.  The rebuild looks only at the `k` nearest rows of each source, cut by an order that leaves
 ties open; the question is when that equals ranking both sources in full.
 Distances are reals and only compared; content ids are integers standing for their sort order.
 */
module MatchRebuild {
  import opened Sets

  /** The rows one source offers to one overseas spot: at most one distance per content id. */
  type Source = map<int, real>

  datatype Hit = Hit(id: int, distance: real)

  const MATCHES := 3

  // ----- ranking two sources -----

  predicate Offers(a: Source, b: Source, id: int) {
    id in a || id in b
  }

  /** `DISTINCT ON (content_id) ... ORDER BY content_id, distance`. */
  function Best(a: Source, b: Source, id: int): (d: real)
    requires Offers(a, b, id)
    ensures id in a ==> d <= a[id]
    ensures id in b ==> d <= b[id]
    ensures (id in a && d == a[id]) || (id in b && d == b[id])
  {
    if id !in b then a[id] else if id !in a then b[id] else if a[id] <= b[id] then a[id] else b[id]
  }

  function BestHit(a: Source, b: Source, id: int): Hit
    requires Offers(a, b, id)
  {
    Hit(id, Best(a, b, id))
  }

  /** `ORDER BY distance, content_id`. */
  predicate Before(x: Hit, y: Hit) {
    x.distance < y.distance || (x.distance == y.distance && x.id < y.id)
  }

  function Eligible(a: Source, b: Source, limit: real): set<int> {
    set id | id in a.Keys + b.Keys && Best(a, b, id) <= limit
  }

  lemma Member<T>(ids: set<T>) returns (x: T)
    requires ids != {}
    ensures x in ids
  {
    x :| x in ids;
  }

  predicate IsFirst(a: Source, b: Source, ids: set<int>, x: int)
    requires forall id :: id in ids ==> Offers(a, b, id)
  {
    x in ids && forall y :: y in ids && y != x ==> Before(BestHit(a, b, x), BestHit(a, b, y))
  }

  lemma {:induction false} FirstExists(a: Source, b: Source, ids: set<int>)
    requires ids != {} && forall id :: id in ids ==> Offers(a, b, id)
    ensures exists x :: IsFirst(a, b, ids, x)
  {
    hide Best;
    var y := Member(ids);
    if ids == {y} {
      assert IsFirst(a, b, ids, y);
    } else {
      FirstExists(a, b, ids - {y});
      var x :| IsFirst(a, b, ids - {y}, x);
      if Before(BestHit(a, b, y), BestHit(a, b, x)) {
        assert IsFirst(a, b, ids, y);
      } else {
        assert IsFirst(a, b, ids, x);
      }
    }
  }

  /** The first `n` of `ids`, nearest first. */
  ghost function Ranked(a: Source, b: Source, ids: set<int>, n: nat): seq<Hit>
    requires forall id :: id in ids ==> Offers(a, b, id)
  {
    if n == 0 || ids == {} then []
    else
      FirstExists(a, b, ids);
      var x :| IsFirst(a, b, ids, x);
      [BestHit(a, b, x)] + Ranked(a, b, ids - {x}, n - 1)
  }

  /** The ranked matches drawn from the two given sources. */
  ghost function Matches(a: Source, b: Source, limit: real): seq<Hit> {
    Ranked(a, b, Eligible(a, b, limit), MATCHES)
  }

  function HitIds(hits: seq<Hit>): set<int> {
    set h | h in hits :: h.id
  }

  ghost predicate Sorted(hits: seq<Hit>) {
    forall i, j :: 0 <= i < j < |hits| ==> Before(hits[i], hits[j])
  }

  /** An independent description: `hits` are the best hits of the first `n` ids of `ids`, in order. */
  ghost predicate IsTop(a: Source, b: Source, ids: set<int>, n: nat, hits: seq<Hit>)
    requires forall id :: id in ids ==> Offers(a, b, id)
  {
    && Sorted(hits) && |hits| <= n
    && (forall h :: h in hits ==> h.id in ids && h == BestHit(a, b, h.id))
    && (forall id :: id in ids && id !in HitIds(hits) ==> |hits| == n && AfterAll(BestHit(a, b, id), hits))
  }

  predicate AfterAll(x: Hit, hits: seq<Hit>) {
    forall h :: h in hits ==> Before(h, x)
  }

  /** Putting the first id in front of a ranking of the others. */
  lemma TopWithFirst(a: Source, b: Source, ids: set<int>, n: nat, x: int, rest: seq<Hit>)
    requires forall id :: id in ids ==> Offers(a, b, id)
    requires n > 0 && IsFirst(a, b, ids, x) && IsTop(a, b, ids - {x}, n - 1, rest)
    ensures IsTop(a, b, ids, n, [BestHit(a, b, x)] + rest)
  {
    hide Best, Before;
    var all := [BestHit(a, b, x)] + rest;
    assert forall h :: h in all <==> h == all[0] || h in rest;
    assert HitIds(all) == {x} + HitIds(rest);
    forall i, j | 0 <= i < j < |all|
      ensures Before(all[i], all[j])
    {
      assert all[j] == rest[j - 1] && all[j] in rest;
    }
  }

  lemma {:induction false} RankedIsTop(a: Source, b: Source, ids: set<int>, n: nat)
    requires forall id :: id in ids ==> Offers(a, b, id)
    ensures IsTop(a, b, ids, n, Ranked(a, b, ids, n))
  {
    hide Best, BestHit;
    if n != 0 && ids != {} {
      FirstExists(a, b, ids);
      var x :| IsFirst(a, b, ids, x) && Ranked(a, b, ids, n) == [BestHit(a, b, x)] + Ranked(a, b, ids - {x}, n - 1);
      hide Ranked, IsTop;
      RankedIsTop(a, b, ids - {x}, n - 1);
      TopWithFirst(a, b, ids, n, x, Ranked(a, b, ids - {x}, n - 1));
    }
  }

  lemma SortedIdsAreDistinct(hits: seq<Hit>)
    requires Sorted(hits)
    ensures |HitIds(hits)| <= |hits|
    decreases |hits|
  {
    if hits != [] {
      var front := hits[..|hits| - 1];
      SortedIdsAreDistinct(front);
      assert HitIds(hits) == HitIds(front) + {hits[|hits| - 1].id};
    } else {
      assert HitIds(hits) == {};
    }
  }

  lemma EmptyTop(a: Source, b: Source, ids: set<int>, n: nat, hits: seq<Hit>)
    requires forall id :: id in ids ==> Offers(a, b, id)
    requires IsTop(a, b, ids, n, hits)
    ensures hits == [] <==> n == 0 || ids == {}
  {
    hide Best;
    if hits == [] && ids != {} {
      var id := Member(ids);
    }
    if hits != [] {
      assert hits[0] in hits;
    }
  }

  /** There is only one such list, so whatever meets the description is the ranking. */
  lemma {:induction false} TopIsUnique(a: Source, b: Source, ids: set<int>, n: nat, s: seq<Hit>, t: seq<Hit>)
    requires forall id :: id in ids ==> Offers(a, b, id)
    requires IsTop(a, b, ids, n, s) && IsTop(a, b, ids, n, t)
    ensures s == t
  {
    hide Best;
    EmptyTop(a, b, ids, n, s);
    EmptyTop(a, b, ids, n, t);
    if s != [] {
      var x, y := s[0], t[0];
      FirstOfTop(a, b, ids, n, s, y.id);
      FirstOfTop(a, b, ids, n, t, x.id);
      assert x == y;
      TopOfRest(a, b, ids, n, s);
      TopOfRest(a, b, ids, n, t);
      TopIsUnique(a, b, ids - {x.id}, n - 1, s[1..], t[1..]);
      assert s == [x] + s[1..] && t == [y] + t[1..];
    }
  }

  lemma FirstOfTop(a: Source, b: Source, ids: set<int>, n: nat, hits: seq<Hit>, id: int)
    requires forall i :: i in ids ==> Offers(a, b, i)
    requires IsTop(a, b, ids, n, hits) && hits != [] && id in ids
    ensures hits[0] == BestHit(a, b, id) || Before(hits[0], BestHit(a, b, id))
  {
    hide Best, Before;
    if id in HitIds(hits) {
      var h :| h in hits && h.id == id;
      var i :| 0 <= i < |hits| && hits[i] == h;
    }
  }

  lemma TopOfRest(a: Source, b: Source, ids: set<int>, n: nat, hits: seq<Hit>)
    requires forall i :: i in ids ==> Offers(a, b, i)
    requires IsTop(a, b, ids, n, hits) && hits != []
    ensures IsTop(a, b, ids - {hits[0].id}, n - 1, hits[1..])
  {
    hide Best, BestHit;
    var rest := hits[1..];
    assert forall h :: h in rest ==> h in hits;
    assert HitIds(hits) == {hits[0].id} + HitIds(rest);
    forall h | h in rest
      ensures h.id != hits[0].id
    {
      var i :| 0 <= i < |rest| && rest[i] == h;
      assert Before(hits[0], hits[i + 1]);
    }
  }

  // ----- the cut -----

  /** `ORDER BY distance LIMIT k`: some `k` nearest rows; ties may be cut either way. */
  ghost predicate IsCut(s: Source, c: Source, k: nat) {
    && c.Keys <= s.Keys && (forall x :: x in c ==> c[x] == s[x])
    && |c| == (if |s| <= k then |s| else k)
    && (forall x, y :: x in c && y in s && y !in c ==> s[x] <= s[y])
  }

  function AtMost(s: Source, d: real): set<int> {
    set x | x in s && s[x] <= d
  }

  /** No cut to `k` rows can lose the row of `id`. */
  predicate SafeIn(s: Source, id: int, k: nat) {
    id in s && |AtMost(s, s[id])| <= k
  }

  lemma SafeRowIsKept(s: Source, c: Source, k: nat, id: int)
    requires IsCut(s, c, k) && SafeIn(s, id, k)
    ensures id in c
  {
    assert |c.Keys| == |c| && |s.Keys| == |s|;
    if id !in c {
      Smaller(c.Keys, s.Keys, id);
      assert forall x :: x in c.Keys ==> x in AtMost(s, s[id]);
      assert c.Keys <= AtMost(s, s[id]);
      Smaller(c.Keys, AtMost(s, s[id]), id);
    }
  }

  lemma Smaller(x: set<int>, y: set<int>, id: int)
    requires x <= y && id in y && id !in x
    ensures |x| < |y|
  {
    SubsetSize(x + {id}, y);
  }

  /** Where the full ranking's distance for `id` comes from a row that every cut keeps. */
  predicate Safe(a: Source, b: Source, id: int, k: nat)
    requires Offers(a, b, id)
  {
    || (SafeIn(a, id, k) && a[id] == Best(a, b, id))
    || (SafeIn(b, id, k) && b[id] == Best(a, b, id))
  }

  /** Cutting first never makes an id nearer. */
  lemma CutsOnlyLose(a: Source, b: Source, ca: Source, cb: Source, k: nat, id: int)
    requires IsCut(a, ca, k) && IsCut(b, cb, k) && Offers(ca, cb, id)
    ensures Offers(a, b, id) && Best(a, b, id) <= Best(ca, cb, id)
  {
  }

  ghost predicate AllSafe(a: Source, b: Source, limit: real, k: nat) {
    forall h :: h in Matches(a, b, limit) ==> Offers(a, b, h.id) && Safe(a, b, h.id, k)
  }

  lemma MatchesAreTop(a: Source, b: Source, limit: real)
    ensures IsTop(a, b, Eligible(a, b, limit), MATCHES, Matches(a, b, limit))
  {
    RankedIsTop(a, b, Eligible(a, b, limit), MATCHES);
  }

  /** `d` is the smaller of the distances `id` has in the two sources. */
  predicate IsNearest(a: Source, b: Source, id: int, d: real) {
    || (id in a && a[id] == d && (id in b ==> d <= b[id]))
    || (id in b && b[id] == d && (id in a ==> d <= a[id]))
  }

  /**
   What a ranking is, said of the sources alone: at most three hits, each an id at its nearest distance within
   the limit, by distance and then id; and every id near enough is among them, or three come before it.
   */
  ghost predicate NearestThree(a: Source, b: Source, limit: real, hits: seq<Hit>) {
    && |hits| <= 3
    && (forall h :: h in hits ==> h.distance <= limit && IsNearest(a, b, h.id, h.distance))
    && (forall i, j :: 0 <= i < j < |hits| ==>
          hits[i].distance < hits[j].distance || (hits[i].distance == hits[j].distance && hits[i].id < hits[j].id))
    && (forall id, d :: IsNearest(a, b, id, d) && d <= limit && Hit(id, d) !in hits ==>
          |hits| == 3 && forall h :: h in hits ==> h.distance < d || (h.distance == d && h.id < id))
  }

  lemma MatchesAreTheNearestThree(a: Source, b: Source, limit: real)
    ensures NearestThree(a, b, limit, Matches(a, b, limit))
  {
    hide Ranked;
    var hits := Matches(a, b, limit);
    MatchesAreTop(a, b, limit);
    hide Matches;
    forall id, d | IsNearest(a, b, id, d) && d <= limit && Hit(id, d) !in hits
      ensures |hits| == 3 && forall h :: h in hits ==> h.distance < d || (h.distance == d && h.id < id)
    {
      assert id in Eligible(a, b, limit) && BestHit(a, b, id) == Hit(id, d);
      assert id !in HitIds(hits);
    }
  }

  lemma FarStaysAfter(x: Hit, y: Hit, z: Hit)
    requires Before(x, y) && y.id == z.id && y.distance <= z.distance
    ensures Before(x, z)
  {
  }

  lemma SafeHitSurvives(a: Source, b: Source, ca: Source, cb: Source, k: nat, id: int)
    requires IsCut(a, ca, k) && IsCut(b, cb, k)
    requires Offers(a, b, id) && Safe(a, b, id, k)
    ensures Offers(ca, cb, id) && Best(ca, cb, id) == Best(a, b, id)
  {
    if SafeIn(a, id, k) && a[id] == Best(a, b, id) { SafeRowIsKept(a, ca, k, id); }
    else { SafeRowIsKept(b, cb, k, id); }
  }

  /** When every match rests on a safe row, the fast form is the simple one, whichever way ties are cut. */
  lemma FastRefinesSimple(a: Source, b: Source, ca: Source, cb: Source, k: nat, limit: real)
    requires IsCut(a, ca, k) && IsCut(b, cb, k) && AllSafe(a, b, limit, k)
    ensures Matches(ca, cb, limit) == Matches(a, b, limit)
  {
    hide Safe, SafeIn, Best, IsCut, Ranked;
    var top := Matches(a, b, limit);
    var cutIds := Eligible(ca, cb, limit);
    MatchesAreTop(a, b, limit);
    MatchesAreTop(ca, cb, limit);
    forall h | h in top
      ensures h.id in cutIds && h == BestHit(ca, cb, h.id)
    {
      SafeHitSurvives(a, b, ca, cb, k, h.id);
    }
    forall id | id in cutIds && id !in HitIds(top)
      ensures |top| == MATCHES && AfterAll(BestHit(ca, cb, id), top)
    {
      CutsOnlyLose(a, b, ca, cb, k, id);
      assert id in Eligible(a, b, limit);
      forall h | h in top
        ensures Before(h, BestHit(ca, cb, id))
      {
        FarStaysAfter(h, BestHit(a, b, id), BestHit(ca, cb, id));
      }
    }
    TopIsUnique(ca, cb, cutIds, MATCHES, Matches(ca, cb, limit), top);
  }

  // ----- the converse: an unsafe match can be lost -----

  lemma {:induction false} FarthestExists(s: Source)
    requires s.Keys != {}
    ensures exists y :: y in s && forall x :: x in s ==> s[x] <= s[y]
    decreases |s|
  {
    var z := Member(s.Keys);
    var rest := s - {z};
    SizeWithout(s, z);
    if |s| == 1 {
      assert rest.Keys == {};
      assert forall x :: x in s ==> x == z || x in rest.Keys;
      assert z in s && forall x :: x in s ==> s[x] <= s[z];
    } else {
      assert rest.Keys != {};
      FarthestExists(rest);
      var y :| y in rest && forall x :: x in rest ==> rest[x] <= rest[y];
      var w := if s[y] <= s[z] then z else y;
      assert forall x :: x in s ==> x == z || x in rest;
      assert w in s && forall x :: x in s ==> s[x] <= s[w];
    }
  }

  lemma SizeWithout(s: Source, y: int)
    requires y in s
    ensures |s - {y}| == |s| - 1
  {
    assert (s - {y}).Keys == s.Keys - {y};
    assert |s.Keys| == |s| && |(s - {y}).Keys| == |s - {y}|;
  }

  lemma {:induction false} CutExists(s: Source, k: nat)
    ensures exists c :: IsCut(s, c, k)
    decreases |s|
  {
    if |s| <= k {
      assert IsCut(s, s, k);
    } else {
      FarthestExists(s);
      var y :| y in s && forall x :: x in s ==> s[x] <= s[y];
      SizeWithout(s, y);
      CutExists(s - {y}, k);
      var c :| IsCut(s - {y}, c, k);
      assert IsCut(s, c, k);
    }
  }

  lemma CutWithout(s: Source, id: int, k: nat)
    requires id in s && !SafeIn(s, id, k)
    ensures exists c :: IsCut(s, c, k) && id !in c
  {
    var rest := s - {id};
    SizeWithout(s, id);
    var near := AtMost(s, s[id]);
    SubsetSize(near, s.Keys);
    assert |s.Keys| == |s|;
    CutExists(rest, k);
    var c :| IsCut(rest, c, k);
    assert |c.Keys| == |c|;
    forall x | x in c
      ensures s[x] <= s[id]
    {
      if s[x] > s[id] {
        forall y | y in near - {id}
          ensures y in c.Keys - {x}
        {
          assert y in rest && rest[y] <= s[id] < rest[x];
        }
        SubsetSize(near - {id}, c.Keys - {x});
      }
    }
    assert IsCut(s, c, k) && id !in c;
  }

  /** A cut of a source that loses `id` wherever it can lose the row the ranking rests on. */
  lemma CutAgainst(s: Source, id: int, d: real, k: nat)
    requires !(id in s && SafeIn(s, id, k) && s[id] == d)
    ensures exists c :: IsCut(s, c, k) && (id in c ==> s[id] != d)
  {
    if id in s && s[id] == d {
      CutWithout(s, id, k);
    } else {
      CutExists(s, k);
    }
  }

  lemma UnsafeMatchCanBeLost(a: Source, b: Source, k: nat, limit: real, h: Hit)
    requires h in Matches(a, b, limit) && Offers(a, b, h.id) && !Safe(a, b, h.id, k)
    ensures exists ca, cb :: IsCut(a, ca, k) && IsCut(b, cb, k) && Matches(ca, cb, limit) != Matches(a, b, limit)
  {
    hide Ranked, SafeIn;
    MatchesAreTop(a, b, limit);
    var d := Best(a, b, h.id);
    CutAgainst(a, h.id, d, k);
    CutAgainst(b, h.id, d, k);
    var ca :| IsCut(a, ca, k) && (h.id in ca ==> a[h.id] != d);
    var cb :| IsCut(b, cb, k) && (h.id in cb ==> b[h.id] != d);
    MatchesAreTop(ca, cb, limit);
    assert !Offers(ca, cb, h.id) || Best(ca, cb, h.id) != d;
  }

  /**
   Exactly when the rebuild may trust its cut: the ranked list is the one over both full sources for
   every way of cutting ties, if and only if each of its matches rests on a row with at most `k` rows
   at its distance or nearer.
   */
  lemma CutIsHarmlessIff(a: Source, b: Source, k: nat, limit: real)
    ensures (forall ca, cb :: IsCut(a, ca, k) && IsCut(b, cb, k) ==> Matches(ca, cb, limit) == Matches(a, b, limit))
            <==> AllSafe(a, b, limit, k)
  {
    hide Safe, IsCut, Matches;
    if AllSafe(a, b, limit, k) {
      forall ca, cb | IsCut(a, ca, k) && IsCut(b, cb, k)
        ensures Matches(ca, cb, limit) == Matches(a, b, limit)
      {
        FastRefinesSimple(a, b, ca, cb, k, limit);
      }
    } else {
      MatchesOffer(a, b, limit);
      var h :| h in Matches(a, b, limit) && !(Offers(a, b, h.id) && Safe(a, b, h.id, k));
      UnsafeMatchCanBeLost(a, b, k, limit, h);
    }
  }

  lemma MatchesOffer(a: Source, b: Source, limit: real)
    ensures forall h :: h in Matches(a, b, limit) ==> Offers(a, b, h.id)
  {
    MatchesAreTop(a, b, limit);
  }

  /** `n` rows, all at one distance. */
  function Tied(n: nat, d: real): Source {
    if n == 0 then map[] else Tied(n - 1, d)[n - 1 := d]
  }

  lemma {:induction false} TiedAreClose(n: nat, d: real)
    ensures forall i :: i in Tied(n, d) <==> 0 <= i < n
    ensures forall i :: i in Tied(n, d) ==> Tied(n, d)[i] == d
    ensures AtMost(Tied(n, d), d) == Tied(n, d).Keys && |Tied(n, d)| == n
  {
    if n > 0 {
      TiedAreClose(n - 1, d);
      assert Tied(n, d).Keys == Tied(n - 1, d).Keys + {n - 1};
      assert |Tied(n, d).Keys| == |Tied(n, d)| && |Tied(n - 1, d).Keys| == |Tied(n - 1, d)|;
    }
  }

  const NO_SOURCE: Source := map[]

  lemma NothingToCut(k: nat)
    ensures IsCut(NO_SOURCE, NO_SOURCE, k)
  {
  }

  /**
   The failing input: one row more than the cut keeps, all at one distance.  One cut keeps the smallest id
   and so matches it, another drops it.  With the 40 candidates of the job that takes 41 rows.
   */
  lemma OneTieTooMany(k: nat, d: real, limit: real)
    requires k >= 1 && d <= limit
    ensures var tied := Tied(k + 1, d);
            IsCut(NO_SOURCE, NO_SOURCE, k)
            && exists c, c' :: IsCut(tied, c, k) && IsCut(tied, c', k)
                               && Matches(c, NO_SOURCE, limit) != Matches(c', NO_SOURCE, limit)
  {
    hide Ranked, Matches, Best;
    var tied := Tied(k + 1, d);
    TiedAreClose(k + 1, d);
    NothingToCut(k);
    CutWithout(tied, 0, k);
    CutWithout(tied, k, k);
    var without :| IsCut(tied, without, k) && 0 !in without;
    var with :| IsCut(tied, with, k) && k !in with;
    KeepsTheRest(tied, with, k, k);
    SmallestTieIsMatched(with, d, limit);
    MatchesAreTop(without, NO_SOURCE, limit);
    assert 0 !in HitIds(Matches(without, NO_SOURCE, limit));
  }

  lemma KeepsTheRest(s: Source, c: Source, k: nat, dropped: int)
    requires IsCut(s, c, k) && |s| == k + 1 && dropped in s && dropped !in c
    ensures c.Keys == s.Keys - {dropped}
  {
    forall x | x in s.Keys - {dropped}
      ensures x in c
    {
      if x !in c {
        SubsetSize(c.Keys, s.Keys - {dropped, x});
      }
    }
  }

  lemma SmallestTieIsMatched(c: Source, d: real, limit: real)
    requires 0 in c && d <= limit && forall x :: x in c ==> x >= 0 && c[x] == d
    ensures 0 in HitIds(Matches(c, NO_SOURCE, limit))
  {
    hide Ranked, Matches;
    var hits := Matches(c, NO_SOURCE, limit);
    MatchesAreTop(c, NO_SOURCE, limit);
    assert Offers(c, NO_SOURCE, 0) && Best(c, NO_SOURCE, 0) == d;
    assert 0 in Eligible(c, NO_SOURCE, limit);
    hide Eligible, IsTop;
    EmptyTop(c, NO_SOURCE, Eligible(c, NO_SOURCE, limit), MATCHES, hits);
    FirstOfTop(c, NO_SOURCE, Eligible(c, NO_SOURCE, limit), MATCHES, hits, 0);
    assert hits[0] in hits;
  }

  predicate NoTies(s: Source) {
    forall x, y :: x in s && y in s && x != y ==> s[x] != s[y]
  }

  lemma FewAreNearer(a: Source, b: Source, limit: real, h: Hit, near: set<int>)
    requires h in Matches(a, b, limit)
    requires forall x :: x in near ==> Offers(a, b, x) && Best(a, b, x) < h.distance
    ensures |near| < MATCHES
  {
    hide Ranked, Best;
    var top := Matches(a, b, limit);
    MatchesAreTop(a, b, limit);
    forall x | x in near
      ensures x in HitIds(top) - {h.id}
    {
      assert x in Eligible(a, b, limit);
      assert !Before(h, BestHit(a, b, x));
    }
    SortedIdsAreDistinct(top);
    SubsetSize(near, HitIds(top) - {h.id});
  }

  lemma NoTiesMeansSafe(s: Source, t: Source, a: Source, b: Source, limit: real, h: Hit, k: nat)
    requires (s, t) == (a, b) || (t, s) == (a, b)
    requires NoTies(s) && k >= MATCHES
    requires h in Matches(a, b, limit) && h.id in s && s[h.id] == h.distance
    ensures SafeIn(s, h.id, k)
  {
    hide Matches;
    var near := AtMost(s, s[h.id]) - {h.id};
    FewAreNearer(a, b, limit, h, near);
    assert AtMost(s, s[h.id]) == near + {h.id};
  }

  /** With three or more candidates and no equal distances inside a source, nothing is ever lost. */
  lemma ThreeCandidatesSuffice(a: Source, b: Source, ca: Source, cb: Source, k: nat, limit: real)
    requires k >= MATCHES && NoTies(a) && NoTies(b)
    requires IsCut(a, ca, k) && IsCut(b, cb, k)
    ensures Matches(ca, cb, limit) == Matches(a, b, limit)
  {
    hide Ranked, SafeIn, NoTies, IsCut;
    MatchesAreTop(a, b, limit);
    forall h | h in Matches(a, b, limit)
      ensures Safe(a, b, h.id, k)
    {
      assert h == BestHit(a, b, h.id);
      if h.id in a && a[h.id] == h.distance { NoTiesMeansSafe(a, b, a, b, limit, h, k); }
      else { NoTiesMeansSafe(b, a, a, b, limit, h, k); }
    }
    FastRefinesSimple(a, b, ca, cb, k, limit);
  }

  // ----- the table -----

  datatype Match = Match(overseas: int, rank: nat, hit: Hit)

  function RankRows(overseas: int, hits: seq<Hit>): seq<Match> {
    seq(|hits|, i requires 0 <= i < |hits| => Match(overseas, i + 1, hits[i]))
  }

  function AllRows(targets: seq<int>, query: int -> seq<Hit>): seq<Match> {
    if targets == [] then [] else AllRows(targets[..|targets| - 1], query)
                                  + RankRows(targets[|targets| - 1], query(targets[|targets| - 1]))
  }

  /** What each overseas spot is offered by the two embedding sources. */
  type Offer = int -> (Source, Source)

  ghost predicate CutsOf(full: Offer, cut: Offer, k: nat) {
    forall o: int :: IsCut(full(o).0, cut(o).0, k) && IsCut(full(o).1, cut(o).1, k)
  }

  /** The query's answer for each overseas spot is the ranking of what the cut left. */
  ghost predicate Ranks(query: int -> seq<Hit>, cut: Offer, limit: real) {
    forall o: int :: query(o) == Matches(cut(o).0, cut(o).1, limit)
  }

  /** `row` stands at its rank in the ranking of its spot's sources. */
  ghost predicate IsRanked(offer: Offer, limit: real, row: Match) {
    var ranking := Matches(offer(row.overseas).0, offer(row.overseas).1, limit);
    1 <= row.rank <= |ranking| && row.hit == ranking[row.rank - 1]
  }

  /** The rows of one overseas spot are its hits, each once at its rank. */
  ghost predicate StoredAs(rows: seq<Match>, overseas: int, hits: seq<Hit>) {
    forall row :: row in rows && row.overseas == overseas <==>
      row.overseas == overseas && 1 <= row.rank <= |hits| && row.hit == hits[row.rank - 1]
  }

  /** Every spot asked for has the three nearest of its sources stored, and no other spot has anything. */
  ghost predicate HoldsNearest(rows: seq<Match>, targets: seq<int>, offer: Offer, limit: real) {
    && (forall row :: row in rows ==> row.overseas in targets)
    && (forall o :: o in targets ==>
          exists hits :: NearestThree(offer(o).0, offer(o).1, limit, hits) && StoredAs(rows, o, hits))
  }

  class MatchTable {
    var rows: seq<Match>

    constructor ()
      ensures rows == []
    {
      rows := [];
    }

    /**
     Delete and refill; `targets` are the overseas spots with an embedding, `query` answers with the ranking
     of what the cut left each of them.
     */
    method Rebuild(targets: seq<int>, query: int -> seq<Hit>, ghost cut: Offer, ghost limit: real)
      returns (matched: nat, empty: nat)
      requires Ranks(query, cut, limit)
      modifies this
      ensures rows == AllRows(targets, query)
      ensures forall row :: row in rows <==> row.overseas in targets && IsRanked(cut, limit, row)
      ensures HoldsNearest(rows, targets, cut, limit)
      ensures matched + empty == |targets|
      ensures matched == |set i: nat | i < |targets| && |Matches(cut(targets[i]).0, cut(targets[i]).1, limit)| == MATCHES|
    {
      hide Matches, IsRanked, Ranks, HoldsNearest;
      rows := [];
      matched, empty := 0, 0;
      var i := 0;
      while i < |targets|
        invariant 0 <= i <= |targets| && rows == AllRows(targets[..i], query) && matched + empty == i
        invariant matched == |set k: nat | k < i && |query(targets[k])| == MATCHES|
      {
        assert targets[..i + 1][..i] == targets[..i];
        assert (set k: nat | k < i + 1 && |query(targets[k])| == MATCHES) ==
               (set k: nat | k < i && |query(targets[k])| == MATCHES)
               + if |query(targets[i])| == MATCHES then {i} else {};
        var hits := query(targets[i]);
        rows := rows + RankRows(targets[i], hits);
        if |hits| == MATCHES {
          matched := matched + 1;
        } else {
          empty := empty + 1;
        }
        i := i + 1;
      }
      assert targets[..i] == targets;
      FullThrees(targets, query, cut, limit);
      AllRowsAreRanked(targets, query, cut, limit);
      RankedRowsHoldNearest(rows, targets, cut, limit);
    }
  }

  lemma RankedRowsHoldNearest(rows: seq<Match>, targets: seq<int>, offer: Offer, limit: real)
    requires forall row :: row in rows <==> row.overseas in targets && IsRanked(offer, limit, row)
    ensures HoldsNearest(rows, targets, offer, limit)
  {
    hide Matches, NearestThree;
    forall o | o in targets
      ensures exists hits :: NearestThree(offer(o).0, offer(o).1, limit, hits) && StoredAs(rows, o, hits)
    {
      MatchesAreTheNearestThree(offer(o).0, offer(o).1, limit);
      assert StoredAs(rows, o, Matches(offer(o).0, offer(o).1, limit));
    }
  }

  lemma AllRowsAreRanked(targets: seq<int>, query: int -> seq<Hit>, cut: Offer, limit: real)
    requires Ranks(query, cut, limit)
    ensures forall row :: row in AllRows(targets, query) <==> row.overseas in targets && IsRanked(cut, limit, row)
  {
    hide Matches, AllRows;
    forall row: Match
      ensures row in AllRows(targets, query) <==> row.overseas in targets && IsRanked(cut, limit, row)
    {
      RowsAreTheRankings(targets, query, row);
      RanksAt(query, cut, limit, row.overseas);
    }
  }

  lemma FullThrees(targets: seq<int>, query: int -> seq<Hit>, cut: Offer, limit: real)
    requires Ranks(query, cut, limit)
    ensures (set k: nat | k < |targets| && |query(targets[k])| == MATCHES)
            == set k: nat | k < |targets| && |Matches(cut(targets[k]).0, cut(targets[k]).1, limit)| == MATCHES
  {
    forall k: nat | k < |targets|
      ensures |query(targets[k])| == |Matches(cut(targets[k]).0, cut(targets[k]).1, limit)|
    {
      RanksAt(query, cut, limit, targets[k]);
    }
  }

  lemma RanksAt(query: int -> seq<Hit>, cut: Offer, limit: real, o: int)
    requires Ranks(query, cut, limit)
    ensures query(o) == Matches(cut(o).0, cut(o).1, limit)
  {
  }

  /** Every stored row carries its place in its spot's ranking, and each place is stored. */
  lemma {:induction false} RowsAreTheRankings(targets: seq<int>, query: int -> seq<Hit>, row: Match)
    ensures row in AllRows(targets, query) <==>
            row.overseas in targets && 1 <= row.rank <= |query(row.overseas)| && row.hit == query(row.overseas)[row.rank - 1]
  {
    if targets != [] {
      var last := targets[|targets| - 1];
      RowsAreTheRankings(targets[..|targets| - 1], query, row);
      assert targets == targets[..|targets| - 1] + [last];
      var ranked := RankRows(last, query(last));
      if row.overseas == last && 1 <= row.rank <= |query(last)| && row.hit == query(last)[row.rank - 1] {
        assert ranked[row.rank - 1] == row;
      }
    }
  }

  /**
   What a rebuild stores: for each overseas spot with an embedding, exactly the rows of the ranking over both
   full sources, with ranks 1 to n and n at most three, provided no match rests on a row a cut could lose.
   */
  lemma StoredMatchesAreTheRankings(full: Offer, cut: Offer, k: nat, limit: real, targets: seq<int>, query: int -> seq<Hit>,
                                    row: Match)
    requires CutsOf(full, cut, k) && Ranks(query, cut, limit)
    requires forall o :: o in targets ==> AllSafe(full(o).0, full(o).1, limit, k)
    ensures row in AllRows(targets, query) <==>
            row.overseas in targets && IsRanked(full, limit, row)
    ensures row in AllRows(targets, query) ==> 1 <= row.rank <= MATCHES
  {
    hide Matches, IsCut, AllRows;
    RowsAreTheRankings(targets, query, row);
    var o := row.overseas;
    if o in targets {
      assert query(o) == Matches(cut(o).0, cut(o).1, limit);
      assert IsCut(full(o).0, cut(o).0, k) && IsCut(full(o).1, cut(o).1, k);
      FastRefinesSimple(full(o).0, full(o).1, cut(o).0, cut(o).1, k, limit);
      MatchesAreTop(full(o).0, full(o).1, limit);
    }
  }

  /** In that case the stored rows are the three nearest of each spot's full sources. */
  lemma StoredMatchesAreTheNearest(full: Offer, cut: Offer, k: nat, limit: real, targets: seq<int>, query: int -> seq<Hit>)
    requires CutsOf(full, cut, k) && Ranks(query, cut, limit)
    requires forall o :: o in targets ==> AllSafe(full(o).0, full(o).1, limit, k)
    ensures HoldsNearest(AllRows(targets, query), targets, full, limit)
  {
    hide *;
    forall row
      ensures row in AllRows(targets, query) <==> row.overseas in targets && IsRanked(full, limit, row)
    {
      StoredMatchesAreTheRankings(full, cut, k, limit, targets, query, row);
    }
    RankedRowsHoldNearest(AllRows(targets, query), targets, full, limit);
  }

  predicate NoRepeats(rows: seq<Match>) {
    forall i, j | 0 <= i < j < |rows| :: rows[i] != rows[j]
  }

  /** No row is stored twice. */
  lemma {:induction false} NoRowTwice(targets: seq<int>, query: int -> seq<Hit>)
    requires forall i, j | 0 <= i < j < |targets| :: targets[i] != targets[j]
    ensures NoRepeats(AllRows(targets, query))
  {
    if targets != [] {
      var front, last := targets[..|targets| - 1], targets[|targets| - 1];
      NoRowTwice(front, query);
      forall row | row in AllRows(front, query)
        ensures row.overseas != last
      {
        RowsAreTheRankings(front, query, row);
      }
      var before, rows := AllRows(front, query), AllRows(targets, query);
      forall i, j | 0 <= i < j < |rows|
        ensures rows[i] != rows[j]
      {
        var ranked := RankRows(last, query(last));
        assert rows == before + ranked;
        if i < |before| <= j {
          assert rows[i] == before[i] && before[i] in before && before[i].overseas != last;
          assert rows[j] == ranked[j - |before|] && rows[j].overseas == last;
        } else if |before| <= i {
          assert rows[i] == ranked[i - |before|] && rows[i].rank == i - |before| + 1;
          assert rows[j] == ranked[j - |before|] && rows[j].rank == j - |before| + 1;
        } else {
          assert rows[i] == before[i] && rows[j] == before[j] && before[i] != before[j];
        }
      }
    }
  }
}
