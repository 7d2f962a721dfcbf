/**
 The overseas feed: rows in shuffled order, a page at a time, each page then rearranged so that one
 country does not follow itself.  The cursor is taken from the page before it is rearranged.
 */
module Posts {
  import opened Wrappers
  import opened Cursor
  import opened Sets

  /** An eligible row under one seed; `key` is its shuffle key. */
  datatype Row = Row(id: nat, country: string, key: real)

  /** `ORDER BY shuffle_key DESC, id DESC`. */
  predicate Above(a: Row, b: Row) {
    b.key < a.key || (b.key == a.key && b.id < a.id)
  }

  predicate After(row: Row, from: Position) {
    from.None? || row.key < from.value.0 || (row.key == from.value.0 && row.id < from.value.1)
  }

  /** What is left to show from a position on. */
  function Remaining(table: set<Row>, from: Position): set<Row> {
    set row | row in table && After(row, from)
  }

  ghost predicate Descending(rows: seq<Row>) {
    forall i, j :: 0 <= i < j < |rows| ==> Above(rows[i], rows[j])
  }

  /** The query's answer: the first `lim` remaining rows, in order. */
  ghost predicate Answers(table: set<Row>, from: Position, lim: nat, rows: seq<Row>) {
    && Descending(rows) && |rows| <= lim
    && (forall i | 0 <= i < |rows| :: rows[i] in Remaining(table, from))
    && (forall row, i | row in Remaining(table, from) && row !in rows && 0 <= i < |rows| :: Above(rows[i], row))
    && (|rows| < lim ==> forall row | row in Remaining(table, from) :: row in rows)
  }

  // ----- spreading countries -----

  /** The first position at or after `j` with another country; the length when there is none. */
  function OtherCountry(rows: seq<Row>, country: string, j: nat): (k: nat)
    requires j <= |rows|
    ensures j <= k <= |rows| && (k < |rows| ==> rows[k].country != country)
    ensures forall m | j <= m < k :: rows[m].country == country
    decreases |rows| - j
  {
    if j == |rows| || rows[j].country != country then j else OtherCountry(rows, country, j + 1)
  }

  function Swapped(rows: seq<Row>, i: nat, j: nat): seq<Row>
    requires i < |rows| && j < |rows|
  {
    rows[i := rows[j]][j := rows[i]]
  }

  /** One turn of the outer loop. */
  function SpreadStep(rows: seq<Row>, i: nat): (r: seq<Row>)
    requires 1 <= i < |rows|
    ensures |r| == |rows|
  {
    var k := OtherCountry(rows, rows[i - 1].country, i + 1);
    if rows[i].country != rows[i - 1].country || k == |rows| then rows else Swapped(rows, i, k)
  }

  function SpreadFrom(rows: seq<Row>, i: nat): seq<Row>
    requires i >= 1
    decreases |rows| - i
  {
    if i >= |rows| then rows else SpreadFrom(SpreadStep(rows, i), i + 1)
  }

  function Spread(rows: seq<Row>): seq<Row> {
    SpreadFrom(rows, 1)
  }

  /** The loops of the code, in place on a copy of the page. */
  method SpreadCountries(items: seq<Row>) returns (spread: seq<Row>)
    ensures spread == Spread(items)
  {
    var out := new Row[|items|](i requires 0 <= i < |items| => items[i]);
    assert out[..] == items;
    var i := 1;
    while i < out.Length
      invariant 1 <= i && out.Length == |items|
      invariant SpreadFrom(out[..], i) == Spread(items)
    {
      SpreadAt(out, i);
      i := i + 1;
    }
    spread := out[..];
  }

  method SpreadAt(out: array<Row>, i: nat)
    requires 1 <= i < out.Length
    modifies out
    ensures out[..] == SpreadStep(old(out[..]), i)
  {
    if out[i].country != out[i - 1].country {
      return;
    }
    var j := i + 1;
    while j < out.Length
      invariant i + 1 <= j <= out.Length && out[..] == old(out[..])
      invariant OtherCountry(out[..], out[i - 1].country, i + 1) == OtherCountry(out[..], out[i - 1].country, j)
    {
      if out[j].country != out[i - 1].country {
        out[i], out[j] := out[j], out[i];
        return;
      }
      j := j + 1;
    }
  }

  /** Where a country follows itself, nothing but that country is left to the end. */
  ghost predicate StuckOnlyAtTheEnd(rows: seq<Row>, upTo: nat) {
    forall k, m | 1 <= k < upTo && k <= m < |rows| && rows[k].country == rows[k - 1].country ::
      rows[m].country == rows[k].country
  }

  lemma SwapIsPermutation(rows: seq<Row>, i: nat, j: nat)
    requires i < |rows| && j < |rows|
    ensures multiset(Swapped(rows, i, j)) == multiset(rows)
  {
  }

  lemma SwapStays(rows: seq<Row>, i: nat, k: nat)
    requires 1 <= i < k < |rows| && StuckOnlyAtTheEnd(rows, i) && rows[k].country != rows[i - 1].country
    ensures StuckOnlyAtTheEnd(Swapped(rows, i, k), i + 1)
  {
    var r := Swapped(rows, i, k);
    forall p | 1 <= p <= i
      ensures r[p].country != r[p - 1].country
    {
      if p < i { NotStuckYet(rows, i, k, p); }
    }
  }

  lemma NotStuckYet(rows: seq<Row>, i: nat, k: nat, p: nat)
    requires 1 <= p < i < k < |rows| && StuckOnlyAtTheEnd(rows, i) && rows[k].country != rows[i - 1].country
    ensures rows[p].country != rows[p - 1].country
  {
  }

  lemma StepStays(rows: seq<Row>, i: nat)
    requires 1 <= i < |rows| && StuckOnlyAtTheEnd(rows, i)
    ensures multiset(SpreadStep(rows, i)) == multiset(rows) && StuckOnlyAtTheEnd(SpreadStep(rows, i), i + 1)
  {
    var k := OtherCountry(rows, rows[i - 1].country, i + 1);
    if rows[i].country != rows[i - 1].country {
      assert SpreadStep(rows, i) == rows;
    } else if k < |rows| {
      hide StuckOnlyAtTheEnd, Swapped;
      SwapIsPermutation(rows, i, k);
      SwapStays(rows, i, k);
    } else {
      assert forall m :: i <= m < |rows| ==> rows[m].country == rows[i].country;
    }
  }

  /** A row of the country before it changes places with the nearest later row of another, if there is one. */
  lemma SpreadStepIsExact(rows: seq<Row>, i: nat, k: nat)
    requires 1 <= i < |rows| && i < k <= |rows|
    requires forall m | i < m < k :: rows[m].country == rows[i - 1].country
    requires k < |rows| ==> rows[k].country != rows[i - 1].country
    ensures SpreadStep(rows, i)
            == if rows[i].country == rows[i - 1].country && k < |rows| then rows[i := rows[k]][k := rows[i]] else rows
  {
    hide Swapped;
    assert OtherCountry(rows, rows[i - 1].country, i + 1) == k;
    assert k < |rows| ==> Swapped(rows, i, k) == rows[i := rows[k]][k := rows[i]] by { SwappedIs(rows, i, k); }
  }

  lemma SwappedIs(rows: seq<Row>, i: nat, k: nat)
    ensures i < |rows| && k < |rows| ==> Swapped(rows, i, k) == rows[i := rows[k]][k := rows[i]]
  {
  }

  lemma {:induction false} SpreadFromStays(rows: seq<Row>, i: nat)
    requires i >= 1 && StuckOnlyAtTheEnd(rows, i)
    ensures var r := SpreadFrom(rows, i); multiset(r) == multiset(rows) && StuckOnlyAtTheEnd(r, |r|)
    decreases |rows| - i
  {
    hide SpreadStep;
    if i < |rows| {
      StepStays(rows, i);
      SpreadFromStays(SpreadStep(rows, i), i + 1);
    }
  }

  /** Spreading only rearranges, and an adjacent pair of one country means only that country is left. */
  lemma SpreadingIsExhaustive(rows: seq<Row>)
    ensures multiset(Spread(rows)) == multiset(rows) && StuckOnlyAtTheEnd(Spread(rows), |rows|)
  {
    SpreadFromStays(rows, 1);
    assert |multiset(Spread(rows))| == |Spread(rows)|;
  }

  // ----- one page -----

  datatype Page = Page(items: seq<Row>, nextCursor: Option<string>, hasMore: bool)

  /** The rows that make the page, before they are rearranged. */
  function PageRows(rows: seq<Row>, limit: nat): seq<Row> {
    if |rows| > limit then rows[..limit] else rows
  }

  ghost predicate AllPrintable(floats: Floats, rows: seq<Row>) {
    forall i | 0 <= i < |rows| :: PrintsFaithfully(floats, rows[i].key)
  }

  /** Every key the query can answer with prints and reads back. */
  ghost predicate Prints(floats: Floats, fetch: (Position, nat) -> seq<Row>) {
    forall from: Position, lim: nat :: AllPrintable(floats, fetch(from, lim))
  }

  /** The page the code makes of the rows the query answered with. */
  ghost function PageOf(floats: Floats, rows: seq<Row>, limit: nat): Page
    requires AllPrintable(floats, rows)
  {
    var next := if |rows| > limit > 0 then Some(EncodeCursor(floats, rows[limit - 1].key, rows[limit - 1].id)) else None;
    Page(Spread(PageRows(rows, limit)), next, |rows| > limit)
  }

  /** `list_posts` for one seed, `fetch` being the page query: a position and a row limit give the rows. */
  method ListPosts(floats: Floats, fetch: (Position, nat) -> seq<Row>, cursor: Option<string>, limit: nat)
    returns (page: Result<Page, string>)
    requires Prints(floats, fetch)
    ensures page == match DecodeCursor(floats, cursor)
                    case Ok(from) => Ok(PageOf(floats, fetch(from, limit + 1), limit))
                    case Err(e) => Err(e)
  {
    hide DecodeCursor, EncodeCursor, Spread;
    var from := DecodeCursor(floats, cursor);
    if from.Err? {
      return Err(from.error);
    }
    var rows := fetch(from.value, limit + 1);
    assert AllPrintable(floats, rows);
    var hasMore := |rows| > limit;
    var shown := PageRows(rows, limit);
    var nextCursor := None;
    if shown != [] && hasMore {
      var tail := shown[|shown| - 1];
      nextCursor := Some(EncodeCursor(floats, tail.key, tail.id));
    }
    var items := SpreadCountries(shown);
    page := Ok(Page(items, nextCursor, hasMore));
  }

  // ----- following the cursors -----

  ghost predicate IdsAreUnique(table: set<Row>) {
    forall a, b | a in table && b in table && a.id == b.id :: a == b
  }

  function RowSet(rows: seq<Row>): set<Row> {
    set row | row in rows
  }

  lemma AfterTail(table: set<Row>, from: Position, limit: nat, rows: seq<Row>)
    requires IdsAreUnique(table) && Answers(table, from, limit + 1, rows) && |rows| > limit > 0
    ensures var tail := rows[limit - 1];
            Remaining(table, Some((tail.key, tail.id))) == Remaining(table, from) - RowSet(rows[..limit])
  {
    var tail := rows[limit - 1];
    var next := Some((tail.key, tail.id));
    var shown := rows[..limit];
    forall row | row in Remaining(table, from) && row !in shown
      ensures row in Remaining(table, next)
    {
      if row in rows {
        assert rows == shown + rows[limit..];
        var i :| 0 <= i < |rows| - limit && rows[limit..][i] == row;
        assert Above(tail, rows[limit + i]);
      } else {
        assert Above(tail, row);
      }
    }
    forall row | row in Remaining(table, next)
      ensures row in Remaining(table, from) && row !in shown
    {
      assert tail in Remaining(table, from) && Above(tail, row);
      assert forall i :: 0 <= i < limit ==> shown[i] == rows[i] && (i < limit - 1 ==> Above(rows[i], tail));
    }
  }

  lemma {:induction false} DescendingRowsAreDistinct(rows: seq<Row>)
    requires Descending(rows)
    ensures multiset(rows) == multiset(RowSet(rows)) && |RowSet(rows)| == |rows|
  {
    if rows != [] {
      var rest := rows[1..];
      assert forall j :: 0 <= j < |rest| ==> rest[j] == rows[j + 1];
      DescendingRowsAreDistinct(rest);
      HeadIsNew(rows);
      hide Descending, RowSet;
      OneMoreRow(rows[0], RowSet(rest));
      assert rows == [rows[0]] + rest;
    }
  }

  lemma HeadIsNew(rows: seq<Row>)
    requires Descending(rows) && rows != []
    ensures rows[0] !in RowSet(rows[1..]) && RowSet(rows) == {rows[0]} + RowSet(rows[1..])
  {
    assert forall j :: 0 < j < |rows| ==> Above(rows[0], rows[j]);
    assert rows == [rows[0]] + rows[1..];
  }

  lemma OneMoreRow(row: Row, others: set<Row>)
    requires row !in others
    ensures multiset({row} + others) == multiset{row} + multiset(others) && |{row} + others| == 1 + |others|
  {
  }

  /** What one page takes, and what it leaves for the position its cursor names. */
  lemma PageTakesItsRows(table: set<Row>, from: Position, limit: nat, rows: seq<Row>)
    requires IdsAreUnique(table) && Answers(table, from, limit + 1, rows) && limit > 0
    ensures var shown := PageRows(rows, limit);
            && multiset(Spread(shown)) == multiset(RowSet(shown)) && |RowSet(shown)| == |shown|
            && RowSet(shown) <= Remaining(table, from)
            && (|rows| <= limit ==> RowSet(shown) == Remaining(table, from))
            && (|rows| > limit ==> Remaining(table, Some((rows[limit - 1].key, rows[limit - 1].id)))
                                   == Remaining(table, from) - RowSet(shown))
  {
    hide Spread, Remaining;
    var shown := PageRows(rows, limit);
    SpreadingIsExhaustive(shown);
    DescendingRowsAreDistinct(shown);
    if |rows| > limit { AfterTail(table, from, limit, rows); }
    assert forall row | row in shown :: row in rows;
  }

  /**
   Pages fetched one after another, each with a limit of the caller's choice and the cursor of the page
   before it.
   */
  ghost predicate Follows(floats: Floats, fetch: (Position, nat) -> seq<Row>, cursor: Option<string>, limits: seq<nat>,
                          pages: seq<Page>)
    requires Prints(floats, fetch)
    decreases |pages|
  {
    && |pages| == |limits| >= 1 && limits[0] >= 1
    && DecodeCursor(floats, cursor).Ok?
    && pages[0] == PageOf(floats, fetch(DecodeCursor(floats, cursor).value, limits[0] + 1), limits[0])
    && (|pages| > 1 ==> pages[0].nextCursor.Some? && Follows(floats, fetch, pages[0].nextCursor, limits[1..], pages[1..]))
  }

  function AllItems(pages: seq<Page>): seq<Row> {
    if pages == [] then [] else pages[0].items + AllItems(pages[1..])
  }

  ghost predicate QueryOf(floats: Floats, table: set<Row>, fetch: (Position, nat) -> seq<Row>) {
    Prints(floats, fetch) && forall from: Position, lim: nat :: Answers(table, from, lim, fetch(from, lim))
  }

  lemma SplitRows(rest: set<Row>, taken: set<Row>)
    requires taken <= rest
    ensures multiset(rest) == multiset(taken) + multiset(rest - taken) && |rest| == |taken| + |rest - taken|
  {
    assert rest == taken + (rest - taken);
  }

  /** A page with a cursor leaves something, and exactly what it did not show; a page without shows all. */
  lemma OnePage(floats: Floats, table: set<Row>, from: Position, limit: nat, rows: seq<Row>)
    requires IdsAreUnique(table) && limit >= 1 && Answers(table, from, limit + 1, rows) && AllPrintable(floats, rows)
    ensures var page, rest := PageOf(floats, rows, limit), Remaining(table, from);
            if page.nextCursor.None? then multiset(page.items) == multiset(rest)
            else
              DecodeCursor(floats, page.nextCursor).Ok?
              && var left := Remaining(table, DecodeCursor(floats, page.nextCursor).value);
              multiset(rest) == multiset(page.items) + multiset(left) && |rest| > |left| > 0
  {
    var shown, rest := PageRows(rows, limit), Remaining(table, from);
    if |rows| > limit {
      CursorRoundTrip(floats, rows[limit - 1].key, rows[limit - 1].id);
      assert rows[limit] in rest;
      LastIsNotShown(rows, limit);
    }
    hide Remaining, DecodeCursor, EncodeCursor, Spread, RowSet;
    PageTakesItsRows(table, from, limit, rows);
    hide Answers, PageRows;
    SplitRows(rest, RowSet(shown));
    if |rows| > limit {
      assert rows[limit] in rest - RowSet(shown);
      assert |shown| == limit;
    }
  }

  /** There is more exactly when more rows remain than fit the page, and then there is a cursor unless nothing fits. */
  lemma HasMoreIff(floats: Floats, table: set<Row>, from: Position, limit: nat, rows: seq<Row>)
    requires Answers(table, from, limit + 1, rows) && AllPrintable(floats, rows)
    ensures var page := PageOf(floats, rows, limit);
            && (page.hasMore <==> |Remaining(table, from)| > limit)
            && (page.nextCursor.Some? <==> page.hasMore && limit > 0)
            && |page.items| == if page.hasMore then limit else |Remaining(table, from)|
  {
    hide Remaining, EncodeCursor;
    DescendingRowsAreDistinct(rows);
    assert RowSet(rows) <= Remaining(table, from);
    SubsetSize(RowSet(rows), Remaining(table, from));
    if |rows| <= limit {
      assert Remaining(table, from) <= RowSet(rows);
      SubsetSize(Remaining(table, from), RowSet(rows));
    }
    SpreadingIsExhaustive(PageRows(rows, limit));
    assert |multiset(Spread(PageRows(rows, limit)))| == |multiset(PageRows(rows, limit))|;
    hide Spread;
  }

  lemma LastIsNotShown(rows: seq<Row>, limit: nat)
    requires Descending(rows) && limit < |rows|
    ensures rows[limit] !in RowSet(PageRows(rows, limit)) && |PageRows(rows, limit)| == limit
  {
  }

  lemma FirstPage(floats: Floats, table: set<Row>, fetch: (Position, nat) -> seq<Row>, cursor: Option<string>,
                  limits: seq<nat>, pages: seq<Page>)
    requires IdsAreUnique(table) && QueryOf(floats, table, fetch) && Follows(floats, fetch, cursor, limits, pages)
    ensures |pages| == |limits| >= 1 && DecodeCursor(floats, cursor).Ok?
    ensures var rest, next := Remaining(table, DecodeCursor(floats, cursor).value), pages[0].nextCursor;
            if next.None? then multiset(pages[0].items) == multiset(rest) && |pages| == 1
            else
              DecodeCursor(floats, next).Ok?
              && var left := Remaining(table, DecodeCursor(floats, next).value);
              multiset(rest) == multiset(pages[0].items) + multiset(left) && |rest| > |left| > 0
    ensures |pages| > 1 ==> Follows(floats, fetch, pages[0].nextCursor, limits[1..], pages[1..])
  {
    var from := DecodeCursor(floats, cursor).value;
    var rows := fetch(from, limits[0] + 1);
    assert Answers(table, from, limits[0] + 1, rows) && AllPrintable(floats, rows);
    hide Remaining, Answers, DecodeCursor, EncodeCursor, Spread, PageOf, IdsAreUnique, AllPrintable;
    OnePage(floats, table, from, limits[0], rows);
  }

  /** Until the last page nothing is shown twice, and by the page without a cursor everything was shown. */
  lemma {:induction false} PagesShowTheRest(floats: Floats, table: set<Row>, fetch: (Position, nat) -> seq<Row>,
                                            cursor: Option<string>, limits: seq<nat>, pages: seq<Page>)
    requires IdsAreUnique(table) && QueryOf(floats, table, fetch) && Follows(floats, fetch, cursor, limits, pages)
    ensures var rest, last := Remaining(table, DecodeCursor(floats, cursor).value), pages[|pages| - 1];
            if last.nextCursor.None? then multiset(AllItems(pages)) == multiset(rest)
            else multiset(AllItems(pages)) <= multiset(rest) && DecodeCursor(floats, last.nextCursor).Ok?
    decreases |pages|
  {
    hide *;
    FirstPage(floats, table, fetch, cursor, limits, pages);
    FirstThenRest(pages);
    if |pages| > 1 {
      PagesShowTheRest(floats, table, fetch, pages[0].nextCursor, limits[1..], pages[1..]);
      assert pages[1..][|pages| - 2] == pages[|pages| - 1];
      AddToBoth(multiset(pages[0].items), multiset(AllItems(pages[1..])),
                multiset(Remaining(table, DecodeCursor(floats, pages[0].nextCursor).value)));
    } else {
      assert multiset(AllItems(pages)) == multiset(pages[0].items);
    }
  }

  lemma AddToBoth(first: multiset<Row>, shown: multiset<Row>, left: multiset<Row>)
    ensures shown == left ==> first + shown == first + left
    ensures shown <= left ==> first + shown <= first + left
  {
  }

  /** Every page but an only one shows something, so there are at most as many pages as rows. */
  lemma {:induction false} PagesAreFew(floats: Floats, table: set<Row>, fetch: (Position, nat) -> seq<Row>,
                                       cursor: Option<string>, limits: seq<nat>, pages: seq<Page>)
    requires IdsAreUnique(table) && QueryOf(floats, table, fetch) && Follows(floats, fetch, cursor, limits, pages)
    ensures var rest := Remaining(table, DecodeCursor(floats, cursor).value);
            (|pages| <= |rest| || |pages| == 1) && (pages[|pages| - 1].nextCursor.Some? ==> |pages| < |rest|)
    decreases |pages|
  {
    hide *;
    FirstPage(floats, table, fetch, cursor, limits, pages);
    if |pages| > 1 {
      PagesAreFew(floats, table, fetch, pages[0].nextCursor, limits[1..], pages[1..]);
      assert pages[1..][|pages| - 2] == pages[|pages| - 1];
    }
  }

  /**
   Following the cursors shows every remaining row exactly once by the page that has no cursor, which comes
   after at most as many pages as there are rows; until then nothing is shown twice and the cursor decodes.
   */
  lemma PagesPartitionTheRest(floats: Floats, table: set<Row>, fetch: (Position, nat) -> seq<Row>,
                              cursor: Option<string>, limits: seq<nat>, pages: seq<Page>)
    requires IdsAreUnique(table) && QueryOf(floats, table, fetch) && Follows(floats, fetch, cursor, limits, pages)
    ensures var rest, last := Remaining(table, DecodeCursor(floats, cursor).value), pages[|pages| - 1];
            && (last.nextCursor.None? ==> multiset(AllItems(pages)) == multiset(rest))
            && (last.nextCursor.Some? ==> multiset(AllItems(pages)) <= multiset(rest)
                                          && |pages| < |rest| && DecodeCursor(floats, last.nextCursor).Ok?)
            && (|pages| <= |rest| || |pages| == 1)
  {
    hide *;
    FirstPage(floats, table, fetch, cursor, limits, pages);
    PagesShowTheRest(floats, table, fetch, cursor, limits, pages);
    PagesAreFew(floats, table, fetch, cursor, limits, pages);
  }

  lemma FirstThenRest(pages: seq<Page>)
    requires pages != []
    ensures multiset(AllItems(pages)) == multiset(pages[0].items) + multiset(AllItems(pages[1..]))
    ensures |pages| == 1 ==> multiset(AllItems(pages)) == multiset(pages[0].items)
  {
  }

  lemma EverythingRemains(table: set<Row>)
    ensures Remaining(table, None) == table
  {
  }

  /** From the first page on: every eligible row, exactly once, whatever the limits. */
  lemma EveryPostIsShownOnce(floats: Floats, table: set<Row>, fetch: (Position, nat) -> seq<Row>, limits: seq<nat>,
                             pages: seq<Page>)
    requires IdsAreUnique(table) && QueryOf(floats, table, fetch) && Follows(floats, fetch, None, limits, pages)
    ensures pages[|pages| - 1].nextCursor.None? ==> multiset(AllItems(pages)) == multiset(table)
    ensures multiset(AllItems(pages)) <= multiset(table) && (|pages| <= |table| || |pages| == 1)
    ensures |pages| >= |table| ==> pages[|pages| - 1].nextCursor.None?
  {
    PagesPartitionTheRest(floats, table, fetch, None, limits, pages);
    EverythingRemains(table);
  }
}
