/**
 Paging through one listing.  The service answers each page request with items and its idea of the
 total, or fails; nothing else is assumed of it, except where a lemma says so.
 */
module PageLoop {
  import opened Wrappers
  import opened SpotTable

  const MAX_PAGES := 1000
  const PAGE_ROWS := 100

  datatype Reply = Page(items: seq<Spot>, total: int) | Failed

  /** What the service answers to each page number of one listing. */
  type Server = nat -> Reply

  datatype End = Complete | Truncated | ServiceFailed

  datatype Fetched = Fetched(end: End, items: seq<Spot>, calls: nat)

  /** The items received from page `page` on, `got` of them having come before, and how it ended. */
  function Loop(server: Server, page: nat, got: nat, total: int): (f: Fetched)
    ensures page <= MAX_PAGES + 1 ==> f.calls <= MAX_PAGES + 1 - page
    decreases MAX_PAGES + 1 - page
  {
    if page > MAX_PAGES then Fetched(Truncated, [], 0)
    else match server(page)
         case Failed => Fetched(ServiceFailed, [], 0)
         case Page(items, pageTotal) =>
           var expected := if page == 1 then pageTotal else total;
           if items == [] then
             Fetched(if got < expected then Truncated else Complete, [], 1)
           else if expected != 0 && got + |items| >= expected then
             Fetched(Complete, items, 1)
           else
             Resume(items, 1, Loop(server, page + 1, got + |items|, expected))
  }

  function Listing(server: Server): (f: Fetched)
    ensures f.calls <= MAX_PAGES
  {
    Loop(server, 1, 0, 0)
  }

  /** A fetch continued by another one. */
  function Resume(got: seq<Spot>, calls: nat, f: Fetched): Fetched {
    Fetched(f.end, got + f.items, calls + f.calls)
  }

  lemma ResumeFromNothing(f: Fetched)
    ensures Resume([], 0, f) == f
  {
  }

  lemma ResumeToEnd(got: seq<Spot>, calls: nat, end: End, n: nat)
    ensures Resume(got, calls, Fetched(end, [], n)) == Fetched(end, got, calls + n)
  {
  }

  lemma ResumeTwice(got: seq<Spot>, calls: nat, items: seq<Spot>, n: nat, f: Fetched)
    ensures Resume(got, calls, Resume(items, n, f)) == Resume(got + items, calls + n, f)
  {
    assert got + (items + f.items) == (got + items) + f.items;
  }

  lemma {:induction false} LoopReachesTotal(server: Server, page: nat, got: nat, total: int)
    requires page > 1 && Loop(server, page, got, total).end == Complete
    ensures got + |Loop(server, page, got, total).items| >= total
    decreases MAX_PAGES + 1 - page
  {
    if server(page).items != [] && !(total != 0 && got + |server(page).items| >= total) {
      LoopReachesTotal(server, page + 1, got + |server(page).items|, total);
    }
  }

  /** A listing that ends normally has received at least the total its first page announced. */
  lemma CompleteListingReachesItsTotal(server: Server)
    requires Listing(server).end == Complete
    ensures server(1).Page? && |Listing(server).items| >= server(1).total
  {
    var first := server(1);
    if first.items != [] && !(first.total != 0 && |first.items| >= first.total) {
      LoopReachesTotal(server, 2, |first.items|, first.total);
    }
  }

  /** The items of pages `from` to `to`, both included. */
  function PagesOf(server: Server, from: nat, to: nat): seq<Spot>
    decreases to + 1 - from
  {
    if from > to then []
    else (if server(from).Page? then server(from).items else []) + PagesOf(server, from + 1, to)
  }

  ghost predicate Reaches(received: nat, total: int) {
    total != 0 && received >= total
  }

  /**
   Pages `from` to `n` arrived with items and all but perhaps the last left the listing short of `total`; what
   follows page `n` is the reason it ended, `got` items having come before.  Requests that were answered are counted.
   */
  ghost predicate StopsAfter(server: Server, from: nat, n: nat, got: nat, total: int, f: Fetched)
    requires from <= n + 1
  {
    && n <= MAX_PAGES && f.items == PagesOf(server, from, n)
    && (forall p: nat | from <= p <= n :: server(p).Page? && server(p).items != [])
    && (forall p: nat | from <= p < n :: !Reaches(got + |PagesOf(server, from, p)|, total))
    && var received, pages := got + |PagesOf(server, from, n)|, n + 1 - from;
       if from <= n && Reaches(received, total) then f.end == Complete && f.calls == pages
       else if n == MAX_PAGES then f.end == Truncated && f.calls == pages
       else match server(n + 1)
            case Failed => f.end == ServiceFailed && f.calls == pages
            case Page(items, _) =>
              items == [] && f.calls == pages + 1 && f.end == if received < total then Truncated else Complete
  }

  lemma {:induction false} LoopStops(server: Server, page: nat, got: nat, total: int) returns (n: nat)
    requires 1 < page <= MAX_PAGES + 1
    ensures page <= n + 1
    ensures StopsAfter(server, page, n, got, total, Loop(server, page, got, total))
    decreases MAX_PAGES + 1 - page
  {
    if page > MAX_PAGES || server(page).Failed? || server(page).items == [] {
      n := page - 1;
    } else {
      var items := server(page).items;
      if Reaches(got + |items|, total) {
        n := page;
        assert PagesOf(server, page, page) == items + PagesOf(server, page + 1, page);
      } else {
        n := LoopStops(server, page + 1, got + |items|, total);
        OnePageEarlier(server, page, n, got, total, Loop(server, page + 1, got + |items|, total));
      }
    }
  }

  lemma OnePageEarlier(server: Server, page: nat, n: nat, got: nat, total: int, f: Fetched)
    requires page + 1 <= n + 1 && server(page).Page? && server(page).items != []
    requires !Reaches(got + |server(page).items|, total)
    requires StopsAfter(server, page + 1, n, got + |server(page).items|, total, f)
    ensures StopsAfter(server, page, n, got, total, Resume(server(page).items, 1, f))
  {
    hide Reaches;
    forall p: nat | page <= p <= n
      ensures |PagesOf(server, page, p)| == |server(page).items| + |PagesOf(server, page + 1, p)|
    {
    }
    assert PagesOf(server, page + 1, page) == [];
  }

  /**
   Whatever the service answers, a listing is the items of its first pages, in order, and ends for the reason the
   page after them gives: enough received, an empty page, a failed request, or one page too many.
   */
  lemma ListingStops(server: Server) returns (n: nat)
    ensures var total := if server(1).Page? then server(1).total else 0;
            StopsAfter(server, 1, n, 0, total, Listing(server))
  {
    if server(1).Failed? || server(1).items == [] {
      n := 0;
    } else {
      var items, total := server(1).items, server(1).total;
      if Reaches(|items|, total) {
        n := 1;
        assert PagesOf(server, 1, 1) == items + PagesOf(server, 2, 1);
      } else {
        n := LoopStops(server, 2, |items|, total);
        OnePageEarlier(server, 1, n, 0, total, Loop(server, 2, |items|, total));
      }
    }
  }

  // ----- a service that slices one fixed list -----

  function Min(a: int, b: int): int {
    if a < b then a else b
  }

  function Slice(list: seq<Spot>, page: nat): seq<Spot>
    requires page >= 1
  {
    list[Min((page - 1) * PAGE_ROWS, |list|)..Min(page * PAGE_ROWS, |list|)]
  }

  /** Every page the service manages to answer is its slice of `list`. */
  ghost predicate SlicesOrFails(server: Server, list: seq<Spot>) {
    forall page: nat :: page >= 1 && server(page).Page? ==> server(page) == Page(Slice(list, page), |list|)
  }

  ghost predicate AnswersEveryPage(server: Server) {
    forall page: nat :: page >= 1 ==> server(page).Page?
  }

  lemma SliceIsNext(list: seq<Spot>, page: nat)
    requires 1 <= page && (page == 1 || (page - 1) * PAGE_ROWS < |list|)
    ensures var got := (page - 1) * PAGE_ROWS;
            if page * PAGE_ROWS < |list| then
              |Slice(list, page)| == PAGE_ROWS && list[got..] == Slice(list, page) + list[page * PAGE_ROWS..]
            else Slice(list, page) == list[got..] && (Slice(list, page) == [] <==> list == [])
  {
  }

  lemma {:induction false} SlicedLoop(server: Server, list: seq<Spot>, page: nat)
    requires SlicesOrFails(server, list)
    requires 1 <= page && (page == 1 || (page - 1) * PAGE_ROWS < |list|)
    ensures var got := (page - 1) * PAGE_ROWS;
            var f := Loop(server, page, got, if page == 1 then 0 else |list|);
            && f.items <= list[got..]
            && (f.end == Complete ==> f.items == list[got..] && |list| <= MAX_PAGES * PAGE_ROWS)
            && (f.end == Truncated ==> |list| > MAX_PAGES * PAGE_ROWS)
            && (f.end == ServiceFailed ==> !AnswersEveryPage(server))
    decreases MAX_PAGES + 1 - page
  {
    if page <= MAX_PAGES && server(page).Page? {
      SliceIsNext(list, page);
      assert server(page) == Page(Slice(list, page), |list|);
      hide Slice;
      if page * PAGE_ROWS < |list| {
        SlicedLoop(server, list, page + 1);
      }
    }
  }

  /**
   Against a service that slices one fixed list, a normal return has received exactly that list, any
   other end a prefix of it; and if no request fails, the loop ends normally exactly when the list
   fits the page limit.
   */
  lemma SlicedListing(server: Server, list: seq<Spot>)
    requires SlicesOrFails(server, list)
    ensures Listing(server).items <= list
    ensures Listing(server).end == Complete ==> Listing(server).items == list
    ensures AnswersEveryPage(server) ==>
              (Listing(server).end == Complete <==> |list| <= MAX_PAGES * PAGE_ROWS)
  {
    SlicedLoop(server, list, 1);
    assert list[0..] == list;
  }

  /** A service that answers every page request with its slice of `list`. */
  function Slicer(list: seq<Spot>): Server {
    page => if page >= 1 then Page(Slice(list, page), |list|) else Failed
  }

  /** One item too many: a listing of 100001 items that is answered on every page still ends in an error. */
  lemma OneItemTooMany(s: Spot)
    ensures var list := seq(MAX_PAGES * PAGE_ROWS + 1, _ => s);
            Listing(Slicer(list)).end == Truncated
  {
    var list := seq(MAX_PAGES * PAGE_ROWS + 1, _ => s);
    hide Slice;
    SlicedLoop(Slicer(list), list, 1);
  }
}
