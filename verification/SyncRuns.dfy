/**
 One run of the sync (listing, upserting, hiding, recording) as imperative code over the spots and audit
 tables, proved equal to a function of the tables, the plan and the service's answers.
 */
module SyncRuns {
  import opened Wrappers
  import opened Digits
  import opened Calendar
  import opened SyncPlan
  import opened SpotTable
  import opened PageLoop

  datatype Mode = Incremental | Full

  datatype Status = Running | Success | Errored

  datatype Tally = Tally(calls: nat, fetched: nat, inserted: nat, updated: nat, softDeleted: nat, skipped: nat)

  const ZERO := Tally(0, 0, 0, 0, 0, 0)

  datatype RunRecord = RunRecord(mode: Mode, status: Status, from: Option<string>, to: Option<string>, tally: Tally)

  function AddBatch(c: Tally, calls: nat, os: seq<Outcome>): Tally {
    Tally(c.calls + calls, c.fetched + |os|, c.inserted + Count(os, Inserted), c.updated + Count(os, Updated),
          c.softDeleted + Count(os, SoftDeleted), c.skipped + Count(os, Skipped))
  }

  lemma AddBatchConcat(c: Tally, a: seq<Outcome>, b: seq<Outcome>, n: nat, m: nat)
    ensures AddBatch(AddBatch(c, n, a), m, b) == AddBatch(c, n + m, a + b)
  {
    CountConcat(a, b, Inserted);
    CountConcat(a, b, Updated);
    CountConcat(a, b, SoftDeleted);
    CountConcat(a, b, Skipped);
  }

  /** What one more batch does to rows, counters, seen ids and the running maximum. */
  lemma OneMoreBatch(t: Table, start: Tally, got: seq<Spot>, batch: seq<Spot>, n: nat, m: nat)
    ensures UpsertAll(UpsertAll(t, got), batch) == UpsertAll(t, got + batch)
    ensures AddBatch(AddBatch(start, n, Outcomes(t, got)), m, Outcomes(UpsertAll(t, got), batch))
            == AddBatch(start, n + m, Outcomes(t, got + batch))
    ensures Newest(Newest(None, got), batch) == Newest(None, got + batch)
    ensures Ids(got) + Ids(batch) == Ids(got + batch)
  {
    UpsertAllConcat(t, got, batch);
    OutcomesConcat(t, got, batch);
    AddBatchConcat(start, Outcomes(t, got), Outcomes(UpsertAll(t, got), batch), n, m);
    NewestConcat(None, got, batch);
  }

  lemma AnotherCall(c: Tally, t: Table)
    ensures AddBatch(c, 1, Outcomes(t, [])) == c.(calls := c.calls + 1)
  {
  }

  lemma NothingYet(t: Table, start: Tally)
    ensures UpsertAll(t, []) == t && Newest(None, []) == None && Ids([]) == {}
    ensures AddBatch(start, 0, Outcomes(t, [])) == start
  {
  }

  function CountOutcome(c: Tally, o: Outcome): Tally {
    match o
    case Inserted => c.(fetched := c.fetched + 1, inserted := c.inserted + 1)
    case Updated => c.(fetched := c.fetched + 1, updated := c.updated + 1)
    case SoftDeleted => c.(fetched := c.fetched + 1, softDeleted := c.softDeleted + 1)
    case Skipped => c.(fetched := c.fetched + 1, skipped := c.skipped + 1)
  }

  lemma NextSpot(t: Table, start: Tally, spots: seq<Spot>, i: nat)
    requires i < |spots|
    ensures var before := UpsertAll(t, spots[..i]);
            && UpsertAll(t, spots[..i + 1]) == Upsert(before, spots[i])
            && AddBatch(start, 0, Outcomes(t, spots[..i + 1]))
               == CountOutcome(AddBatch(start, 0, Outcomes(t, spots[..i])), OutcomeOf(before, spots[i]))
  {
    hide Upsert, OutcomeOf;
    assert spots[..i + 1][..i] == spots[..i];
  }

  // ----- the specification of one run -----

  /** How the service answers each query during one run. */
  type Service = Query -> Server

  function FetchAll(service: Service, plan: seq<Query>): Fetched {
    if plan == [] then Fetched(Complete, [], 0)
    else
      var f := Listing(service(plan[0]));
      if f.end != Complete then f
      else
        Resume(f.items, f.calls, FetchAll(service, plan[1..]))
  }

  lemma FetchSplit(service: Service, plan: seq<Query>, i: nat)
    requires i < |plan|
    ensures var f := Listing(service(plan[i]));
            FetchAll(service, plan[i..]) ==
            if f.end != Complete then f else Resume(f.items, f.calls, FetchAll(service, plan[i + 1..]))
  {
    assert plan[i..][1..] == plan[i + 1..];
  }

  datatype Store = Store(rows: Table, runs: seq<RunRecord>)

  function RunOn(s: Store, mode: Mode, plan: seq<Query>, service: Service, from: Option<string>): Store {
    var f := FetchAll(service, plan);
    var rows := UpsertAll(s.rows, f.items);
    var seen := Ids(f.items);
    var failed := RunRecord(mode, Errored, None, None, ZERO);
    if f.end != Complete then Store(rows, s.runs + [failed])
    else
      var tally := AddBatch(ZERO, f.calls, Outcomes(s.rows, f.items));
      var to := AdvancedWatermark(from, Newest(None, f.items), plan);
      if mode == Full && seen != {} then
        if SeesTooFew(rows, seen) then Store(rows, s.runs + [failed])
        else
          var hidden := |Visible(rows) - seen|;
          Store(HideUnseen(rows, seen),
                s.runs + [RunRecord(mode, Success, from, to, tally.(softDeleted := tally.softDeleted + hidden))])
      else Store(rows, s.runs + [RunRecord(mode, Success, from, to, tally)])
  }

  /** `last_success_watermark`: the greatest text among the recorded ones. */
  function LastWatermark(runs: seq<RunRecord>): Option<string> {
    if runs == [] then None
    else
      var before := LastWatermark(runs[..|runs| - 1]);
      var run := runs[|runs| - 1];
      if run.status != Success || run.to.None? then before
      else if before.None? then run.to
      else Some(MaxText(before.value, run.to.value))
  }

  // ----- the imperative run -----

  /** The tables and in-flight counters of the pipeline. */
  class Pipeline {
    var rows: Table
    var runs: seq<RunRecord>
    var counters: Tally
    var seen: set<string>

    constructor ()
      ensures rows == map[] && runs == []
    {
      rows, runs, counters, seen := map[], [], ZERO, {};
    }

    ghost function View(): Store
      reads this
    {
      Store(rows, runs)
    }

    method UpsertSpots(spots: seq<Spot>)
      modifies this`rows, this`counters
      ensures rows == UpsertAll(old(rows), spots)
      ensures counters == AddBatch(old(counters), 0, Outcomes(old(rows), spots)).(fetched := old(counters).fetched)
    {
      hide Overwrites, UpsertAll, Outcomes, AddBatch;
      NothingYet(rows, counters);
      assert spots[..0] == [];
      var i := 0;
      while i < |spots|
        invariant 0 <= i <= |spots|
        invariant rows == UpsertAll(old(rows), spots[..i])
        invariant counters ==
                  AddBatch(old(counters), 0, Outcomes(old(rows), spots[..i])).(fetched := old(counters).fetched)
      {
        var spot := spots[i];
        NextSpot(old(rows), old(counters), spots, i);
        if !Writes(rows, spot) {
          counters := counters.(skipped := counters.skipped + 1);
        } else {
          if spot.show == 0 {
            counters := counters.(softDeleted := counters.softDeleted + 1);
          } else if spot.id !in rows {
            counters := counters.(inserted := counters.inserted + 1);
          } else {
            counters := counters.(updated := counters.updated + 1);
          }
          rows := rows[spot.id := spot];
        }
        i := i + 1;
      }
      assert spots[..i] == spots;
    }

    method SoftDeleteUnseen() returns (r: Result<nat, ()>)
      modifies this`rows
      ensures r.Err? <==> SeesTooFew(old(rows), seen)
      ensures r.Err? ==> rows == old(rows)
      ensures r.Ok? ==> rows == HideUnseen(old(rows), seen) && r.value == |Visible(old(rows)) - seen|
    {
      var visible := Visible(rows);
      if visible != {} && 2 * |seen| < |visible| {
        return Err(());
      }
      rows := HideUnseen(rows, seen);
      r := Ok(|visible - seen|);
    }

    /** The body of the page loop once a page with items has arrived. */
    method TakePage(items: seq<Spot>, ghost start: Tally, ghost t: Table, ghost got: seq<Spot>, ghost pages: nat)
      requires rows == UpsertAll(t, got) && counters == AddBatch(start, pages, Outcomes(t, got))
      modifies this`rows, this`counters, this`seen
      ensures rows == UpsertAll(t, got + items)
      ensures counters == AddBatch(start, pages + 1, Outcomes(t, got + items))
      ensures seen == old(seen) + Ids(items)
    {
      hide UpsertAll, Outcomes, Count, Ids;
      ghost var before := counters;
      counters := counters.(calls := counters.calls + 1, fetched := counters.fetched + |items|);
      OneMoreBatch(t, start, got, items, pages, 1);
      UpsertSpots(items);
      assert counters == AddBatch(before, 1, Outcomes(UpsertAll(t, got), items));
      seen := seen + Ids(items);
    }

    method SyncOneDate(server: Server) returns (r: Result<Option<Moment>, End>)
      modifies this`rows, this`counters, this`seen
      ensures var f := Listing(server);
              && rows == UpsertAll(old(rows), f.items)
              && seen == old(seen) + Ids(f.items)
              && counters == AddBatch(old(counters), f.calls, Outcomes(old(rows), f.items))
              && (if f.end == Complete then r == Ok(Newest(None, f.items)) else r == Err(f.end))
    {
      hide UpsertAll, Outcomes, Newest, Ids, AddBatch, Resume;
      var maxSeen: Option<Moment> := None;
      var page, fetched, total := 1, 0, 0;
      ghost var got: seq<Spot> := [];
      ghost var whole := Listing(server);
      NothingYet(rows, counters);
      ResumeFromNothing(whole);
      while true
        invariant 1 <= page <= MAX_PAGES + 1 && fetched == |got|
        invariant whole == Resume(got, page - 1, Loop(server, page, fetched, total))
        invariant rows == UpsertAll(old(rows), got) && seen == old(seen) + Ids(got)
        invariant counters == AddBatch(old(counters), page - 1, Outcomes(old(rows), got))
        invariant maxSeen == Newest(None, got)
        decreases MAX_PAGES + 1 - page
      {
        if page > MAX_PAGES {
          ResumeToEnd(got, page - 1, Truncated, 0);
          return Err(Truncated);
        }
        var reply := server(page);
        if reply.Failed? {
          ResumeToEnd(got, page - 1, ServiceFailed, 0);
          return Err(ServiceFailed);
        }
        var items := reply.items;
        if page == 1 {
          total := reply.total;
        }
        if items == [] {
          OneMoreBatch(old(rows), old(counters), got, [], page - 1, 1);
          AnotherCall(counters, rows);
          ResumeToEnd(got, page - 1, if fetched < total then Truncated else Complete, 1);
          assert got + [] == got;
          counters := counters.(calls := counters.calls + 1);
          if fetched < total {
            return Err(Truncated);
          }
          break;
        }
        fetched := fetched + |items|;
        OneMoreBatch(old(rows), old(counters), got, items, page - 1, 1);
        TakePage(items, old(counters), old(rows), got, page - 1);
        maxSeen := NewestIn(maxSeen, items);
        if total != 0 && fetched >= total {
          ResumeToEnd(items, 1, Complete, 0);
          ResumeTwice(got, page - 1, items, 1, Fetched(Complete, [], 0));
          ResumeToEnd(got + items, page, Complete, 0);
          got := got + items;
          break;
        }
        ResumeTwice(got, page - 1, items, 1, Loop(server, page + 1, fetched, total));
        got := got + items;
        page := page + 1;
      }
      r := Ok(maxSeen);
    }

    /** The loop of `_run` over the planned queries. */
    method SyncQueries(plan: seq<Query>, service: Service) returns (r: Result<Option<Moment>, End>)
      requires counters == ZERO && seen == {}
      modifies this`rows, this`counters, this`seen
      ensures var f := FetchAll(service, plan);
              && rows == UpsertAll(old(rows), f.items) && seen == Ids(f.items)
              && counters == AddBatch(ZERO, f.calls, Outcomes(old(rows), f.items))
              && (if f.end == Complete then r == Ok(Newest(None, f.items)) else r == Err(f.end))
    {
      hide Instant, UpsertAll, Outcomes, Newest, Ids, AddBatch, Resume, Listing;
      var maxSeen: Option<Moment> := None;
      var i := 0;
      ghost var whole := FetchAll(service, plan);
      ghost var got: seq<Spot>, calls: nat := [], 0;
      NothingYet(rows, ZERO);
      ResumeFromNothing(whole);
      assert plan[0..] == plan;
      while i < |plan|
        invariant 0 <= i <= |plan|
        invariant whole == Resume(got, calls, FetchAll(service, plan[i..]))
        invariant rows == UpsertAll(old(rows), got) && seen == Ids(got)
        invariant counters == AddBatch(ZERO, calls, Outcomes(old(rows), got))
        invariant maxSeen == Newest(None, got)
      {
        ghost var f := Listing(service(plan[i]));
        OneMoreBatch(old(rows), ZERO, got, f.items, calls, f.calls);
        NewestOfParts(Newest(None, got), f.items);
        FetchSplit(service, plan, i);
        ResumeTwice(got, calls, f.items, f.calls, FetchAll(service, plan[i + 1..]));
        var r' := SyncOneDate(service(plan[i]));
        if r'.Err? {
          ResumeToEnd(f.items, f.calls, f.end, 0);
          ResumeTwice(got, calls, f.items, f.calls, Fetched(f.end, [], 0));
          ResumeToEnd(got + f.items, calls + f.calls, f.end, 0);
          return r';
        }
        var dateMax := r'.value;
        if dateMax.Some? && (maxSeen.None? || Instant(dateMax.value) > Instant(maxSeen.value)) {
          maxSeen := dateMax;
        }
        got, calls := got + f.items, calls + f.calls;
        i := i + 1;
      }
      assert plan[i..] == [];
      ResumeToEnd(got, calls, Complete, 0);
      r := Ok(maxSeen);
    }

    method Run(mode: Mode, plan: seq<Query>, service: Service, from: Option<string>) returns (ok: bool)
      modifies this
      ensures View() == RunOn(old(View()), mode, plan, service, from)
      ensures ok <==> runs[|runs| - 1].status == Success
    {
      hide UpsertAll, Outcomes, Newest, Ids, AddBatch, SeesTooFew, HideUnseen, Visible, AdvancedWatermark, FetchAll;
      runs := runs + [RunRecord(mode, Running, None, None, ZERO)];
      var id := |runs| - 1;
      counters, seen := ZERO, {};
      var fetched := SyncQueries(plan, service);
      if fetched.Err? {
        runs := runs[id := RunRecord(mode, Errored, None, None, ZERO)];
        return false;
      }
      if mode == Full && seen != {} {
        var hidden := SoftDeleteUnseen();
        if hidden.Err? {
          runs := runs[id := RunRecord(mode, Errored, None, None, ZERO)];
          return false;
        }
        counters := counters.(softDeleted := counters.softDeleted + hidden.value);
      }
      var to := AdvancedWatermark(from, fetched.value, plan);
      runs := runs[id := RunRecord(mode, Success, from, to, counters)];
      ok := true;
    }

    method SyncDaily(today: Date, service: Service) returns (r: Result<bool, PlanError>)
      requires today.year <= 9998
      modifies this
      ensures var wm := LastWatermark(old(runs));
              match Plan(wm, today)
              case Err(e) => r == Err(e) && View() == old(View())
              case Ok(plan) => r.Ok? && View() == RunOn(old(View()), Incremental, plan, service, wm)
    {
      var wm := LastWatermark(runs);
      var plan := SyncDates(wm, today);
      if plan.Err? {
        return Err(plan.error);
      }
      var ok := Run(Incremental, plan.value, service, wm);
      r := Ok(ok);
    }

    method SyncFull(service: Service) returns (ok: bool)
      modifies this
      ensures View() == RunOn(old(View()), Full, [None], service, None)
    {
      ok := Run(Full, [None], service, None);
    }
  }

  /** The loop's running maximum, `modified_time` by `modified_time`. */
  method NewestIn(start: Option<Moment>, ss: seq<Spot>) returns (m: Option<Moment>)
    ensures m == Newest(start, ss)
  {
    m := start;
    var i := 0;
    while i < |ss|
      invariant 0 <= i <= |ss| && m == Newest(start, ss[..i])
    {
      assert ss[..i + 1][..i] == ss[..i];
      var time := ss[i].time;
      if time.Some? && (m.None? || Instant(time.value) > Instant(m.value)) {
        m := time;
      }
      i := i + 1;
    }
    assert ss[..i] == ss;
  }
}
