/**
 Any sequence of runs: successful, failed and refused, incremental and full, with a service that may
 answer anything.  What is proved here of watermarks and of the days asked for assumes nothing about the
 service beyond what the lemma says.
 */
module SyncAttempts {
  import opened Wrappers
  import opened Digits
  import opened Calendar
  import opened SyncPlan
  import opened SpotTable
  import opened PageLoop
  import opened SyncRuns

  /** One attempt: its day, how the service behaved, and the catalogue behind the service, which no run looks at. */
  datatype Event = Event(full: bool, today: Date, service: Service, catalogue: Table)

  function PlanOf(s: Store, e: Event): Result<seq<Query>, PlanError>
    requires e.today.year <= 9998
  {
    if e.full then Ok([None]) else Plan(LastWatermark(s.runs), e.today)
  }

  function Execute(s: Store, e: Event): Store
    requires e.today.year <= 9998
  {
    match PlanOf(s, e)
    case Err(_) => s
    case Ok(plan) =>
      if e.full then RunOn(s, Full, plan, e.service, None)
      else RunOn(s, Incremental, plan, e.service, LastWatermark(s.runs))
  }

  predicate Succeeds(s: Store, e: Event)
    requires e.today.year <= 9998
  {
    var t := Execute(s, e);
    |t.runs| > |s.runs| && t.runs[|t.runs| - 1].status == Success
  }

  /** The day after every run's day can be written down. */
  predicate Representable(events: seq<Event>) {
    forall i | 0 <= i < |events| :: events[i].today.year <= 9998
  }

  /** The tables after a history that starts from empty ones. */
  ghost function After(events: seq<Event>): Store
    requires Representable(events)
  {
    if events == [] then Store(map[], [])
    else Execute(After(events[..|events| - 1]), events[|events| - 1])
  }

  ghost function LastSuccess(events: seq<Event>): (i: Option<nat>)
    requires Representable(events)
    ensures i.Some? ==> i.value < |events|
  {
    if events == [] then None
    else if Succeeds(After(events[..|events| - 1]), events[|events| - 1]) then Some(|events| - 1)
    else LastSuccess(events[..|events| - 1])
  }

  // ----- one run -----

  /** A run's rows, up to the visibility a full run may take away. */
  lemma RunOnRows(s: Store, mode: Mode, plan: seq<Query>, service: Service, from: Option<string>)
    ensures var rows := UpsertAll(s.rows, FetchAll(service, plan).items);
            var t := RunOn(s, mode, plan, service, from);
            && t.rows.Keys == rows.Keys
            && forall id :: id in rows ==> SameVersion(t.rows[id], rows[id])
    ensures var t := RunOn(s, mode, plan, service, from);
            && |t.runs| == |s.runs| + 1 && t.runs[..|s.runs|] == s.runs
            && (t.runs[|s.runs|].status == Success ==>
                  && FetchAll(service, plan).end == Complete
                  && t.runs[|s.runs|].from == from
                  && t.runs[|s.runs|].to ==
                     AdvancedWatermark(from, Newest(None, FetchAll(service, plan).items), plan))
            && t.runs[|s.runs|].mode == mode
  {
    hide UpsertAll, AdvancedWatermark, FetchAll, Newest, Outcomes;
  }

  /** A shortfall or a failed request leaves the watermark where it was. */
  lemma FailedRunKeepsTheWatermark(s: Store, mode: Mode, plan: seq<Query>, service: Service, from: Option<string>)
    requires FetchAll(service, plan).end != Complete
    ensures LastWatermark(RunOn(s, mode, plan, service, from).runs) == LastWatermark(s.runs)
  {
    RunOnRows(s, mode, plan, service, from);
    var runs := RunOn(s, mode, plan, service, from).runs;
    assert runs[..|runs| - 1] == s.runs;
  }

  /** No attempt, whatever becomes of it, takes the watermark back. */
  lemma WatermarkNeverGoesBack(s: Store, e: Event)
    requires e.today.year <= 9998 && LastWatermark(s.runs).Some?
    ensures var after := LastWatermark(Execute(s, e).runs);
            after.Some? && !Less(after.value, LastWatermark(s.runs).value)
  {
    hide RunOn, Less, Plan;
    var before := LastWatermark(s.runs).value;
    LessIsIrreflexive(before);
    if PlanOf(s, e).Ok? {
      RunOnRows(s, if e.full then Full else Incremental, PlanOf(s, e).value, e.service,
                if e.full then None else LastWatermark(s.runs));
      RunsGrow(s, Execute(s, e));
      var run := Execute(s, e).runs[|s.runs|];
      if run.to.Some? { LessIsTotal(before, run.to.value, before); }
    }
  }

  /** An incremental run accounts for every row it fetched. */
  lemma IncrementalCountersBalance(s: Store, plan: seq<Query>, service: Service, from: Option<string>)
    requires FetchAll(service, plan).end == Complete
    ensures var runs := RunOn(s, Incremental, plan, service, from).runs;
            var c := runs[|runs| - 1].tally;
            && runs[|runs| - 1].status == Success
            && c.fetched == |FetchAll(service, plan).items|
            && c.fetched == c.inserted + c.updated + c.skipped + c.softDeleted
            && c.calls <= |plan| * MAX_PAGES
  {
    hide FetchAll, UpsertAll, Newest, AdvancedWatermark, Outcomes, Count, SeesTooFew, HideUnseen;
    EveryRowIsCountedOnce(Outcomes(s.rows, FetchAll(service, plan).items));
    CallsAreBounded(service, plan);
  }

  /** The watermark read next is the greatest that any successful run recorded. */
  lemma {:induction false} LastWatermarkIsTheGreatest(runs: seq<RunRecord>)
    ensures var wm := LastWatermark(runs);
            && (wm.Some? ==> exists i :: 0 <= i < |runs| && runs[i].status == Success && runs[i].to == wm)
            && (forall i :: 0 <= i < |runs| && runs[i].status == Success && runs[i].to.Some? ==>
                  wm.Some? && !Less(wm.value, runs[i].to.value))
  {
    hide Less;
    if runs != [] {
      var front, last := runs[..|runs| - 1], runs[|runs| - 1];
      LastWatermarkIsTheGreatest(front);
      var before, wm := LastWatermark(front), LastWatermark(runs);
      if last.status == Success && last.to.Some? {
        LessIsIrreflexive(last.to.value);
        assert runs[|front|] == last;
        if before.Some? { LessIsTotal(before.value, last.to.value, before.value); }
      }
      forall i | 0 <= i < |front| && front[i].status == Success && front[i].to.Some?
        ensures wm.Some? && !Less(wm.value, runs[i].to.value)
      {
        assert runs[i] == front[i];
        LessIsTotal(wm.value, before.value, runs[i].to.value);
      }
      if wm.Some? && wm == before {
        var i :| 0 <= i < |front| && front[i].status == Success && front[i].to == wm;
        assert runs[i] == front[i];
      }
    }
  }

  lemma {:induction false} CallsAreBounded(service: Service, plan: seq<Query>)
    ensures FetchAll(service, plan).calls <= |plan| * MAX_PAGES
  {
    if plan != [] { CallsAreBounded(service, plan[1..]); }
  }

  lemma RunsGrow(s: Store, t: Store)
    requires |t.runs| == |s.runs| + 1 && t.runs[..|s.runs|] == s.runs
    ensures var run := t.runs[|s.runs|];
            var before := LastWatermark(s.runs);
            LastWatermark(t.runs) == if run.status != Success || run.to.None? then before
                                     else if before.None? then run.to
                                     else Some(MaxText(before.value, run.to.value))
  {
    assert t.runs[..|t.runs| - 1] == s.runs;
  }

  lemma RefusedRunChangesNothing(s: Store, e: Event)
    requires e.today.year <= 9998 && PlanOf(s, e).Err?
    ensures Execute(s, e) == s && !Succeeds(s, e)
  {
  }

  lemma StampedLater(wm: string, a: Date, b: Date)
    requires StampedBy(wm, a) && Ordinal(a) <= Ordinal(b)
    ensures StampedBy(wm, b)
  {
    hide Ordinal, StampText;
    var m: Moment :| wm == StampText(m) && Ordinal(m.date) <= Ordinal(a);
    assert wm == StampText(m) && Ordinal(m.date) <= Ordinal(b);
  }

  lemma EverythingAsksAll(d: Date)
    ensures AskedBy([None], d)
  {
    assert Asks(None, d);
  }

  lemma PlanStartsByTheWatermark(start: Date, today: Date, d: Date)
    requires today.year <= 9998 && PlanFrom(start, today).Ok?
    requires Ordinal(d) <= Ordinal(today) && !AskedBy(PlanFrom(start, today).value, d)
    ensures Ordinal(d) < Ordinal(start)
  {
    hide Ordinal, PlanFrom, AskedBy;
    OrdinalOrder(today, start);
    if Ordinal(EarlierOf(start, today)) <= Ordinal(d) { PlanMissesNoDay(start, today, d); }
  }

  /** The run an attempt makes, when its plan is not refused. */
  lemma AttemptRuns(s: Store, e: Event)
    requires e.today.year <= 9998 && PlanOf(s, e).Ok?
    ensures var plan := PlanOf(s, e).value;
            var from := if e.full then None else LastWatermark(s.runs);
            && Execute(s, e) == RunOn(s, if e.full then Full else Incremental, plan, e.service, from)
            && (plan == [None] || Plan(from, e.today) == Ok(plan))
  {
    hide RunOn, Plan;
  }

  // ----- watermarks of any history -----

  /** What one more attempt does to the watermark: nothing, or the maximum with what it advanced to. */
  lemma WatermarkAfter(s: Store, e: Event)
    requires e.today.year <= 9998
    ensures var before, after := LastWatermark(s.runs), LastWatermark(Execute(s, e).runs);
            if !Succeeds(s, e) then after == before
            else
              PlanOf(s, e).Ok?
              && var plan := PlanOf(s, e).value;
              var to := AdvancedWatermark(if e.full then None else before, Newest(None, FetchAll(e.service, plan).items), plan);
              after == if to.None? then before else if before.None? then to else Some(MaxText(before.value, to.value))
  {
    hide RunOn, Plan, AdvancedWatermark, FetchAll, Newest;
    if PlanOf(s, e).Ok? {
      AttemptRuns(s, e);
      RunOnRows(s, if e.full then Full else Incremental, PlanOf(s, e).value, e.service,
                if e.full then None else LastWatermark(s.runs));
      RunsGrow(s, Execute(s, e));
    } else {
      RefusedRunChangesNothing(s, e);
    }
  }

  lemma {:induction false} WatermarkIsStamp(events: seq<Event>)
    requires Representable(events)
    ensures var wm := LastWatermark(After(events).runs); wm.Some? ==> IsStamp(wm.value)
  {
    hide IsStamp, Execute, Succeeds, PlanOf, AdvancedWatermark, LastWatermark, Less;
    if events == [] {
      NoWatermarkYet();
    } else {
      var k := |events| - 1;
      var s, e := After(events[..k]), events[k];
      WatermarkIsStamp(events[..k]);
      WatermarkAfter(s, e);
      if Succeeds(s, e) {
        AttemptRuns(s, e);
        var plan := PlanOf(s, e).value;
        WatermarkAdvances(if e.full then None else LastWatermark(s.runs), Newest(None, FetchAll(e.service, plan).items), plan,
                          e.today);
      }
    }
  }

  lemma NoWatermarkYet()
    ensures LastWatermark([]) == None
  {
  }

  /** No history, whatever was listed in it, makes the next run die on its own watermark. */
  lemma WatermarksAlwaysParse(events: seq<Event>, today: Date)
    requires Representable(events) && today.year <= 9998
    ensures Plan(LastWatermark(After(events).runs), today) != Err(BadWatermark)
  {
    hide After, Ordinal, StampText, ParseDay, PlanFrom;
    WatermarkIsStamp(events);
    var wm := LastWatermark(After(events).runs);
    if wm.Some? {
      var m: Moment :| wm.value == StampText(m);
      StampedWatermarkParses(m);
      NeverBad(m.date, today);
    }
  }

  lemma NeverBad(start: Date, today: Date)
    requires today.year <= 9998
    ensures PlanFrom(start, today) != Err(BadWatermark)
  {
    PlanIsBounded(start, today);
  }

  // ----- coverage -----

  /** No item a successful run was given is dated after that run's day; the service is otherwise free. */
  predicate FetchesInTime(s: Store, e: Event)
    requires e.today.year <= 9998
  {
    Succeeds(s, e) && PlanOf(s, e).Ok? ==>
      forall x :: x in FetchAll(e.service, PlanOf(s, e).value).items && x.time.Some? ==>
        Ordinal(x.time.value.date) <= Ordinal(e.today)
  }

  /** Run days never go back, and every run fetches in time. */
  ghost predicate InTime(events: seq<Event>)
    ensures InTime(events) ==> Representable(events)
  {
    && Representable(events)
    && (forall i, j | 0 <= i < j < |events| :: Ordinal(events[i].today) <= Ordinal(events[j].today))
    && (forall i | 0 <= i < |events| :: FetchesInTime(After(events[..i]), events[i]))
  }

  lemma InTimeBefore(events: seq<Event>, k: nat)
    requires InTime(events) && k <= |events|
    ensures InTime(events[..k])
  {
    hide FetchesInTime, Ordinal, After;
    forall i | 0 <= i < k
      ensures FetchesInTime(After(events[..k][..i]), events[..k][i])
    {
      assert events[..k][..i] == events[..i];
    }
  }

  lemma StandsByOneMore(s: Store, e: Event, last: Option<Date>)
    requires e.today.year <= 9998 && Succeeds(s, e) && FetchesInTime(s, e)
    requires LastWatermark(s.runs).Some? ==> last.Some? && StampedBy(LastWatermark(s.runs).value, last.value)
    requires last.Some? ==> Ordinal(last.value) <= Ordinal(e.today)
    ensures var wm := LastWatermark(Execute(s, e).runs); wm.Some? ==> StampedBy(wm.value, e.today)
  {
    hide StampedBy, Execute, Succeeds, PlanOf, AdvancedWatermark, LastWatermark, Less, Ordinal, FetchAll, Newest,
      FetchesInTime;
    WatermarkAfter(s, e);
    var wm := LastWatermark(s.runs);
    if wm.Some? { StampedLater(wm.value, last.value, e.today); }
    AttemptRuns(s, e);
    var plan := PlanOf(s, e).value;
    NewestIsInTime(s, e);
    WatermarkIsNotAhead(if e.full then None else wm, Newest(None, FetchAll(e.service, plan).items), plan, e.today);
  }

  /** The watermark never runs ahead of the newest success. */
  lemma {:induction false} WatermarkStandsBy(events: seq<Event>)
    requires InTime(events)
    ensures var wm := LastWatermark(After(events).runs);
            match LastSuccess(events)
            case None => wm.None?
            case Some(i) => wm.Some? ==> StampedBy(wm.value, events[i].today)
  {
    hide StampedBy, Execute, Succeeds, PlanOf, LastWatermark, Ordinal, FetchesInTime;
    if events == [] {
      NoWatermarkYet();
    } else {
      var k := |events| - 1;
      var pre, e := events[..k], events[k];
      InTimeBefore(events, k);
      WatermarkStandsBy(pre);
      var i := LastSuccess(pre);
      if Succeeds(After(pre), e) {
        assert FetchesInTime(After(events[..k]), events[k]);
        StandsByOneMore(After(pre), e, if i.Some? then Some(events[i.value].today) else None);
      } else {
        hide InTime, AdvancedWatermark, FetchAll, Newest;
        WatermarkAfter(After(pre), e);
      }
    }
  }

  lemma NewestIsInTime(s: Store, e: Event)
    requires e.today.year <= 9998 && Succeeds(s, e) && PlanOf(s, e).Ok? && FetchesInTime(s, e)
    ensures var m := Newest(None, FetchAll(e.service, PlanOf(s, e).value).items);
            m.Some? ==> Ordinal(m.value.date) <= Ordinal(e.today)
  {
    hide Ordinal, Newest, FetchAll, PlanOf, Succeeds;
    NewestIsListed(None, FetchAll(e.service, PlanOf(s, e).value).items);
  }

  /** Some successful attempt asked for day `d` on a strictly later day. */
  ghost predicate AskedLater(events: seq<Event>, d: Date)
    requires Representable(events)
  {
    exists i :: 0 <= i < |events| && AskedAt(events, i, d)
  }

  ghost predicate AskedAt(events: seq<Event>, i: nat, d: Date)
    requires Representable(events) && i < |events|
  {
    && Succeeds(After(events[..i]), events[i])
    && Ordinal(d) < Ordinal(events[i].today)
    && PlanOf(After(events[..i]), events[i]).Ok?
    && AskedBy(PlanOf(After(events[..i]), events[i]).value, d)
  }

  /** Coverage: every day before the newest successful run's was asked for once that day was over. */
  lemma {:induction false} EveryPastDayIsAskedFor(events: seq<Event>, d: Date)
    requires InTime(events) && LastSuccess(events).Some?
    requires Ordinal(d) < Ordinal(events[LastSuccess(events).value].today)
    ensures AskedLater(events, d)
  {
    hide Ordinal, Execute, AskedBy, FetchesInTime, PlanOf, Succeeds, StampedBy, LastWatermark;
    var k := |events| - 1;
    var pre, e := events[..k], events[k];
    InTimeBefore(events, k);
    if LastSuccess(events) == Some(k) {
      WatermarkStandsBy(pre);
      var s := After(pre);
      SuccessHasPlan(s, e);
      if AskedBy(PlanOf(s, e).value, d) {
        assert AskedAt(events, k, d);
      } else {
        var i := LastSuccess(pre);
        UnaskedDayIsOlder(s, e, if i.Some? then Some(pre[i.value].today) else None, d);
        EveryPastDayIsAskedFor(pre, d);
        AskedLonger(events, d);
      }
    } else {
      EveryPastDayIsAskedFor(pre, d);
      AskedLonger(events, d);
    }
  }

  lemma SuccessHasPlan(s: Store, e: Event)
    requires e.today.year <= 9998 && Succeeds(s, e)
    ensures PlanOf(s, e).Ok?
  {
  }

  /** A past day that a plan leaves out lies before the day the watermark stands by. */
  lemma UnaskedDayIsOlder(s: Store, e: Event, last: Option<Date>, d: Date)
    requires e.today.year <= 9998 && PlanOf(s, e).Ok? && !AskedBy(PlanOf(s, e).value, d)
    requires LastWatermark(s.runs).Some? ==> last.Some? && StampedBy(LastWatermark(s.runs).value, last.value)
    requires Ordinal(d) < Ordinal(e.today)
    ensures last.Some? && Ordinal(d) < Ordinal(last.value)
  {
    hide Ordinal, StampText, ParseDay, PlanFrom, AskedBy, LastWatermark;
    EverythingAsksAll(d);
    var wm := LastWatermark(s.runs);
    var m: Moment :| wm.value == StampText(m) && Ordinal(m.date) <= Ordinal(last.value);
    StampedWatermarkParses(m);
    PlanStartsByTheWatermark(m.date, e.today, d);
  }

  lemma AskedLonger(events: seq<Event>, d: Date)
    requires Representable(events) && events != []
    requires AskedLater(events[..|events| - 1], d)
    ensures AskedLater(events, d)
  {
    hide Ordinal, Succeeds, PlanOf, After, AskedBy;
    var pre := events[..|events| - 1];
    var i :| 0 <= i < |pre| && AskedAt(pre, i, d);
    assert pre[..i] == events[..i] && pre[i] == events[i];
    assert AskedAt(events, i, d);
  }
}
