/**
 What one incremental run asks the listing service for, and the watermark it leaves behind.
 The service filters by a prefix of the modified time, so a query text names a day, a month, or
 (when absent) everything.
 */
module SyncPlan {
  import opened Wrappers
  import opened Digits
  import opened Calendar

  const MAX_CATCHUP_DAYS := 60
  const MAX_CATCHUP_MONTHS := 12

  type Query = Option<string>

  datatype PlanError = BadWatermark | WatermarkTooOld

  /** The service's filter: `q` lists the items modified on day `d`. */
  predicate Asks(q: Query, d: Date) {
    q.None? || q.value <= DayText(d)
  }

  predicate AskedBy(plan: seq<Query>, d: Date) {
    exists q :: q in plan && Asks(q, d)
  }

  // ----- months -----

  function MonthIndex(d: Date): nat {
    12 * d.year + d.month - 1
  }

  function MonthQuery(index: nat): Query
    requires index < 120000
  {
    Some(MonthText(index / 12, index % 12 + 1))
  }

  /** The months from `start`'s to `today`'s, as query texts. */
  function MonthsFrom(start: Date, today: Date): seq<Query> {
    var lo, hi := MonthIndex(start), MonthIndex(today);
    if hi < lo then [] else seq(hi - lo + 1, i requires 0 <= i <= hi - lo => MonthQuery(lo + i))
  }

  method MonthRange(start: Date, today: Date) returns (out: seq<Query>)
    ensures out == MonthsFrom(start, today)
  {
    hide MonthText;
    out := [];
    var year: nat, month: nat := start.year, start.month;
    ghost var lo, hi := MonthIndex(start), MonthIndex(today);
    while year < today.year || (year == today.year && month <= today.month)
      invariant 1 <= month <= 12
      invariant |out| == 12 * year + month - 1 - lo <= if hi < lo then 0 else hi - lo + 1
      invariant forall i | 0 <= i < |out| :: out[i] == MonthQuery(lo + i)
      decreases 120000 - 12 * year - month
    {
      assert Some(MonthText(year, month)) == MonthQuery(12 * year + month - 1);
      out := out + [Some(MonthText(year, month))];
      if month == 12 {
        year, month := year + 1, 1;
      } else {
        month := month + 1;
      }
    }
  }

  lemma MonthsFromHolds(start: Date, today: Date, d: Date)
    requires MonthIndex(start) <= MonthIndex(d) <= MonthIndex(today)
    ensures Some(MonthText(d.year, d.month)) in MonthsFrom(start, today)
  {
    hide MonthText;
    assert MonthsFrom(start, today)[MonthIndex(d) - MonthIndex(start)] == MonthQuery(MonthIndex(d));
  }

  // ----- days -----

  function DaysFrom(day: Date, today: Date): seq<Query>
    requires today.year <= 9998
    decreases Ordinal(today) + 1 - Ordinal(day)
  {
    OrdinalOrder(today, day);
    if Earlier(today, day) then []
    else
      NextDayOrdinal(day);
      [Some(DayText(day))] + DaysFrom(NextDay(day), today)
  }

  lemma {:induction false} DaysFromHolds(day: Date, today: Date, d: Date)
    requires today.year <= 9998
    requires Ordinal(day) <= Ordinal(d) <= Ordinal(today)
    ensures Some(DayText(d)) in DaysFrom(day, today)
    decreases Ordinal(today) - Ordinal(day)
  {
    OrdinalOrder(today, day);
    OrdinalOrder(d, day);
    if day != d {
      NextDayOrdinal(day);
      DaysFromHolds(NextDay(day), today, d);
    }
  }

  lemma {:induction false} DaysFromShape(day: Date, today: Date)
    requires today.year <= 9998 && Ordinal(day) <= Ordinal(today)
    ensures var ds := DaysFrom(day, today);
            |ds| == Ordinal(today) - Ordinal(day) + 1 && ds[|ds| - 1] == Some(DayText(today))
    ensures forall q :: q in DaysFrom(day, today) ==>
              q.Some? && exists d: Date :: Ordinal(day) <= Ordinal(d) <= Ordinal(today) && q.value == DayText(d)
    decreases Ordinal(today) - Ordinal(day)
  {
    hide Ordinal, DayText;
    OrdinalOrder(today, day);
    if day != today {
      NextDayOrdinal(day);
      DaysFromShape(NextDay(day), today);
    } else {
      NextDayOrdinal(day);
      OrdinalOrder(today, NextDay(day));
      assert DaysFrom(NextDay(day), today) == [];
    }
  }

  // ----- the plan -----

  function WatermarkParam(wm: string): string {
    if |wm| <= 8 then wm else wm[..8]
  }

  function EarlierOf(a: Date, b: Date): Date {
    if Earlier(b, a) then b else a
  }

  function PlanFrom(start: Date, today: Date): (r: Result<seq<Query>, PlanError>)
    requires today.year <= 9998
  {
    var day := EarlierOf(start, today);
    if Ordinal(today) - Ordinal(day) > MAX_CATCHUP_DAYS then
      var months := MonthsFrom(day, today);
      if |months| > MAX_CATCHUP_MONTHS then Err(WatermarkTooOld) else Ok(months)
    else Ok(DaysFrom(day, today))
  }

  function Plan(wm: Option<string>, today: Date): Result<seq<Query>, PlanError>
    requires today.year <= 9998
  {
    if wm.None? || wm.value == "" then Ok([None])
    else match ParseDay(WatermarkParam(wm.value))
         case None => Err(BadWatermark)
         case Some(start) => PlanFrom(start, today)
  }

  method SyncDates(wm: Option<string>, today: Date) returns (r: Result<seq<Query>, PlanError>)
    requires today.year <= 9998
    ensures r == Plan(wm, today)
  {
    hide Ordinal, DayText, ParseDay, MonthsFrom;
    if wm.None? || wm.value == "" {
      return Ok([None]);
    }
    var parsed := ParseDay(WatermarkParam(wm.value));
    if parsed.None? {
      return Err(BadWatermark);
    }
    var day: Date := EarlierOf(parsed.value, today);
    if Ordinal(today) - Ordinal(day) > MAX_CATCHUP_DAYS {
      var months := MonthRange(day, today);
      if |months| > MAX_CATCHUP_MONTHS {
        return Err(WatermarkTooOld);
      }
      return Ok(months);
    }
    assert Plan(wm, today) == Ok(DaysFrom(day, today));
    var out: seq<Query> := [];
    ghost var all := DaysFrom(day, today);
    while !Earlier(today, day)
      invariant out + DaysFrom(day, today) == all
      decreases Ordinal(today) + 1 - Ordinal(day)
    {
      NextDayOrdinal(day);
      OrdinalOrder(today, day);
      ghost var was := out;
      out := out + [Some(DayText(day))];
      assert out + DaysFrom(NextDay(day), today) == was + DaysFrom(day, today);
      day := NextDay(day);
    }
    assert out + [] == out;
    r := Ok(out);
  }

  lemma DayQueryAsks(x: Date, d: Date)
    ensures Asks(Some(DayText(x)), d) <==> x == d
  {
    DayTextOrder(x, d);
  }

  lemma MonthQueryAsks(year: nat, month: nat, d: Date)
    requires year <= 9999 && 1 <= month <= 12
    ensures Asks(Some(MonthText(year, month)), d) <==> year == d.year && month == d.month
  {
    DayTextFields(d);
    if MonthText(year, month) == MonthText(d.year, d.month) {
      assert MonthText(year, month)[..4] == FourDigits(year) && MonthText(year, month)[4..] == TwoDigits(month);
      assert MonthText(d.year, d.month)[..4] == FourDigits(d.year)
          && MonthText(d.year, d.month)[4..] == TwoDigits(d.month);
    }
  }

  lemma SpanOrder(a: Date, b: Date)
    requires Ordinal(a) <= Ordinal(b)
    ensures MonthIndex(a) <= MonthIndex(b)
  {
    OrdinalOrder(a, b);
  }

  /** A plan misses no day between its start and today, by day queries and by month queries alike. */
  lemma PlanMissesNoDay(start: Date, today: Date, d: Date)
    requires today.year <= 9998 && PlanFrom(start, today).Ok?
    requires Ordinal(EarlierOf(start, today)) <= Ordinal(d) <= Ordinal(today)
    ensures AskedBy(PlanFrom(start, today).value, d)
  {
    var day := EarlierOf(start, today);
    if Ordinal(today) - Ordinal(day) > MAX_CATCHUP_DAYS {
      SpanOrder(day, d);
      SpanOrder(d, today);
      MonthsFromHolds(day, today, d);
      MonthQueryAsks(d.year, d.month, d);
    } else {
      DaysFromHolds(day, today, d);
      DayQueryAsks(d, d);
    }
  }

  /** A day plan asks for exactly the days of the gap, so the month plan asks for all of them and more. */
  lemma DayPlanIsExact(day: Date, today: Date, d: Date)
    requires today.year <= 9998 && Ordinal(day) <= Ordinal(today)
    ensures AskedBy(DaysFrom(day, today), d) <==> Ordinal(day) <= Ordinal(d) <= Ordinal(today)
    ensures AskedBy(DaysFrom(day, today), d) ==> AskedBy(MonthsFrom(day, today), d)
  {
    DaysFromShape(day, today);
    if AskedBy(DaysFrom(day, today), d) {
      var q :| q in DaysFrom(day, today) && Asks(q, d);
      var x: Date :| Ordinal(day) <= Ordinal(x) <= Ordinal(today) && q.value == DayText(x);
      DayQueryAsks(x, d);
      SpanOrder(day, d);
      SpanOrder(d, today);
      MonthsFromHolds(day, today, d);
      MonthQueryAsks(d.year, d.month, d);
    } else if Ordinal(day) <= Ordinal(d) <= Ordinal(today) {
      DaysFromHolds(day, today, d);
      DayQueryAsks(d, d);
    }
  }

  lemma MonthPlanIsExact(day: Date, today: Date, d: Date)
    requires Ordinal(day) <= Ordinal(today)
    ensures AskedBy(MonthsFrom(day, today), d) <==> MonthIndex(day) <= MonthIndex(d) <= MonthIndex(today)
  {
    hide MonthText, Ordinal;
    SpanOrder(day, today);
    if MonthIndex(day) <= MonthIndex(d) <= MonthIndex(today) {
      MonthsFromHolds(day, today, d);
      MonthQueryAsks(d.year, d.month, d);
    }
    if q :| q in MonthsFrom(day, today) && Asks(q, d) {
      var i :| 0 <= i < |MonthsFrom(day, today)| && MonthsFrom(day, today)[i] == q;
      var index := MonthIndex(day) + i;
      assert q == MonthQuery(index);
      MonthQueryAsks(index / 12, index % 12 + 1, d);
      assert index == 12 * (index / 12) + index % 12;
    }
  }

  /**
   What a plan asks for, exactly: the days of the gap when there are at most 60 of them after the first, and
   otherwise the months those days lie in.
   */
  lemma PlanIsExact(start: Date, today: Date, d: Date)
    requires today.year <= 9998 && PlanFrom(start, today).Ok?
    ensures var day := if Ordinal(today) < Ordinal(start) then today else start;
            AskedBy(PlanFrom(start, today).value, d) <==>
            if Ordinal(today) - Ordinal(day) <= 60 then Ordinal(day) <= Ordinal(d) <= Ordinal(today)
            else MonthIndex(day) <= MonthIndex(d) <= MonthIndex(today)
  {
    hide Ordinal, AskedBy, MonthsFrom;
    OrdinalOrder(today, start);
    var day := EarlierOf(start, today);
    if Ordinal(today) - Ordinal(day) <= 60 {
      DayPlanIsExact(day, today, d);
    } else {
      MonthPlanIsExact(day, today, d);
    }
  }

  /** The request budget, and the only reason a plan from a real date is refused. */
  lemma PlanIsBounded(start: Date, today: Date)
    requires today.year <= 9998
    ensures var day := EarlierOf(start, today);
            var gap := Ordinal(today) - Ordinal(day);
            var spanned := MonthIndex(today) - MonthIndex(day) + 1;
            match PlanFrom(start, today)
            case Err(e) => e == WatermarkTooOld && gap > MAX_CATCHUP_DAYS && spanned > MAX_CATCHUP_MONTHS
            case Ok(plan) => (gap > MAX_CATCHUP_DAYS ==> spanned <= MAX_CATCHUP_MONTHS)
                             && 1 <= |plan| <= if gap > MAX_CATCHUP_DAYS then 12 else 61
  {
    var day := EarlierOf(start, today);
    OrdinalOrder(start, today);
    SpanOrder(day, today);
    DaysFromShape(day, today);
  }

  // ----- the watermark -----

  /** `_stamp`: a query text spread to fourteen digits. */
  function Stamp(text: string): string {
    (if |text| == 8 then text else text + "01") + "000000"
  }

  function LastText(plan: seq<Query>): Option<string> {
    if plan == [] then None
    else if plan[|plan| - 1].Some? && plan[|plan| - 1].value != "" then plan[|plan| - 1]
    else LastText(plan[..|plan| - 1])
  }

  function Greatest(candidates: seq<string>): (m: string)
    requires candidates != []
    ensures m in candidates
  {
    if |candidates| == 1 then candidates[0]
    else MaxText(Greatest(candidates[..|candidates| - 1]), candidates[|candidates| - 1])
  }

  /** The texts a run's watermark is chosen from. */
  function Candidates(from: Option<string>, maxSeen: Option<Moment>, plan: seq<Query>): seq<string> {
    var last := LastText(plan);
    (if from.Some? && from.value != "" then [from.value] else [])
    + (if maxSeen.Some? then [StampText(maxSeen.value)] else [])
    + (if last.Some? then [Stamp(last.value)] else [])
  }

  function AdvancedWatermark(from: Option<string>, maxSeen: Option<Moment>, plan: seq<Query>): Option<string> {
    var candidates := Candidates(from, maxSeen, plan);
    if candidates == [] then None else Some(Greatest(candidates))
  }

  /** `wm` is the stamp of a real moment. */
  ghost predicate IsStamp(wm: string) {
    exists m: Moment :: wm == StampText(m)
  }

  /** `wm` is the stamp of a real moment, on a day no later than `limit`. */
  ghost predicate StampedBy(wm: string, limit: Date) {
    exists m: Moment :: wm == StampText(m) && Ordinal(m.date) <= Ordinal(limit)
  }

  lemma StampedWatermarkParses(m: Moment)
    ensures StampText(m) != "" && ParseDay(WatermarkParam(StampText(m))) == Some(m.date)
  {
    ParseInvertsDayText(m.date);
    assert StampText(m)[..8] == DayText(m.date);
  }

  lemma FixedTexts()
    ensures ClockText(MIDNIGHT) == "000000" && TwoDigits(1) == "01"
  {
  }

  lemma StampOfQuery(d: Date)
    ensures Stamp(DayText(d)) == StampText(Moment(d, MIDNIGHT))
    ensures Stamp(MonthText(d.year, d.month)) == StampText(Moment(YearMonthDay(d.year, d.month, 1), MIDNIGHT))
  {
    FixedTexts();
    var first: Date := YearMonthDay(d.year, d.month, 1);
    assert DayText(first) == MonthText(d.year, d.month) + "01";
  }

  lemma {:induction false} GreatestIsGreatest(candidates: seq<string>, c: string)
    requires c in candidates
    ensures !Less(Greatest(candidates), c)
  {
    hide Less;
    var k := |candidates| - 1;
    LessIsIrreflexive(c);
    if k > 0 {
      var front := candidates[..k];
      if c in front { GreatestIsGreatest(front, c); }
      LessIsTotal(Greatest(front), candidates[k], c);
      LessIsTotal(candidates[k], Greatest(front), c);
    }
  }

  lemma LastOfPlan(wm: Option<string>, today: Date)
    requires today.year <= 9998 && Plan(wm, today).Ok?
    ensures var last := LastText(Plan(wm, today).value);
            if wm.None? || wm.value == "" then last.None?
            else last == Some(DayText(today)) || last == Some(MonthText(today.year, today.month))
  {
    hide Ordinal, DayText, ParseDay, MonthText;
    if !(wm.None? || wm.value == "") {
      var start := ParseDay(WatermarkParam(wm.value)).value;
      var day := EarlierOf(start, today);
      OrdinalOrder(start, today);
      SpanOrder(day, today);
      DaysFromShape(day, today);
      assert MonthQuery(MonthIndex(today)) == Some(MonthText(today.year, today.month));
    }
  }

  /** The last query of a plan spreads to a midnight on or before the run's day. */
  lemma LastQueryIsStamped(wm: Option<string>, plan: seq<Query>, today: Date)
    requires today.year <= 9998 && (plan == [None] || Plan(wm, today) == Ok(plan))
    ensures LastText(plan).Some? ==> wm.Some? && StampedBy(Stamp(LastText(plan).value), today)
  {
    hide Less, StampText, Ordinal, DayText, MonthText, Plan, Stamp, ParseDay;
    if plan == [None] {
      assert LastText(plan[..0]) == None;
    } else {
      LastOfPlan(wm, today);
      StampOfQuery(today);
      var first: Date := YearMonthDay(today.year, today.month, 1);
      OrdinalOrder(first, today);
      var last := LastText(plan);
      if last.Some? {
        var m := if last.value == DayText(today) then Moment(today, MIDNIGHT) else Moment(first, MIDNIGHT);
        assert Stamp(last.value) == StampText(m);
      }
    }
  }

  /**
   The watermark a run records is the stamp of a real moment, whatever was listed, and never below the one
   the run started from or the newest item it saw.  A run that had a watermark or saw a dated item always
   records one.
   */
  lemma WatermarkAdvances(wm: Option<string>, maxSeen: Option<Moment>, plan: seq<Query>, today: Date)
    requires today.year <= 9998
    requires plan == [None] || Plan(wm, today) == Ok(plan)
    requires wm.Some? ==> IsStamp(wm.value)
    ensures var to := AdvancedWatermark(wm, maxSeen, plan);
            && (to.Some? <==> wm.Some? || maxSeen.Some?)
            && (to.Some? ==> IsStamp(to.value))
            && (wm.Some? ==> !Less(to.value, wm.value))
            && (maxSeen.Some? ==> !Less(to.value, StampText(maxSeen.value)))
  {
    hide Less, StampText, Ordinal, Plan, Stamp, ParseDay, LastText;
    LastQueryIsStamped(wm, plan, today);
    StampsAreNotEmpty(wm);
    var candidates := Candidates(wm, maxSeen, plan);
    forall c | c in candidates
      ensures IsStamp(c) && !Less(Greatest(candidates), c)
    {
      GreatestIsGreatest(candidates, c);
    }
  }

  /**
   However little was listed, the watermark of a run that had one reaches the run's day, or the first of its
   month when the run asked by months.
   */
  lemma WatermarkReachesToday(wm: Option<string>, start: Date, maxSeen: Option<Moment>, today: Date)
    requires today.year <= 9998 && wm.Some? && wm.value != "" && ParseDay(WatermarkParam(wm.value)) == Some(start)
    requires PlanFrom(start, today).Ok?
    ensures var to := AdvancedWatermark(wm, maxSeen, PlanFrom(start, today).value);
            var reached := if Ordinal(today) - Ordinal(start) <= 60 then today else YearMonthDay(today.year, today.month, 1);
            to.Some? && !Less(to.value, StampText(Moment(reached, MIDNIGHT)))
  {
    hide Less, StampText, DayText, ParseDay, Stamp, MonthText;
    var plan := PlanFrom(start, today).value;
    OrdinalOrder(start, today);
    StampOfQuery(today);
    LastOfPlanFrom(start, today);
    hide Ordinal, PlanFrom, LastText;
    var candidates := Candidates(wm, maxSeen, plan);
    GreatestIsGreatest(candidates, Stamp(LastText(plan).value));
  }

  lemma LastOfPlanFrom(start: Date, today: Date)
    requires today.year <= 9998 && PlanFrom(start, today).Ok?
    ensures LastText(PlanFrom(start, today).value) ==
            if Ordinal(today) - Ordinal(start) <= 60 then Some(DayText(today)) else Some(MonthText(today.year, today.month))
  {
    hide Ordinal, DayText, MonthText;
    var day := EarlierOf(start, today);
    OrdinalOrder(start, today);
    SpanOrder(day, today);
    DaysFromShape(day, today);
    assert MonthQuery(MonthIndex(today)) == Some(MonthText(today.year, today.month));
  }

  lemma StampsAreNotEmpty(wm: Option<string>)
    requires wm.Some? ==> IsStamp(wm.value)
    ensures wm != Some("")
  {
  }

  /** And it lies on or before the run's day when nothing it was chosen from is later than that. */
  lemma WatermarkIsNotAhead(wm: Option<string>, maxSeen: Option<Moment>, plan: seq<Query>, today: Date)
    requires today.year <= 9998
    requires plan == [None] || Plan(wm, today) == Ok(plan)
    requires wm.Some? ==> StampedBy(wm.value, today)
    requires maxSeen.Some? ==> Ordinal(maxSeen.value.date) <= Ordinal(today)
    ensures var to := AdvancedWatermark(wm, maxSeen, plan); to.Some? ==> StampedBy(to.value, today)
  {
    hide Less, StampText, Ordinal, Plan, Stamp, ParseDay, LastText;
    LastQueryIsStamped(wm, plan, today);
    assert forall c :: c in Candidates(wm, maxSeen, plan) ==> StampedBy(c, today);
  }
}
