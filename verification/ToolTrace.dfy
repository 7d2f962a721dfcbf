/**
 What a routed question collects, said of the calls that were made and of what each came to: the places, the
 anchors, the facts, the steps, and the answers told to the model.
 */
module ToolTrace {
  import opened Wrappers
  import opened Digits
  import opened Routing
  import opened Steps
  import opened ToolLoop

  // ----- places and anchors -----

  /** The places each call offers: those of a known tool that finished and whose observation is not the answer. */
  function RowOffers(catalog: Catalog, behave: nat -> ToolOutcome, calls: seq<ToolCall>): (offers: seq<seq<string>>)
    ensures |offers| == |calls|
  {
    seq(|calls|, i requires 0 <= i < |calls| =>
      if calls[i].name in catalog && !catalog[calls[i].name].carriesFacts && behave(i).Finished? then behave(i).rows else [])
  }

  /** The anchors each call offers: those of any known tool that finished. */
  function AnchorOffers(catalog: Catalog, behave: nat -> ToolOutcome, calls: seq<ToolCall>): (offers: seq<seq<string>>)
    ensures |offers| == |calls|
  {
    seq(|calls|, i requires 0 <= i < |calls| =>
      if calls[i].name in catalog && behave(i).Finished? then behave(i).anchors else [])
  }

  /** The place at `(i, j)` was not offered by any call before. */
  ghost predicate NewAt(offers: seq<seq<string>>, i: int, j: int) {
    0 <= i < |offers| && 0 <= j < |offers[i]| && forall k | 0 <= k < i :: offers[i][j] !in offers[k]
  }

  predicate Earlier(p: (int, int), q: (int, int)) {
    p.0 < q.0 || (p.0 == q.0 && p.1 < q.1)
  }

  /** `at` lists the new places in order, and `xs` is what stands there. */
  ghost predicate ReadOff(offers: seq<seq<string>>, at: seq<(int, int)>, xs: seq<string>) {
    && |at| == |xs|
    && (forall a | 0 <= a < |at| :: NewAt(offers, at[a].0, at[a].1) && xs[a] == offers[at[a].0][at[a].1])
    && (forall a, b | 0 <= a < b < |at| :: Earlier(at[a], at[b]))
    && (forall i, j | NewAt(offers, i, j) :: (i, j) in at)
  }

  /** `xs` is, call after call, what each call offers that no call before it did. */
  ghost predicate Collects(offers: seq<seq<string>>, xs: seq<string>) {
    exists at :: ReadOff(offers, at, xs)
  }

  ghost predicate IsOffered(offers: seq<seq<string>>, x: string) {
    exists i | 0 <= i < |offers| :: x in offers[i]
  }

  lemma {:induction false} FirstOffer(offers: seq<seq<string>>, x: string, n: nat) returns (i: int, j: int)
    requires n < |offers| && x in offers[n]
    ensures NewAt(offers, i, j) && offers[i][j] == x
  {
    if k :| 0 <= k < n && x in offers[k] {
      i, j := FirstOffer(offers, x, k);
    } else {
      i := n;
      j :| 0 <= j < |offers[n]| && offers[n][j] == x;
    }
  }

  /** Whatever is offered is collected, and nothing else. */
  lemma CollectsWhatIsOffered(offers: seq<seq<string>>, xs: seq<string>, x: string)
    requires Collects(offers, xs)
    ensures x in xs <==> IsOffered(offers, x)
  {
    var at: seq<(int, int)> :| ReadOff(offers, at, xs);
    if x in xs {
      var a :| 0 <= a < |xs| && xs[a] == x;
      assert NewAt(offers, at[a].0, at[a].1);
    }
    if n :| 0 <= n < |offers| && x in offers[n] {
      var i, j := FirstOffer(offers, x, n);
      var a :| 0 <= a < |at| && at[a] == (i, j);
      assert xs[a] == x;
    }
  }

  predicate NoRepeats(xs: seq<string>) {
    forall a, b | 0 <= a < b < |xs| :: xs[a] != xs[b]
  }

  /** No call offers a new place twice. */
  ghost predicate OffersNewOnce(offers: seq<seq<string>>) {
    forall i, j, k | NewAt(offers, i, j) && NewAt(offers, i, k) && j < k :: offers[i][j] != offers[i][k]
  }

  lemma NewAtIsThere(offers: seq<seq<string>>, i: int, j: int)
    requires NewAt(offers, i, j)
    ensures 0 <= i < |offers| && 0 <= j < |offers[i]|
  {
  }

  lemma NewPlacesDiffer(offers: seq<seq<string>>, p: (int, int), q: (int, int))
    requires OffersNewOnce(offers) && NewAt(offers, p.0, p.1) && NewAt(offers, q.0, q.1) && Earlier(p, q)
    ensures offers[p.0][p.1] != offers[q.0][q.1]
  {
    if p.0 < q.0 { assert offers[q.0][q.1] !in offers[p.0]; }
  }

  lemma ReadsDifferently(offers: seq<seq<string>>, at: seq<(int, int)>, xs: seq<string>, i: int, j: int, k: int)
    requires ReadOff(offers, at, xs) && NoRepeats(xs) && NewAt(offers, i, j) && NewAt(offers, i, k) && j < k
    ensures offers[i][j] != offers[i][k]
  {
    NewAtIsThere(offers, i, j);
    NewAtIsThere(offers, i, k);
    hide NewAt, Earlier;
    var a :| 0 <= a < |at| && at[a] == (i, j);
    var b :| 0 <= b < |at| && at[b] == (i, k);
    assert xs[a] == offers[i][j] && xs[b] == offers[i][k];
    assert a < b || b < a;
  }

  /** A place is kept out when an earlier call offered it, not when the same call did: so it repeats exactly then. */
  lemma RepeatsIff(offers: seq<seq<string>>, xs: seq<string>)
    requires Collects(offers, xs)
    ensures NoRepeats(xs) <==> OffersNewOnce(offers)
  {
    hide NewAt, Earlier;
    var at: seq<(int, int)> :| ReadOff(offers, at, xs);
    if OffersNewOnce(offers) {
      forall a, b | 0 <= a < b < |xs|
        ensures xs[a] != xs[b]
      {
        hide OffersNewOnce;
        NewPlacesDiffer(offers, at[a], at[b]);
      }
    }
    if NoRepeats(xs) {
      hide ReadOff, NoRepeats;
      forall i, j, k | NewAt(offers, i, j) && NewAt(offers, i, k) && j < k
        ensures 0 <= i < |offers| && 0 <= j < |offers[i]| && 0 <= k < |offers[i]| && offers[i][j] != offers[i][k]
      {
        NewAtIsThere(offers, i, j);
        NewAtIsThere(offers, i, k);
        ReadsDifferently(offers, at, xs, i, j, k);
      }
    }
  }

  // ----- one more call -----

  /** Where the fresh elements of a list stand. */
  lemma {:induction false} FreshStands(known: seq<string>, more: seq<string>) returns (ps: seq<int>)
    ensures |ps| == |Fresh(known, more)|
    ensures forall a | 0 <= a < |ps| :: 0 <= ps[a] < |more| && more[ps[a]] == Fresh(known, more)[a] && more[ps[a]] !in known
    ensures forall a, b | 0 <= a < b < |ps| :: ps[a] < ps[b]
    ensures forall j | 0 <= j < |more| && more[j] !in known :: j in ps
  {
    if more == [] {
      ps := [];
    } else {
      var front, last := more[..|more| - 1], more[|more| - 1];
      ps := FreshStands(known, front);
      FreshEnd(known, front, last);
      assert more == front + [last];
      if last !in known { ps := ps + [|front|]; }
    }
  }

  lemma {:induction false} FreshEnd(known: seq<string>, front: seq<string>, last: string)
    ensures Fresh(known, front + [last]) == Fresh(known, front) + if last in known then [] else [last]
  {
    if front != [] {
      FreshEnd(known, front[1..], last);
      assert (front + [last])[1..] == front[1..] + [last];
    } else {
      assert front + [last] == [last] && [last][1..] == [];
    }
  }

  /** Old places stay new places, and the last call's are those not collected yet. */
  lemma NewAtMore(offers: seq<seq<string>>, xs: seq<string>, more: seq<string>, i: int, j: int)
    requires Collects(offers, xs)
    ensures i != |offers| ==> (NewAt(offers + [more], i, j) <==> NewAt(offers, i, j))
    ensures i == |offers| ==> (NewAt(offers + [more], i, j) <==> 0 <= j < |more| && more[j] !in xs)
  {
    hide Collects;
    var n, all := |offers|, offers + [more];
    assert forall k | 0 <= k < n :: all[k] == offers[k];
    assert all[n] == more;
    if i == n && 0 <= j < |more| {
      CollectsWhatIsOffered(offers, xs, more[j]);
    }
  }

  lemma CollectsMore(offers: seq<seq<string>>, xs: seq<string>, more: seq<string>)
    requires Collects(offers, xs)
    ensures Collects(offers + [more], xs + Fresh(xs, more))
  {
    var at: seq<(int, int)> :| ReadOff(offers, at, xs);
    var ps := FreshStands(xs, more);
    hide Collects, Fresh;
    ReadsMore(offers, at, xs, more, ps);
    CollectsReadOff(offers + [more], at + Placed(|offers|, ps), xs + Fresh(xs, more));
  }

  lemma CollectsReadOff(offers: seq<seq<string>>, at: seq<(int, int)>, xs: seq<string>)
    requires ReadOff(offers, at, xs)
    ensures Collects(offers, xs)
  {
    hide ReadOff;
  }

  function Placed(n: int, ps: seq<int>): (at: seq<(int, int)>)
    ensures |at| == |ps|
  {
    seq(|ps|, a requires 0 <= a < |ps| => (n, ps[a]))
  }

  lemma ReadsMore(offers: seq<seq<string>>, at: seq<(int, int)>, xs: seq<string>, more: seq<string>, ps: seq<int>)
    requires Collects(offers, xs) && ReadOff(offers, at, xs) && |ps| == |Fresh(xs, more)|
    requires forall a | 0 <= a < |ps| :: 0 <= ps[a] < |more| && more[ps[a]] == Fresh(xs, more)[a] && more[ps[a]] !in xs
    requires forall a, b | 0 <= a < b < |ps| :: ps[a] < ps[b]
    requires forall j | 0 <= j < |more| && more[j] !in xs :: j in ps
    ensures ReadOff(offers + [more], at + Placed(|offers|, ps), xs + Fresh(xs, more))
  {
    hide Collects, Fresh, NewAt;
    var n, all, longer, found := |offers|, offers + [more], at + Placed(|offers|, ps), xs + Fresh(xs, more);
    forall a | 0 <= a < |longer|
      ensures NewAt(all, longer[a].0, longer[a].1)
      ensures 0 <= longer[a].0 < |all| && 0 <= longer[a].1 < |all[longer[a].0]|
      ensures found[a] == all[longer[a].0][longer[a].1]
      ensures a < |at| ==> longer[a].0 < n
    {
      if a < |at| {
        NewAtIsThere(offers, at[a].0, at[a].1);
        NewAtMore(offers, xs, more, at[a].0, at[a].1);
      } else {
        NewAtMore(offers, xs, more, n, ps[a - |at|]);
      }
    }
    forall i, j | NewAt(all, i, j)
      ensures (i, j) in longer
    {
      NewAtMore(offers, xs, more, i, j);
      if i == n {
        var a :| 0 <= a < |ps| && ps[a] == j;
        assert Placed(n, ps)[a] == (i, j);
      }
    }
  }

  // ----- facts and steps -----

  /** The fact a call gives: its observation if that is the answer, and otherwise the fact it names, if any. */
  function FactOf(catalog: Catalog, call: ToolCall, outcome: ToolOutcome): Option<string> {
    if call.name !in catalog || outcome.TimedOut? then None
    else if catalog[call.name].carriesFacts then Some(outcome.observation)
    else if outcome.fact == Some("") then None else outcome.fact
  }

  /** The step a call shows: one for every known tool, with what became of it. */
  function StepOf(catalog: Catalog, call: ToolCall, outcome: ToolOutcome): Option<Step> {
    if call.name !in catalog then None
    else
      var tool := catalog[call.name];
      Some(Step(call.name, tool.caption(call.args),
                if outcome.TimedOut? then LATE else if tool.carriesFacts then LOOKED else Places(|outcome.rows|)))
  }

  /** The values that are there, in order. */
  function Present<T>(items: seq<Option<T>>): seq<T> {
    if items == [] then []
    else Present(items[..|items| - 1]) + if items[|items| - 1].Some? then [items[|items| - 1].value] else []
  }

  function Facts(catalog: Catalog, behave: nat -> ToolOutcome, calls: seq<ToolCall>): seq<Option<string>> {
    seq(|calls|, i requires 0 <= i < |calls| => FactOf(catalog, calls[i], behave(i)))
  }

  function Shown(catalog: Catalog, behave: nat -> ToolOutcome, calls: seq<ToolCall>): seq<Option<Step>> {
    seq(|calls|, i requires 0 <= i < |calls| => StepOf(catalog, calls[i], behave(i)))
  }

  lemma OneMorePresent<T>(items: seq<Option<T>>, item: Option<T>)
    ensures Present(items + [item]) == Present(items) + if item.Some? then [item.value] else []
  {
    assert (items + [item])[..|items|] == items;
  }

  // ----- every run -----

  /** The trace is what its calls came to. */
  ghost predicate Accounts(catalog: Catalog, behave: nat -> ToolOutcome, s: State) {
    && Collects(RowOffers(catalog, behave, s.callsMade), s.rows)
    && Collects(AnchorOffers(catalog, behave, s.callsMade), s.anchors)
    && s.facts == Present(Facts(catalog, behave, s.callsMade))
    && s.steps == Present(Shown(catalog, behave, s.callsMade))
  }

  lemma OneMoreCall(catalog: Catalog, behave: nat -> ToolOutcome, calls: seq<ToolCall>, call: ToolCall)
    ensures var n, more := |calls|, calls + [call];
            && RowOffers(catalog, behave, more) == RowOffers(catalog, behave, calls) + [RowOffers(catalog, behave, more)[n]]
            && AnchorOffers(catalog, behave, more)
               == AnchorOffers(catalog, behave, calls) + [AnchorOffers(catalog, behave, more)[n]]
            && Facts(catalog, behave, more) == Facts(catalog, behave, calls) + [FactOf(catalog, call, behave(n))]
            && Shown(catalog, behave, more) == Shown(catalog, behave, calls) + [StepOf(catalog, call, behave(n))]
  {
    hide FactOf, StepOf;
  }

  lemma NothingFresh(known: seq<string>)
    ensures Fresh(known, []) == []
  {
  }

  lemma ObservingAccounts(catalog: Catalog, mark: ToolCall -> string, behave: nat -> ToolOutcome, s: State, call: ToolCall)
    requires s.calls == |s.callsMade| && Accounts(catalog, behave, s)
    ensures Accounts(catalog, behave, Observed(catalog, mark, behave, s, call))
  {
    hide Collects, Present, Fresh, Places, LATE, LOOKED;
    var next, n := Observed(catalog, mark, behave, s, call), |s.callsMade|;
    if next != s {
      OneMoreCall(catalog, behave, s.callsMade, call);
      var rows, anchors := RowOffers(catalog, behave, next.callsMade)[n], AnchorOffers(catalog, behave, next.callsMade)[n];
      CollectsMore(RowOffers(catalog, behave, s.callsMade), s.rows, rows);
      CollectsMore(AnchorOffers(catalog, behave, s.callsMade), s.anchors, anchors);
      NothingFresh(s.rows);
      NothingFresh(s.anchors);
      assert next.rows == s.rows + Fresh(s.rows, rows);
      assert next.anchors == s.anchors + Fresh(s.anchors, anchors);
      OneMorePresent(Facts(catalog, behave, s.callsMade), FactOf(catalog, call, behave(n)));
      OneMorePresent(Shown(catalog, behave, s.callsMade), StepOf(catalog, call, behave(n)));
    }
  }

  lemma {:induction false} ObserveAllAccounts(catalog: Catalog, mark: ToolCall -> string, behave: nat -> ToolOutcome, s: State,
                                              calls: seq<ToolCall>)
    requires Safe(catalog, mark, behave, s) && Accounts(catalog, behave, s)
    ensures Accounts(catalog, behave, ObserveAll(catalog, mark, behave, s, calls))
  {
    hide Safe, Accounts, Observed;
    if calls != [] {
      var front := calls[..|calls| - 1];
      ObserveAllStaysSafe(catalog, mark, behave, s, front);
      SafeIsCounted(catalog, mark, behave, ObserveAll(catalog, mark, behave, s, front));
      ObserveAllAccounts(catalog, mark, behave, s, front);
      ObservingAccounts(catalog, mark, behave, ObserveAll(catalog, mark, behave, s, front), calls[|calls| - 1]);
    }
  }

  lemma SafeIsCounted(catalog: Catalog, mark: ToolCall -> string, behave: nat -> ToolOutcome, s: State)
    requires Safe(catalog, mark, behave, s)
    ensures s.calls == |s.callsMade| && s.fired == Marks(mark, s.callsMade)
  {
    hide NothingAfterStop, Marks;
  }

  lemma StartAccounts(catalog: Catalog, behave: nat -> ToolOutcome)
    ensures Accounts(catalog, behave, START)
  {
    CollectsReadOff(RowOffers(catalog, behave, []), [], []);
    CollectsReadOff(AnchorOffers(catalog, behave, []), [], []);
  }

  /**
   Whatever the model asked for and whatever the tools did: the places are, call after call, those a known tool
   found that no earlier call had, unless its observation is the answer; the anchors likewise; and the facts and
   the steps are, call by call, what each gave and showed.
   */
  lemma {:induction false} EveryRunAccounts(catalog: Catalog, mark: ToolCall -> string, behave: nat -> ToolOutcome,
                                            rounds: seq<Round>)
    ensures Accounts(catalog, behave, RunAll(catalog, mark, behave, rounds))
  {
    hide Safe, Accounts, ObserveAll;
    if rounds == [] {
      StartAccounts(catalog, behave);
    } else {
      var front := rounds[..|rounds| - 1];
      EveryRunAccounts(catalog, mark, behave, front);
      EveryRunIsSafe(catalog, mark, behave, front);
      ObserveAllAccounts(catalog, mark, behave, RunAll(catalog, mark, behave, front), rounds[|rounds| - 1].calls);
    }
  }

  /** A place, or an anchor, is in the trace exactly when some call that was made offered it. */
  lemma FoundIffOffered(catalog: Catalog, mark: ToolCall -> string, behave: nat -> ToolOutcome, rounds: seq<Round>, x: string)
    ensures var s := RunAll(catalog, mark, behave, rounds);
            && (x in s.rows <==> IsOffered(RowOffers(catalog, behave, s.callsMade), x))
            && (x in s.anchors <==> IsOffered(AnchorOffers(catalog, behave, s.callsMade), x))
  {
    hide RunAll, Collects, IsOffered;
    EveryRunAccounts(catalog, mark, behave, rounds);
    var s := RunAll(catalog, mark, behave, rounds);
    CollectsWhatIsOffered(RowOffers(catalog, behave, s.callsMade), s.rows, x);
    CollectsWhatIsOffered(AnchorOffers(catalog, behave, s.callsMade), s.anchors, x);
  }

  /** No place repeats in the trace if and only if no single result names a place twice that no earlier one named. */
  lemma PlacesRepeatIff(catalog: Catalog, mark: ToolCall -> string, behave: nat -> ToolOutcome, rounds: seq<Round>)
    ensures var s := RunAll(catalog, mark, behave, rounds);
            NoRepeats(s.rows) <==> OffersNewOnce(RowOffers(catalog, behave, s.callsMade))
  {
    hide RunAll, Collects, NoRepeats, OffersNewOnce;
    EveryRunAccounts(catalog, mark, behave, rounds);
    var s := RunAll(catalog, mark, behave, rounds);
    RepeatsIff(RowOffers(catalog, behave, s.callsMade), s.rows);
  }

  /** The failing input: one search that finds the same place twice leaves it twice in the trace. */
  lemma OneResultCanRepeat(mark: ToolCall -> string)
    ensures var catalog: Catalog := map["category_search" := Tool(args => "", false)];
            var behave: nat -> ToolOutcome := n => Finished(["126508", "126508"], "", [], None, false);
            var round := Round([ToolCall("category_search", map[])], [""]);
            RunAll(catalog, mark, behave, [round]).rows == ["126508", "126508"]
  {
    var catalog: Catalog := map["category_search" := Tool(args => "", false)];
    var behave: nat -> ToolOutcome := n => Finished(["126508", "126508"], "", [], None, false);
    var calls := [ToolCall("category_search", map[])];
    var round := Round(calls, [""]);
    assert [round][..0] == [] && calls[..0] == [];
    assert RunAll(catalog, mark, behave, []) == START && ObserveAll(catalog, mark, behave, START, []) == START;
    assert RunAll(catalog, mark, behave, [round]) == Observed(catalog, mark, behave, START, calls[0]);
    assert Fresh([], ["126508", "126508"]) == ["126508", "126508"];
  }

  // ----- answers -----

  /** The model is told what the call it made came to, or why it was not made. */
  ghost predicate AnswerIsTrue(catalog: Catalog, mark: ToolCall -> string, behave: nat -> ToolOutcome, s: State, call: ToolCall,
                               next: State, answer: string)
  {
    if s.halt then next == s && answer == HALTED
    else if |s.callsMade| >= MAX_TOOL_CALLS || exists c :: c in s.callsMade && mark(c) == mark(call) then
      next == s && answer == REPEATED
    else
      && next.callsMade == s.callsMade + [call]
      && answer == if call.name !in catalog then UNKNOWN_TOOL
                   else match behave(|s.callsMade|)
                        case TimedOut => TIMED_OUT
                        case Finished(_, observation, _, _, _) => observation
  }

  lemma OneAnswerIsTrue(catalog: Catalog, mark: ToolCall -> string, behave: nat -> ToolOutcome, s: State, call: ToolCall)
    requires Safe(catalog, mark, behave, s)
    ensures AnswerIsTrue(catalog, mark, behave, s, call, Observed(catalog, mark, behave, s, call),
                         Answer(catalog, mark, behave, s, call))
  {
    SafeIsCounted(catalog, mark, behave, s);
    hide Safe, BadgeOf, FactsOf, Fresh, Stops;
  }

  lemma {:induction false} ToldAt(catalog: Catalog, mark: ToolCall -> string, behave: nat -> ToolOutcome,
                                  rounds: seq<Round>, r: nat)
    requires Told(catalog, mark, behave, rounds) && r < |rounds|
    ensures rounds[r].observed
            == AnswerAll(catalog, mark, behave, RunAll(catalog, mark, behave, rounds[..r]), rounds[r].calls)
  {
    hide AnswerAll, RunAll;
    var front := rounds[..|rounds| - 1];
    if r < |front| {
      ToldAt(catalog, mark, behave, front, r);
      assert front[..r] == rounds[..r];
    }
  }

  lemma {:induction false} AnswerAt(catalog: Catalog, mark: ToolCall -> string, behave: nat -> ToolOutcome, s: State,
                                    calls: seq<ToolCall>, c: nat)
    requires c < |calls|
    ensures AnswerAll(catalog, mark, behave, s, calls)[c]
            == Answer(catalog, mark, behave, ObserveAll(catalog, mark, behave, s, calls[..c]), calls[c])
  {
    hide Answer, ObserveAll;
    var front := calls[..|calls| - 1];
    if c < |front| {
      AnswerAt(catalog, mark, behave, s, front, c);
      assert front[..c] == calls[..c];
    }
  }

  /** Every answer of every round is true of the calls made before it. */
  lemma EveryAnswerIsTrue(catalog: Catalog, mark: ToolCall -> string, behave: nat -> ToolOutcome, rounds: seq<Round>,
                          r: nat, c: nat)
    requires Told(catalog, mark, behave, rounds) && r < |rounds| && c < |rounds[r].calls|
    ensures |rounds[r].observed| == |rounds[r].calls|
    ensures var start, calls := RunAll(catalog, mark, behave, rounds[..r]), rounds[r].calls;
            AnswerIsTrue(catalog, mark, behave, ObserveAll(catalog, mark, behave, start, calls[..c]), calls[c],
                         ObserveAll(catalog, mark, behave, start, calls[..c + 1]), rounds[r].observed[c])
  {
    hide Told, RunAll, Safe, Observed, Answer, AnswerIsTrue, AnswerAll;
    var start, calls := RunAll(catalog, mark, behave, rounds[..r]), rounds[r].calls;
    ToldAt(catalog, mark, behave, rounds, r);
    AnswerAt(catalog, mark, behave, start, calls, c);
    EveryRunIsSafe(catalog, mark, behave, rounds[..r]);
    ObserveAllStaysSafe(catalog, mark, behave, start, calls[..c]);
    OneAnswerIsTrue(catalog, mark, behave, ObserveAll(catalog, mark, behave, start, calls[..c]), calls[c]);
    assert calls[..c + 1][..c] == calls[..c];
  }
}
