/**
 The tool-calling loop: a language model, here any sequence of replies, picks tools; the code caps the
 calls, refuses repeats, stops after a halting result, and keeps a conversation every provider accepts.
 Tools are any behaviour per call made; the clock is any strictly increasing reading.
 */
module ToolLoop {
  import opened Wrappers
  import opened Routing
  import opened Steps

  const MAX_TOOL_CALLS := 4
  const MAX_CALLS_PER_ROUND := 3
  const TOTAL_BUDGET_MS := 12000

  const UNKNOWN_TOOL := "unknown tool"
  const TIMED_OUT := "timed out"
  const REPEATED := "repeated"
  const HALTED := "halted"

  /** What one run of a tool comes to; places are named by their content ids. */
  datatype ToolOutcome =
    | TimedOut
    | Finished(rows: seq<string>, observation: string, anchors: seq<string>, fact: Option<string>, stop: bool)

  /** A catalogued tool: its display label for given arguments, and whether its observation is the answer. */
  datatype Tool = Tool(caption: Args -> string, carriesFacts: bool)

  type Catalog = map<string, Tool>

  datatype Reply = Down | Decision(calls: seq<ToolCall>)

  datatype Stopped = ByModel | CallLimit | Budget | LlmDown | Halted

  function Fresh(known: seq<string>, more: seq<string>): seq<string> {
    if more == [] then [] else (if more[0] in known then [] else [more[0]]) + Fresh(known, more[1..])
  }

  function BadgeOf(tool: Tool, outcome: ToolOutcome): string {
    match outcome
    case TimedOut => LATE
    case Finished(rows, _, _, _, _) => if tool.carriesFacts then LOOKED else Places(|rows|)
  }

  /** The facts a finished tool adds to the trace. */
  function FactsOf(tool: Tool, outcome: ToolOutcome): seq<string> {
    match outcome
    case TimedOut => []
    case Finished(_, observation, _, fact, _) =>
      if tool.carriesFacts then [observation]
      else if fact.Some? && fact.value != "" then [fact.value] else []
  }

  function ObservationOf(outcome: ToolOutcome): string {
    if outcome.TimedOut? then TIMED_OUT else outcome.observation
  }

  function Stops(catalog: Catalog, call: ToolCall, outcome: ToolOutcome): bool {
    call.name in catalog && outcome.Finished? && outcome.stop
  }

  /** Everything of the trace a call can change. */
  datatype State = State(
    rows: seq<string>, steps: seq<Step>, callsMade: seq<ToolCall>, facts: seq<string>, anchors: seq<string>,
    signals: seq<Signal>, fired: set<string>, calls: nat, halt: bool)

  /** A known tool ran. */
  function RunTool(catalog: Catalog, s: State, call: ToolCall, outcome: ToolOutcome): State
    requires call.name in catalog
  {
    var tool := catalog[call.name];
    var caption := tool.caption(call.args);
    var badge := BadgeOf(tool, outcome);
    s.(steps := s.steps + [Step(call.name, caption, badge)],
       signals := s.signals + [Run(|s.steps|, caption), Done(|s.steps|, caption, badge)],
       facts := s.facts + FactsOf(tool, outcome),
       halt := s.halt || Stops(catalog, call, outcome),
       anchors := s.anchors + if outcome.Finished? then Fresh(s.anchors, outcome.anchors) else [],
       rows := s.rows + if outcome.Finished? && !tool.carriesFacts then Fresh(s.rows, outcome.rows) else [])
  }

  /** The effect of observing one call, as a function. */
  function Observed(catalog: Catalog, mark: ToolCall -> string, behave: nat -> ToolOutcome, s: State, call: ToolCall)
    : State
  {
    if s.halt || s.calls >= MAX_TOOL_CALLS || mark(call) in s.fired then s
    else
      var counted := s.(fired := s.fired + {mark(call)}, calls := s.calls + 1, callsMade := s.callsMade + [call]);
      if call.name in catalog then RunTool(catalog, counted, call, behave(s.calls)) else counted
  }

  /** What the model is told. */
  function Answer(catalog: Catalog, mark: ToolCall -> string, behave: nat -> ToolOutcome, s: State, call: ToolCall)
    : string
  {
    if s.halt then HALTED
    else if s.calls >= MAX_TOOL_CALLS || mark(call) in s.fired then REPEATED
    else if call.name in catalog then ObservationOf(behave(s.calls)) else UNKNOWN_TOOL
  }

  class Trace {
    var rows: seq<string>
    var steps: seq<Step>
    var callsMade: seq<ToolCall>
    var facts: seq<string>
    var anchors: seq<string>
    var signals: seq<Signal>
    var fired: set<string>
    var calls: nat
    var halt: bool
    var rounds: nat
    var stopped: Stopped

    constructor ()
      ensures View() == State([], [], [], [], [], [], {}, 0, false) && rounds == 0 && stopped == ByModel
    {
      rows, steps, callsMade, facts, anchors, signals := [], [], [], [], [], [];
      fired, calls, halt, rounds, stopped := {}, 0, false, 0, ByModel;
    }

    ghost function View(): State
      reads `rows, `steps, `callsMade, `facts, `anchors, `signals, `fired, `calls, `halt
    {
      State(rows, steps, callsMade, facts, anchors, signals, fired, calls, halt)
    }

    method Begin(caption: string)
      modifies this`signals
      ensures signals == old(signals) + [Run(|steps|, caption)]
    {
      signals := signals + [Run(|steps|, caption)];
    }

    method Finish(step: Step)
      modifies this`signals, this`steps
      ensures steps == old(steps) + [step]
      ensures signals == old(signals) + [Done(|old(steps)|, step.caption, step.badge)]
    {
      steps := steps + [step];
      signals := signals + [Done(|steps| - 1, step.caption, step.badge)];
    }

    method RunOne(catalog: Catalog, call: ToolCall, outcome: ToolOutcome) returns (observation: string)
      modifies this`signals, this`steps, this`facts, this`halt, this`anchors, this`rows
      ensures View() == if call.name in catalog then RunTool(catalog, old(View()), call, outcome) else old(View())
      ensures observation == if call.name in catalog then ObservationOf(outcome) else UNKNOWN_TOOL
    {
      hide Fresh, Places, LOOKED, LATE;
      if call.name !in catalog {
        return UNKNOWN_TOOL;
      }
      var tool := catalog[call.name];
      var caption := tool.caption(call.args);
      Begin(caption);
      match outcome {
        case TimedOut =>
          Finish(Step(call.name, caption, LATE));
          return TIMED_OUT;
        case Finished(found, said, around, fact, stop) =>
          Finish(Step(call.name, caption, if tool.carriesFacts then LOOKED else Places(|found|)));
          if tool.carriesFacts {
            facts := facts + [said];
          } else if fact.Some? && fact.value != "" {
            facts := facts + [fact.value];
          }
          if stop {
            halt := true;
          }
          anchors := anchors + Fresh(anchors, around);
          if !tool.carriesFacts {
            rows := rows + Fresh(rows, found);
          }
          return said;
      }
    }

    /** `behave` gives the outcome of the n-th call that is actually made. */
    method Observe(catalog: Catalog, mark: ToolCall -> string, behave: nat -> ToolOutcome, call: ToolCall)
      returns (observation: string)
      modifies this`signals, this`steps, this`facts, this`halt, this`anchors, this`rows,
               this`fired, this`calls, this`callsMade
      ensures View() == Observed(catalog, mark, behave, old(View()), call)
      ensures observation == Answer(catalog, mark, behave, old(View()), call)
    {
      if halt {
        return HALTED;
      }
      if calls >= MAX_TOOL_CALLS {
        return REPEATED;
      }
      var fingerprint := mark(call);
      if fingerprint in fired {
        return REPEATED;
      }
      fired := fired + {fingerprint};
      calls := calls + 1;
      callsMade := callsMade + [call];
      observation := RunOne(catalog, call, behave(calls - 1));
    }
  }

  // ----- what observing keeps -----

  function Marks(mark: ToolCall -> string, calls: seq<ToolCall>): set<string> {
    set c | c in calls :: mark(c)
  }

  /** The caps: every call made was counted and fired under its own fingerprint. */
  ghost predicate Counted(mark: ToolCall -> string, s: State) {
    && s.calls == |s.callsMade| <= MAX_TOOL_CALLS
    && s.fired == Marks(mark, s.callsMade) && |s.fired| == |s.callsMade|
  }

  /** Nothing is called after a result that stops: only the last call made can have been one. */
  ghost predicate NothingAfterStop(catalog: Catalog, behave: nat -> ToolOutcome, s: State) {
    && (forall i | 0 <= i < |s.callsMade| - 1 :: !Stops(catalog, s.callsMade[i], behave(i)))
    && (s.halt <==> s.callsMade != [] && Stops(catalog, s.callsMade[|s.callsMade| - 1], behave(|s.callsMade| - 1)))
  }

  ghost predicate Safe(catalog: Catalog, mark: ToolCall -> string, behave: nat -> ToolOutcome, s: State) {
    Counted(mark, s) && NothingAfterStop(catalog, behave, s) && s.signals == SignalsOf(s.steps)
  }

  lemma MoreMarks(mark: ToolCall -> string, calls: seq<ToolCall>, call: ToolCall)
    ensures Marks(mark, calls + [call]) == Marks(mark, calls) + {mark(call)}
  {
  }

  lemma ObservingStaysCounted(catalog: Catalog, mark: ToolCall -> string, behave: nat -> ToolOutcome, s: State,
                              call: ToolCall)
    requires Counted(mark, s)
    ensures Counted(mark, Observed(catalog, mark, behave, s, call))
  {
    hide Marks, BadgeOf, FactsOf, Fresh, Stops;
    MoreMarks(mark, s.callsMade, call);
  }

  lemma ObservingStopsInTime(catalog: Catalog, mark: ToolCall -> string, behave: nat -> ToolOutcome, s: State,
                             call: ToolCall)
    requires s.calls == |s.callsMade| && NothingAfterStop(catalog, behave, s)
    ensures NothingAfterStop(catalog, behave, Observed(catalog, mark, behave, s, call))
  {
    hide BadgeOf, FactsOf, Fresh;
    var next := Observed(catalog, mark, behave, s, call);
    assert next == s || next.callsMade == s.callsMade + [call];
    assert next == s || (next.halt <==> Stops(catalog, call, behave(s.calls)));
    hide RunTool, Stops, Observed;
  }

  lemma ObservingStaysSafe(catalog: Catalog, mark: ToolCall -> string, behave: nat -> ToolOutcome, s: State, call: ToolCall)
    requires Safe(catalog, mark, behave, s)
    ensures Safe(catalog, mark, behave, Observed(catalog, mark, behave, s, call))
  {
    hide BadgeOf, FactsOf, Fresh, Stops;
    ObservingStaysCounted(catalog, mark, behave, s, call);
    ObservingStopsInTime(catalog, mark, behave, s, call);
    hide Counted, NothingAfterStop;
    if call.name in catalog {
      var tool := catalog[call.name];
      MoreSignals(s.steps, Step(call.name, tool.caption(call.args), BadgeOf(tool, behave(s.calls))));
    }
  }

  // ----- the loop -----

  function Picked(calls: seq<ToolCall>): seq<ToolCall> {
    if |calls| <= MAX_CALLS_PER_ROUND then calls else calls[..MAX_CALLS_PER_ROUND]
  }

  /** The calls of the rounds: the opening call if there is one, then what the model asked for, capped. */
  ghost predicate Obeys(model: nat -> Reply, opening: Option<ToolCall>, rounds: seq<Round>) {
    var first := if opening.Some? then 1 else 0;
    && |rounds| >= first
    && (opening.Some? ==> rounds[0].calls == [opening.value])
    && forall i | first <= i < |rounds| :: Follows(model(i - first), rounds[i])
  }

  predicate Follows(reply: Reply, r: Round) {
    reply.Decision? && r.calls <= reply.calls
    && |r.calls| == if |reply.calls| <= MAX_CALLS_PER_ROUND then |reply.calls| else MAX_CALLS_PER_ROUND
  }

  /** The state after a list of calls, and what was answered to each. */
  function ObserveAll(catalog: Catalog, mark: ToolCall -> string, behave: nat -> ToolOutcome, s: State, calls: seq<ToolCall>)
    : State
  {
    if calls == [] then s
    else Observed(catalog, mark, behave, ObserveAll(catalog, mark, behave, s, calls[..|calls| - 1]), calls[|calls| - 1])
  }

  function AnswerAll(catalog: Catalog, mark: ToolCall -> string, behave: nat -> ToolOutcome, s: State, calls: seq<ToolCall>)
    : (answers: seq<string>)
    ensures |answers| == |calls|
  {
    if calls == [] then []
    else
      var init := calls[..|calls| - 1];
      AnswerAll(catalog, mark, behave, s, init)
      + [Answer(catalog, mark, behave, ObserveAll(catalog, mark, behave, s, init), calls[|calls| - 1])]
  }

  const START := State([], [], [], [], [], [], {}, 0, false)

  /** The state after whole rounds, each call observed in order. */
  function RunAll(catalog: Catalog, mark: ToolCall -> string, behave: nat -> ToolOutcome, rounds: seq<Round>): State {
    if rounds == [] then START
    else
      ObserveAll(catalog, mark, behave, RunAll(catalog, mark, behave, rounds[..|rounds| - 1]), rounds[|rounds| - 1].calls)
  }

  /** Every round tells the model exactly what observing its calls gave. */
  ghost predicate Told(catalog: Catalog, mark: ToolCall -> string, behave: nat -> ToolOutcome, rounds: seq<Round>) {
    rounds != [] ==>
      var init, last := rounds[..|rounds| - 1], rounds[|rounds| - 1];
      && Told(catalog, mark, behave, init)
      && last.observed == AnswerAll(catalog, mark, behave, RunAll(catalog, mark, behave, init), last.calls)
  }

  lemma {:induction false} ObserveAllStaysSafe(catalog: Catalog, mark: ToolCall -> string, behave: nat -> ToolOutcome,
                                               s: State, calls: seq<ToolCall>)
    requires Safe(catalog, mark, behave, s)
    ensures Safe(catalog, mark, behave, ObserveAll(catalog, mark, behave, s, calls))
  {
    hide Safe, Observed;
    if calls != [] {
      var init := calls[..|calls| - 1];
      ObserveAllStaysSafe(catalog, mark, behave, s, init);
      ObservingStaysSafe(catalog, mark, behave, ObserveAll(catalog, mark, behave, s, init), calls[|calls| - 1]);
    }
  }

  /** Whatever the rounds: the caps hold, nothing follows a stop, and the signals are those of the steps. */
  lemma {:induction false} EveryRunIsSafe(catalog: Catalog, mark: ToolCall -> string, behave: nat -> ToolOutcome,
                                          rounds: seq<Round>)
    ensures Safe(catalog, mark, behave, RunAll(catalog, mark, behave, rounds))
  {
    hide Safe, ObserveAll;
    if rounds == [] {
      StartIsSafe(catalog, mark, behave);
    } else {
      var init := rounds[..|rounds| - 1];
      EveryRunIsSafe(catalog, mark, behave, init);
      ObserveAllStaysSafe(catalog, mark, behave, RunAll(catalog, mark, behave, init), rounds[|rounds| - 1].calls);
    }
  }

  /** Why the loop ended, in terms of what the model and the clock said at that point. */
  ghost predicate EndedFor(stopped: Stopped, s: State, reply: Reply, late: bool) {
    match stopped
    case CallLimit => s.calls >= MAX_TOOL_CALLS
    case Budget => s.calls < MAX_TOOL_CALLS && late
    case LlmDown => s.calls < MAX_TOOL_CALLS && !late && reply.Down?
    case ByModel => s.calls < MAX_TOOL_CALLS && !late && reply == Decision([])
    case Halted => s.halt
  }

  /** What holds before every request: `rounds` explains the trace, the conversation and who asked for what. */
  ghost predicate Explains(catalog: Catalog, mark: ToolCall -> string, behave: nat -> ToolOutcome, model: nat -> Reply,
                           question: string, opening: Option<ToolCall>, rounds: seq<Round>, s: State, turns: seq<Turn>,
                           requests: nat)
  {
    && s == RunAll(catalog, mark, behave, rounds) && Told(catalog, mark, behave, rounds)
    && AllAnswered(rounds) && turns == Conversation(question, rounds)
    && Obeys(model, opening, rounds) && |rounds| == requests + if opening.Some? then 1 else 0
  }

  lemma NothingYet(catalog: Catalog, mark: ToolCall -> string, behave: nat -> ToolOutcome, model: nat -> Reply, question: string)
    ensures Explains(catalog, mark, behave, model, question, None, [], START, [User(question)], 0)
    ensures Safe(catalog, mark, behave, START)
  {
    StartIsSafe(catalog, mark, behave);
    NoRoundsYet(catalog, mark, behave, question);
  }

  lemma OpeningExplained(catalog: Catalog, mark: ToolCall -> string, behave: nat -> ToolOutcome, model: nat -> Reply,
                         question: string, call: ToolCall, observed: seq<string>)
    requires observed == AnswerAll(catalog, mark, behave, START, [call])
    ensures var r := Round([call], observed);
            Explains(catalog, mark, behave, model, question, Some(call), [r],
                     ObserveAll(catalog, mark, behave, START, [call]), [User(question)] + [Call([call])] + Observations(r), 0)
    ensures Safe(catalog, mark, behave, ObserveAll(catalog, mark, behave, START, [call]))
  {
    StartIsSafe(catalog, mark, behave);
    ObserveAllStaysSafe(catalog, mark, behave, START, [call]);
    var r := Round([call], observed);
    NoRoundsYet(catalog, mark, behave, question);
    hide RunAll, Told, Conversation, ObserveAll, AnswerAll, Observations;
    OneMoreRound(catalog, mark, behave, question, [], r);
    assert [] + [r] == [r];
    OpeningObeys(model, Some(call));
  }

  lemma RoundExplained(catalog: Catalog, mark: ToolCall -> string, behave: nat -> ToolOutcome, model: nat -> Reply,
                       question: string, opening: Option<ToolCall>, rounds: seq<Round>, s: State, turns: seq<Turn>,
                       requests: nat, observed: seq<string>)
    requires Explains(catalog, mark, behave, model, question, opening, rounds, s, turns, requests)
    requires model(requests).Decision? && model(requests).calls != []
    requires observed == AnswerAll(catalog, mark, behave, s, Picked(model(requests).calls))
    ensures var r := Round(Picked(model(requests).calls), observed);
            Explains(catalog, mark, behave, model, question, opening, rounds + [r],
                     ObserveAll(catalog, mark, behave, s, r.calls), turns + [Call(r.calls)] + Observations(r), requests + 1)
    ensures Safe(catalog, mark, behave, s) ==>
              Safe(catalog, mark, behave, ObserveAll(catalog, mark, behave, s, Picked(model(requests).calls)))
  {
    hide Safe;
    if Safe(catalog, mark, behave, s) { ObserveAllStaysSafe(catalog, mark, behave, s, Picked(model(requests).calls)); }
    var r := Round(Picked(model(requests).calls), observed);
    hide RunAll, Told, Conversation, ObserveAll, AnswerAll, Observations, Obeys;
    PickedSome(model(requests).calls);
    OneMoreRound(catalog, mark, behave, question, rounds, r);
    RoundObeys(model, opening, rounds, r);
  }

  /** The start of `route`: the question, and the opening call when the code has already chosen one. */
  method Open(trace: Trace, catalog: Catalog, mark: ToolCall -> string, behave: nat -> ToolOutcome,
              ghost model: nat -> Reply, question: string, opening: Option<ToolCall>)
    returns (turns: seq<Turn>, ghost rounds: seq<Round>)
    requires trace.View() == START
    modifies trace`signals, trace`steps, trace`facts, trace`halt, trace`anchors, trace`rows,
             trace`fired, trace`calls, trace`callsMade
    ensures Explains(catalog, mark, behave, model, question, opening, rounds, trace.View(), turns, 0)
    ensures Safe(catalog, mark, behave, trace.View())
  {
    hide Observed, Answer, Explains, ObserveAll, AnswerAll, Observations, Safe;
    turns := [User(question)];
    rounds := [];
    if opening.Some? {
      var observed;
      turns, observed := RunRound(trace, catalog, mark, behave, [opening.value], turns);
      rounds := [Round([opening.value], observed)];
      OpeningExplained(catalog, mark, behave, model, question, opening.value, observed);
    } else {
      NothingYet(catalog, mark, behave, model, question);
    }
  }

  /** One decision played out: its first calls observed, and the round counted. */
  method PlayRound(trace: Trace, catalog: Catalog, mark: ToolCall -> string, behave: nat -> ToolOutcome,
                   ghost model: nat -> Reply, ghost question: string, ghost opening: Option<ToolCall>,
                   ghost before: seq<Round>, turnsBefore: seq<Turn>, calls: seq<ToolCall>)
    returns (turns: seq<Turn>, ghost rounds: seq<Round>)
    requires Explains(catalog, mark, behave, model, question, opening, before, trace.View(), turnsBefore, trace.rounds)
    requires Safe(catalog, mark, behave, trace.View())
    requires model(trace.rounds) == Decision(calls) && calls != []
    modifies trace
    ensures Explains(catalog, mark, behave, model, question, opening, rounds, trace.View(), turns, trace.rounds)
    ensures Safe(catalog, mark, behave, trace.View()) && trace.rounds == old(trace.rounds) + 1
  {
    hide Observed, Answer, Explains, Picked, ObserveAll, AnswerAll, Observations, Safe;
    ghost var s := trace.View();
    var picked := Picked(calls);
    var observed;
    turns, observed := RunRound(trace, catalog, mark, behave, picked, turnsBefore);
    RoundExplained(catalog, mark, behave, model, question, opening, before, s, turnsBefore, trace.rounds, observed);
    rounds := before + [Round(picked, observed)];
    trace.rounds := trace.rounds + 1;
  }

  /**
   One question routed to its end.  `clock(0)` is read at the start and `clock(n + 1)` before the n-th
   request to the model.
   */
  method Route(catalog: Catalog, mark: ToolCall -> string, behave: nat -> ToolOutcome, model: nat -> Reply,
               clock: nat -> int, question: string, opening: Option<ToolCall>)
    returns (trace: Trace, turns: seq<Turn>, ghost rounds: seq<Round>)
    requires forall n: nat :: clock(n) < clock(n + 1)
    ensures fresh(trace)
    ensures Explains(catalog, mark, behave, model, question, opening, rounds, trace.View(), turns, trace.rounds)
    ensures Safe(catalog, mark, behave, trace.View())
    ensures EndedFor(trace.stopped, trace.View(), model(trace.rounds), clock(trace.rounds + 1) >= clock(0) + TOTAL_BUDGET_MS)
  {
    hide Observed, Answer, Explains, Picked, ObserveAll, AnswerAll, Observations, Safe;
    trace := new Trace();
    var deadline := clock(0) + TOTAL_BUDGET_MS;
    turns, rounds := Open(trace, catalog, mark, behave, model, question, opening);
    var stopped := ByModel;
    ghost var s := trace.View();
    while true
      invariant fresh(trace) && trace.View() == s
      invariant Explains(catalog, mark, behave, model, question, opening, rounds, s, turns, trace.rounds)
      invariant Safe(catalog, mark, behave, s)
      decreases deadline - clock(trace.rounds + 1)
    {
      if trace.calls >= MAX_TOOL_CALLS {
        stopped := CallLimit;
        break;
      }
      if clock(trace.rounds + 1) >= deadline {
        stopped := Budget;
        break;
      }
      var reply := model(trace.rounds);
      if reply.Down? {
        stopped := LlmDown;
        break;
      }
      if reply.calls == [] {
        stopped := ByModel;
        break;
      }
      turns, rounds := PlayRound(trace, catalog, mark, behave, model, question, opening, rounds, turns, reply.calls);
      s := trace.View();
      if trace.halt {
        stopped := Halted;
        break;
      }
    }
    assert EndedFor(stopped, s, model(trace.rounds), clock(trace.rounds + 1) >= deadline);
    hide EndedFor;
    trace.stopped := stopped;
  }

  lemma OpeningObeys(model: nat -> Reply, opening: Option<ToolCall>)
    ensures opening.None? ==> Obeys(model, opening, [])
    ensures opening.Some? ==> forall observed :: Obeys(model, opening, [Round([opening.value], observed)])
  {
  }

  lemma RoundObeys(model: nat -> Reply, opening: Option<ToolCall>, rounds: seq<Round>, r: Round)
    requires Obeys(model, opening, rounds)
    requires var n := |rounds| - if opening.Some? then 1 else 0;
             Follows(model(n), r)
    ensures Obeys(model, opening, rounds + [r])
  {
    hide Follows;
    var first := if opening.Some? then 1 else 0;
    var more := rounds + [r];
    forall i | first <= i < |more|
      ensures Follows(model(i - first), more[i])
    {
      if i < |rounds| { assert more[i] == rounds[i]; }
    }
    assert opening.Some? ==> more[0] == rounds[0];
  }

  lemma StartIsSafe(catalog: Catalog, mark: ToolCall -> string, behave: nat -> ToolOutcome)
    ensures Safe(catalog, mark, behave, START)
  {
    assert Marks(mark, []) == {};
  }

  lemma NoRoundsYet(catalog: Catalog, mark: ToolCall -> string, behave: nat -> ToolOutcome, question: string)
    ensures Conversation(question, []) == [User(question)] && AllAnswered([])
    ensures RunAll(catalog, mark, behave, []) == START && Told(catalog, mark, behave, [])
  {
  }

  lemma PickedSome(calls: seq<ToolCall>)
    ensures calls != [] ==> Picked(calls) != []
  {
  }

  lemma OneMoreRound(catalog: Catalog, mark: ToolCall -> string, behave: nat -> ToolOutcome, question: string,
                     rounds: seq<Round>, r: Round)
    requires AllAnswered(rounds) && Answered(r) && Told(catalog, mark, behave, rounds)
    requires r.observed == AnswerAll(catalog, mark, behave, RunAll(catalog, mark, behave, rounds), r.calls)
    ensures AllAnswered(rounds + [r]) && Told(catalog, mark, behave, rounds + [r])
    ensures Conversation(question, rounds + [r]) == Conversation(question, rounds) + [Call(r.calls)] + Observations(r)
    ensures RunAll(catalog, mark, behave, rounds + [r])
            == ObserveAll(catalog, mark, behave, RunAll(catalog, mark, behave, rounds), r.calls)
  {
    hide ObserveAll, AnswerAll;
    assert (rounds + [r])[..|rounds|] == rounds;
  }

  /** The inner loop: every picked call is observed, in order, whatever the caps make of it. */
  method RunRound(trace: Trace, catalog: Catalog, mark: ToolCall -> string, behave: nat -> ToolOutcome,
                  picked: seq<ToolCall>, before: seq<Turn>)
    returns (turns: seq<Turn>, observed: seq<string>)
    modifies trace`signals, trace`steps, trace`facts, trace`halt, trace`anchors, trace`rows,
             trace`fired, trace`calls, trace`callsMade
    ensures trace.View() == ObserveAll(catalog, mark, behave, old(trace.View()), picked)
    ensures observed == AnswerAll(catalog, mark, behave, old(trace.View()), picked)
    ensures turns == before + [Call(picked)] + Observations(Round(picked, observed))
  {
    hide Observed, Answer;
    turns := before + [Call(picked)];
    observed := [];
    var i := 0;
    while i < |picked|
      invariant 0 <= i <= |picked| && |observed| == i
      invariant trace.View() == ObserveAll(catalog, mark, behave, old(trace.View()), picked[..i])
      invariant observed == AnswerAll(catalog, mark, behave, old(trace.View()), picked[..i])
      invariant turns == before + [Call(picked)] + Observations(Round(picked[..i], observed))
    {
      assert picked[..i + 1][..i] == picked[..i];
      var observation := trace.Observe(catalog, mark, behave, picked[i]);
      ghost var was := Observations(Round(picked[..i], observed));
      turns := turns + [Observation(observation, Some(picked[i].name))];
      observed := observed + [observation];
      assert Observations(Round(picked[..i + 1], observed)) == was + [Observation(observation, Some(picked[i].name))];
      i := i + 1;
    }
    assert picked[..i] == picked;
  }
}
