/**
 The tool loop and the chat stream together: the search of a chat turn is a routed question, its signals are
 the loop's, and its result carries the loop's steps.
 */
module RoutedChat {
  import opened Wrappers
  import opened Routing
  import opened Digits
  import opened Steps
  import ToolLoop
  import ChatStream

  /** The turn's signals and steps are those of the trace that `Route` left. */
  predicate ShowsTrace(turn: ChatStream.Turn, s: ToolLoop.State) {
    turn.signals == s.signals && turn.search.Found? && turn.search.result.steps == s.steps
  }

  /** Whatever the model and the tools did, the stream reports every tool run exactly once, run then done, in order. */
  lemma EveryToolRunIsReportedOnce(catalog: ToolLoop.Catalog, mark: ToolCall -> string, behave: nat -> ToolLoop.ToolOutcome,
                                   s: ToolLoop.State, turn: ChatStream.Turn)
    requires ToolLoop.Safe(catalog, mark, behave, s) && ShowsTrace(turn, s)
    ensures ChatStream.Sent(turn)
            == ChatStream.StepEvents(SignalsOf(s.steps)) + ChatStream.CardEvents(turn.search.result) + ChatStream.AnswerEvents(turn)
  {
    assert s.steps[..|s.steps|] == s.steps;
    ChatStream.EveryStepIsReportedOnce(turn, |s.steps|);
  }

  /** No step of the loop carries the badge of the keyword fallback. */
  predicate NoFallback(steps: seq<Step>) {
    forall i | 0 <= i < |steps| :: steps[i].badge != FALLBACK
  }

  /** No text the loop shows is the fallback's: a number of places starts with a digit, the others differ. */
  lemma LoopBadgesAreNotTheFallback(tool: ToolLoop.Tool, outcome: ToolLoop.ToolOutcome)
    ensures ToolLoop.BadgeOf(tool, outcome) != FALLBACK
  {
    assert LOOKED[0] != FALLBACK[0] && LATE[0] != FALLBACK[0];
    if outcome.Finished? {
      assert IsDigit(Decimal(|outcome.rows|)[0]) && Places(|outcome.rows|)[0] == Decimal(|outcome.rows|)[0];
    }
  }

  lemma ObservingAddsNoFallback(catalog: ToolLoop.Catalog, mark: ToolCall -> string, behave: nat -> ToolLoop.ToolOutcome,
                                s: ToolLoop.State, call: ToolCall)
    requires NoFallback(s.steps)
    ensures NoFallback(ToolLoop.Observed(catalog, mark, behave, s, call).steps)
  {
    hide ToolLoop.BadgeOf;
    if call.name in catalog { LoopBadgesAreNotTheFallback(catalog[call.name], behave(s.calls)); }
  }

  lemma {:induction false} CallsAddNoFallback(catalog: ToolLoop.Catalog, mark: ToolCall -> string,
                                              behave: nat -> ToolLoop.ToolOutcome, s: ToolLoop.State, calls: seq<ToolCall>)
    requires NoFallback(s.steps)
    ensures NoFallback(ToolLoop.ObserveAll(catalog, mark, behave, s, calls).steps)
  {
    hide ToolLoop.Observed, NoFallback;
    if calls != [] {
      var init := calls[..|calls| - 1];
      CallsAddNoFallback(catalog, mark, behave, s, init);
      ObservingAddsNoFallback(catalog, mark, behave, ToolLoop.ObserveAll(catalog, mark, behave, s, init), calls[|calls| - 1]);
    }
  }

  /**
   The branch that skips the writer waits for a badge no routed search gives: after any rounds the model does
   not read as down, so such a turn is never answered without asking the writer.
   */
  lemma {:induction false} RoutedSearchNeverSkipsTheWriter(catalog: ToolLoop.Catalog, mark: ToolCall -> string,
                                                           behave: nat -> ToolLoop.ToolOutcome, rounds: seq<Round>)
    ensures NoFallback(ToolLoop.RunAll(catalog, mark, behave, rounds).steps)
    ensures forall result: ChatStream.Result :: result.steps == ToolLoop.RunAll(catalog, mark, behave, rounds).steps ==>
              !ChatStream.ModelIsDown(result)
  {
    if rounds != [] {
      var init := rounds[..|rounds| - 1];
      RoutedSearchNeverSkipsTheWriter(catalog, mark, behave, init);
      hide ToolLoop.ObserveAll;
      CallsAddNoFallback(catalog, mark, behave, ToolLoop.RunAll(catalog, mark, behave, init), rounds[|rounds| - 1].calls);
    }
  }
}
