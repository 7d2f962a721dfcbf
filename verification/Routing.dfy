/** The provider-neutral routing conversation and the JSON values tool arguments are made of. */
module Routing {
  import opened Wrappers

  datatype Json =
    | JNull
    | JBool(b: bool)
    | JInt(n: int)
    | JFloat(x: real)
    | JText(s: string)
    | JList(items: seq<Json>)
    | JObject(fields: map<string, Json>)

  type Args = map<string, Json>

  datatype ToolCall = ToolCall(name: string, args: Args)

  datatype Turn =
    | User(text: string)
    | Call(calls: seq<ToolCall>)
    | Observation(text: string, toolName: Option<string>)

  /** One call turn and what was observed for each of its calls. */
  datatype Round = Round(calls: seq<ToolCall>, observed: seq<string>)

  predicate Answered(r: Round) {
    r.calls != [] && |r.observed| == |r.calls|
  }

  predicate AllAnswered(rounds: seq<Round>) {
    forall i | 0 <= i < |rounds| :: Answered(rounds[i])
  }

  function Observations(r: Round): (turns: seq<Turn>)
    requires |r.observed| == |r.calls|
    ensures |turns| == |r.calls|
  {
    seq(|r.calls|, i requires 0 <= i < |r.calls| => Observation(r.observed[i], Some(r.calls[i].name)))
  }

  /** The turns of a conversation: the question, then each call turn followed by its observations. */
  function Conversation(question: string, rounds: seq<Round>): seq<Turn>
    requires AllAnswered(rounds)
  {
    if rounds == [] then [User(question)]
    else
      var r := rounds[|rounds| - 1];
      Conversation(question, rounds[..|rounds| - 1]) + [Call(r.calls)] + Observations(r)
  }
}
