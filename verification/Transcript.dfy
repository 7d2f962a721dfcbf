/**
 The two provider encodings of a conversation.  One groups the responses of a call turn into a single
 content, the other pairs responses with calls by id; both must say the same as the neutral form, so
 each has a decoder here and gives back exactly the turns it was made from.
 */
module Transcript {
  import opened Wrappers
  import opened Digits
  import opened Routing

  // ----- grouped contents -----

  datatype Part =
    | TextPart(text: string)
    | FunctionCall(name: string, args: Args)
    | FunctionResponse(name: string, result: string)

  datatype Content = Content(model: bool, parts: seq<Part>)

  function CallParts(calls: seq<ToolCall>): (ps: seq<Part>)
    ensures |ps| == |calls|
  {
    seq(|calls|, i requires 0 <= i < |calls| => FunctionCall(calls[i].name, calls[i].args))
  }

  function ResponsePart(t: Turn): Part
    requires t.Observation?
  {
    FunctionResponse(if t.toolName.Some? then t.toolName.value else "", t.text)
  }

  /** Contents finished so far, and the responses still waiting to be put into one. */
  datatype Grouping = Grouping(contents: seq<Content>, pending: seq<Part>)

  function Flush(g: Grouping): Grouping {
    if g.pending == [] then g else Grouping(g.contents + [Content(false, g.pending)], [])
  }

  function Group(g: Grouping, t: Turn): Grouping {
    match t
    case Observation(_, _) => g.(pending := g.pending + [ResponsePart(t)])
    case Call(calls) => var f := Flush(g); f.(contents := f.contents + [Content(true, CallParts(calls))])
    case User(text) => var f := Flush(g); f.(contents := f.contents + [Content(false, [TextPart(text)])])
  }

  function GroupAll(turns: seq<Turn>): Grouping {
    if turns == [] then Grouping([], []) else Group(GroupAll(turns[..|turns| - 1]), turns[|turns| - 1])
  }

  function Contents(turns: seq<Turn>): seq<Content> {
    Flush(GroupAll(turns)).contents
  }

  method GeminiContents(turns: seq<Turn>) returns (contents: seq<Content>)
    ensures contents == Contents(turns)
  {
    contents := [];
    var pending: seq<Part> := [];
    var i := 0;
    while i < |turns|
      invariant 0 <= i <= |turns| && Grouping(contents, pending) == GroupAll(turns[..i])
    {
      assert turns[..i + 1][..i] == turns[..i];
      var turn := turns[i];
      i := i + 1;
      if turn.Observation? {
        pending := pending + [ResponsePart(turn)];
        continue;
      }
      if pending != [] {
        contents, pending := contents + [Content(false, pending)], [];
      }
      if turn.Call? {
        contents := contents + [Content(true, CallParts(turn.calls))];
      } else {
        contents := contents + [Content(false, [TextPart(turn.text)])];
      }
    }
    assert turns[..i] == turns;
    if pending != [] {
      contents := contents + [Content(false, pending)];
    }
  }

  function PartTurn(p: Part): Turn {
    match p
    case TextPart(text) => User(text)
    case FunctionCall(name, args) => Call([ToolCall(name, args)])
    case FunctionResponse(name, result) => Observation(result, Some(name))
  }

  function CallsOf(parts: seq<Part>): seq<ToolCall> {
    seq(|parts|, i requires 0 <= i < |parts| =>
      if parts[i].FunctionCall? then ToolCall(parts[i].name, parts[i].args) else ToolCall("", map[]))
  }

  function DecodeContent(c: Content): seq<Turn> {
    if c.model then [Call(CallsOf(c.parts))]
    else seq(|c.parts|, i requires 0 <= i < |c.parts| => PartTurn(c.parts[i]))
  }

  function DecodeContents(cs: seq<Content>): seq<Turn> {
    if cs == [] then [] else DecodeContents(cs[..|cs| - 1]) + DecodeContent(cs[|cs| - 1])
  }

  /** An observation without a tool name is sent with an empty one. */
  function Named(t: Turn): Turn {
    if t.Observation? && t.toolName.None? then t.(toolName := Some("")) else t
  }

  function AllNamed(turns: seq<Turn>): (r: seq<Turn>)
    ensures |r| == |turns| && forall i :: 0 <= i < |turns| ==> r[i] == Named(turns[i])
  {
    seq(|turns|, i requires 0 <= i < |turns| => Named(turns[i]))
  }

  function DecodePending(ps: seq<Part>): seq<Turn> {
    seq(|ps|, i requires 0 <= i < |ps| => PartTurn(ps[i]))
  }

  lemma FlushKeepsMeaning(g: Grouping)
    ensures Flush(g).pending == []
    ensures DecodeContents(Flush(g).contents) == DecodeContents(g.contents) + DecodePending(g.pending)
  {
    if g.pending != [] {
      assert Flush(g).contents[..|g.contents|] == g.contents;
      assert DecodeContent(Content(false, g.pending)) == DecodePending(g.pending);
    }
  }

  lemma {:induction false} GroupingKeepsMeaning(turns: seq<Turn>)
    ensures DecodeContents(GroupAll(turns).contents) + DecodePending(GroupAll(turns).pending) == AllNamed(turns)
  {
    hide PartTurn, DecodeContents, DecodeContent, CallsOf, Flush;
    if turns == [] {
      NothingDecodes();
    } else {
      var front, t := turns[..|turns| - 1], turns[|turns| - 1];
      GroupingKeepsMeaning(front);
      var g := GroupAll(front);
      FlushKeepsMeaning(g);
      assert AllNamed(turns) == AllNamed(front) + [Named(t)];
      TurnKeepsMeaning(g, Flush(g), t);
    }
  }

  lemma NothingDecodes()
    ensures DecodeContents([]) == [] && DecodePending([]) == [] && AllNamed([]) == []
  {
  }

  lemma TurnKeepsMeaning(g: Grouping, f: Grouping, t: Turn)
    requires f.pending == [] && f == Flush(g)
    ensures var next := Group(g, t);
            DecodeContents(next.contents) + DecodePending(next.pending) ==
            (if t.Observation? then DecodeContents(g.contents) + DecodePending(g.pending)
             else DecodeContents(f.contents) + DecodePending(f.pending)) + [Named(t)]
  {
    hide Flush;
    var next := Group(g, t);
    match t
    case Observation(_, _) =>
      assert DecodePending(next.pending) == DecodePending(g.pending) + [Named(t)];
    case Call(calls) =>
      assert next.contents[..|f.contents|] == f.contents;
      assert CallsOf(CallParts(calls)) == calls;
    case User(_) =>
      assert next.contents[..|f.contents|] == f.contents;
      assert DecodeContent(next.contents[|f.contents|]) == [t];
  }

  /** Grouping loses nothing: the contents decode to the turns, absent tool names read as empty ones. */
  lemma ContentsDecode(turns: seq<Turn>)
    ensures DecodeContents(Contents(turns)) == AllNamed(turns)
  {
    hide DecodeContents, DecodePending;
    GroupingKeepsMeaning(turns);
    FlushKeepsMeaning(GroupAll(turns));
  }

  function ResponseParts(r: Round): (ps: seq<Part>)
    requires Answered(r)
    ensures |ps| == |r.calls|
  {
    seq(|r.calls|, i requires 0 <= i < |r.calls| => FunctionResponse(r.calls[i].name, r.observed[i]))
  }

  /** Two contents a round: the calls, and all their responses together, as many as there were calls. */
  function RoundContents(rounds: seq<Round>): seq<Content>
    requires AllAnswered(rounds)
  {
    if rounds == [] then []
    else
      var r := rounds[|rounds| - 1];
      RoundContents(rounds[..|rounds| - 1]) + [Content(true, CallParts(r.calls)), Content(false, ResponseParts(r))]
  }

  lemma GroupOneMore(turns: seq<Turn>, t: Turn)
    ensures GroupAll(turns + [t]) == Group(GroupAll(turns), t)
  {
    assert (turns + [t])[..|turns|] == turns;
  }

  lemma {:induction false} ObservationsWait(turns: seq<Turn>, r: Round, n: nat)
    requires Answered(r) && n <= |r.calls| && GroupAll(turns).pending == []
    ensures GroupAll(turns + Observations(r)[..n]) == GroupAll(turns).(pending := ResponseParts(r)[..n])
  {
    hide GroupAll;
    if n == 0 {
      assert turns + Observations(r)[..n] == turns;
    } else {
      ObservationsWait(turns, r, n - 1);
      GroupOneMore(turns + Observations(r)[..n - 1], Observations(r)[n - 1]);
      assert turns + Observations(r)[..n - 1] + [Observations(r)[n - 1]] == turns + Observations(r)[..n];
      assert ResponseParts(r)[..n] == ResponseParts(r)[..n - 1] + [ResponsePart(Observations(r)[n - 1])];
    }
  }

  lemma AllObservationsWait(turns: seq<Turn>, r: Round)
    requires Answered(r) && GroupAll(turns).pending == []
    ensures GroupAll(turns + Observations(r)) == GroupAll(turns).(pending := ResponseParts(r))
  {
    hide GroupAll;
    ObservationsWait(turns, r, |r.calls|);
    assert Observations(r)[..|r.calls|] == Observations(r) && ResponseParts(r)[..|r.calls|] == ResponseParts(r);
  }

  /** The contents still open at the end of a conversation are the last round's responses. */
  function Waiting(rounds: seq<Round>): seq<Part>
    requires AllAnswered(rounds)
  {
    if rounds == [] then [] else ResponseParts(rounds[|rounds| - 1])
  }

  /** For the turns the tool loop builds, every call turn's responses travel in one content. */
  lemma {:induction false} ResponsesAreGrouped(question: string, rounds: seq<Round>)
    requires AllAnswered(rounds)
    ensures Contents(Conversation(question, rounds)) == [Content(false, [TextPart(question)])] + RoundContents(rounds)
    ensures GroupAll(Conversation(question, rounds)).pending == Waiting(rounds)
  {
    if rounds == [] {
      GroupOneMore([], User(question));
      assert [] + [User(question)] == [User(question)] && [] + [Content(false, [TextPart(question)])] ==
             [Content(false, [TextPart(question)])] + RoundContents([]);
    } else {
      var front, r := rounds[..|rounds| - 1], rounds[|rounds| - 1];
      ResponsesAreGrouped(question, front);
      var before := Conversation(question, front);
      hide GroupAll, Conversation, RoundContents, Waiting;
      GroupOneMore(before, Call(r.calls));
      AllObservationsWait(before + [Call(r.calls)], r);
      RoundAddsTwo(question, front, r, GroupAll(before));
      assert Conversation(question, rounds) == before + [Call(r.calls)] + Observations(r) by {
        ConversationOneMore(question, rounds);
      }
      RoundContentsOneMore(rounds);
    }
  }

  lemma ConversationOneMore(question: string, rounds: seq<Round>)
    requires AllAnswered(rounds) && rounds != []
    ensures var r := rounds[|rounds| - 1];
            Conversation(question, rounds) ==
            Conversation(question, rounds[..|rounds| - 1]) + [Call(r.calls)] + Observations(r)
  {
  }

  lemma RoundContentsOneMore(rounds: seq<Round>)
    requires AllAnswered(rounds) && rounds != []
    ensures var r := rounds[|rounds| - 1];
            RoundContents(rounds) == RoundContents(rounds[..|rounds| - 1])
                                     + [Content(true, CallParts(r.calls)), Content(false, ResponseParts(r))]
    ensures Waiting(rounds) == ResponseParts(rounds[|rounds| - 1])
  {
  }

  lemma RoundAddsTwo(question: string, front: seq<Round>, r: Round, g: Grouping)
    requires AllAnswered(front) && Answered(r)
    requires Flush(g).contents == [Content(false, [TextPart(question)])] + RoundContents(front)
    ensures var called := Group(g, Call(r.calls));
            && called.pending == []
            && Flush(called.(pending := ResponseParts(r))).contents ==
               [Content(false, [TextPart(question)])]
               + (RoundContents(front) + [Content(true, CallParts(r.calls)), Content(false, ResponseParts(r))])
  {
    hide RoundContents;
  }

  // ----- messages paired by id -----

  datatype IdCall = IdCall(id: string, name: string, args: Args)

  datatype Message =
    | UserMessage(content: string)
    | Assistant(calls: seq<IdCall>)
    | ToolMessage(id: string, content: string)

  function CallId(index: nat, position: nat): string {
    "c" + Decimal(index) + "_" + Decimal(position)
  }

  function CallIds(index: nat, n: nat): (ids: seq<string>)
    ensures |ids| == n
  {
    seq(n, p requires 0 <= p < n => CallId(index, p))
  }

  function IdCalls(index: nat, calls: seq<ToolCall>): (r: seq<IdCall>)
    ensures |r| == |calls|
  {
    seq(|calls|, p requires 0 <= p < |calls| => IdCall(CallId(index, p), calls[p].name, calls[p].args))
  }

  datatype Pairing = Pairing(messages: seq<Message>, pending: seq<string>)

  function Pair(p: Pairing, index: nat, t: Turn): Pairing {
    match t
    case User(text) => p.(messages := p.messages + [UserMessage(text)])
    case Call(calls) => Pairing(p.messages + [Assistant(IdCalls(index, calls))], CallIds(index, |calls|))
    case Observation(text, _) =>
      if p.pending != [] then Pairing(p.messages + [ToolMessage(p.pending[0], text)], p.pending[1..])
      else p.(messages := p.messages + [ToolMessage("c" + Decimal(index), text)])
  }

  function PairAll(turns: seq<Turn>): Pairing {
    if turns == [] then Pairing([], [])
    else Pair(PairAll(turns[..|turns| - 1]), |turns| - 1, turns[|turns| - 1])
  }

  method OpenaiTurns(turns: seq<Turn>) returns (messages: seq<Message>)
    ensures messages == PairAll(turns).messages
  {
    messages := [];
    var pending: seq<string> := [];
    var index := 0;
    while index < |turns|
      invariant 0 <= index <= |turns| && Pairing(messages, pending) == PairAll(turns[..index])
    {
      assert turns[..index + 1][..index] == turns[..index];
      var turn := turns[index];
      match turn {
        case User(text) =>
          messages := messages + [UserMessage(text)];
        case Call(calls) =>
          pending := CallIds(index, |calls|);
          messages := messages + [Assistant(IdCalls(index, calls))];
        case Observation(text, _) =>
          var id := "c" + Decimal(index);
          if pending != [] {
            id, pending := pending[0], pending[1..];
          }
          messages := messages + [ToolMessage(id, text)];
      }
      index := index + 1;
    }
    assert turns[..index] == turns;
  }

  lemma SeparatorComesAfterDigits(a: string, c: string)
    requires AllDigits(a)
    ensures var s := a + "_" + c; s[|a|] == '_' && s[..|a|] == a && s[|a| + 1..] == c
    ensures forall i :: 0 <= i < |a| ==> IsDigit((a + "_" + c)[i])
  {
  }

  lemma FieldsAreUnambiguous(a: string, b: string, c: string, d: string)
    requires AllDigits(a) && AllDigits(b)
    ensures a + "_" + c == b + "_" + d <==> a == b && c == d
  {
    SeparatorComesAfterDigits(a, c);
    SeparatorComesAfterDigits(b, d);
  }

  /** No two calls of a conversation get the same id. */
  lemma CallIdsAreUnique(i: nat, p: nat, j: nat, q: nat)
    ensures CallId(i, p) == CallId(j, q) <==> i == j && p == q
  {
    hide Number, Decimal, AllDigits;
    DecimalIsInjective(i, j);
    DecimalIsInjective(p, q);
    FieldsAreUnambiguous(Decimal(i), Decimal(j), Decimal(p), Decimal(q));
    var x, y := Decimal(i) + "_" + Decimal(p), Decimal(j) + "_" + Decimal(q);
    assert CallId(i, p) == "c" + x && CallId(j, q) == "c" + y;
    assert ("c" + x)[1..] == x && ("c" + y)[1..] == y;
  }

  function ToolMessages(index: nat, r: Round): (ms: seq<Message>)
    requires Answered(r)
    ensures |ms| == |r.calls|
  {
    seq(|r.calls|, p requires 0 <= p < |r.calls| => ToolMessage(CallId(index, p), r.observed[p]))
  }

  /** Each round: the calls under ids of their turn's index, then one answer per id in the same order. */
  function RoundMessages(question: string, rounds: seq<Round>): seq<Message>
    requires AllAnswered(rounds)
  {
    if rounds == [] then [UserMessage(question)]
    else
      var front, r := rounds[..|rounds| - 1], rounds[|rounds| - 1];
      var index := |Conversation(question, front)|;
      RoundMessages(question, front) + [Assistant(IdCalls(index, r.calls))] + ToolMessages(index, r)
  }

  lemma PairOneMore(turns: seq<Turn>, t: Turn)
    ensures PairAll(turns + [t]) == Pair(PairAll(turns), |turns|, t)
  {
    hide Pair;
    assert (turns + [t])[..|turns|] == turns;
  }

  lemma {:induction false} AnswersFollowTheirIds(turns: seq<Turn>, index: nat, r: Round, n: nat)
    requires Answered(r) && n <= |r.calls| && PairAll(turns).pending == CallIds(index, |r.calls|)
    ensures PairAll(turns + Observations(r)[..n]) ==
            Pairing(PairAll(turns).messages + ToolMessages(index, r)[..n], CallIds(index, |r.calls|)[n..])
  {
    hide PairAll, CallId;
    if n == 0 {
      assert turns + Observations(r)[..n] == turns;
    } else {
      AnswersFollowTheirIds(turns, index, r, n - 1);
      PairOneMore(turns + Observations(r)[..n - 1], Observations(r)[n - 1]);
      assert turns + Observations(r)[..n - 1] + [Observations(r)[n - 1]] == turns + Observations(r)[..n];
      assert CallIds(index, |r.calls|)[n - 1..][1..] == CallIds(index, |r.calls|)[n..];
      assert ToolMessages(index, r)[..n] == ToolMessages(index, r)[..n - 1] + [ToolMessages(index, r)[n - 1]];
    }
  }

  lemma AllAnswersFollow(turns: seq<Turn>, index: nat, r: Round)
    requires Answered(r) && PairAll(turns).pending == CallIds(index, |r.calls|)
    ensures PairAll(turns + Observations(r)) == Pairing(PairAll(turns).messages + ToolMessages(index, r), [])
  {
    hide PairAll, CallId;
    AnswersFollowTheirIds(turns, index, r, |r.calls|);
    assert Observations(r)[..|r.calls|] == Observations(r);
    assert ToolMessages(index, r)[..|r.calls|] == ToolMessages(index, r);
  }

  /** For the turns the tool loop builds, each round's ids are answered in order, each by its own observation. */
  lemma {:induction false} AnswersMatchCalls(question: string, rounds: seq<Round>)
    requires AllAnswered(rounds)
    ensures PairAll(Conversation(question, rounds)) == Pairing(RoundMessages(question, rounds), [])
  {
    if rounds == [] {
      assert [User(question)][..0] == [];
    } else {
      var front, r := rounds[..|rounds| - 1], rounds[|rounds| - 1];
      AnswersMatchCalls(question, front);
      var before := Conversation(question, front);
      hide PairAll, CallId;
      PairOneMore(before, Call(r.calls));
      AllAnswersFollow(before + [Call(r.calls)], |before|, r);
    }
  }

  function SentBy(m: Message): seq<string> {
    if m.Assistant? then seq(|m.calls|, p requires 0 <= p < |m.calls| => m.calls[p].id) else []
  }

  function AnsweredBy(m: Message): seq<string> {
    if m.ToolMessage? then [m.id] else []
  }

  /** The call ids of a transcript in the order they are sent. */
  function SentIds(messages: seq<Message>): seq<string> {
    if messages == [] then [] else SentIds(messages[..|messages| - 1]) + SentBy(messages[|messages| - 1])
  }

  /** The ids that tool messages answer, in order. */
  function AnsweredIds(messages: seq<Message>): seq<string> {
    if messages == [] then [] else AnsweredIds(messages[..|messages| - 1]) + AnsweredBy(messages[|messages| - 1])
  }

  lemma IdsOneMore(messages: seq<Message>, m: Message)
    ensures SentIds(messages + [m]) == SentIds(messages) + SentBy(m)
    ensures AnsweredIds(messages + [m]) == AnsweredIds(messages) + AnsweredBy(m)
  {
    assert (messages + [m])[..|messages|] == messages;
  }

  lemma {:induction false} AnswersAddTheirIds(sent: seq<Message>, index: nat, r: Round, n: nat)
    requires Answered(r) && n <= |r.calls|
    ensures var all := sent + ToolMessages(index, r)[..n];
            SentIds(all) == SentIds(sent) && AnsweredIds(all) == AnsweredIds(sent) + CallIds(index, |r.calls|)[..n]
  {
    hide CallId, SentIds, AnsweredIds;
    if n == 0 {
      assert sent + ToolMessages(index, r)[..n] == sent;
    } else {
      AnswersAddTheirIds(sent, index, r, n - 1);
      IdsOneMore(sent + ToolMessages(index, r)[..n - 1], ToolMessages(index, r)[n - 1]);
      assert sent + ToolMessages(index, r)[..n - 1] + [ToolMessages(index, r)[n - 1]] == sent + ToolMessages(index, r)[..n];
      assert CallIds(index, |r.calls|)[..n] == CallIds(index, |r.calls|)[..n - 1] + [CallIds(index, |r.calls|)[n - 1]];
    }
  }

  ghost predicate FromTurnBefore(id: string, n: nat) {
    exists j: nat, p: nat :: j < n && id == CallId(j, p)
  }

  ghost predicate FromTurnsBefore(ids: seq<string>, n: nat) {
    forall k | 0 <= k < |ids| :: FromTurnBefore(ids[k], n)
  }

  predicate NoRepeats(ids: seq<string>) {
    forall i, j | 0 <= i < j < |ids| :: ids[i] != ids[j]
  }

  lemma NewIdsAreNew(ids: seq<string>, n: nat, count: nat, longer: nat)
    requires NoRepeats(ids) && FromTurnsBefore(ids, n) && n < longer
    ensures NoRepeats(ids + CallIds(n, count)) && FromTurnsBefore(ids + CallIds(n, count), longer)
  {
    hide CallId;
    var all := ids + CallIds(n, count);
    forall i, k | 0 <= i < k < |all|
      ensures all[i] != all[k]
    {
      if i < |ids| <= k {
        assert FromTurnBefore(ids[i], n);
        var j: nat, p: nat :| j < n && ids[i] == CallId(j, p);
        CallIdsAreUnique(j, p, n, k - |ids|);
      } else if |ids| <= i {
        CallIdsAreUnique(n, i - |ids|, n, k - |ids|);
      } else {
        assert all[i] == ids[i] && all[k] == ids[k];
      }
    }
    forall k | 0 <= k < |all|
      ensures FromTurnBefore(all[k], longer)
    {
      if k < |ids| {
        assert FromTurnBefore(ids[k], n);
      } else {
        assert all[k] == CallId(n, k - |ids|);
      }
    }
  }

  lemma {:induction false} RoundIds(question: string, rounds: seq<Round>)
    requires AllAnswered(rounds)
    ensures var ms := RoundMessages(question, rounds);
            && AnsweredIds(ms) == SentIds(ms) && NoRepeats(SentIds(ms))
            && FromTurnsBefore(SentIds(ms), |Conversation(question, rounds)|)
  {
    if rounds == [] {
      assert [UserMessage(question)][..0] == [];
    } else {
      var front, r := rounds[..|rounds| - 1], rounds[|rounds| - 1];
      RoundIds(question, front);
      var index := |Conversation(question, front)|;
      ConversationOneMore(question, rounds);
      hide CallId, SentIds, AnsweredIds, NoRepeats, FromTurnsBefore, Conversation;
      RoundAddsItsIds(RoundMessages(question, front), index, r);
      NewIdsAreNew(SentIds(RoundMessages(question, front)), index, |r.calls|, |Conversation(question, rounds)|);
    }
  }

  lemma RoundAddsItsIds(before: seq<Message>, index: nat, r: Round)
    requires Answered(r)
    ensures var all := before + [Assistant(IdCalls(index, r.calls))] + ToolMessages(index, r);
            && SentIds(all) == SentIds(before) + CallIds(index, |r.calls|)
            && AnsweredIds(all) == AnsweredIds(before) + CallIds(index, |r.calls|)
  {
    hide CallId, SentIds, AnsweredIds;
    var sent := before + [Assistant(IdCalls(index, r.calls))];
    IdsOneMore(before, Assistant(IdCalls(index, r.calls)));
    assert SentBy(Assistant(IdCalls(index, r.calls))) == CallIds(index, |r.calls|);
    AnswersAddTheirIds(sent, index, r, |r.calls|);
    assert ToolMessages(index, r)[..|r.calls|] == ToolMessages(index, r);
    assert CallIds(index, |r.calls|)[..|r.calls|] == CallIds(index, |r.calls|);
  }

  /** In one transcript no call id is sent twice, and the ids answered are the ids sent, in the same order. */
  lemma EveryIdIsAnsweredOnce(question: string, rounds: seq<Round>)
    requires AllAnswered(rounds)
    ensures var ms := PairAll(Conversation(question, rounds)).messages; NoRepeats(SentIds(ms)) && AnsweredIds(ms) == SentIds(ms)
  {
    hide SentIds, AnsweredIds, NoRepeats, Conversation;
    AnswersMatchCalls(question, rounds);
    RoundIds(question, rounds);
  }

  /** The name of the call a tool message answers, looked up by id among the calls sent so far. */
  function NameOf(id: string, messages: seq<Message>): Option<string>
    decreases |messages|
  {
    if messages == [] then None
    else
      var last := messages[|messages| - 1];
      var here := if last.Assistant? then NameAmong(id, last.calls) else None;
      if here.Some? then here else NameOf(id, messages[..|messages| - 1])
  }

  function NameAmong(id: string, calls: seq<IdCall>): Option<string> {
    if calls == [] then None
    else if calls[0].id == id then Some(calls[0].name)
    else NameAmong(id, calls[1..])
  }

  function CallsWithoutIds(calls: seq<IdCall>): seq<ToolCall> {
    seq(|calls|, i requires 0 <= i < |calls| => ToolCall(calls[i].name, calls[i].args))
  }

  /** What a provider that pairs by id understands. */
  function DecodeMessages(messages: seq<Message>): seq<Turn> {
    if messages == [] then []
    else
      var front, last := messages[..|messages| - 1], messages[|messages| - 1];
      DecodeMessages(front) +
      [match last
       case UserMessage(content) => User(content)
       case Assistant(calls) => Call(CallsWithoutIds(calls))
       case ToolMessage(id, content) => Observation(content, NameOf(id, front))]
  }

  lemma {:induction false} NameByPosition(index: nat, calls: seq<ToolCall>, from: nat, p: nat)
    requires from <= p < |calls|
    ensures NameAmong(CallId(index, p), IdCalls(index, calls)[from..]) == Some(calls[p].name)
    decreases p - from
  {
    var rest := IdCalls(index, calls)[from..];
    CallIdsAreUnique(index, from, index, p);
    if from < p {
      NameByPosition(index, calls, from + 1, p);
      assert rest[1..] == IdCalls(index, calls)[from + 1..];
    }
  }

  lemma DecodeOneMore(messages: seq<Message>, m: Message)
    ensures m.ToolMessage? ==>
              DecodeMessages(messages + [m]) == DecodeMessages(messages) + [Observation(m.content, NameOf(m.id, messages))]
    ensures m.Assistant? ==> DecodeMessages(messages + [m]) == DecodeMessages(messages) + [Call(CallsWithoutIds(m.calls))]
    ensures !m.Assistant? ==> forall id :: NameOf(id, messages + [m]) == NameOf(id, messages)
  {
    assert (messages + [m])[..|messages|] == messages;
    assert [m][..0] == [];
  }

  ghost predicate KnowsNames(messages: seq<Message>, index: nat, calls: seq<ToolCall>) {
    forall p :: 0 <= p < |calls| ==> NameOf(CallId(index, p), messages) == Some(calls[p].name)
  }

  lemma SentCallsAreKnown(messages: seq<Message>, index: nat, calls: seq<ToolCall>)
    ensures KnowsNames(messages + [Assistant(IdCalls(index, calls))], index, calls)
  {
    hide CallId;
    forall p | 0 <= p < |calls|
      ensures NameOf(CallId(index, p), messages + [Assistant(IdCalls(index, calls))]) == Some(calls[p].name)
    {
      NameByPosition(index, calls, 0, p);
      assert IdCalls(index, calls)[0..] == IdCalls(index, calls);
    }
  }

  lemma {:induction false} AnswersDecode(sent: seq<Message>, index: nat, r: Round, n: nat)
    requires Answered(r) && n <= |r.calls| && KnowsNames(sent, index, r.calls)
    ensures DecodeMessages(sent + ToolMessages(index, r)[..n]) == DecodeMessages(sent) + Observations(r)[..n]
    ensures KnowsNames(sent + ToolMessages(index, r)[..n], index, r.calls)
  {
    hide DecodeMessages, NameOf, CallId;
    var ms := ToolMessages(index, r);
    if n == 0 {
      assert sent + ms[..n] == sent;
    } else {
      AnswersDecode(sent, index, r, n - 1);
      DecodeOneMore(sent + ms[..n - 1], ms[n - 1]);
      assert sent + ms[..n - 1] + [ms[n - 1]] == sent + ms[..n];
      assert Observations(r)[..n] == Observations(r)[..n - 1] + [Observations(r)[n - 1]];
    }
  }

  lemma AllAnswersDecode(sent: seq<Message>, index: nat, r: Round)
    requires Answered(r) && KnowsNames(sent, index, r.calls)
    ensures DecodeMessages(sent + ToolMessages(index, r)) == DecodeMessages(sent) + Observations(r)
  {
    hide DecodeMessages, NameOf, CallId, KnowsNames;
    AnswersDecode(sent, index, r, |r.calls|);
    assert ToolMessages(index, r)[..|r.calls|] == ToolMessages(index, r);
    assert Observations(r)[..|r.calls|] == Observations(r);
  }

  lemma {:induction false} RoundMessagesDecode(question: string, rounds: seq<Round>)
    requires AllAnswered(rounds)
    ensures DecodeMessages(RoundMessages(question, rounds)) == Conversation(question, rounds)
  {
    if rounds == [] {
      assert [UserMessage(question)][..0] == [];
    } else {
      var front, r := rounds[..|rounds| - 1], rounds[|rounds| - 1];
      RoundMessagesDecode(question, front);
      hide DecodeMessages, NameOf, CallId;
      var index := |Conversation(question, front)|;
      var before, call := RoundMessages(question, front), Assistant(IdCalls(index, r.calls));
      DecodeOneMore(before, call);
      assert CallsWithoutIds(IdCalls(index, r.calls)) == r.calls;
      SentCallsAreKnown(before, index, r.calls);
      AllAnswersDecode(before + [call], index, r);
    }
  }

  /** Pairing loses nothing: read back through the ids, the messages are the conversation. */
  lemma MessagesDecode(question: string, rounds: seq<Round>)
    requires AllAnswered(rounds)
    ensures DecodeMessages(PairAll(Conversation(question, rounds)).messages) == Conversation(question, rounds)
  {
    AnswersMatchCalls(question, rounds);
    RoundMessagesDecode(question, rounds);
  }
}
