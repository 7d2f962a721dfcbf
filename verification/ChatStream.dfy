/**
 The chat answer as a stream of events.  The search and the writer are inputs: any list of step signals,
 any search result or application error, and any chunks followed by a clean end or one of the handled
 failures.
 */
module ChatStream {
  import ES = EventStream
  import opened Steps
  import opened Text

  /** `str.isspace`. */
  predicate IsSpace(c: char) {
    var n := c as int;
    9 <= n <= 13 || 28 <= n <= 32 || n == 0x85 || n == 0xA0 || n == 0x1680 || 0x2000 <= n <= 0x200A
    || n == 0x2028 || n == 0x2029 || n == 0x202F || n == 0x205F || n == 0x3000
  }

  function TrimLeft(s: string): string {
    if s != "" && IsSpace(s[0]) then TrimLeft(s[1..]) else s
  }

  function TrimRight(s: string): string {
    if s != "" && IsSpace(s[|s| - 1]) then TrimRight(s[..|s| - 1]) else s
  }

  /** `str.strip`. */
  function Strip(s: string): string {
    TrimRight(TrimLeft(s))
  }

  function Concat(parts: seq<string>): string {
    if parts == [] then "" else Concat(parts[..|parts| - 1]) + parts[|parts| - 1]
  }

  datatype Task = Recommend | Smalltalk | Unsupported

  /** What the stream uses of a search result; `task` is that of its intent. */
  datatype Result = Result(spots: seq<string>, steps: seq<Step>, answer: seq<string>, task: Task, totalCount: nat)

  /** How the search ends: a result, or an application error with the message it stands for. */
  datatype Search = Refused(message: string) | Found(result: Result)

  /** The writer's chunks, and whether it broke off with a handled failure. */
  datatype Writer = Writer(chunks: seq<string>, broke: bool)

  /** Everything the outside decides in one turn. */
  datatype Turn = Turn(signals: seq<Signal>, search: Search, sources: seq<string>, sharedModel: bool, writer: Writer)

  datatype Event =
    | Progress(signal: Signal)
    | Cards(spots: seq<string>)
    | Delta(text: string)
    | Sources(items: seq<string>)
    | Finished(answerText: string, spots: seq<string>, sources: seq<string>, totalCount: nat)
    | Error

  const BLANK_ANSWER := "blank"
  const NO_AXIS_ANSWER := "no axis"

  function Deterministic(result: Result): string {
    Strip(Concat(result.answer))
  }

  /** `classify` gives Smalltalk only without spots. */
  predicate IsSmalltalk(result: Result) {
    result.spots == [] && result.task.Smalltalk?
  }

  predicate ModelIsDown(result: Result) {
    exists i | 0 <= i < |result.steps| :: result.steps[i].badge == FALLBACK
  }

  function Or(text: string, otherwise: string): string {
    if text != "" then text else otherwise
  }

  // ----- the events of a turn, as a function -----

  function StepEvents(signals: seq<Signal>): seq<Event> {
    seq(|signals|, i requires 0 <= i < |signals| => Progress(signals[i]))
  }

  /** One past the highest step reported done. */
  function Streamed(signals: seq<Signal>): nat {
    if signals == [] then 0
    else
      var before, last := Streamed(signals[..|signals| - 1]), signals[|signals| - 1];
      if last.Done? && last.index + 1 > before then last.index + 1 else before
  }

  /** Whatever was signalled: every step reported done lies below it, and the one just below it was. */
  lemma {:induction false} StreamedIsOnePastTheLast(signals: seq<Signal>)
    ensures forall s :: s in signals && s.Done? ==> s.index < Streamed(signals)
    ensures Streamed(signals) > 0 ==> exists s :: s in signals && s.Done? && s.index + 1 == Streamed(signals)
  {
    if signals != [] {
      var front, last := signals[..|signals| - 1], signals[|signals| - 1];
      StreamedIsOnePastTheLast(front);
      assert last in signals && signals == front + [last];
    }
  }

  /** The signals of the steps from `i` on. */
  function SignalsFrom(steps: seq<Step>, i: nat): seq<Signal>
    decreases |steps| - i
  {
    if i >= |steps| then []
    else [Run(i, steps[i].caption), Done(i, steps[i].caption, steps[i].badge)] + SignalsFrom(steps, i + 1)
  }

  function Canned(text: string): seq<Event> {
    [Delta(text), Finished(text, [], [], 0)]
  }

  function Deltas(parts: seq<string>): seq<Event> {
    seq(|parts|, i requires 0 <= i < |parts| => Delta(parts[i]))
  }

  function Ending(result: Result, text: string, sources: seq<string>): seq<Event> {
    [Sources(sources), Finished(text, result.spots, sources, result.totalCount)]
  }

  /** After the writer's deltas: `answer` is what it wrote, trimmed. */
  function WrittenTail(result: Result, sources: seq<string>, answer: string): seq<Event> {
    var rescue := Deterministic(result);
    if answer != "" then Ending(result, answer, sources)
    else if rescue == "" then [Error]
    else [Delta(rescue)] + Ending(result, rescue, sources)
  }

  function Written(result: Result, sources: seq<string>, writer: Writer): seq<Event> {
    Deltas(writer.chunks) + WrittenTail(result, sources, Strip(Concat(writer.chunks)))
  }

  function CardEvents(result: Result): seq<Event> {
    if result.spots != [] then [Cards(result.spots)] else []
  }

  function AnswerEvents(turn: Turn): seq<Event>
    requires turn.search.Found?
  {
    var result := turn.search.result;
    if IsSmalltalk(result) then Canned(Or(Deterministic(result), BLANK_ANSWER))
    else if turn.sharedModel && ModelIsDown(result) then
      var rescue := Or(Deterministic(result), NO_AXIS_ANSWER);
      [Delta(rescue)] + Ending(result, rescue, turn.sources)
    else Written(result, turn.sources, turn.writer)
  }

  function Sent(turn: Turn): seq<Event> {
    StepEvents(turn.signals)
    + match turn.search
      case Refused(message) => Canned(message)
      case Found(result) =>
        StepEvents(SignalsFrom(result.steps, Streamed(turn.signals))) + CardEvents(result) + AnswerEvents(turn)
  }

  // ----- the code: an emitter numbering its events -----

  datatype Frame = Frame(sequence: nat, event: Event)

  class Stream {
    var sequence: nat
    var frames: seq<Frame>

    constructor ()
      ensures Valid() && Events() == []
    {
      sequence, frames := 0, [];
    }

    /** Frames are numbered 0, 1, 2, .. without a gap. */
    ghost predicate Valid()
      reads this
    {
      sequence == |frames| && forall i | 0 <= i < |frames| :: frames[i].sequence == i
    }

    ghost function Events(): seq<Event>
      reads this
    {
      seq(|frames|, i requires 0 <= i < |frames| reads this => frames[i].event)
    }

    method Send(event: Event)
      requires Valid()
      modifies this
      ensures Valid() && Events() == old(Events()) + [event]
    {
      frames := frames + [Frame(sequence, event)];
      sequence := sequence + 1;
    }

    /** Step signals are passed on as they come; the count of finished steps is kept. */
    method SendSignals(signals: seq<Signal>) returns (streamed: nat)
      requires Valid()
      modifies this
      ensures Valid() && Events() == old(Events()) + StepEvents(signals) && streamed == Streamed(signals)
    {
      streamed := 0;
      for i := 0 to |signals|
        invariant Valid() && Events() == old(Events()) + StepEvents(signals[..i]) && streamed == Streamed(signals[..i])
      {
        assert signals[..i + 1][..i] == signals[..i];
        if signals[i].Done? {
          streamed := if signals[i].index + 1 > streamed then signals[i].index + 1 else streamed;
        }
        Send(Progress(signals[i]));
        assert StepEvents(signals[..i + 1]) == StepEvents(signals[..i]) + [Progress(signals[i])];
      }
      assert signals[..|signals|] == signals;
    }

    /** Steps the search finished without a signal. */
    method SendRest(steps: seq<Step>, from: nat)
      requires Valid()
      modifies this
      ensures Valid() && Events() == old(Events()) + StepEvents(SignalsFrom(steps, from))
    {
      var i := from;
      while i < |steps|
        invariant Valid()
        invariant Events() + StepEvents(SignalsFrom(steps, i)) == old(Events()) + StepEvents(SignalsFrom(steps, from))
      {
        PairFirst(steps, i);
        Send(Progress(Run(i, steps[i].caption)));
        Send(Progress(Done(i, steps[i].caption, steps[i].badge)));
        i := i + 1;
      }
    }

    method SendCanned(text: string)
      requires Valid()
      modifies this
      ensures Valid() && Events() == old(Events()) + Canned(text)
    {
      Send(Delta(text));
      Send(Finished(text, [], [], 0));
    }

    method SendChunks(chunks: seq<string>) returns (parts: seq<string>)
      requires Valid()
      modifies this
      ensures Valid() && Events() == old(Events()) + Deltas(chunks) && parts == chunks
    {
      parts := [];
      for i := 0 to |chunks|
        invariant Valid() && parts == chunks[..i] && Events() == old(Events()) + Deltas(parts)
      {
        parts := parts + [chunks[i]];
        Send(Delta(chunks[i]));
        assert Deltas(parts) == Deltas(chunks[..i]) + [Delta(chunks[i])];
      }
    }

    /** The writer's chunks as they come, then a rescue, an error, or the closing events. */
    method SendWritten(result: Result, sources: seq<string>, writer: Writer)
      requires Valid()
      modifies this
      ensures Valid() && Events() == old(Events()) + Written(result, sources, writer)
    {
      var parts := SendChunks(writer.chunks);
      hide Strip, Concat, Deltas;
      if writer.broke && Strip(Concat(parts)) == "" && Deterministic(result) == "" {
        Send(Error);
        return;
      }
      var answer := Strip(Concat(parts));
      if answer == "" {
        var rescue := Deterministic(result);
        if rescue == "" {
          Send(Error);
          return;
        }
        parts := parts + [rescue];
        answer := rescue;
        Send(Delta(rescue));
      }
      Send(Sources(sources));
      Send(Finished(answer, result.spots, sources, result.totalCount));
    }

    method SendAnswer(turn: Turn)
      requires Valid() && turn.search.Found?
      modifies this
      ensures Valid() && Events() == old(Events()) + AnswerEvents(turn)
    {
      hide Written, Deterministic, ModelIsDown;
      var result := turn.search.result;
      if IsSmalltalk(result) {
        SendCanned(Or(Deterministic(result), BLANK_ANSWER));
        return;
      }
      if turn.sharedModel && ModelIsDown(result) {
        var rescue := Or(Deterministic(result), NO_AXIS_ANSWER);
        Send(Delta(rescue));
        Send(Sources(turn.sources));
        Send(Finished(rescue, result.spots, turn.sources, result.totalCount));
        return;
      }
      SendWritten(result, turn.sources, turn.writer);
    }

    method Emit(turn: Turn)
      requires Valid()
      modifies this
      ensures Valid() && Events() == old(Events()) + Sent(turn)
    {
      hide StepEvents, SignalsFrom, Streamed, AnswerEvents, Canned;
      var streamed := SendSignals(turn.signals);
      match turn.search {
        case Refused(message) =>
          SendCanned(message);
        case Found(result) =>
          SendRest(result.steps, streamed);
          if result.spots != [] {
            Send(Cards(result.spots));
          }
          SendAnswer(turn);
      }
    }
  }

  lemma PairFirst(steps: seq<Step>, i: nat)
    requires i < |steps|
    ensures StepEvents(SignalsFrom(steps, i))
            == [Progress(Run(i, steps[i].caption)), Progress(Done(i, steps[i].caption, steps[i].badge))]
               + StepEvents(SignalsFrom(steps, i + 1))
  {
  }

  // ----- the grammar -----

  function Rank(event: Event): nat {
    match event
    case Progress(_) => 0
    case Cards(_) => 1
    case Delta(_) => 2
    case Sources(_) => 3
    case Finished(_, _, _, _) => 4
    case Error => 4
  }

  predicate MayRepeat(rank: nat) {
    rank == 0 || rank == 2
  }

  /** Ranks never fall, and only steps and deltas repeat. */
  ghost predicate Ordered(events: seq<Event>, low: nat, high: nat) {
    && (forall i | 0 <= i < |events| :: low <= Rank(events[i]) <= high)
    && (forall i, j | 0 <= i < j < |events| ::
          Rank(events[i]) <= Rank(events[j]) && (Rank(events[i]) == Rank(events[j]) ==> MayRepeat(Rank(events[i]))))
  }

  /** Steps, then perhaps cards, then deltas, then perhaps sources, then one closing event, which is last. */
  ghost predicate Grammatical(events: seq<Event>) {
    Ordered(events, 0, 4) && events != [] && Rank(events[|events| - 1]) == 4
  }

  lemma OrderedJoin(a: seq<Event>, b: seq<Event>, low: nat, mid: nat, next: nat, high: nat)
    requires Ordered(a, low, mid) && Ordered(b, next, high) && low <= mid <= high && low <= next
    requires mid < next || (mid == next && MayRepeat(mid))
    ensures Ordered(a + b, low, high)
  {
  }

  /** A tail that starts with deltas and ends the stream. */
  ghost predicate Closing(events: seq<Event>) {
    Ordered(events, 2, 4) && events != [] && Rank(events[|events| - 1]) == 4
  }

  lemma ShortTailsClose(result: Result, text: string, sources: seq<string>)
    ensures Closing(Canned(text)) && Closing([Error]) && Closing(Ending(result, text, sources))
    ensures Closing([Delta(text)] + Ending(result, text, sources))
  {
  }

  lemma DeltasThenClosing(parts: seq<string>, tail: seq<Event>)
    requires Closing(tail)
    ensures Closing(Deltas(parts) + tail)
  {
    assert Ordered(Deltas(parts), 2, 2);
    OrderedJoin(Deltas(parts), tail, 2, 2, 2, 4);
  }

  lemma WrittenCloses(result: Result, sources: seq<string>, writer: Writer)
    ensures Closing(Written(result, sources, writer))
  {
    hide Closing, Strip, Concat, Deterministic, Deltas, Ending;
    var answer := Strip(Concat(writer.chunks));
    ShortTailsClose(result, answer, sources);
    ShortTailsClose(result, Deterministic(result), sources);
    DeltasThenClosing(writer.chunks, WrittenTail(result, sources, answer));
  }

  lemma AnswerCloses(turn: Turn)
    requires turn.search.Found?
    ensures Closing(AnswerEvents(turn))
  {
    hide Closing, Deterministic, Written, Or, ModelIsDown, Canned, Ending;
    var result := turn.search.result;
    WrittenCloses(result, turn.sources, turn.writer);
    ShortTailsClose(result, Or(Deterministic(result), BLANK_ANSWER), turn.sources);
    ShortTailsClose(result, Or(Deterministic(result), NO_AXIS_ANSWER), turn.sources);
  }

  lemma StepsThenClosing(signals: seq<Signal>, more: seq<Signal>, result: Result, tail: seq<Event>)
    requires Closing(tail)
    ensures Grammatical(StepEvents(signals) + tail)
    ensures Grammatical(StepEvents(signals) + (StepEvents(more) + CardEvents(result) + tail))
  {
    assert Ordered(StepEvents(signals), 0, 0) && Ordered(StepEvents(more), 0, 0) && Ordered(CardEvents(result), 1, 1);
    hide StepEvents, CardEvents, Ordered;
    OrderedJoin(StepEvents(signals), tail, 0, 0, 2, 4);
    OrderedJoin(StepEvents(more), CardEvents(result), 0, 0, 1, 1);
    OrderedJoin(StepEvents(more) + CardEvents(result), tail, 0, 1, 2, 4);
    OrderedJoin(StepEvents(signals), StepEvents(more) + CardEvents(result) + tail, 0, 0, 0, 4);
  }

  /** Every turn's stream obeys the grammar. */
  lemma EveryStreamIsGrammatical(turn: Turn)
    ensures Grammatical(Sent(turn))
  {
    hide StepEvents, SignalsFrom, Streamed, AnswerEvents, CardEvents, Canned, Closing, Grammatical;
    match turn.search {
      case Refused(message) =>
        ShortTailsClose(Result([], [], [], Recommend, 0), message, []);
        StepsThenClosing(turn.signals, [], Result([], [], [], Recommend, 0), Canned(message));
      case Found(result) =>
        AnswerCloses(turn);
        StepsThenClosing(turn.signals, SignalsFrom(result.steps, Streamed(turn.signals)), result, AnswerEvents(turn));
    }
  }

  // ----- what the stream says -----

  function DeltaText(events: seq<Event>): string {
    if events == [] then ""
    else
      var last := events[|events| - 1];
      DeltaText(events[..|events| - 1]) + if last.Delta? then last.text else ""
  }

  lemma OneMoreEvent(events: seq<Event>, event: Event)
    ensures DeltaText(events + [event]) == DeltaText(events) + if event.Delta? then event.text else ""
  {
    assert (events + [event])[..|events|] == events;
  }

  lemma NoEvents()
    ensures DeltaText([]) == ""
  {
  }

  lemma Regroup<T>(x: seq<T>, y: seq<T>, z: seq<T>)
    ensures (x + y) + z == x + (y + z) && x + [] == x
  {
  }

  lemma {:induction false} DeltaTextJoin(a: seq<Event>, b: seq<Event>)
    ensures DeltaText(a + b) == DeltaText(a) + DeltaText(b)
  {
    hide DeltaText;
    if b == [] {
      NoEvents();
      Regroup(a, [], []);
      Regroup(DeltaText(a), [], []);
    } else {
      var init, last := b[..|b| - 1], b[|b| - 1];
      DeltaTextJoin(a, init);
      OneMoreEvent(a + init, last);
      OneMoreEvent(init, last);
      assert b == init + [last];
      Regroup(a, init, [last]);
      Regroup(DeltaText(a), DeltaText(init), if last.Delta? then last.text else "");
    }
  }

  lemma {:induction false} DeltaTextOfDeltas(parts: seq<string>)
    ensures DeltaText(Deltas(parts)) == Concat(parts)
  {
    if parts != [] {
      var init := parts[..|parts| - 1];
      DeltaTextOfDeltas(init);
      assert Deltas(parts)[..|parts| - 1] == Deltas(init);
    }
  }

  lemma {:induction false} NoDeltas(events: seq<Event>)
    requires forall i | 0 <= i < |events| :: !events[i].Delta?
    ensures DeltaText(events) == ""
  {
    if events != [] { NoDeltas(events[..|events| - 1]); }
  }

  // ----- trimming -----

  ghost predicate Blank(s: string) {
    forall i | 0 <= i < |s| :: IsSpace(s[i])
  }

  lemma {:induction false} TrimLeftEnds(s: string)
    ensures var t := TrimLeft(s); (t == "" <==> Blank(s)) && (t != "" ==> !IsSpace(t[0]))
  {
    hide IsSpace;
    if s != "" && IsSpace(s[0]) {
      TrimLeftEnds(s[1..]);
      assert s == [s[0]] + s[1..];
    }
  }

  lemma {:induction false} TrimRightEnds(s: string)
    ensures var t := TrimRight(s); t <= s && (t == "" <==> Blank(s)) && (t != "" ==> !IsSpace(t[|t| - 1]))
  {
    hide IsSpace;
    if s != "" && IsSpace(s[|s| - 1]) {
      TrimRightEnds(s[..|s| - 1]);
      assert s == s[..|s| - 1] + [s[|s| - 1]];
    }
  }

  lemma {:induction false} BlankStartIsTrimmed(blank: string, s: string)
    requires Blank(blank)
    ensures TrimLeft(blank + s) == TrimLeft(s)
  {
    hide IsSpace;
    if blank == "" {
      assert blank + s == s;
    } else {
      assert IsSpace(blank[0]);
      BlankStartIsTrimmed(blank[1..], s);
      assert (blank + s)[0] == blank[0] && (blank + s)[1..] == blank[1..] + s;
    }
  }

  /** Trimming is done once for all, and gives nothing exactly for blank text. */
  lemma StripFacts(s: string)
    ensures Strip(Strip(s)) == Strip(s) && (Strip(s) == "" <==> Blank(s))
  {
    hide IsSpace;
    var left := TrimLeft(s);
    TrimLeftEnds(s);
    TrimRightEnds(left);
  }

  lemma BlankStartIsStripped(blank: string, s: string)
    requires Strip(blank) == ""
    ensures Strip(blank + s) == Strip(s)
  {
    hide IsSpace, TrimLeft, TrimRight;
    StripFacts(blank);
    BlankStartIsTrimmed(blank, s);
  }

  // ----- outcomes -----

  /** The rescue chain has nothing left: no writer's text and no deterministic answer. */
  ghost predicate NothingToSay(turn: Turn) {
    turn.search.Found?
    && var result := turn.search.result;
    !IsSmalltalk(result) && !(turn.sharedModel && ModelIsDown(result))
    && Blank(Concat(turn.writer.chunks)) && Deterministic(result) == ""
  }

  /** The closing event agrees with everything streamed before it. */
  ghost predicate Agrees(turn: Turn, events: seq<Event>)
    requires events != []
  {
    var last := events[|events| - 1];
    && (last.Error? <==> NothingToSay(turn))
    && (last.Finished? ==>
          && Strip(DeltaText(events)) == Strip(last.answerText)
          && (turn.search.Found? ==> last.answerText != "" && last.spots == turn.search.result.spots)
          && (last.sources == [] || (|events| >= 2 && events[|events| - 2] == Sources(last.sources))))
  }

  lemma CannedText(text: string)
    ensures DeltaText(Canned(text)) == text
  {
    assert Canned(text)[..1] == [Delta(text)] && [Delta(text)][..0] == [];
    assert DeltaText([Delta(text)]) == text;
  }

  lemma EndingText(result: Result, text: string, sources: seq<string>)
    ensures DeltaText(Ending(result, text, sources)) == ""
    ensures DeltaText([Delta(text)] + Ending(result, text, sources)) == text
  {
    NoDeltas(Ending(result, text, sources));
    DeltaTextJoin([Delta(text)], Ending(result, text, sources));
    assert [Delta(text)][..0] == [];
    assert DeltaText([Delta(text)]) == text;
  }

  lemma WrittenText(result: Result, sources: seq<string>, writer: Writer)
    ensures var events, answer := Written(result, sources, writer), Strip(Concat(writer.chunks));
            var spoken := if answer != "" then answer else Deterministic(result);
            && (spoken != "" ==> |events| >= 2 && events[|events| - 1] == Finished(spoken, result.spots, sources, result.totalCount)
                                 && events[|events| - 2] == Sources(sources)
                                 && Strip(DeltaText(events)) == spoken == Strip(spoken))
            && (spoken == "" ==> events[|events| - 1] == Error)
  {
    hide Strip, Concat, DeltaText, Deltas;
    var text := Concat(writer.chunks);
    var answer := Strip(text);
    DeltaTextOfDeltas(writer.chunks);
    DeltaTextJoin(Deltas(writer.chunks), WrittenTail(result, sources, answer));
    StripFacts(text);
    StripFacts(Concat(result.answer));
    if answer != "" {
      EndingText(result, answer, sources);
      assert text + "" == text;
    } else {
      EndingText(result, Deterministic(result), sources);
      BlankStartIsStripped(text, Deterministic(result));
    }
  }

  lemma AnswerAgrees(turn: Turn)
    requires turn.search.Found? && AnswerEvents(turn) != []
    ensures Agrees(turn, AnswerEvents(turn))
  {
    hide Strip, Concat, DeltaText, Blank, Written, ModelIsDown, Deterministic;
    var result := turn.search.result;
    if IsSmalltalk(result) {
      CannedText(Or(Deterministic(result), BLANK_ANSWER));
    } else if turn.sharedModel && ModelIsDown(result) {
      var rescue := Or(Deterministic(result), NO_AXIS_ANSWER);
      EndingText(result, rescue, turn.sources);
      assert AnswerEvents(turn)[1] == Sources(turn.sources);
    } else {
      StripFacts(Concat(turn.writer.chunks));
      WrittenText(result, turn.sources, turn.writer);
      assert AnswerEvents(turn) == Written(result, turn.sources, turn.writer);
    }
  }

  lemma FrontIsSilent(turn: Turn, front: seq<Event>, tail: seq<Event>)
    requires tail != [] && Agrees(turn, tail) && forall i | 0 <= i < |front| :: !front[i].Delta?
    ensures Agrees(turn, front + tail)
  {
    hide *;
    NoDeltas(front);
    DeltaTextJoin(front, tail);
    assert "" + DeltaText(tail) == DeltaText(tail);
    SameEnding(turn, front, tail);
  }

  lemma SameEnding(turn: Turn, front: seq<Event>, tail: seq<Event>)
    requires tail != [] && Agrees(turn, tail) && DeltaText(front + tail) == DeltaText(tail)
    ensures Agrees(turn, front + tail)
  {
    hide Strip, NothingToSay, DeltaText;
    var events := front + tail;
    assert events[|events| - 1] == tail[|tail| - 1];
    assert |tail| >= 2 ==> events[|events| - 2] == tail[|tail| - 2];
  }

  /**
   On "done" the streamed text and the answer text are the same up to surrounding white space, the cards and
   sources are those sent before; the stream ends in an error exactly when the search was answered, the
   writer wrote nothing but white space and there is no deterministic answer to fall back on.
   */
  lemma ClosingEventAgrees(turn: Turn)
    ensures Sent(turn) != [] && Agrees(turn, Sent(turn))
  {
    hide Strip, StepEvents, SignalsFrom, Streamed, AnswerEvents, Closing;
    var first := StepEvents(turn.signals);
    StepsAreSilent(turn.signals);
    match turn.search {
      case Refused(message) =>
        CannedText(message);
        assert Agrees(turn, Canned(message));
        FrontIsSilent(turn, first, Canned(message));
      case Found(result) =>
        AnswerCloses(turn);
        ClosingIsNotEmpty(AnswerEvents(turn));
        AnswerAgrees(turn);
        StepsAreSilent(SignalsFrom(result.steps, Streamed(turn.signals)));
        hide Agrees;
        var front := StepEvents(SignalsFrom(result.steps, Streamed(turn.signals))) + CardEvents(result);
        FrontIsSilent(turn, front, AnswerEvents(turn));
        FrontIsSilent(turn, first, front + AnswerEvents(turn));
    }
  }

  /**
   The last event of every turn, exactly: a refusal's message; small talk's own answer or the blank one; without
   a model the search's answer or the fixed one; and otherwise what the writer wrote, or the search's answer, or
   an error.
   */
  lemma ClosingEventIsExact(turn: Turn)
    ensures Sent(turn) != []
    ensures var last := Sent(turn)[|Sent(turn)| - 1];
            match turn.search
            case Refused(message) =>
              last == Finished(message, [], [], 0) && |Sent(turn)| >= 2 && Sent(turn)[|Sent(turn)| - 2] == Delta(message)
            case Found(result) =>
              var own, written := Strip(Concat(result.answer)), Strip(Concat(turn.writer.chunks));
              var noModel := turn.sharedModel && exists i | 0 <= i < |result.steps| :: result.steps[i].badge == FALLBACK;
              if result.spots == [] && result.task.Smalltalk? then
                last == Finished(if own != "" then own else BLANK_ANSWER, [], [], 0)
              else if noModel then
                last == Finished(if own != "" then own else NO_AXIS_ANSWER, result.spots, turn.sources, result.totalCount)
              else if written != "" then last == Finished(written, result.spots, turn.sources, result.totalCount)
              else if own != "" then last == Finished(own, result.spots, turn.sources, result.totalCount)
              else last == Error
  {
    hide Strip, Concat, StepEvents, SignalsFrom, Streamed, CardEvents, Deltas;
    if turn.search.Found? { AnswerIsExact(turn, turn.search.result); }
  }

  lemma AnswerIsExact(turn: Turn, result: Result)
    requires turn.search == Found(result)
    ensures AnswerEvents(turn) != []
    ensures var last := AnswerEvents(turn)[|AnswerEvents(turn)| - 1];
            var own, written := Strip(Concat(result.answer)), Strip(Concat(turn.writer.chunks));
            if result.spots == [] && result.task.Smalltalk? then
              last == Finished(if own != "" then own else BLANK_ANSWER, [], [], 0)
            else if turn.sharedModel && exists i | 0 <= i < |result.steps| :: result.steps[i].badge == FALLBACK then
              last == Finished(if own != "" then own else NO_AXIS_ANSWER, result.spots, turn.sources, result.totalCount)
            else if written != "" then last == Finished(written, result.spots, turn.sources, result.totalCount)
            else if own != "" then last == Finished(own, result.spots, turn.sources, result.totalCount)
            else last == Error
  {
    hide Strip, Concat, Deltas;
  }

  /** The deltas of a stream, in order. */
  function DeltasIn(events: seq<Event>): seq<string> {
    if events == [] then []
    else DeltasIn(events[..|events| - 1]) + if events[|events| - 1].Delta? then [events[|events| - 1].text] else []
  }

  lemma {:induction false} DeltasInJoin(a: seq<Event>, b: seq<Event>)
    ensures DeltasIn(a + b) == DeltasIn(a) + DeltasIn(b)
  {
    if b == [] {
      Regroup(a, [], []);
      Regroup(DeltasIn(a), [], []);
    } else {
      var init, last := b[..|b| - 1], b[|b| - 1];
      DeltasInJoin(a, init);
      assert (a + b)[..|a + b| - 1] == a + init && (a + b)[|a + b| - 1] == last;
      hide DeltasIn;
      Regroup(DeltasIn(a), DeltasIn(init), if last.Delta? then [last.text] else []);
    }
  }

  lemma {:induction false} NoDeltasIn(events: seq<Event>)
    requires forall i | 0 <= i < |events| :: !events[i].Delta?
    ensures DeltasIn(events) == []
  {
    if events != [] { NoDeltasIn(events[..|events| - 1]); }
  }

  lemma {:induction false} DeltasInDeltas(parts: seq<string>)
    ensures DeltasIn(Deltas(parts)) == parts
  {
    if parts != [] {
      var init := parts[..|parts| - 1];
      DeltasInDeltas(init);
      assert Deltas(parts)[..|parts| - 1] == Deltas(init);
    }
  }

  lemma OneDeltaFirst(text: string, tail: seq<Event>)
    requires forall i | 0 <= i < |tail| :: !tail[i].Delta?
    ensures DeltasIn([Delta(text)] + tail) == [text]
  {
    NoDeltasIn(tail);
    DeltasInJoin([Delta(text)], tail);
    assert [Delta(text)][..0] == [];
    assert DeltasIn([Delta(text)]) == [text];
  }

  lemma DeltasOfWritten(result: Result, sources: seq<string>, writer: Writer)
    ensures var own, written := Strip(Concat(result.answer)), Strip(Concat(writer.chunks));
            DeltasIn(Written(result, sources, writer)) == writer.chunks + if written == "" && own != "" then [own] else []
  {
    hide Strip, Concat, Deltas, DeltasIn;
    var tail := WrittenTail(result, sources, Strip(Concat(writer.chunks)));
    DeltasInJoin(Deltas(writer.chunks), tail);
    DeltasInDeltas(writer.chunks);
    if Strip(Concat(writer.chunks)) == "" && Deterministic(result) != "" {
      OneDeltaFirst(Deterministic(result), Ending(result, Deterministic(result), sources));
    } else {
      NoDeltasIn(tail);
    }
  }

  /**
   The deltas of every turn, exactly: a fixed or ready answer is one delta; otherwise the writer's chunks are
   passed on one by one, followed by the search's answer when they come to nothing.
   */
  lemma DeltasAreExact(turn: Turn)
    ensures var deltas := DeltasIn(Sent(turn));
            match turn.search
            case Refused(message) => deltas == [message]
            case Found(result) =>
              var own, written := Strip(Concat(result.answer)), Strip(Concat(turn.writer.chunks));
              if result.spots == [] && result.task.Smalltalk? then deltas == [if own != "" then own else BLANK_ANSWER]
              else if turn.sharedModel && exists i | 0 <= i < |result.steps| :: result.steps[i].badge == FALLBACK then
                deltas == [if own != "" then own else NO_AXIS_ANSWER]
              else deltas == turn.writer.chunks + if written == "" && own != "" then [own] else []
  {
    hide Strip, Concat, DeltasIn, SignalsFrom, Streamed, Written;
    var first := StepEvents(turn.signals);
    NoDeltasIn(first);
    match turn.search
    case Refused(message) =>
      DeltasInJoin(first, Canned(message));
      OneDeltaFirst(message, [Finished(message, [], [], 0)]);
      assert Canned(message) == [Delta(message)] + [Finished(message, [], [], 0)];
    case Found(result) =>
      var front := first + StepEvents(SignalsFrom(result.steps, Streamed(turn.signals))) + CardEvents(result);
      NoDeltasIn(front);
      DeltasInJoin(front, AnswerEvents(turn));
      assert Sent(turn) == front + AnswerEvents(turn);
      DeltasOfAnswer(turn, result);
  }

  lemma DeltasOfAnswer(turn: Turn, result: Result)
    requires turn.search == Found(result)
    ensures var deltas := DeltasIn(AnswerEvents(turn));
            var own, written := Strip(Concat(result.answer)), Strip(Concat(turn.writer.chunks));
            if result.spots == [] && result.task.Smalltalk? then deltas == [if own != "" then own else BLANK_ANSWER]
            else if turn.sharedModel && exists i | 0 <= i < |result.steps| :: result.steps[i].badge == FALLBACK then
              deltas == [if own != "" then own else NO_AXIS_ANSWER]
            else deltas == turn.writer.chunks + if written == "" && own != "" then [own] else []
  {
    hide Strip, Concat, DeltasIn, Written;
    DeltasOfWritten(result, turn.sources, turn.writer);
    var blank, fixed := Or(Deterministic(result), BLANK_ANSWER), Or(Deterministic(result), NO_AXIS_ANSWER);
    assert Canned(blank) == [Delta(blank)] + [Finished(blank, [], [], 0)];
    OneDeltaFirst(blank, [Finished(blank, [], [], 0)]);
    OneDeltaFirst(fixed, Ending(result, fixed, turn.sources));
  }

  lemma ClosingIsNotEmpty(events: seq<Event>)
    requires Closing(events)
    ensures events != []
  {
  }

  lemma StepsAreSilent(signals: seq<Signal>)
    ensures forall i | 0 <= i < |StepEvents(signals)| :: !StepEvents(signals)[i].Delta?
  {
  }

  ghost predicate HasSpots(turn: Turn) {
    turn.search.Found? && turn.search.result.spots != []
  }

  /** A cards event stands at `i`: it carries the spots, only steps come before it, and neither steps nor cards after. */
  ghost predicate CardsAt(turn: Turn, events: seq<Event>, i: nat)
    requires i < |events|
  {
    && HasSpots(turn) && events[i] == Cards(turn.search.result.spots)
    && (forall j | 0 <= j < i :: events[j].Progress?)
    && (forall j | i < j < |events| :: !events[j].Progress? && !events[j].Cards?)
  }

  lemma PartsOf(turn: Turn) returns (front: seq<Event>)
    requires turn.search.Found?
    ensures Sent(turn) == front + CardEvents(turn.search.result) + AnswerEvents(turn)
    ensures forall i | 0 <= i < |front| :: front[i].Progress?
  {
    hide AnswerEvents, CardEvents, SignalsFrom, Streamed;
    front := StepEvents(turn.signals) + StepEvents(SignalsFrom(turn.search.result.steps, Streamed(turn.signals)));
  }

  /**
   Cards are sent exactly when the search found spots; then once, with those spots, after every step and
   before every delta.
   */
  lemma CardsStandBetweenStepsAndAnswer(turn: Turn)
    ensures HasSpots(turn) <==> exists i :: 0 <= i < |Sent(turn)| && Sent(turn)[i].Cards?
    ensures forall i | 0 <= i < |Sent(turn)| && Sent(turn)[i].Cards? :: CardsAt(turn, Sent(turn), i)
  {
    var events := Sent(turn);
    if turn.search.Found? {
      var front := PartsOf(turn);
      AnswerCloses(turn);
      hide AnswerEvents, Sent;
      if HasSpots(turn) {
        assert events[|front|].Cards?;
      }
      var at := |front| + |CardEvents(turn.search.result)|;
      forall j | at <= j < |events|
        ensures Rank(events[j]) >= 2
      {
        assert events[j] == AnswerEvents(turn)[j - at];
      }
      forall i | 0 <= i < |events| && events[i].Cards?
        ensures CardsAt(turn, events, i)
      {
        assert Rank(events[i]) == 1;
        assert i == |front|;
      }
    }
  }

  // ----- steps -----

  lemma {:induction false} AllDone(steps: seq<Step>)
    ensures Streamed(SignalsOf(steps)) == |steps|
  {
    if steps != [] {
      var front := steps[..|steps| - 1];
      AllDone(front);
      var all := SignalsOf(steps);
      assert all[..|all| - 1][..|all| - 2] == SignalsOf(front);
      assert Streamed(all[..|all| - 1]) == |front|;
    }
  }

  lemma {:induction false} SignalsContinue(steps: seq<Step>, k: nat)
    requires k <= |steps|
    ensures SignalsOf(steps[..k]) + SignalsFrom(steps, k) == SignalsOf(steps)
    decreases |steps| - k
  {
    if k < |steps| {
      SignalsContinue(steps, k + 1);
      assert steps[..k + 1] == steps[..k] + [steps[k]];
      MoreSignals(steps[..k], steps[k]);
      assert SignalsFrom(steps, k)
          == [Run(k, steps[k].caption), Done(k, steps[k].caption, steps[k].badge)] + SignalsFrom(steps, k + 1);
    } else {
      assert steps[..k] == steps;
    }
  }

  /**
   However many of its steps the search signalled while it ran, the stream reports every step of the result
   exactly once, run then done, in order.
   */
  lemma EveryStepIsReportedOnce(turn: Turn, k: nat)
    requires turn.search.Found? && k <= |turn.search.result.steps|
    requires turn.signals == SignalsOf(turn.search.result.steps[..k])
    ensures var result := turn.search.result;
            Sent(turn) == StepEvents(SignalsOf(result.steps)) + CardEvents(result) + AnswerEvents(turn)
  {
    var result := turn.search.result;
    hide AnswerEvents, CardEvents, Streamed;
    AllDone(result.steps[..k]);
    SignalsContinue(result.steps, k);
    assert StepEvents(turn.signals) + StepEvents(SignalsFrom(result.steps, k)) == StepEvents(SignalsOf(result.steps));
  }

  // ----- on the wire -----

  function NameOf(event: Event): string {
    match event
    case Progress(_) => "step"
    case Cards(_) => "cards"
    case Delta(_) => "delta"
    case Sources(_) => "sources"
    case Finished(_, _, _, _) => "done"
    case Error => "error"
  }

  /** `json` prints a frame's payload, which carries its number; JSON text holds no raw line end. */
  function Wire(json: Frame -> string, frames: seq<Frame>): seq<ES.Message> {
    seq(|frames|, i requires 0 <= i < |frames| => ES.Message(NameOf(frames[i].event), json(frames[i])))
  }

  /** A reader of the response body gets every frame: its name and its payload, in order. */
  lemma FramesArriveInOrder(json: Frame -> string, frames: seq<Frame>)
    requires forall i | 0 <= i < |frames| :: Free(json(frames[i]), ES.LINE_ENDS)
    ensures ES.Read(ES.EncodeAll(Wire(json, frames)), "", "") == Wire(json, frames)
  {
    forall i | 0 <= i < |frames|
      ensures ES.Encodable(Wire(json, frames)[i])
    {
      NameIsPlain(frames[i].event);
    }
    ES.FramesReadBack(Wire(json, frames));
  }

  lemma NameIsPlain(event: Event)
    ensures NameOf(event) != "" && Free(NameOf(event), ES.LINE_ENDS)
  {
  }
}
