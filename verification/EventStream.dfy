/**
 Server-sent events: the frames the chat writes and a reader for them, sections 9.2.5 and 9.2.6 of the
 HTML Living Standard.
 */
module EventStream {
  import opened Text

  /** One event as a reader dispatches it. */
  datatype Message = Message(name: string, data: string)

  const LINE_ENDS := {'\n', '\r'}

  /** One frame of `encode`; JSON text never holds a raw line end. */
  function Encode(message: Message): string {
    ("event: " + message.name) + ("\n" + (("data: " + message.data) + ("\n" + "\n")))
  }

  function EncodeAll(messages: seq<Message>): string {
    if messages == [] then "" else Encode(messages[0]) + EncodeAll(messages[1..])
  }

  predicate Encodable(message: Message) {
    message.name != "" && Free(message.name, LINE_ENDS) && Free(message.data, LINE_ENDS)
  }

  /** The value of a field: what follows the colon, without one leading space. */
  function FieldValue(line: string, colon: nat): string
    requires colon <= |line|
  {
    if colon == |line| then ""
    else if colon + 1 < |line| && line[colon + 1] == ' ' then line[colon + 2..]
    else line[colon + 1..]
  }

  /** The reader: `name` and `data` are the buffers filled since the last dispatch. */
  function Read(text: string, name: string, data: string): seq<Message>
    decreases |text|, 0
  {
    var end := FirstOf(text, LINE_ENDS);
    if end == |text| then []
    else
      var line := text[..end];
      var rest := if text[end] == '\r' && end + 1 < |text| && text[end + 1] == '\n' then text[end + 2..] else text[end + 1..];
      Line(line, rest, name, data)
  }

  function Line(line: string, rest: string, name: string, data: string): seq<Message>
    decreases |rest|, 1
  {
    if line == "" then
      (if data == "" then [] else [Message(if name == "" then "message" else name, data[..|data| - 1])]) + Read(rest, "", "")
    else
      var colon := FirstOf(line, {':'});
      var value := FieldValue(line, colon);
      if line[..colon] == "event" then Read(rest, value, data)
      else if line[..colon] == "data" then Read(rest, name, data + value + "\n")
      else Read(rest, name, data)
  }

  lemma LineIsRead(line: string, rest: string, name: string, data: string)
    requires Free(line, LINE_ENDS)
    ensures Read(line + ("\n" + rest), name, data) == Line(line, rest, name, data)
  {
    var text := line + ("\n" + rest);
    CutAt(line, "\n" + rest, LINE_ENDS);
    hide FirstOf, Line;
    assert text[|line|] == '\n' && text[|line| + 1..] == rest;
  }

  lemma EventLine(value: string, rest: string, name: string, data: string)
    requires Free(value, LINE_ENDS)
    ensures Read(("event: " + value) + ("\n" + rest), name, data) == Read(rest, value, data)
  {
    var line := "event: " + value;
    FreeTogether("event: ", value, LINE_ENDS);
    LineIsRead(line, rest, name, data);
    assert line == "event" + (": " + value);
    CutAt("event", ": " + value, {':'});
    hide FirstOf, Read;
    assert line[7..] == value;
  }

  lemma DataLine(value: string, rest: string, name: string, data: string)
    requires Free(value, LINE_ENDS)
    ensures Read(("data: " + value) + ("\n" + rest), name, data) == Read(rest, name, data + value + "\n")
  {
    var line := "data: " + value;
    FreeTogether("data: ", value, LINE_ENDS);
    LineIsRead(line, rest, name, data);
    assert line == "data" + (": " + value);
    CutAt("data", ": " + value, {':'});
    hide FirstOf, Read;
    assert line[6..] == value;
  }

  lemma BlankLine(rest: string, name: string, value: string)
    requires name != ""
    ensures Read("\n" + rest, name, value + "\n") == [Message(name, value)] + Read(rest, "", "")
  {
    LineIsRead("", rest, name, value + "\n");
    hide Read;
    assert "" + ("\n" + rest) == "\n" + rest;
    assert (value + "\n")[..|value|] == value;
  }

  /** A reader of the stream gets exactly the events that were written, in order. */
  lemma {:induction false} FramesReadBack(messages: seq<Message>)
    requires forall i | 0 <= i < |messages| :: Encodable(messages[i])
    ensures Read(EncodeAll(messages), "", "") == messages
  {
    if messages == [] {
      NothingToRead();
    } else {
      FramesReadBack(messages[1..]);
      FrameReadsBack(messages[0], EncodeAll(messages[1..]));
    }
  }

  lemma NothingToRead()
    ensures Read("", "", "") == []
  {
  }

  lemma FrameReadsBack(message: Message, rest: string)
    requires Encodable(message)
    ensures Read(Encode(message) + rest, "", "") == [message] + Read(rest, "", "")
  {
    hide Read;
    var blank := "\n" + rest;
    var after := ("data: " + message.data) + ("\n" + blank);
    FrameParts("event: " + message.name, "data: " + message.data, rest);
    EventLine(message.name, after, "", "");
    DataLine(message.data, blank, message.name, "");
    BlankLine(rest, message.name, message.data);
    assert "" + message.data + "\n" == message.data + "\n";
  }

  lemma FrameParts(first: string, second: string, rest: string)
    ensures (first + ("\n" + (second + ("\n" + "\n")))) + rest == first + ("\n" + (second + ("\n" + ("\n" + rest))))
  {
    var a := "\n" + "\n";
    assert a + rest == "\n" + ("\n" + rest);
    assert (second + a) + rest == second + (a + rest);
    var b := second + a;
    assert ("\n" + b) + rest == "\n" + (b + rest);
  }
}
