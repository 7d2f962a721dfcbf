/**
 The text of a paging cursor: the sort key and the row id, joined by a colon and written in the URL-safe
 base64 of section 5 of RFC 4648.  The decoder is Python's lenient one: it skips characters outside the
 alphabet and counts pads.
 */
module Cursor {
  import opened Wrappers
  import opened Digits
  import opened Text

  type Bytes = seq<nat>

  predicate IsText(bytes: Bytes) {
    forall i | 0 <= i < |bytes| :: bytes[i] < 128
  }

  predicate IsBytes(bytes: Bytes) {
    forall i | 0 <= i < |bytes| :: bytes[i] < 256
  }

  // ----- base64url -----

  function Letter(v: nat): char
    requires v < 64
  {
    if v < 26 then ('A' as int + v) as char
    else if v < 52 then ('a' as int + v - 26) as char
    else if v < 62 then ('0' as int + v - 52) as char
    else if v == 62 then '-'
    else '_'
  }

  /** The value of a base64 character; `+` and `/` are taken as well. */
  function LetterValue(c: char): Option<nat> {
    if 'A' <= c <= 'Z' then Some(c as int - 'A' as int)
    else if 'a' <= c <= 'z' then Some(c as int - 'a' as int + 26)
    else if '0' <= c <= '9' then Some(c as int - '0' as int + 52)
    else if c == '-' || c == '+' then Some(62)
    else if c == '_' || c == '/' then Some(63)
    else None
  }

  function Quad(a: nat, b: nat, c: nat): string
    requires a < 256 && b < 256 && c < 256
  {
    [Letter(a / 4), Letter(a % 4 * 16 + b / 16), Letter(b % 16 * 4 + c / 64), Letter(c % 64)]
  }

  function ToBase64(bytes: Bytes): string
    requires IsBytes(bytes)
  {
    if bytes == [] then ""
    else if |bytes| == 1 then Quad(bytes[0], 0, 0)[..2] + "=="
    else if |bytes| == 2 then Quad(bytes[0], bytes[1], 0)[..3] + "="
    else Quad(bytes[0], bytes[1], bytes[2]) + ToBase64(bytes[3..])
  }

  /**
   The decoder's loop: `quad` characters of the current group have been read, `left` holds their bits not
   yet written, and `pads` pads have been seen since the last one.
   */
  function FromBase64(text: string, quad: nat, left: nat, pads: nat): Result<Bytes, ()>
    decreases |text|, 0
  {
    if text == "" then if quad == 0 then Ok([]) else Err(())
    else if text[0] == '=' then
      if quad >= 2 && quad + pads + 1 >= 4 then Ok([])
      else FromBase64(text[1..], quad, left, if quad >= 2 then pads + 1 else pads)
    else if LetterValue(text[0]).None? then FromBase64(text[1..], quad, left, pads)
    else Letters(LetterValue(text[0]).value, text[1..], quad, left)
  }

  function Letters(v: nat, rest: string, quad: nat, left: nat): Result<Bytes, ()>
    decreases |rest|, 1
  {
    if quad == 0 then FromBase64(rest, 1, v, 0)
    else if quad == 1 then Emit(left * 4 + v / 16, FromBase64(rest, 2, v % 16, 0))
    else if quad == 2 then Emit(left * 16 + v / 4, FromBase64(rest, 3, v % 4, 0))
    else Emit(left * 64 + v, FromBase64(rest, 0, 0, 0))
  }

  function Emit(byte: nat, rest: Result<Bytes, ()>): Result<Bytes, ()> {
    if rest.Ok? then Ok([byte] + rest.value) else rest
  }

  lemma LettersDecode(v: nat)
    requires v < 64
    ensures LetterValue(Letter(v)) == Some(v) && Letter(v) != '='
  {
  }

  lemma LetterIsRead(v: nat, rest: string, quad: nat, left: nat, pads: nat)
    requires v < 64
    ensures FromBase64([Letter(v)] + rest, quad, left, pads) == Letters(v, rest, quad, left)
  {
    LettersDecode(v);
    assert ([Letter(v)] + rest)[1..] == rest;
  }

  lemma QuadDecodes(a: nat, b: nat, c: nat, rest: string)
    requires a < 256 && b < 256 && c < 256
    ensures FromBase64(Quad(a, b, c) + rest, 0, 0, 0) == Emit(a, Emit(b, Emit(c, FromBase64(rest, 0, 0, 0))))
  {
    hide FromBase64, Letter, Emit;
    var q := Quad(a, b, c);
    var after1, after2, after3 := q[1..] + rest, q[2..] + rest, q[3..] + rest;
    assert q + rest == [q[0]] + after1 && after1 == [q[1]] + after2 && after2 == [q[2]] + after3 && after3 == [q[3]] + rest;
    LetterIsRead(a / 4, after1, 0, 0, 0);
    LetterIsRead(a % 4 * 16 + b / 16, after2, 1, a / 4, 0);
    LetterIsRead(b % 16 * 4 + c / 64, after3, 2, b / 16, 0);
    LetterIsRead(c % 64, rest, 3, c / 64, 0);
    assert (a % 4 * 16 + b / 16) / 16 == a % 4 && (a % 4 * 16 + b / 16) % 16 == b / 16;
    assert (b % 16 * 4 + c / 64) / 4 == b % 16 && (b % 16 * 4 + c / 64) % 4 == c / 64;
  }

  lemma ShortTailDecodes(a: nat)
    requires a < 256
    ensures FromBase64(Quad(a, 0, 0)[..2] + "==", 0, 0, 0) == Ok([a])
  {
    hide FromBase64, Letter;
    var q := Quad(a, 0, 0);
    assert q[..2] + "==" == [q[0]] + ([q[1]] + "==");
    LetterIsRead(a / 4, [q[1]] + "==", 0, 0, 0);
    LetterIsRead(a % 4 * 16, "==", 1, a / 4, 0);
    TwoPads(a % 4 * 16 % 16);
    assert a % 4 * 16 / 16 == a % 4;
    assert [a] + [] == [a];
  }

  lemma TwoPads(left: nat)
    ensures FromBase64("==", 2, left, 0) == Ok([])
  {
    assert "=="[1..] == "=";
  }

  lemma LongTailDecodes(a: nat, b: nat)
    requires a < 256 && b < 256
    ensures FromBase64(Quad(a, b, 0)[..3] + "=", 0, 0, 0) == Ok([a, b])
  {
    hide FromBase64, Letter;
    var q := Quad(a, b, 0);
    assert q[..3] + "=" == [q[0]] + ([q[1]] + ([q[2]] + "="));
    LetterIsRead(a / 4, [q[1]] + ([q[2]] + "="), 0, 0, 0);
    LetterIsRead(a % 4 * 16 + b / 16, [q[2]] + "=", 1, a / 4, 0);
    LetterIsRead(b % 16 * 4, "=", 2, b / 16, 0);
    OnePad(b % 16 * 4 % 4);
    assert (a % 4 * 16 + b / 16) / 16 == a % 4 && (a % 4 * 16 + b / 16) % 16 == b / 16;
    assert b % 16 * 4 / 4 == b % 16;
    assert [a] + ([b] + []) == [a, b];
  }

  lemma OnePad(left: nat)
    ensures FromBase64("=", 3, left, 0) == Ok([])
  {
  }

  /** Decoding inverts encoding for every byte string. */
  lemma {:induction false} Base64RoundTrip(bytes: Bytes)
    requires IsBytes(bytes)
    ensures FromBase64(ToBase64(bytes), 0, 0, 0) == Ok(bytes)
  {
    hide FromBase64, Quad;
    if |bytes| == 0 {
      NothingToRead();
    } else if |bytes| == 1 {
      ShortTailDecodes(bytes[0]);
      assert bytes == [bytes[0]];
    } else if |bytes| == 2 {
      LongTailDecodes(bytes[0], bytes[1]);
      assert bytes == [bytes[0], bytes[1]];
    } else {
      Base64RoundTrip(bytes[3..]);
      QuadDecodes(bytes[0], bytes[1], bytes[2], ToBase64(bytes[3..]));
      assert [bytes[0]] + ([bytes[1]] + ([bytes[2]] + bytes[3..])) == bytes;
    }
  }

  lemma NothingToRead()
    ensures FromBase64("", 0, 0, 0) == Ok([])
  {
  }

  // ----- the cursor -----

  function ToBytes(text: string): (bytes: Bytes)
    ensures |bytes| == |text|
  {
    seq(|text|, i requires 0 <= i < |text| => text[i] as nat)
  }

  function ToText(bytes: Bytes): (text: string)
    requires IsText(bytes)
    ensures |text| == |bytes|
  {
    seq(|bytes|, i requires 0 <= i < |bytes| => bytes[i] as char)
  }

  predicate PlainText(text: string) {
    forall i | 0 <= i < |text| :: text[i] as nat < 128
  }

  /** How floats are printed and read back. */
  datatype Floats = Floats(show: real -> string, parse: string -> Option<real>)

  /** What is used of Python's floats: the text of `key` reads back as `key` and holds no colon. */
  predicate PrintsFaithfully(floats: Floats, key: real) {
    var text := floats.show(key);
    floats.parse(text) == Some(key) && ':' !in text && PlainText(text)
  }

  function EncodeCursor(floats: Floats, key: real, id: nat): string
    requires PrintsFaithfully(floats, key)
  {
    var text := floats.show(key) + ":" + Decimal(id);
    DigitsArePlain(Decimal(id));
    ToBase64(ToBytes(text))
  }

  lemma DigitsArePlain(s: string)
    requires AllDigits(s)
    ensures PlainText(s) && ':' !in s
  {
    assert forall i :: 0 <= i < |s| ==> IsDigit(s[i]);
  }

  /** The row a page starts after: nothing for the first page. */
  type Position = Option<(real, nat)>

  function DecodeCursor(floats: Floats, cursor: Option<string>): Result<Position, string> {
    if cursor.None? || cursor.value == "" then Ok(None)
    else
      var bytes := FromBase64(cursor.value, 0, 0, 0);
      if bytes.Err? || !IsText(bytes.value) then Err("invalid cursor")
      else
        var text := ToText(bytes.value);
        var k := FirstOf(text, {':'});
        if k == |text| then Err("invalid cursor")
        else
          var key, id := floats.parse(text[..k]), text[k + 1..];
          if key.None? || id == "" || !AllDigits(id) then Err("invalid cursor")
          else Ok(Some((key.value, Number(id))))
  }

  lemma TextRoundTrip(text: string)
    requires PlainText(text)
    ensures IsText(ToBytes(text)) && IsBytes(ToBytes(text)) && ToText(ToBytes(text)) == text
  {
  }

  /** A cursor is never empty text and always decodes to the key and id it was made from. */
  lemma CursorRoundTrip(floats: Floats, key: real, id: nat)
    requires PrintsFaithfully(floats, key)
    ensures DecodeCursor(floats, Some(EncodeCursor(floats, key, id))) == Ok(Some((key, id)))
  {
    hide FromBase64, ToBase64, FirstOf, ToBytes, ToText;
    var front, back := floats.show(key), Decimal(id);
    var text := front + ":" + back;
    DigitsArePlain(back);
    TextRoundTrip(text);
    Base64RoundTrip(ToBytes(text));
    assert text == front + (":" + back);
    CutAt(front, ":" + back, {':'});
    assert text[..|front|] == front && text[|front| + 1..] == back;
    EncodedIsNotEmpty(ToBytes(text));
  }

  /** Text that is no cursor is refused: without a separator, with a key that is no number, or an id that is none. */
  lemma OnlyCursorsDecode(floats: Floats, text: string)
    requires PlainText(text) && text != ""
    ensures var k, cursor := FirstOf(text, {':'}), Some(ToBase64(ToBytes(text)));
            var whole := k < |text| && floats.parse(text[..k]).Some? && text[k + 1..] != "" && AllDigits(text[k + 1..]);
            DecodeCursor(floats, cursor)
            == if whole then Ok(Some((floats.parse(text[..k]).value, Number(text[k + 1..])))) else Err("invalid cursor")
  {
    hide FromBase64, ToBase64, FirstOf, ToBytes, ToText;
    TextRoundTrip(text);
    Base64RoundTrip(ToBytes(text));
    EncodedIsNotEmpty(ToBytes(text));
  }

  lemma EncodedIsNotEmpty(bytes: Bytes)
    requires IsBytes(bytes) && bytes != []
    ensures ToBase64(bytes) != ""
  {
  }
}
