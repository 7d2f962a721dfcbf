/**
 Decimal text and the order Python gives it.  Watermarks, query dates, call ids, cursors and image
 widths are all printed numbers, so every printer here has the parser that inverts it.
 */
module Digits {

  predicate IsDigit(c: char) {
    '0' <= c <= '9'
  }

  predicate AllDigits(s: string) {
    forall i | 0 <= i < |s| :: IsDigit(s[i])
  }

  function DigitValue(c: char): (d: nat)
    requires IsDigit(c)
    ensures d < 10
  {
    (c as int) - ('0' as int)
  }

  function DigitChar(d: nat): (c: char)
    requires d < 10
    ensures IsDigit(c) && DigitValue(c) == d
  {
    (('0' as int) + d) as char
  }

  /** The value of a string of decimal digits. */
  function Number(s: string): nat
    requires AllDigits(s)
  {
    if s == "" then 0 else Number(s[..|s| - 1]) * 10 + DigitValue(s[|s| - 1])
  }

  /** `:02d`. */
  function TwoDigits(n: nat): (s: string)
    requires n < 100
    ensures |s| == 2 && AllDigits(s) && Number(s) == n
  {
    var s := [DigitChar(n / 10), DigitChar(n % 10)];
    assert s[..1] == [DigitChar(n / 10)] && s[..1][..0] == "";
    assert Number(s[..1]) == n / 10;
    s
  }

  function FourDigits(n: nat): (s: string)
    requires n < 10000
    ensures |s| == 4 && AllDigits(s) && Number(s) == n
  {
    var s := TwoDigits(n / 100) + TwoDigits(n % 100);
    assert s[..3] == TwoDigits(n / 100) + [DigitChar(n % 100 / 10)] && s[..3][..2] == TwoDigits(n / 100);
    s
  }

  /** Decimal text without padding. */
  function Decimal(n: nat): (s: string)
    ensures s != "" && AllDigits(s) && Number(s) == n
  {
    var front := if n < 10 then "" else Decimal(n / 10);
    var s := front + [DigitChar(n % 10)];
    assert s[..|s| - 1] == front;
    s
  }

  lemma DecimalIsInjective(a: nat, b: nat)
    ensures Decimal(a) == Decimal(b) <==> a == b
  {
    assert Number(Decimal(a)) == a && Number(Decimal(b)) == b;
  }

  /** Python's `<` on strings. */
  predicate Less(a: string, b: string) {
    b != "" && (a == "" || a[0] < b[0] || (a[0] == b[0] && Less(a[1..], b[1..])))
  }

  /** Python's `max` of two strings. */
  function MaxText(a: string, b: string): string {
    if Less(a, b) then b else a
  }

  lemma {:induction false} LessIsIrreflexive(a: string)
    ensures !Less(a, a)
  {
    if a != "" { LessIsIrreflexive(a[1..]); }
  }

  lemma {:induction false} LessIsTotal(a: string, b: string, c: string)
    ensures !Less(a, b) || !Less(b, a)
    ensures !Less(a, b) && !Less(b, c) ==> !Less(a, c)
  {
    if a != "" && b != "" && c != "" { LessIsTotal(a[1..], b[1..], c[1..]); }
    else if a != "" && b != "" { LessIsTotal(a[1..], b[1..], ""); }
  }

  /** Fields of equal width compare from the left. */
  lemma {:induction false} LessByField(a: string, b: string, c: string, d: string)
    requires |a| == |b|
    ensures Less(a + c, b + d) <==> Less(a, b) || (a == b && Less(c, d))
  {
    if a == "" {
      assert a + c == c && b + d == d;
    } else {
      LessByField(a[1..], b[1..], c, d);
      assert (a + c)[1..] == a[1..] + c && (b + d)[1..] == b[1..] + d;
      assert a == [a[0]] + a[1..] && b == [b[0]] + b[1..];
    }
  }

  lemma {:induction false} LessIsNumeric(a: string, b: string)
    requires |a| == |b| && AllDigits(a) && AllDigits(b)
    ensures Less(a, b) <==> Number(a) < Number(b)
    ensures a == b <==> Number(a) == Number(b)
  {
    if a != "" {
      var k := |a| - 1;
      LessIsNumeric(a[..k], b[..k]);
      LessByField(a[..k], b[..k], a[k..], b[k..]);
      assert a == a[..k] + a[k..] && b == b[..k] + b[k..];
      assert Less(a[k..], b[k..]) <==> a[k] < b[k];
    }
  }
}
