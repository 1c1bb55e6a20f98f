/**
 * The string operations the runner relies on, written over `string`
 * (a sequence of characters): str.startswith, str.strip, str.split with a
 * one-character separator, str.splitlines on '\n' text, and float() on a
 * plain signed decimal.
 */
module Text {

  datatype Option<T> = None | Some(value: T)

  /** str.startswith. */
  predicate StartsWith(s: string, prefix: string)
  {
    |prefix| <= |s| && s[..|prefix|] == prefix
  }

  lemma StartsWithConcat(prefix: string, rest: string)
    ensures StartsWith(prefix + rest, prefix)
  {
    assert (prefix + rest)[..|prefix|] == prefix;
  }

  /**
   * The characters str.strip() removes, as far as the model goes: the ASCII
   * whitespace ' ', '\t', '\n', '\v', '\f', '\r', the separators
   * '\x1c'..'\x1f', and '\x85' and '\xa0'.
   */
  predicate IsSpace(c: char)
  {
    c == ' ' || ('\t' <= c <= '\r') || ('\U{1C}' <= c <= '\U{1F}') || c == '\U{85}' || c == '\U{A0}'
  }

  /** Drops leading whitespace: the rest of s from its first non-space character. */
  function StripLeft(s: string): (r: string)
    ensures |r| <= |s| && r == s[|s| - |r|..]
    ensures r == [] || !IsSpace(r[0])
    ensures forall k :: 0 <= k < |s| - |r| ==> IsSpace(s[k])
  {
    if s != [] && IsSpace(s[0]) then StripLeft(s[1..]) else s
  }

  /** Drops trailing whitespace: s up to its last non-space character. */
  function StripRight(s: string): (r: string)
    ensures |r| <= |s| && r == s[..|r|]
    ensures r == [] || !IsSpace(r[|r| - 1])
    ensures forall k :: |r| <= k < |s| ==> IsSpace(s[k])
  {
    if s != [] && IsSpace(s[|s| - 1]) then StripRight(s[..|s| - 1]) else s
  }

  /** str.strip(). */
  function Strip(s: string): string
  {
    StripRight(StripLeft(s))
  }

  /** A string with no whitespace at either end is its own strip. */
  lemma StripUnpadded(s: string)
    requires s == [] || (!IsSpace(s[0]) && !IsSpace(s[|s| - 1]))
    ensures Strip(s) == s
  {
  }

  /** Whitespace in front of an unpadded string is exactly what strip removes. */
  lemma StripLeadingSpaces(pad: string, s: string)
    requires forall k :: 0 <= k < |pad| ==> IsSpace(pad[k])
    requires s == [] || (!IsSpace(s[0]) && !IsSpace(s[|s| - 1]))
    ensures Strip(pad + s) == s
  {
    StripLeftPadding(pad, s);
  }

  lemma {:induction false} StripLeftPadding(pad: string, s: string)
    requires forall k :: 0 <= k < |pad| ==> IsSpace(pad[k])
    requires s == [] || !IsSpace(s[0])
    ensures StripLeft(pad + s) == s
    decreases |pad|
  {
    if pad == [] {
      assert pad + s == s;
    } else {
      assert (pad + s)[0] == pad[0];
      assert (pad + s)[1..] == pad[1..] + s;
      StripLeftPadding(pad[1..], s);
    }
  }

  /** The position of the first c in s. */
  function IndexOf(s: string, c: char): (k: nat)
    requires c in s
    ensures k < |s| && s[k] == c && c !in s[..k]
  {
    if s[0] == c then 0 else 1 + IndexOf(s[1..], c)
  }

  /** The first c in head + [c] + rest is the one after head. */
  lemma {:induction false} IndexOfAfter(head: string, c: char, rest: string)
    requires c !in head
    ensures IndexOf(head + [c] + rest, c) == |head|
    decreases |head|
  {
    if head != [] {
      assert (head + [c] + rest)[1..] == head[1..] + [c] + rest;
      IndexOfAfter(head[1..], c, rest);
    }
  }

  /** str.split(sep) with a one-character separator: the pieces between the separators. */
  function Split(s: string, sep: char): (parts: seq<string>)
    ensures |parts| >= 1
    ensures forall i :: 0 <= i < |parts| ==> sep !in parts[i]
    decreases |s|
  {
    if sep !in s then [s]
    else
      var k := IndexOf(s, sep);
      [s[..k]] + Split(s[k + 1..], sep)
  }

  /** sep.join(parts). */
  function Join(parts: seq<string>, sep: char): string
    requires |parts| >= 1
  {
    if |parts| == 1 then parts[0] else parts[0] + [sep] + Join(parts[1..], sep)
  }

  /** Splitting and joining again gives back the text. */
  lemma {:induction false} JoinSplit(s: string, sep: char)
    ensures Join(Split(s, sep), sep) == s
    decreases |s|
  {
    if sep in s {
      var k := IndexOf(s, sep);
      var head, rest := s[..k], s[k + 1..];
      assert Split(s, sep) == [head] + Split(rest, sep);
      JoinSplit(rest, sep);
      JoinCons(head, Split(rest, sep), sep);
      assert s == head + [sep] + rest;
    }
  }

  /** Joining pieces free of the separator and splitting again gives back the pieces. */
  lemma {:induction false} SplitJoin(parts: seq<string>, sep: char)
    requires |parts| >= 1
    requires forall i :: 0 <= i < |parts| ==> sep !in parts[i]
    ensures Split(Join(parts, sep), sep) == parts
    decreases |parts|
  {
    if |parts| > 1 {
      var head, tail := parts[0], parts[1..];
      JoinCons(head, tail, sep);
      SplitAfterFirst(head, sep, Join(tail, sep));
      SplitJoin(tail, sep);
      assert parts == [head] + tail;
    } else {
      assert Join(parts, sep) == parts[0];
    }
  }

  /** One more piece in front of a join. */
  lemma JoinCons(head: string, tail: seq<string>, sep: char)
    requires |tail| >= 1
    ensures Join([head] + tail, sep) == head + [sep] + Join(tail, sep)
  {
    var parts := [head] + tail;
    assert parts[0] == head && parts[1..] == tail;
  }

  /** The text before the first separator is the first piece of the split. */
  lemma SplitAfterFirst(head: string, sep: char, rest: string)
    requires sep !in head
    ensures Split(head + [sep] + rest, sep) == [head] + Split(rest, sep)
  {
    var s := head + [sep] + rest;
    IndexOfAfter(head, sep, rest);
    assert s[..|head|] == head && s[|head| + 1..] == rest;
  }

  /** str.split(sep, 1): the text before and after the first separator, or the whole text. */
  function SplitOnce(s: string, sep: char): (parts: seq<string>)
    ensures sep !in s ==> parts == [s]
    ensures sep in s ==> |parts| == 2 && s == parts[0] + [sep] + parts[1] && sep !in parts[0]
  {
    if sep !in s then [s]
    else
      var k := IndexOf(s, sep);
      assert s == s[..k] + [sep] + s[k + 1..];
      [s[..k], s[k + 1..]]
  }

  /**
   * str.splitlines() on text whose only line terminator is '\n': the pieces
   * between the newlines, without the empty piece after a final newline.
   */
  function Lines(s: string): seq<string>
  {
    var parts := Split(s, '\n');
    if parts[|parts| - 1] == [] then parts[..|parts| - 1] else parts
  }

  /** What a sequence of print calls writes: each line followed by '\n'. */
  function Printed(lines: seq<string>): string
  {
    if lines == [] then [] else lines[0] + "\n" + Printed(lines[1..])
  }

  lemma {:induction false} PrintedIsJoin(lines: seq<string>)
    ensures Printed(lines) == Join(lines + [[]], '\n')
    decreases |lines|
  {
    if lines != [] {
      PrintedIsJoin(lines[1..]);
      assert (lines + [[]])[1..] == lines[1..] + [[]];
    }
  }

  /** The lines of printed output are the printed lines. */
  lemma LinesOfPrinted(lines: seq<string>)
    requires forall i :: 0 <= i < |lines| ==> '\n' !in lines[i]
    ensures Lines(Printed(lines)) == lines
  {
    PrintedIsJoin(lines);
    SplitJoin(lines + [[]], '\n');
    assert (lines + [[]])[..|lines|] == lines;
  }

  // ---------------------------------------------------------------------
  // Decimal numbers

  predicate IsDigit(c: char)
  {
    '0' <= c <= '9'
  }

  predicate AllDigits(s: string)
  {
    forall i :: 0 <= i < |s| ==> IsDigit(s[i])
  }

  function DigitValue(c: char): nat
    requires IsDigit(c)
  {
    (c as int) - ('0' as int)
  }

  /** The value of a string of decimal digits, most significant first. */
  function NaturalValue(ds: string): nat
    requires AllDigits(ds)
  {
    if ds == [] then 0 else 10 * NaturalValue(ds[..|ds| - 1]) + DigitValue(ds[|ds| - 1])
  }

  /** The value of the fraction digits 0.d1 d2 d3 ..., most significant first. */
  function FractionValue(ds: string): (v: real)
    requires AllDigits(ds)
    ensures 0.0 <= v < 1.0
  {
    if ds == [] then 0.0 else (DigitValue(ds[0]) as real + FractionValue(ds[1..])) / 10.0
  }

  /** whole.frac as a real: the integer part plus the fraction. */
  function UnsignedValue(whole: string, frac: string): real
    requires AllDigits(whole) && AllDigits(frac)
  {
    NaturalValue(whole) as real + FractionValue(frac)
  }

  /** float() of digits with at most one '.', and at least one digit. */
  function ParseUnsigned(s: string): Option<real>
  {
    if '.' in s then
      var k := IndexOf(s, '.');
      var whole, frac := s[..k], s[k + 1..];
      if AllDigits(whole) && AllDigits(frac) && (whole != [] || frac != []) then
        Some(UnsignedValue(whole, frac))
      else None
    else if s != [] && AllDigits(s) then Some(NaturalValue(s) as real)
    else None
  }

  /** float() of an optional sign followed by an unsigned decimal. */
  function ParseDecimal(s: string): Option<real>
  {
    if s != [] && (s[0] == '+' || s[0] == '-') then
      match ParseUnsigned(s[1..])
      case None => None
      case Some(v) => Some(if s[0] == '-' then -v else v)
    else ParseUnsigned(s)
  }

  /** float(s): surrounding whitespace is ignored. */
  function ParseFloat(s: string): Option<real>
  {
    ParseDecimal(Strip(s))
  }

  datatype Sign = Unsigned | Plus | Minus

  /**
   * A decimal as format() writes it: an optional sign, the integer digits,
   * and, unless the precision is 0, a point and the fraction digits.
   */
  datatype Decimal = Decimal(sign: Sign, whole: string, frac: string)
  {
    predicate Valid()
    {
      whole != [] && AllDigits(whole) && AllDigits(frac)
    }

    function Text(): string
    {
      SignText(sign) + UnsignedText(whole, frac)
    }

    function Value(): real
      requires Valid()
    {
      Signed(sign, UnsignedValue(whole, frac))
    }
  }

  /** A magnitude with a sign applied: only '-' negates. */
  function Signed(sign: Sign, v: real): real
  {
    if sign == Minus then -v else v
  }

  /** The sign as format() writes it: nothing, '+' or '-'. */
  function SignText(sign: Sign): string
  {
    match sign
    case Unsigned => ""
    case Plus => "+"
    case Minus => "-"
  }

  /** The digits and point of a decimal, without its sign. */
  function UnsignedText(whole: string, frac: string): string
  {
    whole + (if frac == [] then "" else "." + frac)
  }

  lemma ParseUnsignedText(whole: string, frac: string)
    requires whole != [] && AllDigits(whole) && AllDigits(frac)
    ensures ParseUnsigned(UnsignedText(whole, frac)) == Some(UnsignedValue(whole, frac))
  {
    var body := UnsignedText(whole, frac);
    if frac == [] {
      assert body == whole;
      assert '.' !in whole by {
        assert forall i :: 0 <= i < |whole| ==> IsDigit(whole[i]);
      }
      assert UnsignedValue(whole, frac) == NaturalValue(whole) as real;
    } else {
      assert '.' !in whole by {
        assert forall i :: 0 <= i < |whole| ==> IsDigit(whole[i]);
      }
      IndexOfAfter(whole, '.', frac);
      assert body == whole + ['.'] + frac;
      assert body[..|whole|] == whole && body[|whole| + 1..] == frac;
    }
  }

  /** float() reads back the value of any decimal format() writes. */
  lemma ParseDecimalText(d: Decimal)
    requires d.Valid()
    ensures ParseDecimal(d.Text()) == Some(d.Value())
  {
    ParseSignedText(d.sign, d.whole, d.frac);
  }

  lemma ParseSignedText(sign: Sign, whole: string, frac: string)
    requires whole != [] && AllDigits(whole) && AllDigits(frac)
    ensures ParseDecimal(SignText(sign) + UnsignedText(whole, frac)) == Some(Signed(sign, UnsignedValue(whole, frac)))
  {
    var body := UnsignedText(whole, frac);
    ParseUnsignedText(whole, frac);
    assert body[0] == whole[0];
    ParseSignedBody(sign, body, UnsignedValue(whole, frac));
  }

  /** A sign in front of an unsigned decimal keeps its value or, for '-', negates it. */
  lemma ParseSignedBody(sign: Sign, body: string, v: real)
    requires body != [] && IsDigit(body[0]) && ParseUnsigned(body) == Some(v)
    ensures ParseDecimal(SignText(sign) + body) == Some(Signed(sign, v))
  {
    match sign
    case Unsigned =>
      assert SignText(sign) + body == body;
    case Plus =>
      ParseSignedDecimal('+', body);
    case Minus =>
      ParseSignedDecimal('-', body);
  }

  /** A leading '+' keeps the value of the rest, a leading '-' negates it. */
  lemma ParseSignedDecimal(c: char, s: string)
    requires c == '+' || c == '-'
    ensures ParseDecimal([c] + s) == match ParseUnsigned(s)
      case None => None
      case Some(v) => Some(if c == '-' then -v else v)
  {
    assert ([c] + s)[0] == c && ([c] + s)[1..] == s;
  }

  /** The text of a decimal has no whitespace, comma, '=' or newline. */
  lemma DecimalTextPlain(d: Decimal)
    requires d.Valid()
    ensures d.Text() != []
    ensures !IsSpace(d.Text()[0]) && !IsSpace(d.Text()[|d.Text()| - 1])
    ensures forall i :: 0 <= i < |d.Text()| ==> d.Text()[i] !in {',', '=', '\n'} && !IsSpace(d.Text()[i])
  {
    var t := d.Text();
    forall i | 0 <= i < |t|
      ensures t[i] == '+' || t[i] == '-' || t[i] == '.' || IsDigit(t[i])
    {
    }
  }
}
