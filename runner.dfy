/**
 * The runner's text protocol: every scenario prints a summary line
 * "SSM: m=<magnitude>, a=<alignment>"; the runner takes the first such line
 * of a script's standard output, parses it, and classifies the alignment
 * into a band.
 *
 * Launching the scripts is left to the caller: a script's standard output
 * is an input here, and the scripts that exist are the keys of a map from
 * script name to that output.
 */
module Runner {
  import opened Primitives
  import opened Text

  // ---------------------------------------------------------------------
  // classify_band

  datatype Band = Calm | Borderline | Stressed
  {
    function Label(): string
    {
      match this
      case Calm => "A+ (calm)"
      case Borderline => "A0 (borderline)"
      case Stressed => "A- (stressed)"
    }

    /** How far from calm a band is. */
    function Severity(): nat
    {
      match this
      case Calm => 0
      case Borderline => 1
      case Stressed => 2
    }
  }

  function ClassifyBand(a: real): Band
  {
    var x := Abs(a);
    if x < 0.20 then Calm
    else if x < 0.50 then Borderline
    else Stressed
  }

  /** The three bands and their thresholds on |a|, in both directions. */
  lemma BandThresholds(a: real)
    ensures ClassifyBand(a) == Calm <==> Abs(a) < 0.20
    ensures ClassifyBand(a) == Borderline <==> 0.20 <= Abs(a) < 0.50
    ensures ClassifyBand(a) == Stressed <==> 0.50 <= Abs(a)
  {
  }

  /** The thresholds themselves fall into the worse band. */
  lemma BandBoundaries()
    ensures ClassifyBand(0.20) == Borderline && ClassifyBand(-0.20) == Borderline
    ensures ClassifyBand(0.50) == Stressed && ClassifyBand(-0.50) == Stressed
  {
  }

  /** Only |a| matters. */
  lemma BandIgnoresSign(a: real)
    ensures ClassifyBand(-a) == ClassifyBand(a)
  {
  }

  /** A larger |a| never gives a calmer band. */
  lemma BandMonotone(a: real, b: real)
    requires Abs(a) <= Abs(b)
    ensures ClassifyBand(a).Severity() <= ClassifyBand(b).Severity()
  {
  }

  // ---------------------------------------------------------------------
  // parse_ssm_line

  /** [p.strip() for p in parts]. */
  function StripEach(parts: seq<string>): (r: seq<string>)
    ensures |r| == |parts|
    ensures forall i :: 0 <= i < |parts| ==> r[i] == Strip(parts[i])
  {
    seq(|parts|, i requires 0 <= i < |parts| => Strip(parts[i]))
  }

  /** [p for p in parts if p.startswith(prefix)]. */
  function WithPrefix(parts: seq<string>, prefix: string): (r: seq<string>)
    ensures forall i :: 0 <= i < |r| ==> StartsWith(r[i], prefix)
  {
    if parts == [] then []
    else if StartsWith(parts[0], prefix) then [parts[0]] + WithPrefix(parts[1..], prefix)
    else WithPrefix(parts[1..], prefix)
  }

  /** [p for p in parts if p.startswith(prefix)][0], or None where that raises IndexError. */
  function FirstWithPrefix(parts: seq<string>, prefix: string): Option<string>
  {
    var matching := WithPrefix(parts, prefix);
    if matching == [] then None else Some(matching[0])
  }

  /** The first part with the prefix is the one the lookup returns. */
  lemma {:induction false} FirstWithPrefixAt(parts: seq<string>, prefix: string, i: nat)
    requires i < |parts| && StartsWith(parts[i], prefix)
    requires forall j :: 0 <= j < i ==> !StartsWith(parts[j], prefix)
    ensures FirstWithPrefix(parts, prefix) == Some(parts[i])
    decreases i
  {
    if i > 0 {
      FirstWithPrefixAt(parts[1..], prefix, i - 1);
    }
  }

  /** Without any part carrying the prefix, the lookup fails. */
  lemma {:induction false} FirstWithPrefixNone(parts: seq<string>, prefix: string)
    requires forall j :: 0 <= j < |parts| ==> !StartsWith(parts[j], prefix)
    ensures FirstWithPrefix(parts, prefix) == None
    decreases |parts|
  {
    if parts != [] {
      FirstWithPrefixNone(parts[1..], prefix);
    }
  }

  /** part.split("=", 1)[1], or None where that raises IndexError. */
  function FieldValue(part: string): Option<string>
  {
    var pieces := SplitOnce(part, '=');
    if |pieces| == 2 then Some(pieces[1]) else None
  }

  /** For a part "k=<text>" with a one-letter key, the value is the text after "k=". */
  lemma FieldValueAfterKey(key: char, text: string)
    requires key != '='
    ensures FieldValue([key, '='] + text) == Some(text)
  {
    IndexOfAfter([key], '=', text);
    assert [key, '='] + text == [key] + ['='] + text;
  }

  /** Both values, or (None, None) when either is missing. */
  function BothOrNeither(m: Option<real>, a: Option<real>): (r: (Option<real>, Option<real>))
    ensures r.0.Some? <==> r.1.Some?
  {
    if m.None? || a.None? then (None, None) else (m, a)
  }

  /** The part of parse_ssm_line after the split: find "m=" and "a=", convert both values. */
  function ParseFields(parts: seq<string>): (r: (Option<real>, Option<real>))
    ensures r.0.Some? <==> r.1.Some?
  {
    var mPart, aPart := FirstWithPrefix(parts, "m="), FirstWithPrefix(parts, "a=");
    if mPart.None? || aPart.None? then (None, None)
    else
      var mText, aText := FieldValue(mPart.value), FieldValue(aPart.value);
      if mText.None? || aText.None? then (None, None)
      else BothOrNeither(ParseFloat(mText.value), ParseFloat(aText.value))
  }

  /**
   * parse_ssm_line: an optional "SSM:" prefix, then comma-separated parts;
   * every failure gives (None, None), so the two results are both None or
   * both present.
   */
  function ParseSsmLine(line: string): (r: (Option<real>, Option<real>))
    ensures r.0.Some? <==> r.1.Some?
  {
    var body := if StartsWith(line, "SSM:") then Strip(line[|"SSM:"|..]) else line;
    ParseFields(StripEach(Split(body, ',')))
  }

  /**
   * Only the first part starting with "m=" and the first starting with
   * "a=" matter, wherever they stand: the parts before them without those
   * prefixes and every part after them are ignored.
   */
  lemma FirstMatchingPartsWin(parts: seq<string>, i: nat, j: nat)
    requires i < |parts| && StartsWith(parts[i], "m=")
    requires forall k :: 0 <= k < i ==> !StartsWith(parts[k], "m=")
    requires j < |parts| && StartsWith(parts[j], "a=")
    requires forall k :: 0 <= k < j ==> !StartsWith(parts[k], "a=")
    ensures ParseFields(parts) == BothOrNeither(ParseFloat(parts[i][2..]), ParseFloat(parts[j][2..]))
  {
    FirstWithPrefixAt(parts, "m=", i);
    FirstWithPrefixAt(parts, "a=", j);
    assert parts[i] == ['m', '='] + parts[i][2..];
    assert parts[j] == ['a', '='] + parts[j][2..];
    FieldValueAfterKey('m', parts[i][2..]);
    FieldValueAfterKey('a', parts[j][2..]);
  }

  /** A missing "m=" or "a=" part gives (None, None). */
  lemma MissingFieldFails(parts: seq<string>)
    requires (forall k :: 0 <= k < |parts| ==> !StartsWith(parts[k], "m="))
          || (forall k :: 0 <= k < |parts| ==> !StartsWith(parts[k], "a="))
    ensures ParseFields(parts) == (None, None)
  {
    if forall k :: 0 <= k < |parts| ==> !StartsWith(parts[k], "m=") {
      FirstWithPrefixNone(parts, "m=");
    } else {
      FirstWithPrefixNone(parts, "a=");
    }
  }

  /** A field "k=<decimal>" of the summary line. */
  function Field(key: char, d: Decimal): string
  {
    [key, '='] + d.Text()
  }

  /** The two fields of the summary line: "m=<m>, a=<a>". */
  function FieldList(m: Decimal, a: Decimal): string
  {
    Field('m', m) + ", " + Field('a', a)
  }

  /** The summary line every scenario prints: "SSM: m=<m>, a=<a>". */
  function SsmLine(m: Decimal, a: Decimal): string
  {
    "SSM: " + FieldList(m, a)
  }

  /** "<f1>, <f2>" splits on ',' and strips into exactly [f1, f2]. */
  lemma TwoFields(f1: string, f2: string)
    requires f1 != [] && !IsSpace(f1[0]) && !IsSpace(f1[|f1| - 1]) && ',' !in f1
    requires f2 != [] && !IsSpace(f2[0]) && !IsSpace(f2[|f2| - 1]) && ',' !in f2
    ensures StripEach(Split(f1 + ", " + f2, ',')) == [f1, f2]
  {
    SplitPair(f1, f2);
    StripPair(f1, f2);
  }

  lemma SplitPair(f1: string, f2: string)
    requires ',' !in f1 && ',' !in f2
    ensures Split(f1 + ", " + f2, ',') == [f1, " " + f2]
  {
    var second := " " + f2;
    assert ',' !in second;
    assert f1 + ", " + f2 == Join([f1, second], ',');
    SplitJoin([f1, second], ',');
  }

  lemma StripPair(f1: string, f2: string)
    requires f1 != [] && !IsSpace(f1[0]) && !IsSpace(f1[|f1| - 1])
    requires f2 != [] && !IsSpace(f2[0]) && !IsSpace(f2[|f2| - 1])
    ensures StripEach([f1, " " + f2]) == [f1, f2]
  {
    StripUnpadded(f1);
    StripLeadingSpaces(" ", f2);
  }

  /** A field has no whitespace at its ends and no comma. */
  lemma FieldPlain(key: char, d: Decimal)
    requires d.Valid() && key != ',' && !IsSpace(key)
    ensures var f := Field(key, d);
      f != [] && !IsSpace(f[0]) && !IsSpace(f[|f| - 1]) && ',' !in f
  {
    DecimalTextPlain(d);
    var f := Field(key, d);
    assert f[|f| - 1] == d.Text()[|d.Text()| - 1];
    forall k | 0 <= k < |f|
      ensures f[k] != ','
    {
      if k >= 2 {
        assert f[k] == d.Text()[k - 2];
      }
    }
  }

  /** float() reads back a printed decimal. */
  lemma ParseFloatOfText(d: Decimal)
    requires d.Valid()
    ensures ParseFloat(d.Text()) == Some(d.Value())
  {
    DecimalTextPlain(d);
    StripUnpadded(d.Text());
    ParseDecimalText(d);
  }

  /** A field starts with its key and '=', and float() reads its value back. */
  lemma FieldReadsBack(key: char, d: Decimal)
    requires d.Valid()
    ensures var f := Field(key, d);
      |f| >= 2 && f[0] == key && f[..2] == [key, '='] && ParseFloat(f[2..]) == Some(d.Value())
  {
    var f := Field(key, d);
    assert f[..2] == [key, '='] && f[2..] == d.Text();
    ParseFloatOfText(d);
  }

  /** "m=<m>" then "a=<a>" give both values. */
  lemma ParseFieldsInOrder(m: Decimal, a: Decimal)
    requires m.Valid() && a.Valid()
    ensures ParseFields([Field('m', m), Field('a', a)]) == (Some(m.Value()), Some(a.Value()))
  {
    FieldReadsBack('m', m);
    FieldReadsBack('a', a);
    ParseTwoParts(Field('m', m), Field('a', a), m.Value(), a.Value(), false);
  }

  /** "a=<a>" then "m=<m>" give both values too. */
  lemma ParseFieldsSwapped(m: Decimal, a: Decimal)
    requires m.Valid() && a.Valid()
    ensures ParseFields([Field('a', a), Field('m', m)]) == (Some(m.Value()), Some(a.Value()))
  {
    FieldReadsBack('m', m);
    FieldReadsBack('a', a);
    ParseTwoParts(Field('m', m), Field('a', a), m.Value(), a.Value(), true);
  }

  lemma ParseTwoParts(f: string, g: string, mv: real, av: real, swapped: bool)
    requires |f| >= 2 && f[..2] == ['m', '='] && ParseFloat(f[2..]) == Some(mv)
    requires |g| >= 2 && g[..2] == ['a', '='] && ParseFloat(g[2..]) == Some(av)
    ensures ParseFields(TwoParts(f, g, swapped)) == (Some(mv), Some(av))
  {
    assert StartsWith(f, "m=") && !StartsWith(f, "a=");
    assert StartsWith(g, "a=") && !StartsWith(g, "m=");
    if swapped {
      FirstMatchingPartsWin([g, f], 1, 0);
    } else {
      FirstMatchingPartsWin([f, g], 0, 1);
    }
  }

  function TwoParts(f: string, g: string, swapped: bool): seq<string>
  {
    if swapped then [g, f] else [f, g]
  }

  /** After "SSM:", the rest of the line is stripped before it is split. */
  lemma ParseAfterPrefix(body: string)
    requires body != [] && !IsSpace(body[0]) && !IsSpace(body[|body| - 1])
    ensures ParseSsmLine("SSM: " + body) == ParseFields(StripEach(Split(body, ',')))
  {
    PrefixThenSpace(body);
    ParseAfterSpacedPrefix(body);
  }

  lemma ParseAfterSpacedPrefix(body: string)
    requires body != [] && !IsSpace(body[0]) && !IsSpace(body[|body| - 1])
    ensures ParseSsmLine("SSM:" + (" " + body)) == ParseFields(StripEach(Split(body, ',')))
  {
    StripLeadingSpaces(" ", body);
    ParseAfterBarePrefix(" " + body);
  }

  lemma PrefixThenSpace(body: string)
    ensures "SSM: " + body == "SSM:" + (" " + body)
  {
  }

  /** A line "SSM:<rest>" is parsed from strip(rest). */
  lemma ParseAfterBarePrefix(rest: string)
    ensures ParseSsmLine("SSM:" + rest) == ParseFields(StripEach(Split(Strip(rest), ',')))
  {
    var line := "SSM:" + rest;
    assert line[..4] == "SSM:" && line[4..] == rest;
  }

  /** The text of two fields joined by ", " has no whitespace at its ends. */
  lemma FieldTextPlain(f: string, g: string)
    requires f != [] && !IsSpace(f[0]) && g != [] && !IsSpace(g[|g| - 1])
    ensures var t := f + ", " + g; t != [] && !IsSpace(t[0]) && !IsSpace(t[|t| - 1])
  {
    var t := f + ", " + g;
    assert t[0] == f[0] && t[|t| - 1] == g[|g| - 1];
  }

  /** Round trip: the line a scenario prints parses back to the decimals it printed. */
  lemma ParseSsmLineRoundTrip(m: Decimal, a: Decimal)
    requires m.Valid() && a.Valid()
    ensures ParseSsmLine(SsmLine(m, a)) == (Some(m.Value()), Some(a.Value()))
  {
    var f, g := Field('m', m), Field('a', a);
    FieldPlain('m', m);
    FieldPlain('a', a);
    FieldTextPlain(f, g);
    ParseAfterPrefix(f + ", " + g);
    TwoFields(f, g);
    ParseFieldsInOrder(m, a);
  }

  /** The "SSM:" prefix is optional. */
  lemma ParseSsmLineWithoutPrefix(m: Decimal, a: Decimal)
    requires m.Valid() && a.Valid()
    ensures ParseSsmLine(FieldList(m, a)) == (Some(m.Value()), Some(a.Value()))
  {
    var f, g := Field('m', m), Field('a', a);
    assert !StartsWith(f + ", " + g, "SSM:") by {
      assert (f + ", " + g)[0] == 'm';
    }
    FieldPlain('m', m);
    FieldPlain('a', a);
    TwoFields(f, g);
    ParseFieldsInOrder(m, a);
  }

  /** The two fields may come in either order. */
  lemma ParseSsmLineSwapped(m: Decimal, a: Decimal)
    requires m.Valid() && a.Valid()
    ensures ParseSsmLine("SSM: " + (Field('a', a) + ", " + Field('m', m))) == (Some(m.Value()), Some(a.Value()))
  {
    var f, g := Field('m', m), Field('a', a);
    FieldPlain('m', m);
    FieldPlain('a', a);
    FieldTextPlain(g, f);
    ParseAfterPrefix(g + ", " + f);
    TwoFields(g, f);
    ParseFieldsSwapped(m, a);
  }

  /** The example line of parse_ssm_line's documentation. */
  lemma ParseSsmLineExample()
    ensures ParseSsmLine("SSM: m=11.8950, a=+0.5173") == (Some(11.895), Some(0.5173))
  {
    var m, a := ExampleMagnitude(), ExampleAlignment();
    ExampleValues();
    ExampleLine();
    ParseSsmLineRoundTrip(m, a);
  }

  /** 11.8950, as format(.4f) writes the example's magnitude. */
  function ExampleMagnitude(): Decimal
  {
    Decimal(Unsigned, "11", "8950")
  }

  /** +0.5173, as format(+.4f) writes the example's alignment. */
  function ExampleAlignment(): Decimal
  {
    Decimal(Plus, "0", "5173")
  }

  lemma ExampleValues()
    ensures ExampleMagnitude().Valid() && ExampleMagnitude().Value() == 11.895
    ensures ExampleAlignment().Valid() && ExampleAlignment().Value() == 0.5173
  {
    ExampleWholeValues();
    ExampleFractionValues();
  }

  lemma ExampleWholeValues()
    ensures NaturalValue("11") == 11 && NaturalValue("0") == 0
  {
    assert "11"[..1] == "1" && "1"[..0] == "";
    assert "0"[..0] == "";
  }

  lemma ExampleFractionValues()
    ensures FractionValue("8950") == 0.895 && FractionValue("5173") == 0.5173
  {
    assert "8950"[1..] == "950" && "950"[1..] == "50" && "50"[1..] == "0" && "0"[1..] == "";
    assert "5173"[1..] == "173" && "173"[1..] == "73" && "73"[1..] == "3" && "3"[1..] == "";
  }

  lemma ExampleLine()
    ensures SsmLine(ExampleMagnitude(), ExampleAlignment()) == "SSM: m=11.8950, a=+0.5173"
  {
    assert ExampleMagnitude().Text() == "11.8950" && ExampleAlignment().Text() == "+0.5173";
  }

  // ---------------------------------------------------------------------
  // The summary step of run_script

  /** What the runner reports about one script's output. */
  datatype Summary = CouldNotParse | Parsed(m: real, a: real, band: Band)

  function Summarize(parsed: (Option<real>, Option<real>)): Summary
  {
    if parsed.0.None? || parsed.1.None? then CouldNotParse
    else Parsed(parsed.0.value, parsed.1.value, ClassifyBand(parsed.1.value))
  }

  /** Parse the first line starting with "SSM:"; without one, nothing is parsed. */
  function SummarizeOutput(stdout: string): Summary
  {
    match FirstWithPrefix(Lines(stdout), "SSM:")
    case None => CouldNotParse
    case Some(line) => Summarize(ParseSsmLine(line))
  }

  /** run_script's scan: stop at the first "SSM:" line, parse it, classify. */
  method ScanOutput(stdout: string) returns (s: Summary)
    ensures s == SummarizeOutput(stdout)
  {
    var lines := Lines(stdout);
    var mVal: Option<real> := None;
    var aVal: Option<real> := None;
    var i := 0;
    while i < |lines|
      invariant i <= |lines|
      invariant forall j :: 0 <= j < i ==> !StartsWith(lines[j], "SSM:")
      invariant mVal == None && aVal == None
    {
      if StartsWith(lines[i], "SSM:") {
        FirstWithPrefixAt(lines, "SSM:", i);
        var parsed := ParseSsmLine(lines[i]);
        mVal, aVal := parsed.0, parsed.1;
        break;
      }
      i := i + 1;
    }
    if i == |lines| {
      FirstWithPrefixNone(lines, "SSM:");
    }
    if mVal.None? || aVal.None? {
      s := CouldNotParse;
    } else {
      s := Parsed(mVal.value, aVal.value, ClassifyBand(aVal.value));
    }
  }

  /**
   * Of printed output, only the first "SSM:" line counts: a malformed one is
   * not retried with a later line.
   */
  lemma FirstSsmLineWins(before: seq<string>, line: string, after: seq<string>)
    requires forall i :: 0 <= i < |before| ==> '\n' !in before[i] && !StartsWith(before[i], "SSM:")
    requires '\n' !in line && StartsWith(line, "SSM:")
    requires forall i :: 0 <= i < |after| ==> '\n' !in after[i]
    ensures SummarizeOutput(Printed(before + [line] + after)) == Summarize(ParseSsmLine(line))
    ensures ParseSsmLine(line).0.None? ==> SummarizeOutput(Printed(before + [line] + after)) == CouldNotParse
  {
    var lines := before + [line] + after;
    FirstLineOfPrinted(before, line, after);
  }

  lemma FirstLineOfPrinted(before: seq<string>, line: string, after: seq<string>)
    requires forall i :: 0 <= i < |before| ==> '\n' !in before[i] && !StartsWith(before[i], "SSM:")
    requires '\n' !in line && StartsWith(line, "SSM:")
    requires forall i :: 0 <= i < |after| ==> '\n' !in after[i]
    ensures FirstWithPrefix(Lines(Printed(before + [line] + after)), "SSM:") == Some(line)
  {
    var lines := before + [line] + after;
    JoinedLinesHaveNoNewline(before, line, after);
    LinesOfPrinted(lines);
    FirstSsmLineAt(before, line, after);
  }

  lemma JoinedLinesHaveNoNewline(before: seq<string>, line: string, after: seq<string>)
    requires forall i :: 0 <= i < |before| ==> '\n' !in before[i]
    requires '\n' !in line
    requires forall i :: 0 <= i < |after| ==> '\n' !in after[i]
    ensures var lines := before + [line] + after;
      forall i :: 0 <= i < |lines| ==> '\n' !in lines[i]
  {
    var lines := before + [line] + after;
    forall i | 0 <= i < |lines|
      ensures '\n' !in lines[i]
    {
      if i < |before| {
        assert lines[i] == before[i];
      } else if i > |before| {
        assert lines[i] == after[i - |before| - 1];
      }
    }
  }

  lemma FirstSsmLineAt(before: seq<string>, line: string, after: seq<string>)
    requires forall i :: 0 <= i < |before| ==> !StartsWith(before[i], "SSM:")
    requires StartsWith(line, "SSM:")
    ensures FirstWithPrefix(before + [line] + after, "SSM:") == Some(line)
  {
    var lines := before + [line] + after;
    assert lines[|before|] == line;
    assert forall j :: 0 <= j < |before| ==> lines[j] == before[j];
    FirstWithPrefixAt(lines, "SSM:", |before|);
  }

  /**
   * Of any output, the line that decides the summary is the first one that
   * starts with "SSM:": no earlier line does, and later lines are not read.
   */
  lemma SummaryOfFirstSsmLine(stdout: string, i: nat)
    requires i < |Lines(stdout)| && StartsWith(Lines(stdout)[i], "SSM:")
    requires forall j :: 0 <= j < i ==> !StartsWith(Lines(stdout)[j], "SSM:")
    ensures SummarizeOutput(stdout) == Summarize(ParseSsmLine(Lines(stdout)[i]))
  {
    FirstWithPrefixAt(Lines(stdout), "SSM:", i);
  }

  /** Output without any "SSM:" line cannot be parsed. */
  lemma NoSsmLine(lines: seq<string>)
    requires forall i :: 0 <= i < |lines| ==> '\n' !in lines[i] && !StartsWith(lines[i], "SSM:")
    ensures SummarizeOutput(Printed(lines)) == CouldNotParse
  {
    LinesOfPrinted(lines);
    FirstWithPrefixNone(lines, "SSM:");
  }

  /**
   * End to end: a scenario that prints its summary line after lines that do
   * not start with "SSM:" is summarized with the printed magnitude and
   * alignment, and the band of that alignment.
   */
  lemma ScenarioOutputSummarized(before: seq<string>, m: Decimal, a: Decimal, after: seq<string>)
    requires m.Valid() && a.Valid()
    requires forall i :: 0 <= i < |before| ==> '\n' !in before[i] && !StartsWith(before[i], "SSM:")
    requires forall i :: 0 <= i < |after| ==> '\n' !in after[i]
    ensures SummarizeOutput(Printed(before + [SsmLine(m, a)] + after))
      == Parsed(m.Value(), a.Value(), ClassifyBand(a.Value()))
  {
    var line := SsmLine(m, a);
    SsmLineIsOneLine(m, a);
    FirstSsmLineWins(before, line, after);
    ParseSsmLineRoundTrip(m, a);
  }

  /** The summary line is a single line starting with "SSM:". */
  lemma SsmLineIsOneLine(m: Decimal, a: Decimal)
    requires m.Valid() && a.Valid()
    ensures '\n' !in SsmLine(m, a) && StartsWith(SsmLine(m, a), "SSM:")
  {
    SsmLineHasNoNewline(m, a);
    PrefixThenSpace(FieldList(m, a));
    StartsWithConcat("SSM:", " " + FieldList(m, a));
  }

  lemma SsmLineHasNoNewline(m: Decimal, a: Decimal)
    requires m.Valid() && a.Valid()
    ensures '\n' !in SsmLine(m, a)
  {
    NoNewlineInText(m);
    NoNewlineInText(a);
    assert '\n' !in Field('m', m) && '\n' !in Field('a', a);
  }

  lemma NoNewlineInText(d: Decimal)
    requires d.Valid()
    ensures '\n' !in d.Text()
  {
    DecimalTextPlain(d);
  }

  // ---------------------------------------------------------------------
  // main

  /** The law names of the ten default scenario scripts, L01 to L10. */
  const LawNames: seq<string> := [
    "ohms_law",
    "newton_fma",
    "hookes_law",
    "ideal_gas_law",
    "conservation_of_energy",
    "conservation_of_momentum",
    "bernoulli",
    "snells_law",
    "continuity_equation",
    "faraday_induction"
  ]

  /** "L01" .. "L10": the law number of the n-th default scenario. */
  function LawTag(n: nat): string
    requires 1 <= n <= 10
  {
    if n == 10 then "L10" else "L0" + [('0' as int + n) as char]
  }

  /** "scenario_L<nn>_<name>.py", the file name of the n-th law's script. */
  function ScenarioFile(n: nat, name: string): string
    requires 1 <= n <= 10
  {
    "scenario_" + LawTag(n) + "_" + name + ".py"
  }

  /** The scripts main runs when it is given no argument, as it spells them, in order. */
  const ListedScenarios: seq<string> := [
    "scenario_L01_ohms_law.py",
    "scenario_L02_newton_fma.py",
    "scenario_L03_hookes_law.py",
    "scenario_L04_ideal_gas_law.py",
    "scenario_L05_conservation_of_energy.py",
    "scenario_L06_conservation_of_momentum.py",
    "scenario_L07_bernoulli.py",
    "scenario_L08_snells_law.py",
    "scenario_L09_continuity_equation.py",
    "scenario_L10_faraday_induction.py"
  ]

  /** The scripts to run: argv[1:] when there is any argument, else the listed ones. */
  function SelectScenarios(argv: seq<string>): seq<string>
  {
    if |argv| > 1 then argv[1..] else ListedScenarios
  }

  /** Every script file name begins with "scenario_" and its law tag. */
  lemma ScenarioFileTag(n: nat, name: string)
    requires 1 <= n <= 10
    ensures StartsWith(ScenarioFile(n, name), "scenario_" + LawTag(n))
  {
    var head := "scenario_" + LawTag(n);
    var file := head + ("_" + name + ".py");
    assert ScenarioFile(n, name) == file;
    assert file[..|head|] == head;
  }

  /**
   * Without arguments the run list is the ten scripts
   * scenario_L01_<law>.py .. scenario_L10_<law>.py, one per law, in law order.
   */
  lemma DefaultSelection(argv: seq<string>)
    requires |argv| <= 1
    ensures |SelectScenarios(argv)| == 10
    ensures forall i :: 0 <= i < 10 ==> SelectScenarios(argv)[i] == ScenarioFile(i + 1, LawNames[i])
  {
    forall i | 0 <= i < 10
      ensures ListedScenarios[i] == ScenarioFile(i + 1, LawNames[i])
    {
      ListedScenarioAt(i);
    }
  }

  /**
   * The i-th name built from the law names is the i-th name main lists; one
   * lemma per script keeps each comparison of spelled-out names small.
   */
  lemma ListedScenarioAt(i: nat)
    requires i < 10
    ensures ScenarioFile(i + 1, LawNames[i]) == ListedScenarios[i]
  {
    if i == 0 { ListedL01(); }
    else if i == 1 { ListedL02(); }
    else if i == 2 { ListedL03(); }
    else if i == 3 { ListedL04(); }
    else if i == 4 { ListedL05(); }
    else if i == 5 { ListedL06(); }
    else if i == 6 { ListedL07(); }
    else if i == 7 { ListedL08(); }
    else if i == 8 { ListedL09(); }
    else { ListedL10(); }
  }

  lemma ListedL01()
    ensures ScenarioFile(1, LawNames[0]) == ListedScenarios[0]
  {
    assert LawTag(1) == "L01";
    var f, t := ScenarioFile(1, LawNames[0]), ListedScenarios[0];
    assert |f| == |t| == 24;
    forall j | 0 <= j < 24
      ensures f[j] == t[j]
    {
    }
  }

  lemma ListedL02()
    ensures ScenarioFile(2, LawNames[1]) == ListedScenarios[1]
  {
    assert LawTag(2) == "L02";
    var f, t := ScenarioFile(2, LawNames[1]), ListedScenarios[1];
    assert |f| == |t| == 26;
    forall j | 0 <= j < 26
      ensures f[j] == t[j]
    {
    }
  }

  lemma ListedL03()
    ensures ScenarioFile(3, LawNames[2]) == ListedScenarios[2]
  {
    assert LawTag(3) == "L03";
    var f, t := ScenarioFile(3, LawNames[2]), ListedScenarios[2];
    assert |f| == |t| == 26;
    forall j | 0 <= j < 26
      ensures f[j] == t[j]
    {
    }
  }

  lemma ListedL04()
    ensures ScenarioFile(4, LawNames[3]) == ListedScenarios[3]
  {
    assert LawTag(4) == "L04";
    var f, t := ScenarioFile(4, LawNames[3]), ListedScenarios[3];
    assert |f| == |t| == 29;
    forall j | 0 <= j < 29
      ensures f[j] == t[j]
    {
    }
  }

  lemma ListedL05()
    ensures ScenarioFile(5, LawNames[4]) == ListedScenarios[4]
  {
    assert LawTag(5) == "L05";
    var f, t := ScenarioFile(5, LawNames[4]), ListedScenarios[4];
    assert |f| == |t| == 38;
    forall j | 0 <= j < 38
      ensures f[j] == t[j]
    {
    }
  }

  lemma ListedL06()
    ensures ScenarioFile(6, LawNames[5]) == ListedScenarios[5]
  {
    assert LawTag(6) == "L06";
    var f, t := ScenarioFile(6, LawNames[5]), ListedScenarios[5];
    assert |f| == |t| == 40;
    forall j | 0 <= j < 40
      ensures f[j] == t[j]
    {
    }
  }

  lemma ListedL07()
    ensures ScenarioFile(7, LawNames[6]) == ListedScenarios[6]
  {
    assert LawTag(7) == "L07";
    var f, t := ScenarioFile(7, LawNames[6]), ListedScenarios[6];
    assert |f| == |t| == 25;
    forall j | 0 <= j < 25
      ensures f[j] == t[j]
    {
    }
  }

  lemma ListedL08()
    ensures ScenarioFile(8, LawNames[7]) == ListedScenarios[7]
  {
    assert LawTag(8) == "L08";
    var f, t := ScenarioFile(8, LawNames[7]), ListedScenarios[7];
    assert |f| == |t| == 26;
    forall j | 0 <= j < 26
      ensures f[j] == t[j]
    {
    }
  }

  lemma ListedL09()
    ensures ScenarioFile(9, LawNames[8]) == ListedScenarios[8]
  {
    assert LawTag(9) == "L09";
    var f, t := ScenarioFile(9, LawNames[8]), ListedScenarios[8];
    assert |f| == |t| == 35;
    forall j | 0 <= j < 35
      ensures f[j] == t[j]
    {
    }
  }

  lemma ListedL10()
    ensures ScenarioFile(10, LawNames[9]) == ListedScenarios[9]
  {
    assert LawTag(10) == "L10";
    var f, t := ScenarioFile(10, LawNames[9]), ListedScenarios[9];
    assert |f| == |t| == 33;
    forall j | 0 <= j < 33
      ensures f[j] == t[j]
    {
    }
  }

  /** The i-th listed script is that of law L<i + 1>. */
  lemma ListedScenariosInLawOrder()
    ensures forall i :: 0 <= i < 10 ==> StartsWith(ListedScenarios[i], "scenario_" + LawTag(i + 1))
  {
    forall i | 0 <= i < 10
      ensures StartsWith(ListedScenarios[i], "scenario_" + LawTag(i + 1))
    {
      ListedScenarioAt(i);
      ScenarioFileTag(i + 1, LawNames[i]);
    }
  }

  /** Each listed script runs once: no file name repeats. */
  lemma ListedScenariosDistinct()
    ensures forall i, j :: 0 <= i < j < 10 ==> ListedScenarios[i] != ListedScenarios[j]
  {
    forall i, j | 0 <= i < j < 10
      ensures ListedScenarios[i] != ListedScenarios[j]
    {
      ListedScenarioAt(i);
      ListedScenarioAt(j);
      ScenarioFilesDiffer(i + 1, LawNames[i], j + 1, LawNames[j]);
    }
  }

  /** Scripts of different laws have different file names: their tags differ. */
  lemma ScenarioFilesDiffer(n1: nat, name1: string, n2: nat, name2: string)
    requires 1 <= n1 < n2 <= 10
    ensures ScenarioFile(n1, name1) != ScenarioFile(n2, name2)
  {
    TagCharacters(n1, name1);
    TagCharacters(n2, name2);
    assert LawTag(n1)[1] != LawTag(n2)[1] || LawTag(n1)[2] != LawTag(n2)[2];
  }

  /** Characters 10 and 11 of a script's file name are the digits of its tag. */
  lemma TagCharacters(n: nat, name: string)
    requires 1 <= n <= 10
    ensures |ScenarioFile(n, name)| >= 12
    ensures ScenarioFile(n, name)[10] == LawTag(n)[1] && ScenarioFile(n, name)[11] == LawTag(n)[2]
  {
    ScenarioFileTag(n, name);
    var f := ScenarioFile(n, name);
    assert f[..12] == "scenario_" + LawTag(n);
    assert f[10] == f[..12][10] && f[11] == f[..12][11];
  }

  /** With arguments, exactly those scripts run, in the given order. */
  lemma ExplicitSelection(argv: seq<string>, i: nat)
    requires |argv| > 1 && 1 <= i < |argv|
    ensures |SelectScenarios(argv)| == |argv| - 1
    ensures SelectScenarios(argv)[i - 1] == argv[i]
  {
  }

  /** What run_script reports for one script. */
  datatype Report = NotFound(script: string) | Ran(script: string, summary: Summary)

  /** run_script: a missing script is reported; otherwise its output is summarized. */
  function RunScript(script: string, outputs: map<string, string>): Report
  {
    if script in outputs then Ran(script, SummarizeOutput(outputs[script])) else NotFound(script)
  }

  /** main: runs each selected script in turn. */
  method RunAll(argv: seq<string>, outputs: map<string, string>) returns (reports: seq<Report>)
    ensures |reports| == |SelectScenarios(argv)|
    ensures forall i :: 0 <= i < |reports| ==> reports[i] == RunScript(SelectScenarios(argv)[i], outputs)
  {
    var scenarios := SelectScenarios(argv);
    reports := [];
    for i := 0 to |scenarios|
      invariant |reports| == i
      invariant forall k :: 0 <= k < i ==> reports[k] == RunScript(scenarios[k], outputs)
    {
      var script := scenarios[i];
      var report: Report;
      if script in outputs {
        var summary := ScanOutput(outputs[script]);
        report := Ran(script, summary);
      } else {
        report := NotFound(script);
      }
      reports := reports + [report];
    }
  }
}
