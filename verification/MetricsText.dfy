/**
Reading the metrics text back. The parser below follows "Line format" of the Prometheus text exposition format 0.0.4 and
knows nothing of the counters that wrote the text.
*/
module MetricsText {
  import opened GoStrings
  import opened Metrics

  datatype Sample = Sample(name: Bytes, pairs: seq<(Bytes, Bytes)>, value: int)

  predicate IsNameChar(c: char) {
    'a' <= c <= 'z' || 'A' <= c <= 'Z' || '0' <= c <= '9' || c == '_' || c == ':'
  }

  predicate IsName(s: Bytes) {
    s != [] && forall i | 0 <= i < |s| :: IsNameChar(s[i])
  }

  // ----- the parser -----

  function NameRun(s: Bytes): (n: nat)
    ensures n <= |s|
    ensures forall i | 0 <= i < n :: IsNameChar(s[i])
    ensures n < |s| ==> !IsNameChar(s[n])
  {
    if s == [] || !IsNameChar(s[0]) then 0 else 1 + NameRun(s[1..])
  }

  /** Reads an escaped label value up to its closing quote. */
  function Unescape(s: Bytes): (r: Option<(Bytes, Bytes)>)
    ensures r.Some? ==> |r.value.1| < |s|
  {
    if s == [] || s[0] == '\n' then None
    else if s[0] == '\"' then Some(([], s[1..]))
    else if s[0] == '\\' then
      if |s| < 2 || s[1] !in "\\\"n" then None
      else
        match Unescape(s[2..])
        case None => None
        case Some((v, rest)) => Some(([if s[1] == 'n' then '\n' else s[1]] + v, rest))
    else
      match Unescape(s[1..])
      case None => None
      case Some((v, rest)) => Some(([s[0]] + v, rest))
  }

  /** Reads name="value" pairs, comma separated, up to the closing brace. */
  function ParsePairs(s: Bytes): (r: Option<(seq<(Bytes, Bytes)>, Bytes)>)
    ensures r.Some? ==> |r.value.1| < |s|
    decreases |s|
  {
    var d := NameRun(s);
    if d == 0 || |s| < d + 2 || s[d] != '=' || s[d + 1] != '\"' then None
    else
      match Unescape(s[d + 2..])
      case None => None
      case Some((v, rest)) =>
        if rest == [] then None
        else if rest[0] == '}' then Some(([(s[..d], v)], rest[1..]))
        else if rest[0] == ',' then
          match ParsePairs(rest[1..])
          case None => None
          case Some((more, tail)) => Some(([(s[..d], v)] + more, tail))
        else None
  }

  /** Reads an integer. */
  function ParseInt(s: Bytes): (r: Option<(int, Bytes)>)
    ensures r.Some? ==> |r.value.1| < |s|
  {
    var sign := s != [] && s[0] == '-';
    var t := if sign then s[1..] else s;
    var d := DigitRun(t);
    if d == 0 then None
    else
      var v: int := DigitsValue(t[..d]);
      Some((if sign then -v else v, t[d..]))
  }

  /** Reads the rest of a sample: a space, the value, the line end. */
  function ParseValue(name: Bytes, pairs: seq<(Bytes, Bytes)>, s: Bytes): (r: Option<(Sample, Bytes)>)
    ensures r.Some? ==> |r.value.1| < |s|
  {
    if s == [] || s[0] != ' ' then None
    else
      match ParseInt(s[1..])
      case None => None
      case Some((v, rest)) => if rest == [] || rest[0] != '\n' then None else Some((Sample(name, pairs, v), rest[1..]))
  }

  function ParseSample(s: Bytes): (r: Option<(Sample, Bytes)>)
    ensures r.Some? ==> |r.value.1| < |s|
  {
    var d := NameRun(s);
    if d == 0 || d == |s| then None
    else if s[d] == '{' then
      match ParsePairs(s[d + 1..])
      case None => None
      case Some((pairs, rest)) => ParseValue(s[..d], pairs, rest)
    else ParseValue(s[..d], [], s[d..])
  }

  /** Reads a whole text: comment lines are skipped, every other line is a sample. */
  function ParseText(s: Bytes): Option<seq<Sample>>
    decreases |s|
  {
    if s == [] then Some([])
    else if s[0] == '#' then
      var i := Find(s, '\n');
      if i == |s| then None else ParseText(s[i + 1..])
    else
      match ParseSample(s)
      case None => None
      case Some((sample, rest)) =>
        match ParseText(rest)
        case None => None
        case Some(more) => Some([sample] + more)
  }

  // ----- each piece of text is read back, whatever follows -----

  lemma {:induction false} NameDelimited(name: Bytes, rest: Bytes)
    requires IsName(name) && rest != [] && !IsNameChar(rest[0])
    ensures NameRun(name + rest) == |name|
  {
    var s := name + rest;
    assert forall i | 0 <= i < |name| :: s[i] == name[i];
    assert s[|name|] == rest[0];
  }

  /** Unescaping undoes escaping. */
  lemma {:induction false} UnescapeUndoesEscape(v: Bytes, rest: Bytes)
    ensures Unescape(EscapeLabel(v) + "\"" + rest) == Some((v, rest))
  {
    var s := EscapeLabel(v) + "\"" + rest;
    if v == [] {
      assert s == "\"" + rest && s[1..] == rest;
    } else {
      hide EscapeLabel;
      var c, tail := v[0], EscapeLabel(v[1..]) + "\"" + rest;
      UnescapeUndoesEscape(v[1..], rest);
      EscapeHead(v);
      assert s == EscapedChar(c) + tail;
      UnescapeHead(c, tail);
      assert [c] + v[1..] == v;
    }
  }

  lemma {:induction false} EscapeHead(v: Bytes)
    requires v != []
    ensures EscapeLabel(v) == EscapedChar(v[0]) + EscapeLabel(v[1..])
  {
  }

  lemma {:induction false} UnescapeHead(c: char, tail: Bytes)
    requires Unescape(tail).Some?
    ensures Unescape(EscapedChar(c) + tail) == Some(([c] + Unescape(tail).value.0, Unescape(tail).value.1))
  {
    var s := EscapedChar(c) + tail;
    assert s[|EscapedChar(c)|..] == tail;
  }

  function Zip(a: seq<Bytes>, b: seq<Bytes>): seq<(Bytes, Bytes)>
    requires |a| == |b|
  {
    if a == [] then [] else [(a[0], b[0])] + Zip(a[1..], b[1..])
  }

  lemma {:induction false} PairReadBack(l: Bytes, v: Bytes, tail: Bytes)
    requires IsName(l)
    ensures var s := Pair(l, v) + tail;
            && NameRun(s) == |l| && |l| + 2 <= |s| && s[..|l|] == l && s[|l|] == '=' && s[|l| + 1] == '\"'
            && Unescape(s[|l| + 2..]) == Some((v, tail))
  {
    hide Unescape, NameRun, EscapeLabel;
    var s := Pair(l, v) + tail;
    var quoted := EscapeLabel(v) + "\"" + tail;
    assert s == l + ("=\"" + quoted);
    NameDelimited(l, "=\"" + quoted);
    assert s[..|l|] == l && s[|l| + 2..] == quoted;
    UnescapeUndoesEscape(v, tail);
  }

  lemma {:induction false} LastPair(l: Bytes, v: Bytes, rest: Bytes)
    requires IsName(l)
    ensures ParsePairs(Pair(l, v) + ("}" + rest)) == Some(([(l, v)], rest))
  {
    hide Pair, Unescape, NameRun;
    PairReadBack(l, v, "}" + rest);
    assert ("}" + rest)[1..] == rest;
  }

  lemma {:induction false} MorePairs(l: Bytes, v: Bytes, more: Bytes)
    requires IsName(l) && ParsePairs(more).Some?
    ensures ParsePairs(Pair(l, v) + ("," + more)) ==
            Some(([(l, v)] + ParsePairs(more).value.0, ParsePairs(more).value.1))
  {
    hide Pair, Unescape, NameRun;
    PairReadBack(l, v, "," + more);
    assert ("," + more)[1..] == more;
  }

  lemma {:induction false} PairsReadBack(labels: seq<Bytes>, values: seq<Bytes>, rest: Bytes)
    requires |labels| == |values| && labels != [] && forall i | 0 <= i < |labels| :: IsName(labels[i])
    ensures ParsePairs(Pairs(labels, values) + "}" + rest) == Some((Zip(labels, values), rest))
  {
    hide Pair, ParsePairs, IsName;
    var l, v := labels[0], values[0];
    if |labels| == 1 {
      LastPair(l, v, rest);
      Glue(Pair(l, v), "", "", rest);
      assert Zip(labels, values) == [(l, v)];
    } else {
      var others := Pairs(labels[1..], values[1..]);
      PairsReadBack(labels[1..], values[1..], rest);
      MorePairs(l, v, others + "}" + rest);
      Glue(Pair(l, v), ",", others, rest);
    }
  }

  lemma {:induction false} Glue(a: Bytes, comma: Bytes, b: Bytes, rest: Bytes)
    ensures a + comma + b + "}" + rest == a + (comma + (b + "}" + rest))
    ensures a + "}" + rest == a + ("}" + rest)
  {
  }

  lemma {:induction false} IntReadBack(n: int, rest: Bytes)
    requires rest != [] && !IsDigit(rest[0])
    ensures ParseInt(Digits(n) + rest) == Some((n, rest))
  {
    hide Decimal, ParseInt;
    if n < 0 {
      NegativeReadBack(-n, rest);
    } else {
      NaturalReadBack(n, rest);
    }
  }

  lemma {:induction false} NaturalReadBack(m: nat, rest: Bytes)
    requires rest == [] || !IsDigit(rest[0])
    ensures ParseInt(Decimal(m) + rest) == Some((m, rest))
  {
    hide Decimal, DigitRun, DigitsValue;
    NumberReadBack(m, rest);
  }

  lemma {:induction false} NegativeReadBack(m: int, rest: Bytes)
    requires m >= 0
    requires rest == [] || !IsDigit(rest[0])
    ensures ParseInt("-" + Decimal(m) + rest) == Some((-m, rest))
  {
    hide Decimal, DigitRun, DigitsValue;
    NumberReadBack(m, rest);
    assert ("-" + Decimal(m) + rest)[1..] == Decimal(m) + rest;
  }

  lemma {:induction false} NumberReadBack(m: nat, rest: Bytes)
    requires rest == [] || !IsDigit(rest[0])
    ensures var t := Decimal(m) + rest;
            var d := DigitRun(t);
            0 < d <= |t| && DigitsValue(t[..d]) == m && t[d..] == rest && t[0] != '-'
  {
    hide DigitRun, DigitsValue;
    var t := Decimal(m) + rest;
    DecimalDelimited(m, rest);
    DecimalRoundTrip(m);
    assert t[..|Decimal(m)|] == Decimal(m) && t[|Decimal(m)|..] == rest;
    assert t[0] == Decimal(m)[0];
    assert IsDigit(t[0]);
  }

  lemma {:induction false} ValueReadBack(name: Bytes, pairs: seq<(Bytes, Bytes)>, n: int, rest: Bytes)
    ensures ParseValue(name, pairs, " " + Digits(n) + "\n" + rest) == Some((Sample(name, pairs, n), rest))
  {
    hide Digits, ParseInt;
    var s := " " + Digits(n) + "\n" + rest;
    assert s[1..] == Digits(n) + ("\n" + rest);
    IntReadBack(n, "\n" + rest);
    assert ("\n" + rest)[1..] == rest;
  }

  /** The sample a series line stands for. */
  ghost function SampleOf(name: Bytes, labels: seq<Bytes>, key: Bytes, n: int): Sample
    requires labels != [] ==> |Split(key, NUL)| >= |labels|
  {
    Sample(name, if labels == [] then [] else Zip(labels, Split(key, NUL)[..|labels|]), n)
  }

  lemma {:induction false} BareReadBack(name: Bytes, n: int, rest: Bytes)
    requires IsName(name)
    ensures ParseSample(name + (" " + Digits(n) + "\n" + rest)) == Some((Sample(name, [], n), rest))
  {
    hide ParseValue;
    var value := " " + Digits(n) + "\n" + rest;
    var s := name + value;
    NameDelimited(name, value);
    assert s[..|name|] == name && s[|name|..] == value && s[|name|] == ' ';
    ValueReadBack(name, [], n, rest);
  }

  lemma {:induction false} LabelledReadBack(name: Bytes, labels: seq<Bytes>, values: seq<Bytes>, n: int, rest: Bytes)
    requires IsName(name) && forall i | 0 <= i < |labels| :: IsName(labels[i])
    requires |labels| == |values| && labels != []
    ensures ParseSample(name + ("{" + (Pairs(labels, values) + "}" + (" " + Digits(n) + "\n" + rest)))) ==
            Some((Sample(name, Zip(labels, values), n), rest))
  {
    hide ParseValue, ParsePairs, Pairs, Zip, Digits;
    var value := " " + Digits(n) + "\n" + rest;
    var inner := Pairs(labels, values) + "}" + value;
    var s := name + ("{" + inner);
    NameDelimited(name, "{" + inner);
    assert s[..|name|] == name && s[|name| + 1..] == inner && s[|name|] == '{';
    PairsReadBack(labels, values, value);
    ValueReadBack(name, Zip(labels, values), n, rest);
  }

  lemma {:induction false} LineReadBack(name: Bytes, labels: seq<Bytes>, key: Bytes, n: int, rest: Bytes)
    requires IsName(name) && forall i | 0 <= i < |labels| :: IsName(labels[i])
    requires labels != [] ==> |Split(key, NUL)| >= |labels|
    ensures ParseSample(Line(name, labels, key, n) + rest) == Some((SampleOf(name, labels, key, n), rest))
  {
    hide Split, Digits, ParseSample, Pairs, Zip;
    var value := " " + Digits(n) + "\n" + rest;
    if labels == [] {
      BareReadBack(name, n, rest);
      assert Line(name, labels, key, n) + rest == name + value;
    } else {
      var values := Split(key, NUL)[..|labels|];
      LabelledReadBack(name, labels, values, n, rest);
      assert Line(name, labels, key, n) + rest == name + ("{" + (Pairs(labels, values) + "}" + value));
    }
  }

  lemma {:induction false} SampleThenText(s: Bytes, sample: Sample, rest: Bytes)
    requires s != [] && s[0] != '#' && ParseSample(s) == Some((sample, rest)) && ParseText(rest).Some?
    ensures ParseText(s) == Some([sample] + ParseText(rest).value)
  {
    hide ParseSample;
  }

  // ----- the block of a counter is read back -----

  ghost function Samples(name: Bytes, labels: seq<Bytes>, series: map<Bytes, int>, keys: seq<Bytes>): seq<Sample>
    requires Printable(labels, series, keys)
  {
    if keys == [] then []
    else
      var n := |keys| - 1;
      Samples(name, labels, series, keys[..n]) + [SampleOf(name, labels, keys[n], series[keys[n]])]
  }

  lemma {:induction false} LinesReadBack(
      name: Bytes, labels: seq<Bytes>, series: map<Bytes, int>, keys: seq<Bytes>, rest: Bytes)
    requires IsName(name) && (forall i | 0 <= i < |labels| :: IsName(labels[i])) && Printable(labels, series, keys)
    requires ParseText(rest).Some?
    ensures ParseText(Lines(name, labels, series, keys) + rest) ==
            Some(Samples(name, labels, series, keys) + ParseText(rest).value)
  {
    hide Line, SampleOf, Split, ParseSample, ParseText;
    if keys == [] {
      assert Lines(name, labels, series, keys) + rest == rest;
      assert [] + ParseText(rest).value == ParseText(rest).value;
    } else {
      var n := |keys| - 1;
      var k := keys[n];
      var line := Line(name, labels, k, series[k]);
      var sample := SampleOf(name, labels, k, series[k]);
      LineReadBack(name, labels, k, series[k], rest);
      LineStartsWithName(name, labels, k, series[k], rest);
      SampleThenText(line + rest, sample, rest);
      LinesReadBack(name, labels, series, keys[..n], line + rest);
      assert Lines(name, labels, series, keys) + rest == Lines(name, labels, series, keys[..n]) + (line + rest);
      assert Samples(name, labels, series, keys[..n]) + ([sample] + ParseText(rest).value) ==
             Samples(name, labels, series, keys) + ParseText(rest).value;
    }
  }

  lemma {:induction false} LineStartsWithName(name: Bytes, labels: seq<Bytes>, key: Bytes, n: int, rest: Bytes)
    requires IsName(name) && (labels != [] ==> |Split(key, NUL)| >= |labels|)
    ensures Line(name, labels, key, n) + rest != [] && (Line(name, labels, key, n) + rest)[0] != '#'
  {
    assert (Line(name, labels, key, n) + rest)[0] == name[0];
    assert IsNameChar(name[0]);
  }

  lemma {:induction false} CommentSkipped(text: Bytes, rest: Bytes)
    requires '\n' !in text && text != [] && text[0] == '#'
    ensures ParseText(text + "\n" + rest) == ParseText(rest)
  {
    var s := text + "\n" + rest;
    assert s == text + ("\n" + rest);
    FindAt(text, '\n', "\n" + rest);
    assert s[0] == '#' && s[|text| + 1..] == rest;
  }

  lemma {:induction false} HeaderSkipped(name: Bytes, help: Bytes, rest: Bytes)
    requires IsName(name)
    ensures ParseText(Header(name, help) + rest) == ParseText(rest)
  {
    hide ParseText, EscapeHelp;
    var first, second := "# HELP " + name + " " + EscapeHelp(help), "# TYPE " + name + " counter";
    assert Header(name, help) + rest == first + "\n" + (second + "\n" + rest);
    HeaderLines(name, help);
    CommentSkipped(first, second + "\n" + rest);
    CommentSkipped(second, rest);
  }

  lemma {:induction false} HeaderLines(name: Bytes, help: Bytes)
    requires IsName(name)
    ensures '\n' !in "# HELP " + name + " " + EscapeHelp(help)
    ensures '\n' !in "# TYPE " + name + " counter"
  {
    hide EscapeHelp;
    assert forall i | 0 <= i < |name| :: IsNameChar(name[i]);
  }

  // ----- the header is read back -----

  const HELP: Bytes := "# HELP "
  const TYPE: Bytes := "# TYPE "

  /** Reads an escaped help text up to the end of its line. */
  function UnescapeHelp(s: Bytes): (r: Option<(Bytes, Bytes)>)
    ensures r.Some? ==> |r.value.1| < |s|
  {
    if s == [] then None
    else if s[0] == '\n' then Some(([], s[1..]))
    else if s[0] == '\\' then
      if |s| < 2 || s[1] !in "\\n" then None
      else
        match UnescapeHelp(s[2..])
        case None => None
        case Some((v, rest)) => Some(([if s[1] == 'n' then '\n' else s[1]] + v, rest))
    else
      match UnescapeHelp(s[1..])
      case None => None
      case Some((v, rest)) => Some(([s[0]] + v, rest))
  }

  /** What the two comment lines of a metric say: its name, its help text and its type. */
  datatype Described = Described(name: Bytes, help: Bytes, kind: Bytes)

  function ParseType(name: Bytes, help: Bytes, s: Bytes): Option<(Described, Bytes)> {
    var start := TYPE + name + " ";
    if !(start <= s) then None
    else
      var kind := s[|start|..];
      var e := Find(kind, '\n');
      if e == |kind| then None else Some((Described(name, help, kind[..e]), kind[e + 1..]))
  }

  function ParseHeader(s: Bytes): Option<(Described, Bytes)> {
    if !(HELP <= s) then None
    else
      var t := s[|HELP|..];
      var d := NameRun(t);
      if d == 0 || d == |t| || t[d] != ' ' then None
      else
        match UnescapeHelp(t[d + 1..])
        case None => None
        case Some((help, rest)) => ParseType(t[..d], help, rest)
  }

  lemma {:induction false} HelpReadBack(v: Bytes, rest: Bytes)
    ensures UnescapeHelp(EscapeHelp(v) + "\n" + rest) == Some((v, rest))
  {
    hide EscapeHelp, EscapedHelpChar, UnescapeHelp;
    var s := EscapeHelp(v) + "\n" + rest;
    EscapeHelpHead(v);
    if v == [] {
      assert s == "\n" + rest;
      UnescapeHelpEnd(rest);
    } else {
      var c, tail := v[0], EscapeHelp(v[1..]) + "\n" + rest;
      HelpReadBack(v[1..], rest);
      assert s == EscapedHelpChar(c) + tail;
      UnescapeHelpHead(c, tail);
      assert [c] + v[1..] == v;
    }
  }

  lemma {:induction false} EscapeHelpHead(v: Bytes)
    ensures EscapeHelp(v) == if v == [] then [] else EscapedHelpChar(v[0]) + EscapeHelp(v[1..])
  {
  }

  lemma {:induction false} UnescapeHelpEnd(rest: Bytes)
    ensures UnescapeHelp("\n" + rest) == Some(([], rest))
  {
    assert ("\n" + rest)[1..] == rest;
  }

  lemma {:induction false} UnescapeHelpHead(c: char, tail: Bytes)
    requires UnescapeHelp(tail).Some?
    ensures UnescapeHelp(EscapedHelpChar(c) + tail) ==
            Some(([c] + UnescapeHelp(tail).value.0, UnescapeHelp(tail).value.1))
  {
    var s := EscapedHelpChar(c) + tail;
    assert s[|EscapedHelpChar(c)|..] == tail;
  }

  lemma {:induction false} TypeReadBack(name: Bytes, help: Bytes, rest: Bytes)
    ensures ParseType(name, help, TYPE + name + " " + ("counter\n" + rest)) ==
            Some((Described(name, help, "counter"), rest))
  {
    hide Find;
    var start := TYPE + name + " ";
    var s := start + ("counter\n" + rest);
    assert s[|start|..] == "counter" + ("\n" + rest);
    FindAt("counter", '\n', "\n" + rest);
    assert ("counter" + ("\n" + rest))[..7] == "counter" && ("counter" + ("\n" + rest))[8..] == rest;
  }

  /** The header of a counter says its name, its help text, whatever bytes that holds, and that it is a counter. */
  lemma {:induction false} HeaderReadsBack(name: Bytes, help: Bytes, rest: Bytes)
    requires IsName(name)
    ensures ParseHeader(Header(name, help) + rest) == Some((Described(name, help, "counter"), rest))
  {
    hide EscapeHelp, UnescapeHelp, ParseType, ParseHeader, IsName, Header;
    var second := TYPE + name + " " + ("counter\n" + rest);
    HeaderShape(name, help, rest);
    HelpReadBack(help, second);
    ParseHeaderOf(name, EscapeHelp(help) + "\n" + second);
    TypeReadBack(name, help, rest);
  }

  lemma {:induction false} HeaderShape(name: Bytes, help: Bytes, rest: Bytes)
    ensures Header(name, help) + rest ==
            HELP + (name + (" " + (EscapeHelp(help) + "\n" + (TYPE + name + " " + ("counter\n" + rest)))))
  {
    hide EscapeHelp;
  }

  lemma {:induction false} ParseHeaderOf(name: Bytes, line: Bytes)
    requires IsName(name) && UnescapeHelp(line).Some?
    ensures ParseHeader(HELP + (name + (" " + line))) ==
            ParseType(name, UnescapeHelp(line).value.0, UnescapeHelp(line).value.1)
  {
    hide UnescapeHelp, ParseType, NameRun, IsName;
    var t := name + (" " + line);
    assert (HELP + t)[|HELP|..] == t;
    SpaceEndsName(name, line);
    assert t[..|name|] == name && t[|name|] == ' ' && t[|name| + 1..] == line;
  }

  lemma {:induction false} SpaceEndsName(name: Bytes, line: Bytes)
    requires IsName(name)
    ensures |name| > 0 && NameRun(name + (" " + line)) == |name|
  {
    NameDelimited(name, " " + line);
  }

  /** The text of one counter, followed by any text that parses, parses into the counter's samples and the rest. */
  lemma {:induction false} BlockReadsBack(
      name: Bytes, help: Bytes, labels: seq<Bytes>, series: map<Bytes, int>, keys: seq<Bytes>, rest: Bytes)
    requires IsName(name) && (forall i | 0 <= i < |labels| :: IsName(labels[i])) && Printable(labels, series, keys)
    requires ParseText(rest).Some?
    ensures ParseText(Block(name, help, labels, series, keys) + rest) ==
            Some(Samples(name, labels, series, keys) + ParseText(rest).value)
  {
    hide Header, Lines, ParseText, Samples;
    var lines := Lines(name, labels, series, keys);
    assert Block(name, help, labels, series, keys) + rest == Header(name, help) + (lines + rest);
    HeaderSkipped(name, help, lines + rest);
    LinesReadBack(name, labels, series, keys, rest);
  }

  // ----- so the map is recovered -----

  /** The values of a sample's pairs, in order. */
  function ValuesOf(pairs: seq<(Bytes, Bytes)>): seq<Bytes> {
    if pairs == [] then [] else [pairs[0].1] + ValuesOf(pairs[1..])
  }

  lemma {:induction false} ValuesOfZip(labels: seq<Bytes>, values: seq<Bytes>)
    requires |labels| == |values|
    ensures ValuesOf(Zip(labels, values)) == values
  {
    if labels != [] {
      ValuesOfZip(labels[1..], values[1..]);
    }
  }

  lemma {:induction false} SampleAt(name: Bytes, labels: seq<Bytes>, series: map<Bytes, int>, keys: seq<Bytes>, i: nat)
    requires Printable(labels, series, keys) && i < |keys|
    ensures |Samples(name, labels, series, keys)| == |keys|
    ensures Samples(name, labels, series, keys)[i] == SampleOf(name, labels, keys[i], series[keys[i]])
  {
    hide SampleOf;
    var n := |keys| - 1;
    if n > 0 {
      SampleAt(name, labels, series, keys[..n], if i < n then i else 0);
    }
  }

  /** The tuple -> count pairs a parsed text holds for one counter. */
  ghost function Recovered(samples: seq<Sample>): set<(seq<Bytes>, int)> {
    set s | s in samples :: (ValuesOf(s.pairs), s.value)
  }

  lemma {:induction false} SampleValues(name: Bytes, labels: seq<Bytes>, v: seq<Bytes>, n: int)
    requires |v| == |labels| && NulFree(v)
    ensures labels != [] ==> |Split(KeyFor(v), NUL)| >= |labels|
    ensures var s := SampleOf(name, labels, KeyFor(v), n); (ValuesOf(s.pairs), s.value) == (v, n)
  {
    if labels != [] {
      KeySplitsIff(v);
      assert v[..|labels|] == v;
      ValuesOfZip(labels, v);
    }
  }

  /**
  A parser of the text a counter renders recovers exactly its map from label tuples to counts: each tuple something was
  added to comes back with its total, and nothing else does. Distinct series therefore never render alike.
  */
  lemma {:induction false} RenderReadsBack(c: Counter, keys: seq<Bytes>, v: seq<Bytes>, n: int)
    requires c.Valid() && Clean(c.adds, |c.labels|) && SortedList(keys, c.series.Keys)
    requires IsName(c.name) && forall i | 0 <= i < |c.labels| :: IsName(c.labels[i])
    requires |v| == |c.labels| && NulFree(v)
    ensures ParseText(Block(c.name, c.help, c.labels, c.series, keys)).Some?
    ensures (v, n) in Recovered(ParseText(Block(c.name, c.help, c.labels, c.series, keys)).value) <==>
            KeyFor(v) in c.series && n == Total(c.adds, v)
  {
    hide Split, Block, Lines, SampleOf, KeyFor;
    var block := Block(c.name, c.help, c.labels, c.series, keys);
    forall i | 0 <= i < |keys| ensures c.labels != [] ==> |Split(keys[i], NUL)| >= |c.labels| {
      assert keys[i] in keys;
      c.SplitLength(keys[i]);
    }
    assert block + [] == block;
    BlockReadsBack(c.name, c.help, c.labels, c.series, keys, []);
    var samples := Samples(c.name, c.labels, c.series, keys);
    assert ParseText(block).value == samples;
    RecoveredIff(c, keys, v, n);
  }

  lemma {:induction false} RecoveredIff(c: Counter, keys: seq<Bytes>, v: seq<Bytes>, n: int)
    requires c.Valid() && Clean(c.adds, |c.labels|) && SortedList(keys, c.series.Keys)
    requires Printable(c.labels, c.series, keys) && |v| == |c.labels| && NulFree(v)
    ensures (v, n) in Recovered(Samples(c.name, c.labels, c.series, keys)) <==>
            KeyFor(v) in c.series && n == Total(c.adds, v)
  {
    hide Split, SampleOf, KeyFor;
    var samples := Samples(c.name, c.labels, c.series, keys);
    TotalsAgree(c.adds, v);
    if (v, n) in Recovered(samples) {
      var s :| s in samples && (ValuesOf(s.pairs), s.value) == (v, n);
      var i := SampleIndex(c.name, c.labels, c.series, keys, s);
      var u := TupleOf(c, keys[i]);
      SampleValues(c.name, c.labels, u, c.series[keys[i]]);
    }
    if KeyFor(v) in c.series && n == Total(c.adds, v) {
      var i :| 0 <= i < |keys| && keys[i] == KeyFor(v);
      SampleAt(c.name, c.labels, c.series, keys, i);
      SampleValues(c.name, c.labels, v, n);
      assert samples[i] in samples;
    }
  }

  lemma {:induction false} SampleIndex(
      name: Bytes, labels: seq<Bytes>, series: map<Bytes, int>, keys: seq<Bytes>, s: Sample)
    returns (i: nat)
    requires Printable(labels, series, keys) && s in Samples(name, labels, series, keys)
    ensures i < |keys| && s == SampleOf(name, labels, keys[i], series[keys[i]])
  {
    var samples := Samples(name, labels, series, keys);
    if keys != [] {
      SampleAt(name, labels, series, keys, 0);
    }
    i :| 0 <= i < |samples| && samples[i] == s;
    SampleAt(name, labels, series, keys, i);
  }

  lemma {:induction false} TupleOf(c: Counter, key: Bytes) returns (v: seq<Bytes>)
    requires c.Valid() && Clean(c.adds, |c.labels|) && key in c.series
    ensures |v| == |c.labels| && NulFree(v) && KeyFor(v) == key
  {
    assert HasSeries(c.labels, c.adds, key);
    if c.labels == [] && key == [] {
      v := [];
    } else {
      var i :| 0 <= i < |c.adds| && KeyFor(c.adds[i].values) == key;
      v := c.adds[i].values;
    }
  }
}
