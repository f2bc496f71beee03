/**
Byte strings and the string functions the collector uses.

A Go string is a sequence of bytes. Here a byte is written as the `char` with that code, so that literals
stay readable. Nothing depends on the codes above 255.
*/
module GoStrings {

  type Bytes = string

  datatype Option<+T> = None | Some(value: T)

  // ----- strings.TrimSpace -----

  /**
  The length of the white space character that `s` starts with, or 0. Beside the six ASCII spaces these are the
  UTF-8 encodings of U+0085, U+00A0, U+1680, U+2000 to U+200A, U+2028, U+2029, U+202F, U+205F and U+3000,
  which is the set unicode.IsSpace accepts.
  */
  function SpaceAt(s: Bytes): (n: nat)
    ensures n <= |s|
  {
    if |s| >= 1 && IsAsciiSpace(s[0]) then 1
    else if |s| >= 2 && IsSpace2(s[0], s[1]) then 2
    else if |s| >= 3 && IsSpace3(s[0], s[1], s[2]) then 3
    else 0
  }

  /** The length of the white space character that `s` ends with, or 0. */
  function SpaceBefore(s: Bytes): (n: nat)
    ensures n <= |s|
  {
    var k := |s|;
    if k >= 1 && IsAsciiSpace(s[k - 1]) then 1
    else if k >= 2 && IsSpace2(s[k - 2], s[k - 1]) then 2
    else if k >= 3 && IsSpace3(s[k - 3], s[k - 2], s[k - 1]) then 3
    else 0
  }

  predicate IsAsciiSpace(c: char) {
    c == ' ' || '\t' <= c <= '\r'
  }

  predicate IsSpace2(a: char, b: char) {
    a == '\U{C2}' && (b == '\U{85}' || b == '\U{A0}')
  }

  predicate IsSpace3(a: char, b: char, c: char) {
    || (a == '\U{E1}' && b == '\U{9A}' && c == '\U{80}')
    || (a == '\U{E2}' && b == '\U{80}' && ('\U{80}' <= c <= '\U{8A}' || c == '\U{A8}' || c == '\U{A9}' || c == '\U{AF}'))
    || (a == '\U{E2}' && b == '\U{81}' && c == '\U{9F}')
    || (a == '\U{E3}' && b == '\U{80}' && c == '\U{80}')
  }

  function TrimLeft(s: Bytes): Bytes {
    if SpaceAt(s) == 0 then s else TrimLeft(s[SpaceAt(s)..])
  }

  function TrimRight(s: Bytes): Bytes {
    if SpaceBefore(s) == 0 then s else TrimRight(s[..|s| - SpaceBefore(s)])
  }

  function TrimSpace(s: Bytes): Bytes {
    TrimRight(TrimLeft(s))
  }

  /** A string with no white space character at either end. */
  predicate Trimmed(s: Bytes) {
    SpaceAt(s) == 0 && SpaceBefore(s) == 0
  }

  /** Trimming the left end leaves a suffix that starts with no space. */
  lemma {:induction false} TrimLeftTrims(s: Bytes)
    ensures var t := TrimLeft(s); SpaceAt(t) == 0 && |t| <= |s| && t == s[|s| - |t|..]
  {
    if SpaceAt(s) != 0 {
      TrimLeftTrims(s[SpaceAt(s)..]);
    }
  }

  /** Trimming the right end leaves a prefix that ends with no space. */
  lemma {:induction false} TrimRightTrims(s: Bytes)
    ensures var t := TrimRight(s); SpaceBefore(t) == 0 && t <= s
  {
    if SpaceBefore(s) != 0 {
      TrimRightTrims(s[..|s| - SpaceBefore(s)]);
    }
  }

  lemma {:induction false} SpaceAtPrefix(s: Bytes, t: Bytes)
    requires s <= t && SpaceAt(t) == 0
    ensures SpaceAt(s) == 0
  {
    assert forall i | 0 <= i < |s| :: s[i] == t[i];
  }

  /** The result is trimmed: cutting the right end cannot uncover a space on the left. */
  lemma {:induction false} TrimSpaceTrims(s: Bytes)
    ensures Trimmed(TrimSpace(s)) && |TrimSpace(s)| <= |s|
  {
    hide SpaceAt, SpaceBefore;
    TrimLeftTrims(s);
    TrimRightTrims(TrimLeft(s));
    SpaceAtPrefix(TrimSpace(s), TrimLeft(s));
  }

  /** TrimSpace changes exactly the strings that are not trimmed. */
  lemma {:induction false} TrimSpaceFixes(s: Bytes)
    ensures TrimSpace(s) == s <==> Trimmed(s)
  {
    hide SpaceAt, SpaceBefore;
    TrimSpaceTrims(s);
  }

  lemma {:induction false} TrimSpaceIdempotent(s: Bytes)
    ensures TrimSpace(TrimSpace(s)) == TrimSpace(s)
  {
    hide SpaceAt, SpaceBefore;
    TrimSpaceTrims(s);
    TrimSpaceFixes(TrimSpace(s));
  }

  // ----- utf8.ValidString -----

  predicate Continues(c: char) {
    '\U{80}' <= c <= '\U{BF}'
  }

  /** The bytes that may follow a lead byte: fewer where the encoding would be overlong, a surrogate or too large. */
  predicate Follows(lead: char, c: char) {
    match lead
    case '\U{E0}' => '\U{A0}' <= c <= '\U{BF}'
    case '\U{ED}' => '\U{80}' <= c <= '\U{9F}'
    case '\U{F0}' => '\U{90}' <= c <= '\U{BF}'
    case '\U{F4}' => '\U{80}' <= c <= '\U{8F}'
    case _ => Continues(c)
  }

  /** The length of the encoded character that `s` starts with, or 0 when there is none. */
  function RuneAt(s: Bytes): (n: nat)
    ensures n <= |s|
  {
    if s == [] then 0
    else if s[0] < '\U{80}' then 1
    else if |s| >= 2 && '\U{C2}' <= s[0] <= '\U{DF}' && Continues(s[1]) then 2
    else if |s| >= 3 && '\U{E0}' <= s[0] <= '\U{EF}' && Follows(s[0], s[1]) && Continues(s[2]) then 3
    else if |s| >= 4 && '\U{F0}' <= s[0] <= '\U{F4}' && Follows(s[0], s[1]) && Continues(s[2]) && Continues(s[3]) then 4
    else 0
  }

  predicate ValidUtf8(s: Bytes) {
    s == [] || (RuneAt(s) > 0 && ValidUtf8(s[RuneAt(s)..]))
  }

  // ----- decimal numbers -----

  predicate IsDigit(c: char) { '0' <= c <= '9' }

  function DigitChar(d: nat): (c: char)
    requires d < 10
    ensures IsDigit(c) && c as int - '0' as int == d
  {
    '0' + d as char
  }

  /** strconv.Itoa and fmt's %d on a number that is not negative. */
  function Decimal(n: nat): (s: Bytes)
    ensures s != []
    ensures forall i | 0 <= i < |s| :: IsDigit(s[i])
  {
    if n < 10 then [DigitChar(n)] else Decimal(n / 10) + [DigitChar(n % 10)]
  }

  /** The value of a string of digits. */
  function DigitsValue(s: Bytes): (n: nat)
    requires forall i | 0 <= i < |s| :: IsDigit(s[i])
  {
    if s == [] then 0
    else
      assert IsDigit(s[|s| - 1]);
      DigitsValue(s[..|s| - 1]) * 10 + (s[|s| - 1] as int - '0' as int)
  }

  lemma {:induction false} DecimalRoundTrip(n: nat)
    ensures DigitsValue(Decimal(n)) == n
  {
    if n < 10 {
      assert DigitsValue([DigitChar(n)][..0]) == 0;
    } else {
      DecimalRoundTrip(n / 10);
      var s := Decimal(n);
      assert s[..|s| - 1] == Decimal(n / 10);
    }
  }

  /** It has no superfluous zero in front. */
  lemma {:induction false} DecimalCanonical(n: nat)
    ensures Decimal(n)[0] == '0' ==> n == 0 && |Decimal(n)| == 1
  {
    if n >= 10 {
      DecimalCanonical(n / 10);
      assert Decimal(n)[0] == Decimal(n / 10)[0];
    }
  }

  /** How many digits `s` starts with. */
  function DigitRun(s: Bytes): (n: nat)
    ensures n <= |s|
    ensures forall i | 0 <= i < n :: IsDigit(s[i])
    ensures n < |s| ==> !IsDigit(s[n])
  {
    if s == [] || !IsDigit(s[0]) then 0 else 1 + DigitRun(s[1..])
  }

  /** A decimal followed by anything that is not a digit is delimited by its digit run. */
  lemma {:induction false} DecimalDelimited(n: nat, rest: Bytes)
    requires rest == [] || !IsDigit(rest[0])
    ensures DigitRun(Decimal(n) + rest) == |Decimal(n)|
  {
    var d := Decimal(n);
    var s := d + rest;
    assert forall i | 0 <= i < |d| :: s[i] == d[i];
    assert rest != [] ==> s[|d|] == rest[0];
  }

  // ----- strings.Split and strings.Join with a one-byte separator -----

  /** The position of the first `c` in `s`, or its length. */
  function Find(s: Bytes, c: char): (i: nat)
    ensures i <= |s|
    ensures i < |s| ==> s[i] == c
    ensures c !in s[..i]
  {
    if s == [] || s[0] == c then 0
    else
      var i := 1 + Find(s[1..], c);
      assert s[..i] == [s[0]] + s[1..][..i - 1];
      i
  }

  function Split(s: Bytes, sep: char): (parts: seq<Bytes>)
    ensures parts != []
    ensures forall i | 0 <= i < |parts| :: sep !in parts[i]
    decreases |s|
  {
    var i := Find(s, sep);
    if i == |s| then
      assert s[..i] == s;
      [s]
    else [s[..i]] + Split(s[i + 1..], sep)
  }

  function Join(parts: seq<Bytes>, sep: char): Bytes {
    if parts == [] then []
    else if |parts| == 1 then parts[0]
    else parts[0] + [sep] + Join(parts[1..], sep)
  }

  lemma {:induction false} FindAt(a: Bytes, c: char, rest: Bytes)
    requires c !in a && (rest == [] || rest[0] == c)
    ensures Find(a + rest, c) == |a|
  {
    var s := a + rest;
    var i := Find(s, c);
    assert forall n | 0 <= n < |a| :: s[n] == a[n];
    assert rest != [] ==> s[|a|] == c;
    assert forall n | 0 <= n < i :: s[..i][n] == s[n];
  }

  /** Splitting gives back what was joined, when no part holds the separator. */
  lemma {:induction false} SplitUndoesJoin(parts: seq<Bytes>, sep: char)
    requires parts != [] && forall i | 0 <= i < |parts| :: sep !in parts[i]
    ensures Split(Join(parts, sep), sep) == parts
  {
    if |parts| == 1 {
      assert parts[0] + [] == parts[0];
      FindAt(parts[0], sep, []);
    } else {
      var tail := Join(parts[1..], sep);
      SplitUndoesJoin(parts[1..], sep);
      var s := Join(parts, sep);
      assert s == parts[0] + ([sep] + tail);
      FindAt(parts[0], sep, [sep] + tail);
      assert s[..|parts[0]|] == parts[0] && s[|parts[0]| + 1..] == tail;
    }
  }

  lemma {:induction false} JoinUndoesSplit(s: Bytes, sep: char)
    ensures Join(Split(s, sep), sep) == s
    decreases |s|
  {
    hide Find, Join;
    var i := Find(s, sep);
    if i == |s| {
      JoinOne(s, sep);
    } else {
      var rest := Split(s[i + 1..], sep);
      JoinUndoesSplit(s[i + 1..], sep);
      assert Split(s, sep) == [s[..i]] + rest;
      JoinCons(s[..i], rest, sep);
      assert s == s[..i] + [sep] + s[i + 1..];
    }
  }

  lemma {:induction false} JoinOne(part: Bytes, sep: char)
    ensures Join([part], sep) == part
  {
  }

  lemma {:induction false} JoinCons(part: Bytes, rest: seq<Bytes>, sep: char)
    requires rest != []
    ensures Join([part] + rest, sep) == part + [sep] + Join(rest, sep)
  {
    assert ([part] + rest)[1..] == rest;
  }

  /** Splitting at the first separator. */
  lemma {:induction false} SplitFirst(a: Bytes, sep: char, b: Bytes)
    requires sep !in a
    ensures Split(a + [sep] + b, sep) == [a] + Split(b, sep)
  {
    hide Find;
    var s := a + [sep] + b;
    assert s == a + ([sep] + b);
    FindAt(a, sep, [sep] + b);
    assert s[..|a|] == a && s[|a| + 1..] == b;
  }

  lemma {:induction false} SplitNone(s: Bytes, sep: char)
    requires sep !in s
    ensures Split(s, sep) == [s]
  {
    hide Find;
    assert s + [] == s;
    FindAt(s, sep, []);
  }

  /** Splitting at a separator in the middle. */
  lemma {:induction false} SplitConcat(a: Bytes, sep: char, b: Bytes)
    ensures Split(a + [sep] + b, sep) == Split(a, sep) + Split(b, sep)
    decreases |a|
  {
    hide Find, Split;
    var i := Find(a, sep);
    if i == |a| {
      assert a[..i] == a;
      SplitNone(a, sep);
      SplitFirst(a, sep, b);
    } else {
      var rest := a[i + 1..];
      assert a == a[..i] + [sep] + rest;
      assert a + [sep] + b == a[..i] + [sep] + (rest + [sep] + b);
      SplitConcat(rest, sep, b);
      SplitFirst(a[..i], sep, rest);
      SplitFirst(a[..i], sep, rest + [sep] + b);
    }
  }

  /** A joined sequence splits into at least as many parts, and into as many only if no part holds the separator. */
  lemma {:induction false} SplitJoinLength(parts: seq<Bytes>, sep: char)
    requires parts != []
    ensures |Split(Join(parts, sep), sep)| >= |parts|
    ensures |Split(Join(parts, sep), sep)| == |parts| ==> forall i | 0 <= i < |parts| :: sep !in parts[i]
  {
    hide Split, Join;
    OnePartIff(parts[0], sep);
    if |parts| == 1 {
      assert parts == [parts[0]];
      JoinOne(parts[0], sep);
    } else {
      assert parts == [parts[0]] + parts[1..];
      JoinCons(parts[0], parts[1..], sep);
      SplitJoinLength(parts[1..], sep);
      SplitConcat(parts[0], sep, Join(parts[1..], sep));
    }
  }

  lemma {:induction false} OnePartIff(s: Bytes, sep: char)
    ensures |Split(s, sep)| == 1 <==> sep !in s
  {
    hide Find;
    assert s[..|s|] == s;
  }

  lemma {:induction false} JoinConcat(a: seq<Bytes>, b: seq<Bytes>, sep: char)
    requires a != [] && b != []
    ensures Join(a + b, sep) == Join(a, sep) + [sep] + Join(b, sep)
  {
    hide Join;
    if |a| == 1 {
      assert a == [a[0]];
      JoinOne(a[0], sep);
      JoinCons(a[0], b, sep);
    } else {
      assert a == [a[0]] + a[1..] && a + b == [a[0]] + (a[1..] + b);
      JoinConcat(a[1..], b, sep);
      JoinCons(a[0], a[1..], sep);
      JoinCons(a[0], a[1..] + b, sep);
    }
  }
}
