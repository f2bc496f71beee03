/**
Characters and white space, said by code points: what utf8.ValidString accepts and what strings.TrimSpace takes off.
*/
module Utf8 {
  import opened GoStrings

  /** A Unicode scalar value: a code point that is no surrogate. */
  predicate Scalar(r: nat) {
    r < 0xD800 || 0xE000 <= r < 0x11_0000
  }

  function Byte(n: nat): char
    requires n < 0x100
  {
    n as char
  }

  /** The UTF-8 encoding of a code point. */
  function Encode(r: nat): Bytes
    requires r < 0x11_0000
  {
    if r < 0x80 then [Byte(r)]
    else if r < 0x800 then [Byte(0xC0 + r / 0x40), Byte(0x80 + r % 0x40)]
    else if r < 0x1_0000 then [Byte(0xE0 + r / 0x1000), Byte(0x80 + r / 0x40 % 0x40), Byte(0x80 + r % 0x40)]
    else [Byte(0xF0 + r / 0x4_0000), Byte(0x80 + r / 0x1000 % 0x40), Byte(0x80 + r / 0x40 % 0x40), Byte(0x80 + r % 0x40)]
  }

  // ----- utf8.ValidString -----

  ghost predicate IsChar(c: Bytes) {
    exists r: nat :: Scalar(r) && c == Encode(r)
  }

  /** An encoding is recognised, whatever follows it. */
  lemma {:induction false} EncodedAt(r: nat, rest: Bytes)
    requires Scalar(r)
    ensures RuneAt(Encode(r) + rest) == |Encode(r)|
  {
    if r < 0x80 {
    } else if r < 0x800 {
      assert 2 <= r / 0x40 < 0x20;
    } else if r < 0x1_0000 {
      ThreeBytes(r, rest);
    } else {
      FourBytes(r, rest);
    }
  }

  lemma {:induction false} ThreeBytes(r: nat, rest: Bytes)
    requires Scalar(r) && 0x800 <= r < 0x1_0000
    ensures RuneAt(Encode(r) + rest) == 3
  {
    var a, b := r / 0x1000, r / 0x40 % 0x40;
    assert r / 0x40 == a * 0x40 + b;
    assert a < 0x10 && (a == 0 ==> b >= 0x20) && (a == 0xD ==> b < 0x20);
  }

  lemma {:induction false} FourBytes(r: nat, rest: Bytes)
    requires Scalar(r) && 0x1_0000 <= r
    ensures RuneAt(Encode(r) + rest) == 4
  {
    var a, b := r / 0x4_0000, r / 0x1000 % 0x40;
    assert r / 0x1000 == a * 0x40 + b;
    assert a <= 4 && (a == 0 ==> b >= 0x10) && (a == 4 ==> b < 0x10);
  }

  /** What is recognised is an encoding. */
  lemma {:induction false} RecognisedIsChar(s: Bytes) returns (r: nat)
    requires RuneAt(s) > 0
    ensures Scalar(r) && s[..RuneAt(s)] == Encode(r)
  {
    var n := RuneAt(s);
    if n == 1 {
      r := s[0] as int;
    } else if n == 2 {
      r := (s[0] as int - 0xC0) * 0x40 + (s[1] as int - 0x80);
    } else if n == 3 {
      r := DecodeThree(s[0] as int - 0xE0, s[1] as int - 0x80, s[2] as int - 0x80);
    } else {
      r := DecodeFour(s[0] as int - 0xF0, s[1] as int - 0x80, s[2] as int - 0x80, s[3] as int - 0x80);
    }
  }

  lemma {:induction false} DecodeThree(a: nat, b: nat, c: nat) returns (r: nat)
    requires a < 0x10 && b < 0x40 && c < 0x40 && (a == 0 ==> b >= 0x20) && (a == 0xD ==> b < 0x20)
    ensures Scalar(r) && Encode(r) == [Byte(0xE0 + a), Byte(0x80 + b), Byte(0x80 + c)]
  {
    r := a * 0x1000 + b * 0x40 + c;
    assert r / 0x40 == a * 0x40 + b && r % 0x40 == c && r / 0x1000 == a;
  }

  lemma {:induction false} DecodeFour(a: nat, b: nat, c: nat, d: nat) returns (r: nat)
    requires a <= 4 && b < 0x40 && c < 0x40 && d < 0x40 && (a == 0 ==> b >= 0x10) && (a == 4 ==> b < 0x10)
    ensures Scalar(r) && Encode(r) == [Byte(0xF0 + a), Byte(0x80 + b), Byte(0x80 + c), Byte(0x80 + d)]
  {
    var x := a * 0x40 + b;
    var y := x * 0x40 + c;
    r := y * 0x40 + d;
    LastDigit(a, b);
    LastDigit(x, c);
    LastDigit(y, d);
    assert r / 0x1000 == r / 0x40 / 0x40 && r / 0x4_0000 == r / 0x40 / 0x40 / 0x40;
  }

  /** The last digit in base 64, and what comes before it. */
  lemma {:induction false} LastDigit(n: nat, d: nat)
    requires d < 0x40
    ensures (n * 0x40 + d) / 0x40 == n && (n * 0x40 + d) % 0x40 == d
  {
  }

  /** The encodings of a sequence of code points, one after another. */
  ghost function Text(runes: seq<nat>): Bytes
    requires forall i | 0 <= i < |runes| :: Scalar(runes[i])
  {
    if runes == [] then [] else assert Scalar(runes[0]); Encode(runes[0]) + Text(runes[1..])
  }

  ghost predicate IsText(s: Bytes) {
    exists runes: seq<nat> :: (forall i | 0 <= i < |runes| :: Scalar(runes[i])) && Text(runes) == s
  }

  /** utf8.ValidString accepts exactly the texts. */
  lemma {:induction false} ValidUtf8Iff(s: Bytes)
    ensures ValidUtf8(s) <==> IsText(s)
  {
    if ValidUtf8(s) {
      var runes := Runes(s);
    }
    if IsText(s) {
      var runes: seq<nat> :| (forall i | 0 <= i < |runes| :: Scalar(runes[i])) && Text(runes) == s;
      TextIsValid(runes);
    }
  }

  lemma {:induction false} Runes(s: Bytes) returns (runes: seq<nat>)
    requires ValidUtf8(s)
    ensures (forall i | 0 <= i < |runes| :: Scalar(runes[i])) && Text(runes) == s
    decreases |s|
  {
    hide Encode, RuneAt;
    runes := [];
    if s != [] {
      var n := RuneAt(s);
      var r := RecognisedIsChar(s);
      var rest := Runes(s[n..]);
      runes := [r] + rest;
      assert runes[1..] == rest && s == s[..n] + s[n..];
    }
  }

  lemma {:induction false} TextIsValid(runes: seq<nat>)
    requires forall i | 0 <= i < |runes| :: Scalar(runes[i])
    ensures ValidUtf8(Text(runes))
  {
    hide Encode, RuneAt;
    if runes != [] {
      var c, rest := Encode(runes[0]), Text(runes[1..]);
      TextIsValid(runes[1..]);
      EncodedAt(runes[0], rest);
      NotEmpty(runes[0]);
      assert (c + rest)[|c|..] == rest;
    }
  }

  lemma {:induction false} NotEmpty(r: nat)
    requires r < 0x11_0000
    ensures |Encode(r)| > 0
  {
  }

  // ----- white space -----

  /** unicode.IsSpace. */
  predicate IsSpaceRune(r: nat) {
    || 0x09 <= r <= 0x0D || r == 0x20 || r == 0x85 || r == 0xA0 || r == 0x1680 || 0x2000 <= r <= 0x200A
    || r == 0x2028 || r == 0x2029 || r == 0x202F || r == 0x205F || r == 0x3000
  }

  ghost predicate IsSpace(c: Bytes) {
    exists r: nat :: r < 0x11_0000 && IsSpaceRune(r) && c == Encode(r)
  }

  /** A sequence of white space characters. */
  ghost predicate White(s: Bytes)
    decreases |s|
  {
    s == [] || exists n :: 0 < n <= |s| && IsSpace(s[..n]) && White(s[n..])
  }

  lemma {:induction false} SpaceRecognised(r: nat, rest: Bytes)
    requires r < 0x11_0000 && IsSpaceRune(r)
    ensures SpaceAt(Encode(r) + rest) == |Encode(r)| == SpaceBefore(rest + Encode(r))
  {
    assert 0x2000 <= r < 0x2040 ==> r / 0x40 == 0x80;
  }

  lemma {:induction false} RecognisedIsSpace(s: Bytes)
    ensures SpaceAt(s) > 0 ==> IsSpace(s[..SpaceAt(s)])
    ensures SpaceBefore(s) > 0 ==> IsSpace(s[|s| - SpaceBefore(s)..])
  {
    if SpaceAt(s) > 0 {
      SpaceOf(s[..SpaceAt(s)]);
    }
    if SpaceBefore(s) > 0 {
      SpaceOf(s[|s| - SpaceBefore(s)..]);
    }
  }

  lemma {:induction false} SpaceOf(c: Bytes)
    requires || (|c| == 1 && IsAsciiSpace(c[0]))
             || (|c| == 2 && IsSpace2(c[0], c[1]))
             || (|c| == 3 && IsSpace3(c[0], c[1], c[2]))
    ensures IsSpace(c)
  {
    var r: nat := if |c| == 1 then c[0] as int
                  else if |c| == 2 then c[1] as int
                  else (c[0] as int - 0xE0) * 0x1000 + (c[1] as int - 0x80) * 0x40 + (c[2] as int - 0x80);
    assert c == Encode(r);
  }

  lemma {:induction false} SpaceThenWhite(c: Bytes, w: Bytes)
    requires IsSpace(c) && White(w)
    ensures White(c + w)
  {
    hide Encode;
    var r: nat :| r < 0x11_0000 && IsSpaceRune(r) && c == Encode(r);
    NotEmpty(r);
    assert (c + w)[..|c|] == c && (c + w)[|c|..] == w;
  }

  lemma {:induction false} WhiteThenSpace(w: Bytes, c: Bytes)
    requires White(w) && IsSpace(c)
    ensures White(w + c)
    decreases |w|
  {
    hide IsSpace;
    if w == [] {
      SpaceThenWhite(c, []);
      assert w + c == c + [];
    } else {
      var n :| 0 < n <= |w| && IsSpace(w[..n]) && White(w[n..]);
      WhiteThenSpace(w[n..], c);
      SpaceThenWhite(w[..n], w[n..] + c);
      assert w + c == w[..n] + (w[n..] + c);
    }
  }

  /** A white string that is not empty ends with a space too. */
  lemma {:induction false} WhiteEnds(w: Bytes) returns (v: Bytes, c: Bytes)
    requires White(w) && w != []
    ensures w == v + c && White(v) && IsSpace(c) && |v| < |w|
    decreases |w|
  {
    hide IsSpace;
    var n :| 0 < n <= |w| && IsSpace(w[..n]) && White(w[n..]);
    if n == |w| {
      assert w[..n] == w;
      v, c := [], w;
    } else {
      var u;
      u, c := WhiteEnds(w[n..]);
      v := w[..n] + u;
      SpaceThenWhite(w[..n], u);
    }
  }

  lemma {:induction false} TrimLeftStep(s: Bytes)
    ensures TrimLeft(s) == if SpaceAt(s) == 0 then s else TrimLeft(s[SpaceAt(s)..])
  {
  }

  lemma {:induction false} TrimRightStep(s: Bytes)
    ensures TrimRight(s) == if SpaceBefore(s) == 0 then s else TrimRight(s[..|s| - SpaceBefore(s)])
  {
  }

  /** TrimLeft takes off white space and nothing else. */
  lemma {:induction false} TrimLeftParts(s: Bytes) returns (a: Bytes)
    ensures s == a + TrimLeft(s) && White(a)
    decreases |s|
  {
    hide SpaceAt, IsSpace, White, TrimLeft;
    NoSpaceInNothing();
    TrimLeftStep(s);
    a := [];
    var n := SpaceAt(s);
    if n == 0 {
      assert [] + s == s;
    } else {
      RecognisedIsSpace(s);
      var rest := TrimLeftParts(s[n..]);
      a := s[..n] + rest;
      SpaceThenWhite(s[..n], rest);
      assert s == s[..n] + s[n..] == a + TrimLeft(s);
    }
  }

  lemma {:induction false} TrimRightParts(s: Bytes) returns (b: Bytes)
    ensures s == TrimRight(s) + b && White(b)
    decreases |s|
  {
    hide SpaceBefore, IsSpace, White, TrimRight;
    NoSpaceInNothing();
    TrimRightStep(s);
    b := [];
    var m := |s| - SpaceBefore(s);
    if m == |s| {
      assert s + [] == s;
    } else {
      RecognisedIsSpace(s);
      var rest := TrimRightParts(s[..m]);
      b := rest + s[m..];
      WhiteThenSpace(rest, s[m..]);
      assert s == s[..m] + s[m..] == TrimRight(s) + b;
    }
  }

  /** TrimSpace takes off white space at both ends and nothing else, and leaves none there. */
  lemma {:induction false} TrimSpaceParts(s: Bytes) returns (a: Bytes, b: Bytes)
    ensures s == a + TrimSpace(s) + b && White(a) && White(b) && Trimmed(TrimSpace(s))
  {
    hide SpaceAt, SpaceBefore, White, TrimLeft, TrimRight;
    a := TrimLeftParts(s);
    b := TrimRightParts(TrimLeft(s));
    TrimSpaceTrims(s);
  }

  lemma {:induction false} TrimLeftWhite(w: Bytes, t: Bytes)
    requires White(w) && SpaceAt(t) == 0
    ensures TrimLeft(w + t) == t
    decreases |w|
  {
    hide SpaceAt, SpaceBefore, Encode, TrimLeft;
    if w == [] {
      assert w + t == t;
      TrimLeftStep(t);
    } else {
      var n :| 0 < n <= |w| && IsSpace(w[..n]) && White(w[n..]);
      var r: nat :| r < 0x11_0000 && IsSpaceRune(r) && w[..n] == Encode(r);
      SpaceRecognised(r, w[n..] + t);
      TrimLeftStep(w + t);
      assert w + t == w[..n] + (w[n..] + t);
      assert (w + t)[n..] == w[n..] + t;
      TrimLeftWhite(w[n..], t);
    }
  }

  lemma {:induction false} TrimRightWhite(t: Bytes, w: Bytes)
    requires White(w) && SpaceBefore(t) == 0
    ensures TrimRight(t + w) == t
    decreases |w|
  {
    hide SpaceAt, SpaceBefore, Encode, TrimRight;
    if w == [] {
      assert t + w == t;
      TrimRightStep(t);
    } else {
      var v, c := WhiteEnds(w);
      var r: nat :| r < 0x11_0000 && IsSpaceRune(r) && c == Encode(r);
      SpaceRecognised(r, t + v);
      TrimRightStep(t + w);
      assert t + w == (t + v) + c;
      assert (t + w)[..|t + w| - |c|] == t + v;
      TrimRightWhite(t, v);
    }
  }

  /** White space after a string that starts with none does not make it start with some. */
  lemma {:induction false} NoSpaceAcross(t: Bytes, w: Bytes)
    requires t != [] && SpaceAt(t) == 0 && White(w)
    ensures SpaceAt(t + w) == 0
  {
    hide Encode;
    if w != [] {
      var n :| 0 < n <= |w| && IsSpace(w[..n]) && White(w[n..]);
      var r: nat :| r < 0x11_0000 && IsSpaceRune(r) && w[..n] == Encode(r);
      SpaceStarts(r);
      assert w[0] == w[..n][0];
    } else {
      assert t + w == t;
    }
  }

  lemma {:induction false} SpaceStarts(r: nat)
    requires r < 0x11_0000 && IsSpaceRune(r)
    ensures var c := Encode(r); |c| > 0 && !('\U{80}' <= c[0] <= '\U{BF}')
  {
  }

  /** And what it leaves is all that was between: surrounding white space changes nothing. */
  lemma {:induction false} TrimSpacePadded(a: Bytes, t: Bytes, b: Bytes)
    requires White(a) && Trimmed(t) && White(b)
    ensures TrimSpace(a + t + b) == t
  {
    hide SpaceAt, SpaceBefore, White, TrimLeft, TrimRight;
    if t == [] {
      NoSpaceInNothing();
      WhiteConcat(a, b);
      TrimLeftWhite(a + b, []);
      assert a + t + b == a + b + [];
      TrimRightWhite([], []);
      assert [] + [] == t;
    } else {
      NoSpaceAcross(t, b);
      TrimLeftWhite(a, t + b);
      assert a + t + b == a + (t + b);
      TrimRightWhite(t, b);
    }
  }

  lemma {:induction false} NoSpaceInNothing()
    ensures SpaceAt([]) == 0 && SpaceBefore([]) == 0 && White([])
  {
  }

  lemma {:induction false} WhiteConcat(a: Bytes, b: Bytes)
    requires White(a) && White(b)
    ensures White(a + b)
    decreases |a|
  {
    hide IsSpace;
    if a == [] {
      assert a + b == b;
    } else {
      var n :| 0 < n <= |a| && IsSpace(a[..n]) && White(a[n..]);
      WhiteConcat(a[n..], b);
      SpaceThenWhite(a[..n], a[n..] + b);
      assert a + b == a[..n] + (a[n..] + b);
    }
  }

  /** `s` is `t` with white space before and after it, and `t` itself has none at its ends. */
  ghost predicate Padded(s: Bytes, t: Bytes) {
    Trimmed(t) && exists a, b :: White(a) && White(b) && s == a + t + b
  }

  /** TrimSpace by its meaning. */
  lemma {:induction false} TrimSpaceIff(s: Bytes, t: Bytes)
    ensures TrimSpace(s) == t <==> Padded(s, t)
  {
    hide White, TrimSpace, Trimmed;
    var a, b := TrimSpaceParts(s);
    if Padded(s, t) {
      var a, b :| White(a) && White(b) && s == a + t + b;
      TrimSpacePadded(a, t, b);
    }
  }

  /** White space around any string, trimmed or not, makes no difference. */
  lemma {:induction false} TrimSpaceIgnores(a: Bytes, s: Bytes, b: Bytes)
    requires White(a) && White(b)
    ensures TrimSpace(a + s + b) == TrimSpace(s)
  {
    hide White, TrimSpace, Trimmed;
    var x, y := TrimSpaceParts(s);
    WhiteConcat(a, x);
    WhiteConcat(y, b);
    assert a + s + b == (a + x) + TrimSpace(s) + (y + b);
    TrimSpacePadded(a + x, TrimSpace(s), y + b);
  }

  /** Blank: white space only. */
  lemma {:induction false} BlankIff(s: Bytes)
    ensures TrimSpace(s) == [] <==> White(s)
  {
    hide White, TrimLeft, TrimRight;
    if White(s) {
      NoSpaceInNothing();
      TrimSpacePadded(s, [], []);
      assert s + [] + [] == s;
    }
    if TrimSpace(s) == [] {
      var a, b := TrimSpaceParts(s);
      WhiteConcat(a, b);
      assert s == a + b;
    }
  }
}
