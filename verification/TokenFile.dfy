/** A token file that is read again and again (internal/tokenfile/tokenfile.go). */
module TokenFile {
  import opened GoStrings
  import opened Utf8

  const BOM: Bytes := "\U{EF}\U{BB}\U{BF}"
  const MAX_FILE_BYTES := 0x10_0000

  // ----- Parse -----

  function DropBom(data: Bytes): Bytes {
    if BOM <= data then data[|BOM|..] else data
  }

  /** A line is skipped when it is blank or its first character that is not a space is '#'. */
  predicate Skipped(line: Bytes) {
    TrimSpace(line) == [] || TrimSpace(line)[0] == '#'
  }

  function Tokens(lines: seq<Bytes>): seq<Bytes> {
    if lines == [] then []
    else
      var line := lines[|lines| - 1];
      Tokens(lines[..|lines| - 1]) + if Skipped(line) then [] else [TrimSpace(line)]
  }

  function Parsed(data: Bytes): seq<Bytes> {
    Tokens(Split(DropBom(data), '\n'))
  }

  method Parse(data: Bytes) returns (tokens: seq<Bytes>)
    ensures tokens == Parsed(data)
    ensures forall i | 0 <= i < |tokens| :: IsToken(tokens[i])
  {
    hide TrimSpace;
    var lines := Split(DropBom(data), '\n');
    tokens := [];
    for i := 0 to |lines|
      invariant tokens == Tokens(lines[..i])
    {
      assert lines[..i + 1][..i] == lines[..i];
      var line := TrimSpace(lines[i]);
      if line == [] || line[0] == '#' {
        continue;
      }
      tokens := tokens + [line];
    }
    assert lines[..|lines|] == lines;
    TokensAreTokens(lines);
  }

  /** What a line can hold: not empty, trimmed, no line break, not a comment. */
  ghost predicate IsToken(t: Bytes) {
    t != [] && Trimmed(t) && '\n' !in t && t[0] != '#'
  }

  lemma {:induction false} TrimSpaceKeepsOut(s: Bytes, c: char)
    requires c !in s
    ensures c !in TrimSpace(s)
  {
    hide SpaceAt, SpaceBefore, TrimLeft, TrimRight;
    var l := TrimLeft(s);
    var r := TrimRight(l);
    TrimLeftTrims(s);
    TrimRightTrims(l);
    assert forall i | 0 <= i < |r| :: r[i] == l[i] == s[|s| - |l| + i];
  }

  lemma {:induction false} TokensAreTokens(lines: seq<Bytes>)
    requires forall i | 0 <= i < |lines| :: '\n' !in lines[i]
    ensures forall i | 0 <= i < |Tokens(lines)| :: IsToken(Tokens(lines)[i])
    ensures |Tokens(lines)| <= |lines|
  {
    hide TrimSpace, Trimmed;
    if lines != [] {
      var line := lines[|lines| - 1];
      TokensAreTokens(lines[..|lines| - 1]);
      TrimSpaceTrims(line);
      TrimSpaceKeepsOut(line, '\n');
    }
  }

  lemma {:induction false} TokensConcat(a: seq<Bytes>, b: seq<Bytes>)
    ensures Tokens(a + b) == Tokens(a) + Tokens(b)
  {
    hide Skipped, TrimSpace;
    if b == [] {
      assert a + b == a;
    } else {
      var n := |b| - 1;
      TokensConcat(a, b[..n]);
      assert (a + b)[..|a| + n] == a + b[..n];
    }
  }

  lemma {:induction false} TokensOne(line: Bytes)
    ensures Tokens([line]) == if Skipped(line) then [] else [TrimSpace(line)]
  {
    hide Skipped, TrimSpace;
    assert [line][..0] == [];
  }

  /** A line that holds a token, with white space around it or not, gives the token in its place. */
  lemma {:induction false} TokenLine(before: seq<Bytes>, a: Bytes, t: Bytes, b: Bytes, after: seq<Bytes>)
    requires White(a) && White(b) && IsToken(t)
    ensures Tokens(before + [a + t + b] + after) == Tokens(before) + [t] + Tokens(after)
  {
    hide TrimSpace, White, Trimmed, Tokens;
    TrimSpacePadded(a, t, b);
    TokensOne(a + t + b);
    TokensConcat(before + [a + t + b], after);
    TokensConcat(before, [a + t + b]);
  }

  /** A line of white space only, or of a comment after white space, gives nothing. */
  lemma {:induction false} SkippedLine(before: seq<Bytes>, a: Bytes, comment: Bytes, after: seq<Bytes>)
    requires White(a) && (comment == [] || comment[0] == '#')
    ensures Tokens(before + [a + comment] + after) == Tokens(before) + Tokens(after)
  {
    hide TrimSpace, White, Tokens;
    CommentTrimmed(a, comment);
    TokensOne(a + comment);
    TokensConcat(before + [a + comment], after);
    TokensConcat(before, [a + comment]);
  }

  lemma {:induction false} CommentTrimmed(a: Bytes, comment: Bytes)
    requires White(a) && (comment == [] || comment[0] == '#')
    ensures Skipped(a + comment)
  {
    hide White, TrimSpace, Trimmed;
    var x, y := TrimSpaceParts(comment);
    WhiteConcat(a, x);
    assert a + comment == (a + x) + TrimSpace(comment) + y;
    TrimSpacePadded(a + x, TrimSpace(comment), y);
    HashStays(x, TrimSpace(comment), y);
  }

  /** A '#' is no white space, so trimming leaves it in front. */
  lemma {:induction false} HashStays(x: Bytes, t: Bytes, y: Bytes)
    requires White(x) && White(y)
    requires x + t + y == [] || (x + t + y)[0] == '#'
    ensures t == [] || t[0] == '#'
  {
    hide Encode;
    if x != [] {
      assert (x + t + y)[0] == x[0];
      WhiteNotHash(x);
    } else if t != [] {
      assert (x + t + y)[0] == t[0];
    }
  }

  lemma {:induction false} WhiteNotHash(w: Bytes)
    requires White(w) && w != []
    ensures w[0] != '#'
  {
    hide Encode;
    var n :| 0 < n <= |w| && IsSpace(w[..n]) && White(w[n..]);
    var r: nat :| r < 0x11_0000 && IsSpaceRune(r) && w[..n] == Encode(r);
    HashNoSpace(r);
    assert w[0] == w[..n][0];
  }

  lemma {:induction false} HashNoSpace(r: nat)
    requires r < 0x11_0000 && IsSpaceRune(r)
    ensures Encode(r)[0] != '#'
  {
  }

  // ----- Parse undoes printing -----

  function Print(tokens: seq<Bytes>): Bytes {
    if tokens == [] then [] else tokens[0] + "\n" + Print(tokens[1..])
  }

  lemma {:induction false} PrintLines(tokens: seq<Bytes>)
    ensures Print(tokens) == Join(tokens + [[]], '\n')
  {
    if tokens != [] {
      PrintLines(tokens[1..]);
      assert (tokens + [[]])[1..] == tokens[1..] + [[]];
    }
  }

  lemma {:induction false} LinesOfPrint(tokens: seq<Bytes>)
    requires forall i | 0 <= i < |tokens| :: '\n' !in tokens[i]
    ensures Split(Print(tokens), '\n') == tokens + [[]]
  {
    PrintLines(tokens);
    SplitUndoesJoin(tokens + [[]], '\n');
  }

  lemma {:induction false} TokensOfTokens(tokens: seq<Bytes>)
    requires forall i | 0 <= i < |tokens| :: IsToken(tokens[i])
    ensures Tokens(tokens) == tokens
  {
    hide TrimSpace, Trimmed;
    if tokens != [] {
      TokensOfTokens(tokens[..|tokens| - 1]);
      TrimSpaceFixes(tokens[|tokens| - 1]);
    }
  }

  lemma {:induction false} TokensOfLines(tokens: seq<Bytes>)
    ensures Tokens(tokens + [[]]) == Tokens(tokens)
  {
    assert (tokens + [[]])[..|tokens|] == tokens;
  }

  lemma {:induction false} TokensHead(line: Bytes, lines: seq<Bytes>)
    ensures Tokens([line] + lines) == (if Skipped(line) then [] else [TrimSpace(line)]) + Tokens(lines)
  {
    hide Skipped, TrimSpace;
    if lines == [] {
      assert [line] + lines == [line] && [line][..0] == [];
    } else {
      var n := |lines| - 1;
      TokensHead(line, lines[..n]);
      assert ([line] + lines)[..n + 1] == [line] + lines[..n];
    }
  }

  ghost predicate StartsWithBom(tokens: seq<Bytes>) {
    tokens != [] && BOM <= tokens[0]
  }

  /**
  Printing tokens one per line and parsing them returns the tokens exactly when the first does not start with a byte
  order mark. If it does, Parse takes the mark for the file's and drops it.
  */
  lemma {:induction false} ParseUndoesPrintIff(tokens: seq<Bytes>)
    requires forall i | 0 <= i < |tokens| :: IsToken(tokens[i])
    ensures Parsed(Print(tokens)) == tokens <==> !StartsWithBom(tokens)
  {
    LinesOfPrint(tokens);
    TokensOfLines(tokens);
    TokensOfTokens(tokens);
    BomOfPrint(tokens);
    if StartsWithBom(tokens) {
      BomDropped(tokens);
    }
  }

  /** The text starts with a mark exactly when its first token does: a token ends before the mark's bytes could. */
  lemma {:induction false} BomOfPrint(tokens: seq<Bytes>)
    requires forall i | 0 <= i < |tokens| :: IsToken(tokens[i])
    ensures BOM <= Print(tokens) <==> StartsWithBom(tokens)
  {
    if tokens != [] {
      var t, text := tokens[0], Print(tokens);
      assert text == t + ("\n" + Print(tokens[1..]));
      assert forall i | 0 <= i < |t| :: text[i] == t[i];
      assert text[|t|] == '\n';
      assert BOM == ['\U{EF}', '\U{BB}', '\U{BF}'];
      assert '\n' !in BOM;
      assert BOM <= text ==> forall i | 0 <= i < |BOM| :: text[i] == BOM[i];
    }
  }

  lemma {:induction false} BomDropped(tokens: seq<Bytes>)
    requires StartsWithBom(tokens) && forall i | 0 <= i < |tokens| :: IsToken(tokens[i])
    ensures Parsed(Print(tokens)) != tokens
  {
    hide TrimSpace;
    var rest := tokens[0][|BOM|..];
    var others := [rest] + tokens[1..];
    BomOfPrint(tokens);
    assert DropBom(Print(tokens)) == Print(others) by {
      assert others[1..] == tokens[1..];
      assert tokens[0] == BOM + rest;
    }
    LinesOfPrint(others);
    TokensOfLines(others);
    TokensHead(rest, tokens[1..]);
    TokensOfTokens(tokens[1..]);
    TrimSpaceTrims(rest);
    assert |BOM| == 3;
  }

  // ----- reading again -----

  datatype ReadResult = Unreadable | Content(data: Bytes)

  /** load: the tokens of a read that passed the check. */
  function Load(read: ReadResult, check: seq<Bytes> -> bool): Option<seq<Bytes>> {
    if read.Unreadable? || |read.data| > MAX_FILE_BYTES then None
    else
      var tokens := Parsed(read.data);
      if check(tokens) then Some(tokens) else None
  }

  ghost predicate AllPass(check: seq<Bytes> -> bool, applied: seq<seq<Bytes>>) {
    forall i | 0 <= i < |applied| :: check(applied[i])
  }

  lemma {:induction false} AllPassPush(check: seq<Bytes> -> bool, applied: seq<seq<Bytes>>, tokens: seq<Bytes>)
    requires AllPass(check, applied) && check(tokens)
    ensures AllPass(check, applied + [tokens])
  {
  }

  class File {
    const check: seq<Bytes> -> bool
    var last: seq<Bytes>
    var failing: bool
    /** The series of this file in TokenReloadFailures, and the arguments apply was called with. */
    var failures: nat
    var applied: seq<seq<Bytes>>
    ghost var history: seq<Option<seq<Bytes>>>

    ghost predicate Valid()
      reads this
    {
      && history != [] && history[0].Some?
      && last == LastGood(history)
      && failing == history[|history| - 1].None?
      && failures == Failures(history)
      && AllPass(check, applied)
      && applied == Changes(Goods(history))
    }

    /** The part of Open that follows a successful load. */
    constructor (tokens: seq<Bytes>, check: seq<Bytes> -> bool)
      requires check(tokens)
      ensures Valid() && history == [Some(tokens)] && this.check == check
    {
      this.check := check;
      last, failing, failures, applied, history := tokens, false, 0, [tokens], [Some(tokens)];
      new;
      assert history[..0] == [] && Goods(history) == [tokens] && [tokens][..0] == [];
    }

    /** reload. */
    method Reload(read: ReadResult)
      requires Valid()
      modifies this
      ensures Valid() && history == old(history) + [Load(read, check)]
    {
      hide Load, Goods, Changes, Failures, LastGood, AllPass, Parsed;
      var result := Load(read, check);
      HistoryGrows(history, result);
      GoodsEnd(old(history));
      history := history + [result];
      if result.None? {
        failing := true;
        failures := failures + 1;
        return;
      }
      if failing {
        failing := false;
      }
      var tokens := result.value;
      LoadIff(read, check, tokens);
      AllPassPush(check, applied, tokens);
      ChangesGrow(Goods(old(history)), tokens);
      if tokens == last {
        return;
      }
      applied := applied + [tokens];
      last := tokens;
    }
  }

  /** Open: no file, and no call of apply, when the first read fails. */
  method Open(read: ReadResult, check: seq<Bytes> -> bool) returns (f: File?)
    ensures f == null <==> Load(read, check).None?
    ensures f != null ==> fresh(f) && f.Valid() && f.check == check && f.history == [Load(read, check)]
  {
    var result := Load(read, check);
    if result.None? {
      return null;
    }
    f := new File(result.value, check);
  }

  // ----- what a history of reads means -----

  /** The reads that passed the check, in order. */
  function Goods(history: seq<Option<seq<Bytes>>>): seq<seq<Bytes>> {
    if history == [] then []
    else
      var r := history[|history| - 1];
      Goods(history[..|history| - 1]) + if r.Some? then [r.value] else []
  }

  function Failures(history: seq<Option<seq<Bytes>>>): nat {
    if history == [] then 0
    else Failures(history[..|history| - 1]) + if history[|history| - 1].None? then 1 else 0
  }

  /** The most recent read that passed the check, looked for from the end. */
  function LastGood(history: seq<Option<seq<Bytes>>>): seq<Bytes> {
    if history == [] then []
    else if history[|history| - 1].Some? then history[|history| - 1].value
    else LastGood(history[..|history| - 1])
  }

  /** A sequence without those elements that equal the one right before them. */
  function Changes(goods: seq<seq<Bytes>>): seq<seq<Bytes>> {
    if goods == [] then []
    else
      var n := |goods| - 1;
      Changes(goods[..n]) + if n > 0 && goods[n] == goods[n - 1] then [] else [goods[n]]
  }

  lemma {:induction false} HistoryGrows(history: seq<Option<seq<Bytes>>>, r: Option<seq<Bytes>>)
    ensures Goods(history + [r]) == if r.Some? then Goods(history) + [r.value] else Goods(history)
    ensures Failures(history + [r]) == Failures(history) + if r.None? then 1 else 0
    ensures LastGood(history + [r]) == if r.Some? then r.value else LastGood(history)
  {
    assert (history + [r])[..|history|] == history;
    assert Goods(history) + [] == Goods(history);
  }

  lemma {:induction false} ChangesGrow(goods: seq<seq<Bytes>>, tokens: seq<Bytes>)
    requires goods != []
    ensures Changes(goods + [tokens]) ==
            if tokens == goods[|goods| - 1] then Changes(goods) else Changes(goods) + [tokens]
  {
    assert (goods + [tokens])[..|goods|] == goods;
    assert Changes(goods) + [] == Changes(goods);
  }

  lemma {:induction false} GoodsEnd(history: seq<Option<seq<Bytes>>>)
    requires history != [] && history[0].Some?
    ensures Goods(history) != [] && Goods(history)[|Goods(history)| - 1] == LastGood(history)
  {
    if history[|history| - 1].None? {
      GoodsEnd(history[..|history| - 1]);
    }
  }

  /** Every read is a good one or a failure, and the last good one is followed by failures only. */
  lemma {:induction false} HistoryMeans(history: seq<Option<seq<Bytes>>>)
    requires history != [] && history[0].Some?
    ensures |Goods(history)| + Failures(history) == |history|
    ensures exists i :: 0 <= i < |history| && LastGoodAt(history, i)
  {
    var n := |history| - 1;
    if n == 0 {
      assert history[..0] == [];
      assert LastGoodAt(history, 0);
    } else {
      HistoryMeans(history[..n]);
      if history[n].Some? {
        assert LastGoodAt(history, n);
      } else {
        var i :| 0 <= i < n && LastGoodAt(history[..n], i);
        assert history[..n][i] == history[i];
        forall j | i < j < |history| ensures history[j].None? {
          assert j < n ==> history[..n][j] == history[j];
        }
        assert LastGoodAt(history, i);
      }
    }
  }

  ghost predicate LastGoodAt(history: seq<Option<seq<Bytes>>>, i: nat)
    requires i < |history|
  {
    history[i] == Some(LastGood(history)) && forall j | i < j < |history| :: history[j].None?
  }

  /** A read is good exactly when there is a file within the limit whose tokens pass the check. */
  lemma {:induction false} LoadIff(read: ReadResult, check: seq<Bytes> -> bool, tokens: seq<Bytes>)
    ensures Load(read, check) == Some(tokens) <==>
            read.Content? && |read.data| <= 1048576 && tokens == Parsed(read.data) && check(tokens)
  {
    hide Parsed;
  }

  function ChangeCount(goods: seq<seq<Bytes>>): nat {
    if |goods| <= 1 then 0
    else
      var n := |goods| - 1;
      ChangeCount(goods[..n]) + if goods[n] != goods[n - 1] then 1 else 0
  }

  /**
  For every history that starts with a good read: apply ran once, plus once for each change between consecutive good
  reads; it never ran twice in a row with the same tokens; and what it got last is the most recent good read.
  */
  lemma {:induction false} AppliedIsChanges(history: seq<Option<seq<Bytes>>>)
    requires history != [] && history[0].Some?
    ensures var applied := Changes(Goods(history));
            && |applied| == 1 + ChangeCount(Goods(history))
            && applied[|applied| - 1] == LastGood(history)
            && forall i | 0 < i < |applied| :: applied[i] != applied[i - 1]
  {
    hide Goods, Changes, ChangeCount, LastGood;
    GoodsEnd(history);
    ChangesOf(Goods(history));
  }

  lemma {:induction false} ChangesOf(goods: seq<seq<Bytes>>)
    requires goods != []
    ensures var c := Changes(goods);
            && |c| == 1 + ChangeCount(goods)
            && c[|c| - 1] == goods[|goods| - 1]
            && forall i | 0 < i < |c| :: c[i] != c[i - 1]
  {
    var n := |goods| - 1;
    if n > 0 {
      ChangesOf(goods[..n]);
    } else {
      assert Changes(goods[..0]) == [];
    }
  }
}
