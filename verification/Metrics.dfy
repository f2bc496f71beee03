/** Counters and their text form (metrics/metrics.go; Prometheus text exposition format 0.0.4). */
module Metrics {
  import opened GoStrings
  import opened Sums
  import Int64

  const NUL: char := '\0'

  // ----- series keys -----

  function KeyFor(values: seq<Bytes>): Bytes {
    Join(values, NUL)
  }

  ghost predicate NulFree(values: seq<Bytes>) {
    forall i | 0 <= i < |values| :: NUL !in values[i]
  }

  /** A stored key splits into the tuple it was made of exactly when no value holds a NUL. */
  lemma {:induction false} KeySplitsIff(values: seq<Bytes>)
    requires values != []
    ensures Split(KeyFor(values), NUL) == values <==> NulFree(values)
  {
    if NulFree(values) {
      SplitUndoesJoin(values, NUL);
    }
  }

  /** A tuple without NUL shares its series with no other tuple of the counter, NULs or not. */
  lemma {:induction false} KeyInjective(u: seq<Bytes>, v: seq<Bytes>)
    requires |u| == |v| && NulFree(u)
    ensures KeyFor(u) == KeyFor(v) <==> u == v
  {
    hide Split, Join;
    if u != [] && KeyFor(u) == KeyFor(v) {
      KeySplitsIff(u);
      SplitJoinLength(v, NUL);
      KeySplitsIff(v);
    }
  }

  /**
  Exactly which tuples have a series of their own: those without NUL, and those of a counter with at most one label. Any
  other tuple shares its series with one that differs from it.
  */
  lemma {:induction false} OwnSeriesIff(u: seq<Bytes>)
    ensures (forall v: seq<Bytes> | |v| == |u| && KeyFor(v) == KeyFor(u) :: v == u) <==> |u| <= 1 || NulFree(u)
  {
    hide KeyFor, NulFree;
    if |u| <= 1 || NulFree(u) {
      forall v: seq<Bytes> | |v| == |u| && KeyFor(v) == KeyFor(u) ensures v == u {
        if NulFree(u) {
          KeyInjective(u, v);
        } else {
          SingleKey(u);
          SingleKey(v);
        }
      }
    } else {
      var v := Shared(u);
    }
  }

  lemma {:induction false} SingleKey(u: seq<Bytes>)
    requires |u| <= 1
    ensures u == if |u| == 0 then [] else [KeyFor(u)]
  {
  }

  /** The parts of the key can be dealt out in two ways: the surplus to the last value, or to the first. */
  lemma {:induction false} Shared(u: seq<Bytes>) returns (v: seq<Bytes>)
    requires |u| >= 2 && !NulFree(u)
    ensures |v| == |u| && v != u && KeyFor(v) == KeyFor(u)
  {
    hide Split, Join;
    var parts := Split(KeyFor(u), NUL);
    SplitJoinLength(u, NUL);
    JoinUndoesSplit(KeyFor(u), NUL);
    var surplus := |parts| - |u|;
    var last := Dealt(parts, parts[..|u| - 1], parts[|u| - 1..], []);
    var first := Dealt(parts, [], parts[..surplus + 1], parts[surplus + 1..]);
    GroupHoldsNul(parts[..surplus + 1]);
    assert last[0] == parts[0] && NUL in first[0];
    v := if last == u then first else last;
  }

  /** A tuple that takes a group of parts for one value has the same key. */
  lemma {:induction false} Dealt(parts: seq<Bytes>, before: seq<Bytes>, group: seq<Bytes>, after: seq<Bytes>)
    returns (v: seq<Bytes>)
    requires parts == before + group + after && group != []
    ensures v == before + [KeyFor(group)] + after && KeyFor(v) == KeyFor(parts)
  {
    hide Join;
    var value := [KeyFor(group)];
    v := before + value + after;
    JoinOne(KeyFor(group), NUL);
    SameKeyBefore(group, value, after);
    assert v == before + (value + after) && parts == before + (group + after);
    if before == [] {
      assert v == value + after && parts == group + after;
    } else {
      JoinConcat(before, value + after, NUL);
      JoinConcat(before, group + after, NUL);
    }
  }

  lemma {:induction false} SameKeyBefore(a: seq<Bytes>, b: seq<Bytes>, after: seq<Bytes>)
    requires a != [] && b != [] && KeyFor(a) == KeyFor(b)
    ensures KeyFor(a + after) == KeyFor(b + after)
  {
    hide Join;
    if after == [] {
      assert a + after == a && b + after == b;
    } else {
      JoinConcat(a, after, NUL);
      JoinConcat(b, after, NUL);
    }
  }

  lemma {:induction false} GroupHoldsNul(group: seq<Bytes>)
    requires |group| >= 2
    ensures NUL in KeyFor(group)
  {
    hide Join;
    assert group == [group[0]] + group[1..];
    JoinCons(group[0], group[1..], NUL);
    assert KeyFor(group)[|group[0]|] == NUL;
  }

  /** With a NUL inside a value the next separator cannot be told apart: two tuples, one series. */
  lemma {:induction false} NulCollides()
    ensures KeyFor(["a\0", "b"]) == KeyFor(["a", "\0b"]) && ["a\0", "b"] != ["a", "\0b"]
  {
    assert KeyFor(["a\0", "b"]) == "a\0" + [NUL] + KeyFor(["b"]) by { assert ["a\0", "b"][1..] == ["b"]; }
    assert KeyFor(["a", "\0b"]) == "a" + [NUL] + KeyFor(["\0b"]) by { assert ["a", "\0b"][1..] == ["\0b"]; }
    assert ["a\0", "b"][0] != ["a", "\0b"][0];
  }

  // ----- the counter -----

  /** One Add call. */
  datatype Increment = Increment(n: int, values: seq<Bytes>)

  /** The total added under one key, in 64 bits. */
  function KeyTotal(adds: seq<Increment>, key: Bytes): int {
    if adds == [] then 0
    else
      var last := adds[|adds| - 1];
      var before := KeyTotal(adds[..|adds| - 1], key);
      if KeyFor(last.values) == key then Int64.Wrap(before + last.n) else before
  }

  /** The total added to one tuple of values, in 64 bits. */
  function Total(adds: seq<Increment>, values: seq<Bytes>): int {
    if adds == [] then 0
    else
      var last := adds[|adds| - 1];
      var before := Total(adds[..|adds| - 1], values);
      if last.values == values then Int64.Wrap(before + last.n) else before
  }

  /** A history of calls whose values fit the labels and hold no NUL. */
  ghost predicate Clean(adds: seq<Increment>, width: nat) {
    forall i | 0 <= i < |adds| :: |adds[i].values| == width && NulFree(adds[i].values)
  }

  /** Without NULs a series counts what was added to its tuple and nothing else. */
  lemma {:induction false} TotalsAgree(adds: seq<Increment>, values: seq<Bytes>)
    requires Clean(adds, |values|) && NulFree(values)
    ensures KeyTotal(adds, KeyFor(values)) == Total(adds, values)
  {
    if adds != [] {
      TotalsAgree(adds[..|adds| - 1], values);
      KeyInjective(adds[|adds| - 1].values, values);
    }
  }

  ghost function AddedTo(values: seq<Bytes>): Increment -> int {
    (a: Increment) => if a.values == values then a.n else 0
  }

  /** A total is the sum of what was added to the tuple, cut to 64 bits once. */
  lemma {:induction false} TotalIsSum(adds: seq<Increment>, values: seq<Bytes>)
    ensures Total(adds, values) == Int64.Wrap(Sum(adds, AddedTo(values)))
  {
    hide Int64.Wrap;
    if adds != [] {
      var before := adds[..|adds| - 1];
      TotalIsSum(before, values);
      Int64.WrapSum(Sum(before, AddedTo(values)), adds[|adds| - 1].n);
    } else {
      assert Int64.Wrap(0) == 0;
    }
  }

  /** The keys a counter has series for. */
  ghost predicate HasSeries(labels: seq<Bytes>, adds: seq<Increment>, key: Bytes) {
    (labels == [] && key == []) || exists i :: 0 <= i < |adds| && KeyFor(adds[i].values) == key
  }

  class Counter {
    const name: Bytes
    const help: Bytes
    const labels: seq<Bytes>
    var series: map<Bytes, int>
    ghost var adds: seq<Increment>

    ghost predicate Valid()
      reads this
    {
      && (forall i | 0 <= i < |adds| :: |adds[i].values| == |labels|)
      && (forall k :: k in series <==> HasSeries(labels, adds, k))
      && (forall k | k in series :: series[k] == KeyTotal(adds, k))
    }

    /** newCounter: a counter without labels shows at 0 from the start. */
    constructor (name: Bytes, help: Bytes, labels: seq<Bytes>)
      ensures Valid() && adds == []
      ensures this.name == name && this.help == help && this.labels == labels
    {
      this.name, this.help, this.labels, this.adds := name, help, labels, [];
      series := if labels == [] then map[[] := 0] else map[];
    }

    /** get: the series of the values is there, with the total added under its key so far, and no other is touched. */
    method Get(values: seq<Bytes>) returns (key: Bytes)
      requires Valid()
      modifies this`series
      ensures key == KeyFor(values)
      ensures series.Keys == old(series).Keys + {key}
      ensures forall k | k in series :: series[k] == KeyTotal(adds, k)
    {
      hide KeyFor, KeyTotal;
      key := KeyFor(values);
      Absent(adds, key);
      if key !in series {
        series := series[key := 0];
      }
    }

    /** Add. It panics unless there is a value per label. */
    method Add(n: int, values: seq<Bytes>)
      requires Valid() && |values| == |labels|
      modifies this
      ensures Valid() && adds == old(adds) + [Increment(n, values)]
    {
      hide KeyFor, KeyTotal;
      var key := Get(values);
      series := series[key := Int64.Wrap(series[key] + n)];
      adds := adds + [Increment(n, values)];
      forall k
        ensures k in series <==> HasSeries(labels, adds, k)
        ensures k in series ==> series[k] == KeyTotal(adds, k)
      {
        SeriesAfter(labels, old(adds), Increment(n, values), k);
        KeyTotalAfter(old(adds), Increment(n, values), k);
      }
    }

    /** Value. It never makes a series. */
    method Value(values: seq<Bytes>) returns (n: int)
      requires Valid() && |values| == |labels|
      ensures n == KeyTotal(adds, KeyFor(values))
    {
      hide Join;
      var key := KeyFor(values);
      Absent(adds, key);
      if key in series {
        return series[key];
      }
      return 0;
    }

    /** render. */
    method Render(builder: Bytes) returns (text: Bytes)
      requires Valid()
      ensures exists keys :: SortedList(keys, series.Keys) && text == builder + Block(name, help, labels, series, keys)
    {
      hide Line, Header, Split, Lines, Ascending;
      text := builder + Header(name, help);
      var keys := SortKeys(series.Keys);
      LinesNone(name, labels, series);
      for i := 0 to |keys|
        invariant text == builder + (Header(name, help) + Lines(name, labels, series, keys[..i]))
      {
        SplitLength(keys[i]);
        var line := RenderLine(keys[i], series[keys[i]]);
        LinesPush(name, labels, series, keys, i);
        text := text + line;
      }
      assert keys[..|keys|] == keys;
    }

    /** The body of render's loop: one series. */
    method RenderLine(key: Bytes, n: int) returns (line: Bytes)
      requires labels != [] ==> |Split(key, NUL)| >= |labels|
      ensures line == Line(name, labels, key, n)
    {
      hide Pair, Digits, Split;
      line := name;
      if |labels| > 0 {
        var values := Split(key, NUL);
        line := line + "{";
        for j := 0 to |labels|
          invariant |labels| <= |values|
          invariant line == name + "{" + Pairs(labels[..j], values[..j])
        {
          if j > 0 {
            line := line + ",";
          }
          line := line + Pair(labels[j], values[j]);
          PairsPush(labels[..j], values[..j], labels[j], values[j]);
          assert labels[..j + 1] == labels[..j] + [labels[j]] && values[..j + 1] == values[..j] + [values[j]];
        }
        line := line + "}";
        assert labels[..|labels|] == labels;
      }
      line := line + (" " + Digits(n) + "\n");
    }

    /** A key has at least a part per label, so render never runs out of values. */
    lemma SplitLength(key: Bytes)
      requires Valid() && key in series
      ensures |labels| > 0 ==> |Split(key, NUL)| >= |labels|
    {
      assert HasSeries(labels, adds, key);
      if |labels| > 0 {
        var i :| 0 <= i < |adds| && KeyFor(adds[i].values) == key;
        SplitJoinLength(adds[i].values, NUL);
      }
    }
  }

  lemma {:induction false} Absent(adds: seq<Increment>, key: Bytes)
    ensures (forall i | 0 <= i < |adds| :: KeyFor(adds[i].values) != key) ==> KeyTotal(adds, key) == 0
  {
    hide Join;
    if adds != [] {
      var before := adds[..|adds| - 1];
      Absent(before, key);
      assert forall i | 0 <= i < |before| :: before[i] == adds[i];
    }
  }

  lemma {:induction false} KeyTotalAfter(adds: seq<Increment>, a: Increment, k: Bytes)
    ensures KeyTotal(adds + [a], k) ==
            if KeyFor(a.values) == k then Int64.Wrap(KeyTotal(adds, k) + a.n) else KeyTotal(adds, k)
  {
    hide KeyFor;
    assert (adds + [a])[..|adds|] == adds;
  }

  lemma {:induction false} SeriesAfter(labels: seq<Bytes>, adds: seq<Increment>, a: Increment, k: Bytes)
    ensures HasSeries(labels, adds + [a], k) <==> HasSeries(labels, adds, k) || KeyFor(a.values) == k
  {
    hide Join;
    var more := adds + [a];
    assert more[|adds|] == a;
    assert forall i | 0 <= i < |adds| :: more[i] == adds[i];
  }

  // ----- the text -----

  /** fmt's %d. */
  function Digits(n: int): Bytes {
    if n < 0 then "-" + Decimal(-n) else Decimal(n)
  }

  function EscapeLabel(s: Bytes): Bytes {
    if s == [] then []
    else
      EscapedChar(s[0]) + EscapeLabel(s[1..])
  }

  function EscapedChar(c: char): Bytes {
    if c == '\\' then "\\\\" else if c == '\"' then "\\\"" else if c == '\n' then "\\n" else [c]
  }

  function EscapeHelp(s: Bytes): (t: Bytes)
    ensures '\n' !in t
  {
    if s == [] then [] else EscapedHelpChar(s[0]) + EscapeHelp(s[1..])
  }

  function EscapedHelpChar(c: char): (t: Bytes)
    ensures '\n' !in t
  {
    if c == '\\' then "\\\\" else if c == '\n' then "\\n" else [c]
  }

  function Header(name: Bytes, help: Bytes): Bytes {
    ("# HELP " + name + " " + EscapeHelp(help) + "\n") + ("# TYPE " + name + " counter\n")
  }

  function Pair(l: Bytes, v: Bytes): Bytes {
    l + "=\"" + EscapeLabel(v) + "\""
  }

  function Pairs(labels: seq<Bytes>, values: seq<Bytes>): Bytes
    requires |labels| == |values|
  {
    if labels == [] then []
    else if |labels| == 1 then Pair(labels[0], values[0])
    else Pair(labels[0], values[0]) + "," + Pairs(labels[1..], values[1..])
  }

  lemma {:induction false} PairsPush(labels: seq<Bytes>, values: seq<Bytes>, l: Bytes, v: Bytes)
    requires |labels| == |values|
    ensures Pairs(labels + [l], values + [v]) == Pairs(labels, values) + (if labels == [] then "" else ",") + Pair(l, v)
  {
    if labels != [] {
      PairsPush(labels[1..], values[1..], l, v);
      assert (labels + [l])[1..] == labels[1..] + [l] && (values + [v])[1..] == values[1..] + [v];
    }
  }

  /** The series line of a key. */
  function Line(name: Bytes, labels: seq<Bytes>, key: Bytes, n: int): Bytes
    requires labels != [] ==> |Split(key, NUL)| >= |labels|
  {
    name + (if labels == [] then "" else "{" + Pairs(labels, Split(key, NUL)[..|labels|]) + "}") +
    (" " + Digits(n) + "\n")
  }

  ghost predicate Printable(labels: seq<Bytes>, series: map<Bytes, int>, keys: seq<Bytes>) {
    forall i | 0 <= i < |keys| :: keys[i] in series && (labels != [] ==> |Split(keys[i], NUL)| >= |labels|)
  }

  ghost function Lines(name: Bytes, labels: seq<Bytes>, series: map<Bytes, int>, keys: seq<Bytes>): Bytes {
    if keys == [] then []
    else
      var n := |keys| - 1;
      var k := keys[n];
      Lines(name, labels, series, keys[..n]) +
      if k in series && (labels != [] ==> |Split(k, NUL)| >= |labels|) then Line(name, labels, k, series[k]) else []
  }

  lemma {:induction false} LinesNone(name: Bytes, labels: seq<Bytes>, series: map<Bytes, int>)
    ensures Lines(name, labels, series, []) == []
  {
  }

  lemma {:induction false} LinesPush(name: Bytes, labels: seq<Bytes>, series: map<Bytes, int>, keys: seq<Bytes>, i: nat)
    requires i < |keys| && keys[i] in series && (labels != [] ==> |Split(keys[i], NUL)| >= |labels|)
    ensures Lines(name, labels, series, keys[..i + 1]) ==
            Lines(name, labels, series, keys[..i]) + Line(name, labels, keys[i], series[keys[i]])
  {
    hide Line, Split;
    assert keys[..i + 1][..i] == keys[..i];
  }

  ghost function Block(name: Bytes, help: Bytes, labels: seq<Bytes>, series: map<Bytes, int>, keys: seq<Bytes>): Bytes {
    Header(name, help) + Lines(name, labels, series, keys)
  }

  // ----- sorted keys -----

  predicate Less(a: Bytes, b: Bytes) {
    if a == [] then b != []
    else if b == [] then false
    else a[0] < b[0] || (a[0] == b[0] && Less(a[1..], b[1..]))
  }

  /** The strings agree up to k, and there the first one ends or has the smaller byte. */
  ghost predicate DifferAt(a: Bytes, b: Bytes, k: nat) {
    && k <= |a| && k < |b| && a[..k] == b[..k]
    && (k == |a| || a[k] < b[k])
  }

  /** The order is that of the bytes at the first difference. */
  lemma {:induction false} LessIff(a: Bytes, b: Bytes)
    ensures Less(a, b) <==> exists k :: DifferAt(a, b, k)
  {
    if a == [] || b == [] || a[0] != b[0] {
      if Less(a, b) {
        assert DifferAt(a, b, 0);
      }
      if k: nat :| DifferAt(a, b, k) {
        assert k > 0 ==> a[..k][0] == b[..k][0];
      }
    } else {
      LessIff(a[1..], b[1..]);
      if k: nat :| DifferAt(a[1..], b[1..], k) {
        assert a[..k + 1] == [a[0]] + a[1..][..k] && b[..k + 1] == [b[0]] + b[1..][..k];
        assert DifferAt(a, b, k + 1);
      }
      if k: nat :| DifferAt(a, b, k) {
        assert a[1..][..k - 1] == a[..k][1..] && b[1..][..k - 1] == b[..k][1..];
        assert DifferAt(a[1..], b[1..], k - 1);
      }
    }
  }

  lemma {:induction false} LessTotal(a: Bytes, b: Bytes)
    ensures a != b ==> Less(a, b) || Less(b, a)
    ensures !(Less(a, b) && Less(b, a)) && !Less(a, a)
  {
    if a != [] {
      LessTotal(a[1..], a[1..]);
      if b != [] {
        LessTotal(a[1..], b[1..]);
        assert a == [a[0]] + a[1..] && b == [b[0]] + b[1..];
      }
    }
  }

  lemma {:induction false} LessTransitive(a: Bytes, b: Bytes, c: Bytes)
    requires Less(a, b) && Less(b, c)
    ensures Less(a, c)
  {
    if a != [] && a[0] == b[0] == c[0] {
      LessTransitive(a[1..], b[1..], c[1..]);
    }
  }

  ghost predicate Ascending(keys: seq<Bytes>) {
    forall i, j | 0 <= i < j < |keys| :: Less(keys[i], keys[j])
  }

  /** `keys` lists `all` in ascending order. */
  ghost predicate SortedList(keys: seq<Bytes>, all: set<Bytes>) {
    Ascending(keys) && forall k :: k in keys <==> k in all
  }

  method Least(all: set<Bytes>) returns (k: Bytes)
    requires all != {}
    ensures k in all && forall x | x in all && x != k :: Less(k, x)
  {
    k :| k in all;
    var rest := all - {k};
    while rest != {}
      invariant k in all && rest <= all && k !in rest
      invariant forall x | x in all && x !in rest && x != k :: Less(k, x)
      decreases |rest|
    {
      var y :| y in rest;
      rest := rest - {y};
      LessTotal(k, y);
      if Less(y, k) {
        forall x | x in all && x !in rest && x != y ensures Less(y, x) {
          if x != k {
            LessTransitive(y, k, x);
          }
        }
        k := y;
      }
    }
  }

  /** sort.Strings over the keys of the map. */
  method SortKeys(all: set<Bytes>) returns (keys: seq<Bytes>)
    ensures SortedList(keys, all)
  {
    keys := [];
    var rest := all;
    while rest != {}
      invariant rest <= all && Ascending(keys)
      invariant forall k :: k in keys <==> k in all && k !in rest
      invariant forall k, x | k in keys && x in rest :: Less(k, x)
      decreases |rest|
    {
      var k := Least(rest);
      keys := keys + [k];
      rest := rest - {k};
    }
  }

  /** There is one ascending list of a set, so two renderings of one counter are the same text. */
  lemma {:induction false} SortedListUnique(a: seq<Bytes>, b: seq<Bytes>, all: set<Bytes>)
    requires SortedList(a, all) && SortedList(b, all)
    ensures a == b
  {
    EmptyList(a, all);
    EmptyList(b, all);
    if a != [] {
      assert a[0] in b && b[0] in a;
      HeadsAgree(a, b);
      var rest := all - {a[0]};
      TailSorted(a, all);
      TailSorted(b, all);
      SortedListUnique(a[1..], b[1..], rest);
      assert a == [a[0]] + a[1..] && b == [b[0]] + b[1..];
    }
  }

  lemma {:induction false} EmptyList(a: seq<Bytes>, all: set<Bytes>)
    requires SortedList(a, all)
    ensures a == [] <==> all == {}
  {
    if a != [] {
      assert a[0] in a;
    }
  }

  lemma {:induction false} HeadsAgree(a: seq<Bytes>, b: seq<Bytes>)
    requires Ascending(a) && Ascending(b) && a != [] && b != [] && a[0] in b && b[0] in a
    ensures a[0] == b[0]
  {
    var i :| 0 <= i < |b| && b[i] == a[0];
    var j :| 0 <= j < |a| && a[j] == b[0];
    LessTotal(a[0], b[0]);
  }

  lemma {:induction false} TailSorted(a: seq<Bytes>, all: set<Bytes>)
    requires SortedList(a, all) && a != []
    ensures SortedList(a[1..], all - {a[0]})
  {
    assert a == [a[0]] + a[1..];
    forall i | 0 <= i < |a[1..]| ensures a[1..][i] != a[0] {
      assert Less(a[0], a[1 + i]);
      LessTotal(a[0], a[0]);
    }
  }
}
