/** The visitor table of the rate limiter: a map and a recency list kept together (internal/ratelimit/limiter.go). */
module Limiter {
  import opened GoStrings
  import opened Ints
  import opened Utf8

  /** One tracked client. The token bucket is an opaque value that stays with its key. */
  datatype Entry = Entry(key: Bytes, bucket: nat, lastSeen: int)

  /** What happens to the table under its lock. `bucket` is the one allow makes when the key is new. */
  datatype Event = Allow(key: Bytes, now: int, bucket: nat) | Sweep(now: int)

  // ----- the table as a list, most recent first -----

  function Position(table: seq<Entry>, key: Bytes): (i: nat)
    ensures i <= |table|
    ensures i < |table| ==> table[i].key == key
    ensures forall j | 0 <= j < i :: table[j].key != key
  {
    if table == [] || table[0].key == key then 0 else 1 + Position(table[1..], key)
  }

  /** How many entries stay when a new one is about to come. */
  function Room(n: nat, cap: int): (m: nat)
    ensures m <= n
  {
    if n < cap then n else if cap >= 1 then cap - 1 else 0
  }

  function Touch(table: seq<Entry>, key: Bytes, now: int, bucket: nat, cap: int): seq<Entry> {
    var i := Position(table, key);
    if i < |table| then [table[i].(lastSeen := now)] + (table[..i] + table[i + 1..])
    else [Entry(key, bucket, now)] + table[..Room(|table|, cap)]
  }

  predicate Stale(e: Entry, now: int, staleAfter: int) {
    now - e.lastSeen > staleAfter
  }

  /** The loop of evictStaleLoop: takes entries off the back until one is fresh. */
  function Swept(table: seq<Entry>, now: int, staleAfter: int): (kept: seq<Entry>)
    ensures kept <= table
  {
    if table == [] || !Stale(table[|table| - 1], now, staleAfter) then table
    else Swept(table[..|table| - 1], now, staleAfter)
  }

  function Step(table: seq<Entry>, e: Event, cap: int, staleAfter: int): seq<Entry> {
    match e
    case Allow(key, now, bucket) => Touch(table, key, now, bucket, cap)
    case Sweep(now) => Swept(table, now, staleAfter)
  }

  /** The table after a history of events. */
  function Table(history: seq<Event>, cap: int, staleAfter: int): seq<Entry> {
    if history == [] then []
    else Step(Table(history[..|history| - 1], cap, staleAfter), history[|history| - 1], cap, staleAfter)
  }

  lemma {:induction false} TableStep(history: seq<Event>, e: Event, cap: int, staleAfter: int)
    ensures Table(history + [e], cap, staleAfter) == Step(Table(history, cap, staleAfter), e, cap, staleAfter)
  {
    assert (history + [e])[..|history|] == history;
  }

  // ----- the history, read backwards -----

  function Minus(keys: seq<Bytes>, key: Bytes): seq<Bytes> {
    if keys == [] then []
    else if keys[0] == key then Minus(keys[1..], key)
    else [keys[0]] + Minus(keys[1..], key)
  }

  /** The distinct keys of a history, the one used last first. */
  function Recent(history: seq<Event>): seq<Bytes> {
    if history == [] then []
    else
      var before, e := Recent(history[..|history| - 1]), history[|history| - 1];
      if e.Allow? then [e.key] + Minus(before, e.key) else before
  }

  /** The time of a key's last use, if it was used. */
  function LastUse(history: seq<Event>, key: Bytes): Option<int> {
    if history == [] then None
    else
      var e := history[|history| - 1];
      if e.Allow? && e.key == key then Some(e.now) else LastUse(history[..|history| - 1], key)
  }

  function Keys(table: seq<Entry>): seq<Bytes> {
    seq(|table|, i requires 0 <= i < |table| => table[i].key)
  }

  predicate NoRepeats(keys: seq<Bytes>) {
    forall i, j | 0 <= i < j < |keys| :: keys[i] != keys[j]
  }

  lemma {:induction false} MinusOf(keys: seq<Bytes>, key: Bytes)
    requires NoRepeats(keys)
    ensures NoRepeats(Minus(keys, key))
    ensures forall k :: k in Minus(keys, key) <==> k in keys && k != key
    ensures key !in keys ==> Minus(keys, key) == keys
  {
    if keys != [] {
      var rest := keys[1..];
      MinusOf(rest, key);
      assert keys == [keys[0]] + rest;
      assert keys[0] !in rest;
      assert forall j | 0 <= j < |Minus(rest, key)| :: Minus(rest, key)[j] in rest;
    }
  }

  lemma {:induction false} MinusAt(keys: seq<Bytes>, i: nat)
    requires NoRepeats(keys) && i < |keys|
    ensures Minus(keys, keys[i]) == keys[..i] + keys[i + 1..]
  {
    var rest := keys[1..];
    if i == 0 {
      assert forall j | 0 <= j < |rest| :: rest[j] == keys[j + 1];
      MinusOf(rest, keys[0]);
    } else {
      MinusAt(rest, i - 1);
      assert keys[..i] + keys[i + 1..] == [keys[0]] + (rest[..i - 1] + rest[i..]);
    }
  }

  /** Recent is what its name says: no key twice, and exactly the keys that were used. */
  lemma {:induction false} RecentKeys(history: seq<Event>)
    ensures NoRepeats(Recent(history))
    ensures forall k :: k in Recent(history) <==> LastUse(history, k).Some?
  {
    if history != [] {
      var before := history[..|history| - 1];
      RecentKeys(before);
      var e := history[|history| - 1];
      if e.Allow? {
        MinusOf(Recent(before), e.key);
      }
    }
  }

  /** One more than the position of a key's last use, or 0. */
  function LastAt(history: seq<Event>, key: Bytes): nat {
    if history == [] then 0
    else
      var e := history[|history| - 1];
      if e.Allow? && e.key == key then |history| else LastAt(history[..|history| - 1], key)
  }

  ghost predicate LatestFirst(keys: seq<Bytes>, history: seq<Event>) {
    forall i, j | 0 <= i < j < |keys| :: LastAt(history, keys[i]) > LastAt(history, keys[j])
  }

  lemma {:induction false} MinusLatestFirst(keys: seq<Bytes>, key: Bytes, history: seq<Event>)
    requires NoRepeats(keys) && LatestFirst(keys, history)
    ensures LatestFirst(Minus(keys, key), history)
  {
    MinusOf(keys, key);
    if key in keys {
      var i :| 0 <= i < |keys| && keys[i] == key;
      MinusAt(keys, i);
    }
  }

  lemma {:induction false} LastAtBounded(history: seq<Event>, key: Bytes)
    ensures LastAt(history, key) <= |history|
  {
    if history != [] {
      LastAtBounded(history[..|history| - 1], key);
    }
  }

  /** And Recent is in order: a key used later comes before one used earlier. */
  lemma {:induction false} RecentOrder(history: seq<Event>)
    ensures LatestFirst(Recent(history), history)
  {
    if history != [] {
      var before, e := history[..|history| - 1], history[|history| - 1];
      var recent := Recent(history);
      RecentOrder(before);
      RecentKeys(before);
      if e.Allow? {
        MinusOf(Recent(before), e.key);
        MinusLatestFirst(Recent(before), e.key, before);
        assert forall i | 0 < i < |recent| :: recent[i] == Minus(Recent(before), e.key)[i - 1] && recent[i] != e.key;
        forall i | 0 < i < |recent| ensures LastAt(history, recent[i]) == LastAt(before, recent[i]) < |history| {
          LastAtBounded(before, recent[i]);
        }
      }
    }
  }

  // ----- the table agrees with the history -----

  lemma {:induction false} MinusPrefix(keys: seq<Bytes>, m: nat, key: Bytes)
    requires NoRepeats(keys) && m <= |keys| && key !in keys[..m]
    ensures keys[..m] <= Minus(keys, key)
  {
    MinusOf(keys, key);
    if key in keys {
      var i :| 0 <= i < |keys| && keys[i] == key;
      assert forall j | 0 <= j < m :: keys[..m][j] == keys[j];
      MinusAt(keys, i);
    }
  }

  lemma {:induction false} PrefixWithout(keys: seq<Bytes>, recent: seq<Bytes>, i: nat)
    requires keys <= recent && i < |keys|
    ensures keys[..i] + keys[i + 1..] <= recent[..i] + recent[i + 1..]
  {
  }

  /** Moving a key to the front of a prefix of the recent keys gives a prefix of the new recent keys. */
  lemma {:induction false} TouchPrefix(
      table: seq<Entry>, recent: seq<Bytes>, key: Bytes, now: int, bucket: nat, cap: int)
    requires NoRepeats(recent) && Keys(table) <= recent
    ensures Keys(Touch(table, key, now, bucket, cap)) <= [key] + Minus(recent, key)
    ensures |table| <= cap && cap >= 1 ==> |Touch(table, key, now, bucket, cap)| <= cap
  {
    hide Position, Minus, NoRepeats;
    var i := Position(table, key);
    var keys := Keys(table);
    var after := Touch(table, key, now, bucket, cap);
    if i < |table| {
      assert keys[i] == key == recent[i];
      MinusAt(recent, i);
      assert Keys(after) == [key] + (keys[..i] + keys[i + 1..]);
      PrefixWithout(keys, recent, i);
    } else {
      var m := Room(|table|, cap);
      assert Keys(after) == [key] + recent[..m];
      assert key !in recent[..m] by {
        assert forall j | 0 <= j < m :: recent[j] == table[j].key;
      }
      MinusPrefix(recent, m, key);
    }
  }

  /**
  After any history of calls and sweeps the table has no key twice, lists a prefix of the keys by recency of use, and
  holds at most `cap` of them.
  */
  lemma {:induction false} TableIsRecent(history: seq<Event>, cap: int, staleAfter: int)
    requires cap >= 1
    ensures var table := Table(history, cap, staleAfter);
            Keys(table) <= Recent(history) && NoRepeats(Keys(table)) && |table| <= cap
  {
    RecentKeys(history);
    if history != [] {
      var before, e := history[..|history| - 1], history[|history| - 1];
      TableIsRecent(before, cap, staleAfter);
      RecentKeys(before);
      var table := Table(before, cap, staleAfter);
      if e.Allow? {
        TouchPrefix(table, Recent(before), e.key, e.now, e.bucket, cap);
      } else {
        assert Keys(Swept(table, e.now, staleAfter)) <= Keys(table);
      }
    }
  }

  ghost predicate NoSweeps(history: seq<Event>) {
    forall i | 0 <= i < |history| :: history[i].Allow?
  }

  /** Without sweeps the table is exactly the `cap` keys used most recently, or all when there are fewer. */
  lemma {:induction false} TableIsLru(history: seq<Event>, cap: int, staleAfter: int)
    requires cap >= 1 && NoSweeps(history)
    ensures Keys(Table(history, cap, staleAfter)) == Recent(history)[..Min(cap, |Recent(history)|)]
  {
    TableIsRecent(history, cap, staleAfter);
    if history != [] {
      var before, e := history[..|history| - 1], history[|history| - 1];
      assert e == history[|history| - 1] && e.Allow?;
      TableIsLru(before, cap, staleAfter);
      TouchSize(Table(before, cap, staleAfter), Recent(before), e.key, e.now, e.bucket, cap) by { RecentKeys(before); }
    }
  }

  lemma {:induction false} TouchSize(table: seq<Entry>, recent: seq<Bytes>, key: Bytes, now: int, bucket: nat, cap: int)
    requires cap >= 1 && NoRepeats(recent) && Keys(table) == recent[..Min(cap, |recent|)]
    ensures |Touch(table, key, now, bucket, cap)| == Min(cap, 1 + |Minus(recent, key)|)
  {
    hide Position, Minus;
    MinusLength(recent, key);
    var i := Position(table, key);
    var keys := Keys(table);
    assert forall j | 0 <= j < |table| :: table[j].key == keys[j] == recent[j];
    if i < |table| {
      assert recent[i] == key;
    } else if key in recent {
      var j :| 0 <= j < |recent| && recent[j] == key;
      assert j >= |table|;
    }
  }

  lemma {:induction false} MinusLength(keys: seq<Bytes>, key: Bytes)
    requires NoRepeats(keys)
    ensures |Minus(keys, key)| == if key in keys then |keys| - 1 else |keys|
  {
    hide NoRepeats;
    MinusOf(keys, key);
    if key in keys {
      var j :| 0 <= j < |keys| && keys[j] == key;
      MinusAt(keys, j);
    }
  }

  // ----- the sweep -----

  /** The clock is read under the lock, so allow sees times that do not go back. The sweep's own time is free. */
  ghost predicate ClockForward(history: seq<Event>) {
    forall i, j | 0 <= i < j < |history| && history[i].Allow? && history[j].Allow? :: history[i].now <= history[j].now
  }

  predicate ByLastUse(table: seq<Entry>) {
    forall i, j | 0 <= i < j < |table| :: table[i].lastSeen >= table[j].lastSeen
  }

  lemma {:induction false} TouchSorted(table: seq<Entry>, key: Bytes, now: int, bucket: nat, cap: int)
    requires ByLastUse(table) && forall i | 0 <= i < |table| :: table[i].lastSeen <= now
    ensures ByLastUse(Touch(table, key, now, bucket, cap))
    ensures forall e | e in Touch(table, key, now, bucket, cap) :: e.lastSeen <= now
  {
    hide Position, ByLastUse;
    var i := Position(table, key);
    if i < |table| {
      SortedWithout(table, i, now);
      SortedFront(table[i].(lastSeen := now), table[..i] + table[i + 1..]);
    } else {
      SortedPrefix(table, Room(|table|, cap), now);
      SortedFront(Entry(key, bucket, now), table[..Room(|table|, cap)]);
    }
  }

  lemma {:induction false} SortedWithout(table: seq<Entry>, i: nat, now: int)
    requires ByLastUse(table) && i < |table| && forall i | 0 <= i < |table| :: table[i].lastSeen <= now
    ensures var rest := table[..i] + table[i + 1..];
            ByLastUse(rest) && forall j | 0 <= j < |rest| :: rest[j].lastSeen <= now
  {
    var rest := table[..i] + table[i + 1..];
    assert forall j | 0 <= j < |rest| :: rest[j] == table[if j < i then j else j + 1];
  }

  lemma {:induction false} SortedPrefix(table: seq<Entry>, m: nat, now: int)
    requires ByLastUse(table) && m <= |table| && forall i | 0 <= i < |table| :: table[i].lastSeen <= now
    ensures ByLastUse(table[..m]) && forall j | 0 <= j < m :: table[..m][j].lastSeen <= now
  {
  }

  lemma {:induction false} SortedFront(e: Entry, rest: seq<Entry>)
    requires ByLastUse(rest) && forall i | 0 <= i < |rest| :: rest[i].lastSeen <= e.lastSeen
    ensures ByLastUse([e] + rest)
    ensures forall x | x in [e] + rest :: x.lastSeen <= e.lastSeen
  {
  }

  /** Every entry carries the time of its key's last use. */
  lemma {:induction false} TableTimes(history: seq<Event>, cap: int, staleAfter: int)
    requires cap >= 1
    ensures forall e | e in Table(history, cap, staleAfter) :: LastUse(history, e.key) == Some(e.lastSeen)
  {
    if history != [] {
      var before, e := history[..|history| - 1], history[|history| - 1];
      TableTimes(before, cap, staleAfter);
      if e.Allow? {
        TableIsRecent(before, cap, staleAfter);
        TouchTimes(Table(before, cap, staleAfter), e.key, e.now, e.bucket, cap);
      }
    }
  }

  lemma {:induction false} TouchTimes(table: seq<Entry>, key: Bytes, now: int, bucket: nat, cap: int)
    requires NoRepeats(Keys(table))
    ensures forall x | x in Touch(table, key, now, bucket, cap) :: if x.key == key then x.lastSeen == now else x in table
  {
    var i := Position(table, key);
    assert forall j | 0 <= j < |table| :: Keys(table)[j] == table[j].key;
  }

  /** The table is sorted by the time of last use. */
  lemma {:induction false} TableSorted(history: seq<Event>, cap: int, staleAfter: int)
    requires ClockForward(history)
    ensures ByLastUse(Table(history, cap, staleAfter))
    ensures forall e | e in Table(history, cap, staleAfter) ::
              exists i :: 0 <= i < |history| && history[i].Allow? && history[i].now == e.lastSeen
  {
    if history != [] {
      var before, e := history[..|history| - 1], history[|history| - 1];
      assert ClockForward(before);
      TableSorted(before, cap, staleAfter);
      var table := Table(before, cap, staleAfter);
      forall x | x in table
        ensures exists i :: 0 <= i < |history| && history[i].Allow? && history[i].now == x.lastSeen
        ensures e.Allow? ==> x.lastSeen <= e.now
      {
        var i :| 0 <= i < |before| && before[i].Allow? && before[i].now == x.lastSeen;
        assert history[i] == before[i];
      }
      if e.Allow? {
        TouchSorted(table, e.key, e.now, e.bucket, cap);
        TouchMembers(table, e.key, e.now, e.bucket, cap);
      }
    }
  }

  lemma {:induction false} TouchMembers(table: seq<Entry>, key: Bytes, now: int, bucket: nat, cap: int)
    ensures forall x | x in Touch(table, key, now, bucket, cap) :: x.lastSeen == now || x in table
  {
  }

  /** Plain filtering: what a sweep is meant to leave, the visitors seen within the threshold. */
  function Fresh(table: seq<Entry>, now: int, staleAfter: int): seq<Entry> {
    if table == [] then []
    else
      var last := table[|table| - 1];
      Fresh(table[..|table| - 1], now, staleAfter) + if now - last.lastSeen <= staleAfter then [last] else []
  }

  lemma {:induction false} AllFresh(table: seq<Entry>, now: int, staleAfter: int)
    requires forall i | 0 <= i < |table| :: !Stale(table[i], now, staleAfter)
    ensures Fresh(table, now, staleAfter) == table
  {
    if table != [] {
      AllFresh(table[..|table| - 1], now, staleAfter);
    }
  }

  /** On a sorted table, stopping at the first fresh entry from the back removes exactly the stale ones. */
  lemma {:induction false} SweepIsFilter(table: seq<Entry>, now: int, staleAfter: int)
    requires ByLastUse(table)
    ensures Swept(table, now, staleAfter) == Fresh(table, now, staleAfter)
  {
    if table != [] {
      var last := table[|table| - 1];
      if Stale(last, now, staleAfter) {
        SweepIsFilter(table[..|table| - 1], now, staleAfter);
      } else {
        AllFresh(table, now, staleAfter);
      }
    }
  }

  /** So after any history a sweep, whatever time its ticker carries, removes exactly the visitors idle too long. */
  lemma {:induction false} SweepExact(history: seq<Event>, cap: int, staleAfter: int, now: int)
    requires ClockForward(history)
    ensures Table(history + [Sweep(now)], cap, staleAfter) == Fresh(Table(history, cap, staleAfter), now, staleAfter)
  {
    TableSorted(history, cap, staleAfter);
    SweepIsFilter(Table(history, cap, staleAfter), now, staleAfter);
    assert (history + [Sweep(now)])[..|history|] == history;
  }

  // ----- the limiter itself -----

  /** The list with element i moved to the front. */
  function Front<T>(s: seq<T>, i: nat): seq<T>
    requires i < |s|
  {
    [s[i]] + (s[..i] + s[i + 1..])
  }

  lemma {:induction false} FrontMoved<T>(s: seq<T>, i: nat)
    requires i < |s|
    ensures |Front(s, i)| == |s|
    ensures forall n | 0 <= n < |s| :: Front(s, i)[n] == s[if n == 0 then i else if n <= i then n - 1 else n]
    ensures forall x :: x in s <==> x in Front(s, i)
  {
    var t := Front(s, i);
    assert forall n | 0 <= n < |s| :: s[n] == t[if n == i then 0 else if n < i then n + 1 else n];
  }

  lemma {:induction false} TouchFound(table: seq<Entry>, i: nat, now: int, bucket: nat, cap: int)
    requires i < |table| && NoRepeats(Keys(table))
    ensures Touch(table, table[i].key, now, bucket, cap) == Front(table, i)[0 := table[i].(lastSeen := now)]
  {
    var p := Position(table, table[i].key);
    assert p == i by {
      assert Keys(table)[i] == table[i].key == Keys(table)[p];
    }
  }

  lemma {:induction false} TouchMissing(table: seq<Entry>, key: Bytes, now: int, bucket: nat, cap: int)
    requires forall i | 0 <= i < |table| :: table[i].key != key
    ensures Touch(table, key, now, bucket, cap) == [Entry(key, bucket, now)] + table[..Room(|table|, cap)]
  {
  }

  /** A known key keeps its bucket, so it does not matter which one a new visitor would have got. */
  lemma {:induction false} KnownKeepsBucket(table: seq<Entry>, key: Bytes, now: int, a: nat, b: nat, cap: int)
    requires Position(table, key) < |table|
    ensures Touch(table, key, now, a, cap) == Touch(table, key, now, b, cap)
  {
  }

  /** As many distinct keys as the set has members, all of them members: that is all of the set. */
  lemma {:induction false} Covered(keys: seq<Bytes>, all: set<Bytes>)
    requires NoRepeats(keys) && |keys| == |all| && forall i | 0 <= i < |keys| :: keys[i] in all
    ensures forall k | k in all :: k in keys
  {
    if keys != [] {
      var n := |keys| - 1;
      Covered(keys[..n], all - {keys[n]});
      assert forall k | k in all :: k in keys[..n] || k == keys[n];
    }
  }

  class Visitor {
    const key: Bytes
    const bucket: nat
    var lastSeen: int

    constructor (key: Bytes, bucket: nat, now: int)
      ensures this.key == key && this.bucket == bucket && lastSeen == now
    {
      this.key, this.bucket, this.lastSeen := key, bucket, now;
    }
  }

  /** Map and list hold the same visitors, each once, and `table` is what they say. */
  ghost predicate Agree(visitors: map<Bytes, Visitor>, order: seq<Visitor>, table: seq<Entry>)
    reads order
  {
    && (forall i, j | 0 <= i < j < |order| :: order[i].key != order[j].key)
    && (forall i | 0 <= i < |order| :: order[i].key in visitors && visitors[order[i].key] == order[i])
    && |visitors| == |order| == |table|
    && (forall i | 0 <= i < |order| :: table[i] == Entry(order[i].key, order[i].bucket, order[i].lastSeen))
  }

  lemma {:induction false} AgreeMoved(visitors: map<Bytes, Visitor>, order: seq<Visitor>, table: seq<Entry>, i: nat)
    requires Agree(visitors, order, table) && i < |order|
    ensures Agree(visitors, Front(order, i), Front(table, i))
  {
    hide Front;
    FrontMoved(order, i);
    FrontMoved(table, i);
  }

  lemma {:induction false} AgreePushed(
      visitors: map<Bytes, Visitor>, order: seq<Visitor>, table: seq<Entry>, v: Visitor)
    requires Agree(visitors, order, table) && v.key !in visitors
    ensures Agree(visitors[v.key := v], [v] + order, [Entry(v.key, v.bucket, v.lastSeen)] + table)
  {
    var more := visitors[v.key := v];
    assert more.Keys == visitors.Keys + {v.key};
  }

  lemma {:induction false} KeysOfAgree(visitors: map<Bytes, Visitor>, order: seq<Visitor>, table: seq<Entry>)
    requires Agree(visitors, order, table)
    ensures |table| == |order| && NoRepeats(Keys(table)) && forall i | 0 <= i < |table| :: table[i].key == order[i].key
  {
  }

  class Limiter {
    const maxVisitors: int
    const staleAfter: int
    var visitors: map<Bytes, Visitor>
    var order: seq<Visitor>
    ghost var table: seq<Entry>
    ghost var history: seq<Event>

    ghost predicate Linked()
      reads this, order
    {
      Agree(visitors, order, table)
    }

    ghost predicate Valid()
      reads this, order
    {
      Linked() && table == Table(history, maxVisitors, staleAfter)
    }

    /** So the map has the list's keys and no others. */
    lemma Listed(key: Bytes)
      requires Linked() && key in visitors
      ensures visitors[key] in order && visitors[key].key == key && Position(table, key) < |table|
    {
      var keys := Keys(table);
      assert forall i | 0 <= i < |keys| :: keys[i] == order[i].key;
      Covered(keys, visitors.Keys);
      var i :| 0 <= i < |keys| && keys[i] == key;
      assert order[i].key == key;
    }

    constructor (maxVisitors: int, staleAfter: int)
      ensures Valid() && history == []
      ensures this.maxVisitors == maxVisitors && this.staleAfter == staleAfter
    {
      this.maxVisitors, this.staleAfter := maxVisitors, staleAfter;
      visitors, order, table, history := map[], [], [], [];
    }

    /** Takes the least recently used visitor out of the list and the map. */
    method RemoveOldest()
      requires Linked() && order != []
      modifies this`visitors, this`order, this`table
      ensures Linked() && order == old(order)[..|old(order)| - 1] && table == old(table)[..|old(table)| - 1]
      ensures visitors.Keys == old(visitors).Keys - {old(order)[|old(order)| - 1].key}
    {
      var oldest := order[|order| - 1];
      assert oldest.key in visitors;
      ghost var keys := visitors.Keys;
      visitors := visitors - {oldest.key};
      assert visitors.Keys == keys - {oldest.key};
      order := order[..|order| - 1];
      table := table[..|table| - 1];
    }

    method MoveToFront(v: Visitor, now: int)
      requires Linked() && v in order
      modifies this`order, this`table, v
      ensures Linked() && order != [] && order[0] == v
      ensures table == Touch(old(table), v.key, now, v.bucket, maxVisitors)
    {
      hide Agree, Touch;
      var i :| 0 <= i < |order| && order[i] == v;
      KeysOfAgree(visitors, order, table);
      TouchFound(table, i, now, v.bucket, maxVisitors);
      AgreeMoved(visitors, order, table, i);
      ghost var moved := table[i];
      order := Front(order, i);
      table := Front(table, i);
      SetLastSeen(v, now);
      assert table == Front(old(table), i)[0 := moved.(lastSeen := now)];
    }

    method SetLastSeen(v: Visitor, now: int)
      requires Linked() && order != [] && order[0] == v
      modifies this`table, v
      ensures Linked() && table == old(table)[0 := old(table)[0].(lastSeen := now)]
    {
      v.lastSeen := now;
      table := table[0 := table[0].(lastSeen := now)];
    }

    method MakeRoom(key: Bytes)
      requires Linked() && key !in visitors
      modifies this`visitors, this`order, this`table
      ensures Linked() && key !in visitors && order <= old(order)
      ensures table == old(table)[..Room(|old(table)|, maxVisitors)]
    {
      while |visitors| >= maxVisitors && |order| > 0
        invariant Linked() && key !in visitors
        invariant order <= old(order) && table <= old(table) && Room(|old(order)|, maxVisitors) <= |order|
        decreases |order|
      {
        RemoveOldest();
      }
    }

    method PushFront(v: Visitor)
      requires Linked() && v.key !in visitors
      modifies this`visitors, this`order, this`table
      ensures Linked() && order == [v] + old(order)
      ensures table == [Entry(v.key, v.bucket, v.lastSeen)] + old(table)
    {
      hide Agree;
      AgreePushed(visitors, order, table, v);
      order := [v] + order;
      table := [Entry(v.key, v.bucket, v.lastSeen)] + table;
      visitors := visitors[v.key := v];
    }

    method Insert(key: Bytes, now: int, newBucket: nat)
      requires Linked() && key !in visitors
      modifies this`visitors, this`order, this`table
      ensures Linked() && order != [] && order[0].key == key && order[0].bucket == newBucket
      ensures table == Touch(old(table), key, now, newBucket, maxVisitors)
    {
      MakeRoom(key);
      var v := new Visitor(key, newBucket, now);
      PushFront(v);
      TouchMissing(old(table), key, now, newBucket, maxVisitors);
    }

    /** The table part of allow, with the clock read under the lock. */
    method Allow(key: Bytes, now: int, newBucket: nat) returns (bucket: nat)
      requires Valid()
      modifies this, order
      ensures Valid() && history == old(history) + [Event.Allow(key, now, newBucket)]
      ensures order != [] && order[0].key == key && order[0].bucket == bucket
      ensures bucket == if key in old(visitors) then old(visitors)[key].bucket else newBucket
    {
      hide Table, Touch, Agree, Position;
      if key in visitors {
        var v := visitors[key];
        Listed(key);
        KnownKeepsBucket(table, key, now, v.bucket, newBucket, maxVisitors);
        MoveToFront(v, now);
        bucket := v.bucket;
      } else {
        Insert(key, now, newBucket);
        bucket := newBucket;
      }
      TableStep(history, Event.Allow(key, now, newBucket), maxVisitors, staleAfter);
      history := history + [Event.Allow(key, now, newBucket)];
    }

    /** One tick of evictStaleLoop. */
    method EvictStale(now: int)
      requires Valid()
      modifies this
      ensures Valid() && history == old(history) + [Sweep(now)]
    {
      hide Table;
      while |order| > 0
        invariant Linked() && order <= old(order) && history == old(history)
        invariant Swept(table, now, staleAfter) == Swept(old(table), now, staleAfter)
        decreases |order|
      {
        var v := order[|order| - 1];
        if now - v.lastSeen <= staleAfter {
          break;
        }
        RemoveOldest();
      }
      TableStep(history, Sweep(now), maxVisitors, staleAfter);
      history := history + [Sweep(now)];
    }
  }

  // ----- the client header -----

  /**
  The last entry that is not blank, without the white space around it, or nothing when all are blank. What stands before
  it in the header plays no part.
  */
  method LastHeaderValue(v: Bytes) returns (value: Bytes)
    ensures value == [] <==> forall i | 0 <= i < |Split(v, ',')| :: White(Split(v, ',')[i])
    ensures value != [] ==> exists i :: 0 <= i < |Split(v, ',')| && LastNonBlank(Split(v, ','), i, value)
  {
    hide TrimSpace, Split, White, Padded;
    var parts := Split(v, ',');
    var i := |parts| - 1;
    while i >= 0
      invariant -1 <= i < |parts|
      invariant forall j | i < j < |parts| :: White(parts[j])
    {
      var p := TrimSpace(parts[i]);
      BlankIff(parts[i]);
      TrimSpaceIff(parts[i], p);
      if p != "" {
        assert LastNonBlank(parts, i, p);
        return p;
      }
      i := i - 1;
    }
    return "";
  }

  /** Entry i is `value` with white space around it, and every later entry is white. */
  ghost predicate LastNonBlank(parts: seq<Bytes>, i: nat, value: Bytes)
    requires i < |parts|
  {
    Padded(parts[i], value) && forall j | i < j < |parts| :: White(parts[j])
  }

  /** An entry after the last comma is the one that counts, with or without the usual space before it. */
  lemma {:induction false} LastEntryWins(before: Bytes, a: Bytes, entry: Bytes, b: Bytes)
    requires White(a) && White(b) && ',' !in entry && ',' !in a && ',' !in b
    requires Trimmed(entry) && entry != []
    ensures var parts := Split(before + [','] + (a + entry + b), ',');
            LastNonBlank(parts, |parts| - 1, entry) && !White(parts[|parts| - 1])
  {
    hide Split, White, Trimmed;
    var last := a + entry + b;
    SplitConcat(before, ',', last);
    SplitNone(last, ',');
    BlankIff(last);
    TrimSpaceIff(last, entry);
  }
}
