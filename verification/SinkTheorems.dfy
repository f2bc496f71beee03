/** What the forwarding sink promises, over every schedule of its calls, workers and Shutdown. */
module SinkTheorems {
  import opened GoStrings
  import opened Ints
  import opened Sums
  import opened Sink
  import opened SinkShard
  import opened SinkInvariant

  // ----- no accepted payload is lost or settled twice -----

  /** How often an item is in a shard: settled, in the worker's hands, or queued. */
  ghost function Places(sh: Shard, item: Item): nat {
    multiset(SettledItems(sh.log))[item] + multiset(Pending(sh.worker))[item] + multiset(sh.queue)[item]
  }

  lemma {:induction false} DistinctCount(items: seq<Item>, x: Item)
    requires Distinct(items)
    ensures multiset(items)[x] == if x in items then 1 else 0
  {
    if items != [] {
      var n := |items| - 1;
      assert items == items[..n] + [items[n]];
      DistinctCount(items[..n], x);
    }
  }

  /**
  In every reachable state an item whose call decided to return nil for it is in exactly one place of its own shard,
  and nowhere else. Any other item is nowhere.
  */
  lemma {:induction false} ExactlyOnePlace(cfg: Config, t: State, i: nat, k: nat)
    requires Reachable(cfg, t)
    requires i < |t.calls| && k < cfg.shards
    ensures var c := t.calls[i];
            Places(t.shards[k], c.item) == if c.Settled(Queued) && cfg.Route(c.item.owner) == k then 1 else 0
  {
    hide LockInv, ShardsInv, BytesInv, MetricsInv, TallyOk, InOrder;
    InvReachable(cfg, t);
    ShardInvReachable(cfg, t, k);
    var sh, item := t.shards[k], t.calls[i].item;
    DistinctCount(sh.accepted, item);
    if item in sh.accepted {
      var j :| 0 <= j < |sh.accepted| && sh.accepted[j] == item;
      assert AcceptedOk(cfg, t.calls, k, sh.accepted[j]);
    }
  }

  /** When Shutdown returns, every worker is done, every queue is empty, all accepted items are settled in the order
      they were accepted, every byte counter is zero and no call is left between its check and its send. */
  lemma {:induction false} ShutdownSettlesEverything(cfg: Config, t: State, k: nat)
    requires Reachable(cfg, t) && t.shutdown.ShutDown?
    requires k < cfg.shards
    ensures var sh := t.shards[k];
            && sh.worker.Done? && sh.queue == [] && sh.bytes == 0
            && SettledItems(sh.log) == sh.accepted
            && forall i | 0 <= i < |t.calls| :: !t.calls[i].Sending()
  {
    InvReachable(cfg, t);
    var sh := t.shards[k];
    assert ShardInv(sh, t.stopping, t.cancelled) && BytesOk(cfg, t, k);
    forall i | 0 <= i < |t.calls| ensures Reserving(cfg, k, SizeOf())(t.calls[i]) == 0 {
      assert !t.calls[i].Sending();
    }
    SumAllZero(t.calls, Reserving(cfg, k, SizeOf()));
  }

  /** A call that did not queue leaves no trace: its payload is never taken, attempted or settled. */
  lemma {:induction false} RefusedNeverTouched(cfg: Config, t: State, i: nat, k: nat, j: nat)
    requires Reachable(cfg, t)
    requires i < |t.calls| && !t.calls[i].Settled(Queued)
    requires k < cfg.shards && j < |t.shards[k].log|
    ensures t.shards[k].log[j].item.call != i
  {
    InvReachable(cfg, t);
    var sh := t.shards[k];
    assert ShardInv(sh, t.stopping, t.cancelled);
    InOrderAt(sh.log, sh.accepted, j);
    assert AcceptedOk(cfg, t.calls, k, sh.accepted[|SettledItems(sh.log[..j])|]);
  }

  // ----- order -----

  lemma {:induction false} InOrderAt(log: seq<Event>, accepted: seq<Item>, j: nat)
    requires InOrder(log, accepted) && j < |log|
    ensures |SettledItems(log[..j])| < |accepted|
    ensures log[j].item == accepted[|SettledItems(log[..j])|]
  {
    var n := |log| - 1;
    if j < n {
      InOrderAt(log[..n], accepted, j);
      assert log[..n][..j] == log[..j];
    }
  }

  lemma {:induction false} SettledGrow(log: seq<Event>, i: nat, j: nat)
    requires i <= j <= |log|
    ensures SettledItems(log[..i]) <= SettledItems(log[..j])
    decreases j
  {
    if i < j {
      SettledGrow(log, i, j - 1);
      assert log[..j] == log[..j - 1] + [log[j - 1]];
      LogPush(log[..j - 1], log[j - 1]);
    }
  }

  /**
  On every shard, at every moment, the settled items are a prefix of the accepted ones, and each take, attempt and
  settlement concerned the oldest item not settled before it. In particular no attempt for a later item started before
  the earlier one was settled, in deliver, in drain and across the switch between them.
  */
  lemma {:induction false} EventsFollowAcceptance(cfg: Config, t: State, k: nat, j: nat)
    requires Reachable(cfg, t)
    requires k < cfg.shards && j < |t.shards[k].log|
    ensures var sh := t.shards[k];
            var done := |SettledItems(sh.log[..j])|;
            && SettledItems(sh.log) <= sh.accepted
            && done < |sh.accepted| && sh.log[j].item == sh.accepted[done]
  {
    hide TallyOk;
    ShardInvReachable(cfg, t, k);
    InOrderAt(t.shards[k].log, t.shards[k].accepted, j);
  }

  /** The item of a call that queued, at its position in its shard. */
  lemma {:induction false} AcceptedAt(cfg: Config, t: State, x: nat) returns (a: nat)
    requires Reachable(cfg, t) && x < |t.calls| && t.calls[x].Settled(Queued)
    ensures var sh := t.shards[cfg.Route(t.calls[x].item.owner)];
            a < |sh.accepted| && sh.accepted[a] == t.calls[x].item
  {
    InvReachable(cfg, t);
    var sh := t.shards[cfg.Route(t.calls[x].item.owner)];
    assert t.calls[x].item in sh.accepted;
    a :| 0 <= a < |sh.accepted| && sh.accepted[a] == t.calls[x].item;
  }

  /** Everything that happens to the item accepted at `a` happens before anything happens to the one at `b`. */
  ghost predicate Before(sh: Shard, a: nat, b: nat)
    requires a < |sh.accepted| && b < |sh.accepted|
  {
    forall i, j | 0 <= i < |sh.log| && 0 <= j < |sh.log| ::
      sh.log[i].item == sh.accepted[a] && sh.log[j].item == sh.accepted[b] ==>
      i < j && sh.accepted[a] in SettledItems(sh.log[..j])
  }

  lemma {:induction false} ShardOrder(cfg: Config, t: State, k: nat, a: nat, b: nat)
    requires Reachable(cfg, t) && k < cfg.shards && a < b < |t.shards[k].accepted|
    ensures Before(t.shards[k], a, b)
  {
    hide TallyOk, InOrder, Distinct, SettledItems, WorkerOk, LateOk, Before;
    ShardInvReachable(cfg, t, k);
    SettledIsPrefix(t.shards[k], t.stopping, t.cancelled);
    OrderIn(t.shards[k], a, b);
  }

  lemma {:induction false} SettledIsPrefix(sh: Shard, stopping: bool, cancelled: bool)
    requires ShardInv(sh, stopping, cancelled)
    ensures SettledItems(sh.log) <= sh.accepted
  {
    hide TallyOk, InOrder, Distinct, SettledItems, WorkerOk, LateOk;
  }

  lemma {:induction false} OrderIn(sh: Shard, a: nat, b: nat)
    requires InOrder(sh.log, sh.accepted) && Distinct(sh.accepted) && SettledItems(sh.log) <= sh.accepted
    requires a < b < |sh.accepted|
    ensures Before(sh, a, b)
  {
    hide InOrder, Distinct, SettledItems;
    forall i, j | 0 <= i < |sh.log| && 0 <= j < |sh.log|
                    && sh.log[i].item == sh.accepted[a] && sh.log[j].item == sh.accepted[b]
      ensures i < j && sh.accepted[a] in SettledItems(sh.log[..j])
    {
      OlderFirst(sh, a, b, i, j);
    }
  }

  /**
  Payloads of one service instance are accepted on one shard, and there everything that happens to the one accepted first
  happens before anything happens to the other. The instance is read off the resource without the run ID and without
  surrounding space (ShardKey.KeyOfResource), so the order survives a restart.
  */
  lemma {:induction false} InstanceOrder(cfg: Config, t: State, x: nat, y: nat) returns (a: nat, b: nat)
    requires Reachable(cfg, t) && x < |t.calls| && y < |t.calls|
    requires t.calls[x].Settled(Queued) && t.calls[y].Settled(Queued)
    requires t.calls[x].item.owner == t.calls[y].item.owner
    ensures var sh := t.shards[cfg.Route(t.calls[x].item.owner)];
            && a < |sh.accepted| && sh.accepted[a] == t.calls[x].item
            && b < |sh.accepted| && sh.accepted[b] == t.calls[y].item
            && (a < b ==> Before(sh, a, b))
  {
    hide Before;
    a := AcceptedAt(cfg, t, x);
    b := AcceptedAt(cfg, t, y);
    if a < b {
      ShardOrder(cfg, t, cfg.Route(t.calls[x].item.owner), a, b);
    }
  }

  /** Nothing accepted is taken back, and nothing is accepted before it. */
  lemma {:induction false} AcceptedGrows(cfg: Config, s: State, more: seq<Action>, k: nat)
    requires Sized(cfg, s) && CanRun(cfg, s, more) && k < |s.shards|
    ensures s.shards[k].accepted <= After(cfg, s, more).shards[k].accepted
    ensures forall i | 0 <= i < |s.calls| :: After(cfg, s, more).calls[i].item == s.calls[i].item
    decreases |more|
  {
    hide Apply, Enabled;
    if more != [] {
      AcceptedGrowsByStep(cfg, s, more[0], k);
      AcceptedGrows(cfg, Apply(cfg, s, more[0]), more[1..], k);
    }
  }

  lemma {:induction false} AcceptedGrowsByStep(cfg: Config, s: State, a: Action, k: nat)
    requires Sized(cfg, s) && Enabled(cfg, s, a) && k < |s.shards|
    ensures s.shards[k].accepted <= Apply(cfg, s, a).shards[k].accepted
    ensures forall i | 0 <= i < |s.calls| :: Apply(cfg, s, a).calls[i].item == s.calls[i].item
  {
    hide CallNext, WorkerNext, WorkerEnabled;
    match a
    case CallStep(i) => CallShape(cfg, s.calls[i], s.shards[cfg.Route(s.calls[i].item.owner)], s.closed);
    case WorkerStep(n, act) => WorkerShape(s.shards[n], act, s.stopping, s.cancelled);
    case ShutdownStep(_) =>
  }

  /** An item is in its shard's history only once its call has queued it. */
  lemma {:induction false} NotYetAccepted(cfg: Config, t: State, y: nat, k: nat, j: nat)
    requires Reachable(cfg, t) && y < |t.calls| && !t.calls[y].Settled(Queued)
    requires k < cfg.shards && j < |t.shards[k].accepted|
    ensures t.shards[k].accepted[j] != t.calls[y].item
  {
    hide LockInv, ShardsInv, BytesInv, MetricsInv;
    InvReachable(cfg, t);
    assert AcceptedOk(cfg, t.calls, k, t.shards[k].accepted[j]);
  }

  /**
  What an agent relies on that sends its next payload after the last one was taken: if x has queued at a moment at which
  y, of the same instance, has not, then at every later moment everything that happened to x's payload happened before
  anything happened to y's.
  */
  lemma {:induction false} QueuedFirstHandledFirst(cfg: Config, t: State, more: seq<Action>, x: nat, y: nat)
    returns (a: nat, b: nat)
    requires Reachable(cfg, t) && CanRun(cfg, t, more) && x < |t.calls| && y < |t.calls|
    requires t.calls[x].Settled(Queued) && !t.calls[y].Settled(Queued) && After(cfg, t, more).calls[y].Settled(Queued)
    requires t.calls[x].item.owner == t.calls[y].item.owner
    ensures var sh := After(cfg, t, more).shards[cfg.Route(t.calls[x].item.owner)];
            && a < b < |sh.accepted| && sh.accepted[a] == t.calls[x].item && sh.accepted[b] == t.calls[y].item
            && Before(sh, a, b)
  {
    hide Before, CanRun, After;
    var u, k := After(cfg, t, more), cfg.Route(t.calls[x].item.owner);
    StaysReachable(cfg, t, more);
    AcceptedGrows(cfg, t, more, k);
    a := AcceptedAt(cfg, t, x);
    b := AcceptedAt(cfg, u, y);
    if b < |t.shards[k].accepted| {
      NotYetAccepted(cfg, t, y, k, b);
    }
    ShardOrder(cfg, u, k, a, b);
  }

  lemma {:induction false} OlderFirst(sh: Shard, a: nat, b: nat, i: nat, j: nat)
    requires InOrder(sh.log, sh.accepted) && Distinct(sh.accepted) && SettledItems(sh.log) <= sh.accepted
    requires a < b < |sh.accepted| && i < |sh.log| && j < |sh.log|
    requires sh.log[i].item == sh.accepted[a] && sh.log[j].item == sh.accepted[b]
    ensures i < j && sh.accepted[a] in SettledItems(sh.log[..j])
  {
    InOrderAt(sh.log, sh.accepted, i);
    InOrderAt(sh.log, sh.accepted, j);
    assert |SettledItems(sh.log[..i])| == a && |SettledItems(sh.log[..j])| == b;
    if j <= i {
      SettledGrow(sh.log, j, i);
      assert false;
    }
    assert sh.log[..|sh.log|] == sh.log;
    SettledGrow(sh.log, j, |sh.log|);
    assert SettledItems(sh.log[..j])[a] == sh.accepted[a];
  }

  // ----- bytes -----

  /** Shard k holds x: reserved by a call that has not sent it, queued, or with the worker. */
  ghost predicate Holds(cfg: Config, s: State, k: nat, x: Item)
    requires Sized(cfg, s) && k < |s.shards|
  {
    || (exists i :: 0 <= i < |s.calls| && s.calls[i].Reserving()
                      && cfg.Route(s.calls[i].item.owner) == k && s.calls[i].item == x)
    || x in s.shards[k].queue
    || (s.shards[k].worker.Holding? && s.shards[k].worker.item == x)
  }

  /** A sum with a single non-zero term is that term. */
  lemma {:induction false} SumSingle<T>(s: seq<T>, f: T -> int, g: T -> int)
    requires forall i | 0 <= i < |s| :: 0 <= g(s[i]) <= 1 && (g(s[i]) == 0 ==> f(s[i]) == 0)
    requires Sum(s, g) == 1
    ensures exists i :: 0 <= i < |s| && g(s[i]) == 1 && f(s[i]) == Sum(s, f)
  {
    var n := |s| - 1;
    if g(s[n]) == 0 {
      SumSingle(s[..n], f, g);
      var i :| 0 <= i < n && g(s[..n][i]) == 1 && f(s[..n][i]) == Sum(s[..n], f);
      assert s[i] == s[..n][i];
    } else {
      SumNonNegative(s[..n], g);
      SumAllZero(s[..n], f);
      assert g(s[n]) == 1;
    }
  }

  lemma {:induction false} SingleHeld(cfg: Config, s: State, k: nat)
    requires Sized(cfg, s) && k < |s.shards| && Load(cfg, s, k, NonEmpty()) == 1
    ensures exists x :: Holds(cfg, s, k, x) && |x.body| == Load(cfg, s, k, SizeOf())
  {
    var queue, worker := s.shards[k].queue, s.shards[k].worker;
    var g := Reserving(cfg, k, NonEmpty());
    SumNonNegative(s.calls, g);
    SumNonNegative(queue, NonEmpty());
    if Sum(s.calls, g) == 1 {
      QueueEmpty(queue);
      var x := SingleReserved(cfg, s, k);
    } else {
      SumAllZero(s.calls, Reserving(cfg, k, SizeOf()));
      if Sum(queue, NonEmpty()) == 1 {
        var x := SingleQueued(cfg, s, k);
      } else {
        QueueEmpty(queue);
        assert Holds(cfg, s, k, worker.item);
      }
    }
  }

  lemma {:induction false} QueueEmpty(queue: seq<Item>)
    requires Sum(queue, NonEmpty()) == 0
    ensures Sum(queue, SizeOf()) == 0
  {
    SumNonNegative(queue, NonEmpty());
    SumAllZero(queue, SizeOf());
  }

  lemma {:induction false} SingleReserved(cfg: Config, s: State, k: nat) returns (x: Item)
    requires Sized(cfg, s) && k < |s.shards| && Sum(s.calls, Reserving(cfg, k, NonEmpty())) == 1
    ensures Holds(cfg, s, k, x) && |x.body| == Sum(s.calls, Reserving(cfg, k, SizeOf()))
  {
    var f, g := Reserving(cfg, k, SizeOf()), Reserving(cfg, k, NonEmpty());
    SumSingle(s.calls, f, g);
    var i :| 0 <= i < |s.calls| && g(s.calls[i]) == 1 && f(s.calls[i]) == Sum(s.calls, f);
    x := s.calls[i].item;
  }

  lemma {:induction false} SingleQueued(cfg: Config, s: State, k: nat) returns (x: Item)
    requires Sized(cfg, s) && k < |s.shards| && Sum(s.shards[k].queue, NonEmpty()) == 1
    ensures Holds(cfg, s, k, x) && |x.body| == Sum(s.shards[k].queue, SizeOf())
  {
    var queue := s.shards[k].queue;
    SumSingle(queue, SizeOf(), NonEmpty());
    var i :| 0 <= i < |queue| && NonEmpty()(queue[i]) == 1 && SizeOf()(queue[i]) == Sum(queue, SizeOf());
    x := queue[i];
  }

  /**
  A shard's counter is always the size of all it holds: reserved and not sent, queued, with the worker, settled and not
  yet released. When it exceeds the limit, exactly one held item is not empty, and its size is the whole counter.
  */
  lemma {:induction false} BytesAccounted(cfg: Config, t: State, k: nat)
    requires Reachable(cfg, t) && k < cfg.shards
    ensures var bytes := t.shards[k].bytes;
            && bytes == Load(cfg, t, k, SizeOf()) && 0 <= bytes
            && (bytes > cfg.queueBytes ==>
                  && Load(cfg, t, k, NonEmpty()) == 1
                  && exists x :: Holds(cfg, t, k, x) && |x.body| == bytes)
  {
    InvReachable(cfg, t);
    assert BytesOk(cfg, t, k);
    LoadEmpty(cfg, t, k);
    if t.shards[k].bytes > cfg.queueBytes {
      SingleHeld(cfg, t, k);
    }
  }

  lemma {:induction false} HeldIsACallsItem(cfg: Config, t: State, k: nat, x: Item)
    requires Inv(cfg, t) && k < |t.shards| && Holds(cfg, t, k, x)
    ensures exists i :: 0 <= i < |t.calls| && t.calls[i].item == x
  {
    var sh := t.shards[k];
    assert ShardInv(sh, t.stopping, t.cancelled);
    if x in sh.accepted {
      var j :| 0 <= j < |sh.accepted| && sh.accepted[j] == x;
      assert AcceptedOk(cfg, t.calls, k, sh.accepted[j]);
    }
  }

  ghost function ByteCount(): Shard -> int { (sh: Shard) => sh.bytes }
  ghost function One(): Shard -> int { (sh: Shard) => 1 }

  /** Held bodies never take more than the shards times the larger of the limit and the largest payload. */
  lemma {:induction false} MemoryBound(cfg: Config, t: State, largest: nat)
    requires Reachable(cfg, t)
    requires forall i | 0 <= i < |t.calls| :: |t.calls[i].item.body| <= largest
    ensures Sum(t.shards, ByteCount()) <= Max(cfg.queueBytes, largest) * cfg.shards
  {
    hide Inv, Load, Holds;
    InvReachable(cfg, t);
    var bound := Max(cfg.queueBytes, largest);
    forall k | 0 <= k < |t.shards| ensures ByteCount()(t.shards[k]) <= bound * One()(t.shards[k]) {
      BytesAccounted(cfg, t, k);
      if t.shards[k].bytes > cfg.queueBytes {
        var x :| Holds(cfg, t, k, x) && |x.body| == t.shards[k].bytes;
        HeldIsACallsItem(cfg, t, k, x);
      }
    }
    SumBound(t.shards, ByteCount(), bound, One());
    SumOnes(t.shards);
  }

  lemma {:induction false} SumOnes(shards: seq<Shard>)
    ensures Sum(shards, One()) == |shards|
  {
    if shards != [] {
      SumOnes(shards[..|shards| - 1]);
    }
  }

  // ----- counters -----

  /** Calls that decided to return nil, under one label. */
  ghost function NilAs(l: Bytes): Call -> int {
    (c: Call) => IsNil(l, c)
  }

  ghost function IsNil(l: Bytes, c: Call): int {
    if c.item.Label() == l && (c.Settled(Queued) || c.Settled(MarshalDropped)) then 1 else 0
  }

  ghost function FailedAs(l: Bytes): Call -> int {
    (c: Call) => IsFailed(l, c)
  }

  ghost function IsFailed(l: Bytes, c: Call): int {
    if c.item.Label() == l && (c.Settled(Failed(ShuttingDown)) || c.Settled(Failed(QueueFull))) then 1 else 0
  }

  /** ForwardDelivered plus ForwardDropped over all reasons, under one label. */
  ghost function Handled(f: Metric -> int, l: Bytes): int {
    f(Delivered(l)) + f(Dropped(l, Marshal)) + f(Dropped(l, Permanent)) + f(Dropped(l, RetryExhausted))
    + f(Dropped(l, ShutdownDeadline)) + f(Dropped(l, ShutdownAttemptFailed))
  }

  ghost function LogCount(log: seq<Event>): Metric -> int { (m: Metric) => Sum(log, EventAs(m)) }
  ghost function ShardsCount(shards: seq<Shard>): Metric -> int { (m: Metric) => Sum(shards, SettledAs(m)) }
  ghost function Counter(s: State): Metric -> int { (m: Metric) => s.metrics[m] }

  lemma {:induction false} SettledByLabel(log: seq<Event>, l: Bytes)
    ensures Sum(SettledItems(log), Labelled(l)) == Handled(LogCount(log), l)
  {
    if log != [] {
      var before, e := log[..|log| - 1], log[|log| - 1];
      SettledByLabel(before, l);
      assert log == before + [e];
      LogPush(before, e);
      OneSettlement(e, l);
      assert forall m :: LogCount(log)(m) == LogCount(before)(m) + EventCount(e)(m);
      if e.Settle? {
        SumPush(SettledItems(before), e.item, Labelled(l));
      } else {
        assert SettledItems(log) == SettledItems(before);
      }
    }
  }

  ghost function EventCount(e: Event): Metric -> int { (m: Metric) => Settles(m, e) }

  /** A settlement is counted under exactly one series of its label. */
  lemma {:induction false} OneSettlement(e: Event, l: Bytes)
    ensures Handled(EventCount(e), l) == if e.Settle? && e.item.Label() == l then 1 else 0
  {
    if e.Settle? && e.outcome.Drop? {
      match e.outcome.reason
      case Marshal => case Permanent => case RetryExhausted => case ShutdownDeadline => case ShutdownAttemptFailed =>
    }
  }

  lemma {:induction false} AcceptedByLabel(shards: seq<Shard>, l: Bytes)
    requires forall k | 0 <= k < |shards| :: shards[k].accepted == SettledItems(shards[k].log)
    ensures Sum(shards, AcceptedAs(l)) == Handled(ShardsCount(shards), l)
  {
    if shards != [] {
      var n := |shards| - 1;
      AcceptedByLabel(shards[..n], l);
      SettledByLabel(shards[n].log, l);
    }
  }

  /** Only a marshal failure is counted as dropped by a call itself. */
  lemma {:induction false} CallsDropOnlyMarshal(calls: seq<Call>, l: Bytes)
    ensures Sum(calls, CallAs(Delivered(l))) == 0
    ensures forall r: DropReason | r != Marshal :: Sum(calls, CallAs(Dropped(l, r))) == 0
    ensures Sum(calls, NilAs(l)) == Sum(calls, QueuedAs(l)) + Sum(calls, CallAs(Dropped(l, Marshal)))
    ensures Sum(calls, FailedAs(l)) ==
            Sum(calls, CallAs(Refused(l, ShuttingDown))) + Sum(calls, CallAs(Refused(l, QueueFull)))
  {
    SumAllZero(calls, CallAs(Delivered(l)));
    forall r: DropReason | r != Marshal ensures Sum(calls, CallAs(Dropped(l, r))) == 0 {
      SumAllZero(calls, CallAs(Dropped(l, r)));
    }
    SumAdd(calls, QueuedAs(l), CallAs(Dropped(l, Marshal)), NilAs(l));
    SumAdd(calls, CallAs(Refused(l, ShuttingDown)), CallAs(Refused(l, QueueFull)), FailedAs(l));
  }

  /** At any moment the refused counter of a label is the number of its calls that decided to return an error. */
  lemma {:induction false} RefusedCounted(cfg: Config, t: State, l: Bytes)
    requires Reachable(cfg, t)
    ensures Sum(t.calls, FailedAs(l)) == t.metrics[Refused(l, ShuttingDown)] + t.metrics[Refused(l, QueueFull)]
  {
    hide LockInv, LinkInv, ShardsInv, BytesInv, Reachable;
    InvReachable(cfg, t);
    CallsDropOnlyMarshal(t.calls, l);
    assert MetricOk(t, Refused(l, ShuttingDown)) && MetricOk(t, Refused(l, QueueFull));
    SumAllZero(t.shards, SettledAs(Refused(l, ShuttingDown))) by { NeverRefusedByWorker(t.shards, l, ShuttingDown); }
    SumAllZero(t.shards, SettledAs(Refused(l, QueueFull))) by { NeverRefusedByWorker(t.shards, l, QueueFull); }
  }

  lemma {:induction false} NeverRefusedByWorker(shards: seq<Shard>, l: Bytes, why: Refusal)
    ensures forall k | 0 <= k < |shards| :: SettledAs(Refused(l, why))(shards[k]) == 0
  {
    forall k | 0 <= k < |shards| ensures SettledAs(Refused(l, why))(shards[k]) == 0 {
      SumAllZero(shards[k].log, EventAs(Refused(l, why)));
    }
  }

  /** Once every shard has settled what it accepted, every nil result is one delivery or one counted drop. */
  lemma {:induction false} NilCounted(cfg: Config, t: State, l: Bytes)
    requires Reachable(cfg, t)
    requires forall k | 0 <= k < |t.shards| :: t.shards[k].accepted == SettledItems(t.shards[k].log)
    ensures Sum(t.calls, NilAs(l)) == Handled(Counter(t), l)
  {
    hide LockInv, LinkInv, ShardsInv, BytesInv, SettledItems, Reachable;
    InvReachable(cfg, t);
    assert AcceptedCountOk(t, l);
    CallsDropOnlyMarshal(t.calls, l);
    AcceptedByLabel(t.shards, l);
    assert MetricOk(t, Delivered(l)) && MetricOk(t, Dropped(l, Marshal)) && MetricOk(t, Dropped(l, Permanent))
      && MetricOk(t, Dropped(l, RetryExhausted)) && MetricOk(t, Dropped(l, ShutdownDeadline))
      && MetricOk(t, Dropped(l, ShutdownAttemptFailed));
  }
}
