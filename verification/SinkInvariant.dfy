/** What every step of the whole sink keeps. */
module SinkInvariant {
  import opened GoStrings
  import opened Sums
  import opened Sink
  import opened SinkShard

  // ----- the lock, the flags and the phases of Shutdown -----

  ghost predicate LockInv(s: State) {
    && (s.closed <==> s.shutdown.ClosedSet? || s.shutdown.LockFreed? || s.shutdown.Waiting? || s.shutdown.ShutDown?)
    && (s.stopping <==> s.shutdown.Waiting? || s.shutdown.ShutDown?)
    && (s.cancelled ==> s.stopping)
    && (s.shutdown.HasLock? || s.shutdown.ClosedSet? ==> NoReaders(s))
    && (s.closed ==> forall i | 0 <= i < |s.calls| :: !s.calls[i].Sending())
    && (s.shutdown.ShutDown? ==> WorkersDone(s))
  }

  lemma {:induction false} LockInvKept(cfg: Config, s: State, a: Action)
    requires Sized(cfg, s) && Enabled(cfg, s, a) && LockInv(s)
    ensures LockInv(Apply(cfg, s, a))
  {
    match a
    case CallStep(i) => LockInvKeptByCall(cfg, s, i);
    case ShutdownStep(_) =>
    case WorkerStep(k, act) => LockInvKeptByWorker(cfg, s, k, act);
  }

  lemma {:induction false} LockInvKeptByCall(cfg: Config, s: State, i: nat)
    requires Sized(cfg, s) && CallEnabled(s, i) && LockInv(s)
    ensures LockInv(Apply(cfg, s, CallStep(i)))
  {
    var c := s.calls[i];
    var r := CallNext(cfg, c, s.shards[cfg.Route(c.item.owner)], s.closed);
    assert r.shard.worker == s.shards[cfg.Route(c.item.owner)].worker;
  }

  lemma {:induction false} LockInvKeptByWorker(cfg: Config, s: State, k: nat, act: WorkerAct)
    requires Sized(cfg, s) && Enabled(cfg, s, WorkerStep(k, act)) && LockInv(s)
    ensures LockInv(Apply(cfg, s, WorkerStep(k, act)))
  {
    assert !s.shards[k].worker.Done?;
  }

  // ----- calls and what the shards accepted -----

  ghost predicate AcceptedOk(cfg: Config, calls: seq<Call>, k: nat, item: Item)
    requires cfg.Valid()
  {
    && item.call < |calls|
    && calls[item.call].item == item
    && calls[item.call].Settled(Queued)
    && cfg.Route(item.owner) == k
  }

  /** A shard's accepted items are exactly the items of the calls that queued on it. */
  ghost predicate LinkInv(cfg: Config, s: State)
    requires Sized(cfg, s)
  {
    && (forall i | 0 <= i < |s.calls| :: s.calls[i].item.call == i)
    && (forall k, j | 0 <= k < |s.shards| && 0 <= j < |s.shards[k].accepted| ::
          AcceptedOk(cfg, s.calls, k, s.shards[k].accepted[j]))
    && (forall i | 0 <= i < |s.calls| && s.calls[i].Settled(Queued) ::
          s.calls[i].item in s.shards[cfg.Route(s.calls[i].item.owner)].accepted)
  }

  /** A call step leaves its shard's worker and history alone. Only a send adds an item, to queue and history alike. */
  lemma {:induction false} CallShape(cfg: Config, c: Call, sh: Shard, closed: bool)
    ensures var r := CallNext(cfg, c, sh, closed);
            var sent := if c.phase.Reserved? && |sh.queue| < cfg.queueSize then [c.item] else [];
            && r.shard.worker == sh.worker && r.shard.log == sh.log
            && r.shard.queue == sh.queue + sent && r.shard.accepted == sh.accepted + sent
            && (sent != [] ==> r.phase == Unlocking(Queued))
            && (sent == [] ==> c.Settled(Queued) == c.(phase := r.phase).Settled(Queued))
  {
  }

  lemma {:induction false} LinkInvKeptByCall(cfg: Config, s: State, i: nat)
    requires Sized(cfg, s) && CallEnabled(s, i) && LinkInv(cfg, s)
    ensures LinkInv(cfg, Apply(cfg, s, CallStep(i)))
  {
    var t := Apply(cfg, s, CallStep(i));
    var c := s.calls[i];
    var k0 := cfg.Route(c.item.owner);
    var before, after := s.shards[k0].accepted, t.shards[k0].accepted;
    CallShape(cfg, c, s.shards[k0], s.closed);
    forall k, j | 0 <= k < |t.shards| && 0 <= j < |t.shards[k].accepted|
      ensures AcceptedOk(cfg, t.calls, k, t.shards[k].accepted[j])
    {
      if k != k0 || j < |before| {
        assert AcceptedOk(cfg, s.calls, k, s.shards[k].accepted[j]);
      } else {
        assert after[j] == c.item;
      }
    }
    forall n | 0 <= n < |t.calls| && t.calls[n].Settled(Queued)
      ensures t.calls[n].item in t.shards[cfg.Route(t.calls[n].item.owner)].accepted
    {
      if n == i && !c.Settled(Queued) {
        assert after[|before|] == c.item;
      } else {
        assert s.calls[n].item in s.shards[cfg.Route(s.calls[n].item.owner)].accepted;
      }
    }
  }

  lemma {:induction false} LinkInvKept(cfg: Config, s: State, a: Action)
    requires Sized(cfg, s) && Enabled(cfg, s, a) && LinkInv(cfg, s)
    ensures LinkInv(cfg, Apply(cfg, s, a))
  {
    hide WorkerNext, WorkerEnabled, CallNext, LinkInv;
    match a
    case ShutdownStep(_) => LinkInvFrame(cfg, s, Apply(cfg, s, a));
    case CallStep(i) => LinkInvKeptByCall(cfg, s, i);
    case WorkerStep(k, act) => LinkInvKeptByWorker(cfg, s, k, act);
  }

  lemma {:induction false} LinkInvFrame(cfg: Config, s: State, t: State)
    requires Sized(cfg, s) && Sized(cfg, t) && LinkInv(cfg, s) && t.calls == s.calls && t.shards == s.shards
    ensures LinkInv(cfg, t)
  {
    hide AcceptedOk;
  }

  lemma {:induction false} LinkInvKeptByWorker(cfg: Config, s: State, k: nat, act: WorkerAct)
    requires Sized(cfg, s) && Enabled(cfg, s, WorkerStep(k, act)) && LinkInv(cfg, s)
    ensures LinkInv(cfg, Apply(cfg, s, WorkerStep(k, act)))
  {
    hide WorkerNext, WorkerEnabled, WorkerEvent, AcceptedOk;
    var t := Apply(cfg, s, WorkerStep(k, act));
    WorkerShape(s.shards[k], act, s.stopping, s.cancelled);
    forall k', j | 0 <= k' < |t.shards| && 0 <= j < |t.shards[k'].accepted|
      ensures AcceptedOk(cfg, t.calls, k', t.shards[k'].accepted[j])
    {
      assert AcceptedOk(cfg, s.calls, k', s.shards[k'].accepted[j]);
    }
  }

  // ----- every shard keeps its own invariant -----

  ghost predicate ShardsInv(s: State) {
    forall k | 0 <= k < |s.shards| :: ShardInv(s.shards[k], s.stopping, s.cancelled)
  }

  lemma {:induction false} ShardsInvKept(cfg: Config, s: State, a: Action)
    requires Sized(cfg, s) && Enabled(cfg, s, a) && LockInv(s) && LinkInv(cfg, s) && ShardsInv(s)
    ensures ShardsInv(Apply(cfg, s, a))
  {
    hide ShardInv, LinkInv, WorkerNext, WorkerEnabled, CallNext;
    var t := Apply(cfg, s, a);
    forall k | 0 <= k < |t.shards| ensures ShardInv(t.shards[k], t.stopping, t.cancelled) {
      assert ShardInv(s.shards[k], s.stopping, s.cancelled);
      match a
      case ShutdownStep(_) => ShardInvKeptByFlags(s.shards[k], s.stopping, s.cancelled, t.stopping, t.cancelled);
      case WorkerStep(n, act) =>
        if n == k {
          ShardInvKeptByWorker(s.shards[k], act, s.stopping, s.cancelled);
        }
      case CallStep(i) => ShardInvKeptByCall(cfg, s, i, k);
    }
  }

  /** No call sends to a finished worker's shard: stopping was closed only after the last sender left. */
  lemma {:induction false} ShardInvKeptByCall(cfg: Config, s: State, i: nat, k: nat)
    requires Sized(cfg, s) && CallEnabled(s, i) && LockInv(s) && LinkInv(cfg, s)
    requires k < |s.shards| && ShardInv(s.shards[k], s.stopping, s.cancelled)
    ensures ShardInv(Apply(cfg, s, CallStep(i)).shards[k], s.stopping, s.cancelled)
  {
    hide CallNext, ShardInv;
    var c, sh := s.calls[i], s.shards[k];
    var sh' := Apply(cfg, s, CallStep(i)).shards[k];
    CallShape(cfg, c, s.shards[cfg.Route(c.item.owner)], s.closed);
    if c.phase.Reserved? && cfg.Route(c.item.owner) == k && |sh.queue| < cfg.queueSize {
      forall j | 0 <= j < |sh.accepted| ensures sh.accepted[j].call != c.item.call {
        assert AcceptedOk(cfg, s.calls, k, sh.accepted[j]);
      }
      SenderBeforeDone(s, i, k);
      var sent := sh.(queue := sh.queue + [c.item], accepted := sh.accepted + [c.item]);
      ShardInvKeptBySend(sh, c.item, s.stopping, s.cancelled);
      ShardInvIgnoresBytes(sent, sh', s.stopping, s.cancelled);
    } else {
      assert sh.queue + [] == sh.queue && sh.accepted + [] == sh.accepted;
      ShardInvIgnoresBytes(sh, sh', s.stopping, s.cancelled);
    }
  }

  lemma {:induction false} SenderBeforeDone(s: State, i: nat, k: nat)
    requires LockInv(s) && i < |s.calls| && s.calls[i].phase.Reserved?
    requires k < |s.shards| && ShardInv(s.shards[k], s.stopping, s.cancelled)
    ensures !s.shards[k].worker.Done?
  {
    hide InOrder, Distinct, SettledItems, TallyOk, LateOk;
    assert s.calls[i].Sending();
  }

  // ----- bytes -----

  ghost function SizeOf(): Item -> int { (x: Item) => |x.body| }
  ghost function NonEmpty(): Item -> int { (x: Item) => if x.body != [] then 1 else 0 }

  /** What a call that reserved bytes on shard k and did not send contributes. */
  ghost function Reserving(cfg: Config, k: nat, w: Item -> int): Call -> int
    requires cfg.Valid()
  {
    (c: Call) => ReservedWeight(cfg, k, w, c)
  }

  ghost function ReservedWeight(cfg: Config, k: nat, w: Item -> int, c: Call): int
    requires cfg.Valid()
  {
    if c.Reserving() && cfg.Route(c.item.owner) == k then w(c.item) else 0
  }

  ghost function InHand(worker: Worker, w: Item -> int): int {
    if worker.Holding? then w(worker.item) else 0
  }

  /** The weight of everything shard k holds: reserved by a call, queued, or with its worker. */
  ghost function Load(cfg: Config, s: State, k: nat, w: Item -> int): int
    requires Sized(cfg, s) && k < |s.shards|
  {
    Sum(s.calls, Reserving(cfg, k, w)) + Sum(s.shards[k].queue, w) + InHand(s.shards[k].worker, w)
  }

  lemma {:induction false} LoadAfterCall(cfg: Config, s: State, i: nat, k: nat, w: Item -> int)
    requires Sized(cfg, s) && CallEnabled(s, i) && k < |s.shards|
    ensures var t := Apply(cfg, s, CallStep(i));
            var c := s.calls[i];
            Load(cfg, t, k, w) == Load(cfg, s, k, w) +
              if cfg.Route(c.item.owner) != k then 0
              else if c.phase.Checked? && t.calls[i].phase.Reserved? then w(c.item)
              else if c.phase.RollingBack? then -w(c.item)
              else 0
  {
    hide CallNext, Sum, ReservedWeight;
    var c := s.calls[i];
    var n := cfg.Route(c.item.owner);
    var sh, r := s.shards[n], CallNext(cfg, c, s.shards[n], s.closed);
    SumUpdate(s.calls, i, c.(phase := r.phase), Reserving(cfg, k, w));
    ReservedAfterCall(cfg, c, sh, s.closed, k, w);
    QueueAfterCall(cfg, c, sh, s.closed, w);
  }

  lemma {:induction false} QueueAfterCall(cfg: Config, c: Call, sh: Shard, closed: bool, w: Item -> int)
    ensures var r := CallNext(cfg, c, sh, closed);
            && r.shard.worker == sh.worker
            && Sum(r.shard.queue, w) == Sum(sh.queue, w) +
               if c.phase.Reserved? && |sh.queue| < cfg.queueSize then w(c.item) else 0
  {
    hide CallNext, Sum;
    CallShape(cfg, c, sh, closed);
    SumPush(sh.queue, c.item, w);
    assert sh.queue + [] == sh.queue;
  }

  /** How a call step changes what the call contributes to a shard: reserving adds, sending and rolling back take away. */
  lemma {:induction false} ReservedAfterCall(cfg: Config, c: Call, sh: Shard, closed: bool, k: nat, w: Item -> int)
    requires cfg.Valid()
    ensures var r := CallNext(cfg, c, sh, closed);
            ReservedWeight(cfg, k, w, c.(phase := r.phase)) - ReservedWeight(cfg, k, w, c) ==
            if cfg.Route(c.item.owner) != k then 0
            else if c.phase.Checked? && r.phase.Reserved? then w(c.item)
            else if c.phase.RollingBack? || (c.phase.Reserved? && |sh.queue| < cfg.queueSize) then -w(c.item)
            else 0
  {
  }

  lemma {:induction false} LoadAfterWorker(cfg: Config, s: State, n: nat, act: WorkerAct, k: nat, w: Item -> int)
    requires Sized(cfg, s) && Enabled(cfg, s, WorkerStep(n, act)) && k < |s.shards|
    ensures Load(cfg, Apply(cfg, s, WorkerStep(n, act)), k, w) ==
            Load(cfg, s, k, w) - if n == k && act == ReleaseBytes then w(s.shards[k].worker.item) else 0
  {
    hide WorkerNext, WorkerEnabled, WorkerEvent;
    WorkerShape(s.shards[n], act, s.stopping, s.cancelled);
    if n == k && act == TakeItem {
      SumPop(s.shards[k].queue, w);
    }
  }

  /** Something has size exactly when something non-empty is there. */
  lemma {:induction false} LoadEmpty(cfg: Config, s: State, k: nat)
    requires Sized(cfg, s) && k < |s.shards|
    ensures 0 <= Load(cfg, s, k, NonEmpty()) <= Load(cfg, s, k, SizeOf())
    ensures Load(cfg, s, k, NonEmpty()) == 0 ==> Load(cfg, s, k, SizeOf()) == 0
  {
    var sh := s.shards[k];
    var f, g := Reserving(cfg, k, NonEmpty()), Reserving(cfg, k, SizeOf());
    SumNonNegative(s.calls, f);
    SumNonNegative(sh.queue, NonEmpty());
    SumBound(s.calls, f, 1, g);
    SumBound(sh.queue, NonEmpty(), 1, SizeOf());
    if Load(cfg, s, k, NonEmpty()) == 0 {
      SumAllZero(s.calls, g);
      SumAllZero(sh.queue, SizeOf());
    }
  }

  /**
  The counter is the size of what the shard holds. Over the limit, one single held item is not empty, so it alone
  makes up the counter.
  */
  ghost predicate BytesOk(cfg: Config, s: State, k: nat)
    requires Sized(cfg, s) && k < |s.shards|
  {
    && s.shards[k].bytes == Load(cfg, s, k, SizeOf())
    && (s.shards[k].bytes > cfg.queueBytes ==> Load(cfg, s, k, NonEmpty()) == 1)
  }

  ghost predicate BytesInv(cfg: Config, s: State)
    requires Sized(cfg, s)
  {
    forall k | 0 <= k < |s.shards| :: BytesOk(cfg, s, k)
  }

  lemma {:induction false} BytesKeptByCall(cfg: Config, s: State, i: nat, k: nat)
    requires Sized(cfg, s) && CallEnabled(s, i) && k < |s.shards| && BytesOk(cfg, s, k)
    ensures BytesOk(cfg, Apply(cfg, s, CallStep(i)), k)
  {
    LoadEmpty(cfg, s, k);
    LoadEmpty(cfg, Apply(cfg, s, CallStep(i)), k);
    LoadAfterCall(cfg, s, i, k, SizeOf());
    LoadAfterCall(cfg, s, i, k, NonEmpty());
  }

  lemma {:induction false} BytesKeptByWorker(cfg: Config, s: State, n: nat, act: WorkerAct, k: nat)
    requires Sized(cfg, s) && Enabled(cfg, s, WorkerStep(n, act)) && k < |s.shards| && BytesOk(cfg, s, k)
    ensures BytesOk(cfg, Apply(cfg, s, WorkerStep(n, act)), k)
  {
    LoadEmpty(cfg, Apply(cfg, s, WorkerStep(n, act)), k);
    LoadAfterWorker(cfg, s, n, act, k, SizeOf());
    LoadAfterWorker(cfg, s, n, act, k, NonEmpty());
    WorkerShape(s.shards[n], act, s.stopping, s.cancelled);
  }

  lemma {:induction false} BytesOkFrame(cfg: Config, s: State, t: State, k: nat)
    requires Sized(cfg, s) && Sized(cfg, t) && k < |s.shards| && BytesOk(cfg, s, k)
    requires t.calls == s.calls && t.shards == s.shards
    ensures BytesOk(cfg, t, k)
  {
  }

  lemma {:induction false} BytesInvKept(cfg: Config, s: State, a: Action)
    requires Sized(cfg, s) && Enabled(cfg, s, a) && BytesInv(cfg, s)
    ensures BytesInv(cfg, Apply(cfg, s, a))
  {
    hide WorkerNext, WorkerEnabled, CallNext, BytesOk;
    var t := Apply(cfg, s, a);
    forall k | 0 <= k < |t.shards| ensures BytesOk(cfg, t, k) {
      assert BytesOk(cfg, s, k);
      match a
      case ShutdownStep(_) => BytesOkFrame(cfg, s, t, k);
      case WorkerStep(n, act) => BytesKeptByWorker(cfg, s, n, act, k);
      case CallStep(i) => BytesKeptByCall(cfg, s, i, k);
    }
  }

  // ----- counters -----

  ghost function EventAs(m: Metric): Event -> int {
    (e: Event) => Settles(m, e)
  }

  ghost function Settles(m: Metric, e: Event): int {
    if e.Settle? && OutcomeMetric(e.item, e.outcome) == m then 1 else 0
  }

  ghost function SettledAs(m: Metric): Shard -> int {
    (sh: Shard) => Sum(sh.log, EventAs(m))
  }

  ghost function CallAs(m: Metric): Call -> int {
    (c: Call) => IsCounted(m, c)
  }

  ghost function IsCounted(m: Metric, c: Call): int {
    if c.Settled(MarshalDropped) && m == Dropped(c.item.Label(), Marshal) then 1
    else if m.Refused? && m.payload == c.item.Label() && c.Settled(Failed(m.refusal)) then 1
    else 0
  }

  ghost function Labelled(l: Bytes): Item -> int {
    (x: Item) => if x.Label() == l then 1 else 0
  }

  ghost function AcceptedAs(l: Bytes): Shard -> int {
    (sh: Shard) => Sum(sh.accepted, Labelled(l))
  }

  ghost function QueuedAs(l: Bytes): Call -> int {
    (c: Call) => IsQueued(l, c)
  }

  ghost function IsQueued(l: Bytes, c: Call): int {
    if c.Settled(Queued) && c.item.Label() == l then 1 else 0
  }

  ghost predicate MetricOk(s: State, m: Metric) {
    s.metrics[m] == Sum(s.shards, SettledAs(m)) + Sum(s.calls, CallAs(m))
  }

  ghost predicate AcceptedCountOk(s: State, l: Bytes) {
    Sum(s.shards, AcceptedAs(l)) == Sum(s.calls, QueuedAs(l))
  }

  /** An attempt of the retry loop counts one up, the take of the item it is for counts the first of them down. */
  ghost function RetryEvent(l: Bytes): Event -> int {
    (e: Event) => RetryWeight(l, e)
  }

  ghost function RetryWeight(l: Bytes, e: Event): int {
    if e.item.Label() != l then 0
    else if e.Attempt? && !e.final then 1
    else if e.Take? && !e.drained then -1
    else 0
  }

  ghost function RetriesOf(l: Bytes): Shard -> int {
    (sh: Shard) => ShardRetries(l, sh)
  }

  ghost function ShardRetries(l: Bytes, sh: Shard): int {
    Sum(sh.log, RetryEvent(l)) + ReadyFor(l, sh.worker)
  }

  ghost function ReadyFor(l: Bytes, w: Worker): int {
    if w.Holding? && w.stage.Ready? && w.item.Label() == l then 1 else 0
  }

  ghost predicate RetriesOk(s: State, l: Bytes) {
    s.metrics[Retries(l)] == Sum(s.shards, RetriesOf(l))
  }

  lemma {:induction false} RetriesAfterWorker(sh: Shard, act: WorkerAct, stopping: bool, cancelled: bool, l: Bytes)
    requires WorkerEnabled(sh, act, stopping, cancelled)
    ensures ShardRetries(l, WorkerNext(sh, act, stopping, cancelled)) ==
            ShardRetries(l, sh) + WorkerCounts(sh, act)[Retries(l)]
  {
    hide WorkerNext, WorkerEnabled, WorkerEvent, WorkerCounts, RetryWeight, ReadyFor;
    var es := WorkerEvent(sh, act, stopping);
    WorkerShape(sh, act, stopping, cancelled);
    OnlyTimersRetry(sh, act, stopping, cancelled, l);
    RetryStep(sh, act, stopping, cancelled, l);
    SumConcat(sh.log, es, RetryEvent(l));
    if es != [] {
      SumOne(es[0], RetryEvent(l));
    }
  }

  lemma {:induction false} RetryStep(sh: Shard, act: WorkerAct, stopping: bool, cancelled: bool, l: Bytes)
    requires WorkerEnabled(sh, act, stopping, cancelled)
    ensures var es := WorkerEvent(sh, act, stopping);
            && (es != [] ==> es == [es[0]])
            && ReadyFor(l, WorkerNext(sh, act, stopping, cancelled).worker) +
                 (if es == [] then 0 else RetryWeight(l, es[0])) ==
               ReadyFor(l, sh.worker) + if act == TimerFires && sh.worker.item.Label() == l then 1 else 0
  {
  }

  lemma {:induction false} OnlyTimersRetry(sh: Shard, act: WorkerAct, stopping: bool, cancelled: bool, l: Bytes)
    requires WorkerEnabled(sh, act, stopping, cancelled)
    ensures act == TimerFires ==> sh.worker.Holding?
    ensures WorkerCounts(sh, act)[Retries(l)] == if act == TimerFires && sh.worker.item.Label() == l then 1 else 0
  {
  }

  lemma {:induction false} RetriesKept(cfg: Config, s: State, a: Action, l: Bytes)
    requires Sized(cfg, s) && Enabled(cfg, s, a) && RetriesOk(s, l)
    ensures RetriesOk(Apply(cfg, s, a), l)
  {
    hide WorkerNext, WorkerEnabled, WorkerCounts, CallNext, ShardRetries;
    var t := Apply(cfg, s, a);
    match a
    case ShutdownStep(_) =>
    case WorkerStep(k, act) =>
      RetriesAfterWorker(s.shards[k], act, s.stopping, s.cancelled, l);
      SumUpdate(s.shards, k, t.shards[k], RetriesOf(l));
    case CallStep(i) =>
      var k := cfg.Route(s.calls[i].item.owner);
      RetriesAfterCall(cfg, s.calls[i], s.shards[k], s.closed, l);
      SumUpdate(s.shards, k, t.shards[k], RetriesOf(l));
  }

  lemma {:induction false} RetriesAfterCall(cfg: Config, c: Call, sh: Shard, closed: bool, l: Bytes)
    ensures var r := CallNext(cfg, c, sh, closed);
            ShardRetries(l, r.shard) == ShardRetries(l, sh) && r.counts[Retries(l)] == 0
  {
  }

  /** Each counter but the retries is the number of settlements and results it stands for. */
  ghost predicate MetricsInv(s: State) {
    && (forall m: Metric | !m.Retries? :: MetricOk(s, m))
    && (forall l: Bytes :: AcceptedCountOk(s, l))
    && (forall l: Bytes :: RetriesOk(s, l))
  }

  lemma {:induction false} MetricKept(cfg: Config, s: State, a: Action, m: Metric)
    requires Sized(cfg, s) && Enabled(cfg, s, a) && MetricOk(s, m) && !m.Retries?
    ensures MetricOk(Apply(cfg, s, a), m)
  {
    hide WorkerNext, WorkerEnabled, WorkerCounts, CallNext, Sum;
    match a
    case ShutdownStep(_) =>
    case WorkerStep(k, act) => MetricKeptByWorker(cfg, s, k, act, m);
    case CallStep(i) => MetricKeptByCall(cfg, s, i, m);
  }

  lemma {:induction false} MetricKeptByWorker(cfg: Config, s: State, k: nat, act: WorkerAct, m: Metric)
    requires Sized(cfg, s) && Enabled(cfg, s, WorkerStep(k, act)) && MetricOk(s, m) && !m.Retries?
    ensures MetricOk(Apply(cfg, s, WorkerStep(k, act)), m)
  {
    hide WorkerNext, WorkerEnabled, WorkerEvent, WorkerCounts, Sum;
    var sh := s.shards[k];
    var sh' := WorkerNext(sh, act, s.stopping, s.cancelled);
    SumUpdate(s.shards, k, sh', SettledAs(m));
    WorkerShape(sh, act, s.stopping, s.cancelled);
    WorkerCountsEvent(sh, act, s.stopping, s.cancelled, m);
    SumConcat(sh.log, WorkerEvent(sh, act, s.stopping), EventAs(m));
  }

  /** A worker step counts what it records. */
  lemma {:induction false} WorkerCountsEvent(sh: Shard, act: WorkerAct, stopping: bool, cancelled: bool, m: Metric)
    requires WorkerEnabled(sh, act, stopping, cancelled) && !m.Retries?
    ensures WorkerCounts(sh, act)[m] == Sum(WorkerEvent(sh, act, stopping), EventAs(m))
  {
    hide Sum;
    var es := WorkerEvent(sh, act, stopping);
    if es == [] {
      SumAllZero(es, EventAs(m));
    } else {
      SumOne(es[0], EventAs(m));
      assert es == [es[0]];
    }
  }

  lemma {:induction false} MetricKeptByCall(cfg: Config, s: State, i: nat, m: Metric)
    requires Sized(cfg, s) && CallEnabled(s, i) && MetricOk(s, m)
    ensures MetricOk(Apply(cfg, s, CallStep(i)), m)
  {
    hide CallNext;
    var t := Apply(cfg, s, CallStep(i));
    var k := cfg.Route(s.calls[i].item.owner);
    CallShape(cfg, s.calls[i], s.shards[k], s.closed);
    SumUpdate(s.shards, k, t.shards[k], SettledAs(m));
    SumUpdate(s.calls, i, t.calls[i], CallAs(m));
    CallCounts(cfg, s.calls[i], s.shards[k], s.closed, m);
  }

  /** A call step counts the result it decides on. */
  lemma {:induction false} CallCounts(cfg: Config, c: Call, sh: Shard, closed: bool, m: Metric)
    ensures var r := CallNext(cfg, c, sh, closed);
            r.counts[m] == IsCounted(m, c.(phase := r.phase)) - IsCounted(m, c)
  {
    hide Fits;
  }

  lemma {:induction false} AcceptedCountKept(cfg: Config, s: State, a: Action, l: Bytes)
    requires Sized(cfg, s) && Enabled(cfg, s, a) && AcceptedCountOk(s, l)
    ensures AcceptedCountOk(Apply(cfg, s, a), l)
  {
    hide WorkerNext, WorkerEnabled, WorkerEvent, CallNext;
    match a
    case ShutdownStep(_) =>
    case WorkerStep(k, act) =>
      var t := Apply(cfg, s, a);
      SumUpdate(s.shards, k, t.shards[k], AcceptedAs(l));
      WorkerShape(s.shards[k], act, s.stopping, s.cancelled);
    case CallStep(i) => AcceptedCountKeptByCall(cfg, s, i, l);
  }

  lemma {:induction false} AcceptedCountKeptByCall(cfg: Config, s: State, i: nat, l: Bytes)
    requires Sized(cfg, s) && CallEnabled(s, i) && AcceptedCountOk(s, l)
    ensures AcceptedCountOk(Apply(cfg, s, CallStep(i)), l)
  {
    hide CallNext, Sum;
    var t := Apply(cfg, s, CallStep(i));
    var c := s.calls[i];
    var k := cfg.Route(c.item.owner);
    CallShape(cfg, c, s.shards[k], s.closed);
    SumUpdate(s.shards, k, t.shards[k], AcceptedAs(l));
    SumUpdate(s.calls, i, t.calls[i], QueuedAs(l));
    SumPush(s.shards[k].accepted, c.item, Labelled(l));
    assert s.shards[k].accepted + [] == s.shards[k].accepted;
  }

  // ----- together -----

  ghost predicate Inv(cfg: Config, s: State) {
    && Sized(cfg, s)
    && LockInv(s) && LinkInv(cfg, s) && ShardsInv(s) && BytesInv(cfg, s) && MetricsInv(s)
  }

  lemma {:induction false} InvInitially(cfg: Config, s: State)
    requires Init(cfg, s)
    ensures Inv(cfg, s)
  {
    hide Item.Labelled;
    ShardInvInitially(false, false);
    forall k | 0 <= k < |s.shards| ensures BytesOk(cfg, s, k) {
      SumAllZero(s.calls, Reserving(cfg, k, SizeOf()));
    }
    forall m: Metric ensures MetricOk(s, m) {
      SumAllZero(s.shards, SettledAs(m));
      SumAllZero(s.calls, CallAs(m));
    }
    forall l: Bytes ensures AcceptedCountOk(s, l) {
      SumAllZero(s.shards, AcceptedAs(l));
      SumAllZero(s.calls, QueuedAs(l));
    }
    forall l: Bytes ensures RetriesOk(s, l) {
      SumAllZero(s.shards, RetriesOf(l));
    }
  }

  lemma {:induction false} InvKept(cfg: Config, s: State, a: Action)
    requires Inv(cfg, s) && Enabled(cfg, s, a)
    ensures Inv(cfg, Apply(cfg, s, a))
  {
    var t := Apply(cfg, s, a);
    LockInvKept(cfg, s, a);
    LinkInvKept(cfg, s, a);
    ShardsInvKept(cfg, s, a);
    BytesInvKept(cfg, s, a);
    forall m: Metric | !m.Retries? ensures MetricOk(t, m) {
      MetricKept(cfg, s, a, m);
    }
    forall l: Bytes ensures AcceptedCountOk(t, l) && RetriesOk(t, l) {
      assert AcceptedCountOk(s, l) && RetriesOk(s, l);
      AcceptedCountKept(cfg, s, a, l);
      RetriesKept(cfg, s, a, l);
    }
  }

  /** The invariant holds after every schedule. */
  lemma {:induction false} InvAlongRun(cfg: Config, s: State, acts: seq<Action>)
    requires Inv(cfg, s) && CanRun(cfg, s, acts)
    ensures Inv(cfg, After(cfg, s, acts))
    decreases |acts|
  {
    if acts != [] {
      InvKept(cfg, s, acts[0]);
      InvAlongRun(cfg, Apply(cfg, s, acts[0]), acts[1..]);
    }
  }

  lemma {:induction false} InvReachable(cfg: Config, t: State)
    requires Reachable(cfg, t)
    ensures Inv(cfg, t)
  {
    var s, acts :| Init(cfg, s) && CanRun(cfg, s, acts) && After(cfg, s, acts) == t;
    InvInitially(cfg, s);
    InvAlongRun(cfg, s, acts);
  }

  lemma {:induction false} RunOn(cfg: Config, s: State, acts: seq<Action>, more: seq<Action>)
    requires Sized(cfg, s) && CanRun(cfg, s, acts) && CanRun(cfg, After(cfg, s, acts), more)
    ensures CanRun(cfg, s, acts + more) && After(cfg, s, acts + more) == After(cfg, After(cfg, s, acts), more)
    decreases |acts|
  {
    hide Enabled, Apply;
    if acts == [] {
      assert acts + more == more;
    } else {
      RunOn(cfg, Apply(cfg, s, acts[0]), acts[1..], more);
      assert (acts + more)[1..] == acts[1..] + more;
    }
  }

  lemma {:induction false} StaysReachable(cfg: Config, t: State, more: seq<Action>)
    requires Reachable(cfg, t) && CanRun(cfg, t, more)
    ensures Reachable(cfg, After(cfg, t, more))
  {
    hide CanRun, After;
    var s, acts :| Init(cfg, s) && CanRun(cfg, s, acts) && After(cfg, s, acts) == t;
    RunOn(cfg, s, acts, more);
  }

  lemma {:induction false} ShardInvReachable(cfg: Config, t: State, k: nat)
    requires Reachable(cfg, t) && k < cfg.shards
    ensures ShardInv(t.shards[k], t.stopping, t.cancelled)
  {
    hide LockInv, LinkInv, BytesInv, MetricsInv, ShardInv;
    InvReachable(cfg, t);
  }
}
