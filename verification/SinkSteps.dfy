/** What each counter of the forwarder stands for, said by the steps of a schedule (internal/forward/forward.go). */
module SinkSteps {
  import opened ShardKey
  import opened Sink
  import opened SinkShard
  import opened SinkInvariant

  /** The worker's step that a series of deliveries, drops or retries stands for. */
  predicate Stands(m: Metric, act: WorkerAct) {
    match m
    case Delivered(_) => act.AttemptSucceeds? || act.FinalSucceeds?
    case Dropped(_, Permanent) => act.AttemptFailsForGood?
    case Dropped(_, RetryExhausted) => act.BudgetSpent?
    case Dropped(_, ShutdownDeadline) => act.ContextEnded?
    case Dropped(_, ShutdownAttemptFailed) => act.FinalFails?
    case Retries(_) => act.TimerFires?
    case _ => false
  }

  /** The step is such a step, with an item of the series' label in hand. */
  ghost predicate Counts(s: State, a: Action, m: Metric) {
    && a.WorkerStep? && a.k < |s.shards| && Stands(m, a.act)
    && s.shards[a.k].worker.Holding? && s.shards[a.k].worker.item.payload == m.payload
  }

  ghost function CountedSteps(cfg: Config, s: State, acts: seq<Action>, m: Metric): nat
    requires Sized(cfg, s) && CanRun(cfg, s, acts)
    decreases |acts|
  {
    if acts == [] then 0
    else (if Counts(s, acts[0], m) then 1 else 0) + CountedSteps(cfg, Apply(cfg, s, acts[0]), acts[1..], m)
  }

  /** A series that workers count: of the rest, refusals and marshal failures, calls count their own results. */
  predicate ByWorker(m: Metric) {
    !m.Refused? && !(m.Dropped? && m.reason.Marshal?)
  }

  lemma {:induction false} StepCounts(cfg: Config, s: State, a: Action, m: Metric)
    requires Sized(cfg, s) && Enabled(cfg, s, a) && ByWorker(m)
    ensures Apply(cfg, s, a).metrics[m] == s.metrics[m] + if Counts(s, a, m) then 1 else 0
  {
    hide WorkerNext, CallNext, WorkerCounts;
    match a
    case CallStep(i) => CallCountsNone(cfg, s.calls[i], s.shards[cfg.Route(s.calls[i].item.owner)], s.closed, m);
    case WorkerStep(k, act) => WorkerCountsOne(s.shards[k], act, m);
    case ShutdownStep(_) =>
  }

  lemma {:induction false} CallCountsNone(cfg: Config, c: Call, sh: Shard, closed: bool, m: Metric)
    requires ByWorker(m)
    ensures CallNext(cfg, c, sh, closed).counts[m] == 0
  {
    hide Fits;
  }

  /** The one series a worker's step adds to, if any. */
  ghost function Series(item: Item, act: WorkerAct): set<Metric> {
    match act
    case AttemptSucceeds => {Delivered(item.payload)}
    case FinalSucceeds => {Delivered(item.payload)}
    case AttemptFailsForGood => {Dropped(item.payload, Permanent)}
    case BudgetSpent => {Dropped(item.payload, RetryExhausted)}
    case ContextEnded => {Dropped(item.payload, ShutdownDeadline)}
    case FinalFails => {Dropped(item.payload, ShutdownAttemptFailed)}
    case TimerFires => {Retries(item.payload)}
    case _ => {}
  }

  lemma {:induction false} WorkerCountsSeries(sh: Shard, act: WorkerAct)
    ensures WorkerCounts(sh, act) == if sh.worker.Holding? then multiset(Series(sh.worker.item, act)) else multiset{}
  {
  }

  lemma {:induction false} SeriesStands(item: Item, act: WorkerAct, m: Metric)
    ensures m in Series(item, act) <==> Stands(m, act) && item.payload == m.payload
  {
    if m.Dropped? {
      match m.reason
      case Marshal => case Permanent => case RetryExhausted => case ShutdownDeadline => case ShutdownAttemptFailed =>
    }
  }

  lemma {:induction false} WorkerCountsOne(sh: Shard, act: WorkerAct, m: Metric)
    ensures WorkerCounts(sh, act)[m] ==
            if Stands(m, act) && sh.worker.Holding? && sh.worker.item.payload == m.payload then 1 else 0
  {
    hide WorkerCounts, Series, Stands;
    WorkerCountsSeries(sh, act);
    if sh.worker.Holding? {
      SeriesStands(sh.worker.item, act, m);
    }
  }

  lemma {:induction false} RunCounts(cfg: Config, s: State, acts: seq<Action>, m: Metric)
    requires Sized(cfg, s) && CanRun(cfg, s, acts) && ByWorker(m)
    ensures After(cfg, s, acts).metrics[m] == s.metrics[m] + CountedSteps(cfg, s, acts, m)
    decreases |acts|
  {
    hide Apply, Enabled, Counts;
    if acts != [] {
      StepCounts(cfg, s, acts[0], m);
      RunCounts(cfg, Apply(cfg, s, acts[0]), acts[1..], m);
    }
  }

  /**
  After every schedule, per label: ForwardDelivered is the number of attempts that succeeded, in the retry loop or at
  shutdown; ForwardDropped is, by reason, the number of permanent failures, of retry budgets spent, of items that came to
  their final attempt after the deadline, and of final attempts that failed; ForwardRetries is the number of retry waits
  that ran out.
  */
  lemma {:induction false} CountersCountSteps(cfg: Config, s: State, acts: seq<Action>, m: Metric)
    requires Init(cfg, s) && CanRun(cfg, s, acts) && ByWorker(m)
    ensures After(cfg, s, acts).metrics[m] == CountedSteps(cfg, s, acts, m)
  {
    hide CanRun, After, CountedSteps;
    RunCounts(cfg, s, acts, m);
  }

  // ----- what a call decides -----

  /** What marshal decides: a payload that does not marshal comes no further, and only such a payload is dropped so. */
  ghost predicate MarshalOk(c: Call) {
    && (c.Settled(MarshalDropped) ==> !c.marshals)
    && (!c.marshals ==> c.phase.Idle? || c.phase.Marshaling? || c.phase == Returned(MarshalDropped))
  }

  lemma {:induction false} MarshalOkAlongRun(cfg: Config, s: State, acts: seq<Action>)
    requires Sized(cfg, s) && CanRun(cfg, s, acts)
    requires forall i | 0 <= i < |s.calls| :: MarshalOk(s.calls[i])
    ensures forall i | 0 <= i < |s.calls| :: MarshalOk(After(cfg, s, acts).calls[i])
    decreases |acts|
  {
    hide WorkerNext, WorkerEnabled, ShutdownNext, MarshalOk, CallNext;
    if acts != [] {
      var a := acts[0];
      var t := Apply(cfg, s, a);
      forall i | 0 <= i < |t.calls| ensures MarshalOk(t.calls[i]) {
        CallsAfter(cfg, s, a, i);
        if a == CallStep(i) {
          MarshalOkKept(cfg, s.calls[i], s.shards[cfg.Route(s.calls[i].item.owner)], s.closed);
        }
      }
      MarshalOkAlongRun(cfg, t, acts[1..]);
    }
  }

  lemma {:induction false} CallsAfter(cfg: Config, s: State, a: Action, i: nat)
    requires Sized(cfg, s) && Enabled(cfg, s, a) && i < |s.calls|
    ensures var c, c' := s.calls[i], Apply(cfg, s, a).calls[i];
            if a == CallStep(i)
            then c' == c.(phase := CallNext(cfg, c, s.shards[cfg.Route(c.item.owner)], s.closed).phase)
            else c' == c
  {
    hide WorkerNext, WorkerEnabled, CallNext;
  }

  lemma {:induction false} MarshalOkKept(cfg: Config, c: Call, sh: Shard, closed: bool)
    requires MarshalOk(c)
    ensures MarshalOk(c.(phase := CallNext(cfg, c, sh, closed).phase))
  {
    hide Fits;
  }

  /** A returned call was dropped for not marshaling exactly when its payload does not marshal. */
  lemma {:induction false} MarshalDecides(cfg: Config, t: State, i: nat)
    requires Reachable(cfg, t) && i < |t.calls| && t.calls[i].phase.Returned?
    ensures t.calls[i].phase.result == MarshalDropped <==> !t.calls[i].marshals
  {
    hide CanRun, After;
    var s, acts :| Init(cfg, s) && CanRun(cfg, s, acts) && After(cfg, s, acts) == t;
    MarshalOkAlongRun(cfg, s, acts);
    assert MarshalOk(t.calls[i]);
  }

  /** No queue ever holds more than its size. */
  lemma {:induction false} QueueBounded(cfg: Config, t: State, k: nat)
    requires Reachable(cfg, t) && k < cfg.shards
    ensures |t.shards[k].queue| <= cfg.queueSize
  {
    hide CanRun, After;
    var s, acts :| Init(cfg, s) && CanRun(cfg, s, acts) && After(cfg, s, acts) == t;
    assert s.shards[k].queue == [];
    QueueAlongRun(cfg, s, acts, k);
  }

  lemma {:induction false} QueueAlongRun(cfg: Config, s: State, acts: seq<Action>, k: nat)
    requires Sized(cfg, s) && CanRun(cfg, s, acts) && k < |s.shards| && |s.shards[k].queue| <= cfg.queueSize
    ensures |After(cfg, s, acts).shards[k].queue| <= cfg.queueSize
    decreases |acts|
  {
    hide Apply, Enabled;
    if acts != [] {
      QueueByStep(cfg, s, acts[0], k);
      QueueAlongRun(cfg, Apply(cfg, s, acts[0]), acts[1..], k);
    }
  }

  lemma {:induction false} QueueByStep(cfg: Config, s: State, a: Action, k: nat)
    requires Sized(cfg, s) && Enabled(cfg, s, a) && k < |s.shards| && |s.shards[k].queue| <= cfg.queueSize
    ensures |Apply(cfg, s, a).shards[k].queue| <= cfg.queueSize
  {
    hide CallNext, WorkerNext, WorkerEnabled;
    match a
    case CallStep(i) => CallShape(cfg, s.calls[i], s.shards[cfg.Route(s.calls[i].item.owner)], s.closed);
    case WorkerStep(n, act) => WorkerShape(s.shards[n], act, s.stopping, s.cancelled);
    case ShutdownStep(_) =>
  }

  /** Routing spreads by the hash of the key: shard k gets exactly the instances whose hash leaves k over. */
  lemma {:induction false} RouteIff(cfg: Config, owner: Instance, k: nat)
    requires cfg.Valid() && k < cfg.shards
    ensures cfg.Route(owner) == k <==> exists q: nat :: cfg.hash(KeyOf(owner)) == q * cfg.shards + k
  {
    hide KeyOf;
    var h := cfg.hash(KeyOf(owner));
    if cfg.Route(owner) == k {
      assert h == (h / cfg.shards) * cfg.shards + k;
    }
    if q: nat :| h == q * cfg.shards + k {
      Remainder(q, k, cfg.shards, h);
    }
  }

  lemma {:induction false} Remainder(q: nat, k: nat, n: nat, h: nat)
    requires n > 0 && k < n && h == q * n + k
    ensures h % n == k
  {
    var p := h / n;
    var d := q - p;
    Distribute(q, p, n);
    if d >= 1 {
      AtLeast(d, n);
    } else if d <= -1 {
      Distribute(p, q, n);
      AtLeast(-d, n);
    }
  }

  lemma {:induction false} Distribute(q: int, p: int, n: int)
    ensures (q - p) * n == q * n - p * n
  {
  }

  lemma {:induction false} AtLeast(d: int, n: int)
    requires d >= 1 && n >= 0
    ensures d * n >= n
  {
    Distribute(d, 1, n);
    assert (d - 1) * n >= 0;
  }
}
