/** Shutdown is bounded: what the workers may still do once stopping is closed, over every schedule. */
module SinkShutdown {
  import opened Sums
  import opened Sink
  import opened SinkShard
  import opened SinkInvariant

  // ----- attempts per item -----

  /** One call's late attempts of the retry loop are among the shard's, and two calls' are disjoint. */
  lemma {:induction false} LateRegularShared(log: seq<Event>, c: nat, d: nat)
    ensures TallyOf(log, c).lateRegular <= LateRegular(log)
    ensures c != d ==> TallyOf(log, c).lateRegular + TallyOf(log, d).lateRegular <= LateRegular(log)
  {
    if log != [] {
      LateRegularShared(log[..|log| - 1], c, d);
    }
  }

  /**
  After stopping is closed an item starts at most two attempts, the second of them its final one, and only one item of
  a shard starts two. No item ever gets a second final attempt or a second settlement.
  */
  lemma {:induction false} AtMostOneItemTriesTwice(cfg: Config, t: State, k: nat, c: nat, d: nat)
    requires Reachable(cfg, t) && k < cfg.shards
    ensures var log := t.shards[k].log;
            && TallyOf(log, c).late <= 2 && TallyOf(log, c).final <= 1 && TallyOf(log, c).settled <= 1
            && (TallyOf(log, c).late == 2 && TallyOf(log, d).late == 2 ==> c == d)
  {
    ShardInvReachable(cfg, t, k);
    var sh := t.shards[k];
    assert TallyOk(sh, t.cancelled, c) && TallyOk(sh, t.cancelled, d);
    LateRegularShared(sh.log, c, d);
  }

  /**
  An item that drain reached and settled got exactly one attempt, the final one, or none and a shutdown_deadline drop,
  and the drop only after the context had ended.
  */
  lemma {:induction false} DrainedItemTriesOnce(cfg: Config, t: State, k: nat, c: nat)
    requires Reachable(cfg, t) && k < cfg.shards
    requires var y := TallyOf(t.shards[k].log, c); y.drained > 0 && y.settled > 0
    ensures var y := TallyOf(t.shards[k].log, c);
            && y.took == 1 && y.settled == 1 && y.regular == 0
            && ((y.final == 1 && y.expired == 0) || (y.final == 0 && y.expired == 1 && t.cancelled))
  {
    ShardInvReachable(cfg, t, k);
    assert TallyOk(t.shards[k], t.cancelled, c);
  }

  // ----- attempts per shard -----

  /** Attempts beyond one per item that the worker may still start, for the item it holds or is about to take. */
  ghost function Extra(w: Worker): nat {
    match w
    case Select => 1
    case Holding(_, stage, _) =>
      (match stage
       case Ready => 2
       case Attempting => 1
       case AttemptFailed => 1
       case BackingOff => 2
       case Sleeping => 2
       case FinalCheck => 1
       case FinalAttempting => 0
       case Finished => 0)
    case _ => 0
  }

  /** Once stopping is closed, no step lets attempts started plus attempts to come grow. */
  lemma {:induction false} AttemptsKept(cfg: Config, s: State, a: Action, k: nat)
    requires Inv(cfg, s) && Enabled(cfg, s, a) && s.stopping && k < cfg.shards
    ensures var sh, sh' := s.shards[k], Apply(cfg, s, a).shards[k];
            Attempts(sh'.log) + |sh'.queue| + Extra(sh'.worker) <= Attempts(sh.log) + |sh.queue| + Extra(sh.worker)
  {
    hide LinkInv, ShardsInv, BytesInv, MetricsInv, WorkerNext, WorkerEnabled, CallNext, Extra, Attempts;
    match a
    case ShutdownStep(_) =>
    case CallStep(i) => NothingSent(cfg, s, i, k);
    case WorkerStep(n, act) =>
      if n == k {
        AttemptsKeptByWorker(s.shards[k], act, s.cancelled);
      }
  }

  lemma {:induction false} AttemptsKeptByWorker(sh: Shard, act: WorkerAct, cancelled: bool)
    requires WorkerEnabled(sh, act, true, cancelled)
    ensures var sh' := WorkerNext(sh, act, true, cancelled);
            Attempts(sh'.log) + |sh'.queue| + Extra(sh'.worker) <= Attempts(sh.log) + |sh.queue| + Extra(sh.worker)
  {
    hide WorkerNext, WorkerEnabled, WorkerEvent, Extra;
    var es := WorkerEvent(sh, act, true);
    WorkerShape(sh, act, true, cancelled);
    ExtraFalls(sh, act, cancelled);
    if es == [] {
      assert sh.log + es == sh.log;
    } else {
      LogPush(sh.log, es[0]);
    }
  }

  lemma {:induction false} ExtraFalls(sh: Shard, act: WorkerAct, cancelled: bool)
    requires WorkerEnabled(sh, act, true, cancelled)
    ensures var sh' := WorkerNext(sh, act, true, cancelled);
            var es := WorkerEvent(sh, act, true);
            && (es != [] ==> es == [es[0]])
            && |sh'.queue| + Extra(sh'.worker) + (if es != [] && es[0].Attempt? then 1 else 0) <=
               |sh.queue| + Extra(sh.worker)
  {
  }

  /** Once the sink is closed, a call changes nothing but its own phase. */
  lemma {:induction false} NothingSent(cfg: Config, s: State, i: nat, k: nat)
    requires Sized(cfg, s) && LockInv(s) && CallEnabled(s, i) && s.stopping && k < cfg.shards
    ensures Apply(cfg, s, CallStep(i)).shards[k] == s.shards[k]
  {
    assert !s.calls[i].Sending();
  }

  lemma {:induction false} AttemptsAlongRun(cfg: Config, s: State, acts: seq<Action>, k: nat)
    requires Inv(cfg, s) && CanRun(cfg, s, acts) && s.stopping && k < cfg.shards
    ensures var sh, sh' := s.shards[k], After(cfg, s, acts).shards[k];
            Attempts(sh'.log) + |sh'.queue| + Extra(sh'.worker) <= Attempts(sh.log) + |sh.queue| + Extra(sh.worker)
    decreases |acts|
  {
    if acts != [] {
      AttemptsKept(cfg, s, acts[0], k);
      InvKept(cfg, s, acts[0]);
      AttemptsAlongRun(cfg, Apply(cfg, s, acts[0]), acts[1..], k);
    }
  }

  /**
  Take any run, and any continuation of it after stopping is closed: the continuation starts at most one attempt per
  item the shard held at that moment, and one more.
  */
  lemma {:induction false} AttemptsAfterStopping(cfg: Config, t: State, more: seq<Action>, k: nat)
    requires Reachable(cfg, t) && t.stopping
    requires CanRun(cfg, t, more) && k < cfg.shards
    ensures var held := |t.shards[k].queue| + |Pending(t.shards[k].worker)|;
            Attempts(After(cfg, t, more).shards[k].log) <= Attempts(t.shards[k].log) + held + 1
  {
    hide Inv, CanRun, After;
    InvReachable(cfg, t);
    AttemptsAlongRun(cfg, t, more, k);
  }

  // ----- every worker ends -----

  /** Worker steps left once stopping is closed: four per queued item, plus what the item in hand needs. */
  ghost function StepsLeft(sh: Shard): nat {
    var q := 4 * |sh.queue|;
    match sh.worker
    case Done => 0
    case Draining => q + 1
    case Top => q + 2
    case Select => q + 5
    case Holding(_, stage, draining) =>
      if draining then
        (match stage case FinalCheck => q + 4 case FinalAttempting => q + 3 case _ => q + 2)
      else
        (match stage
         case BackingOff => q + 10
         case Sleeping => q + 9
         case Ready => q + 8
         case Attempting => q + 7
         case AttemptFailed => q + 6
         case FinalCheck => q + 5
         case FinalAttempting => q + 4
         case Finished => q + 3)
  }

  ghost function StepsOf(acts: seq<Action>, k: nat): nat {
    if acts == [] then 0
    else (if acts[0].WorkerStep? && acts[0].k == k then 1 else 0) + StepsOf(acts[1..], k)
  }

  lemma {:induction false} StepsLeftFalls(sh: Shard, act: WorkerAct, cancelled: bool)
    requires WorkerEnabled(sh, act, true, cancelled) && WorkerOk(sh, true)
    ensures StepsLeft(WorkerNext(sh, act, true, cancelled)) < StepsLeft(sh)
  {
  }

  lemma {:induction false} StepsLeftKept(cfg: Config, s: State, a: Action, k: nat)
    requires Inv(cfg, s) && Enabled(cfg, s, a) && s.stopping && k < cfg.shards
    ensures StepsLeft(Apply(cfg, s, a).shards[k]) <= StepsLeft(s.shards[k])
    ensures a.WorkerStep? && a.k == k ==> StepsLeft(Apply(cfg, s, a).shards[k]) < StepsLeft(s.shards[k])
  {
    hide LinkInv, BytesInv, MetricsInv, WorkerNext, WorkerEnabled, CallNext, StepsLeft;
    match a
    case ShutdownStep(_) =>
    case CallStep(i) => NothingSent(cfg, s, i, k);
    case WorkerStep(n, act) =>
      if n == k {
        assert ShardInv(s.shards[k], s.stopping, s.cancelled);
        StepsLeftFalls(s.shards[k], act, s.cancelled);
      }
  }

  lemma {:induction false} StepsAlongRun(cfg: Config, s: State, more: seq<Action>, k: nat)
    requires Inv(cfg, s) && CanRun(cfg, s, more) && s.stopping && k < cfg.shards
    ensures StepsOf(more, k) + StepsLeft(After(cfg, s, more).shards[k]) <= StepsLeft(s.shards[k])
    decreases |more|
  {
    if more != [] {
      var t := Apply(cfg, s, more[0]);
      StepsLeftKept(cfg, s, more[0], k);
      assert t.stopping;
      InvKept(cfg, s, more[0]);
      StepsAlongRun(cfg, t, more[1..], k);
    }
  }

  /**
  However long a run goes on after stopping is closed, a shard's worker takes at most four steps in it per item that was
  queued, and ten more. It is done exactly when it has none left.
  */
  lemma {:induction false} WorkerStepsBounded(cfg: Config, t: State, more: seq<Action>, k: nat)
    requires Reachable(cfg, t) && t.stopping
    requires CanRun(cfg, t, more) && k < cfg.shards
    ensures StepsOf(more, k) + StepsLeft(After(cfg, t, more).shards[k]) <= StepsLeft(t.shards[k])
    ensures StepsLeft(t.shards[k]) <= 4 * |t.shards[k].queue| + 10
    ensures StepsLeft(t.shards[k]) == 0 <==> t.shards[k].worker.Done?
  {
    hide Inv, CanRun, After;
    InvReachable(cfg, t);
    StepsAlongRun(cfg, t, more, k);
  }

  /** A worker is never stuck after stopping is closed: it is done or it can step. */
  lemma {:induction false} WorkerNeverStuck(sh: Shard, stopping: bool, cancelled: bool) returns (act: WorkerAct)
    requires stopping && !sh.worker.Done?
    ensures WorkerEnabled(sh, act, stopping, cancelled)
  {
    match sh.worker
    case Top => act := SeeStopping;
    case Select => act := SeeStopping;
    case Draining => act := if sh.queue == [] then FindEmpty else TakeItem;
    case Holding(_, stage, _) =>
      match stage
      case Ready => act := StartAttempt;
      case Attempting => act := AttemptSucceeds;
      case AttemptFailed => act := SeeStopping;
      case BackingOff => act := BudgetSpent;
      case Sleeping => act := SeeStopping;
      case FinalCheck => act := if cancelled then ContextEnded else StartFinal;
      case FinalAttempting => act := FinalFails;
      case Finished => act := ReleaseBytes;
  }

  // ----- and Shutdown returns -----

  ghost function ReaderSteps(): Call -> int {
    (c: Call) => ReaderRank(c)
  }

  /** Steps left for a call that holds the read lock. */
  ghost function ReaderRank(c: Call): nat {
    if c.Reading() then CallRank(c.phase) else 0
  }

  ghost function WorkerSteps(): Shard -> int {
    (sh: Shard) => StepsLeft(sh)
  }

  ghost function ShutdownRank(p: ShutdownPhase): nat {
    match p
    case NotCalled => 6
    case WantsLock => 5
    case HasLock => 4
    case ClosedSet => 3
    case LockFreed => 2
    case Waiting => 1
    case ShutDown => 0
  }

  /** A step of the sink's own: of a call that holds the read lock, of a worker, or of Shutdown before its deadline. */
  ghost predicate Own(s: State, a: Action) {
    match a
    case CallStep(i) => i < |s.calls| && s.calls[i].Reading()
    case WorkerStep(_, _) => true
    case ShutdownStep(act) => !act.DeadlinePasses? && !act.CallIt?
  }

  ghost predicate AllOwn(cfg: Config, s: State, acts: seq<Action>)
    requires Sized(cfg, s) && CanRun(cfg, s, acts)
    decreases |acts|
  {
    acts == [] || (Own(s, acts[0]) && AllOwn(cfg, Apply(cfg, s, acts[0]), acts[1..]))
  }

  /** While Shutdown is under way there is a step of the sink's own that brings its return closer. */
  lemma {:induction false} NextOwnStep(cfg: Config, t: State) returns (a: Action)
    requires Inv(cfg, t) && !t.shutdown.NotCalled? && !t.shutdown.ShutDown?
    ensures Enabled(cfg, t, a) && Own(t, a)
    ensures a.ShutdownStep? ==> ShutdownRank(Apply(cfg, t, a).shutdown) < ShutdownRank(t.shutdown)
    ensures a.WorkerStep? ==> t.stopping
  {
    hide LinkInv, ShardsInv, BytesInv, MetricsInv, WorkerEnabled, WorkerNext, CallNext;
    match t.shutdown
    case WantsLock =>
      if NoReaders(t) {
        a := ShutdownStep(Lock);
      } else {
        var i :| 0 <= i < |t.calls| && t.calls[i].Reading();
        a := CallStep(i);
      }
    case HasLock => a := ShutdownStep(SetClosed);
    case ClosedSet => a := ShutdownStep(Unlock);
    case LockFreed => a := ShutdownStep(CloseStopping);
    case Waiting =>
      if WorkersDone(t) {
        a := ShutdownStep(SeeWorkersDone);
      } else {
        var k :| 0 <= k < |t.shards| && !t.shards[k].worker.Done?;
        var act := WorkerNeverStuck(t.shards[k], t.stopping, t.cancelled);
        a := WorkerStep(k, act);
      }
  }

  lemma {:induction false} ReaderCloser(cfg: Config, t: State, i: nat)
    requires Sized(cfg, t) && CallEnabled(t, i) && t.calls[i].Reading()
    ensures Sum(Apply(cfg, t, CallStep(i)).calls, ReaderSteps()) < Sum(t.calls, ReaderSteps())
  {
    var c := t.calls[i];
    var r := CallNext(cfg, c, t.shards[cfg.Route(c.item.owner)], t.closed);
    assert ReaderRank(c.(phase := r.phase)) < ReaderRank(c);
    SumUpdate(t.calls, i, c.(phase := r.phase), ReaderSteps());
  }

  lemma {:induction false} WorkerCloser(cfg: Config, t: State, k: nat, act: WorkerAct)
    requires Sized(cfg, t) && ShardsInv(t) && Enabled(cfg, t, WorkerStep(k, act)) && t.stopping
    ensures Sum(Apply(cfg, t, WorkerStep(k, act)).shards, WorkerSteps()) < Sum(t.shards, WorkerSteps())
  {
    hide WorkerNext, WorkerEnabled, StepsLeft;
    assert ShardInv(t.shards[k], t.stopping, t.cancelled);
    StepsLeftFalls(t.shards[k], act, t.cancelled);
    SumUpdate(t.shards, k, WorkerNext(t.shards[k], act, t.stopping, t.cancelled), WorkerSteps());
  }

  /**
  From every reachable state in which Shutdown was called, whatever else is going on, steps of the sink's own alone lead
  to its return: no new call, no call that still waits for the lock and no deadline is needed. With the bound above, and
  each attempt ending, every worker ends and Shutdown returns.
  */
  lemma {:induction false} ShutdownCanReturn(cfg: Config, t: State) returns (more: seq<Action>)
    requires Reachable(cfg, t) && !t.shutdown.NotCalled?
    ensures CanRun(cfg, t, more) && After(cfg, t, more).shutdown.ShutDown? && AllOwn(cfg, t, more)
  {
    InvReachable(cfg, t);
    more := WayToReturn(cfg, t);
  }

  lemma {:induction false} WayToReturn(cfg: Config, t: State) returns (more: seq<Action>)
    requires Inv(cfg, t) && !t.shutdown.NotCalled?
    ensures CanRun(cfg, t, more) && After(cfg, t, more).shutdown.ShutDown? && AllOwn(cfg, t, more)
    decreases ShutdownRank(t.shutdown), Sum(t.calls, ReaderSteps()), Sum(t.shards, WorkerSteps())
  {
    more := [];
    if !t.shutdown.ShutDown? {
      SumNonNegative(t.calls, ReaderSteps());
      SumNonNegative(t.shards, WorkerSteps());
      var a := NextOwnStep(cfg, t);
      var u := Apply(cfg, t, a);
      InvKept(cfg, t, a);
      match a {
        case CallStep(i) => ReaderCloser(cfg, t, i);
        case WorkerStep(k, act) => WorkerCloser(cfg, t, k, act);
        case ShutdownStep(_) =>
      }
      var rest := WayToReturn(cfg, u);
      more := [a] + rest;
      assert more[1..] == rest;
    }
  }
}
