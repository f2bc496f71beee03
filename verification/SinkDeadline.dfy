/** What the deadline of Shutdown does (internal/forward/forward.go): it stops the final attempts. */
module SinkDeadline {
  import opened Sink
  import opened SinkShard
  import opened SinkInvariant
  import opened SinkRetries
  import opened SinkTheorems

  // ----- who cancels the context -----

  /** Steps that cancel the context: the deadline, and Shutdown itself on its way out. */
  predicate Cancels(a: Action) {
    a == ShutdownStep(DeadlinePasses) || a == ShutdownStep(SeeWorkersDone)
  }

  /** The context is canceled exactly when the deadline has passed or Shutdown has seen the workers done. */
  lemma {:induction false} CancelledIff(cfg: Config, s: State, acts: seq<Action>)
    requires Sized(cfg, s) && CanRun(cfg, s, acts)
    ensures After(cfg, s, acts).cancelled <==> s.cancelled || exists j :: 0 <= j < |acts| && Cancels(acts[j])
    decreases |acts|
  {
    hide Apply, Enabled, Cancels;
    if acts != [] {
      var rest := acts[1..];
      CancelledByStep(cfg, s, acts[0]);
      CancelledIff(cfg, Apply(cfg, s, acts[0]), rest);
      CancelsLater(acts);
    }
  }

  lemma {:induction false} CancelledByStep(cfg: Config, s: State, a: Action)
    requires Sized(cfg, s) && Enabled(cfg, s, a)
    ensures Apply(cfg, s, a).cancelled <==> s.cancelled || Cancels(a)
  {
    hide WorkerNext, WorkerEnabled, CallNext;
  }

  lemma {:induction false} CancelsLater(acts: seq<Action>)
    requires acts != []
    ensures (exists j :: 0 <= j < |acts| && Cancels(acts[j])) <==>
            Cancels(acts[0]) || exists j :: 0 <= j < |acts[1..]| && Cancels(acts[1..][j])
  {
    hide Cancels;
    var rest := acts[1..];
    assert forall j | 0 <= j < |rest| :: rest[j] == acts[j + 1];
    if j :| 0 <= j < |acts| && Cancels(acts[j]) {
      assert j > 0 ==> Cancels(rest[j - 1]);
    }
  }

  // ----- after the deadline -----

  /** Since the first n events of the shard no final attempt started, and what drain took is dropped or will be. */
  ghost predicate NoFinalSince(sh: Shard, n: nat) {
    && n <= |sh.log|
    && (forall j | n <= j < |sh.log| :: sh.log[j].Attempt? ==> !sh.log[j].final)
    && (forall i, j | n <= i < j < |sh.log| :: DroppedLate(sh.log[i], sh.log[j]))
    && (sh.worker.Holding? && sh.worker.stage.FinalAttempting? ==> !DrainedSince(sh.log, n, sh.worker.item.call))
  }

  /** If the first event is a take by drain and the second settles the same item, it does so as shutdown_deadline. */
  ghost predicate DroppedLate(take: Event, settle: Event) {
    take.Take? && take.drained && settle.Settle? && settle.item.call == take.item.call ==>
    settle.outcome == Drop(ShutdownDeadline)
  }

  ghost predicate DrainedSince(log: seq<Event>, n: nat, c: nat) {
    exists i :: n <= i < |log| && log[i].Take? && log[i].drained && log[i].item.call == c
  }

  lemma {:induction false} DrainedSincePush(log: seq<Event>, n: nat, e: Event, c: nat)
    requires n <= |log|
    ensures DrainedSince(log + [e], n, c) <==> DrainedSince(log, n, c) || (e.Take? && e.drained && e.item.call == c)
    ensures DrainedSince(log, n, c) ==> TakenByDrain(log, c)
  {
    var more := log + [e];
    assert more[|log|] == e;
    assert forall i | 0 <= i < |log| :: more[i] == log[i];
  }

  /** A worker step once the context is canceled. */
  lemma {:induction false} NoFinalKept(sh: Shard, act: WorkerAct, stopping: bool, n: nat)
    requires ShardInv(sh, stopping, true) && NoFinalSince(sh, n) && WorkerEnabled(sh, act, stopping, true)
    ensures NoFinalSince(WorkerNext(sh, act, stopping, true), n)
  {
    hide ShardInv, NoFinalSince;
    var sh' := WorkerNext(sh, act, stopping, true);
    if sh'.log == sh.log {
      NoFinalKeptQuietly(sh, act, stopping, n);
    } else {
      NoFinalKeptByEvent(sh, act, stopping, n);
    }
  }

  lemma {:induction false} NoFinalKeptQuietly(sh: Shard, act: WorkerAct, stopping: bool, n: nat)
    requires NoFinalSince(sh, n) && WorkerEnabled(sh, act, stopping, true)
    requires WorkerNext(sh, act, stopping, true).log == sh.log
    ensures NoFinalSince(WorkerNext(sh, act, stopping, true), n)
  {
    hide DroppedLate, DrainedSince;
  }

  lemma {:induction false} NoFinalKeptByEvent(sh: Shard, act: WorkerAct, stopping: bool, n: nat)
    requires ShardInv(sh, stopping, true) && NoFinalSince(sh, n) && WorkerEnabled(sh, act, stopping, true)
    requires WorkerNext(sh, act, stopping, true).log != sh.log
    ensures NoFinalSince(WorkerNext(sh, act, stopping, true), n)
  {
    hide ShardInv, NoFinalSince;
    var sh' := WorkerNext(sh, act, stopping, true);
    if act == TakeItem {
      Recorded(sh, sh', Take(sh.queue[0], sh.worker.Draining?), n);
    } else if act == StartAttempt {
      Recorded(sh, sh', Attempt(sh.worker.item, false, stopping), n);
    } else {
      var outcome := if act == ContextEnded then Drop(ShutdownDeadline)
                     else if act == AttemptSucceeds || act == FinalSucceeds then Success
                     else if act == AttemptFailsForGood then Drop(Permanent)
                     else if act == BudgetSpent then Drop(RetryExhausted)
                     else Drop(ShutdownAttemptFailed);
      if act != ContextEnded {
        NotDrainedSince(sh, stopping, n, act);
      }
      Recorded(sh, sh', Settle(sh.worker.item, outcome), n);
    }
  }

  /** Only ContextEnded settles an item that drain took since. */
  lemma {:induction false} NotDrainedSince(sh: Shard, stopping: bool, n: nat, act: WorkerAct)
    requires ShardInv(sh, stopping, true) && NoFinalSince(sh, n) && sh.worker.Holding?
    requires var g := sh.worker.stage; g.Attempting? || g.BackingOff? || g.FinalAttempting?
    ensures !DrainedSince(sh.log, n, sh.worker.item.call)
  {
    hide ShardInv, DrainedSince, TakenByDrain, Tried;
    if !sh.worker.stage.FinalAttempting? {
      HeldHistory(sh, stopping, true);
      OnlyFinalsDrain(sh, stopping);
      DrainedSincePush(sh.log, n, Take(sh.worker.item, false), sh.worker.item.call);
    }
  }

  lemma {:induction false} OnlyFinalsDrain(sh: Shard, stopping: bool)
    requires ShardInv(sh, stopping, true) && sh.worker.Holding?
    requires sh.worker.stage.Attempting? || sh.worker.stage.BackingOff?
    ensures !sh.worker.draining
  {
    hide InOrder, SettledItems, Distinct, LateOk, TallyOk;
  }

  /** One more event, of a kind that breaks nothing. */
  lemma {:induction false} Recorded(sh: Shard, sh': Shard, e: Event, n: nat)
    requires NoFinalSince(sh, n) && sh'.log == sh.log + [e]
    requires e.Attempt? ==> !e.final
    requires e.Settle? ==> e.outcome == Drop(ShutdownDeadline) || !DrainedSince(sh.log, n, e.item.call)
    requires !(sh'.worker.Holding? && sh'.worker.stage.FinalAttempting?)
    ensures NoFinalSince(sh', n)
  {
    var log := sh.log;
    forall i, j | n <= i < j < |sh'.log| ensures DroppedLate(sh'.log[i], sh'.log[j]) {
      assert sh'.log[i] == log[i];
      if j < |log| {
        assert DroppedLate(log[i], log[j]);
      }
    }
  }

  ghost predicate NoFinalsSince(s: State, from: seq<nat>) {
    && |from| == |s.shards|
    && forall k | 0 <= k < |s.shards| :: NoFinalSince(s.shards[k], from[k])
  }

  lemma {:induction false} NoFinalFrame(sh: Shard, sh': Shard, n: nat)
    requires NoFinalSince(sh, n) && sh'.log == sh.log && sh'.worker == sh.worker
    ensures NoFinalSince(sh', n)
  {
  }

  lemma {:induction false} NoFinalsKept(cfg: Config, s: State, a: Action, from: seq<nat>)
    requires Sized(cfg, s) && Enabled(cfg, s, a) && ShardsInv(s) && s.cancelled && NoFinalsSince(s, from)
    ensures Apply(cfg, s, a).cancelled && NoFinalsSince(Apply(cfg, s, a), from)
    ensures forall k :: a != WorkerStep(k, StartFinal)
  {
    hide ShardInv, NoFinalSince, WorkerNext, CallNext;
    var t := Apply(cfg, s, a);
    forall k | 0 <= k < |t.shards| ensures NoFinalSince(t.shards[k], from[k]) {
      assert ShardInv(s.shards[k], s.stopping, s.cancelled);
      match a
      case ShutdownStep(_) => NoFinalFrame(s.shards[k], t.shards[k], from[k]);
      case WorkerStep(m, act) =>
        if m == k {
          NoFinalKept(s.shards[k], act, s.stopping, from[k]);
        }
      case CallStep(i) =>
        CallShape(cfg, s.calls[i], s.shards[cfg.Route(s.calls[i].item.owner)], s.closed);
        NoFinalFrame(s.shards[k], t.shards[k], from[k]);
    }
  }

  lemma {:induction false} NoFinalsAlongRun(cfg: Config, s: State, more: seq<Action>, from: seq<nat>)
    requires Inv(cfg, s) && CanRun(cfg, s, more) && s.cancelled && NoFinalsSince(s, from)
    ensures NoFinalsSince(After(cfg, s, more), from)
    ensures forall j, k | 0 <= j < |more| :: more[j] != WorkerStep(k, StartFinal)
    decreases |more|
  {
    hide NoFinalsSince, LockInv, LinkInv, ShardsInv, BytesInv, MetricsInv, Enabled, Apply;
    if more != [] {
      var rest := more[1..];
      NoFinalsKept(cfg, s, more[0], from);
      InvKept(cfg, s, more[0]);
      NoFinalsAlongRun(cfg, Apply(cfg, s, more[0]), rest, from);
      assert forall j | 0 < j < |more| :: more[j] == rest[j - 1];
    }
  }

  /**
  Once the deadline has passed no schedule starts another final attempt on any shard, and every item that drain takes from
  then on is settled, if it is, as shutdown_deadline. With ShutdownSettlesEverything, it is by the time Shutdown returns.
  */
  lemma {:induction false} DeadlineStopsAttempts(cfg: Config, t: State, more: seq<Action>, k: nat)
    requires Reachable(cfg, t) && t.shutdown.Waiting? && k < cfg.shards
    requires CanRun(cfg, Apply(cfg, t, ShutdownStep(DeadlinePasses)), more)
    ensures forall j | 0 <= j < |more| :: more[j] != WorkerStep(k, StartFinal)
    ensures var n, log := |t.shards[k].log|, After(cfg, Apply(cfg, t, ShutdownStep(DeadlinePasses)), more).shards[k].log;
            && n <= |log|
            && (forall j | n <= j < |log| :: log[j].Attempt? ==> !log[j].final)
            && (forall i, j | n <= i < j < |log| :: DroppedLate(log[i], log[j]))
  {
    hide Inv, CanRun, After, DroppedLate, WorkerEnabled, WorkerNext, CallNext;
    InvReachable(cfg, t);
    var u := Apply(cfg, t, ShutdownStep(DeadlinePasses));
    InvKept(cfg, t, ShutdownStep(DeadlinePasses));
    var from := seq(|u.shards|, i requires 0 <= i < |u.shards| => |u.shards[i].log|);
    NoFinalsAlongRun(cfg, u, more, from);
    assert NoFinalSince(After(cfg, u, more).shards[k], from[k]);
  }

  lemma {:induction false} SettleEvent(log: seq<Event>, x: Item) returns (j: nat)
    requires x in SettledItems(log)
    ensures j < |log| && log[j].Settle? && log[j].item == x
  {
    var n := |log| - 1;
    if log[n].Settle? && log[n].item == x {
      j := n;
    } else {
      j := SettleEvent(log[..n], x);
    }
  }

  lemma {:induction false} SettledBefore(log: seq<Event>, j: nat)
    requires j < |log| && log[j].Settle?
    ensures log[j].item in SettledItems(log)
  {
    var n := |log| - 1;
    if j < n {
      SettledBefore(log[..n], j);
      assert SettledItems(log[..n]) <= SettledItems(log);
    } else {
      assert SettledItems(log)[|SettledItems(log[..n])|] == log[n].item;
    }
  }

  /** An item is settled after the worker took it. */
  lemma {:induction false} SettledAfterTake(sh: Shard, i: nat) returns (j: nat)
    requires InOrder(sh.log, sh.accepted) && Distinct(sh.accepted) && SettledItems(sh.log) == sh.accepted
    requires i < |sh.log| && sh.log[i].Take?
    ensures i < j < |sh.log| && sh.log[j].Settle? && sh.log[j].item == sh.log[i].item
  {
    hide InOrder, SettledItems;
    var done := SettledItems(sh.log[..i]);
    InOrderAt(sh.log, sh.accepted, i);
    j := SettleEvent(sh.log, sh.log[i].item);
    SettledGrow(sh.log, i, |sh.log|);
    assert sh.log[..|sh.log|] == sh.log;
    if j < i {
      assert sh.log[..i][j] == sh.log[j];
      SettledBefore(sh.log[..i], j);
    }
  }

  /** So when Shutdown returns, every item that drain took after the deadline was dropped as shutdown_deadline. */
  lemma {:induction false} DrainedLateIsDropped(cfg: Config, t: State, more: seq<Action>, k: nat, i: nat)
    returns (j: nat)
    requires Reachable(cfg, t) && t.shutdown.Waiting? && k < cfg.shards
    requires CanRun(cfg, Apply(cfg, t, ShutdownStep(DeadlinePasses)), more)
    requires After(cfg, Apply(cfg, t, ShutdownStep(DeadlinePasses)), more).shutdown.ShutDown?
    requires var log := After(cfg, Apply(cfg, t, ShutdownStep(DeadlinePasses)), more).shards[k].log;
             |t.shards[k].log| <= i < |log| && log[i].Take? && log[i].drained
    ensures var log := After(cfg, Apply(cfg, t, ShutdownStep(DeadlinePasses)), more).shards[k].log;
            i < j < |log| && log[j] == Settle(log[i].item, Drop(ShutdownDeadline))
  {
    hide CanRun, After, WorkerEnabled, WorkerNext, CallNext, Reachable, InOrder, SettledItems, Distinct, TallyOk, LateOk;
    var a := ShutdownStep(DeadlinePasses);
    var u := Apply(cfg, t, a);
    var v := After(cfg, u, more);
    DeadlineStopsAttempts(cfg, t, more, k);
    assert Reachable(cfg, v) by { DeadlineReachable(cfg, t, more); }
    ShutdownSettlesEverything(cfg, v, k);
    ShardInvReachable(cfg, v, k);
    j := SettledAfterTake(v.shards[k], i);
    assert DroppedLate(v.shards[k].log[i], v.shards[k].log[j]);
  }

  lemma {:induction false} DeadlineReachable(cfg: Config, t: State, more: seq<Action>)
    requires Reachable(cfg, t) && t.shutdown.Waiting?
    requires CanRun(cfg, Apply(cfg, t, ShutdownStep(DeadlinePasses)), more)
    ensures Reachable(cfg, After(cfg, Apply(cfg, t, ShutdownStep(DeadlinePasses)), more))
  {
    hide Reachable, Apply;
    var a := ShutdownStep(DeadlinePasses);
    assert Sized(cfg, t) by { InvReachable(cfg, t); }
    assert ([a] + more)[1..] == more;
    StaysReachable(cfg, t, [a] + more);
  }
}
