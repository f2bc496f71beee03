/**
What ForwardRetries counts (internal/forward/forward.go, metrics/counters.go).

An attempt that does not settle its item failed and may be retried, so an attempt is made after a retryable failure
exactly when its item was attempted before. The retry loop counts such an attempt when its wait is over, just before it
starts. The final attempt of an item that Shutdown found in the retry loop is one too, and is not counted.
*/
module SinkRetries {
  import opened GoStrings
  import opened Sums
  import opened Sink
  import opened SinkShard
  import opened SinkInvariant
  import opened SinkWitness
  import SinkTheorems

  // ----- reading the history -----

  ghost predicate Tried(log: seq<Event>, c: nat) {
    exists j :: 0 <= j < |log| && log[j].Attempt? && log[j].item.call == c
  }

  ghost predicate TakenByDrain(log: seq<Event>, c: nat) {
    exists j :: 0 <= j < |log| && log[j].Take? && log[j].drained && log[j].item.call == c
  }

  /** An attempt for the label that has an earlier attempt of the same call. */
  ghost predicate IsRepeat(log: seq<Event>, j: nat, l: Bytes)
    requires j < |log|
  {
    log[j].Attempt? && log[j].item.Label() == l && Tried(log[..j], log[j].item.call)
  }

  /** A final attempt for the label, of an item that drain did not take. */
  ghost predicate IsOwnFinal(log: seq<Event>, j: nat, l: Bytes)
    requires j < |log|
  {
    log[j].Attempt? && log[j].final && log[j].item.Label() == l && !TakenByDrain(log[..j], log[j].item.call)
  }

  ghost function Repeats(log: seq<Event>, l: Bytes): nat {
    if log == [] then 0
    else Repeats(log[..|log| - 1], l) + if IsRepeat(log, |log| - 1, l) then 1 else 0
  }

  ghost function OwnFinals(log: seq<Event>, l: Bytes): nat {
    if log == [] then 0
    else OwnFinals(log[..|log| - 1], l) + if IsOwnFinal(log, |log| - 1, l) then 1 else 0
  }

  lemma {:induction false} PushEvent(log: seq<Event>, e: Event, l: Bytes)
    ensures Repeats(log + [e], l) ==
            Repeats(log, l) + if e.Attempt? && e.item.Label() == l && Tried(log, e.item.call) then 1 else 0
    ensures OwnFinals(log + [e], l) == OwnFinals(log, l) +
            if e.Attempt? && e.final && e.item.Label() == l && !TakenByDrain(log, e.item.call) then 1 else 0
  {
    hide Tried, TakenByDrain;
    assert (log + [e])[..|log|] == log;
  }

  lemma {:induction false} TriedPush(log: seq<Event>, e: Event, c: nat)
    ensures Tried(log + [e], c) <==> Tried(log, c) || (e.Attempt? && e.item.call == c)
    ensures TakenByDrain(log + [e], c) <==> TakenByDrain(log, c) || (e.Take? && e.drained && e.item.call == c)
  {
    var more := log + [e];
    assert more[|log|] == e;
    assert forall j | 0 <= j < |log| :: more[j] == log[j];
  }

  lemma {:induction false} TriedTally(log: seq<Event>, c: nat)
    ensures Tried(log, c) <==> TallyOf(log, c).regular + TallyOf(log, c).final > 0
    ensures TakenByDrain(log, c) <==> TallyOf(log, c).drained > 0
  {
    if log != [] {
      var before, e := log[..|log| - 1], log[|log| - 1];
      TriedTally(before, c);
      assert log == before + [e];
      TriedPush(before, e, c);
      TallyPush(before, e, c);
    }
  }

  lemma {:induction false} OwnFinalsNone(log: seq<Event>, l: Bytes)
    ensures OwnFinals(log, l) == 0 <==> forall j | 0 <= j < |log| :: !IsOwnFinal(log, j, l)
  {
    hide IsOwnFinal;
    if log != [] {
      var n := |log| - 1;
      OwnFinalsNone(log[..n], l);
      forall j | 0 <= j < n ensures IsOwnFinal(log[..n], j, l) <==> IsOwnFinal(log, j, l) {
        OwnFinalOfPrefix(log, n, j, l);
      }
    }
  }

  lemma {:induction false} OwnFinalOfPrefix(log: seq<Event>, n: nat, j: nat, l: Bytes)
    requires j < n <= |log|
    ensures IsOwnFinal(log[..n], j, l) <==> IsOwnFinal(log, j, l)
  {
    assert log[..n][..j] == log[..j];
  }

  // ----- what every step of a shard keeps -----

  /** The worker is about to start an attempt that its loop has counted already. */
  ghost function ReadyAgain(l: Bytes, sh: Shard): nat {
    if sh.worker.Holding? && sh.worker.stage.Ready? && sh.worker.item.Label() == l && Tried(sh.log, sh.worker.item.call)
    then 1 else 0
  }

  /** Where a worker can be once it started the final attempt of an item it did not drain. */
  ghost predicate PastOwnFinal(w: Worker) {
    w.Top? || w.Draining? || w.Done? || (w.Holding? && (w.draining || w.stage.FinalAttempting? || w.stage.Finished?))
  }

  ghost predicate RetryInv(sh: Shard, stopping: bool, l: Bytes) {
    && Repeats(sh.log, l) + ReadyAgain(l, sh) == ShardRetries(l, sh) + OwnFinals(sh.log, l)
    && OwnFinals(sh.log, l) <= 1
    && (OwnFinals(sh.log, l) == 1 ==> stopping && PastOwnFinal(sh.worker))
  }

  /** What the history says of the item in hand. */
  lemma {:induction false} HeldHistory(sh: Shard, stopping: bool, cancelled: bool)
    requires ShardInv(sh, stopping, cancelled) && sh.worker.Holding? && sh.worker.stage != Finished
    ensures var c, stage := sh.worker.item.call, sh.worker.stage;
            && (TakenByDrain(sh.log, c) <==> sh.worker.draining)
            && (sh.worker.draining && stage.FinalCheck? ==> !Tried(sh.log, c))
            && (!sh.worker.draining && !stage.Ready? ==> Tried(sh.log, c))
  {
    hide TallyOf, Tried, TakenByDrain, InOrder, SettledItems, Distinct, LateOk;
    assert TallyOk(sh, cancelled, sh.worker.item.call);
    TriedTally(sh.log, sh.worker.item.call);
  }

  lemma {:induction false} WeighPush(log: seq<Event>, e: Event, l: Bytes)
    ensures Sum(log + [e], RetryEvent(l)) == Sum(log, RetryEvent(l)) + RetryWeight(l, e)
  {
    hide RetryWeight;
    SumPush(log, e, RetryEvent(l));
  }

  lemma {:induction false} KeptByTake(sh: Shard, stopping: bool, cancelled: bool, l: Bytes)
    requires ShardInv(sh, stopping, cancelled) && RetryInv(sh, stopping, l)
    requires WorkerEnabled(sh, TakeItem, stopping, cancelled)
    ensures RetryInv(WorkerNext(sh, TakeItem, stopping, cancelled), stopping, l)
  {
    hide Tried, TakenByDrain, TallyOf, ShardInv, Repeats, OwnFinals, Sum;
    var e := Take(sh.queue[0], sh.worker.Draining?);
    QueuedUntouched(sh, stopping, cancelled, 0);
    TriedTally(sh.log, e.item.call);
    TriedPush(sh.log, e, e.item.call);
    PushEvent(sh.log, e, l);
    WeighPush(sh.log, e, l);
  }

  lemma {:induction false} KeptByStartAttempt(sh: Shard, stopping: bool, l: Bytes)
    requires RetryInv(sh, stopping, l) && sh.worker.Holding? && sh.worker.stage.Ready?
    ensures RetryInv(Start(sh, Attempting, false, stopping), stopping, l)
  {
    hide Tried, TakenByDrain, Repeats, OwnFinals, Sum;
    var e := Attempt(sh.worker.item, false, stopping);
    PushEvent(sh.log, e, l);
    WeighPush(sh.log, e, l);
  }

  lemma {:induction false} KeptByStartFinal(sh: Shard, stopping: bool, cancelled: bool, l: Bytes)
    requires ShardInv(sh, stopping, cancelled) && RetryInv(sh, stopping, l)
    requires sh.worker.Holding? && sh.worker.stage.FinalCheck?
    ensures RetryInv(Start(sh, FinalAttempting, true, stopping), stopping, l)
  {
    hide Tried, TakenByDrain, ShardInv, Repeats, OwnFinals, Sum;
    var e := Attempt(sh.worker.item, true, stopping);
    HeldHistory(sh, stopping, cancelled);
    PushEvent(sh.log, e, l);
    WeighPush(sh.log, e, l);
    FinalNeedsStopping(sh, stopping, cancelled);
  }

  lemma {:induction false} FinalNeedsStopping(sh: Shard, stopping: bool, cancelled: bool)
    requires ShardInv(sh, stopping, cancelled)
    ensures sh.worker.Holding? && sh.worker.stage.FinalCheck? ==> stopping
  {
    hide InOrder, SettledItems, Distinct, LateOk, TallyOk;
  }

  lemma {:induction false} KeptByFinish(sh: Shard, outcome: Outcome, stopping: bool, l: Bytes)
    requires RetryInv(sh, stopping, l) && sh.worker.Holding? && !sh.worker.stage.Ready?
    ensures RetryInv(Finish(sh, outcome), stopping, l)
  {
    hide Tried, TakenByDrain, Repeats, OwnFinals, Sum;
    var e := Settle(sh.worker.item, outcome);
    PushEvent(sh.log, e, l);
    WeighPush(sh.log, e, l);
  }

  /** A step that records nothing: the timer counts a retry and makes the worker ready for it. */
  lemma {:induction false} KeptQuietly(sh: Shard, act: WorkerAct, stopping: bool, cancelled: bool, l: Bytes)
    requires ShardInv(sh, stopping, cancelled) && RetryInv(sh, stopping, l)
    requires WorkerEnabled(sh, act, stopping, cancelled) && WorkerNext(sh, act, stopping, cancelled).log == sh.log
    requires act != TakeItem
    ensures RetryInv(WorkerNext(sh, act, stopping, cancelled), stopping, l)
  {
    hide Tried, TakenByDrain, ShardInv, Repeats, OwnFinals, RetryEvent, Sum;
    if sh.worker.Holding? && sh.worker.stage.Sleeping? {
      HeldHistory(sh, stopping, cancelled);
      NotDraining(sh, stopping, cancelled);
    }
  }

  lemma {:induction false} NotDraining(sh: Shard, stopping: bool, cancelled: bool)
    requires ShardInv(sh, stopping, cancelled) && sh.worker.Holding? && sh.worker.stage.Sleeping?
    ensures !sh.worker.draining
  {
    hide InOrder, SettledItems, Distinct, LateOk, TallyOk;
  }

  lemma {:induction false} RetryInvKeptByWorker(sh: Shard, act: WorkerAct, stopping: bool, cancelled: bool, l: Bytes)
    requires ShardInv(sh, stopping, cancelled) && RetryInv(sh, stopping, l)
    requires WorkerEnabled(sh, act, stopping, cancelled)
    ensures RetryInv(WorkerNext(sh, act, stopping, cancelled), stopping, l)
  {
    hide ShardInv, RetryInv;
    match act
    case TakeItem => KeptByTake(sh, stopping, cancelled, l);
    case StartAttempt => KeptByStartAttempt(sh, stopping, l);
    case StartFinal => KeptByStartFinal(sh, stopping, cancelled, l);
    case AttemptSucceeds => KeptByFinish(sh, Success, stopping, l);
    case AttemptFailsForGood => KeptByFinish(sh, Drop(Permanent), stopping, l);
    case BudgetSpent => KeptByFinish(sh, Drop(RetryExhausted), stopping, l);
    case ContextEnded => KeptByFinish(sh, Drop(ShutdownDeadline), stopping, l);
    case FinalSucceeds => KeptByFinish(sh, Success, stopping, l);
    case FinalFails => KeptByFinish(sh, Drop(ShutdownAttemptFailed), stopping, l);
    case _ => KeptQuietly(sh, act, stopping, cancelled, l);
  }

  // ----- over every schedule -----

  ghost predicate RetryInvAll(s: State, l: Bytes) {
    forall k | 0 <= k < |s.shards| :: RetryInv(s.shards[k], s.stopping, l)
  }

  lemma {:induction false} RetryInvFrame(sh: Shard, sh': Shard, stopping: bool, stopping': bool, l: Bytes)
    requires RetryInv(sh, stopping, l) && sh'.log == sh.log && sh'.worker == sh.worker && (stopping ==> stopping')
    ensures RetryInv(sh', stopping', l)
  {
  }

  lemma {:induction false} RetryInvKept(cfg: Config, s: State, a: Action, l: Bytes)
    requires Sized(cfg, s) && Enabled(cfg, s, a) && ShardsInv(s) && RetryInvAll(s, l)
    ensures RetryInvAll(Apply(cfg, s, a), l)
  {
    hide ShardInv, RetryInv, WorkerNext, WorkerEnabled, CallNext;
    var t := Apply(cfg, s, a);
    forall k | 0 <= k < |t.shards| ensures RetryInv(t.shards[k], t.stopping, l) {
      assert ShardInv(s.shards[k], s.stopping, s.cancelled) && RetryInv(s.shards[k], s.stopping, l);
      match a
      case ShutdownStep(_) => RetryInvFrame(s.shards[k], t.shards[k], s.stopping, t.stopping, l);
      case WorkerStep(n, act) =>
        if n == k {
          RetryInvKeptByWorker(s.shards[k], act, s.stopping, s.cancelled, l);
        }
      case CallStep(i) =>
        CallShape(cfg, s.calls[i], s.shards[cfg.Route(s.calls[i].item.owner)], s.closed);
        RetryInvFrame(s.shards[k], t.shards[k], s.stopping, t.stopping, l);
    }
  }

  lemma {:induction false} RetryInvAlongRun(cfg: Config, s: State, acts: seq<Action>, l: Bytes)
    requires Inv(cfg, s) && RetryInvAll(s, l) && CanRun(cfg, s, acts)
    ensures RetryInvAll(After(cfg, s, acts), l)
    decreases |acts|
  {
    hide RetryInvAll, LockInv, LinkInv, ShardsInv, BytesInv, MetricsInv, Enabled, Apply;
    if acts != [] {
      InvKept(cfg, s, acts[0]);
      RetryInvKept(cfg, s, acts[0], l);
      RetryInvAlongRun(cfg, Apply(cfg, s, acts[0]), acts[1..], l);
    }
  }

  lemma {:induction false} RetryInvReachable(cfg: Config, t: State, l: Bytes)
    requires Reachable(cfg, t)
    ensures RetryInvAll(t, l)
  {
    hide Inv, CanRun, After;
    var s, acts :| Init(cfg, s) && CanRun(cfg, s, acts) && After(cfg, s, acts) == t;
    InvInitially(cfg, s);
    RetryInvAlongRun(cfg, s, acts, l);
  }

  // ----- what the counter counts -----

  ghost function RepeatsIn(l: Bytes): Shard -> int { (sh: Shard) => Repeats(sh.log, l) }
  ghost function ReadyAgainIn(l: Bytes): Shard -> int { (sh: Shard) => ReadyAgain(l, sh) }
  ghost function OwnFinalsIn(l: Bytes): Shard -> int { (sh: Shard) => OwnFinals(sh.log, l) }

  /** Attempts made after a retryable failure, over all shards. */
  ghost function RepeatsOver(t: State, l: Bytes): int { Sum(t.shards, RepeatsIn(l)) }

  /** Workers that are about to make one. */
  ghost function ReadyOver(t: State, l: Bytes): int { Sum(t.shards, ReadyAgainIn(l)) }

  /** Final attempts of items that the retry loop still held when Shutdown began. */
  ghost function OwnFinalsOver(t: State, l: Bytes): int { Sum(t.shards, OwnFinalsIn(l)) }

  lemma {:induction false} SumsAgree(shards: seq<Shard>, l: Bytes)
    requires forall k | 0 <= k < |shards| ::
               Repeats(shards[k].log, l) + ReadyAgain(l, shards[k]) ==
                 ShardRetries(l, shards[k]) + OwnFinals(shards[k].log, l)
    ensures Sum(shards, RepeatsIn(l)) + Sum(shards, ReadyAgainIn(l)) ==
            Sum(shards, RetriesOf(l)) + Sum(shards, OwnFinalsIn(l))
  {
    hide Repeats, ReadyAgain, ShardRetries, OwnFinals;
    if shards != [] {
      SumsAgree(shards[..|shards| - 1], l);
    }
  }

  /**
  At every moment of every schedule, per label: the attempts made after a retryable failure, with those about to be made,
  are the counter plus the final attempts of items that drain did not take. There is at most one of these per shard.
  */
  lemma {:induction false} RetriesCounted(cfg: Config, t: State, l: Bytes)
    requires Reachable(cfg, t)
    ensures RepeatsOver(t, l) + ReadyOver(t, l) == t.metrics[Retries(l)] + OwnFinalsOver(t, l)
    ensures 0 <= OwnFinalsOver(t, l) <= cfg.shards
  {
    hide Repeats, ReadyAgain, ShardRetries, OwnFinals, LockInv, LinkInv, ShardsInv, BytesInv, PastOwnFinal;
    InvReachable(cfg, t);
    assert RetriesOk(t, l);
    RetryInvReachable(cfg, t, l);
    forall k | 0 <= k < |t.shards| ensures RetryInv(t.shards[k], t.stopping, l) {
    }
    SumsAgree(t.shards, l);
    SumNonNegative(t.shards, OwnFinalsIn(l));
    SumBound(t.shards, OwnFinalsIn(l), 1, SinkTheorems.One());
    SinkTheorems.SumOnes(t.shards);
  }

  lemma {:induction false} OwnFinalsOverNone(t: State, l: Bytes)
    ensures OwnFinalsOver(t, l) == 0 <==>
            forall k, j | 0 <= k < |t.shards| && 0 <= j < |t.shards[k].log| :: !IsOwnFinal(t.shards[k].log, j, l)
  {
    hide OwnFinals, IsOwnFinal;
    SumNonNegative(t.shards, OwnFinalsIn(l));
    forall k | 0 <= k < |t.shards|
      ensures OwnFinalsIn(l)(t.shards[k]) == 0 <==>
              forall j | 0 <= j < |t.shards[k].log| :: !IsOwnFinal(t.shards[k].log, j, l)
    {
      OwnFinalsNone(t.shards[k].log, l);
    }
    if forall k, j | 0 <= k < |t.shards| && 0 <= j < |t.shards[k].log| :: !IsOwnFinal(t.shards[k].log, j, l) {
      SumAllZero(t.shards, OwnFinalsIn(l));
    }
  }

  /**
  The counter is the number of attempts made after a retryable failure, with those about to be made, exactly when no item
  of the label started a final attempt outside drain. When no worker is about to make one, it is the number made.
  */
  lemma {:induction false} RetriesExactIff(cfg: Config, t: State, l: Bytes)
    requires Reachable(cfg, t)
    ensures t.metrics[Retries(l)] == RepeatsOver(t, l) + ReadyOver(t, l) <==>
            forall k, j | 0 <= k < |t.shards| && 0 <= j < |t.shards[k].log| :: !IsOwnFinal(t.shards[k].log, j, l)
    ensures (forall k | 0 <= k < |t.shards| :: ReadyAgain(l, t.shards[k]) == 0) ==> ReadyOver(t, l) == 0
  {
    hide IsOwnFinal, ReadyAgain, RepeatsOver, OwnFinalsOver, Reachable;
    RetriesCounted(cfg, t, l);
    OwnFinalsOverNone(t, l);
    if forall k | 0 <= k < |t.shards| :: ReadyAgain(l, t.shards[k]) == 0 {
      SumAllZero(t.shards, ReadyAgainIn(l));
    }
  }

  // ----- an attempt that is not counted -----

  /**
  The counter misses an attempt: one item fails once, Shutdown begins, and the item's final attempt starts. Under its
  label one attempt was made after a retryable failure, none is about to be made, and the counter is 0.
  */
  lemma {:induction false} FinalAttemptNotCounted(item: Item) returns (t: State)
    requires Simple(item)
    ensures Reachable(ONE_SHARD, t)
    ensures t.metrics[Retries(item.Label())] == 0
    ensures RepeatsOver(t, item.Label()) == 1 && ReadyOver(t, item.Label()) == 0
  {
    hide Reachable, Simple, Repeats, Tried;
    var log := [Take(item, false), Attempt(item, false, false)];
    var e := Attempt(item, true, true);
    var sc := FailedOnce(item);
    sc := ShutdownBegins(sc);
    sc := WorkerMoves(sc, SeeStopping);
    sc := WorkerMoves(sc, StartFinal);
    t := At(sc);
    OneRepeat(item, e);
    assert t.shards == [sc.shard] && sc.shard.log == log + [e];
    SumOne(sc.shard, RepeatsIn(item.Label()));
    SumOne(sc.shard, ReadyAgainIn(item.Label()));
  }

  lemma {:induction false} OneRepeat(item: Item, e: Event)
    requires e == Attempt(item, true, true)
    ensures Repeats([Take(item, false), Attempt(item, false, false)] + [e], item.Label()) == 1
  {
    var take, first, l := Take(item, false), Attempt(item, false, false), item.Label();
    assert [take] + [first] == [take, first] && [] + [take] == [take];
    assert Tried([take, first], item.call) by { assert [take, first][1] == first; }
    PushEvent([], take, l);
    PushEvent([take], first, l);
    PushEvent([take, first], e, l);
    assert !Tried([take], item.call);
  }
}
