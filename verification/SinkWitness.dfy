/** Schedules of a sink with one shard and one call, step by step: what can happen does happen. */
module SinkWitness {
  import opened GoStrings
  import opened Sink
  import opened SinkInvariant

  const ONE_SHARD: Config := Config(1, 1, 1, (key: Bytes) => 0)

  /** Where the one call, the one shard and Shutdown stand. */
  datatype Scene = Scene(call: Call, shard: Shard, shutdown: ShutdownPhase, cancelled: bool, metrics: multiset<Metric>)

  ghost function At(sc: Scene): State {
    var closed := sc.shutdown.ClosedSet? || sc.shutdown.LockFreed? || sc.shutdown.Waiting?;
    State([sc.call], [sc.shard], closed, sc.shutdown.Waiting?, sc.cancelled, sc.shutdown, sc.metrics)
  }

  /** The item of the one call, with an empty body. */
  ghost predicate Simple(item: Item) {
    item.call == 0 && item.Labelled() && item.body == []
  }

  lemma {:induction false} OneStep(t: State, a: Action, u: State)
    requires Reachable(ONE_SHARD, t) && Enabled(ONE_SHARD, t, a) && u == Apply(ONE_SHARD, t, a)
    ensures Reachable(ONE_SHARD, u)
  {
    hide Reachable, Enabled, Apply;
    assert [a][1..] == [];
    StaysReachable(ONE_SHARD, t, [a]);
  }

  lemma {:induction false} CallMoves(sc: Scene) returns (next: Scene)
    requires Reachable(ONE_SHARD, At(sc)) && !sc.call.phase.Returned?
    requires sc.call.phase.Locking? ==> !sc.shutdown.HasLock? && !sc.shutdown.ClosedSet?
    ensures var r := CallNext(ONE_SHARD, sc.call, sc.shard, At(sc).closed);
            next == sc.(call := sc.call.(phase := r.phase), shard := r.shard, metrics := sc.metrics + r.counts)
    ensures Reachable(ONE_SHARD, At(next))
  {
    hide Reachable, CallNext;
    var r := CallNext(ONE_SHARD, sc.call, sc.shard, At(sc).closed);
    next := sc.(call := sc.call.(phase := r.phase), shard := r.shard, metrics := sc.metrics + r.counts);
    OneStep(At(sc), CallStep(0), At(next));
  }

  lemma {:induction false} WorkerMoves(sc: Scene, act: WorkerAct) returns (next: Scene)
    requires Reachable(ONE_SHARD, At(sc)) && WorkerEnabled(sc.shard, act, sc.shutdown.Waiting?, sc.cancelled)
    ensures next == sc.(shard := WorkerNext(sc.shard, act, sc.shutdown.Waiting?, sc.cancelled),
                        metrics := sc.metrics + WorkerCounts(sc.shard, act))
    ensures Reachable(ONE_SHARD, At(next))
  {
    hide Reachable, WorkerNext, WorkerCounts, WorkerEnabled;
    next := sc.(shard := WorkerNext(sc.shard, act, sc.shutdown.Waiting?, sc.cancelled),
                metrics := sc.metrics + WorkerCounts(sc.shard, act));
    OneStep(At(sc), WorkerStep(0, act), At(next));
  }

  lemma {:induction false} ShutdownMoves(sc: Scene, act: ShutdownAct, after: ShutdownPhase) returns (next: Scene)
    requires Reachable(ONE_SHARD, At(sc)) && !sc.call.Reading()
    requires match act
             case CallIt => sc.shutdown == NotCalled && after == WantsLock
             case Lock => sc.shutdown == WantsLock && after == HasLock
             case SetClosed => sc.shutdown == HasLock && after == ClosedSet
             case Unlock => sc.shutdown == ClosedSet && after == LockFreed
             case CloseStopping => sc.shutdown == LockFreed && after == Waiting
             case DeadlinePasses => sc.shutdown == Waiting && after == Waiting
             case SeeWorkersDone => false
    ensures next == sc.(shutdown := after, cancelled := sc.cancelled || act.DeadlinePasses?)
    ensures Reachable(ONE_SHARD, At(next))
  {
    hide Reachable;
    next := sc.(shutdown := after, cancelled := sc.cancelled || act.DeadlinePasses?);
    OneStep(At(sc), ShutdownStep(act), At(next));
  }

  /** Shutdown comes to where it waits for the workers. */
  lemma {:induction false} ShutdownBegins(sc: Scene) returns (next: Scene)
    requires Reachable(ONE_SHARD, At(sc)) && sc.shutdown.NotCalled? && !sc.call.Reading()
    ensures next == sc.(shutdown := Waiting) && Reachable(ONE_SHARD, At(next))
  {
    hide Reachable, At;
    next := ShutdownMoves(sc, CallIt, WantsLock);
    next := ShutdownMoves(next, Lock, HasLock);
    next := ShutdownMoves(next, SetClosed, ClosedSet);
    next := ShutdownMoves(next, Unlock, LockFreed);
    next := ShutdownMoves(next, CloseStopping, Waiting);
  }

  /** Before anything has happened. */
  lemma {:induction false} Opening(item: Item, marshals: bool) returns (sc: Scene)
    requires Simple(item)
    ensures sc == Scene(Call(item, marshals, Idle), Shard([], 0, Top, [], []), NotCalled, false, multiset{})
    ensures Reachable(ONE_SHARD, At(sc))
  {
    hide Item.Labelled;
    sc := Scene(Call(item, marshals, Idle), Shard([], 0, Top, [], []), NotCalled, false, multiset{});
    var s := At(sc);
    assert Init(ONE_SHARD, s) && CanRun(ONE_SHARD, s, []) && After(ONE_SHARD, s, []) == s;
  }

  /** The call has queued its item. */
  lemma {:induction false} QueuedOne(item: Item) returns (sc: Scene)
    requires Simple(item)
    ensures sc ==
            Scene(Call(item, true, Returned(Queued)), Shard([item], 0, Top, [item], []), NotCalled, false, multiset{})
    ensures Reachable(ONE_SHARD, At(sc))
  {
    hide Reachable, Item.Labelled;
    sc := Opening(item, true);
    sc := CallMoves(sc);
    sc := CallMoves(sc);
    sc := CallMoves(sc);
    assert sc.call.phase == Locked && sc.shard.queue == [];
    sc := SentOne(sc);
    sc := CallMoves(sc);
  }

  lemma {:induction false} SentOne(before: Scene) returns (sc: Scene)
    requires Reachable(ONE_SHARD, At(before)) && before.shutdown == NotCalled && before.call.item.body == []
    requires before.call.phase == Locked && before.shard == Shard([], 0, Top, [], [])
    ensures var item := before.call.item;
            sc == before.(call := before.call.(phase := Unlocking(Queued)), shard := Shard([item], 0, Top, [item], []))
    ensures Reachable(ONE_SHARD, At(sc))
  {
    hide Reachable;
    sc := CallMoves(before);
    sc := CallMoves(sc);
    sc := CallMoves(sc);
    assert [] + [before.call.item] == [before.call.item];
  }

  /** The worker has taken it and started its first attempt. */
  lemma {:induction false} Attempted(item: Item) returns (sc: Scene)
    requires Simple(item)
    ensures sc == Scene(Call(item, true, Returned(Queued)),
                        Shard([], 0, Holding(item, Attempting, false), [item],
                              [Take(item, false), Attempt(item, false, false)]),
                        NotCalled, false, multiset{})
    ensures Reachable(ONE_SHARD, At(sc))
  {
    hide Reachable, Simple;
    sc := QueuedOne(item);
    sc := WorkerMoves(sc, SeeRunning);
    sc := WorkerMoves(sc, TakeItem);
    assert [item][1..] == [] && [] + [Take(item, false)] == [Take(item, false)];
    sc := WorkerMoves(sc, StartAttempt);
    assert [Take(item, false)] + [Attempt(item, false, false)] == [Take(item, false), Attempt(item, false, false)];
  }

  lemma {:induction false} FailedOnce(item: Item) returns (sc: Scene)
    requires Simple(item)
    ensures sc == Scene(Call(item, true, Returned(Queued)),
                        Shard([], 0, Holding(item, AttemptFailed, false), [item],
                              [Take(item, false), Attempt(item, false, false)]),
                        NotCalled, false, multiset{})
    ensures Reachable(ONE_SHARD, At(sc))
  {
    hide Reachable, Simple, At;
    sc := Attempted(item);
    sc := WorkerMoves(sc, AttemptFailsRetryable);
  }

  /** Shutdown has begun with the item still queued, and drain has taken it. */
  lemma {:induction false} Drained(item: Item, late: bool) returns (sc: Scene)
    requires Simple(item)
    ensures sc == Scene(Call(item, true, Returned(Queued)),
                        Shard([], 0, Holding(item, FinalCheck, true), [item], [Take(item, true)]),
                        Waiting, late, multiset{})
    ensures Reachable(ONE_SHARD, At(sc))
  {
    hide Reachable, Simple;
    sc := QueuedOne(item);
    sc := ShutdownBegins(sc);
    if late {
      sc := ShutdownMoves(sc, DeadlinePasses, Waiting);
    }
    sc := WorkerMoves(sc, SeeStopping);
    sc := WorkerMoves(sc, TakeItem);
    assert [item][1..] == [] && [] + [Take(item, true)] == [Take(item, true)];
  }

  lemma {:induction false} Delivers(item: Item) returns (sc: Scene)
    requires Simple(item)
    ensures Reachable(ONE_SHARD, At(sc)) && sc.metrics == multiset{Delivered(item.Label())}
  {
    hide Reachable, Simple, At;
    sc := Attempted(item);
    sc := WorkerMoves(sc, AttemptSucceeds);
  }

  lemma {:induction false} DropsUnmarshalled(item: Item) returns (sc: Scene)
    requires Simple(item)
    ensures Reachable(ONE_SHARD, At(sc)) && sc.metrics == multiset{Dropped(item.Label(), Marshal)}
  {
    hide Reachable, Simple, At;
    sc := Opening(item, false);
    sc := CallMoves(sc);
    sc := CallMoves(sc);
  }

  lemma {:induction false} DropsPermanent(item: Item) returns (sc: Scene)
    requires Simple(item)
    ensures Reachable(ONE_SHARD, At(sc)) && sc.metrics == multiset{Dropped(item.Label(), Permanent)}
  {
    hide Reachable, Simple, At;
    sc := Attempted(item);
    sc := WorkerMoves(sc, AttemptFailsForGood);
  }

  lemma {:induction false} DropsExhausted(item: Item) returns (sc: Scene)
    requires Simple(item)
    ensures Reachable(ONE_SHARD, At(sc)) && sc.metrics == multiset{Dropped(item.Label(), RetryExhausted)}
  {
    hide Reachable, Simple, At;
    sc := FailedOnce(item);
    sc := WorkerMoves(sc, SeeRunning);
    sc := WorkerMoves(sc, BudgetSpent);
  }

  lemma {:induction false} DropsAtDeadline(item: Item) returns (sc: Scene)
    requires Simple(item)
    ensures Reachable(ONE_SHARD, At(sc)) && sc.metrics == multiset{Dropped(item.Label(), ShutdownDeadline)}
  {
    hide Reachable, Simple, At;
    sc := Drained(item, true);
    sc := WorkerMoves(sc, ContextEnded);
  }

  lemma {:induction false} DropsFailedFinal(item: Item) returns (sc: Scene)
    requires Simple(item)
    ensures Reachable(ONE_SHARD, At(sc)) && sc.metrics == multiset{Dropped(item.Label(), ShutdownAttemptFailed)}
  {
    hide Reachable, Simple, At;
    sc := Drained(item, false);
    sc := WorkerMoves(sc, StartFinal);
    sc := WorkerMoves(sc, FinalFails);
  }

  /** Every way an accepted payload can end does occur: each series of deliveries and drops comes to 1 in some run. */
  lemma {:induction false} EveryOutcomeHappens(item: Item, m: Metric) returns (t: State)
    requires Simple(item) && m.payload == item.Label() && (m.Delivered? || m.Dropped?)
    ensures Reachable(ONE_SHARD, t) && t.metrics == multiset{m}
  {
    hide Reachable, Simple, Item.Label;
    var sc: Scene;
    match m {
      case Delivered(_) => sc := Delivers(item);
      case Dropped(_, reason) =>
        match reason {
          case Marshal => sc := DropsUnmarshalled(item);
          case Permanent => sc := DropsPermanent(item);
          case RetryExhausted => sc := DropsExhausted(item);
          case ShutdownDeadline => sc := DropsAtDeadline(item);
          case ShutdownAttemptFailed => sc := DropsFailedFinal(item);
        }
    }
    t := At(sc);
  }

  /** A retry succeeds: the wait runs out, the retry is counted, and its attempt delivers. */
  lemma {:induction false} RetryDelivers(item: Item) returns (t: State)
    requires Simple(item)
    ensures Reachable(ONE_SHARD, t) && t.metrics == multiset{Retries(item.Label()), Delivered(item.Label())}
  {
    hide Reachable, Simple;
    var sc := FailedOnce(item);
    sc := WorkerMoves(sc, SeeRunning);
    sc := WorkerMoves(sc, StartWait);
    sc := WorkerMoves(sc, TimerFires);
    sc := WorkerMoves(sc, StartAttempt);
    sc := WorkerMoves(sc, AttemptSucceeds);
    t := At(sc);
  }

  /** Shutdown interrupts a retry wait, and the final attempt delivers. */
  lemma {:induction false} WaitInterrupted(item: Item) returns (t: State)
    requires Simple(item)
    ensures Reachable(ONE_SHARD, t) && t.metrics == multiset{Delivered(item.Label())}
    ensures t.shards[0].log ==
            [Take(item, false), Attempt(item, false, false), Attempt(item, true, true), Settle(item, Success)]
  {
    hide Reachable, Simple;
    var sc := FailedOnce(item);
    sc := WorkerMoves(sc, SeeRunning);
    sc := WorkerMoves(sc, StartWait);
    sc := ShutdownBegins(sc);
    sc := WorkerMoves(sc, SeeStopping);
    sc := WorkerMoves(sc, StartFinal);
    sc := WorkerMoves(sc, FinalSucceeds);
    t := At(sc);
  }

  /** The bound of two late attempts is met: a worker that waits in its select takes an item after stopping closed. */
  lemma {:induction false} TwoLateAttempts(item: Item) returns (t: State)
    requires Simple(item)
    ensures Reachable(ONE_SHARD, t)
    ensures t.shards[0].log == [Take(item, false), Attempt(item, false, true), Attempt(item, true, true)]
  {
    hide Reachable, Simple;
    var sc := QueuedOne(item);
    sc := WorkerMoves(sc, SeeRunning);
    sc := ShutdownBegins(sc);
    sc := WorkerMoves(sc, TakeItem);
    sc := WorkerMoves(sc, StartAttempt);
    sc := WorkerMoves(sc, AttemptFailsRetryable);
    sc := WorkerMoves(sc, SeeStopping);
    sc := WorkerMoves(sc, StartFinal);
    t := At(sc);
  }

  /** A call that comes after Shutdown began is refused as shutting down. */
  lemma {:induction false} RefusedLate(item: Item) returns (t: State)
    requires Simple(item)
    ensures Reachable(ONE_SHARD, t) && |t.calls| == 1 && t.calls[0].phase == Returned(Failed(ShuttingDown))
    ensures t.metrics == multiset{Refused(item.Label(), ShuttingDown)}
  {
    hide Reachable, Simple;
    var sc := Opening(item, true);
    sc := ShutdownBegins(sc);
    sc := CallMoves(sc);
    sc := CallMoves(sc);
    sc := CallMoves(sc);
    sc := CallMoves(sc);
    sc := CallMoves(sc);
    t := At(sc);
  }
}
