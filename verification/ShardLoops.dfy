/**
The code of one shard as it is written, run without interruption: reserve and release, enqueue, and the drain loop
(internal/forward/forward.go). Each is tied to the steps of the state machine that it consists of.
*/
module ShardLoops {
  import opened Sums
  import opened Sink
  import opened SinkShard
  import opened SinkInvariant

  // ----- enqueue -----

  /** The call and the shard once the call, stepping alone, has decided on its result. */
  ghost function Alone(cfg: Config, c: Call, sh: Shard, closed: bool): (Call, Shard)
    decreases CallRank(c.phase)
  {
    if c.phase.Unlocking? || c.phase.Returned? then (c, sh)
    else
      var r := CallNext(cfg, c, sh, closed);
      Alone(cfg, c.(phase := r.phase), r.shard, closed)
  }

  /** What enqueue decides, from the shard's queue length and bytes. */
  function Decision(cfg: Config, item: Item, queued: nat, bytes: int, closed: bool): Result {
    if closed then Failed(ShuttingDown)
    else if !Fits(bytes, item.Size(), cfg.queueBytes) then Failed(QueueFull)
    else if queued < cfg.queueSize then Queued
    else Failed(QueueFull)
  }

  /** A call that steps alone decides so, and only a queued item leaves a trace. */
  lemma {:induction false} AloneDecides(cfg: Config, item: Item, sh: Shard, closed: bool)
    ensures var d := Decision(cfg, item, |sh.queue|, sh.bytes, closed);
            var sent := if d.Queued? then [item] else [];
            Alone(cfg, Call(item, true, Locked), sh, closed) ==
            (Call(item, true, Unlocking(d)),
             sh.(queue := sh.queue + sent, accepted := sh.accepted + sent,
                 bytes := sh.bytes + if d.Queued? then item.Size() else 0))
  {
    var c0 := Call(item, true, Locked);
    var r1 := CallNext(cfg, c0, sh, closed);
    var c1 := c0.(phase := r1.phase);
    assert Alone(cfg, c0, sh, closed) == Alone(cfg, c1, r1.shard, closed);
    if !closed {
      var r2 := CallNext(cfg, c1, r1.shard, closed);
      var c2 := c1.(phase := r2.phase);
      assert Alone(cfg, c1, r1.shard, closed) == Alone(cfg, c2, r2.shard, closed);
      if c2.phase.Reserved? {
        var r3 := CallNext(cfg, c2, r2.shard, closed);
        var c3 := c2.(phase := r3.phase);
        assert Alone(cfg, c2, r2.shard, closed) == Alone(cfg, c3, r3.shard, closed);
        if c3.phase.RollingBack? {
          var r4 := CallNext(cfg, c3, r3.shard, closed);
          assert Alone(cfg, c3, r3.shard, closed) == Alone(cfg, c3.(phase := r4.phase), r4.shard, closed);
        }
      }
    }
    assert sh.queue + [] == sh.queue && sh.accepted + [] == sh.accepted;
  }

  ghost function Itself(): nat -> int { (n: nat) => n }
  ghost function Positive(): nat -> int { (n: nat) => if n > 0 then 1 else 0 }

  /** The bytes a shard counts, given the sizes it holds, and the bound reserve keeps on them. */
  ghost predicate Accounts(bytes: int, held: seq<nat>, limit: nat) {
    && bytes == Sum(held, Itself())
    && (bytes > limit ==> Sum(held, Positive()) == 1)
  }

  ghost predicate NothingHeld(held: seq<nat>) {
    forall i | 0 <= i < |held| :: held[i] == 0
  }

  lemma {:induction false} HeldTotal(held: seq<nat>)
    ensures 0 <= Sum(held, Positive()) <= Sum(held, Itself())
    ensures Sum(held, Itself()) == 0 <==> NothingHeld(held)
    ensures Sum(held, Itself()) == 0 <==> Sum(held, Positive()) == 0
  {
    if held != [] {
      var n := |held| - 1;
      HeldTotal(held[..n]);
      assert held == held[..n] + [held[n]];
    }
  }

  lemma {:induction false} HeldWithout(held: seq<nat>, i: nat, f: nat -> int)
    requires i < |held|
    ensures Sum(held[..i] + held[i + 1..], f) == Sum(held, f) - f(held[i])
  {
    assert held == held[..i] + ([held[i]] + held[i + 1..]);
    SumConcat(held[..i], held[i + 1..], f);
    SumConcat(held[..i], [held[i]] + held[i + 1..], f);
    SumConcat([held[i]], held[i + 1..], f);
    SumOne(held[i], f);
  }

  class ShardQueue {
    var queue: seq<Item>
    var bytes: int
    /** The sizes that were reserved and not released. */
    ghost var held: seq<nat>

    constructor ()
      ensures queue == [] && held == [] && forall limit: nat :: Accounts(bytes, held, limit)
    {
      queue, bytes, held := [], 0, [];
    }

    /** Takes n in exactly when nothing of any size is held or all of it, with n, stays within the limit. */
    method Reserve(n: nat, limit: nat) returns (ok: bool)
      requires Accounts(bytes, held, limit)
      modifies this`bytes, this`held
      ensures Accounts(bytes, held, limit) && held == old(held) + if ok then [n] else []
      ensures ok <==> NothingHeld(old(held)) || Sum(old(held) + [n], Itself()) <= limit
    {
      HeldTotal(held);
      SumPush(held, n, Itself());
      SumPush(held, n, Positive());
      if bytes > 0 && bytes + n > limit {
        assert held + [] == held;
        return false;
      }
      bytes := bytes + n;
      held := held + [n];
      return true;
    }

    /** Gives back one of the sizes held. */
    method Release(n: nat, limit: nat, ghost i: nat)
      requires Accounts(bytes, held, limit) && i < |held| && held[i] == n
      modifies this`bytes, this`held
      ensures Accounts(bytes, held, limit) && held == old(held)[..i] + old(held)[i + 1..]
    {
      HeldWithout(held, i, Itself());
      HeldWithout(held, i, Positive());
      bytes := bytes - n;
      held := held[..i] + held[i + 1..];
      HeldTotal(held);
    }

    /** enqueue, from the shutdown check to the decision. */
    method Enqueue(cfg: Config, item: Item, closed: bool) returns (result: Result)
      requires Accounts(bytes, held, cfg.queueBytes)
      modifies this
      ensures Accounts(bytes, held, cfg.queueBytes)
      ensures result == Decision(cfg, item, |old(queue)|, old(bytes), closed)
      ensures queue == old(queue) + if result.Queued? then [item] else []
      ensures held == old(held) + if result.Queued? then [item.Size()] else []
      ensures bytes == old(bytes) + if result.Queued? then item.Size() else 0
    {
      HeldTotal(held);
      SumPush(held, item.Size(), Itself());
      assert held + [] == held;
      if closed {
        return Failed(ShuttingDown);
      }
      var ok := Reserve(item.Size(), cfg.queueBytes);
      if !ok {
        return Failed(QueueFull);
      }
      if |queue| < cfg.queueSize {
        queue := queue + [item];
        return Queued;
      }
      Release(item.Size(), cfg.queueBytes, |held| - 1);
      assert held == old(held);
      return Failed(QueueFull);
    }
  }

  // ----- drain -----

  /** A step of the worker after stopping was closed. `ended`: the context has ended. */
  datatype DrainStep = DrainStep(act: WorkerAct, ended: bool)

  /** The worker can take these steps one after the other from `sh`, and they lead to `end`. */
  ghost predicate Leads(sh: Shard, steps: seq<DrainStep>, end: Shard)
    decreases |steps|
  {
    if steps == [] then sh == end
    else
      && WorkerEnabled(sh, steps[0].act, true, steps[0].ended)
      && Leads(WorkerNext(sh, steps[0].act, true, steps[0].ended), steps[1..], end)
  }

  /** Once the context has ended it stays so. */
  ghost predicate Sticky(steps: seq<DrainStep>) {
    forall i, j | 0 <= i < j < |steps| && steps[i].ended :: steps[j].ended
  }

  ghost predicate AllAt(steps: seq<DrainStep>, ended: bool) {
    forall i | 0 <= i < |steps| :: steps[i].ended == ended
  }

  lemma {:induction false} StickyOn(steps: seq<DrainStep>, more: seq<DrainStep>, ended: bool)
    requires Sticky(steps) && AllAt(more, ended) && forall i | 0 <= i < |steps| :: steps[i].ended ==> ended
    ensures Sticky(steps + more) && forall i | 0 <= i < |steps + more| :: (steps + more)[i].ended ==> ended
  {
  }

  lemma {:induction false} LeadsOn(sh: Shard, steps: seq<DrainStep>, mid: Shard, more: seq<DrainStep>, end: Shard)
    requires Leads(sh, steps, mid) && Leads(mid, more, end)
    ensures Leads(sh, steps + more, end)
    decreases |steps|
  {
    hide WorkerEnabled, WorkerNext;
    if steps == [] {
      assert steps + more == more;
    } else {
      LeadsOn(WorkerNext(sh, steps[0].act, true, steps[0].ended), steps[1..], mid, more, end);
      assert (steps + more)[1..] == steps[1..] + more;
    }
  }

  lemma {:induction false} LeadsOne(sh: Shard, act: WorkerAct, ended: bool)
    requires WorkerEnabled(sh, act, true, ended)
    ensures Leads(sh, [DrainStep(act, ended)], WorkerNext(sh, act, true, ended))
  {
    hide WorkerEnabled, WorkerNext;
    var steps := [DrainStep(act, ended)];
    assert steps[1..] == [];
    assert Leads(WorkerNext(sh, act, true, ended), steps[1..], WorkerNext(sh, act, true, ended));
  }

  /**
  drain: one final attempt for each queued item, or a drop once the context has ended, until the queue is empty. The
  loop is a run of the machine's worker, `steps`. All that was queued is settled in order and its bytes are released.
  */
  method Drain(start: Shard, ended: nat -> bool, succeeds: nat -> bool) returns (sh: Shard, ghost steps: seq<DrainStep>)
    requires start.worker.Draining?
    requires forall i, j | 0 <= i < j && ended(i) :: ended(j)
    ensures Leads(start, steps, sh) && Sticky(steps)
    ensures sh.worker.Done? && sh.queue == [] && sh.accepted == start.accepted
    ensures SettledItems(sh.log) == SettledItems(start.log) + start.queue
    ensures sh.bytes == start.bytes - Sum(start.queue, SizeOf())
    ensures Attempts(sh.log) <= Attempts(start.log) + |start.queue|
  {
    hide Leads, Sticky, SettledItems, Attempts, WorkerNext;
    sh, steps := start, [];
    var turn := 0;
    LeadsNowhere(start);
    assert start.queue[0..] == start.queue;
    while sh.queue != []
      invariant Leads(start, steps, sh)
      invariant Sticky(steps) && forall i | 0 <= i < |steps| :: steps[i].ended ==> ended(turn)
      invariant turn <= |start.queue| && sh.queue == start.queue[turn..]
      invariant sh.worker.Draining? && sh.accepted == start.accepted
      invariant SettledItems(sh.log) == SettledItems(start.log) + start.queue[..turn]
      invariant sh.bytes == start.bytes - Sum(start.queue[..turn], SizeOf())
      invariant Attempts(sh.log) <= Attempts(start.log) + turn
      decreases |sh.queue|
    {
      var item := sh.queue[0];
      assert start.queue[..turn + 1] == start.queue[..turn] + [item];
      SumPush(start.queue[..turn], item, SizeOf());
      var next, more := Turn(sh, ended(turn), succeeds(turn));
      LeadsOn(start, steps, sh, more, next);
      StickyOn(steps, more, ended(turn));
      sh, steps := next, steps + more;
      turn := turn + 1;
    }
    assert start.queue[..turn] == start.queue;
    sh, steps := Leave(start, steps, sh, ended(turn));
  }

  lemma {:induction false} LeadsNowhere(sh: Shard)
    ensures Leads(sh, [], sh) && Sticky([])
  {
  }

  /** The loop's default case: the queue is empty. */
  method Leave(ghost start: Shard, ghost steps: seq<DrainStep>, mid: Shard, ended: bool)
    returns (sh: Shard, ghost all: seq<DrainStep>)
    requires Leads(start, steps, mid) && mid.worker.Draining? && mid.queue == []
    requires Sticky(steps) && forall i | 0 <= i < |steps| :: steps[i].ended ==> ended
    ensures Leads(start, all, sh) && Sticky(all) && sh == mid.(worker := Done)
  {
    sh := WorkerNext(mid, FindEmpty, true, ended);
    LeadsOne(mid, FindEmpty, ended);
    all := steps + [DrainStep(FindEmpty, ended)];
    StickyOn(steps, [DrainStep(FindEmpty, ended)], ended);
    LeadsOn(start, steps, mid, [DrainStep(FindEmpty, ended)], sh);
  }

  /** One turn of the loop: take, finalDeliveryAttempt, release. */
  method Turn(start: Shard, ended: bool, succeeds: bool) returns (sh: Shard, ghost steps: seq<DrainStep>)
    requires start.worker.Draining? && start.queue != []
    ensures Leads(start, steps, sh) && AllAt(steps, ended)
    ensures sh.worker.Draining? && sh.queue == start.queue[1..] && sh.accepted == start.accepted
    ensures SettledItems(sh.log) == SettledItems(start.log) + [start.queue[0]]
    ensures sh.bytes == start.bytes - start.queue[0].Size()
    ensures Attempts(sh.log) == Attempts(start.log) + if ended then 0 else 1
  {
    hide Leads, SettledItems, Attempts;
    var taken := WorkerNext(start, TakeItem, true, ended);
    LeadsOne(start, TakeItem, ended);
    LogPush(start.log, Take(start.queue[0], true));
    var settled, more := FinalDeliveryAttempt(taken, ended, succeeds);
    sh := WorkerNext(settled, ReleaseBytes, true, ended);
    LeadsOne(settled, ReleaseBytes, ended);
    steps := [DrainStep(TakeItem, ended)] + more;
    LeadsOn(start, [DrainStep(TakeItem, ended)], taken, more, settled);
    LeadsOn(start, steps, settled, [DrainStep(ReleaseBytes, ended)], sh);
    steps := steps + [DrainStep(ReleaseBytes, ended)];
  }

  method FinalDeliveryAttempt(
      start: Shard, ended: bool, succeeds: bool) returns (sh: Shard, ghost steps: seq<DrainStep>)
    requires start.worker.Holding? && start.worker.stage.FinalCheck?
    ensures Leads(start, steps, sh) && AllAt(steps, ended)
    ensures sh == start.(worker := start.worker.(stage := Finished), log := sh.log)
    ensures SettledItems(sh.log) == SettledItems(start.log) + [start.worker.item]
    ensures Attempts(sh.log) == Attempts(start.log) + if ended then 0 else 1
  {
    hide Leads, SettledItems, Attempts;
    if ended {
      sh := Settled(start, ContextEnded, Drop(ShutdownDeadline), ended);
      LeadsOne(start, ContextEnded, ended);
      return sh, [DrainStep(ContextEnded, ended)];
    }
    LogPush(start.log, Attempt(start.worker.item, true, true));
    var tried := WorkerNext(start, StartFinal, true, ended);
    LeadsOne(start, StartFinal, ended);
    ghost var act := if succeeds then FinalSucceeds else FinalFails;
    if succeeds {
      sh := Settled(tried, FinalSucceeds, Success, ended);
    } else {
      sh := Settled(tried, FinalFails, Drop(ShutdownAttemptFailed), ended);
    }
    LeadsOne(tried, act, ended);
    steps := [DrainStep(StartFinal, ended)] + [DrainStep(act, ended)];
    LeadsOn(start, [DrainStep(StartFinal, ended)], tried, [DrainStep(act, ended)], sh);
  }

  /** The worker's step that settles its item. */
  function Settled(start: Shard, act: WorkerAct, ghost outcome: Outcome, ended: bool): (sh: Shard)
    requires WorkerEnabled(start, act, true, ended) && start.worker.Holding?
    requires WorkerNext(start, act, true, ended) == Finish(start, outcome)
    ensures sh == start.(worker := start.worker.(stage := Finished), log := sh.log)
    ensures sh == WorkerNext(start, act, true, ended)
    ensures SettledItems(sh.log) == SettledItems(start.log) + [start.worker.item]
    ensures Attempts(sh.log) == Attempts(start.log)
  {
    LogPush(start.log, Settle(start.worker.item, outcome));
    WorkerNext(start, act, true, ended)
  }
}
