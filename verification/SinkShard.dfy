/** What one shard keeps through every step, and what its history says. */
module SinkShard {
  import opened Sink

  // ----- reading a shard's history -----

  ghost function SettledItems(log: seq<Event>): seq<Item> {
    if log == [] then []
    else
      var e := log[|log| - 1];
      SettledItems(log[..|log| - 1]) + if e.Settle? then [e.item] else []
  }

  /** Every event concerns the oldest accepted item that was not settled before it. */
  ghost predicate InOrder(log: seq<Event>, accepted: seq<Item>) {
    log == [] ||
    var before := log[..|log| - 1];
    && InOrder(before, accepted)
    && |SettledItems(before)| < |accepted|
    && log[|log| - 1].item == accepted[|SettledItems(before)|]
  }

  /** Attempts started over the shard's life. */
  ghost function Attempts(log: seq<Event>): nat {
    if log == [] then 0
    else Attempts(log[..|log| - 1]) + if log[|log| - 1].Attempt? then 1 else 0
  }

  /** Attempts of the retry loop that started after stopping was closed. */
  ghost function LateRegular(log: seq<Event>): nat {
    if log == [] then 0
    else
      var e := log[|log| - 1];
      LateRegular(log[..|log| - 1]) + if e.Attempt? && !e.final && e.late then 1 else 0
  }

  /** How often each kind of event occurred for one call's item. */
  datatype Tally = Tally(took: nat, drained: nat, regular: nat, final: nat, late: nat, lateRegular: nat,
                         settled: nat, expired: nat) {
    ghost function Add(e: Event, c: nat): Tally {
      if e.item.call != c then this
      else
        match e
        case Take(_, d) => this.(took := took + 1, drained := drained + if d then 1 else 0)
        case Attempt(_, f, l) =>
          this.(regular := regular + (if f then 0 else 1), final := final + (if f then 1 else 0),
                late := late + (if l then 1 else 0), lateRegular := lateRegular + if l && !f then 1 else 0)
        case Settle(_, o) => this.(settled := settled + 1,
                           expired := expired + if o == Drop(ShutdownDeadline) then 1 else 0)
    }
  }

  const ZERO := Tally(0, 0, 0, 0, 0, 0, 0, 0)

  ghost function TallyOf(log: seq<Event>, c: nat): Tally {
    if log == [] then ZERO else TallyOf(log[..|log| - 1], c).Add(log[|log| - 1], c)
  }

  lemma {:induction false} LogPush(log: seq<Event>, e: Event)
    ensures SettledItems(log + [e]) == SettledItems(log) + if e.Settle? then [e.item] else []
    ensures Attempts(log + [e]) == Attempts(log) + if e.Attempt? then 1 else 0
    ensures LateRegular(log + [e]) == LateRegular(log) + if e.Attempt? && !e.final && e.late then 1 else 0
  {
    assert (log + [e])[..|log|] == log;
  }

  lemma {:induction false} TallyPush(log: seq<Event>, e: Event, c: nat)
    ensures TallyOf(log + [e], c) == TallyOf(log, c).Add(e, c)
  {
    assert (log + [e])[..|log|] == log;
  }

  lemma {:induction false} InOrderPush(log: seq<Event>, e: Event, accepted: seq<Item>)
    requires InOrder(log, accepted)
    requires |SettledItems(log)| < |accepted| && e.item == accepted[|SettledItems(log)|]
    ensures InOrder(log + [e], accepted)
  {
    assert (log + [e])[..|log|] == log;
  }

  lemma {:induction false} InOrderGrows(log: seq<Event>, accepted: seq<Item>, x: Item)
    requires InOrder(log, accepted)
    ensures InOrder(log, accepted + [x])
  {
    if log != [] {
      InOrderGrows(log[..|log| - 1], accepted, x);
    }
  }

  lemma {:induction false} SettledTally(log: seq<Event>, c: nat)
    ensures TallyOf(log, c).settled > 0 ==> exists j :: 0 <= j < |SettledItems(log)| && SettledItems(log)[j].call == c
  {
    if log != [] {
      var before, e := log[..|log| - 1], log[|log| - 1];
      SettledTally(before, c);
      assert log == before + [e];
      LogPush(before, e);
      TallyPush(before, e, c);
      if e.Settle? && e.item.call == c {
        assert SettledItems(log)[|SettledItems(before)|].call == c;
      } else if TallyOf(log, c).settled > 0 {
        var j :| 0 <= j < |SettledItems(before)| && SettledItems(before)[j].call == c;
        assert SettledItems(log)[j].call == c;
      }
    }
  }

  /** What a worker step adds to the history. */
  ghost function WorkerEvent(sh: Shard, act: WorkerAct, stopping: bool): seq<Event> {
    if act == TakeItem then (if sh.queue == [] then [] else [Take(sh.queue[0], sh.worker.Draining?)])
    else if !sh.worker.Holding? then []
    else
      var item := sh.worker.item;
      match act
      case StartAttempt => [Attempt(item, false, stopping)]
      case StartFinal => [Attempt(item, true, stopping)]
      case AttemptSucceeds => [Settle(item, Success)]
      case AttemptFailsForGood => [Settle(item, Drop(Permanent))]
      case BudgetSpent => [Settle(item, Drop(RetryExhausted))]
      case ContextEnded => [Settle(item, Drop(ShutdownDeadline))]
      case FinalSucceeds => [Settle(item, Success)]
      case FinalFails => [Settle(item, Drop(ShutdownAttemptFailed))]
      case _ => []
  }

  lemma {:induction false} WorkerShape(sh: Shard, act: WorkerAct, stopping: bool, cancelled: bool)
    requires WorkerEnabled(sh, act, stopping, cancelled)
    ensures var t := WorkerNext(sh, act, stopping, cancelled);
            && t.log == sh.log + WorkerEvent(sh, act, stopping)
            && t.accepted == sh.accepted
            && (act == ReleaseBytes ==> sh.worker.Holding? && !t.worker.Holding?)
            && t.bytes == sh.bytes - (if act == ReleaseBytes then sh.worker.item.Size() else 0)
            && (act == TakeItem ==>
                  sh.queue != [] && t.queue == sh.queue[1..] && !sh.worker.Holding?
                  && t.worker.Holding? && t.worker.item == sh.queue[0])
            && (act != TakeItem ==> t.queue == sh.queue)
            && (act != TakeItem && act != ReleaseBytes ==>
                  t.worker.Holding? == sh.worker.Holding? && (sh.worker.Holding? ==> t.worker.item == sh.worker.item))
  {
  }

  // ----- the invariant -----

  /** The item the worker holds and has not settled. */
  ghost function Pending(w: Worker): seq<Item> {
    if w.Holding? && w.stage != Finished then [w.item] else []
  }

  ghost predicate Distinct(items: seq<Item>) {
    forall i, j | 0 <= i < j < |items| :: items[i].call != items[j].call
  }

  /** The history of a settled item: one take, at most one final attempt, one settlement. */
  ghost predicate SettledTallyOk(t: Tally, cancelled: bool) {
    && t.took == 1 && t.settled == 1 && t.final <= 1 && t.drained <= 1 && t.expired <= 1
    && t.late == t.lateRegular + t.final
    && (t.drained == 0 ==> t.regular >= 1)
    && (t.drained == 1 ==> t.regular == 0 && t.final + t.expired == 1)
    && (t.expired == 1 ==> cancelled)
  }

  ghost predicate CurrentTallyOk(t: Tally, w: Worker)
    requires w.Holding?
  {
    && t.took == 1 && t.settled == 0 && t.expired == 0
    && t.drained == (if w.draining then 1 else 0)
    && t.final == (if w.stage.FinalAttempting? then 1 else 0)
    && t.late == t.lateRegular + t.final
    && (w.draining ==> t.regular == 0)
    && (!w.draining && !w.stage.Ready? ==> t.regular >= 1)
  }

  ghost predicate TallyOk(sh: Shard, cancelled: bool, c: nat) {
    var t := TallyOf(sh.log, c);
    if sh.worker.Holding? && sh.worker.stage != Finished && sh.worker.item.call == c then CurrentTallyOk(t, sh.worker)
    else t == ZERO || SettledTallyOk(t, cancelled)
  }

  /** Which worker states need stopping to be closed, and what a drained item and a finished worker look like. */
  ghost predicate WorkerOk(sh: Shard, stopping: bool) {
    match sh.worker
    case Top => true
    case Select => true
    case Draining => stopping
    case Done => stopping && sh.queue == []
    case Holding(_, stage, draining) =>
      && (draining || stage.FinalCheck? || stage.FinalAttempting? ==> stopping)
      && (draining ==> stage.FinalCheck? || stage.FinalAttempting? || stage.Finished?)
  }

  /** At most one attempt of the retry loop starts late; none did while another could still start. */
  ghost predicate LateOk(sh: Shard, stopping: bool) {
    var w := sh.worker;
    && LateRegular(sh.log) <= 1
    && (!stopping || w.Select? || (w.Holding? && (w.stage.Ready? || w.stage.BackingOff? || w.stage.Sleeping?))
        ==> LateRegular(sh.log) == 0)
  }

  ghost predicate ShardInv(sh: Shard, stopping: bool, cancelled: bool) {
    && sh.accepted == SettledItems(sh.log) + Pending(sh.worker) + sh.queue
    && Distinct(sh.accepted)
    && InOrder(sh.log, sh.accepted)
    && (sh.worker.Holding? ==> sh.worker.item in sh.accepted)
    && WorkerOk(sh, stopping)
    && LateOk(sh, stopping)
    && (forall c :: TallyOk(sh, cancelled, c))
  }

  lemma {:induction false} ShardInvInitially(stopping: bool, cancelled: bool)
    ensures ShardInv(Shard([], 0, Top, [], []), stopping, cancelled)
  {
  }

  /** Closing stopping or canceling the context breaks nothing. */
  lemma {:induction false} ShardInvKeptByFlags(
      sh: Shard, stopping: bool, cancelled: bool, stopping': bool, cancelled': bool)
    requires ShardInv(sh, stopping, cancelled)
    requires (stopping ==> stopping') && (cancelled ==> cancelled')
    ensures ShardInv(sh, stopping', cancelled')
  {
    assert forall c :: TallyOk(sh, cancelled, c) ==> TallyOk(sh, cancelled', c);
  }

  lemma {:induction false} ShardInvIgnoresBytes(sh: Shard, sh': Shard, stopping: bool, cancelled: bool)
    requires ShardInv(sh, stopping, cancelled) && sh' == sh.(bytes := sh'.bytes)
    ensures ShardInv(sh', stopping, cancelled)
  {
    hide InOrder, Distinct, SettledItems, LateRegular, TallyOf;
    forall c ensures TallyOk(sh', cancelled, c) {
      assert TallyOk(sh, cancelled, c);
    }
  }

  /** A send adds an item that no shard history knows yet. */
  lemma {:induction false} ShardInvKeptBySend(sh: Shard, item: Item, stopping: bool, cancelled: bool)
    requires ShardInv(sh, stopping, cancelled)
    requires forall j | 0 <= j < |sh.accepted| :: sh.accepted[j].call != item.call
    requires !sh.worker.Done?
    ensures ShardInv(sh.(queue := sh.queue + [item], accepted := sh.accepted + [item]), stopping, cancelled)
  {
    hide InOrder, SettledItems, LateRegular, TallyOf;
    var sh' := sh.(queue := sh.queue + [item], accepted := sh.accepted + [item]);
    InOrderGrows(sh.log, sh.accepted, item);
    assert forall c :: TallyOk(sh, cancelled, c) ==> TallyOk(sh', cancelled, c);
  }

  /** Nothing has happened yet to an item that is still queued. */
  lemma {:induction false} QueuedUntouched(sh: Shard, stopping: bool, cancelled: bool, j: nat)
    requires ShardInv(sh, stopping, cancelled)
    requires j < |sh.queue|
    ensures TallyOf(sh.log, sh.queue[j].call) == ZERO
  {
    var c := sh.queue[j].call;
    var m := |SettledItems(sh.log)| + |Pending(sh.worker)| + j;
    assert sh.accepted[m] == sh.queue[j];
    assert TallyOk(sh, cancelled, c);
    SettledTally(sh.log, c);
    assert forall p | 0 <= p < |SettledItems(sh.log)| :: sh.accepted[p] == SettledItems(sh.log)[p];
    if Pending(sh.worker) != [] {
      assert sh.accepted[|SettledItems(sh.log)|] == sh.worker.item;
    }
  }

  lemma {:induction false} HeadMoves(settled: seq<Item>, queue: seq<Item>)
    requires queue != []
    ensures settled + [] + queue == settled + [queue[0]] + queue[1..]
    ensures (settled + [] + queue)[|settled|] == queue[0]
  {
  }

  lemma {:induction false} ShardInvKeptByTake(sh: Shard, stopping: bool, cancelled: bool)
    requires ShardInv(sh, stopping, cancelled)
    requires WorkerEnabled(sh, TakeItem, stopping, cancelled)
    ensures ShardInv(WorkerNext(sh, TakeItem, stopping, cancelled), stopping, cancelled)
  {
    hide ShardInv;
    var sh' := WorkerNext(sh, TakeItem, stopping, cancelled);
    var e := Take(sh.queue[0], sh.worker.Draining?);
    TakeTallies(sh, sh', e, stopping, cancelled);
    TakeMoves(sh, sh', e, stopping, cancelled);
  }

  lemma {:induction false} TakeMoves(sh: Shard, sh': Shard, e: Event, stopping: bool, cancelled: bool)
    requires ShardInv(sh, stopping, cancelled) && sh.queue != []
    requires sh.worker.Draining? || sh.worker.Select?
    requires e == Take(sh.queue[0], sh.worker.Draining?)
    requires sh'.log == sh.log + [e] && sh'.accepted == sh.accepted && sh'.queue == sh.queue[1..]
    requires sh'.worker == Holding(sh.queue[0], if sh.worker.Draining? then FinalCheck else Ready, sh.worker.Draining?)
    requires forall c :: TallyOk(sh', cancelled, c)
    ensures ShardInv(sh', stopping, cancelled)
  {
    hide InOrder, TallyOk, Distinct, SettledItems, LateRegular;
    LogPush(sh.log, e);
    HeadMoves(SettledItems(sh.log), sh.queue);
    InOrderPush(sh.log, e, sh.accepted);
  }

  lemma {:induction false} TakeTallies(sh: Shard, sh': Shard, e: Event, stopping: bool, cancelled: bool)
    requires ShardInv(sh, stopping, cancelled) && sh.queue != [] && !sh.worker.Holding?
    requires e == Take(sh.queue[0], sh.worker.Draining?) && sh'.log == sh.log + [e]
    requires sh'.worker == Holding(sh.queue[0], if sh.worker.Draining? then FinalCheck else Ready, sh.worker.Draining?)
    ensures forall c :: TallyOk(sh', cancelled, c)
  {
    QueuedUntouched(sh, stopping, cancelled, 0);
    forall c ensures TallyOk(sh', cancelled, c) {
      assert TallyOk(sh, cancelled, c);
      TallyPush(sh.log, e, c);
    }
  }

  /** A step that records `e` about the held, unsettled item. */
  lemma {:induction false} ShardInvKeptByRecord(sh: Shard, e: Event, stage: Stage, stopping: bool, cancelled: bool)
    requires ShardInv(sh, stopping, cancelled)
    requires sh.worker.Holding? && sh.worker.stage != Finished && e.item == sh.worker.item
    requires !e.Take?
    requires stage == Finished <==> e.Settle?
    requires var t := TallyOf(sh.log, e.item.call).Add(e, e.item.call);
             if e.Settle? then SettledTallyOk(t, cancelled) else CurrentTallyOk(t, sh.worker.(stage := stage))
    requires WorkerOk(Move(sh, stage), stopping)
    requires LateOk(Move(sh, stage).(log := sh.log + [e]), stopping)
    ensures ShardInv(Move(sh, stage).(log := sh.log + [e]), stopping, cancelled)
  {
    hide InOrder, Distinct, SettledItems, LateRegular, TallyOk;
    var sh' := Move(sh, stage).(log := sh.log + [e]);
    LogPush(sh.log, e);
    assert sh.accepted[|SettledItems(sh.log)|] == sh.worker.item;
    InOrderPush(sh.log, e, sh.accepted);
    RecordTallies(sh, sh', e, stopping, cancelled);
  }

  lemma {:induction false} RecordTallies(sh: Shard, sh': Shard, e: Event, stopping: bool, cancelled: bool)
    requires ShardInv(sh, stopping, cancelled)
    requires sh.worker.Holding? && sh.worker.stage != Finished && e.item == sh.worker.item
    requires sh'.worker.Holding? && sh'.worker == sh.worker.(stage := sh'.worker.stage) && sh'.log == sh.log + [e]
    requires sh'.worker.stage == Finished <==> e.Settle?
    requires var t := TallyOf(sh.log, e.item.call).Add(e, e.item.call);
             if e.Settle? then SettledTallyOk(t, cancelled) else CurrentTallyOk(t, sh'.worker)
    ensures forall c :: TallyOk(sh', cancelled, c)
  {
    hide InOrder, Distinct, SettledItems, LateOk, TallyOf, SettledTallyOk, CurrentTallyOk;
    forall c ensures TallyOk(sh', cancelled, c) {
      assert TallyOk(sh, cancelled, c);
      TallyPush(sh.log, e, c);
    }
  }

  /** A step that records nothing. */
  lemma {:induction false} ShardInvKeptQuietly(sh: Shard, sh': Shard, stopping: bool, cancelled: bool)
    requires ShardInv(sh, stopping, cancelled)
    requires sh'.queue == sh.queue && sh'.accepted == sh.accepted && sh'.log == sh.log
    requires Pending(sh'.worker) == Pending(sh.worker)
    requires sh'.worker.Holding? ==> sh.worker.Holding? && sh'.worker.item == sh.worker.item
    requires WorkerOk(sh', stopping) && LateOk(sh', stopping)
    requires Pending(sh.worker) != [] ==> CurrentTallyOk(TallyOf(sh.log, sh.worker.item.call), sh'.worker)
    ensures ShardInv(sh', stopping, cancelled)
  {
    forall c ensures TallyOk(sh', cancelled, c) {
      assert TallyOk(sh, cancelled, c);
    }
  }

  lemma {:induction false} ShardInvKeptByWorker(sh: Shard, act: WorkerAct, stopping: bool, cancelled: bool)
    requires ShardInv(sh, stopping, cancelled)
    requires cancelled ==> stopping
    requires WorkerEnabled(sh, act, stopping, cancelled)
    ensures ShardInv(WorkerNext(sh, act, stopping, cancelled), stopping, cancelled)
  {
    var sh' := WorkerNext(sh, act, stopping, cancelled);
    if act == TakeItem {
      ShardInvKeptByTake(sh, stopping, cancelled);
    } else if sh'.log == sh.log {
      ShardInvKeptByQuietStep(sh, act, stopping, cancelled);
    } else {
      ShardInvKeptByRecordingStep(sh, act, stopping, cancelled);
    }
  }

  lemma {:induction false} ShardInvKeptByQuietStep(sh: Shard, act: WorkerAct, stopping: bool, cancelled: bool)
    requires ShardInv(sh, stopping, cancelled)
    requires WorkerEnabled(sh, act, stopping, cancelled) && act != TakeItem
    requires WorkerNext(sh, act, stopping, cancelled).log == sh.log
    ensures ShardInv(WorkerNext(sh, act, stopping, cancelled), stopping, cancelled)
  {
    hide InOrder, Distinct, SettledItems, TallyOf, LateRegular;
    if Pending(sh.worker) != [] {
      assert TallyOk(sh, cancelled, sh.worker.item.call);
    }
    ShardInvKeptQuietly(sh, WorkerNext(sh, act, stopping, cancelled), stopping, cancelled);
  }

  lemma {:induction false} ShardInvKeptByFinish(sh: Shard, outcome: Outcome, stopping: bool, cancelled: bool)
    requires ShardInv(sh, stopping, cancelled)
    requires sh.worker.Holding?
    requires var g := sh.worker.stage; g.Attempting? || g.BackingOff? || g.FinalCheck? || g.FinalAttempting?
    requires sh.worker.stage.FinalCheck? <==> outcome == Drop(ShutdownDeadline)
    requires sh.worker.stage.FinalCheck? ==> cancelled
    ensures ShardInv(Finish(sh, outcome), stopping, cancelled)
  {
    var e := Settle(sh.worker.item, outcome);
    assert TallyOk(sh, cancelled, e.item.call);
    LogPush(sh.log, e);
    ShardInvKeptByRecord(sh, e, Finished, stopping, cancelled);
  }

  lemma {:induction false} ShardInvKeptByStart(sh: Shard, final: bool, stopping: bool, cancelled: bool)
    requires ShardInv(sh, stopping, cancelled)
    requires sh.worker.Holding? && sh.worker.stage == if final then FinalCheck else Ready
    ensures ShardInv(Start(sh, if final then FinalAttempting else Attempting, final, stopping), stopping, cancelled)
  {
    var e := Attempt(sh.worker.item, final, stopping);
    assert TallyOk(sh, cancelled, e.item.call);
    LogPush(sh.log, e);
    ShardInvKeptByRecord(sh, e, if final then FinalAttempting else Attempting, stopping, cancelled);
  }

  lemma {:induction false} ShardInvKeptByRecordingStep(sh: Shard, act: WorkerAct, stopping: bool, cancelled: bool)
    requires ShardInv(sh, stopping, cancelled)
    requires WorkerEnabled(sh, act, stopping, cancelled) && act != TakeItem
    requires WorkerNext(sh, act, stopping, cancelled).log != sh.log
    ensures ShardInv(WorkerNext(sh, act, stopping, cancelled), stopping, cancelled)
  {
    match act
    case StartAttempt => ShardInvKeptByStart(sh, false, stopping, cancelled);
    case StartFinal => ShardInvKeptByStart(sh, true, stopping, cancelled);
    case AttemptSucceeds => ShardInvKeptByFinish(sh, Success, stopping, cancelled);
    case AttemptFailsForGood => ShardInvKeptByFinish(sh, Drop(Permanent), stopping, cancelled);
    case BudgetSpent => ShardInvKeptByFinish(sh, Drop(RetryExhausted), stopping, cancelled);
    case ContextEnded => ShardInvKeptByFinish(sh, Drop(ShutdownDeadline), stopping, cancelled);
    case FinalSucceeds => ShardInvKeptByFinish(sh, Success, stopping, cancelled);
    case FinalFails => ShardInvKeptByFinish(sh, Drop(ShutdownAttemptFailed), stopping, cancelled);
    case _ =>
  }
}
