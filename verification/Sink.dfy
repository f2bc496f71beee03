/**
The forwarding sink as a state machine (internal/forward/forward.go).

Any number of Accept calls, one worker per shard and one Shutdown share a read-write lock, the `closed` flag, the
`stopping` channel, the cancelable context, and per shard a bounded queue and a byte counter. Each step below is one
access to that shared state. The results of HTTP attempts, the timers and the scheduler are the choice of the action.

The fields `accepted` and `log` are history: no step reads them.
*/
module Sink {
  import opened GoStrings
  import opened ShardKey
  import opened Payload

  /** `hash` stands for the FNV-1a sum of the key. withDefaults makes the three sizes positive. */
  datatype Config = Config(shards: nat, queueSize: nat, queueBytes: nat, hash: Bytes -> nat) {
    ghost predicate Valid() {
      shards >= 1 && queueSize >= 1 && queueBytes >= 1
    }

    /** shardIndex of the owner's key. */
    ghost function Route(owner: Instance): (k: nat)
      requires Valid()
      ensures k < shards
    {
      hash(KeyOf(owner)) % shards
    }
  }

  /**
  queuedItem. `call` names the Accept call it came from, so that equal payloads stay distinct. `payload` is the metrics
  label of its path.
  */
  datatype Item = Item(call: nat, owner: Instance, path: Bytes, payload: Bytes, body: Bytes) {
    function Size(): nat { |body| }
    function Label(): Bytes { payload }

    ghost predicate Labelled() { payload == PayloadLabel(path) }
  }

  datatype DropReason = Marshal | Permanent | RetryExhausted | ShutdownDeadline | ShutdownAttemptFailed
  datatype Refusal = ShuttingDown | QueueFull

  /** One series of the counters ForwardDelivered, ForwardDropped, ForwardRefused and ForwardRetries. */
  datatype Metric =
    | Delivered(payload: Bytes)
    | Dropped(payload: Bytes, reason: DropReason)
    | Refused(payload: Bytes, refusal: Refusal)
    | Retries(payload: Bytes)

  // ----- Accept calls -----

  /** The error an Accept call returns. The first two are nil. */
  datatype Result = Queued | MarshalDropped | Failed(refusal: Refusal)

  datatype CallPhase =
    | Idle
    | Marshaling
    | Locking
    | Locked
    | Checked
    | Reserved
    | RollingBack
    | Unlocking(result: Result)
    | Returned(result: Result)

  /** Every step of a call lowers its rank, down to 0 when it has returned. */
  function CallRank(phase: CallPhase): nat {
    match phase
    case Idle => 8
    case Marshaling => 7
    case Locking => 6
    case Locked => 5
    case Checked => 4
    case Reserved => 3
    case RollingBack => 2
    case Unlocking(_) => 1
    case Returned(_) => 0
  }

  datatype Call = Call(item: Item, marshals: bool, phase: CallPhase) {
    /** Holds the read lock. */
    predicate Reading() {
      phase.Locked? || phase.Checked? || phase.Reserved? || phase.RollingBack? || phase.Unlocking?
    }

    /** Passed the shutdown check and may still send. */
    predicate Sending() {
      phase.Checked? || phase.Reserved? || phase.RollingBack?
    }

    /** Its bytes are reserved, and its item is not in the queue. */
    predicate Reserving() {
      phase.Reserved? || phase.RollingBack?
    }

    predicate Settled(r: Result) {
      phase == Unlocking(r) || phase == Returned(r)
    }
  }

  // ----- shards and workers -----

  datatype Outcome = Success | Drop(reason: DropReason)

  /** What the worker of a shard did. `drained`: taken by drain. `late`: started after stopping was closed. */
  datatype Event =
    | Take(item: Item, drained: bool)
    | Attempt(item: Item, final: bool, late: bool)
    | Settle(item: Item, outcome: Outcome)

  /**
  Where deliver or finalDeliveryAttempt stands with its item. Ready: about to start an attempt of the retry loop.
  Attempting: that attempt is in flight. AttemptFailed: it failed, retryable. BackingOff: past the stopping check, before
  the backoff's answer. FinalCheck: before finalDeliveryAttempt looks at the context. Finished: the outcome is counted,
  the bytes are not released yet.
  */
  datatype Stage = Ready | Attempting | AttemptFailed | BackingOff | Sleeping | FinalCheck | FinalAttempting | Finished

  datatype Worker =
    | Top
    | Select
    | Holding(item: Item, stage: Stage, draining: bool)
    | Draining
    | Done

  datatype Shard = Shard(queue: seq<Item>, bytes: int, worker: Worker, accepted: seq<Item>, log: seq<Event>)

  datatype WorkerAct =
    | SeeStopping | SeeRunning | TakeItem | StartAttempt
    | AttemptSucceeds | AttemptFailsForGood | AttemptFailsRetryable
    | BudgetSpent | StartWait | TimerFires
    | ContextEnded | StartFinal | FinalSucceeds | FinalFails
    | ReleaseBytes | FindEmpty

  /** May the worker of `sh` take this step? */
  predicate WorkerEnabled(sh: Shard, act: WorkerAct, stopping: bool, cancelled: bool) {
    match sh.worker
    case Top => (act == SeeStopping && stopping) || (act == SeeRunning && !stopping)
    case Select => (act == SeeStopping && stopping) || (act == TakeItem && sh.queue != [])
    case Draining => if sh.queue != [] then act == TakeItem else act == FindEmpty
    case Done => false
    case Holding(_, stage, _) =>
      match stage
      case Ready => act == StartAttempt
      case Attempting => act == AttemptSucceeds || act == AttemptFailsForGood || act == AttemptFailsRetryable
      case AttemptFailed => (act == SeeStopping && stopping) || (act == SeeRunning && !stopping)
      case BackingOff => act == BudgetSpent || act == StartWait
      case Sleeping => act == TimerFires || (act == SeeStopping && stopping)
      case FinalCheck => (act == ContextEnded && cancelled) || (act == StartFinal && !cancelled)
      case FinalAttempting => act == FinalSucceeds || act == FinalFails
      case Finished => act == ReleaseBytes
  }

  function Move(sh: Shard, stage: Stage): Shard
    requires sh.worker.Holding?
  {
    sh.(worker := sh.worker.(stage := stage))
  }

  function Finish(sh: Shard, outcome: Outcome): Shard
    requires sh.worker.Holding?
  {
    Move(sh, Finished).(log := sh.log + [Settle(sh.worker.item, outcome)])
  }

  function Start(sh: Shard, stage: Stage, final: bool, late: bool): Shard
    requires sh.worker.Holding?
  {
    Move(sh, stage).(log := sh.log + [Attempt(sh.worker.item, final, late)])
  }

  function WorkerNext(sh: Shard, act: WorkerAct, stopping: bool, cancelled: bool): Shard
    requires WorkerEnabled(sh, act, stopping, cancelled)
  {
    match act
    case SeeStopping => if sh.worker.Holding? then Move(sh, FinalCheck) else sh.(worker := Draining)
    case SeeRunning => if sh.worker.Holding? then Move(sh, BackingOff) else sh.(worker := Select)
    case TakeItem =>
      var drained := sh.worker.Draining?;
      sh.(queue := sh.queue[1..],
          worker := Holding(sh.queue[0], if drained then FinalCheck else Ready, drained),
          log := sh.log + [Take(sh.queue[0], drained)])
    case StartAttempt => Start(sh, Attempting, false, stopping)
    case AttemptSucceeds => Finish(sh, Success)
    case AttemptFailsForGood => Finish(sh, Drop(Permanent))
    case AttemptFailsRetryable => Move(sh, AttemptFailed)
    case BudgetSpent => Finish(sh, Drop(RetryExhausted))
    case StartWait => Move(sh, Sleeping)
    case TimerFires => Move(sh, Ready)
    case ContextEnded => Finish(sh, Drop(ShutdownDeadline))
    case StartFinal => Start(sh, FinalAttempting, true, stopping)
    case FinalSucceeds => Finish(sh, Success)
    case FinalFails => Finish(sh, Drop(ShutdownAttemptFailed))
    case ReleaseBytes =>
      sh.(bytes := sh.bytes - sh.worker.item.Size(), worker := if sh.worker.draining then Draining else Top)
    case FindEmpty => sh.(worker := Done)
  }

  function OutcomeMetric(item: Item, outcome: Outcome): Metric {
    match outcome
    case Success => Delivered(item.Label())
    case Drop(reason) => Dropped(item.Label(), reason)
  }

  /** The counters a worker step increments. */
  function WorkerCounts(sh: Shard, act: WorkerAct): multiset<Metric> {
    if !sh.worker.Holding? then multiset{}
    else
      var item := sh.worker.item;
      match act
      case AttemptSucceeds => multiset{OutcomeMetric(item, Success)}
      case AttemptFailsForGood => multiset{OutcomeMetric(item, Drop(Permanent))}
      case BudgetSpent => multiset{OutcomeMetric(item, Drop(RetryExhausted))}
      case TimerFires => multiset{Retries(item.Label())}
      case ContextEnded => multiset{OutcomeMetric(item, Drop(ShutdownDeadline))}
      case FinalSucceeds => multiset{OutcomeMetric(item, Success)}
      case FinalFails => multiset{OutcomeMetric(item, Drop(ShutdownAttemptFailed))}
      case _ => multiset{}
  }

  // ----- enqueue -----

  /** shard.reserve's test. */
  predicate Fits(bytes: int, n: nat, limit: nat) {
    !(bytes > 0 && bytes + n > limit)
  }

  datatype CallStepResult = CallStepResult(phase: CallPhase, shard: Shard, counts: multiset<Metric>)

  /** The next step of a call, on the call's own shard. It is the call's only step, so a call makes no choices. */
  function CallNext(cfg: Config, c: Call, sh: Shard, closed: bool): CallStepResult {
    var item := c.item;
    var n := item.Size();
    var none := multiset{};
    match c.phase
    case Idle => CallStepResult(Marshaling, sh, none)
    case Marshaling =>
      if c.marshals then CallStepResult(Locking, sh, none)
      else CallStepResult(Returned(MarshalDropped), sh, multiset{Dropped(item.Label(), Marshal)})
    case Locking => CallStepResult(Locked, sh, none)
    case Locked =>
      if closed then CallStepResult(Unlocking(Failed(ShuttingDown)), sh, multiset{Refused(item.Label(), ShuttingDown)})
      else CallStepResult(Checked, sh, none)
    case Checked =>
      if Fits(sh.bytes, n, cfg.queueBytes) then CallStepResult(Reserved, sh.(bytes := sh.bytes + n), none)
      else CallStepResult(Unlocking(Failed(QueueFull)), sh, multiset{Refused(item.Label(), QueueFull)})
    case Reserved =>
      if |sh.queue| < cfg.queueSize then
        CallStepResult(Unlocking(Queued), sh.(queue := sh.queue + [item], accepted := sh.accepted + [item]), none)
      else CallStepResult(RollingBack, sh, none)
    case RollingBack =>
      CallStepResult(Unlocking(Failed(QueueFull)), sh.(bytes := sh.bytes - n), multiset{Refused(item.Label(), QueueFull)})
    case Unlocking(r) => CallStepResult(Returned(r), sh, none)
    case Returned(_) => CallStepResult(c.phase, sh, none)
  }

  // ----- Shutdown -----

  /** The first Shutdown call. Later calls return at once and touch nothing. */
  datatype ShutdownPhase = NotCalled | WantsLock | HasLock | ClosedSet | LockFreed | Waiting | ShutDown

  datatype ShutdownAct = CallIt | Lock | SetClosed | Unlock | CloseStopping | DeadlinePasses | SeeWorkersDone

  datatype State = State(
    calls: seq<Call>, shards: seq<Shard>,
    closed: bool, stopping: bool, cancelled: bool, shutdown: ShutdownPhase,
    metrics: multiset<Metric>)

  ghost predicate NoReaders(s: State) {
    forall i | 0 <= i < |s.calls| :: !s.calls[i].Reading()
  }

  ghost predicate WorkersDone(s: State) {
    forall k | 0 <= k < |s.shards| :: s.shards[k].worker.Done?
  }

  ghost predicate ShutdownEnabled(s: State, act: ShutdownAct) {
    match act
    case CallIt => s.shutdown.NotCalled?
    case Lock => s.shutdown.WantsLock? && NoReaders(s)
    case SetClosed => s.shutdown.HasLock?
    case Unlock => s.shutdown.ClosedSet?
    case CloseStopping => s.shutdown.LockFreed?
    case DeadlinePasses => s.shutdown.Waiting?
    case SeeWorkersDone => s.shutdown.Waiting? && WorkersDone(s)
  }

  function ShutdownNext(s: State, act: ShutdownAct): State {
    match act
    case CallIt => s.(shutdown := WantsLock)
    case Lock => s.(shutdown := HasLock)
    case SetClosed => s.(shutdown := ClosedSet, closed := true)
    case Unlock => s.(shutdown := LockFreed)
    case CloseStopping => s.(shutdown := Waiting, stopping := true)
    case DeadlinePasses => s.(cancelled := true)
    case SeeWorkersDone => s.(shutdown := ShutDown, cancelled := true)
  }

  // ----- the machine -----

  datatype Action = CallStep(i: nat) | WorkerStep(k: nat, act: WorkerAct) | ShutdownStep(sact: ShutdownAct)

  ghost predicate Init(cfg: Config, s: State) {
    && cfg.Valid()
    && (forall i | 0 <= i < |s.calls| ::
          s.calls[i].item.call == i && s.calls[i].item.Labelled() && s.calls[i].phase.Idle?)
    && |s.shards| == cfg.shards
    && (forall k | 0 <= k < |s.shards| :: s.shards[k] == Shard([], 0, Top, [], []))
    && !s.closed && !s.stopping && !s.cancelled && s.shutdown.NotCalled?
    && s.metrics == multiset{}
  }

  ghost predicate Sized(cfg: Config, s: State) {
    cfg.Valid() && |s.shards| == cfg.shards
  }

  /** A reader waits while Shutdown holds the write lock. */
  ghost predicate CallEnabled(s: State, i: nat) {
    && i < |s.calls|
    && !s.calls[i].phase.Returned?
    && !(s.calls[i].phase.Locking? && (s.shutdown.HasLock? || s.shutdown.ClosedSet?))
  }

  ghost predicate Enabled(cfg: Config, s: State, a: Action)
    requires Sized(cfg, s)
  {
    match a
    case CallStep(i) => CallEnabled(s, i)
    case WorkerStep(k, act) => k < |s.shards| && WorkerEnabled(s.shards[k], act, s.stopping, s.cancelled)
    case ShutdownStep(act) => ShutdownEnabled(s, act)
  }

  ghost function Apply(cfg: Config, s: State, a: Action): (t: State)
    requires Sized(cfg, s) && Enabled(cfg, s, a)
    ensures Sized(cfg, t) && |t.calls| == |s.calls|
  {
    match a
    case CallStep(i) =>
      var c := s.calls[i];
      var k := cfg.Route(c.item.owner);
      var r := CallNext(cfg, c, s.shards[k], s.closed);
      s.(calls := s.calls[i := c.(phase := r.phase)],
         shards := s.shards[k := r.shard],
         metrics := s.metrics + r.counts)
    case WorkerStep(k, act) =>
      s.(shards := s.shards[k := WorkerNext(s.shards[k], act, s.stopping, s.cancelled)],
         metrics := s.metrics + WorkerCounts(s.shards[k], act))
    case ShutdownStep(act) => ShutdownNext(s, act)
  }

  /** `acts` is a schedule the machine can follow from `s`. */
  ghost predicate CanRun(cfg: Config, s: State, acts: seq<Action>)
    requires Sized(cfg, s)
    decreases |acts|
  {
    if acts == [] then true
    else Enabled(cfg, s, acts[0]) && CanRun(cfg, Apply(cfg, s, acts[0]), acts[1..])
  }

  /** The state a schedule leads to. */
  ghost function After(cfg: Config, s: State, acts: seq<Action>): (t: State)
    requires Sized(cfg, s) && CanRun(cfg, s, acts)
    ensures Sized(cfg, t) && |t.calls| == |s.calls|
    decreases |acts|
  {
    if acts == [] then s else After(cfg, Apply(cfg, s, acts[0]), acts[1..])
  }

  /** A state that some schedule leads to from some initial state. */
  ghost predicate Reachable(cfg: Config, t: State) {
    Sized(cfg, t) && exists s, acts :: Init(cfg, s) && CanRun(cfg, s, acts) && After(cfg, s, acts) == t
  }
}
