/** Shards do not disturb each other: a run seen from one shard is a run of a sink that has only that shard. */
module SinkIndependence {
  import opened Sums
  import opened Sink
  import opened SinkInvariant

  ghost function OneShard(cfg: Config): (one: Config)
    requires cfg.Valid()
    ensures one.Valid() && forall owner :: one.Route(owner) == 0
  {
    cfg.(shards := 1)
  }

  /** The call as shard k sees it: a call for another shard never begins. */
  ghost function Mask(cfg: Config, c: Call, k: nat): Call
    requires cfg.Valid()
  {
    if cfg.Route(c.item.owner) == k then c else c.(phase := Idle)
  }

  /** Shard k's view of the sink. Counters are shared by label, not by shard, so the view has none. */
  ghost function View(cfg: Config, s: State, k: nat): State
    requires Sized(cfg, s) && k < |s.shards|
  {
    s.(calls := seq(|s.calls|, i requires 0 <= i < |s.calls| => Mask(cfg, s.calls[i], k)),
       shards := [s.shards[k]], metrics := multiset{})
  }

  ghost function Erase(s: State): State { s.(metrics := multiset{}) }

  /** Does the step concern shard k? The steps of Shutdown concern every shard. */
  ghost predicate Concerns(cfg: Config, s: State, a: Action, k: nat)
    requires cfg.Valid()
  {
    match a
    case CallStep(i) => i < |s.calls| && cfg.Route(s.calls[i].item.owner) == k
    case WorkerStep(n, _) => n == k
    case ShutdownStep(_) => true
  }

  ghost function Rename(a: Action): Action {
    if a.WorkerStep? then a.(k := 0) else a
  }

  /** The steps of a schedule that concern shard k. A call's owner never changes, so `s` may be any state of the run. */
  ghost function Project(cfg: Config, s: State, acts: seq<Action>, k: nat): seq<Action>
    requires cfg.Valid()
  {
    if acts == [] then []
    else (if Concerns(cfg, s, acts[0], k) then [Rename(acts[0])] else []) + Project(cfg, s, acts[1..], k)
  }

  lemma {:induction false} ProjectStable(cfg: Config, s: State, t: State, acts: seq<Action>, k: nat)
    requires cfg.Valid() && |s.calls| == |t.calls|
    requires forall i | 0 <= i < |s.calls| :: s.calls[i].item == t.calls[i].item
    ensures Project(cfg, s, acts, k) == Project(cfg, t, acts, k)
  {
    if acts != [] {
      ProjectStable(cfg, s, t, acts[1..], k);
    }
  }

  lemma {:induction false} OtherStepInvisible(cfg: Config, s: State, a: Action, k: nat)
    requires Sized(cfg, s) && Enabled(cfg, s, a) && k < |s.shards| && !Concerns(cfg, s, a, k)
    ensures View(cfg, Apply(cfg, s, a), k) == View(cfg, s, k)
  {
  }

  /** Counters are never read. */
  lemma {:induction false} CountersUnread(cfg: Config, u: State, v: State, a: Action)
    requires Sized(cfg, u) && Sized(cfg, v) && Erase(u) == Erase(v)
    ensures Enabled(cfg, u, a) <==> Enabled(cfg, v, a)
    ensures Enabled(cfg, u, a) ==> Erase(Apply(cfg, u, a)) == Erase(Apply(cfg, v, a))
  {
    hide CallNext, WorkerNext, WorkerEnabled, WorkerCounts;
    assert u.calls == v.calls && u.shards == v.shards && u.shutdown == v.shutdown;
    assert u.closed == v.closed && u.stopping == v.stopping && u.cancelled == v.cancelled;
  }

  lemma {:induction false} CallStepVisible(cfg: Config, s: State, i: nat, k: nat)
    requires Sized(cfg, s) && CallEnabled(s, i) && k < |s.shards| && cfg.Route(s.calls[i].item.owner) == k
    ensures var v := View(cfg, s, k);
            CallEnabled(v, i) && Erase(Apply(OneShard(cfg), v, CallStep(i))) == View(cfg, Apply(cfg, s, CallStep(i)), k)
  {
    var v := View(cfg, s, k);
    var c := s.calls[i];
    assert v.calls[i] == c && v.shards[0] == s.shards[k];
    assert CallNext(OneShard(cfg), c, s.shards[k], s.closed) == CallNext(cfg, c, s.shards[k], s.closed);
    var t, u := Apply(cfg, s, CallStep(i)), Apply(OneShard(cfg), v, CallStep(i));
    assert u.calls == View(cfg, t, k).calls;
    assert u.shards == View(cfg, t, k).shards;
  }

  lemma {:induction false} StepVisible(cfg: Config, s: State, a: Action, k: nat)
    requires Sized(cfg, s) && Enabled(cfg, s, a) && k < |s.shards| && Concerns(cfg, s, a, k)
    ensures var v := View(cfg, s, k);
            && Enabled(OneShard(cfg), v, Rename(a))
            && Erase(Apply(OneShard(cfg), v, Rename(a))) == View(cfg, Apply(cfg, s, a), k)
  {
    var v := View(cfg, s, k);
    match a
    case CallStep(i) => CallStepVisible(cfg, s, i, k);
    case WorkerStep(_, act) =>
      var t, u := Apply(cfg, s, a), Apply(OneShard(cfg), v, Rename(a));
      assert u.shards == View(cfg, t, k).shards;
    case ShutdownStep(act) =>
      forall i | 0 <= i < |v.calls| ensures v.calls[i].Reading() ==> s.calls[i].Reading() {
        assert v.calls[i] == Mask(cfg, s.calls[i], k);
      }
      assert Enabled(OneShard(cfg), v, a);
      assert View(cfg, Apply(cfg, s, a), k).calls == v.calls;
  }

  lemma {:induction false} RunProjects(cfg: Config, s: State, u: State, acts: seq<Action>, k: nat)
    requires Sized(cfg, s) && CanRun(cfg, s, acts) && k < |s.shards|
    requires Erase(u) == View(cfg, s, k)
    ensures var one := OneShard(cfg);
            var mine := Project(cfg, s, acts, k);
            && Sized(one, u) && CanRun(one, u, mine)
            && Erase(After(one, u, mine)) == View(cfg, After(cfg, s, acts), k)
    decreases |acts|
  {
    if acts != [] {
      var a, rest := acts[0], acts[1..];
      var t := Apply(cfg, s, a);
      ProjectStable(cfg, s, t, rest, k);
      if Concerns(cfg, s, a, k) {
        StepVisible(cfg, s, a, k);
        CountersUnread(OneShard(cfg), u, View(cfg, s, k), Rename(a));
        RunProjects(cfg, t, Apply(OneShard(cfg), u, Rename(a)), rest, k);
        assert Project(cfg, s, acts, k)[1..] == Project(cfg, s, rest, k);
      } else {
        OtherStepInvisible(cfg, s, a, k);
        RunProjects(cfg, t, u, rest, k);
        assert Project(cfg, s, acts, k) == Project(cfg, s, rest, k);
      }
    }
  }

  /**
  Any run of the sink, cut down to the steps of shard k and of Shutdown, is a run of a sink with that one shard, and
  ends in shard k's view of the whole: same queue, worker, bytes and history, same results of the same calls.
  */
  lemma {:induction false} ShardRunsAlone(cfg: Config, s: State, acts: seq<Action>, k: nat)
    requires Init(cfg, s) && CanRun(cfg, s, acts) && k < cfg.shards
    ensures var one := OneShard(cfg);
            var u := View(cfg, s, k);
            var mine := Project(cfg, s, acts, k);
            && Init(one, u) && CanRun(one, u, mine)
            && Erase(After(one, u, mine)) == View(cfg, After(cfg, s, acts), k)
  {
    RunProjects(cfg, s, View(cfg, s, k), acts, k);
  }

  /** Whether a call or a worker of shard k can step, and what the step does, is decided by shard k's view alone. */
  lemma {:induction false} OthersCannotBlock(cfg: Config, s: State, t: State, a: Action, k: nat)
    requires Sized(cfg, s) && Sized(cfg, t) && k < cfg.shards && View(cfg, s, k) == View(cfg, t, k)
    requires !a.ShutdownStep? && Concerns(cfg, s, a, k)
    ensures Enabled(cfg, s, a) <==> Enabled(cfg, t, a)
    ensures Enabled(cfg, s, a) ==> View(cfg, Apply(cfg, s, a), k) == View(cfg, Apply(cfg, t, a), k)
  {
    var v, w := View(cfg, s, k), View(cfg, t, k);
    assert v.shards[0] == s.shards[k] && w.shards[0] == t.shards[k];
    if a.CallStep? {
      assert v.calls[a.i] == Mask(cfg, s.calls[a.i], k) && w.calls[a.i] == Mask(cfg, t.calls[a.i], k);
    }
    if Enabled(cfg, s, a) {
      StepVisible(cfg, s, a, k);
      StepVisible(cfg, t, a, k);
    }
  }

  /**
  Before Shutdown, a shard with nothing queued, in flight or being enqueued takes any payload, even one larger than
  the byte limit.
  */
  lemma {:induction false} IdleShardTakesAnything(cfg: Config, t: State, i: nat) returns (more: seq<Action>)
    requires Reachable(cfg, t)
    requires i < |t.calls| && t.calls[i].phase.Locking? && t.shutdown.NotCalled?
             && var k := cfg.Route(t.calls[i].item.owner);
             && t.shards[k].queue == [] && !t.shards[k].worker.Holding?
             && forall j | 0 <= j < |t.calls| :: t.calls[j].Reserving() ==> cfg.Route(t.calls[j].item.owner) != k
    ensures (forall n | 0 <= n < |more| :: more[n] == CallStep(i))
            && CanRun(cfg, t, more) && After(cfg, t, more).calls[i].phase == Returned(Queued)
  {
    InvReachable(cfg, t);
    var k := cfg.Route(t.calls[i].item.owner);
    assert BytesOk(cfg, t, k);
    forall j | 0 <= j < |t.calls| ensures Reserving(cfg, k, SizeOf())(t.calls[j]) == 0 {
      assert t.calls[j].Reserving() ==> cfg.Route(t.calls[j].item.owner) != k;
    }
    SumAllZero(t.calls, Reserving(cfg, k, SizeOf()));
    more := SoloCallQueues(cfg, t, i);
  }

  /** Call i is on its way to the empty queue of its shard, and no Shutdown has begun. */
  ghost predicate Solo(cfg: Config, t: State, i: nat) {
    && Sized(cfg, t) && i < |t.calls| && t.shutdown.NotCalled? && !t.closed
    && var sh := t.shards[cfg.Route(t.calls[i].item.owner)];
    match t.calls[i].phase
    case Locking => sh.queue == [] && sh.bytes == 0
    case Locked => sh.queue == [] && sh.bytes == 0
    case Checked => sh.queue == [] && sh.bytes == 0
    case Reserved => sh.queue == []
    case Unlocking(r) => r == Queued
    case Returned(r) => r == Queued
    case _ => false
  }

  lemma {:induction false} SoloStart(cfg: Config, t: State, i: nat)
    requires Sized(cfg, t) && i < |t.calls| && t.calls[i].phase.Locking? && t.shutdown.NotCalled? && !t.closed
    requires var sh := t.shards[cfg.Route(t.calls[i].item.owner)]; sh.queue == [] && sh.bytes == 0
    ensures Solo(cfg, t, i)
  {
  }

  lemma {:induction false} SoloStep(cfg: Config, t: State, i: nat) returns (u: State)
    requires Solo(cfg, t, i) && i < |t.calls| && !t.calls[i].phase.Returned?
    ensures Sized(cfg, t) && Enabled(cfg, t, CallStep(i)) && u == Apply(cfg, t, CallStep(i)) && Solo(cfg, u, i)
    ensures i < |u.calls| && CallRank(u.calls[i].phase) ==
              if t.calls[i].phase.Reserved? then 1 else CallRank(t.calls[i].phase) - 1
  {
    u := Apply(cfg, t, CallStep(i));
  }

  lemma {:induction false} RunNothing(cfg: Config, t: State)
    requires Sized(cfg, t)
    ensures CanRun(cfg, t, []) && After(cfg, t, []) == t
  {
  }

  lemma {:induction false} SoloCallQueues(cfg: Config, t: State, i: nat) returns (more: seq<Action>)
    requires Sized(cfg, t) && i < |t.calls| && t.calls[i].phase.Locking? && t.shutdown.NotCalled? && !t.closed
    requires var sh := t.shards[cfg.Route(t.calls[i].item.owner)]; sh.queue == [] && sh.bytes == 0
    ensures forall n | 0 <= n < |more| :: more[n] == CallStep(i)
    ensures CanRun(cfg, t, more) && After(cfg, t, more).calls[i].phase == Returned(Queued)
  {
    hide Apply, Solo, CanRun, After;
    var step := CallStep(i);
    SoloStart(cfg, t, i);
    var t1 := SoloStep(cfg, t, i);
    var t2 := SoloStep(cfg, t1, i);
    var t3 := SoloStep(cfg, t2, i);
    var t4 := SoloStep(cfg, t3, i);
    var t5 := SoloStep(cfg, t4, i);
    RunNothing(cfg, t5);
    more := [];
    RunCons(cfg, t4, step, more);
    more := [step] + more;
    RunCons(cfg, t3, step, more);
    more := [step] + more;
    RunCons(cfg, t2, step, more);
    more := [step] + more;
    RunCons(cfg, t1, step, more);
    more := [step] + more;
    RunCons(cfg, t, step, more);
    more := [step] + more;
  }

  lemma {:induction false} RunCons(cfg: Config, s: State, a: Action, rest: seq<Action>)
    requires Sized(cfg, s) && Enabled(cfg, s, a) && CanRun(cfg, Apply(cfg, s, a), rest)
    ensures CanRun(cfg, s, [a] + rest) && After(cfg, s, [a] + rest) == After(cfg, Apply(cfg, s, a), rest)
  {
    assert ([a] + rest)[1..] == rest;
  }
}
