/**
The collector can always come to rest: no interleaving of requests, Accept calls, workers and Shutdown leaves a request
or the sink stuck.
*/
module Quiescence {
  import opened Sums
  import opened Ingest
  import opened EndToEnd
  import S = Sink
  import SinkInvariant
  import SinkShutdown

  /** A step that needs no request to give up waiting and no shutdown deadline to pass. */
  predicate Patient(a: Action) {
    match a
    case Handle(_, wait) => wait.Continue?
    case SinkStep(b) => b != S.ShutdownStep(S.DeadlinePasses)
  }

  /** `acts` leads from `t` to `u` by patient steps, without a request that has not arrived in `t`, and none gives up. */
  ghost predicate Leads(cfg: Config, t: State, acts: seq<Action>, u: State) {
    && Sized(cfg, t) && CanRun(cfg, t, acts) && After(cfg, t, acts) == u
    && (forall a | a in acts :: Patient(a))
    && (forall i | 0 <= i < |t.reqs| && t.reqs[i].phase.NotArrived? :: u.reqs[i] == t.reqs[i])
    && (forall i | 0 <= i < |t.reqs| && HasGivenUp(u.reqs[i]) :: HasGivenUp(t.reqs[i]))
  }

  ghost predicate HasGivenUp(r: Request) {
    (r.phase.Counted? || r.phase.Done?) && GaveUp(r.phase.outcome)
  }

  lemma {:induction false} PatienceGivesUpNothing(r: Request, call: S.CallPhase)
    ensures HasGivenUp(r.(phase := NextPhase(r, Continue, call))) ==> HasGivenUp(r)
  {
  }

  lemma {:induction false} LeadsStep(cfg: Config, t: State, a: Action, acts: seq<Action>, u: State)
    requires Sized(cfg, t) && Enabled(cfg, t, a) && Patient(a) && Leads(cfg, Apply(cfg, t, a), acts, u)
    requires a.Handle? ==> !t.reqs[a.i].phase.NotArrived?
    ensures Leads(cfg, t, [a] + acts, u)
  {
    hide NextPhase, S.Apply, S.Enabled, Counts;
    assert ([a] + acts)[1..] == acts;
    var t' := Apply(cfg, t, a);
    forall i | 0 <= i < |t.reqs| && t.reqs[i].phase.NotArrived? ensures u.reqs[i] == t.reqs[i] {
      assert t'.reqs[i] == t.reqs[i];
    }
    forall i | 0 <= i < |t.reqs| && HasGivenUp(u.reqs[i]) ensures HasGivenUp(t.reqs[i]) {
      assert HasGivenUp(t'.reqs[i]);
      if a.Handle? && a.i == i {
        PatienceGivesUpNothing(t.reqs[i], t.sink.calls[i].phase);
      }
    }
  }

  // ----- Shutdown first -----

  ghost function Lifted(acts: seq<S.Action>): seq<Action> {
    if acts == [] then [] else [SinkStep(acts[0])] + Lifted(acts[1..])
  }

  /** Steps of the sink's own need nothing from the handler. What follows them follows the lifted steps. */
  lemma {:induction false} OwnStepsLift(cfg: Config, t: State, acts: seq<S.Action>, rest: seq<Action>, u: State)
    requires Sized(cfg, t) && S.CanRun(cfg.sink, t.sink, acts) && SinkShutdown.AllOwn(cfg.sink, t.sink, acts)
    requires Leads(cfg, t.(sink := S.After(cfg.sink, t.sink, acts)), rest, u)
    ensures Leads(cfg, t, Lifted(acts) + rest, u)
    decreases |acts|
  {
    hide Leads, S.Apply, S.Enabled, HandleEnabled, NextPhase, Counts;
    if acts == [] {
      assert Lifted(acts) + rest == rest;
    } else {
      var a := SinkStep(acts[0]);
      var t' := Apply(cfg, t, a);
      assert t'.(sink := S.After(cfg.sink, t'.sink, acts[1..])) == t.(sink := S.After(cfg.sink, t.sink, acts));
      OwnStepsLift(cfg, t', acts[1..], rest, u);
      LeadsStep(cfg, t, a, Lifted(acts[1..]) + rest, u);
      assert Lifted(acts) + rest == [a] + (Lifted(acts[1..]) + rest);
    }
  }

  lemma {:induction false} LiftedRuns(cfg: Config, t: State, acts: seq<S.Action>)
    requires Inv(cfg, t) && S.CanRun(cfg.sink, t.sink, acts) && SinkShutdown.AllOwn(cfg.sink, t.sink, acts)
    ensures Inv(cfg, t.(sink := S.After(cfg.sink, t.sink, acts)))
    decreases |acts|
  {
    if acts == [] {
      assert t.(sink := S.After(cfg.sink, t.sink, acts)) == t;
    } else {
      var a := SinkStep(acts[0]);
      var t' := Apply(cfg, t, a);
      InvKept(cfg, t, a);
      LiftedRuns(cfg, t', acts[1..]);
      assert t'.(sink := S.After(cfg.sink, t'.sink, acts[1..])) == t.(sink := S.After(cfg.sink, t.sink, acts));
    }
  }

  // ----- then the requests -----

  ghost function RequestSteps(): Request -> int {
    (r: Request) => RequestRank(r)
  }

  /** Steps left for a request that has arrived. */
  ghost function RequestRank(r: Request): nat {
    match r.phase
    case NotArrived => 0
    case Reading => 6
    case WaitingForSlot => 5
    case Decoding => 4
    case Validating => 3
    case InSink => 2
    case Counted(_) => 1
    case Done(_) => 0
  }

  ghost function CallSteps(): S.Call -> int {
    (c: S.Call) => S.CallRank(c.phase)
  }

  ghost function StepsLeft(t: State): int {
    Sum(t.reqs, RequestSteps()) + Sum(t.sink.calls, CallSteps())
  }

  /**
  After Shutdown, some request that has arrived and not ended can step, or its Accept call can. Requests with a slot go
  first, so that a waiting one finds the semaphore free.
  */
  lemma {:induction false} NextStep(cfg: Config, t: State) returns (a: Action)
    requires Inv(cfg, t) && t.sink.shutdown.ShutDown? && !Quiet(t)
    ensures Enabled(cfg, t, a) && Patient(a)
    ensures a.Handle? ==> RequestRank(t.reqs[a.i]) > 0
    ensures a.SinkStep? ==> a.a.CallStep?
  {
    hide CounterInv, TotalInv, RequestsInv;
    if i :| 0 <= i < |t.reqs| && t.reqs[i].HasSlot() {
      if t.reqs[i].phase.InSink? && !t.sink.calls[i].phase.Returned? {
        a := SinkStep(S.CallStep(i));
      } else {
        a := Handle(i, Continue);
        assert SlotHeld()(t.reqs[i]) == 1;
        SumNonNegative(t.reqs, SlotHeld());
      }
    } else {
      SumAllZero(t.reqs, SlotHeld());
      var i :| 0 <= i < |t.reqs| && !t.reqs[i].phase.Done? && !t.reqs[i].phase.NotArrived?;
      a := Handle(i, Continue);
    }
  }

  lemma {:induction false} HandleCloser(cfg: Config, t: State, i: nat)
    requires Sized(cfg, t) && Enabled(cfg, t, Handle(i, Continue)) && RequestRank(t.reqs[i]) > 0
    ensures StepsLeft(Apply(cfg, t, Handle(i, Continue))) < StepsLeft(t)
  {
    var r' := Apply(cfg, t, Handle(i, Continue)).reqs[i];
    assert RequestRank(r') < RequestRank(t.reqs[i]);
    SumUpdate(t.reqs, i, r', RequestSteps());
  }

  lemma {:induction false} CallCloser(cfg: Config, t: State, i: nat)
    requires Sized(cfg, t) && Enabled(cfg, t, SinkStep(S.CallStep(i)))
    ensures StepsLeft(Apply(cfg, t, SinkStep(S.CallStep(i)))) < StepsLeft(t)
  {
    var c := t.sink.calls[i];
    var r := S.CallNext(cfg.sink, c, t.sink.shards[cfg.sink.Route(c.item.owner)], t.sink.closed);
    assert S.CallRank(r.phase) < S.CallRank(c.phase);
    SumUpdate(t.sink.calls, i, c.(phase := r.phase), CallSteps());
  }

  lemma {:induction false} RequestsCanEnd(cfg: Config, t: State) returns (acts: seq<Action>, u: State)
    requires Inv(cfg, t) && t.sink.shutdown.ShutDown?
    ensures Leads(cfg, t, acts, u) && Quiet(u)
    decreases StepsLeft(t)
  {
    acts, u := [], t;
    if !Quiet(t) {
      SumNonNegative(t.reqs, RequestSteps());
      SumNonNegative(t.sink.calls, CallSteps());
      var a := NextStep(cfg, t);
      InvKept(cfg, t, a);
      var t' := Apply(cfg, t, a);
      match a {
        case Handle(i, _) => HandleCloser(cfg, t, i);
        case SinkStep(b) => CallCloser(cfg, t, b.i);
      }
      acts, u := RequestsCanEnd(cfg, t');
      LeadsStep(cfg, t, a, acts, u);
      acts := [a] + acts;
    }
  }

  // ----- together -----

  lemma {:induction false} RunOn(cfg: Config, s: State, acts: seq<Action>, more: seq<Action>)
    requires Sized(cfg, s) && CanRun(cfg, s, acts) && CanRun(cfg, After(cfg, s, acts), more)
    ensures CanRun(cfg, s, acts + more) && After(cfg, s, acts + more) == After(cfg, After(cfg, s, acts), more)
    decreases |acts|
  {
    hide Enabled, Apply;
    if acts == [] {
      assert acts + more == more;
    } else {
      RunOn(cfg, Apply(cfg, s, acts[0]), acts[1..], more);
      assert (acts + more)[1..] == acts[1..] + more;
    }
  }

  lemma {:induction false} StaysReachable(cfg: Config, t: State, more: seq<Action>, u: State)
    requires Reachable(cfg, t) && Leads(cfg, t, more, u)
    ensures Reachable(cfg, u)
  {
    hide CanRun, After;
    var s, acts :| Init(cfg, s) && CanRun(cfg, s, acts) && After(cfg, s, acts) == t;
    RunOn(cfg, s, acts, more);
  }

  lemma {:induction false} ReturnsThenEnds(cfg: Config, t: State) returns (acts: seq<Action>, u: State)
    requires Inv(cfg, t) && SinkInvariant.Inv(cfg.sink, t.sink) && !t.sink.shutdown.NotCalled?
    ensures Leads(cfg, t, acts, u) && Quiet(u)
  {
    hide Leads, Quiet, SinkInvariant.Inv;
    var own := SinkShutdown.WayToReturn(cfg.sink, t.sink);
    LiftedRuns(cfg, t, own);
    acts, u := RequestsCanEnd(cfg, t.(sink := S.After(cfg.sink, t.sink, own)));
    OwnStepsLift(cfg, t, own, acts, u);
    acts := Lifted(own) + acts;
  }

  /**
  From every reachable state the collector can come to rest, with the requests that have arrived ended and Shutdown
  returned: no new request, no canceled or timed-out wait for a slot and no shutdown deadline is needed. There the
  accounting holds.
  */
  lemma {:induction false} CanComeToRest(cfg: Config, t: State) returns (acts: seq<Action>, u: State)
    requires Reachable(cfg, t)
    ensures Leads(cfg, t, acts, u) && Quiet(u) && Reachable(cfg, u)
  {
    hide Leads, Quiet, Reachable, Inv, SinkInvariant.Inv;
    InvReachable(cfg, t);
    SinkReachable(cfg, t);
    SinkInvariant.InvReachable(cfg.sink, t.sink);
    if t.sink.shutdown.NotCalled? {
      var b := S.ShutdownStep(S.CallIt);
      SinkInvariant.InvKept(cfg.sink, t.sink, b);
      InvKept(cfg, t, SinkStep(b));
      acts, u := ReturnsThenEnds(cfg, Apply(cfg, t, SinkStep(b)));
      LeadsStep(cfg, t, SinkStep(b), acts, u);
      acts := [SinkStep(b)] + acts;
    } else {
      acts, u := ReturnsThenEnds(cfg, t);
    }
    StaysReachable(cfg, t, acts, u);
  }
}
