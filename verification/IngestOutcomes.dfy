/** How a request ends, said by the request itself (ingest/handler.go). */
module IngestOutcomes {
  import opened GoStrings
  import opened Payload
  import opened Validation
  import opened Sums
  import opened Ingest
  import opened Quiescence
  import S = Sink
  import SinkInvariant
  import SinkIndependence

  // ----- what decides the outcome -----

  /** The outcome fits the request's own fields. */
  ghost predicate Fitting(cfg: Config, r: Request, o: Outcome) {
    var readable := r.contentTypeOk && r.body.BodyRead?;
    && (o == Rejected(ContentType) <==> !r.contentTypeOk)
    && (o == Rejected(TooLarge) <==> r.contentTypeOk && r.body.BodyTooLarge?)
    && (o == Rejected(Read) <==> r.contentTypeOk && r.body.BodyBroken?)
    && (GaveUp(o) ==> readable && cfg.cap > 0)
    && (o == Rejected(Malformed) <==> readable && !GaveUp(o) && r.verdict.Undecodable?)
    && (o == Rejected(InvalidPayload) <==> readable && !GaveUp(o) && r.verdict.Unacceptable?)
    && (o == Accepted || o == Rejected(SinkError) <==> readable && !GaveUp(o) && r.verdict.Fine?)
  }

  ghost predicate OutcomeOk(cfg: Config, r: Request) {
    r.phase.Counted? || r.phase.Done? ==> Fitting(cfg, r, r.phase.outcome)
  }

  lemma {:induction false} OutcomeOkKept(cfg: Config, s: State, i: nat, wait: Wait)
    requires Inv(cfg, s) && HandleEnabled(cfg, s, i, wait) && OutcomeOk(cfg, s.reqs[i])
    ensures OutcomeOk(cfg, s.reqs[i].(phase := NextPhase(s.reqs[i], wait, s.sink.calls[i].phase)))
  {
    hide CallMatches, SlotInv, TotalInv, CounterInv;
    assert RequestOk(cfg, s.reqs[i], s.sink.calls[i]);
  }

  lemma {:induction false} OutcomeOkAlongRun(cfg: Config, s: State, acts: seq<Action>)
    requires Inv(cfg, s) && CanRun(cfg, s, acts) && forall i | 0 <= i < |s.reqs| :: OutcomeOk(cfg, s.reqs[i])
    ensures forall i | 0 <= i < |s.reqs| :: OutcomeOk(cfg, After(cfg, s, acts).reqs[i])
    decreases |acts|
  {
    hide OutcomeOk, SlotInv, RequestsInv, TotalInv, CounterInv, NextPhase, S.Apply, S.Enabled, HandleEnabled;
    if acts != [] {
      var t := Apply(cfg, s, acts[0]);
      forall i | 0 <= i < |t.reqs| ensures OutcomeOk(cfg, t.reqs[i]) {
        if acts[0].Handle? && acts[0].i == i {
          OutcomeOkKept(cfg, s, i, acts[0].wait);
        }
      }
      InvKept(cfg, s, acts[0]);
      OutcomeOkAlongRun(cfg, t, acts[1..]);
    }
  }

  lemma {:induction false} OutcomeOkReachable(cfg: Config, t: State, i: nat)
    requires Reachable(cfg, t) && i < |t.reqs|
    ensures OutcomeOk(cfg, t.reqs[i])
  {
    hide Inv, CanRun, After, CallMatches;
    var s, acts :| Init(cfg, s) && CanRun(cfg, s, acts) && After(cfg, s, acts) == t;
    InvInitially(cfg, s);
    OutcomeOkAlongRun(cfg, s, acts);
  }

  /** What the handler needs of a request to hand its payload on. */
  ghost predicate Good(r: Request) {
    r.contentTypeOk && r.body.BodyRead? && r.decoded.Some? && Acceptable(r.decoded.value)
  }

  /**
  Exactly which requests end how, in every reachable state: by their content type, then by their body, then, unless they
  gave up waiting for a slot, by what their body decodes to, by its validity, and by the result of their Accept call.
  */
  lemma {:induction false} OutcomeIff(cfg: Config, t: State, i: nat, o: Outcome)
    requires Reachable(cfg, t) && i < |t.reqs| && t.reqs[i].Ended(o)
    ensures var r, call := t.reqs[i], t.sink.calls[i].phase;
            var slot := r.contentTypeOk && r.body.BodyRead? && !GaveUp(o);
            && (o == Rejected(ContentType) <==> !r.contentTypeOk)
            && (o == Rejected(TooLarge) <==> r.contentTypeOk && r.body.BodyTooLarge?)
            && (o == Rejected(Read) <==> r.contentTypeOk && r.body.BodyBroken?)
            && (GaveUp(o) ==> r.contentTypeOk && r.body.BodyRead? && cfg.cap > 0)
            && (o == Rejected(Malformed) <==> slot && r.decoded.None?)
            && (o == Rejected(InvalidPayload) <==> slot && r.decoded.Some? && !Acceptable(r.decoded.value))
            && (o == Rejected(SinkError) <==> slot && Good(r) && call.Returned? && call.result.Failed?)
            && (o == Accepted <==> slot && Good(r) && call.Returned? && !call.result.Failed?)
  {
    hide Acceptable, Validate, SlotInv, TotalInv, CounterInv, StampMessage, KindLabel, PathOf;
    OutcomeOkReachable(cfg, t, i);
    InvReachable(cfg, t);
    var r := t.reqs[i];
    assert RequestOk(cfg, r, t.sink.calls[i]);
    if r.decoded.Some? {
      ValidIff(r.decoded.value);
    }
  }

  /** And what it is answered: the status is as the outcome demands, and a request whose client is gone gets none. */
  lemma {:induction false} AnswerIff(cfg: Config, t: State, i: nat, o: Outcome)
    requires Reachable(cfg, t) && i < |t.reqs| && t.reqs[i].phase == Done(o)
    ensures var r, call := t.reqs[i], t.sink.calls[i].phase;
            var slot := r.contentTypeOk && r.body.BodyRead? && !GaveUp(o);
            && (Status(o) == Some(415) <==> !r.contentTypeOk)
            && (Status(o) == Some(413) <==> r.contentTypeOk && r.body.BodyTooLarge?)
            && (Status(o) == Some(400) <==>
                  (r.contentTypeOk && r.body.BodyBroken?) ||
                  (slot && (r.decoded.None? || !Acceptable(r.decoded.value))))
            && (Status(o) == Some(503) <==>
                  o == Rejected(Busy) || (slot && Good(r) && call.Returned? && call.result.Failed?))
            && (Status(o) == Some(202) <==> slot && Good(r) && call.Returned? && !call.result.Failed?)
            && (Status(o) == None <==> o == Rejected(Canceled))
  {
    hide Acceptable, Reachable, Good;
    OutcomeIff(cfg, t, i, o);
    match o case Accepted => case Rejected(reason) =>
      match reason
      case ContentType => case TooLarge => case Read => case Malformed => case InvalidPayload =>
      case SinkError => case Canceled => case Busy =>
  }

  // ----- giving up -----

  /** The steps of a run in which a request of the label stops waiting for a slot this way. */
  ghost function WaitSteps(cfg: Config, s: State, acts: seq<Action>, l: Bytes, wait: Wait): nat
    requires Sized(cfg, s) && CanRun(cfg, s, acts)
    decreases |acts|
  {
    if acts == [] then 0
    else
      var a := acts[0];
      (if a.Handle? && a.wait == wait && s.reqs[a.i].payload == l then 1 else 0)
      + WaitSteps(cfg, Apply(cfg, s, a), acts[1..], l, wait)
  }

  lemma {:induction false} WaitStepCounted(cfg: Config, s: State, a: Action, l: Bytes)
    requires Inv(cfg, s) && Enabled(cfg, s, a)
    ensures var t := Apply(cfg, s, a);
            && t.counters[Metric(l, Rejected(Canceled))] == s.counters[Metric(l, Rejected(Canceled))] +
               (if a.Handle? && a.wait == ContextEnds && s.reqs[a.i].payload == l then 1 else 0)
            && t.counters[Metric(l, Rejected(Busy))] == s.counters[Metric(l, Rejected(Busy))] +
               (if a.Handle? && a.wait == TimesOut && s.reqs[a.i].payload == l then 1 else 0)
  {
    hide SlotInv, TotalInv, CounterInv, S.Apply, S.Enabled, CallMatches;
    if a.Handle? {
      assert RequestOk(cfg, s.reqs[a.i], s.sink.calls[a.i]);
    }
  }

  lemma {:induction false} WaitsCountedAlong(cfg: Config, s: State, acts: seq<Action>, l: Bytes)
    requires Inv(cfg, s) && CanRun(cfg, s, acts)
    ensures var t := After(cfg, s, acts);
            && t.counters[Metric(l, Rejected(Canceled))] ==
               s.counters[Metric(l, Rejected(Canceled))] + WaitSteps(cfg, s, acts, l, ContextEnds)
            && t.counters[Metric(l, Rejected(Busy))] ==
               s.counters[Metric(l, Rejected(Busy))] + WaitSteps(cfg, s, acts, l, TimesOut)
    decreases |acts|
  {
    hide SlotInv, RequestsInv, TotalInv, CounterInv, Apply, HandleEnabled, S.Enabled;
    if acts != [] {
      WaitStepCounted(cfg, s, acts[0], l);
      InvKept(cfg, s, acts[0]);
      WaitsCountedAlong(cfg, Apply(cfg, s, acts[0]), acts[1..], l);
    }
  }

  /** After every run, per label: "canceled" counts the waits the context ended, "busy" those that timed out. */
  lemma {:induction false} WaitsCounted(cfg: Config, s: State, acts: seq<Action>, l: Bytes)
    requires Init(cfg, s) && CanRun(cfg, s, acts)
    ensures After(cfg, s, acts).counters[Metric(l, Rejected(Canceled))] == WaitSteps(cfg, s, acts, l, ContextEnds)
    ensures After(cfg, s, acts).counters[Metric(l, Rejected(Busy))] == WaitSteps(cfg, s, acts, l, TimesOut)
  {
    hide Inv, CanRun, After, WaitSteps;
    InvInitially(cfg, s);
    WaitsCountedAlong(cfg, s, acts, l);
  }

  // ----- a good request is accepted -----

  /** A run, one step longer. */
  lemma {:induction false} Then(cfg: Config, t: State, acts: seq<Action>, u: State, a: Action)
    returns (more: seq<Action>, v: State)
    requires Sized(cfg, t) && CanRun(cfg, t, acts) && After(cfg, t, acts) == u && Enabled(cfg, u, a)
    ensures v == Apply(cfg, u, a) && CanRun(cfg, t, more) && After(cfg, t, more) == v
  {
    hide Enabled, Apply, CanRun, After;
    v := Apply(cfg, u, a);
    more := acts + [a];
    JustOne(cfg, u, a);
    RunOn(cfg, t, acts, [a]);
  }

  lemma {:induction false} JustOne(cfg: Config, u: State, a: Action)
    requires Sized(cfg, u) && Enabled(cfg, u, a)
    ensures CanRun(cfg, u, [a]) && After(cfg, u, [a]) == Apply(cfg, u, a)
  {
    hide Enabled, Apply;
    assert [a][1..] == [];
    NoSteps(cfg, Apply(cfg, u, a));
  }

  /** A run, one step of a request longer. */
  lemma {:induction false} HandleThen(cfg: Config, t: State, acts: seq<Action>, u: State, i: nat)
    returns (more: seq<Action>, v: State)
    requires Sized(cfg, t) && CanRun(cfg, t, acts) && After(cfg, t, acts) == u && HandleEnabled(cfg, u, i, Continue)
    ensures CanRun(cfg, t, more) && After(cfg, t, more) == v
    ensures v.sink == u.sink && |v.reqs| == |u.reqs|
    ensures v.reqs[i] == u.reqs[i].(phase := NextPhase(u.reqs[i], Continue, u.sink.calls[i].phase))
    ensures u.reqs[i].HasSlot() && v.reqs[i].HasSlot() ==> v.slots == u.slots
    ensures cfg.cap > 0 && !u.reqs[i].HasSlot() && v.reqs[i].HasSlot() ==> v.slots == u.slots + 1
    ensures !u.reqs[i].HasSlot() && !v.reqs[i].HasSlot() ==> v.slots == u.slots
  {
    hide CanRun, After, NextPhase;
    more, v := Then(cfg, t, acts, u, Handle(i, Continue));
  }

  /** The handler takes a good request, given a slot, up to its Accept call. The sink does not step. */
  lemma {:induction false} ReachesSink(cfg: Config, t: State, i: nat) returns (acts: seq<Action>, u: State)
    requires Inv(cfg, t) && i < |t.reqs| && t.reqs[i].phase.NotArrived? && Good(t.reqs[i])
    requires cfg.cap == 0 || Sum(t.reqs, SlotHeld()) < cfg.cap
    ensures CanRun(cfg, t, acts) && After(cfg, t, acts) == u
    ensures u.sink == t.sink && |u.reqs| == |t.reqs| && u.reqs[i] == t.reqs[i].(phase := InSink)
    ensures cfg.cap > 0 ==> u.slots > 0
  {
    hide CanRun, After, Sum, RequestsInv, CounterInv, TotalInv;
    IsFine(cfg, t, i);
    NoSteps(cfg, t);
    acts, u := HandleThen(cfg, t, [], t, i);
    acts, u := HandleThen(cfg, t, acts, u, i);
    acts, u := HandleThen(cfg, t, acts, u, i);
    acts, u := HandleThen(cfg, t, acts, u, i);
    acts, u := HandleThen(cfg, t, acts, u, i);
  }

  lemma {:induction false} IsFine(cfg: Config, t: State, i: nat)
    requires Inv(cfg, t) && i < |t.reqs| && Good(t.reqs[i])
    ensures t.reqs[i].verdict.Fine?
  {
    hide Acceptable, Validate, SlotInv, TotalInv, CounterInv, StampMessage, KindLabel, PathOf;
    assert RequestOk(cfg, t.reqs[i], t.sink.calls[i]);
    ValidIff(t.reqs[i].decoded.value);
  }

  lemma {:induction false} NoSteps(cfg: Config, t: State)
    requires Sized(cfg, t)
    ensures CanRun(cfg, t, []) && After(cfg, t, []) == t
  {
  }

  /** Steps of the request's own Accept call, made by the collector. */
  lemma {:induction false} CallRuns(cfg: Config, t: State, acts: seq<Action>, u: State, own: seq<S.Action>, i: nat)
    returns (more: seq<Action>, v: State)
    requires Sized(cfg, t) && CanRun(cfg, t, acts) && After(cfg, t, acts) == u && i < |u.reqs| && u.reqs[i].phase.InSink?
    requires S.CanRun(cfg.sink, u.sink, own) && forall n | 0 <= n < |own| :: own[n] == S.CallStep(i)
    ensures CanRun(cfg, t, more) && After(cfg, t, more) == v
    ensures v == u.(sink := S.After(cfg.sink, u.sink, own))
    decreases |own|
  {
    hide CanRun, After, S.Apply, S.CallNext, HandleEnabled, NextPhase;
    more, v := acts, u;
    if own != [] {
      assert own[0] == S.CallStep(i);
      more, v := Then(cfg, t, acts, u, SinkStep(own[0]));
      assert forall n | 0 <= n < |own[1..]| :: own[1..][n] == own[n + 1];
      more, v := CallRuns(cfg, t, more, v, own[1..], i);
    }
  }

  /** Before Shutdown, the call of a payload that marshals gets to an idle shard's queue from the start. */
  lemma {:induction false} CallQueues(cfg: S.Config, t: S.State, i: nat) returns (own: seq<S.Action>)
    requires SinkInvariant.Inv(cfg, t) && i < |t.calls| && t.calls[i].phase.Idle? && t.calls[i].marshals
    requires t.shutdown.NotCalled?
    requires var sh := t.shards[cfg.Route(t.calls[i].item.owner)]; sh.queue == [] && sh.bytes == 0
    ensures S.CanRun(cfg, t, own) && forall n | 0 <= n < |own| :: own[n] == S.CallStep(i)
    ensures S.After(cfg, t, own).calls[i].phase == S.Returned(S.Queued)
  {
    hide S.CanRun, S.After;
    hide SinkInvariant.LinkInv, SinkInvariant.ShardsInv, SinkInvariant.BytesInv, SinkInvariant.MetricsInv;
    var step := S.CallStep(i);
    var t1 := S.Apply(cfg, t, step);
    var t2 := S.Apply(cfg, t1, step);
    own := SinkIndependence.SoloCallQueues(cfg, t2, i);
    SinkIndependence.RunCons(cfg, t1, step, own);
    SinkIndependence.RunCons(cfg, t, step, [step] + own);
    own := [step] + ([step] + own);
  }

  /**
  A good request is accepted: before Shutdown, with a slot to be had and an idle shard for its instance, there is a run in
  which only the handler and the request's own call step, and the request ends with 202 and its payload queued.
  */
  lemma {:induction false} GoodRequestAccepted(cfg: Config, t: State, i: nat) returns (acts: seq<Action>, u: State)
    requires Reachable(cfg, t) && i < |t.reqs| && t.reqs[i].phase.NotArrived? && Good(t.reqs[i])
    requires cfg.cap == 0 || Sum(t.reqs, SlotHeld()) < cfg.cap
    requires t.sink.calls[i].marshals && t.sink.shutdown.NotCalled?
    requires var sh := t.sink.shards[cfg.sink.Route(t.sink.calls[i].item.owner)]; sh.queue == [] && sh.bytes == 0
    ensures CanRun(cfg, t, acts) && After(cfg, t, acts) == u
    ensures u.reqs[i].phase == Done(Accepted) && Status(Accepted) == Some(202)
    ensures u.sink.calls[i].phase == S.Returned(S.Queued)
  {
    hide CanRun, After, S.CanRun, S.After, Sum, Good, Inv, SinkInvariant.Inv;
    InvReachable(cfg, t);
    SinkReachable(cfg, t);
    SinkInvariant.InvReachable(cfg.sink, t.sink);
    StillIdle(cfg, t, i);
    acts, u := ReachesSink(cfg, t, i);
    var own := CallQueues(cfg.sink, u.sink, i);
    acts, u := CallRuns(cfg, t, acts, u, own, i);
    acts, u := Then(cfg, t, acts, u, Handle(i, Continue));
    acts, u := Then(cfg, t, acts, u, Handle(i, Continue));
  }

  lemma {:induction false} StillIdle(cfg: Config, t: State, i: nat)
    requires Inv(cfg, t) && i < |t.reqs| && t.reqs[i].phase.NotArrived?
    ensures t.sink.calls[i].phase.Idle?
  {
    hide SlotInv, TotalInv, CounterInv, CallMatches;
    assert RequestOk(cfg, t.reqs[i], t.sink.calls[i]);
  }
}
