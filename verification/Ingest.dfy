/**
The ingest handler (ingest/handler.go) as a state machine, composed with the forwarding sink.

Request i of the handler makes Accept call i of the sink. What the HTTP library and the protobuf decoder find in a
request is part of the request. The schedule and the ends of waits are the choice of the action.
*/
module Ingest {
  import opened GoStrings
  import opened ShardKey
  import opened Payload
  import opened Validation
  import opened Sums
  import S = Sink

  datatype Body = BodyRead | BodyTooLarge | BodyBroken

  /** The label `reason` of IngestRejected. */
  datatype Reason = ContentType | TooLarge | Read | Malformed | InvalidPayload | SinkError | Canceled | Busy

  datatype Outcome = Accepted | Rejected(reason: Reason)

  /** Counted: the outcome is counted and answered, the decode slot is not released yet. */
  datatype Phase =
    | NotArrived | Reading | WaitingForSlot | Decoding | Validating | InSink
    | Counted(outcome: Outcome)
    | Done(outcome: Outcome)

  /** What unmarshal and validate will find. */
  datatype Verdict = Undecodable | Unacceptable | Fine

  function Judge(decoded: Option<Message>): Verdict {
    if decoded.None? then Undecodable else if Validate(decoded.value).Some? then Unacceptable else Fine
  }

  /** `payload` is the metrics label of the kind, and `verdict` is what the handler makes of the decoded message. */
  datatype Request = Request(kind: Kind, payload: Bytes, contentTypeOk: bool, body: Body, decoded: Option<Message>,
                             verdict: Verdict, phase: Phase) {
    /** Between a successful acquire and its release. */
    predicate HasSlot() {
      phase.Decoding? || phase.Validating? || phase.InSink? || phase.Counted?
    }

    predicate Ended(o: Outcome) {
      phase == Counted(o) || phase == Done(o)
    }
  }

  /** One series of IngestAccepted or IngestRejected. */
  datatype Metric = Metric(payload: Bytes, outcome: Outcome)

  /** `cap` 0: decodes are not capped, and there is no semaphore. `namespace` None: that processor is off. */
  datatype Config = Config(cap: nat, namespace: Option<NamespaceConfig>, sink: S.Config)

  datatype State = State(reqs: seq<Request>, slots: nat, counters: multiset<Metric>, sink: S.State)

  datatype Wait = Continue | ContextEnds | TimesOut

  datatype Action = Handle(i: nat, wait: Wait) | SinkStep(a: S.Action)

  /** The wait for a slot ended without one. */
  predicate GaveUp(o: Outcome) {
    o == Rejected(Canceled) || o == Rejected(Busy)
  }

  /** The HTTP status of an outcome. A canceled request gets no answer. */
  function Status(o: Outcome): Option<nat> {
    match o
    case Accepted => Some(202)
    case Rejected(r) =>
      match r
      case ContentType => Some(415)
      case TooLarge => Some(413)
      case Read => Some(400)
      case Malformed => Some(400)
      case InvalidPayload => Some(400)
      case SinkError => Some(503)
      case Canceled => None
      case Busy => Some(503)
  }

  /** May request i step? acquire and release use the semaphore, and the sink's answer is waited for. */
  ghost predicate HandleEnabled(cfg: Config, s: State, i: nat, wait: Wait) {
    && i < |s.reqs| && i < |s.sink.calls|
    && if wait.Continue? then
         match s.reqs[i].phase
         case WaitingForSlot => cfg.cap == 0 || s.slots < cfg.cap
         case InSink => s.sink.calls[i].phase.Returned?
         case Counted(_) => cfg.cap == 0 || s.slots > 0
         case Done(_) => false
         case _ => true
       else s.reqs[i].phase.WaitingForSlot? && cfg.cap > 0
  }

  /** The next phase of a request, given the phase of its Accept call. */
  function NextPhase(r: Request, wait: Wait, call: S.CallPhase): Phase {
    match r.phase
    case NotArrived => Reading
    case Reading =>
      if !r.contentTypeOk then Done(Rejected(ContentType))
      else if r.body.BodyTooLarge? then Done(Rejected(TooLarge))
      else if r.body.BodyBroken? then Done(Rejected(Read))
      else WaitingForSlot
    case WaitingForSlot =>
      if wait.ContextEnds? then Done(Rejected(Canceled))
      else if wait.TimesOut? then Done(Rejected(Busy))
      else Decoding
    case Decoding => if r.verdict.Undecodable? then Counted(Rejected(Malformed)) else Validating
    case Validating => if r.verdict.Fine? then InSink else Counted(Rejected(InvalidPayload))
    case InSink => if call.Returned? && call.result.Failed? then Counted(Rejected(SinkError)) else Counted(Accepted)
    case Counted(o) => Done(o)
    case Done(_) => r.phase
  }

  /** The counter a step increments: the one of the outcome it decides on. */
  function Counts(r: Request, next: Phase): multiset<Metric> {
    if r.phase.Counted? || r.phase.Done? then multiset{}
    else if next.Counted? || next.Done? then multiset{Metric(r.payload, next.outcome)}
    else multiset{}
  }

  ghost predicate Sized(cfg: Config, s: State) {
    S.Sized(cfg.sink, s.sink) && |s.reqs| == |s.sink.calls|
  }

  /** A request hands its payload to the sink only once it is valid. */
  ghost predicate Enabled(cfg: Config, s: State, a: Action)
    requires Sized(cfg, s)
  {
    match a
    case Handle(i, wait) => HandleEnabled(cfg, s, i, wait)
    case SinkStep(b) =>
      && S.Enabled(cfg.sink, s.sink, b)
      && (b.CallStep? && s.sink.calls[b.i].phase.Idle? ==> s.reqs[b.i].phase.InSink?)
  }

  ghost function Apply(cfg: Config, s: State, a: Action): (t: State)
    requires Sized(cfg, s) && Enabled(cfg, s, a)
    ensures Sized(cfg, t) && |t.reqs| == |s.reqs|
  {
    match a
    case Handle(i, wait) =>
      var r := s.reqs[i];
      var r' := r.(phase := NextPhase(r, wait, s.sink.calls[i].phase));
      var slots := if cfg.cap == 0 then s.slots
                   else if !r.HasSlot() && r'.HasSlot() then s.slots + 1
                   else if r.HasSlot() && !r'.HasSlot() then s.slots - 1
                   else s.slots;
      s.(reqs := s.reqs[i := r'], slots := slots, counters := s.counters + Counts(r, r'.phase))
    case SinkStep(b) => s.(sink := S.Apply(cfg.sink, s.sink, b))
  }

  /** The payload of request i is what its Accept call marshals and queues, after the namespace stamp. */
  ghost predicate CallMatches(cfg: Config, r: Request, c: S.Call) {
    && r.payload == KindLabel(r.kind) && r.verdict == Judge(r.decoded)
    && c.item.path == PathOf(r.kind) && c.item.Labelled()
    && (r.decoded.Some? ==> c.item.owner == InstanceOf(StampMessage(cfg.namespace, r.decoded.value).resource))
  }

  ghost predicate Init(cfg: Config, s: State) {
    && S.Init(cfg.sink, s.sink)
    && |s.reqs| == |s.sink.calls|
    && (forall i | 0 <= i < |s.reqs| :: s.reqs[i].phase.NotArrived? && CallMatches(cfg, s.reqs[i], s.sink.calls[i]))
    && s.slots == 0 && s.counters == multiset{}
  }

  ghost predicate CanRun(cfg: Config, s: State, acts: seq<Action>)
    requires Sized(cfg, s)
    decreases |acts|
  {
    if acts == [] then true
    else Enabled(cfg, s, acts[0]) && CanRun(cfg, Apply(cfg, s, acts[0]), acts[1..])
  }

  ghost function After(cfg: Config, s: State, acts: seq<Action>): (t: State)
    requires Sized(cfg, s) && CanRun(cfg, s, acts)
    ensures Sized(cfg, t) && |t.reqs| == |s.reqs|
    decreases |acts|
  {
    if acts == [] then s else After(cfg, Apply(cfg, s, acts[0]), acts[1..])
  }

  ghost predicate Reachable(cfg: Config, t: State) {
    Sized(cfg, t) && exists s, acts :: Init(cfg, s) && CanRun(cfg, s, acts) && After(cfg, s, acts) == t
  }

  // ----- the sink inside -----

  ghost function SinkActs(acts: seq<Action>): seq<S.Action> {
    if acts == [] then []
    else (if acts[0].SinkStep? then [acts[0].a] else []) + SinkActs(acts[1..])
  }

  /** A run of the collector is, for its sink, a run of the sink. So everything proved of the sink holds here. */
  lemma {:induction false} SinkRuns(cfg: Config, s: State, acts: seq<Action>)
    requires Sized(cfg, s) && CanRun(cfg, s, acts)
    ensures S.CanRun(cfg.sink, s.sink, SinkActs(acts))
    ensures S.After(cfg.sink, s.sink, SinkActs(acts)) == After(cfg, s, acts).sink
    decreases |acts|
  {
    if acts != [] {
      var t := Apply(cfg, s, acts[0]);
      SinkRuns(cfg, t, acts[1..]);
      if acts[0].SinkStep? {
        assert SinkActs(acts)[1..] == SinkActs(acts[1..]);
      } else {
        assert SinkActs(acts) == SinkActs(acts[1..]);
      }
    }
  }

  lemma {:induction false} SinkReachable(cfg: Config, t: State)
    requires Reachable(cfg, t)
    ensures S.Reachable(cfg.sink, t.sink)
  {
    var s, acts :| Init(cfg, s) && CanRun(cfg, s, acts) && After(cfg, s, acts) == t;
    SinkRuns(cfg, s, acts);
  }

  // ----- what every step keeps -----

  ghost function SlotHeld(): Request -> int { (r: Request) => if r.HasSlot() then 1 else 0 }

  /** The semaphore counts the requests that hold a slot and never passes the cap. */
  ghost predicate SlotInv(cfg: Config, s: State) {
    cfg.cap > 0 ==> s.slots == Sum(s.reqs, SlotHeld()) && s.slots <= cfg.cap
  }

  lemma {:induction false} SlotInvKept(cfg: Config, s: State, a: Action)
    requires Sized(cfg, s) && Enabled(cfg, s, a) && SlotInv(cfg, s)
    ensures SlotInv(cfg, Apply(cfg, s, a))
  {
    if a.Handle? {
      SumUpdate(s.reqs, a.i, Apply(cfg, s, a).reqs[a.i], SlotHeld());
      SumNonNegative(s.reqs, SlotHeld());
      if s.reqs[a.i].HasSlot() {
        assert SlotHeld()(s.reqs[a.i]) == 1;
      }
    }
  }

  ghost function EndedAs(m: Metric): Request -> int {
    (r: Request) => EndedCount(m, r)
  }

  ghost function EndedCount(m: Metric, r: Request): int {
    if r.payload == m.payload && r.Ended(m.outcome) then 1 else 0
  }

  /** Each counter is the number of requests that ended so. */
  ghost predicate CounterInv(s: State, m: Metric) {
    s.counters[m] == Sum(s.reqs, EndedAs(m))
  }

  ghost function HasEnded(): Request -> int { (r: Request) => if r.phase.Counted? || r.phase.Done? then 1 else 0 }

  /** Counted once: the counters together hold one count per ended request. */
  ghost predicate TotalInv(s: State) {
    |s.counters| == Sum(s.reqs, HasEnded())
  }

  lemma {:induction false} TotalInvKept(cfg: Config, s: State, a: Action)
    requires Sized(cfg, s) && Enabled(cfg, s, a) && TotalInv(s)
    ensures TotalInv(Apply(cfg, s, a))
  {
    if a.Handle? {
      SumUpdate(s.reqs, a.i, Apply(cfg, s, a).reqs[a.i], HasEnded());
    }
  }

  lemma {:induction false} CounterInvKept(cfg: Config, s: State, a: Action, m: Metric)
    requires Sized(cfg, s) && Enabled(cfg, s, a) && CounterInv(s, m)
    ensures CounterInv(Apply(cfg, s, a), m)
  {
    if a.Handle? {
      var r, r' := s.reqs[a.i], Apply(cfg, s, a).reqs[a.i];
      SumUpdate(s.reqs, a.i, r', EndedAs(m));
      CountsDecision(r, r', m);
    }
  }

  lemma {:induction false} CountsDecision(r: Request, r': Request, m: Metric)
    requires exists wait, call :: r' == r.(phase := NextPhase(r, wait, call))
    ensures Counts(r, r'.phase)[m] == EndedCount(m, r') - EndedCount(m, r)
  {
  }

  /** Where a request stands determines what its Accept call may have done. */
  ghost predicate RequestOk(cfg: Config, r: Request, c: S.Call) {
    && CallMatches(cfg, r, c)
    && (r.phase.InSink? || r.Ended(Accepted) || r.Ended(Rejected(SinkError)) ==>
          r.contentTypeOk && r.body.BodyRead? && r.verdict.Fine?)
    && (r.phase.WaitingForSlot? || r.HasSlot() ==> r.contentTypeOk && r.body.BodyRead?)
    && (r.phase.Validating? ==> !r.verdict.Undecodable?)
    && (r.Ended(Accepted) ==> c.phase == S.Returned(S.Queued) || c.phase == S.Returned(S.MarshalDropped))
    && (r.Ended(Rejected(SinkError)) ==>
          c.phase == S.Returned(S.Failed(S.ShuttingDown)) || c.phase == S.Returned(S.Failed(S.QueueFull)))
    && (!r.phase.InSink? && !r.Ended(Accepted) && !r.Ended(Rejected(SinkError)) ==> c.phase.Idle?)
  }

  ghost predicate RequestsInv(cfg: Config, s: State)
    requires Sized(cfg, s)
  {
    forall i | 0 <= i < |s.reqs| :: RequestOk(cfg, s.reqs[i], s.sink.calls[i])
  }

  lemma {:induction false} RequestsInvKept(cfg: Config, s: State, a: Action)
    requires Sized(cfg, s) && Enabled(cfg, s, a) && RequestsInv(cfg, s)
    ensures RequestsInv(cfg, Apply(cfg, s, a))
  {
    hide RequestOk, NextPhase, S.Apply, S.Enabled;
    var t := Apply(cfg, s, a);
    forall i | 0 <= i < |t.reqs| ensures RequestOk(cfg, t.reqs[i], t.sink.calls[i]) {
      var r, c := s.reqs[i], s.sink.calls[i];
      assert RequestOk(cfg, r, c);
      match a
      case Handle(n, wait) =>
        if n == i {
          RequestOkKept(cfg, r, c, wait);
        }
      case SinkStep(b) =>
        CallFrame(cfg, s.sink, b, i);
        RequestOkUnderSink(cfg, r, c, t.sink.calls[i]);
    }
  }

  lemma {:induction false} RequestOkUnderSink(cfg: Config, r: Request, c: S.Call, c': S.Call)
    requires RequestOk(cfg, r, c) && c'.item == c.item && c'.marshals == c.marshals
    requires c.phase.Returned? || (c.phase.Idle? && !r.phase.InSink?) ==> c' == c
    ensures RequestOk(cfg, r, c')
  {
    hide CallMatches;
    CallMatchesFrame(cfg, r, c, r.phase, c'.phase);
    assert CallMatches(cfg, r, c.(phase := c'.phase));
  }

  /** The match does not depend on where the request and the call stand. */
  lemma {:induction false} CallMatchesFrame(cfg: Config, r: Request, c: S.Call, p: Phase, q: S.CallPhase)
    requires CallMatches(cfg, r, c)
    ensures CallMatches(cfg, r.(phase := p), c.(phase := q))
  {
    hide KindLabel, PathOf, Judge, StampMessage, S.Item.Labelled;
  }

  lemma {:induction false} RequestOkKept(cfg: Config, r: Request, c: S.Call, wait: Wait)
    requires RequestOk(cfg, r, c) && (r.phase.InSink? ==> c.phase.Returned?)
    ensures RequestOk(cfg, r.(phase := NextPhase(r, wait, c.phase)), c)
  {
    hide CallMatches;
    assert CallMatches(cfg, r.(phase := NextPhase(r, wait, c.phase)), c) by {
      CallMatchesFrame(cfg, r, c, NextPhase(r, wait, c.phase), c.phase);
    }
    if r.phase.InSink? && c.phase.result.Failed? {
      match c.phase.result.refusal case ShuttingDown => case QueueFull =>
    }
  }

  /** A sink step changes no item and at most one call's phase, never a returned one's. */
  lemma {:induction false} CallFrame(cfg: Config, s: S.State, b: S.Action, i: nat)
    requires S.Sized(cfg.sink, s) && S.Enabled(cfg.sink, s, b) && i < |s.calls|
    ensures var c, c' := s.calls[i], S.Apply(cfg.sink, s, b).calls[i];
            && c'.item == c.item && c'.marshals == c.marshals
            && (b != S.CallStep(i) || c.phase.Returned? ==> c' == c)
  {
  }

  ghost predicate Inv(cfg: Config, s: State) {
    && Sized(cfg, s) && SlotInv(cfg, s) && RequestsInv(cfg, s) && TotalInv(s)
    && (forall m: Metric :: CounterInv(s, m))
  }

  lemma {:induction false} InvInitially(cfg: Config, s: State)
    requires Init(cfg, s)
    ensures Inv(cfg, s)
  {
    SumAllZero(s.reqs, SlotHeld());
    SumAllZero(s.reqs, HasEnded());
    forall m: Metric ensures CounterInv(s, m) {
      SumAllZero(s.reqs, EndedAs(m));
    }
    forall i | 0 <= i < |s.reqs| ensures RequestOk(cfg, s.reqs[i], s.sink.calls[i]) {
      assert CallMatches(cfg, s.reqs[i], s.sink.calls[i]);
    }
  }

  lemma {:induction false} InvKept(cfg: Config, s: State, a: Action)
    requires Inv(cfg, s) && Enabled(cfg, s, a)
    ensures Inv(cfg, Apply(cfg, s, a))
  {
    hide Apply, SlotInv, RequestsInv, TotalInv, CounterInv;
    SlotInvKept(cfg, s, a);
    RequestsInvKept(cfg, s, a);
    TotalInvKept(cfg, s, a);
    forall m: Metric ensures CounterInv(Apply(cfg, s, a), m) {
      assert CounterInv(s, m);
      CounterInvKept(cfg, s, a, m);
    }
  }

  lemma {:induction false} InvAlongRun(cfg: Config, s: State, acts: seq<Action>)
    requires Inv(cfg, s) && CanRun(cfg, s, acts)
    ensures Inv(cfg, After(cfg, s, acts))
    decreases |acts|
  {
    if acts != [] {
      InvKept(cfg, s, acts[0]);
      InvAlongRun(cfg, Apply(cfg, s, acts[0]), acts[1..]);
    }
  }

  lemma {:induction false} InvReachable(cfg: Config, t: State)
    requires Reachable(cfg, t)
    ensures Inv(cfg, t)
  {
    var s, acts :| Init(cfg, s) && CanRun(cfg, s, acts) && After(cfg, s, acts) == t;
    InvInitially(cfg, s);
    InvAlongRun(cfg, s, acts);
  }
}
