/** What the collector promises its agents and its operators, from the request to the settled payload. */
module EndToEnd {
  import opened GoStrings
  import opened ShardKey
  import opened Payload
  import opened Validation
  import opened Utf8
  import opened Sums
  import opened Ingest
  import S = Sink
  import SinkShard
  import SinkInvariant
  import SinkTheorems

  /**
  In every interleaving at most `cap` requests are between acquire and release, release never waits, acquire succeeds
  exactly when fewer than `cap` are there, and a waiting request can always give up.
  */
  lemma {:induction false} DecodeCap(cfg: Config, t: State, i: nat)
    requires Reachable(cfg, t) && cfg.cap > 0 && i < |t.reqs|
    ensures Sum(t.reqs, SlotHeld()) <= cfg.cap
    ensures t.reqs[i].phase.Counted? ==> HandleEnabled(cfg, t, i, Continue)
    ensures t.reqs[i].phase.WaitingForSlot? ==>
              && (HandleEnabled(cfg, t, i, Continue) <==> Sum(t.reqs, SlotHeld()) < cfg.cap)
              && HandleEnabled(cfg, t, i, ContextEnds) && HandleEnabled(cfg, t, i, TimesOut)
  {
    InvReachable(cfg, t);
    SumNonNegative(t.reqs, SlotHeld());
    if t.reqs[i].phase.Counted? {
      assert SlotHeld()(t.reqs[i]) == 1;
    }
  }

  /**
  Every ended request is counted once, under its own label and outcome: the counters hold as many counts as requests
  ended, and each series as many as ended that way.
  */
  lemma {:induction false} RequestsCountedOnce(cfg: Config, t: State, m: Metric)
    requires Reachable(cfg, t)
    ensures t.counters[m] == Sum(t.reqs, EndedAs(m))
    ensures |t.counters| == Sum(t.reqs, HasEnded())
  {
    InvReachable(cfg, t);
    assert CounterInv(t, m);
  }

  /**
  The sink only ever sees payloads that pass the handler's validation, before the namespace stamp and after it, and
  routes them by the stamped resource.
  */
  lemma {:induction false} SinkSeesValidPayloads(cfg: Config, t: State, i: nat)
    requires Reachable(cfg, t) && i < |t.reqs|
    requires cfg.namespace.Some? ==> Allowed(cfg.namespace.value)
    requires !t.sink.calls[i].phase.Idle?
    ensures var r := t.reqs[i];
            && r.decoded.Some? && Validate(r.decoded.value).None?
            && Validate(StampMessage(cfg.namespace, r.decoded.value)).None?
            && t.sink.calls[i].item.owner == InstanceOf(StampMessage(cfg.namespace, r.decoded.value).resource)
  {
    InvReachable(cfg, t);
    hide Validate, StampMessage, KindLabel, PathOf;
    assert RequestOk(cfg, t.reqs[i], t.sink.calls[i]);
    if cfg.namespace.Some? {
      StampKeepsValid(cfg.namespace.value, t.reqs[i].decoded.value);
    }
  }

  /**
  The instance a payload is routed by, said by the resource its agent sent: its ID, its name without surrounding space,
  and the collector's namespace if it upserts one, or inserts one where the agent named none, and otherwise the agent's.
  */
  lemma {:induction false} RoutedAs(cfg: Config, t: State, i: nat, a: Bytes, name: Bytes, b: Bytes)
    requires Reachable(cfg, t) && i < |t.reqs| && t.reqs[i].decoded.Some? && t.reqs[i].decoded.value.resource.Some?
    requires cfg.namespace.Some? ==> Allowed(cfg.namespace.value)
    requires t.reqs[i].decoded.value.resource.value.serviceName == a + name + b && White(a) && White(b) && Trimmed(name)
    ensures var sent, owner := t.reqs[i].decoded.value.resource.value, t.sink.calls[i].item.owner;
            var ns := cfg.namespace;
            && owner.service == name && owner.id == sent.instanceId
            && (ns.Some? && (ns.value.action.Upsert? || White(sent.serviceNamespace)) ==>
                  owner.namespace == ns.value.value)
            && (ns.None? || (ns.value.action.Insert? && !White(sent.serviceNamespace)) ==>
                  Padded(sent.serviceNamespace, owner.namespace))
  {
    hide White, TrimSpace, Trimmed, Padded, ValidUtf8;
    CallOfRequest(cfg, t, i);
    var sent := t.reqs[i].decoded.value.resource.value;
    TrimSpacePadded(a, name, b);
    BlankIff(sent.serviceNamespace);
    TrimSpaceIff(sent.serviceNamespace, TrimSpace(sent.serviceNamespace));
  }

  ghost predicate Quiet(t: State) {
    && t.sink.shutdown.ShutDown?
    && forall i | 0 <= i < |t.reqs| :: t.reqs[i].phase.Done? || t.reqs[i].phase.NotArrived?
  }

  ghost function AnsweredAs(l: Bytes, status: nat, o: Outcome): Request -> int {
    (r: Request) => Answered(l, status, o, r)
  }

  ghost function Answered(l: Bytes, status: nat, o: Outcome, r: Request): int {
    if r.payload == l && r.phase == Done(o) && Status(o) == Some(status) then 1 else 0
  }

  /**
  Once all requests have ended and Shutdown has returned, under each label: the requests answered 202 are the payloads
  delivered plus the payloads dropped over all reasons, and the requests rejected as `sink` are the forwarder's
  refusals. The handler's own counters agree.
  */
  lemma {:induction false} Accounting(cfg: Config, t: State, l: Bytes)
    requires Reachable(cfg, t) && Quiet(t)
    ensures Sum(t.reqs, AnsweredAs(l, 202, Accepted)) == SinkTheorems.Handled(SinkTheorems.Counter(t.sink), l)
    ensures Sum(t.reqs, AnsweredAs(l, 503, Rejected(SinkError))) ==
            t.sink.metrics[S.Refused(l, S.ShuttingDown)] + t.sink.metrics[S.Refused(l, S.QueueFull)]
    ensures t.counters[Metric(l, Accepted)] == Sum(t.reqs, AnsweredAs(l, 202, Accepted))
    ensures t.counters[Metric(l, Rejected(SinkError))] == Sum(t.reqs, AnsweredAs(l, 503, Rejected(SinkError)))
  {
    hide Inv, AnsweredAs, SinkTheorems.Handled, S.Reachable, Reachable, Sum;
    InvReachable(cfg, t);
    AnswersMatchResults(cfg, t, l);
    AnswersCounted(cfg, t, l, 202, Accepted);
    AnswersCounted(cfg, t, l, 503, Rejected(SinkError));
    SinkReachable(cfg, t);
    ResultsCounted(cfg.sink, t.sink, l);
  }

  lemma {:induction false} AnswersCounted(cfg: Config, t: State, l: Bytes, status: nat, o: Outcome)
    requires Inv(cfg, t) && Quiet(t) && Status(o) == Some(status)
    ensures t.counters[Metric(l, o)] == Sum(t.reqs, AnsweredAs(l, status, o))
  {
    hide SlotInv, TotalInv, RequestsInv, CounterInv, AnsweredAs, Sum;
    assert CounterInv(t, Metric(l, o));
    AnswersMatchCounters(t, l, status, o);
  }

  /** Once Shutdown has returned, the results of the Accept calls are in the forwarder's counters. */
  lemma {:induction false} ResultsCounted(cfg: S.Config, t: S.State, l: Bytes)
    requires S.Reachable(cfg, t) && t.shutdown.ShutDown?
    ensures Sum(t.calls, SinkTheorems.NilAs(l)) == SinkTheorems.Handled(SinkTheorems.Counter(t), l)
    ensures Sum(t.calls, SinkTheorems.FailedAs(l)) ==
            t.metrics[S.Refused(l, S.ShuttingDown)] + t.metrics[S.Refused(l, S.QueueFull)]
  {
    hide SinkTheorems.Handled;
    SinkTheorems.RefusedCounted(cfg, t, l);
    forall k | 0 <= k < |t.shards| ensures t.shards[k].accepted == SinkShard.SettledItems(t.shards[k].log) {
      SinkTheorems.ShutdownSettlesEverything(cfg, t, k);
    }
    SinkTheorems.NilCounted(cfg, t, l);
  }

  /** The answer to a request is the result of its Accept call. */
  lemma {:induction false} AnswerMatchesResult(cfg: Config, r: Request, c: S.Call, l: Bytes)
    requires RequestOk(cfg, r, c) && (r.phase.Done? || r.phase.NotArrived?)
    ensures Answered(l, 202, Accepted, r) == SinkTheorems.IsNil(l, c)
    ensures Answered(l, 503, Rejected(SinkError), r) == SinkTheorems.IsFailed(l, c)
  {
    hide CallMatches;
    OneLabel(cfg, r, c);
  }

  lemma {:induction false} OneLabel(cfg: Config, r: Request, c: S.Call)
    requires CallMatches(cfg, r, c)
    ensures r.payload == c.item.payload
  {
    hide KindLabel, PayloadLabel, PathOf, Judge, StampMessage;
    LabelsAgree(r.kind);
  }

  lemma {:induction false} AnswersMatchResults(cfg: Config, t: State, l: Bytes)
    requires Inv(cfg, t) && Quiet(t)
    ensures Sum(t.reqs, AnsweredAs(l, 202, Accepted)) == Sum(t.sink.calls, SinkTheorems.NilAs(l))
    ensures Sum(t.reqs, AnsweredAs(l, 503, Rejected(SinkError))) == Sum(t.sink.calls, SinkTheorems.FailedAs(l))
  {
    hide RequestOk, Answered;
    forall i | 0 <= i < |t.reqs|
      ensures AnsweredAs(l, 202, Accepted)(t.reqs[i]) == SinkTheorems.NilAs(l)(t.sink.calls[i])
      ensures AnsweredAs(l, 503, Rejected(SinkError))(t.reqs[i]) == SinkTheorems.FailedAs(l)(t.sink.calls[i])
    {
      AnswerMatchesResult(cfg, t.reqs[i], t.sink.calls[i], l);
    }
    SumSame(t.reqs, AnsweredAs(l, 202, Accepted), t.sink.calls, SinkTheorems.NilAs(l));
    SumSame(t.reqs, AnsweredAs(l, 503, Rejected(SinkError)), t.sink.calls, SinkTheorems.FailedAs(l));
  }

  /** Once a request has released its slot, being answered is being counted. */
  lemma {:induction false} AnswersMatchCounters(t: State, l: Bytes, status: nat, o: Outcome)
    requires Quiet(t) && CounterInv(t, Metric(l, o)) && Status(o) == Some(status)
    ensures t.counters[Metric(l, o)] == Sum(t.reqs, AnsweredAs(l, status, o))
  {
    forall i | 0 <= i < |t.reqs| ensures AnsweredAs(l, status, o)(t.reqs[i]) == EndedAs(Metric(l, o))(t.reqs[i]) {
      assert t.reqs[i].phase.Done? || t.reqs[i].phase.NotArrived?;
    }
    SumSame(t.reqs, AnsweredAs(l, status, o), t.reqs, EndedAs(Metric(l, o)));
  }

  /**
  An agent that waits for its 202: if request x was answered so, and its payload was not dropped in marshaling, before
  request y arrived, and both payloads are stamped as one service instance's, then everything that ever happens to x's
  payload happens before anything happens to y's.
  */
  lemma {:induction false} AnsweredFirstHandledFirst(cfg: Config, t: State, more: seq<Action>, x: nat, y: nat)
    returns (k: nat, a: nat, b: nat)
    requires Reachable(cfg, t) && CanRun(cfg, t, more) && x < |t.reqs| && y < |t.reqs|
    requires t.reqs[x].phase == Done(Accepted) && t.sink.calls[x].Settled(S.Queued) && t.reqs[y].phase.NotArrived?
    requires t.reqs[x].decoded.Some? && t.reqs[y].decoded.Some?
    requires InstanceOf(StampMessage(cfg.namespace, t.reqs[x].decoded.value).resource) ==
             InstanceOf(StampMessage(cfg.namespace, t.reqs[y].decoded.value).resource)
    requires After(cfg, t, more).sink.calls[y].Settled(S.Queued)
    ensures k < cfg.sink.shards
    ensures var sh := After(cfg, t, more).sink.shards[k];
            && a < b < |sh.accepted| && sh.accepted[a].call == x && sh.accepted[b].call == y
            && SinkTheorems.Before(sh, a, b)
  {
    hide SinkTheorems.Before, StampMessage, InstanceOf, CanRun, After, S.CanRun, S.After, SinkActs;
    SinkReachable(cfg, t);
    SinkRuns(cfg, t, more);
    CallOfRequest(cfg, t, x);
    CallOfRequest(cfg, t, y);
    k := cfg.sink.Route(t.sink.calls[x].item.owner);
    a, b := SinkTheorems.QueuedFirstHandledFirst(cfg.sink, t.sink, SinkActs(more), x, y);
  }

  /** Request i makes call i, for the instance its stamped resource names, and has made none before it arrived. */
  lemma {:induction false} CallOfRequest(cfg: Config, t: State, i: nat)
    requires Reachable(cfg, t) && i < |t.reqs|
    ensures t.sink.calls[i].item.call == i
    ensures t.reqs[i].phase.NotArrived? ==> t.sink.calls[i].phase.Idle?
    ensures t.reqs[i].decoded.Some? ==>
              t.sink.calls[i].item.owner == InstanceOf(StampMessage(cfg.namespace, t.reqs[i].decoded.value).resource)
  {
    hide StampMessage, InstanceOf, Judge, KindLabel, PathOf, SlotInv, TotalInv, CounterInv;
    InvReachable(cfg, t);
    assert RequestOk(cfg, t.reqs[i], t.sink.calls[i]);
    SinkReachable(cfg, t);
    SinkInvariant.InvReachable(cfg.sink, t.sink);
  }

  /** A payload whose request was not answered 202 was never taken, attempted or settled by any worker. */
  lemma {:induction false} RefusedNeverAttempted(cfg: Config, t: State, i: nat, k: nat, j: nat)
    requires Reachable(cfg, t) && i < |t.reqs|
    requires t.reqs[i].phase.Done? && Status(t.reqs[i].phase.outcome) != Some(202)
    requires k < cfg.sink.shards && j < |t.sink.shards[k].log|
    ensures t.sink.shards[k].log[j].item.call != i
  {
    hide CallMatches;
    InvReachable(cfg, t);
    assert RequestOk(cfg, t.reqs[i], t.sink.calls[i]);
    SinkReachable(cfg, t);
    SinkTheorems.RefusedNeverTouched(cfg.sink, t.sink, i, k, j);
  }
}
