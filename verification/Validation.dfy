/** What the ingest handler accepts (ingest/handler.go) and how the namespace processor stamps it
    (internal/processor/namespace.go). */
module Validation {
  import opened GoStrings
  import opened ShardKey
  import opened Utf8

  /** The parts of a decoded payload that validation reads. */
  datatype Message =
    | DeltaBatch(resource: Option<Resource>)
    | ProbeManifest(resource: Option<Resource>)
    | StaticBaselineChunk(resource: Option<Resource>, scannedAt: int, chunkCount: int, chunkIndex: int)

  datatype Problem =
    | MissingResource | EmptyName | DotName | DotNamespace | EmptyInstance | EmptyRun
    | NotScanned | NoChunks | NegativeChunk | ChunkOutOfRange

  predicate IsDotSegment(v: Bytes) { v == "." || v == ".." }

  /** validateResource: the first problem found, or None. */
  function ValidateResource(res: Option<Resource>): Option<Problem> {
    match res
    case None => Some(MissingResource)
    case Some(r) =>
      var name := TrimSpace(r.serviceName);
      if name == "" then Some(EmptyName)
      else if IsDotSegment(name) then Some(DotName)
      else if IsDotSegment(TrimSpace(r.serviceNamespace)) then Some(DotNamespace)
      else if r.instanceId == "" then Some(EmptyInstance)
      else if r.runId == "" then Some(EmptyRun)
      else None
  }

  /** validateDeltaBatch, validateManifest and validateStaticBaseline. */
  function Validate(m: Message): Option<Problem> {
    match ValidateResource(m.resource)
    case Some(p) => Some(p)
    case None =>
      if !m.StaticBaselineChunk? then None
      else if m.scannedAt <= 0 then Some(NotScanned)
      else if m.chunkCount < 1 then Some(NoChunks)
      else if m.chunkIndex < 0 then Some(NegativeChunk)
      else if m.chunkIndex >= m.chunkCount then Some(ChunkOutOfRange)
      else None
  }

  /** What is accepted, said at once and without an order of checks. */
  ghost predicate Acceptable(m: Message) {
    && m.resource.Some?
    && var r := m.resource.value;
    && !White(r.serviceName) && !Padded(r.serviceName, ".") && !Padded(r.serviceName, "..")
    && !Padded(r.serviceNamespace, ".") && !Padded(r.serviceNamespace, "..")
    && r.instanceId != "" && r.runId != ""
    && (m.StaticBaselineChunk? ==> 0 < m.scannedAt && 0 <= m.chunkIndex < m.chunkCount)
  }

  /** The handler accepts exactly the acceptable payloads. */
  lemma {:induction false} ValidIff(m: Message)
    ensures Validate(m).None? <==> Acceptable(m)
  {
    hide TrimSpace, White, Padded;
    if m.resource.Some? {
      var r := m.resource.value;
      BlankIff(r.serviceName);
      TrimSpaceIff(r.serviceName, ".");
      TrimSpaceIff(r.serviceName, "..");
      TrimSpaceIff(r.serviceNamespace, ".");
      TrimSpaceIff(r.serviceNamespace, "..");
    }
  }

  // ----- the namespace processor -----

  datatype StampAction = Insert | Upsert
  datatype NamespaceConfig = NamespaceConfig(value: Bytes, action: StampAction)

  datatype Resolved = Off | On(cfg: NamespaceConfig) | Invalid

  /** resolveNamespace in cmd/otherlode-collector/main.go. `action` is None when the setting is empty. */
  function Resolve(valueRaw: Bytes, action: Option<StampAction>): Resolved {
    var value := TrimSpace(valueRaw);
    if !ValidUtf8(value) then Invalid
    else if value == "" then (if action.Some? then Invalid else Off)
    else if IsDotSegment(value) then Invalid
    else On(NamespaceConfig(value, if action.Some? then action.value else Insert))
  }

  /** A trimmed value that is valid UTF-8, not empty and no dot segment. */
  ghost predicate Allowed(cfg: NamespaceConfig) {
    TrimSpace(cfg.value) == cfg.value && ValidUtf8(cfg.value) && |cfg.value| > 0 && !IsDotSegment(cfg.value)
  }

  /** These are exactly the configurations the collector can be started with. */
  lemma {:induction false} AllowedIff(cfg: NamespaceConfig)
    ensures Allowed(cfg) <==> exists raw, action :: Resolve(raw, action) == On(cfg)
  {
    hide TrimSpace, ValidUtf8;
    if Allowed(cfg) {
      assert Resolve(cfg.value, Some(cfg.action)) == On(cfg);
    }
    if raw, action :| Resolve(raw, action) == On(cfg) {
      TrimSpaceIdempotent(raw);
    }
  }

  /**
  Every raw setting: white space only turns the processor off, unless an action is set; white space around a value is
  taken off; without an action the processor inserts.
  */
  lemma {:induction false} ResolveMeans(a: Bytes, value: Bytes, b: Bytes, action: Option<StampAction>)
    requires White(a) && White(b) && Trimmed(value)
    ensures value == [] && action.None? ==> Resolve(a + value + b, action) == Off
    ensures value == [] && action.Some? ==> Resolve(a + value + b, action) == Invalid
    ensures value != [] ==>
              (Resolve(a + value + b, action) == Invalid <==> value == "." || value == ".." || !IsText(value))
    ensures value != [] && value != "." && value != ".." && IsText(value) ==>
              Resolve(a + value + b, action) ==
              On(NamespaceConfig(value, if action == Some(Upsert) then Upsert else Insert))
  {
    hide TrimSpace, White, ValidUtf8, IsText, Trimmed;
    TrimSpacePadded(a, value, b);
    ValidUtf8Iff(value);
    NothingIsText();
    assert action.Some? ==> action.value.Insert? || action.value.Upsert?;
  }

  lemma {:induction false} NothingIsText()
    ensures ValidUtf8([])
  {
  }

  /** The namespace a resource carries after the stamp. */
  function StampedNamespace(cfg: NamespaceConfig, namespace: Bytes): Bytes {
    var agent, collector := TrimSpace(namespace), TrimSpace(cfg.value);
    if agent == "" || (agent != collector && cfg.action.Upsert?) then collector else namespace
  }

  function Stamped(cfg: NamespaceConfig, r: Resource): Resource {
    r.(serviceNamespace := StampedNamespace(cfg, r.serviceNamespace))
  }

  function StampMessage(cfg: Option<NamespaceConfig>, m: Message): Message {
    if cfg.Some? && m.resource.Some? then m.(resource := Some(Stamped(cfg.value, m.resource.value))) else m
  }

  /** A decoded resource message, which the processor overwrites in place. */
  class ResourceMessage {
    var serviceNamespace: Bytes
    const serviceName: Bytes
    const instanceId: Bytes
    const runId: Bytes

    constructor (r: Resource)
      ensures Value() == r
    {
      serviceNamespace, serviceName, instanceId, runId := r.serviceNamespace, r.serviceName, r.instanceId, r.runId;
    }

    function Value(): Resource
      reads this
    {
      Resource(serviceNamespace, serviceName, instanceId, runId)
    }
  }

  class Namespace {
    const cfg: NamespaceConfig
    var mismatches: nat

    constructor (cfg: NamespaceConfig)
      ensures this.cfg == cfg && mismatches == 0
    {
      this.cfg := cfg;
      mismatches := 0;
    }

    /** stamp. A missing resource is left alone. */
    method Stamp(res: ResourceMessage?)
      modifies this, res
      ensures res == null ==> mismatches == old(mismatches)
      ensures res != null ==> res.Value() == Stamped(cfg, old(res.Value()))
      ensures res != null ==>
                mismatches == old(mismatches) +
                  if White(old(res.serviceNamespace)) || Padded(old(res.serviceNamespace), TrimSpace(cfg.value)) then 0
                  else 1
    {
      hide TrimSpace, White, Padded;
      if res == null {
        return;
      }
      BlankIff(res.serviceNamespace);
      TrimSpaceIff(res.serviceNamespace, TrimSpace(cfg.value));
      var agent := TrimSpace(res.serviceNamespace);
      var collector := TrimSpace(cfg.value);
      if agent == "" {
        res.serviceNamespace := collector;
        return;
      }
      if agent == collector {
        return;
      }
      mismatches := mismatches + 1;
      if cfg.action == Upsert {
        res.serviceNamespace := collector;
      }
    }
  }

  /** Any payload the handler accepts still passes the same validation after the stamp. */
  lemma {:induction false} StampKeepsValid(cfg: NamespaceConfig, m: Message)
    requires Allowed(cfg) && Validate(m).None?
    ensures Validate(StampMessage(Some(cfg), m)).None?
  {
    hide TrimSpace, ValidUtf8;
  }

  /** And a namespace that can be encoded for forwarding stays one. */
  lemma {:induction false} StampKeepsUtf8(cfg: NamespaceConfig, r: Resource)
    requires Allowed(cfg) && ValidUtf8(r.serviceNamespace)
    ensures ValidUtf8(Stamped(cfg, r).serviceNamespace)
  {
    hide TrimSpace, ValidUtf8;
  }

  /** Stamping a payload twice is stamping it once, and the second time nothing differs under Upsert. */
  lemma {:induction false} StampIdempotent(cfg: NamespaceConfig, r: Resource)
    ensures Stamped(cfg, Stamped(cfg, r)) == Stamped(cfg, r)
    ensures cfg.action.Upsert? ==> TrimSpace(Stamped(cfg, r).serviceNamespace) == TrimSpace(cfg.value)
  {
    hide TrimSpace;
    TrimSpaceIdempotent(cfg.value);
  }

  /**
  Under Upsert the trimmed namespace is the collector's whatever the agents sent, so payloads share a shard key exactly
  when they name one service and one instance. Under Insert a payload keeps the namespace its agent named, if any.
  */
  lemma {:induction false} StampedKeys(cfg: NamespaceConfig, r: Resource, q: Resource)
    ensures cfg.action.Upsert? ==> InstanceOf(Some(Stamped(cfg, r))).namespace == TrimSpace(cfg.value)
    ensures cfg.action.Upsert? ==>
              (KeyOf(InstanceOf(Some(Stamped(cfg, r)))) == KeyOf(InstanceOf(Some(Stamped(cfg, q)))) <==>
               TrimSpace(r.serviceName) == TrimSpace(q.serviceName) && r.instanceId == q.instanceId)
    ensures cfg.action.Insert? && TrimSpace(r.serviceNamespace) != "" ==> Stamped(cfg, r) == r
    ensures TrimSpace(r.serviceNamespace) == TrimSpace(cfg.value) != "" ==> Stamped(cfg, r) == r
    ensures TrimSpace(r.serviceNamespace) == "" ==>
              InstanceOf(Some(Stamped(cfg, r))).namespace == TrimSpace(cfg.value)
  {
    hide TrimSpace;
    TrimSpaceIdempotent(cfg.value);
    KeyInjective(InstanceOf(Some(Stamped(cfg, r))), InstanceOf(Some(Stamped(cfg, q))));
  }
}
