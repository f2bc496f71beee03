/** The instance a payload came from and the key its payloads are routed on (internal/forward/forward.go). */
module ShardKey {
  import opened GoStrings
  import opened Utf8

  /** The resource attributes the collector reads. */
  datatype Resource = Resource(serviceNamespace: Bytes, serviceName: Bytes, instanceId: Bytes, runId: Bytes)

  datatype Instance = Instance(namespace: Bytes, service: Bytes, id: Bytes)

  /** instanceOf: a missing resource gives the zero instance. */
  function InstanceOf(res: Option<Resource>): Instance {
    match res
    case None => Instance("", "", "")
    case Some(r) => Instance(TrimSpace(r.serviceNamespace), TrimSpace(r.serviceName), r.instanceId)
  }

  /** One part of a key: its byte length, a colon, the part itself. */
  function Prefixed(part: Bytes): Bytes {
    Decimal(|part|) + ":" + part
  }

  function KeyOf(i: Instance): Bytes {
    Prefixed(i.namespace) + Prefixed(i.service) + Prefixed(i.id)
  }

  /** shardKey: writes the three parts into a builder one after another. */
  method BuildKey(i: Instance) returns (key: Bytes)
    ensures key == KeyOf(i)
    ensures Decode(key) == Some(i)
  {
    var parts := [i.namespace, i.service, i.id];
    key := "";
    for n := 0 to |parts|
      invariant n == 1 ==> key == Prefixed(i.namespace)
      invariant n == 2 ==> key == Prefixed(i.namespace) + Prefixed(i.service)
      invariant n == 3 ==> key == KeyOf(i)
      invariant n == 0 ==> key == ""
    {
      key := key + Decimal(|parts[n]|);
      key := key + ":";
      key := key + parts[n];
    }
    DecodeUndoesKey(i);
  }

  /** Reads one length-prefixed part off the front of a key. A length with superfluous zeros is malformed. */
  function TakePart(s: Bytes): (r: Option<(Bytes, Bytes)>) {
    var d := DigitRun(s);
    var n := DigitsValue(s[..d]);
    if d < |s| && s[d] == ':' && Decimal(n) == s[..d] && d + 1 + n <= |s|
    then Some((s[d + 1..d + 1 + n], s[d + 1 + n..]))
    else None
  }

  function Decode(key: Bytes): Option<Instance> {
    match TakePart(key)
    case None => None
    case Some((ns, r1)) =>
      match TakePart(r1)
      case None => None
      case Some((service, r2)) =>
        match TakePart(r2)
        case None => None
        case Some((id, r3)) => if r3 == [] then Some(Instance(ns, service, id)) else None
  }

  /** Reading a part back, whatever follows it and whatever bytes it holds. */
  lemma {:induction false} TakePartUndoesPrefixed(part: Bytes, rest: Bytes)
    ensures TakePart(Prefixed(part) + rest) == Some((part, rest))
  {
    var n := |part|;
    var s := Prefixed(part) + rest;
    assert s == Decimal(n) + (":" + part + rest);
    DecimalDelimited(n, ":" + part + rest);
    var d := |Decimal(n)|;
    assert s[..d] == Decimal(n);
    DecimalRoundTrip(n);
    assert s[d + 1..d + 1 + n] == part;
    assert s[d + 1 + n..] == rest;
  }

  /** What TakePart reads is a part with its prefix: no key is read in more than one way. */
  lemma {:induction false} TakePartOnlyPrefixed(s: Bytes)
    requires TakePart(s).Some?
    ensures s == Prefixed(TakePart(s).value.0) + TakePart(s).value.1
  {
    var d := DigitRun(s);
    var n := DigitsValue(s[..d]);
    assert s == s[..d] + ":" + s[d + 1..d + 1 + n] + s[d + 1 + n..];
  }

  lemma {:induction false} DecodeUndoesKey(i: Instance)
    ensures Decode(KeyOf(i)) == Some(i)
  {
    var r2 := Prefixed(i.id);
    var r1 := Prefixed(i.service) + r2;
    assert KeyOf(i) == Prefixed(i.namespace) + r1;
    TakePartUndoesPrefixed(i.namespace, r1);
    TakePartUndoesPrefixed(i.service, r2);
    assert r2 == Prefixed(i.id) + [];
    TakePartUndoesPrefixed(i.id, []);
  }

  /** Each key decodes one way only, and only keys decode. */
  lemma {:induction false} DecodeIffKey(key: Bytes, i: Instance)
    ensures Decode(key) == Some(i) <==> key == KeyOf(i)
  {
    DecodeUndoesKey(i);
    if Decode(key) == Some(i) {
      OnlyKeysDecode(key);
    }
  }

  lemma {:induction false} OnlyKeysDecode(key: Bytes)
    requires Decode(key).Some?
    ensures key == KeyOf(Decode(key).value)
  {
    var (ns, r1) := TakePart(key).value;
    var (service, r2) := TakePart(r1).value;
    var (id, r3) := TakePart(r2).value;
    assert key == Prefixed(ns) + r1 by { TakePartOnlyPrefixed(key); }
    assert r1 == Prefixed(service) + r2 by { TakePartOnlyPrefixed(r1); }
    assert r2 == Prefixed(id) + r3 by { TakePartOnlyPrefixed(r2); }
    assert r2 == Prefixed(id);
  }

  /** Distinct instances never share a key. */
  lemma {:induction false} KeyInjective(i: Instance, j: Instance)
    ensures KeyOf(i) == KeyOf(j) <==> i == j
  {
    DecodeUndoesKey(i);
    DecodeUndoesKey(j);
  }

  /**
  Two resources get one key exactly when they name one service instance: their trimmed namespaces and names and
  their instance IDs agree. The run ID and the surrounding space play no part. A missing resource counts as an empty one.
  */
  lemma {:induction false} KeyOfResource(r: Resource, q: Resource)
    ensures KeyOf(InstanceOf(Some(r))) == KeyOf(InstanceOf(Some(q))) <==>
            TrimSpace(r.serviceNamespace) == TrimSpace(q.serviceNamespace)
            && TrimSpace(r.serviceName) == TrimSpace(q.serviceName)
            && r.instanceId == q.instanceId
    ensures forall run :: KeyOf(InstanceOf(Some(r.(runId := run)))) == KeyOf(InstanceOf(Some(r)))
    ensures KeyOf(InstanceOf(None)) == KeyOf(InstanceOf(Some(Resource([], [], [], r.runId))))
  {
    hide TrimSpace;
    NoSpaceInNothing();
    BlankIff([]);
    KeyInjective(InstanceOf(Some(r)), InstanceOf(Some(q)));
  }

  /** White space around the names, and whatever run the payload is from, leave the key as it is. */
  lemma {:induction false} KeyIgnoresSpace(r: Resource, a: Bytes, b: Bytes, c: Bytes, d: Bytes, run: Bytes)
    requires White(a) && White(b) && White(c) && White(d)
    ensures KeyOf(InstanceOf(Some(Resource(a + r.serviceNamespace + b, c + r.serviceName + d, r.instanceId, run)))) ==
            KeyOf(InstanceOf(Some(r)))
  {
    hide TrimSpace, White, KeyOf;
    TrimSpaceIgnores(a, r.serviceNamespace, b);
    TrimSpaceIgnores(c, r.serviceName, d);
  }
}
