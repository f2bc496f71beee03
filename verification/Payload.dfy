/** The three payload kinds: their ingest paths and metrics labels (ingest/handler.go). */
module Payload {
  import opened GoStrings

  datatype Kind = Deltas | Manifest | StaticBaseline

  const DELTA_BATCH_PATH: Bytes := "/v1/otherlode/deltas"
  const MANIFEST_PATH: Bytes := "/v1/otherlode/manifest"
  const STATIC_BASELINE_PATH: Bytes := "/v1/otherlode/static-baseline"

  function PathOf(k: Kind): Bytes {
    match k
    case Deltas => DELTA_BATCH_PATH
    case Manifest => MANIFEST_PATH
    case StaticBaseline => STATIC_BASELINE_PATH
  }

  /** payloadKind.label: what the ingest handler counts a request of this kind under. */
  function KindLabel(k: Kind): Bytes {
    match k
    case Deltas => "deltas"
    case Manifest => "manifest"
    case StaticBaseline => "static_baseline"
  }

  /** PayloadLabel: what the forwarder counts an item under. It only knows the item's path. */
  function PayloadLabel(path: Bytes): Bytes {
    if path == MANIFEST_PATH then "manifest"
    else if path == STATIC_BASELINE_PATH then "static_baseline"
    else "deltas"
  }

  /** The handler and the forwarder count one payload under one label. */
  lemma LabelsAgree(k: Kind)
    ensures PayloadLabel(PathOf(k)) == KindLabel(k)
  {
    assert |DELTA_BATCH_PATH| < |MANIFEST_PATH| < |STATIC_BASELINE_PATH|;
  }

  /** And the kinds under different ones, at different paths. */
  lemma LabelsDiffer(j: Kind, k: Kind)
    ensures KindLabel(j) == KindLabel(k) <==> j == k
    ensures PathOf(j) == PathOf(k) <==> j == k
  {
    assert |DELTA_BATCH_PATH| < |MANIFEST_PATH| < |STATIC_BASELINE_PATH|;
    assert |KindLabel(Deltas)| < |KindLabel(Manifest)| < |KindLabel(StaticBaseline)|;
  }
}
