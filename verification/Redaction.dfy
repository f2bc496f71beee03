/** The redaction processor (internal/processor/redaction.go), on decoded messages that it changes in place. */
module Redaction {
  import opened GoStrings
  import opened Messages
  import opened ConditionParts

  /** "…" in UTF-8. */
  const REDACTED: Bytes := "\U{E2}\U{80}\U{A6}"

  /** A compiled pattern is the set of texts it matches somewhere. */
  datatype Config = Config(patterns: seq<Bytes -> bool>, allLiterals: bool) {
    ghost predicate Blocks(text: Bytes) {
      allLiterals || exists i :: 0 <= i < |patterns| && patterns[i](text)
    }

    /** Is a part of this kind and text replaced? */
    ghost predicate Hits(kind: PartKind, text: Bytes) {
      kind.Literal? && Blocks(text)
    }

    /** The text such a part carries afterwards. */
    ghost function TextAfter(kind: PartKind, text: Bytes): Bytes {
      if Hits(kind, text) then REDACTED else text
    }
  }

  // ----- dropUnknown -----

  /** Empties `unknown` throughout the tree below m, and leaves every other field as it was. */
  method DropUnknown(m: Message)
    requires m.Finite()
    modifies m.nodes`unknown
    ensures forall n | n in m.nodes :: n.unknown == []
    decreases m.height
  {
    if |m.unknown| > 0 {
      m.unknown := [];
    }
    for i := 0 to |m.kids|
      invariant m.unknown == []
      invariant forall n | n in NodesOf(m.kids[..i]) :: n.unknown == []
    {
      NodesOfPrefix(m.kids, i);
      assert forall n | n in NodesOf(m.kids[..i]) :: n in m.nodes;
      DropUnknown(m.kids[i]);
    }
    assert m.kids[..|m.kids|] == m.kids;
  }

  /** Field, with what the callers need to go on. */
  method Get(m: Message, name: Bytes) returns (ms: seq<Message>)
    requires m.Finite()
    ensures ms == Field(m, name) && AllFinite(ms)
  {
    ms := Field(m, name);
    FieldFinite(m.names, m.kids, name, m.height);
  }

  // ----- counting -----

  /** The text of each part at some moment. */
  type Texts = map<Message, Bytes>

  /** How many of the parts are replaced, given the texts they had. */
  ghost function HitCount(cfg: Config, parts: seq<Message>, texts: Texts): nat {
    if parts == [] then 0
    else
      var p := parts[|parts| - 1];
      HitCount(cfg, parts[..|parts| - 1], texts) + if p in texts && cfg.Hits(p.kind, texts[p]) then 1 else 0
  }

  lemma {:induction false} HitCountConcat(cfg: Config, a: seq<Message>, b: seq<Message>, texts: Texts)
    ensures HitCount(cfg, a + b, texts) == HitCount(cfg, a, texts) + HitCount(cfg, b, texts)
  {
    if b == [] {
      assert a + b == a;
    } else {
      var n := |b| - 1;
      HitCountConcat(cfg, a, b[..n], texts);
      assert (a + b)[..|a + b| - 1] == a + b[..n];
    }
  }

  /** The texts after a pass. */
  ghost function TextsAfter(cfg: Config, texts: Texts): Texts {
    map p | p in texts :: cfg.TextAfter(p.kind, texts[p])
  }

  /** A second pass changes no text. It counts the same parts again if its own mark is blocked, and else none. */
  lemma {:induction false} SecondPass(cfg: Config, parts: seq<Message>, texts: Texts)
    ensures TextsAfter(cfg, TextsAfter(cfg, texts)) == TextsAfter(cfg, texts)
    ensures HitCount(cfg, parts, TextsAfter(cfg, texts)) ==
            if cfg.Blocks(REDACTED) then HitCount(cfg, parts, texts) else 0
  {
    if parts != [] {
      SecondPass(cfg, parts[..|parts| - 1], texts);
    }
  }

  /** The count is the number of parts replaced. */
  lemma {:induction false} HitCountIsSize(cfg: Config, parts: seq<Message>, texts: Texts)
    requires Once(parts)
    ensures HitCount(cfg, parts, texts) == |set p | p in parts && p in texts && cfg.Hits(p.kind, texts[p])|
  {
    hide Config.Hits;
    var all := set q | q in parts && q in texts && cfg.Hits(q.kind, texts[q]);
    if parts == [] {
      assert all == {};
    } else {
      var n := |parts| - 1;
      var p := parts[n];
      HitCountIsSize(cfg, parts[..n], texts);
      var before := set q | q in parts[..n] && q in texts && cfg.Hits(q.kind, texts[q]);
      LastIsNew(parts);
      assert all == before + if p in texts && cfg.Hits(p.kind, texts[p]) then {p} else {};
    }
  }

  lemma {:induction false} LastIsNew(parts: seq<Message>)
    requires Once(parts) && parts != []
    ensures var n := |parts| - 1;
            parts[n] !in parts[..n] && (forall q :: q in parts <==> q in parts[..n] || q == parts[n])
  {
    var n := |parts| - 1;
    assert parts == parts[..n] + [parts[n]];
  }

  lemma {:induction false} WithinAll(parts: seq<Message>, nodes: set<Message>)
    requires Within(parts, nodes)
    ensures forall p | p in parts :: p in nodes
  {
  }

  /** The first `k` of the parts are redacted, the others are as they were. */
  ghost predicate Progress(cfg: Config, all: seq<Message>, k: int, texts: Texts)
    reads all
  {
    && 0 <= k <= |all|
    && (forall j | 0 <= j < |all| :: all[j] in texts)
    && (forall j | 0 <= j < k :: all[j].text == cfg.TextAfter(all[j].kind, texts[all[j]]))
    && (forall j | k <= j < |all| :: all[j].text == texts[all[j]])
  }

  lemma {:induction false} PartHasText(cfg: Config, all: seq<Message>, k: int, texts: Texts)
    requires Progress(cfg, all, k, texts)
    ensures 0 <= k <= |all| && (k < |all| ==> all[k] in texts)
  {
  }

  /** `block` stands in `all` at position k. */
  ghost predicate At(all: seq<Message>, k: int, block: seq<Message>) {
    0 <= k && k + |block| <= |all| && forall i | 0 <= i < |block| :: all[k + i] == block[i]
  }

  /** A piece of a block that stands in `all` stands there too. */
  lemma {:induction false} AtWithin(
      all: seq<Message>, k: int, block: seq<Message>, before: seq<Message>, piece: seq<Message>)
    requires At(all, k, block) && before + piece <= block
    ensures At(all, k + |before|, piece)
  {
    forall i | 0 <= i < |piece| ensures all[k + |before| + i] == piece[i] {
      assert block[|before| + i] == (before + piece)[|before| + i];
    }
  }

  lemma {:induction false} ProgressDone(cfg: Config, all: seq<Message>, texts: Texts)
    requires Progress(cfg, all, |all|, texts)
    ensures forall p | p in all :: p in texts && p.text == cfg.TextAfter(p.kind, texts[p])
  {
  }

  lemma {:induction false} NothingYet(cfg: Config, list: seq<Message>, texts: Texts)
    requires AllFinite(list)
    ensures forall i | 0 <= i <= |list| :: AllFinite(list[..i])
    ensures forall i | 0 <= i < |list| :: list[i].Finite()
    ensures OutcomeParts(list[..0]) == [] && SitesParts(list[..0]) == []
    ensures OwnersParts(list[..0]) == [] && ClassesParts(list[..0]) == []
    ensures HitCount(cfg, [], texts) == 0
  {
  }

  // One turn of each loop: the parts of the next element follow those of the elements before it.

  lemma {:induction false} OutcomeTurn(
      cfg: Config, all: seq<Message>, k: int, outcomes: seq<Message>, i: nat, parts: seq<Message>, texts: Texts)
    requires AllFinite(outcomes) && i < |outcomes| && At(all, k, OutcomeParts(outcomes))
    requires parts == Field(outcomes[i], "case_label")
    ensures At(all, k + |OutcomeParts(outcomes[..i])|, parts)
    ensures |OutcomeParts(outcomes[..i + 1])| == |OutcomeParts(outcomes[..i])| + |parts|
    ensures HitCount(cfg, OutcomeParts(outcomes[..i + 1]), texts) ==
            HitCount(cfg, OutcomeParts(outcomes[..i]), texts) + HitCount(cfg, parts, texts)
  {
    hide OutcomeParts, At, HitCount;
    OutcomePartsPrefix(outcomes, i);
    OutcomePartsPrefix(outcomes, i + 1);
    AtWithin(all, k, OutcomeParts(outcomes), OutcomeParts(outcomes[..i]), parts);
    HitCountConcat(cfg, OutcomeParts(outcomes[..i]), parts, texts);
  }

  lemma {:induction false} SiteTurn(
      cfg: Config, all: seq<Message>, k: int, sites: seq<Message>, i: nat, texts: Texts)
    requires AllFinite(sites) && i < |sites| && At(all, k, SitesParts(sites))
    ensures At(all, k + |SitesParts(sites[..i])|, SiteParts(sites[i]))
    ensures |SitesParts(sites[..i + 1])| == |SitesParts(sites[..i])| + |SiteParts(sites[i])|
    ensures HitCount(cfg, SitesParts(sites[..i + 1]), texts) ==
            HitCount(cfg, SitesParts(sites[..i]), texts) + HitCount(cfg, SiteParts(sites[i]), texts)
  {
    hide SitesParts, SiteParts, At, HitCount;
    SitesPartsPrefix(sites, i);
    SitesPartsPrefix(sites, i + 1);
    AtWithin(all, k, SitesParts(sites), SitesParts(sites[..i]), SiteParts(sites[i]));
    HitCountConcat(cfg, SitesParts(sites[..i]), SiteParts(sites[i]), texts);
  }

  lemma {:induction false} OwnerTurn(
      cfg: Config, all: seq<Message>, k: int, owners: seq<Message>, i: nat, sites: seq<Message>, texts: Texts)
    requires AllFinite(owners) && i < |owners| && At(all, k, OwnersParts(owners))
    requires sites == Field(owners[i], "branch_sites") && AllFinite(sites)
    ensures At(all, k + |OwnersParts(owners[..i])|, SitesParts(sites))
    ensures |OwnersParts(owners[..i + 1])| == |OwnersParts(owners[..i])| + |SitesParts(sites)|
    ensures HitCount(cfg, OwnersParts(owners[..i + 1]), texts) ==
            HitCount(cfg, OwnersParts(owners[..i]), texts) + HitCount(cfg, SitesParts(sites), texts)
  {
    hide OwnersParts, SitesParts, At, HitCount;
    OwnersPartsPrefix(owners, i);
    OwnersPartsPrefix(owners, i + 1);
    AtWithin(all, k, OwnersParts(owners), OwnersParts(owners[..i]), SitesParts(sites));
    HitCountConcat(cfg, OwnersParts(owners[..i]), SitesParts(sites), texts);
  }

  lemma {:induction false} ClassTurn(
      cfg: Config, all: seq<Message>, k: int, classes: seq<Message>, i: nat, methods: seq<Message>, texts: Texts)
    requires AllFinite(classes) && i < |classes| && At(all, k, ClassesParts(classes))
    requires methods == Field(classes[i], "methods") && AllFinite(methods)
    ensures At(all, k + |ClassesParts(classes[..i])|, OwnersParts(methods))
    ensures |ClassesParts(classes[..i + 1])| == |ClassesParts(classes[..i])| + |OwnersParts(methods)|
    ensures HitCount(cfg, ClassesParts(classes[..i + 1]), texts) ==
            HitCount(cfg, ClassesParts(classes[..i]), texts) + HitCount(cfg, OwnersParts(methods), texts)
  {
    hide ClassesParts, OwnersParts, At, HitCount;
    ClassesPartsPrefix(classes, i);
    ClassesPartsPrefix(classes, i + 1);
    AtWithin(all, k, ClassesParts(classes), ClassesParts(classes[..i]), OwnersParts(methods));
    HitCountConcat(cfg, ClassesParts(classes[..i]), OwnersParts(methods), texts);
  }

  lemma {:induction false} ManifestPartsAre(m: Message, probes: seq<Message>)
    requires m.Finite() && probes == Field(m, "probes") && AllFinite(probes)
    ensures ManifestParts(m) == OwnersParts(probes)
  {
  }

  lemma {:induction false} BaselinePartsAre(m: Message, classes: seq<Message>)
    requires m.Finite() && classes == Field(m, "declared_classes") && AllFinite(classes)
    ensures BaselineParts(m) == ClassesParts(classes)
  {
  }

  lemma {:induction false} AtStart(cfg: Config, all: seq<Message>, texts: Texts)
    requires forall p | p in all :: p in texts && p.text == texts[p]
    ensures At(all, 0, all) && Progress(cfg, all, 0, texts)
  {
  }

  // ----- redactParts, redactSites and the passes -----

  class Redaction {
    const cfg: Config
    /** RedactedLiterals, one series for each payload that has parts. */
    var manifestCount: int
    var baselineCount: int

    constructor (cfg: Config)
      ensures this.cfg == cfg && manifestCount == 0 && baselineCount == 0
    {
      this.cfg := cfg;
      manifestCount, baselineCount := 0, 0;
    }

    method Blocks(text: Bytes) returns (b: bool)
      ensures b <==> cfg.allLiterals || exists i :: 0 <= i < |cfg.patterns| && cfg.patterns[i](text)
    {
      if cfg.allLiterals {
        return true;
      }
      for i := 0 to |cfg.patterns|
        invariant forall j | 0 <= j < i :: !cfg.patterns[j](text)
      {
        if cfg.patterns[i](text) {
          return true;
        }
      }
      return false;
    }

    /** The body of redactParts' loop: part j of all the parts of a payload. */
    method RedactPart(p: Message, ghost all: seq<Message>, ghost j: int, ghost texts: Texts) returns (hit: bool)
      requires Once(all) && Progress(cfg, all, j, texts) && j < |all| && p == all[j]
      modifies p`text
      ensures Progress(cfg, all, j + 1, texts)
      ensures hit == cfg.Hits(p.kind, texts[p])
    {
      if p.kind == Code || p.kind == Placeholder {
        return false;
      }
      hit := Blocks(p.text);
      if hit {
        p.text := REDACTED;
      }
    }

    /** redactParts, on a block of all the parts of a payload. */
    method RedactParts(parts: seq<Message>, ghost all: seq<Message>, ghost k: int, ghost texts: Texts)
      returns (n: nat)
      requires Once(all) && At(all, k, parts) && Progress(cfg, all, k, texts)
      modifies all`text
      ensures Progress(cfg, all, k + |parts|, texts)
      ensures n == HitCount(cfg, parts, texts)
    {
      hide Progress, Once, Config.Hits;
      n := 0;
      for i := 0 to |parts|
        invariant Progress(cfg, all, k + i, texts)
        invariant n == HitCount(cfg, parts[..i], texts)
      {
        var p := parts[i];
        assert p == all[k + i];
        assert parts[..i + 1][..i] == parts[..i];
        PartHasText(cfg, all, k + i, texts);
        var hit := RedactPart(p, all, k + i, texts);
        if hit {
          n := n + 1;
        }
      }
      assert parts[..|parts|] == parts;
    }

    /** The inner loop of redactSites. */
    method RedactOutcomes(outcomes: seq<Message>, ghost all: seq<Message>, ghost k: int, ghost texts: Texts)
      returns (n: nat)
      requires AllFinite(outcomes) && Once(all) && At(all, k, OutcomeParts(outcomes)) && Progress(cfg, all, k, texts)
      modifies all`text
      ensures Progress(cfg, all, k + |OutcomeParts(outcomes)|, texts)
      ensures n == HitCount(cfg, OutcomeParts(outcomes), texts)
    {
      hide *;
      n := 0;
      NothingYet(cfg, outcomes, texts);
      for i := 0 to |outcomes|
        invariant Progress(cfg, all, k + |OutcomeParts(outcomes[..i])|, texts)
        invariant n == HitCount(cfg, OutcomeParts(outcomes[..i]), texts)
      {
        var parts := Get(outcomes[i], "case_label");
        OutcomeTurn(cfg, all, k, outcomes, i, parts, texts);
        var m := RedactParts(parts, all, k + |OutcomeParts(outcomes[..i])|, texts);
        n := n + m;
      }
      assert outcomes[..|outcomes|] == outcomes;
    }

    method RedactSite(site: Message, ghost all: seq<Message>, ghost k: int, ghost texts: Texts)
      returns (n: nat)
      requires site.Finite() && Once(all) && At(all, k, SiteParts(site)) && Progress(cfg, all, k, texts)
      modifies all`text
      ensures Progress(cfg, all, k + |SiteParts(site)|, texts)
      ensures n == HitCount(cfg, SiteParts(site), texts)
    {
      hide Progress, At, NodesOf, FieldFrom, Once, HitCount, OutcomeParts;
      var condition := Get(site, "condition");
      var outcomes := Get(site, "outcomes");
      AtWithin(all, k, SiteParts(site), [], condition);
      AtWithin(all, k, SiteParts(site), condition, OutcomeParts(outcomes));
      HitCountConcat(cfg, condition, OutcomeParts(outcomes), texts);
      n := RedactParts(condition, all, k, texts);
      var m := RedactOutcomes(outcomes, all, k + |condition|, texts);
      n := n + m;
    }

    /** redactSites. */
    method RedactSites(sites: seq<Message>, ghost all: seq<Message>, ghost k: int, ghost texts: Texts)
      returns (n: nat)
      requires AllFinite(sites) && Once(all) && At(all, k, SitesParts(sites)) && Progress(cfg, all, k, texts)
      modifies all`text
      ensures Progress(cfg, all, k + |SitesParts(sites)|, texts)
      ensures n == HitCount(cfg, SitesParts(sites), texts)
    {
      hide *;
      n := 0;
      NothingYet(cfg, sites, texts);
      for i := 0 to |sites|
        invariant Progress(cfg, all, k + |SitesParts(sites[..i])|, texts)
        invariant n == HitCount(cfg, SitesParts(sites[..i]), texts)
      {
        SiteTurn(cfg, all, k, sites, i, texts);
        var m := RedactSite(sites[i], all, k + |SitesParts(sites[..i])|, texts);
        n := n + m;
      }
      assert sites[..|sites|] == sites;
    }

    /** The loop over the probes of a manifest, or over the methods of a class. */
    method RedactOwners(owners: seq<Message>, ghost all: seq<Message>, ghost k: int, ghost texts: Texts)
      returns (n: nat)
      requires AllFinite(owners) && Once(all) && At(all, k, OwnersParts(owners)) && Progress(cfg, all, k, texts)
      modifies all`text
      ensures Progress(cfg, all, k + |OwnersParts(owners)|, texts)
      ensures n == HitCount(cfg, OwnersParts(owners), texts)
    {
      hide *;
      n := 0;
      NothingYet(cfg, owners, texts);
      for i := 0 to |owners|
        invariant Progress(cfg, all, k + |OwnersParts(owners[..i])|, texts)
        invariant n == HitCount(cfg, OwnersParts(owners[..i]), texts)
      {
        var sites := Get(owners[i], "branch_sites");
        OwnerTurn(cfg, all, k, owners, i, sites, texts);
        var m := RedactSites(sites, all, k + |OwnersParts(owners[..i])|, texts);
        n := n + m;
      }
      assert owners[..|owners|] == owners;
    }

    /** The loop over the declared classes of a baseline. */
    method RedactClasses(classes: seq<Message>, ghost all: seq<Message>, ghost k: int, ghost texts: Texts)
      returns (n: nat)
      requires AllFinite(classes) && Once(all) && At(all, k, ClassesParts(classes)) && Progress(cfg, all, k, texts)
      modifies all`text
      ensures Progress(cfg, all, k + |ClassesParts(classes)|, texts)
      ensures n == HitCount(cfg, ClassesParts(classes), texts)
    {
      hide *;
      n := 0;
      NothingYet(cfg, classes, texts);
      for i := 0 to |classes|
        invariant Progress(cfg, all, k + |ClassesParts(classes[..i])|, texts)
        invariant n == HitCount(cfg, ClassesParts(classes[..i]), texts)
      {
        var methods := Get(classes[i], "methods");
        ClassTurn(cfg, all, k, classes, i, methods, texts);
        var m := RedactOwners(methods, all, k + |ClassesParts(classes[..i])|, texts);
        n := n + m;
      }
      assert classes[..|classes|] == classes;
    }

    /** The loop of AcceptManifest, on all the parts it comes to. */
    method RedactManifest(m: Message, ghost parts: seq<Message>) returns (n: nat)
      requires m.Finite() && parts == ManifestParts(m) && Once(parts)
      modifies parts`text
      ensures forall p | p in parts :: p.text == cfg.TextAfter(p.kind, old(p.text))
      ensures n == HitCount(cfg, parts, old(map p: Message | p in parts :: p.text))
    {
      hide *;
      ghost var texts: Texts := map p: Message | p in parts :: p.text;
      var probes := Get(m, "probes");
      ManifestPartsAre(m, probes);
      AtStart(cfg, parts, texts);
      n := RedactOwners(probes, parts, 0, texts);
      ProgressDone(cfg, parts, texts);
    }

    method RedactBaseline(m: Message, ghost parts: seq<Message>) returns (n: nat)
      requires m.Finite() && parts == BaselineParts(m) && Once(parts)
      modifies parts`text
      ensures forall p | p in parts :: p.text == cfg.TextAfter(p.kind, old(p.text))
      ensures n == HitCount(cfg, parts, old(map p: Message | p in parts :: p.text))
    {
      hide *;
      ghost var texts: Texts := map p: Message | p in parts :: p.text;
      var classes := Get(m, "declared_classes");
      BaselinePartsAre(m, classes);
      AtStart(cfg, parts, texts);
      n := RedactClasses(classes, parts, 0, texts);
      ProgressDone(cfg, parts, texts);
    }

    /**
    AcceptManifest, up to the next sink. Below the manifest, the text of every blocked literal in a branch site becomes
    "…", and every other message keeps its text. No message at any depth keeps unknown bytes. The counter grows by the
    number of literals replaced. Nothing else in the heap is written, so every part keeps its kind.
    */
    method PassManifest(m: Message) returns (n: nat)
      requires m.Finite() && m.Tree()
      modifies this`manifestCount, m.nodes`text, m.nodes`unknown
      ensures forall p | p in m.nodes ::
                p.text == if ManifestPart(m, p) && p.kind.Literal? && cfg.Blocks(old(p.text)) then REDACTED
                          else old(p.text)
      ensures forall x | x in m.nodes :: x.unknown == []
      ensures n == |set p | p in m.nodes && ManifestPart(m, p) && p.kind.Literal? && cfg.Blocks(old(p.text))|
      ensures manifestCount == old(manifestCount) + n
    {
      hide ManifestParts, ManifestPart, Once, Within, HitCount, NodesOf, Message.Tree, Config.Blocks;
      ghost var parts := ManifestParts(m);
      ghost var texts: Texts := map p: Message | p in parts :: p.text;
      ManifestPartsOnce(m);
      WithinAll(parts, m.nodes);
      forall p: Message ensures p in parts <==> ManifestPart(m, p) {
        ManifestPartsIff(m, p);
      }
      n := RedactManifest(m, parts);
      HitCountIsSize(cfg, parts, texts);
      assert (set p | p in parts && p in texts && cfg.Hits(p.kind, texts[p])) ==
             (set p | p in m.nodes && ManifestPart(m, p) && p.kind.Literal? && cfg.Blocks(old(p.text)));
      if n != 0 {
        manifestCount := manifestCount + n;
      }
      DropUnknown(m);
    }

    /** AcceptStaticBaseline, up to the next sink: the same for the methods of every declared class. */
    method PassBaseline(m: Message) returns (n: nat)
      requires m.Finite() && m.Tree()
      modifies this`baselineCount, m.nodes`text, m.nodes`unknown
      ensures forall p | p in m.nodes ::
                p.text == if BaselinePart(m, p) && p.kind.Literal? && cfg.Blocks(old(p.text)) then REDACTED
                          else old(p.text)
      ensures forall x | x in m.nodes :: x.unknown == []
      ensures n == |set p | p in m.nodes && BaselinePart(m, p) && p.kind.Literal? && cfg.Blocks(old(p.text))|
      ensures baselineCount == old(baselineCount) + n
    {
      hide BaselineParts, BaselinePart, Once, Within, HitCount, NodesOf, Message.Tree, Config.Blocks;
      ghost var parts := BaselineParts(m);
      ghost var texts: Texts := map p: Message | p in parts :: p.text;
      BaselinePartsOnce(m);
      WithinAll(parts, m.nodes);
      forall p: Message ensures p in parts <==> BaselinePart(m, p) {
        BaselinePartsIff(m, p);
      }
      n := RedactBaseline(m, parts);
      HitCountIsSize(cfg, parts, texts);
      assert (set p | p in parts && p in texts && cfg.Hits(p.kind, texts[p])) ==
             (set p | p in m.nodes && BaselinePart(m, p) && p.kind.Literal? && cfg.Blocks(old(p.text)));
      if n != 0 {
        baselineCount := baselineCount + n;
      }
      DropUnknown(m);
    }

    /** Passing a manifest twice leaves it as passing it once did. */
    method PassTwice(m: Message) returns (first: nat, second: nat)
      requires m.Finite() && m.Tree()
      modifies this`manifestCount, m.nodes`text, m.nodes`unknown
      ensures forall p | p in m.nodes ::
                p.text == if ManifestPart(m, p) && p.kind.Literal? && cfg.Blocks(old(p.text)) then REDACTED
                          else old(p.text)
      ensures forall x | x in m.nodes :: x.unknown == []
      ensures second == if cfg.Blocks(REDACTED) then first else 0
    {
      hide ManifestPart, NodesOf, Message.Tree, Message.Finite, Config.Blocks;
      ghost var hits := set p | p in m.nodes && ManifestPart(m, p) && p.kind.Literal? && cfg.Blocks(p.text);
      first := PassManifest(m);
      ghost var again := set p | p in m.nodes && ManifestPart(m, p) && p.kind.Literal? && cfg.Blocks(p.text);
      second := PassManifest(m);
      assert again == if cfg.Blocks(REDACTED) then hits else {};
    }
  }
}
