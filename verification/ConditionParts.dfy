/** The condition parts of a payload: which messages the redaction looks at, and in which order. */
module ConditionParts {
  import opened GoStrings
  import opened Messages

  /** All parts of the case labels of these outcomes. */
  ghost function OutcomeParts(outcomes: seq<Message>): seq<Message>
    requires AllFinite(outcomes)
  {
    if outcomes == [] then []
    else OutcomeParts(outcomes[..|outcomes| - 1]) + Field(outcomes[|outcomes| - 1], "case_label")
  }

  ghost function SiteParts(site: Message): seq<Message>
    requires site.Finite()
  {
    FieldFinite(site.names, site.kids, "outcomes", site.height);
    Field(site, "condition") + OutcomeParts(Field(site, "outcomes"))
  }

  /** All parts of these branch sites: each condition, then each case label. */
  ghost function SitesParts(sites: seq<Message>): seq<Message>
    requires AllFinite(sites)
  {
    if sites == [] then [] else SitesParts(sites[..|sites| - 1]) + SiteParts(sites[|sites| - 1])
  }

  /** All parts below the owners of branch sites: the probes of a manifest or the methods of a class. */
  ghost function OwnersParts(owners: seq<Message>): seq<Message>
    requires AllFinite(owners)
  {
    if owners == [] then []
    else
      var last := owners[|owners| - 1];
      FieldFinite(last.names, last.kids, "branch_sites", last.height);
      OwnersParts(owners[..|owners| - 1]) + SitesParts(Field(last, "branch_sites"))
  }

  ghost function ManifestParts(m: Message): seq<Message>
    requires m.Finite()
  {
    FieldFinite(m.names, m.kids, "probes", m.height);
    OwnersParts(Field(m, "probes"))
  }

  ghost function ClassesParts(classes: seq<Message>): seq<Message>
    requires AllFinite(classes)
  {
    if classes == [] then []
    else
      var last := classes[|classes| - 1];
      FieldFinite(last.names, last.kids, "methods", last.height);
      ClassesParts(classes[..|classes| - 1]) + OwnersParts(Field(last, "methods"))
  }

  ghost function BaselineParts(m: Message): seq<Message>
    requires m.Finite()
  {
    FieldFinite(m.names, m.kids, "declared_classes", m.height);
    ClassesParts(Field(m, "declared_classes"))
  }


  // ----- by prefixes -----

  lemma {:induction false} OutcomePartsPrefix(outcomes: seq<Message>, i: nat)
    requires AllFinite(outcomes) && i <= |outcomes|
    ensures OutcomeParts(outcomes[..i]) <= OutcomeParts(outcomes)
    ensures i < |outcomes| ==>
              OutcomeParts(outcomes[..i + 1]) == OutcomeParts(outcomes[..i]) + Field(outcomes[i], "case_label")
  {
    hide Field;
    if i < |outcomes| {
      assert outcomes[..i + 1][..i] == outcomes[..i];
      OutcomePartsPrefix(outcomes[..|outcomes| - 1], i);
      assert outcomes[..|outcomes| - 1][..i] == outcomes[..i];
    } else {
      assert outcomes[..i] == outcomes;
    }
  }

  lemma {:induction false} SitesPartsPrefix(sites: seq<Message>, i: nat)
    requires AllFinite(sites) && i <= |sites|
    ensures SitesParts(sites[..i]) <= SitesParts(sites)
    ensures i < |sites| ==> SitesParts(sites[..i + 1]) == SitesParts(sites[..i]) + SiteParts(sites[i])
  {
    hide SiteParts;
    if i < |sites| {
      assert sites[..i + 1][..i] == sites[..i];
      SitesPartsPrefix(sites[..|sites| - 1], i);
      assert sites[..|sites| - 1][..i] == sites[..i];
    } else {
      assert sites[..i] == sites;
    }
  }

  ghost function OwnerParts(owner: Message): seq<Message>
    requires owner.Finite()
  {
    FieldFinite(owner.names, owner.kids, "branch_sites", owner.height);
    SitesParts(Field(owner, "branch_sites"))
  }

  lemma {:induction false} OwnersPartsPrefix(owners: seq<Message>, i: nat)
    requires AllFinite(owners) && i <= |owners|
    ensures OwnersParts(owners[..i]) <= OwnersParts(owners)
    ensures i < |owners| ==> OwnersParts(owners[..i + 1]) == OwnersParts(owners[..i]) + OwnerParts(owners[i])
  {
    hide Field, SitesParts;
    if i < |owners| {
      assert owners[..i + 1][..i] == owners[..i];
      OwnersPartsPrefix(owners[..|owners| - 1], i);
      assert owners[..|owners| - 1][..i] == owners[..i];
    } else {
      assert owners[..i] == owners;
    }
  }

  ghost function ClassParts(declared: Message): seq<Message>
    requires declared.Finite()
  {
    FieldFinite(declared.names, declared.kids, "methods", declared.height);
    OwnersParts(Field(declared, "methods"))
  }

  lemma {:induction false} ClassesPartsPrefix(classes: seq<Message>, i: nat)
    requires AllFinite(classes) && i <= |classes|
    ensures ClassesParts(classes[..i]) <= ClassesParts(classes)
    ensures i < |classes| ==> ClassesParts(classes[..i + 1]) == ClassesParts(classes[..i]) + ClassParts(classes[i])
  {
    hide Field, OwnersParts;
    if i < |classes| {
      assert classes[..i + 1][..i] == classes[..i];
      ClassesPartsPrefix(classes[..|classes| - 1], i);
      assert classes[..|classes| - 1][..i] == classes[..i];
    } else {
      assert classes[..i] == classes;
    }
  }


  // ----- by paths -----

  /** In a branch site: a part of its condition, or of the case label of one of its outcomes. */
  ghost predicate OnSite(site: Message, p: Message) {
    || Below(site, Step("condition", Here), p)
    || Below(site, Step("outcomes", Step("case_label", Here)), p)
  }

  /** In a manifest: in a branch site of one of its probes. */
  ghost predicate ManifestPart(m: Message, p: Message) {
    || Below(m, Step("probes", Step("branch_sites", Step("condition", Here))), p)
    || Below(m, Step("probes", Step("branch_sites", Step("outcomes", Step("case_label", Here)))), p)
  }

  /** In a baseline: in a branch site of a method of one of its declared classes. */
  ghost predicate BaselinePart(m: Message, p: Message) {
    || Below(m, Step("declared_classes", Step("methods", Step("branch_sites", Step("condition", Here)))), p)
    || Below(m, Step("declared_classes", Step("methods", Step("branch_sites",
                Step("outcomes", Step("case_label", Here))))), p)
  }

  lemma {:induction false} OutcomePartsIff(outcomes: seq<Message>, p: Message)
    requires AllFinite(outcomes)
    ensures p in OutcomeParts(outcomes) <==> exists x :: x in outcomes && Below(x, Step("case_label", Here), p)
  {
    hide Field, Below;
    if outcomes != [] {
      var n := |outcomes| - 1;
      var last := outcomes[n];
      assert outcomes == outcomes[..n] + [last];
      OutcomePartsIff(outcomes[..n], p);
      FieldHere(last, "case_label", p);
    }
  }

  lemma {:induction false} FieldHere(m: Message, name: Bytes, p: Message)
    requires m.Finite()
    ensures p in Field(m, name) <==> Below(m, Step(name, Here), p)
  {
    hide FieldFrom;
    FieldFromIff(m.names, m.kids, name, p);
  }

  lemma {:induction false} SitePartsIff(site: Message, p: Message)
    requires site.Finite()
    ensures p in SiteParts(site) <==> OnSite(site, p)
  {
    hide Field, Below, OutcomeParts;
    FieldIsFinite(site, "outcomes");
    FieldHere(site, "condition", p);
    OutcomePartsIff(Field(site, "outcomes"), p);
    FieldBelow(site, "outcomes", Step("case_label", Here), p);
  }

  lemma {:induction false} SitesPartsIff(sites: seq<Message>, p: Message)
    requires AllFinite(sites)
    ensures p in SitesParts(sites) <==> exists x :: x in sites && OnSite(x, p)
  {
    hide OnSite, SiteParts;
    if sites != [] {
      var n := |sites| - 1;
      assert sites == sites[..n] + [sites[n]];
      SitesPartsIff(sites[..n], p);
      SitePartsIff(sites[n], p);
    }
  }

  ghost predicate OnOwner(owner: Message, p: Message) {
    || Below(owner, Step("branch_sites", Step("condition", Here)), p)
    || Below(owner, Step("branch_sites", Step("outcomes", Step("case_label", Here))), p)
  }

  lemma {:induction false} OwnerPartsIff(owner: Message, p: Message)
    requires owner.Finite()
    ensures p in OwnerParts(owner) <==> OnOwner(owner, p)
  {
    hide Field, Below, SitesParts;
    FieldIsFinite(owner, "branch_sites");
    SitesPartsIff(Field(owner, "branch_sites"), p);
    FieldBelow(owner, "branch_sites", Step("condition", Here), p);
    FieldBelow(owner, "branch_sites", Step("outcomes", Step("case_label", Here)), p);
  }

  lemma {:induction false} OwnersPartsIff(owners: seq<Message>, p: Message)
    requires AllFinite(owners)
    ensures p in OwnersParts(owners) <==> exists x :: x in owners && OnOwner(x, p)
  {
    hide OnOwner, SitesParts, Field;
    if owners != [] {
      var n := |owners| - 1;
      assert owners == owners[..n] + [owners[n]];
      OwnersPartsIff(owners[..n], p);
      OwnerPartsIff(owners[n], p);
    }
  }

  /** The parts of a manifest are exactly the messages on its paths. */
  lemma {:induction false} ManifestPartsIff(m: Message, p: Message)
    requires m.Finite()
    ensures p in ManifestParts(m) <==> ManifestPart(m, p)
  {
    hide Field, Below, OwnersParts;
    FieldIsFinite(m, "probes");
    OwnersPartsIff(Field(m, "probes"), p);
    FieldBelow(m, "probes", Step("branch_sites", Step("condition", Here)), p);
    FieldBelow(m, "probes", Step("branch_sites", Step("outcomes", Step("case_label", Here))), p);
  }

  ghost predicate OnClass(declared: Message, p: Message) {
    || Below(declared, Step("methods", Step("branch_sites", Step("condition", Here))), p)
    || Below(declared, Step("methods", Step("branch_sites", Step("outcomes", Step("case_label", Here)))), p)
  }

  lemma {:induction false} ClassPartsIff(declared: Message, p: Message)
    requires declared.Finite()
    ensures p in ClassParts(declared) <==> OnClass(declared, p)
  {
    hide Field, Below, OwnersParts;
    FieldIsFinite(declared, "methods");
    OwnersPartsIff(Field(declared, "methods"), p);
    FieldBelow(declared, "methods", Step("branch_sites", Step("condition", Here)), p);
    FieldBelow(declared, "methods", Step("branch_sites", Step("outcomes", Step("case_label", Here))), p);
  }

  lemma {:induction false} ClassesPartsIff(classes: seq<Message>, p: Message)
    requires AllFinite(classes)
    ensures p in ClassesParts(classes) <==> exists x :: x in classes && OnClass(x, p)
  {
    hide OnClass, OwnersParts, Field;
    if classes != [] {
      var n := |classes| - 1;
      assert classes == classes[..n] + [classes[n]];
      ClassesPartsIff(classes[..n], p);
      ClassPartsIff(classes[n], p);
    }
  }

  lemma {:induction false} BaselinePartsIff(m: Message, p: Message)
    requires m.Finite()
    ensures p in BaselineParts(m) <==> BaselinePart(m, p)
  {
    hide Field, Below, ClassesParts;
    FieldIsFinite(m, "declared_classes");
    ClassesPartsIff(Field(m, "declared_classes"), p);
    FieldBelow(m, "declared_classes", Step("methods", Step("branch_sites", Step("condition", Here))), p);
    FieldBelow(m, "declared_classes",
               Step("methods", Step("branch_sites", Step("outcomes", Step("case_label", Here)))), p);
  }

  // ----- each part once -----

  lemma {:induction false} OutcomePartsOnce(outcomes: seq<Message>)
    requires AllFinite(outcomes) && Apart(outcomes)
    ensures Once(OutcomeParts(outcomes)) && Within(OutcomeParts(outcomes), NodesOf(outcomes))
  {
    hide Field, Once, Apart, Within;
    if outcomes == [] {
      NothingOnce();
    } else {
      var n := |outcomes| - 1;
      ApartInit(outcomes);
      OutcomePartsOnce(outcomes[..n]);
      FieldOnce(outcomes[n], "case_label");
      OnceConcat(OutcomeParts(outcomes[..n]), Field(outcomes[n], "case_label"),
                 NodesOf(outcomes[..n]), outcomes[n].nodes);
    }
  }

  lemma {:induction false} NothingOnce()
    ensures Once([]) && Within([], {})
  {
  }

  lemma {:induction false} FieldOnce(m: Message, name: Bytes)
    requires m.Finite() && m.Tree()
    ensures Once(Field(m, name)) && Within(Field(m, name), NodesOf(Field(m, name))) && Within(Field(m, name), m.nodes)
  {
    hide Field;
    FieldApart(m, name);
    ApartIsOnce(Field(m, name));
  }

  lemma {:induction false} WithinMore(parts: seq<Message>, u: set<Message>, v: set<Message>)
    requires Within(parts, u) && u <= v
    ensures Within(parts, v)
  {
  }

  lemma {:induction false} SitePartsOnce(site: Message)
    requires site.Finite() && site.Tree()
    ensures Once(SiteParts(site)) && Within(SiteParts(site), site.nodes)
  {
    hide Field, Once, Apart, Within, OutcomeParts;
    var condition, outcomes := Field(site, "condition"), Field(site, "outcomes");
    FieldOnce(site, "condition");
    FieldApart(site, "condition");
    FieldApart(site, "outcomes");
    OutcomePartsOnce(outcomes);
    assert "condition" != "outcomes" by { assert |"condition"| != |"outcomes"|; }
    FieldsDisjoint(site, "condition", "outcomes");
    OnceConcat(condition, OutcomeParts(outcomes), NodesOf(condition), NodesOf(outcomes));
    WithinMore(SiteParts(site), NodesOf(condition) + NodesOf(outcomes), site.nodes);
  }

  lemma {:induction false} SitesPartsOnce(sites: seq<Message>)
    requires AllFinite(sites) && Apart(sites)
    ensures Once(SitesParts(sites)) && Within(SitesParts(sites), NodesOf(sites))
  {
    hide SiteParts, Once, Apart, Within;
    if sites == [] {
      NothingOnce();
    } else {
      var n := |sites| - 1;
      ApartInit(sites);
      SitesPartsOnce(sites[..n]);
      SitePartsOnce(sites[n]);
      OnceConcat(SitesParts(sites[..n]), SiteParts(sites[n]), NodesOf(sites[..n]), sites[n].nodes);
    }
  }

  lemma {:induction false} OwnerPartsOnce(owner: Message)
    requires owner.Finite() && owner.Tree()
    ensures Once(OwnerParts(owner)) && Within(OwnerParts(owner), owner.nodes)
  {
    hide Field, SitesParts, Once, Apart, Within;
    var sites := Field(owner, "branch_sites");
    FieldApart(owner, "branch_sites");
    SitesPartsOnce(sites);
    WithinMore(SitesParts(sites), NodesOf(sites), owner.nodes);
  }

  lemma {:induction false} OwnersPartsOnce(owners: seq<Message>)
    requires AllFinite(owners) && Apart(owners)
    ensures Once(OwnersParts(owners)) && Within(OwnersParts(owners), NodesOf(owners))
  {
    hide SitesParts, Field, Once, Apart, Within;
    if owners == [] {
      NothingOnce();
    } else {
      var n := |owners| - 1;
      ApartInit(owners);
      OwnersPartsOnce(owners[..n]);
      OwnerPartsOnce(owners[n]);
      OnceConcat(OwnersParts(owners[..n]), OwnerParts(owners[n]), NodesOf(owners[..n]), owners[n].nodes);
    }
  }

  lemma {:induction false} ClassPartsOnce(declared: Message)
    requires declared.Finite() && declared.Tree()
    ensures Once(ClassParts(declared)) && Within(ClassParts(declared), declared.nodes)
  {
    hide Field, OwnersParts, Once, Apart, Within;
    var methods := Field(declared, "methods");
    FieldApart(declared, "methods");
    OwnersPartsOnce(methods);
    WithinMore(OwnersParts(methods), NodesOf(methods), declared.nodes);
  }

  lemma {:induction false} ClassesPartsOnce(classes: seq<Message>)
    requires AllFinite(classes) && Apart(classes)
    ensures Once(ClassesParts(classes)) && Within(ClassesParts(classes), NodesOf(classes))
  {
    hide OwnersParts, Field, Once, Apart, Within;
    if classes == [] {
      NothingOnce();
    } else {
      var n := |classes| - 1;
      ApartInit(classes);
      ClassesPartsOnce(classes[..n]);
      ClassPartsOnce(classes[n]);
      OnceConcat(ClassesParts(classes[..n]), ClassParts(classes[n]), NodesOf(classes[..n]), classes[n].nodes);
    }
  }

  lemma {:induction false} ManifestPartsOnce(m: Message)
    requires m.Finite() && m.Tree()
    ensures Once(ManifestParts(m)) && Within(ManifestParts(m), m.nodes)
  {
    hide Field, OwnersParts, Once, Apart, Within;
    var probes := Field(m, "probes");
    FieldApart(m, "probes");
    OwnersPartsOnce(probes);
    WithinMore(OwnersParts(probes), NodesOf(probes), m.nodes);
  }

  lemma {:induction false} BaselinePartsOnce(m: Message)
    requires m.Finite() && m.Tree()
    ensures Once(BaselineParts(m)) && Within(BaselineParts(m), m.nodes)
  {
    hide Field, ClassesParts, Once, Apart, Within;
    var classes := Field(m, "declared_classes");
    FieldApart(m, "declared_classes");
    ClassesPartsOnce(classes);
    WithinMore(ClassesParts(classes), NodesOf(classes), m.nodes);
  }
}
