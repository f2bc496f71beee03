/** Decoded messages: a tree of nested messages, each held by a field of the one above it. */
module Messages {
  import opened GoStrings

  /** The kind of a condition part. The enum is open: any number but the two exempt ones is a literal. */
  datatype PartKind = Code | Placeholder | Literal(number: int)

  /**
  A decoded message. `kids` are the messages directly inside it, whatever the shape of the field that holds them, and
  `names` the field of each. `kind` and `text` are those of a condition part. The structure does not change.
  */
  class Message {
    const names: seq<Bytes>
    const kids: seq<Message>
    const kind: PartKind
    var text: Bytes
    var unknown: Bytes
    ghost const height: nat
    /** This message and every message nested in it. */
    ghost const nodes: set<Message>

    /** The nesting is finite, every kid has a field, and `nodes` is complete. */
    ghost predicate Finite()
      decreases height
    {
      && |names| == |kids|
      && (forall i | 0 <= i < |kids| :: kids[i].height < height && kids[i].Finite())
      && nodes == {this} + NodesOf(kids)
    }

    /** Every nested message is held once, as decoding makes it. */
    ghost predicate Tree()
      requires Finite()
      decreases height
    {
      && (forall i, j | 0 <= i < j < |kids| :: kids[i].nodes !! kids[j].nodes)
      && (forall i | 0 <= i < |kids| :: kids[i].Tree())
    }

    constructor (names: seq<Bytes>, kids: seq<Message>, kind: PartKind, text: Bytes, unknown: Bytes, ghost height: nat)
      requires |names| == |kids| && forall i | 0 <= i < |kids| :: kids[i].height < height && kids[i].Finite()
      ensures Finite() && this.names == names && this.kids == kids && this.kind == kind
      ensures this.text == text && this.unknown == unknown
    {
      this.names, this.kids, this.kind, this.text, this.unknown, this.height := names, kids, kind, text, unknown, height;
      this.nodes := {this} + NodesOf(kids);
    }
  }

  ghost function NodesOf(kids: seq<Message>): set<Message> {
    if kids == [] then {} else NodesOf(kids[..|kids| - 1]) + kids[|kids| - 1].nodes
  }

  lemma {:induction false} NodesOfPrefix(kids: seq<Message>, i: nat)
    requires i <= |kids|
    ensures NodesOf(kids[..i]) <= NodesOf(kids)
    ensures i < |kids| ==> NodesOf(kids[..i + 1]) == NodesOf(kids[..i]) + kids[i].nodes
    ensures i < |kids| ==> kids[i].nodes <= NodesOf(kids)
  {
    if i < |kids| {
      assert kids[..i + 1][..i] == kids[..i];
      NodesOfPrefix(kids[..|kids| - 1], i);
      assert kids[..|kids| - 1][..i] == kids[..i];
    } else {
      assert kids[..i] == kids;
    }
  }

  // ----- fields -----

  /** The messages of a repeated field. */
  function Field(m: Message, name: Bytes): seq<Message>
    requires |m.names| == |m.kids|
  {
    FieldFrom(m.names, m.kids, name)
  }

  function FieldFrom(names: seq<Bytes>, kids: seq<Message>, name: Bytes): seq<Message>
    requires |names| == |kids|
  {
    if kids == [] then []
    else
      var n := |kids| - 1;
      FieldFrom(names[..n], kids[..n], name) + if names[n] == name then [kids[n]] else []
  }

  lemma {:induction false} FieldFinite(names: seq<Bytes>, kids: seq<Message>, name: Bytes, bound: nat)
    requires |names| == |kids| && forall i | 0 <= i < |kids| :: kids[i].height < bound && kids[i].Finite()
    ensures forall k | k in FieldFrom(names, kids, name) :: k in kids && k.Finite()
  {
    if kids != [] {
      var n := |kids| - 1;
      FieldFinite(names[..n], kids[..n], name, bound);
    }
  }

  ghost predicate AllFinite(ms: seq<Message>) {
    forall i | 0 <= i < |ms| :: ms[i].Finite()
  }


  lemma {:induction false} FieldIsFinite(m: Message, name: Bytes)
    requires m.Finite()
    ensures AllFinite(Field(m, name))
  {
    FieldFinite(m.names, m.kids, name, m.height);
  }

  // ----- paths -----

  /** The names of the fields one goes through from a message to one nested in it. */
  datatype Path = Here | Step(name: Bytes, rest: Path)

  /** `p` is reached from `m` along the path. */
  ghost predicate Below(m: Message, path: Path, p: Message)
    decreases path
  {
    match path
    case Here => p == m
    case Step(name, rest) =>
      exists i :: 0 <= i < |m.kids| && i < |m.names| && m.names[i] == name && Below(m.kids[i], rest, p)
  }

  lemma {:induction false} FieldFromIff(names: seq<Bytes>, kids: seq<Message>, name: Bytes, x: Message)
    requires |names| == |kids|
    ensures x in FieldFrom(names, kids, name) <==> exists i :: 0 <= i < |kids| && names[i] == name && kids[i] == x
  {
    if kids != [] {
      var n := |kids| - 1;
      FieldFromIff(names[..n], kids[..n], name, x);
      assert forall i | 0 <= i < n :: names[..n][i] == names[i] && kids[..n][i] == kids[i];
    }
  }

  /** One step of a path goes to a message of that field. */
  lemma {:induction false} FieldBelow(m: Message, name: Bytes, rest: Path, p: Message)
    requires m.Finite()
    ensures Below(m, Step(name, rest), p) <==> exists x :: x in Field(m, name) && Below(x, rest, p)
  {
    hide FieldFrom;
    if Below(m, Step(name, rest), p) {
      var i :| 0 <= i < |m.kids| && i < |m.names| && m.names[i] == name && Below(m.kids[i], rest, p);
      FieldFromIff(m.names, m.kids, name, m.kids[i]);
      assert m.kids[i] in Field(m, name);
    }
    if x :| x in Field(m, name) && Below(x, rest, p) {
      FieldFromIff(m.names, m.kids, name, x);
      var i :| 0 <= i < |m.kids| && m.names[i] == name && m.kids[i] == x;
      assert Below(m.kids[i], rest, p);
    }
  }

  lemma {:induction false} NodesOfIff(kids: seq<Message>, n: Message)
    ensures n in NodesOf(kids) <==> exists i :: 0 <= i < |kids| && n in kids[i].nodes
  {
    if kids != [] {
      var last := |kids| - 1;
      NodesOfIff(kids[..last], n);
      assert forall i | 0 <= i < last :: kids[..last][i] == kids[i];
    }
  }

  /** The nodes of a message are exactly those some path leads to. */
  lemma {:induction false} NodesIff(m: Message, n: Message)
    requires m.Finite()
    ensures n in m.nodes <==> exists path :: Below(m, path, n)
  {
    if n in m.nodes {
      var path := PathTo(m, n);
      assert Below(m, path, n);
    } else if path :| Below(m, path, n) {
      BelowIsNode(m, path, n);
    }
  }

  lemma {:induction false} PathTo(m: Message, n: Message) returns (path: Path)
    requires m.Finite() && n in m.nodes
    ensures Below(m, path, n)
    decreases m.height
  {
    path := Here;
    if n != m {
      NodesOfIff(m.kids, n);
      var i :| 0 <= i < |m.kids| && n in m.kids[i].nodes;
      path := PathTo(m.kids[i], n);
      path := Step(m.names[i], path);
    }
  }

  lemma {:induction false} BelowIsNode(m: Message, path: Path, n: Message)
    requires m.Finite() && Below(m, path, n)
    ensures n in m.nodes && n.Finite()
    decreases path
  {
    if path.Step? {
      var i :| 0 <= i < |m.kids| && i < |m.names| && m.names[i] == path.name && Below(m.kids[i], path.rest, n);
      BelowIsNode(m.kids[i], path.rest, n);
      NodesOfIff(m.kids, n);
    }
  }

  // ----- every message once -----

  /** Trees that share no message. */
  ghost predicate Apart(ms: seq<Message>)
    requires AllFinite(ms)
  {
    && (forall i, j | 0 <= i < j < |ms| :: ms[i].nodes !! ms[j].nodes)
    && (forall i | 0 <= i < |ms| :: ms[i].Tree())
  }

  /** A decoded message holds each nested message once. */
  ghost predicate Once(parts: seq<Message>) {
    forall i, j | 0 <= i < j < |parts| :: parts[i] != parts[j]
  }

  ghost predicate Within(parts: seq<Message>, nodes: set<Message>) {
    forall i | 0 <= i < |parts| :: parts[i] in nodes
  }

  lemma {:induction false} OnceConcat(a: seq<Message>, b: seq<Message>, u: set<Message>, v: set<Message>)
    requires Once(a) && Once(b) && Within(a, u) && Within(b, v) && u !! v
    ensures Once(a + b) && Within(a + b, u + v)
  {
  }

  /** The messages of a field are trees apart from each other, within the nodes of their kids. */
  lemma {:induction false} FieldFromApart(names: seq<Bytes>, kids: seq<Message>, name: Bytes)
    requires |names| == |kids| && AllFinite(kids) && Apart(kids)
    ensures AllFinite(FieldFrom(names, kids, name)) && Apart(FieldFrom(names, kids, name))
    ensures forall x | x in FieldFrom(names, kids, name) :: x in kids
  {
    if kids != [] {
      var n := |kids| - 1;
      FieldFromApart(names[..n], kids[..n], name);
      var before := FieldFrom(names[..n], kids[..n], name);
      forall i | 0 <= i < |before| ensures before[i].nodes !! kids[n].nodes {
        assert before[i] in kids[..n];
      }
    }
  }

  lemma {:induction false} FieldApart(m: Message, name: Bytes)
    requires m.Finite() && m.Tree()
    ensures AllFinite(Field(m, name)) && Apart(Field(m, name))
    ensures NodesOf(Field(m, name)) <= m.nodes
  {
    FieldFromApart(m.names, m.kids, name);
    forall n | n in NodesOf(Field(m, name)) ensures n in m.nodes {
      NodesOfIff(Field(m, name), n);
      var i :| 0 <= i < |Field(m, name)| && n in Field(m, name)[i].nodes;
      assert Field(m, name)[i] in m.kids;
      NodesOfIff(m.kids, n);
    }
  }

  /** Messages of different fields share nothing. */
  lemma {:induction false} FieldsDisjoint(m: Message, a: Bytes, b: Bytes)
    requires m.Finite() && m.Tree() && a != b
    ensures NodesOf(Field(m, a)) !! NodesOf(Field(m, b))
  {
    hide FieldFrom;
    forall n | n in NodesOf(Field(m, a)) && n in NodesOf(Field(m, b)) ensures false {
      NodesOfIff(Field(m, a), n);
      NodesOfIff(Field(m, b), n);
      var i :| 0 <= i < |Field(m, a)| && n in Field(m, a)[i].nodes;
      var j :| 0 <= j < |Field(m, b)| && n in Field(m, b)[j].nodes;
      FieldFromIff(m.names, m.kids, a, Field(m, a)[i]);
      FieldFromIff(m.names, m.kids, b, Field(m, b)[j]);
    }
  }

  /** The messages of a field themselves, each once. */
  lemma {:induction false} ApartIsOnce(ms: seq<Message>)
    requires AllFinite(ms) && Apart(ms)
    ensures Once(ms) && Within(ms, NodesOf(ms))
  {
    forall i | 0 <= i < |ms| ensures ms[i] in NodesOf(ms) {
      NodesOfIff(ms, ms[i]);
    }
    forall i, j | 0 <= i < j < |ms| ensures ms[i] != ms[j] {
      assert ms[i] in ms[i].nodes;
    }
  }

  lemma {:induction false} ApartInit(ms: seq<Message>)
    requires AllFinite(ms) && Apart(ms) && ms != []
    ensures var n := |ms| - 1;
            AllFinite(ms[..n]) && Apart(ms[..n]) && ms[n].Finite() && ms[n].Tree() && NodesOf(ms[..n]) !! ms[n].nodes
  {
    var n := |ms| - 1;
    forall x | x in NodesOf(ms[..n]) && x in ms[n].nodes ensures false {
      NodesOfIff(ms[..n], x);
    }
  }
}
