/** Which queries can be inlined, on the graph of their fragments. */
module FragmentCycles {
  import opened GraphqlQuery

  /** A fragment as it is used: at the top of a query, or below a root field, where more of it counts. */
  datatype Node = Node(fragment: string, top: bool)

  /** The fragments that `sels` spread, in fields and inline fragments too. At the top, `__typename` is a leaf. */
  function SpreadsIn(sels: seq<Selection>, top: bool): set<Node> {
    if sels == [] then {} else SpreadsOf(sels[0], top) + SpreadsIn(sels[1..], top)
  }

  function SpreadsOf(sel: Selection, top: bool): set<Node> {
    match sel
    case Field(name, _, _, _, sub) => if top && name == Typename then {} else SpreadsIn(sub, false)
    case InlineFragment(_, _, sub) => SpreadsIn(sub, top)
    case Spread(f, _) => {Node(f, top)}
  }

  /** The fragments that a fragment spreads; none when it is not defined. */
  function Edges(fragments: Fragments, node: Node): set<Node> {
    if node.fragment in fragments then SpreadsIn(fragments[node.fragment].sub, node.top) else {}
  }

  /** Each fragment spreads the next. */
  predicate Chain(fragments: Fragments, p: seq<Node>) {
    forall i :: 0 < i < |p| ==> p[i] in Edges(fragments, p[i - 1])
  }

  lemma PartIsChain(fragments: Fragments, p: seq<Node>, from: nat, to: nat)
    requires Chain(fragments, p) && from <= to <= |p|
    ensures Chain(fragments, p[from..to])
  {
    var part := p[from..to];
    forall i | 0 < i < |part| ensures part[i] in Edges(fragments, part[i - 1]) {
      assert part[i] == p[from + i] && part[i - 1] == p[from + i - 1];
    }
  }

  lemma JoinedIsChain(fragments: Fragments, p: seq<Node>, q: seq<Node>)
    requires Chain(fragments, p) && Chain(fragments, q) && (p != [] && q != [] ==> q[0] in Edges(fragments, Last(p)))
    ensures Chain(fragments, p + q)
  {
    forall i | 0 < i < |p + q| ensures (p + q)[i] in Edges(fragments, (p + q)[i - 1]) {
      if i > |p| {
        assert (p + q)[i] == q[i - |p|] && (p + q)[i - 1] == q[i - |p| - 1];
      }
    }
  }

  function Last(p: seq<Node>): Node
    requires p != []
  {
    p[|p| - 1]
  }

  /** A way from `sels` to a fragment they reach. */
  predicate Walk(fragments: Fragments, sels: seq<Selection>, top: bool, p: seq<Node>) {
    p != [] && p[0] in SpreadsIn(sels, top) && Chain(fragments, p)
  }

  /** A way from a fragment to itself. */
  predicate Cycle(fragments: Fragments, q: seq<Node>) {
    |q| >= 2 && Chain(fragments, q) && Last(q) == q[0]
  }

  /** Every fragment the query reaches is defined. */
  ghost predicate Defined(doc: Document) {
    forall p :: Walk(doc.fragments, doc.top, true, p) ==> Last(p).fragment in doc.fragments
  }

  /** No fragment the query reaches can be reached from itself. */
  ghost predicate Acyclic(doc: Document) {
    forall p, q :: Walk(doc.fragments, doc.top, true, p) && Cycle(doc.fragments, q) ==> q[0] != Last(p)
  }

  // ---------------------------------------------------------------------------
  // Ways are short
  // ---------------------------------------------------------------------------

  /** Every way from `sels` is at most `n` long, and what it leads to is defined. */
  ghost predicate Short(fragments: Fragments, sels: seq<Selection>, top: bool, n: int) {
    forall p :: Walk(fragments, sels, top, p) ==> |p| <= n && Last(p).fragment in fragments
  }

  lemma {:induction false} SpreadResolves(fragments: Fragments, sels: seq<Selection>, n: int, top: bool, node: Node)
    requires Resolves(fragments, sels, n, top) && node in SpreadsIn(sels, top)
    ensures node.fragment in fragments && n > 0 && Resolves(fragments, fragments[node.fragment].sub, n - 1, node.top)
    decreases sels
  {
    if node in SpreadsIn(sels[1..], top) {
      SpreadResolves(fragments, sels[1..], n, top, node);
    } else {
      match sels[0]
      case Field(_, _, _, _, sub) => SpreadResolves(fragments, sub, n, false, node);
      case InlineFragment(_, _, sub) => SpreadResolves(fragments, sub, n, top, node);
      case Spread(_, _) =>
    }
  }

  lemma {:induction false} WalkIsShort(fragments: Fragments, sels: seq<Selection>, n: int, top: bool, p: seq<Node>)
    requires Resolves(fragments, sels, n, top) && Walk(fragments, sels, top, p)
    ensures |p| <= n && Last(p).fragment in fragments
    decreases |p|
  {
    SpreadResolves(fragments, sels, n, top, p[0]);
    if |p| > 1 {
      var rest := p[1..];
      PartIsChain(fragments, p, 1, |p|);
      assert rest == p[1..|p|] && p[1] in Edges(fragments, p[0]);
      WalkIsShort(fragments, fragments[p[0].fragment].sub, n - 1, p[0].top, rest);
    }
  }

  lemma {:induction false} ShortResolves(fragments: Fragments, sels: seq<Selection>, n: nat, top: bool)
    requires Short(fragments, sels, top, n)
    ensures Resolves(fragments, sels, n, top)
    decreases n, sels
  {
    if sels != [] {
      FewerAreShort(fragments, sels, top, sels[1..], top, n);
      ShortResolves(fragments, sels[1..], n, top);
      match sels[0] {
        case Field(name, _, _, _, sub) =>
          if !(top && name == Typename) {
            FewerAreShort(fragments, sels, top, sub, false, n);
            ShortResolves(fragments, sub, n, false);
          }
        case InlineFragment(_, _, sub) =>
          FewerAreShort(fragments, sels, top, sub, top, n);
          ShortResolves(fragments, sub, n, top);
        case Spread(f, _) =>
          SpreadIsShort(fragments, sels, top, Node(f, top), n);
          ShortResolves(fragments, fragments[f].sub, n - 1, top);
      }
    }
  }

  lemma FewerAreShort(fragments: Fragments, sels: seq<Selection>, top: bool, some: seq<Selection>, someTop: bool, n: nat)
    requires Short(fragments, sels, top, n) && SpreadsIn(some, someTop) <= SpreadsIn(sels, top)
    ensures Short(fragments, some, someTop, n)
  {
    forall p | Walk(fragments, some, someTop, p) ensures |p| <= n && Last(p).fragment in fragments {
      assert Walk(fragments, sels, top, p);
    }
  }

  lemma SpreadIsShort(fragments: Fragments, sels: seq<Selection>, top: bool, node: Node, n: nat)
    requires Short(fragments, sels, top, n) && node in SpreadsIn(sels, top)
    ensures node.fragment in fragments && n > 0 && Short(fragments, fragments[node.fragment].sub, node.top, n - 1)
  {
    assert Walk(fragments, sels, top, [node]);
    forall p | Walk(fragments, fragments[node.fragment].sub, node.top, p) ensures |p| <= n - 1 && Last(p).fragment in fragments {
      JoinedIsChain(fragments, [node], p);
      assert Walk(fragments, sels, top, [node] + p) && Last([node] + p) == Last(p);
    }
  }

  // ---------------------------------------------------------------------------
  // Ways are short exactly when none runs in a circle
  // ---------------------------------------------------------------------------

  /** A way to a fragment on a cycle can go round it. */
  lemma GoRound(fragments: Fragments, sels: seq<Selection>, top: bool, p: seq<Node>, q: seq<Node>)
    requires Walk(fragments, sels, top, p) && Cycle(fragments, q) && q[0] == Last(p)
    ensures Walk(fragments, sels, top, p + q[1..]) && Last(p + q[1..]) == q[0]
  {
    PartIsChain(fragments, q, 1, |q|);
    assert q[1..] == q[1..|q|] && q[1] in Edges(fragments, q[0]);
    JoinedIsChain(fragments, p, q[1..]);
  }

  /** And so on, for as long as one likes. */
  lemma {:induction false} GoOnAndOn(fragments: Fragments, sels: seq<Selection>, top: bool, p: seq<Node>, q: seq<Node>, n: nat) returns (long: seq<Node>)
    requires Walk(fragments, sels, top, p) && Cycle(fragments, q) && q[0] == Last(p)
    ensures Walk(fragments, sels, top, long) && |long| > n
    decreases n - |p|
  {
    if |p| > n {
      long := p;
    } else {
      GoRound(fragments, sels, top, p, q);
      long := GoOnAndOn(fragments, sels, top, p + q[1..], q, n);
    }
  }

  predicate Distinct(p: seq<Node>) {
    forall i, j :: 0 <= i < j < |p| ==> p[i] != p[j]
  }

  lemma CircleWithin(fragments: Fragments, sels: seq<Selection>, top: bool, p: seq<Node>, i: nat, j: nat)
    requires Walk(fragments, sels, top, p) && i < j < |p| && p[i] == p[j]
    ensures Walk(fragments, sels, top, p[..i + 1]) && Cycle(fragments, p[i..j + 1]) && p[i..j + 1][0] == Last(p[..i + 1])
  {
    PartIsChain(fragments, p, 0, i + 1);
    assert p[..i + 1] == p[0..i + 1];
    PartIsChain(fragments, p, i, j + 1);
  }

  /** A way that meets a fragment twice runs in a circle there. */
  lemma WalkIsDistinct(doc: Document, p: seq<Node>)
    requires Acyclic(doc) && Walk(doc.fragments, doc.top, true, p)
    ensures Distinct(p)
  {
    forall i, j | 0 <= i < j < |p| ensures p[i] != p[j] {
      if p[i] == p[j] {
        CircleWithin(doc.fragments, doc.top, true, p, i, j);
      }
    }
  }

  lemma {:induction false} DistinctFits(p: seq<Node>, all: set<Node>)
    requires Distinct(p) && forall i :: 0 <= i < |p| ==> p[i] in all
    ensures |p| <= |all|
    decreases |p|
  {
    if p != [] {
      var rest, others := p[1..], all - {p[0]};
      assert forall i :: 0 <= i < |rest| ==> rest[i] == p[i + 1];
      DistinctFits(rest, others);
    }
  }

  function Nodes(fragments: Fragments): set<Node> {
    set f, top | f in fragments && top in {false, true} :: Node(f, top)
  }

  /** With every fragment defined and no cycle, no way is longer than there are fragments, each counted twice. */
  lemma AcyclicIsShort(doc: Document)
    requires Defined(doc) && Acyclic(doc)
    ensures Short(doc.fragments, doc.top, true, |Nodes(doc.fragments)|)
  {
    forall p | Walk(doc.fragments, doc.top, true, p) ensures |p| <= |Nodes(doc.fragments)| && Last(p).fragment in doc.fragments {
      forall i | 0 <= i < |p| ensures p[i] in Nodes(doc.fragments) {
        PartIsChain(doc.fragments, p, 0, i + 1);
        assert p[..i + 1] == p[0..i + 1];
        assert Walk(doc.fragments, doc.top, true, p[..i + 1]) && Last(p[..i + 1]) == p[i];
      }
      WalkIsDistinct(doc, p);
      DistinctFits(p, Nodes(doc.fragments));
    }
  }

  lemma ResolvableIsAcyclic(doc: Document)
    requires Resolvable(doc)
    ensures Defined(doc) && Acyclic(doc)
  {
    var n :| Resolves(doc.fragments, doc.top, n, true);
    forall p | Walk(doc.fragments, doc.top, true, p) ensures |p| <= n && Last(p).fragment in doc.fragments {
      WalkIsShort(doc.fragments, doc.top, n, true, p);
    }
    forall p, q | Walk(doc.fragments, doc.top, true, p) && Cycle(doc.fragments, q) ensures q[0] != Last(p) {
      if q[0] == Last(p) {
        var long := GoOnAndOn(doc.fragments, doc.top, true, p, q, n);
      }
    }
  }

  /** A document inlines exactly when every fragment it reaches is defined and none of them can be reached from itself. */
  lemma InlinesIffAcyclic(doc: Document)
    ensures InlineDocument(doc).Some? <==> Defined(doc) && Acyclic(doc)
  {
    InlinesIffResolvable(doc);
    if Resolvable(doc) {
      ResolvableIsAcyclic(doc);
    }
    if Defined(doc) && Acyclic(doc) {
      AcyclicIsShort(doc);
      ShortResolves(doc.fragments, doc.top, |Nodes(doc.fragments)|, true);
    }
  }
}
