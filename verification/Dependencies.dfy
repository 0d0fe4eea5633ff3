/** The depth-bounded walk of a package's dependency graph, and its completeness verdict. */
module Dependencies {

  type Id = string

  /** What reading a package gives: its linkage, that it is no package, or a failure. */
  datatype Reading = Linked(dependencies: seq<Id>) | NotAPackage | Failed

  /** One read of each package; the walk reads a package at most once. */
  type Reader = Id -> Reading

  /** A failed read has no out-edges. */
  function DependenciesOf(reading: Reading): set<Id> {
    if reading.Linked? then set d | d in reading.dependencies else {}
  }

  function Links(read: Reader, ids: set<Id>): set<Id> {
    set p, d | p in ids && d in DependenciesOf(read(p)) :: d
  }

  /** The packages at linkage distance at most `n` from the root. */
  function Within(read: Reader, root: Id, n: nat): set<Id> {
    if n == 0 then {root} else Within(read, root, n - 1) + Links(read, Within(read, root, n - 1))
  }

  ghost predicate Reachable(read: Reader, root: Id, id: Id) {
    exists n: nat :: id in Within(read, root, n)
  }

  lemma {:induction false} WithinGrows(read: Reader, root: Id, n: nat, m: nat)
    requires n <= m
    ensures Within(read, root, n) <= Within(read, root, m)
    decreases m - n
  {
    if n < m { WithinGrows(read, root, n, m - 1); }
  }

  /** Once nothing leads out, nothing further is reachable. */
  lemma {:induction false} ClosedStays(read: Reader, root: Id, n: nat, m: nat)
    requires Links(read, Within(read, root, n)) <= Within(read, root, n)
    ensures Within(read, root, m) <= Within(read, root, n)
    decreases m
  {
    if m > 0 {
      ClosedStays(read, root, n, m - 1);
    } else {
      WithinGrows(read, root, 0, n);
    }
  }

  /** `visited` holds the reading of each package it names. */
  predicate Records(read: Reader, visited: map<Id, Reading>) {
    forall p :: p in visited ==> visited[p] == read(p)
  }

  /** The packages the first `i` entries of `frontier` name. */
  function Named(frontier: seq<Id>, i: nat): set<Id>
    requires i <= |frontier|
  {
    set k | 0 <= k < i :: frontier[k]
  }

  /** The frontier is exactly where the links of the visited packages lead out, give or take packages already visited. */
  ghost predicate Bounds(read: Reader, visited: set<Id>, frontier: seq<Id>) {
    && Links(read, visited) <= visited + Named(frontier, |frontier|)
    && Named(frontier, |frontier|) <= Links(read, visited)
  }

  /** Partway through a level: the first `i` of the frontier are visited, and `next` leads on from them. */
  ghost predicate Midway(read: Reader, before: set<Id>, frontier: seq<Id>, i: nat, visited: map<Id, Reading>, next: seq<Id>, last: bool)
    requires i <= |frontier|
  {
    && Records(read, visited) && visited.Keys == before + Named(frontier, i)
    && (last ==> next == [])
    && (!last ==> Links(read, visited.Keys) <= Links(read, before) + Named(next, |next|))
    && Named(next, |next|) <= Links(read, visited.Keys)
  }

  lemma VisitOne(read: Reader, before: set<Id>, frontier: seq<Id>, i: nat, visited: map<Id, Reading>, next: seq<Id>, last: bool)
    requires i < |frontier| && Midway(read, before, frontier, i, visited, next, last)
    ensures var id := frontier[i];
      Midway(read, before, frontier, i + 1,
             if id in visited then visited else visited[id := read(id)],
             if id in visited || last || !read(id).Linked? then next else next + read(id).dependencies, last)
  {
    var id := frontier[i];
    assert Named(frontier, i + 1) == Named(frontier, i) + {id};
    if id !in visited {
      LinksMore(read, visited.Keys, id);
      assert visited[id := read(id)].Keys == visited.Keys + {id};
      if read(id).Linked? {
        NamedMore(next, read(id).dependencies);
      }
    }
  }

  /** One level: every package of the frontier not visited yet is read, and its linkage is the next frontier. */
  method Level(read: Reader, visited: map<Id, Reading>, frontier: seq<Id>, last: bool) returns (visited': map<Id, Reading>, next: seq<Id>)
    requires Records(read, visited) && Bounds(read, visited.Keys, frontier)
    ensures Records(read, visited') && visited'.Keys == visited.Keys + Links(read, visited.Keys)
    ensures !last ==> Bounds(read, visited'.Keys, next)
  {
    visited', next := visited, [];
    for i := 0 to |frontier|
      invariant Midway(read, visited.Keys, frontier, i, visited', next, last)
    {
      VisitOne(read, visited.Keys, frontier, i, visited', next, last);
      var id := frontier[i];
      if id !in visited' {
        var reading := read(id);
        visited' := visited'[id := reading];
        if !last && reading.Linked? {
          next := next + reading.dependencies;
        }
      }
    }
  }

  lemma LinksMore(read: Reader, ids: set<Id>, id: Id)
    ensures Links(read, ids + {id}) == Links(read, ids) + DependenciesOf(read(id))
  {
  }

  lemma NamedMore(a: seq<Id>, b: seq<Id>)
    ensures Named(a + b, |a + b|) == Named(a, |a|) + set d | d in b
  {
    forall d | d in b ensures d in Named(a + b, |a + b|) {
      var k :| 0 <= k < |b| && b[k] == d;
      assert (a + b)[|a| + k] == d;
    }
    forall d | d in Named(a, |a|) ensures d in Named(a + b, |a + b|) {
      var k :| 0 <= k < |a| && a[k] == d;
      assert (a + b)[k] == d;
    }
  }

  datatype Graph = Graph(nodes: map<Id, Reading>, unexpanded: set<Id>, remaining: set<Id>, complete: bool)

  /** The levels of the walk: what is visited is exactly what lies within the depth. */
  method WalkLevels(read: Reader, root: Id, maxDepth: nat) returns (visited: map<Id, Reading>)
    requires read(root).Linked?
    ensures Records(read, visited) && visited.Keys == Within(read, root, maxDepth)
  {
    visited := map[root := read(root)];
    var frontier := read(root).dependencies;
    var level := 1;
    RootBounds(read, root);
    while level <= maxDepth && frontier != []
      invariant 1 <= level <= maxDepth + 1 && Records(read, visited)
      invariant visited.Keys == Within(read, root, level - 1)
      invariant level <= maxDepth ==> Bounds(read, visited.Keys, frontier)
      decreases maxDepth - level
    {
      visited, frontier := Level(read, visited, frontier, level == maxDepth);
      level := level + 1;
    }
    if level <= maxDepth {
      ClosedEverywhere(read, root, level - 1, maxDepth);
    }
  }

  /** No graph for a root that is no package or cannot be read. */
  datatype Outcome = NoRoot | Drawn(graph: Graph)

  /**
   * The walk from `root` to depth `maxDepth`: it visits exactly the packages
   * within that distance, the branches it names as unexpanded are exactly
   * those one step further, and it calls the graph complete exactly when
   * every package reachable from the root was read without error.
   */
  method Walk(read: Reader, root: Id, maxDepth: nat) returns (o: Outcome)
    ensures o.NoRoot? <==> !read(root).Linked?
    ensures o.Drawn? ==> o.graph.nodes.Keys == Within(read, root, maxDepth) && Records(read, o.graph.nodes)
    ensures o.Drawn? ==> o.graph.unexpanded == Within(read, root, maxDepth + 1) - Within(read, root, maxDepth)
    ensures o.Drawn? ==> forall id :: id in o.graph.remaining <==> id in o.graph.unexpanded || (id in Within(read, root, maxDepth) && read(id).Failed?)
    ensures o.Drawn? ==> (o.graph.complete <==> AllReached(read, root, o.graph.nodes))
  {
    if !read(root).Linked? {
      return NoRoot;
    }
    var visited := WalkLevels(read, root, maxDepth);
    var unexpanded := LeadOut(visited);
    LeadOutAreLinks(read, visited);
    var remaining := unexpanded + FailedReads(visited);
    var complete := remaining == {} && AllLinked(visited);
    AllLinkedNoFailed(visited);
    Verdict(read, root, maxDepth, visited);
    o := Drawn(Graph(visited, unexpanded, remaining, complete));
  }

  function FailedReads(nodes: map<Id, Reading>): set<Id> {
    set p | p in nodes && nodes[p].Failed?
  }

  predicate AllLinked(nodes: map<Id, Reading>) {
    forall p :: p in nodes ==> nodes[p].Linked?
  }

  /** Linked packages that are not among the nodes. */
  function LeadOut(nodes: map<Id, Reading>): set<Id> {
    set p, d | p in nodes && d in DependenciesOf(nodes[p]) && d !in nodes :: d
  }

  lemma LeadOutAreLinks(read: Reader, nodes: map<Id, Reading>)
    requires Records(read, nodes)
    ensures LeadOut(nodes) == Links(read, nodes.Keys) - nodes.Keys
  {
  }

  lemma AllLinkedNoFailed(nodes: map<Id, Reading>)
    ensures AllLinked(nodes) ==> FailedReads(nodes) == {}
  {
  }

  lemma RootBounds(read: Reader, root: Id)
    requires read(root).Linked?
    ensures Bounds(read, {root}, read(root).dependencies)
  {
    var deps := read(root).dependencies;
    assert Links(read, {root}) == DependenciesOf(read(root));
    NamedMore([], deps);
    assert [] + deps == deps;
  }

  lemma ClosedEverywhere(read: Reader, root: Id, n: nat, m: nat)
    requires n <= m && Links(read, Within(read, root, n)) <= Within(read, root, n)
    ensures Within(read, root, m) == Within(read, root, n)
  {
    ClosedStays(read, root, n, m);
    WithinGrows(read, root, n, m);
  }

  /** Every package reachable from the root is among the nodes and was read. */
  ghost predicate AllReached(read: Reader, root: Id, nodes: map<Id, Reading>) {
    forall id :: Reachable(read, root, id) ==> id in nodes && read(id).Linked?
  }

  /** No branch leads out and every node was read: then that is so of everything reachable, and conversely. */
  lemma Verdict(read: Reader, root: Id, depth: nat, nodes: map<Id, Reading>)
    requires Records(read, nodes) && nodes.Keys == Within(read, root, depth)
    ensures LeadOut(nodes) == {} && AllLinked(nodes) <==> AllReached(read, root, nodes)
  {
    if LeadOut(nodes) == {} && AllLinked(nodes) {
      Forward(read, root, depth, nodes);
    }
    if AllReached(read, root, nodes) {
      Converse(read, root, depth, nodes);
    }
  }

  lemma Forward(read: Reader, root: Id, depth: nat, nodes: map<Id, Reading>)
    requires Records(read, nodes) && nodes.Keys == Within(read, root, depth)
    requires LeadOut(nodes) == {} && AllLinked(nodes)
    ensures AllReached(read, root, nodes)
  {
    LeadOutAreLinks(read, nodes);
    forall d | d in Links(read, nodes.Keys) ensures d in nodes.Keys {
      assert d !in LeadOut(nodes);
    }
    forall id | Reachable(read, root, id) ensures id in nodes {
      var n: nat :| id in Within(read, root, n);
      ClosedStays(read, root, depth, n);
    }
  }

  lemma Converse(read: Reader, root: Id, depth: nat, nodes: map<Id, Reading>)
    requires Records(read, nodes) && nodes.Keys == Within(read, root, depth)
    requires AllReached(read, root, nodes)
    ensures LeadOut(nodes) == {} && AllLinked(nodes)
  {
    forall p | p in nodes ensures nodes[p].Linked? {
      assert p in Within(read, root, depth) && Reachable(read, root, p);
    }
    LeadOutAreLinks(read, nodes);
    forall d | d in Links(read, nodes.Keys) ensures d in nodes {
      assert d in Within(read, root, depth + 1) && Reachable(read, root, d);
    }
  }
}
