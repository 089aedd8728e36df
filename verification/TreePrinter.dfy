/** Printing an execution tree as flowchart text, and reading its edges back. */
module TreePrinter {
  import opened Collections
  import opened Text
  import opened ConstructorGraph
  import opened Trees

  ghost function ArrowLines(text: string): set<string> {
    set l | l in SplitOn(text, '\n') && Contains(l, ARROW)
  }

  ghost function ArrowLinesOf(parts: set<string>): set<string> {
    set p, l | p in parts && l in ArrowLines(p) :: l
  }

  ghost function EdgeLines(g: Graph, edges: set<Edge>): set<string> {
    set e | e in edges :: EdgeLine(g, e)
  }

  /** Joining texts joins their lines. */
  lemma JoinedArrowLines(parts: seq<string>)
    requires parts != []
    ensures ArrowLines(Join(parts, '\n')) == ArrowLinesOf(Elements(parts))
  {
    SplitJoin(parts, '\n');
    forall l
      ensures l in ArrowLines(Join(parts, '\n')) <==> l in ArrowLinesOf(Elements(parts))
    {
      SplitAllHas(parts, '\n', l);
      if l in ArrowLines(Join(parts, '\n')) {
        var p :| p in parts && l in SplitOn(p, '\n');
        assert p in Elements(parts) && l in ArrowLines(p);
      }
    }
  }

  lemma ArrowLinesGrow(parts: set<string>, p: string)
    ensures ArrowLinesOf(parts + {p}) == ArrowLinesOf(parts) + ArrowLines(p)
  {
  }

  lemma EdgeArrowLine(g: Graph, e: Edge)
    requires Plain(g, e.0) && Plain(g, e.1)
    ensures ArrowLines(EdgeLine(g, e)) == EdgeLines(g, {e})
  {
    EdgeLineIsOneLine(g, e);
  }

  lemma NodeArrowLines(g: Graph, n: string)
    requires Plain(g, n)
    ensures ArrowLines(MermaidNode(g, n)) == {}
  {
    NodeIsNoEdge(g, n);
  }

  type Below = map<string, set<Edge>>

  /** The edges that the children `ds` contribute, given those below every class. */
  ghost function EdgesVia(n: string, ds: set<string>, below: Below): set<Edge>
    requires ds <= below.Keys
  {
    (set d | d in ds :: (n, d)) + (set d, e | d in ds && e in below[d] :: e)
  }

  lemma EdgesViaGrow(n: string, ds: set<string>, d: string, below: Below)
    requires ds <= below.Keys && d in below
    ensures EdgesVia(n, ds + {d}, below) == EdgesVia(n, ds, below) + {(n, d)} + below[d]
  {
  }

  ghost predicate StepsAt(next: Next, below: Below, n: string)
    requires n in next
  {
    n in below && next[n] <= below.Keys && below[n] == EdgesVia(n, next[n], below)
  }

  ghost predicate IsBelow(next: Next, below: Below) {
    below.Keys == next.Keys && forall n {:trigger StepsAt(next, below, n)} :: n in next ==> StepsAt(next, below, n)
  }

  lemma EdgesFromStep(next: Next, rank: map<string, nat>, n: string, below: Below)
    requires Ranked(next, rank) && n in next && next.Keys == below.Keys
    requires forall d :: d in next[n] ==> d in next && below[d] == EdgesFrom(next, rank, d)
    ensures next[n] <= below.Keys && EdgesFrom(next, rank, n) == EdgesVia(n, next[n], below)
  {
    forall e
      ensures e in EdgesFrom(next, rank, n) <==> e in EdgesVia(n, next[n], below)
    {
      if e in EdgesVia(n, next[n], below) && !(e.0 == n && e.1 in next[n]) {
        var d :| d in next[n] && e in below[d];
        assert e in EdgesFrom(next, rank, d);
      }
    }
  }

  /** The edges below each class, one level at a time. */
  lemma EdgesBelow(next: Next, rank: map<string, nat>) returns (below: Below)
    requires Ranked(next, rank)
    ensures IsBelow(next, below) && forall n :: n in next ==> below[n] == EdgesFrom(next, rank, n)
  {
    below := map n | n in next :: EdgesFrom(next, rank, n);
    forall n | n in next
      ensures StepsAt(next, below, n)
    {
      EdgesFromStep(next, rank, n, below);
    }
  }

  lemma EdgeLinesUnion(g: Graph, a: set<Edge>, b: set<Edge>)
    ensures EdgeLines(g, a + b) == EdgeLines(g, a) + EdgeLines(g, b)
  {
  }

  /** The lines of one more child: the edge to it, and its own text. */
  lemma ChildLines(g: Graph, n: string, ds: set<string>, d: string, below: Below, lines: seq<string>, text: string)
    requires ds <= below.Keys && d in below && Plain(g, n) && Plain(g, d)
    requires ArrowLinesOf(Elements(lines)) == EdgeLines(g, EdgesVia(n, ds, below))
    requires ArrowLines(text) == EdgeLines(g, below[d])
    ensures ArrowLinesOf(Elements(lines + [EdgeLine(g, (n, d))] + [text])) == EdgeLines(g, EdgesVia(n, ds + {d}, below))
  {
    var line, parts := EdgeLine(g, (n, d)), Elements(lines);
    assert Elements(lines + [line] + [text]) == parts + {line} + {text};
    ArrowLinesGrow(parts, line);
    ArrowLinesGrow(parts + {line}, text);
    EdgeArrowLine(g, (n, d));
    EdgesViaGrow(n, ds, d, below);
    EdgeLinesUnion(g, EdgesVia(n, ds, below), {(n, d)});
    EdgeLinesUnion(g, EdgesVia(n, ds, below) + {(n, d)}, below[d]);
  }

  /** The children whose keys were taken already. */
  ghost function Taken(names: map<string, string>, rest: set<string>): set<string> {
    set k | k in names && k !in rest :: names[k]
  }

  lemma TakenStep(names: map<string, string>, rest: set<string>, k: string)
    requires k in names && k in rest
    ensures Taken(names, rest - {k}) == Taken(names, rest) + {names[k]}
  {
  }

  lemma TakenEnds(names: map<string, string>)
    ensures Taken(names, names.Keys) == {} && Taken(names, {}) == names.Values
  {
  }

  /** `ExecutionTreeNode.serialize`: whatever the order of its lines, its edge lines are the edges below the node. */
  method SerializeNode(g: Graph, node: TreeNode, ghost nodes: Nodes, ghost below: Below) returns (text: string)
    requires ValidGraph(g) && PlainNames(g) && IsBelow(KeptNext(g), below)
    requires node.className in g.deps && Built(g, nodes, node)
    ensures ArrowLines(text) == EdgeLines(g, below[node.className])
    decreases g.rank[node.className], 1
  {
    var lines := SerializeChildren(g, node, nodes, below);
    if |node.children| == 0 {
      NodeArrowLines(g, node.className);
      return MermaidNode(g, node.className);
    }
    var ordered := AnyOrder(set l | l in lines);
    assert Elements(ordered) == Elements(lines) && lines[0] in ordered;
    JoinedArrowLines(ordered);
    text := Join(ordered, '\n');
  }

  lemma ChildIsBuilt(g: Graph, nodes: Nodes, node: TreeNode, k: string)
    requires ValidGraph(g) && node.className in g.deps && Built(g, nodes, node) && k in node.children
    ensures var names := NameMap(g, g.deps[node.className]);
            var child := node.children[k];
            && k in names && child.className == names[k] && child.className in g.deps
            && g.rank[child.className] < g.rank[node.className] && Built(g, nodes, child)
  {
    NameMapIs(g, g.deps[node.className]);
    assert DependentsBelow(g, node.className);
    assert Complete(g, nodes, Kids(nodes), node.children[k].className);
  }

  /** The loop of `serialize`: for each child the edge to it, and its own text. */
  method SerializeChildren(g: Graph, node: TreeNode, ghost nodes: Nodes,
                           ghost below: Below) returns (lines: seq<string>)
    requires ValidGraph(g) && PlainNames(g) && IsBelow(KeptNext(g), below)
    requires node.className in g.deps && Built(g, nodes, node)
    ensures ArrowLinesOf(Elements(lines)) == EdgeLines(g, below[node.className])
    ensures lines == [] <==> |node.children| == 0
    decreases g.rank[node.className], 0
  {
    var n := node.className;
    ghost var names := NameMap(g, g.deps[n]);
    assert StepsAt(KeptNext(g), below, n);
    lines := [];
    var rest := node.children.Keys;
    TakenEnds(names);
    while rest != {}
      invariant rest <= names.Keys && Taken(names, rest) <= below.Keys
      invariant ArrowLinesOf(Elements(lines)) == EdgeLines(g, EdgesVia(n, Taken(names, rest), below))
      invariant lines == [] <==> rest == names.Keys
    {
      var k :| k in rest;
      ChildIsBuilt(g, nodes, node, k);
      var child := node.children[k];
      var text := SerializeNode(g, child, nodes, below);
      ChildLines(g, n, Taken(names, rest), child.className, below, lines, text);
      TakenStep(names, rest, k);
      lines := lines + [EdgeLine(g, (n, child.className))] + [text];
      rest := rest - {k};
    }
  }

  // ----- The whole text -----

  ghost predicate PlainEdges(g: Graph, edges: set<Edge>) {
    forall e :: e in edges ==> Plain(g, e.0) && Plain(g, e.1)
  }

  lemma TreeEdgesArePlain(g: Graph)
    requires ValidGraph(g) && PlainNames(g)
    ensures PlainEdges(g, TreeEdges(g))
  {
    var edges := TreeEdges(g);
    forall e | e in edges
      ensures Plain(g, e.0) && Plain(g, e.1)
    {
      TreeEdgeNames(g, e);
    }
  }

  lemma EdgeLinesDiffer(g: Graph, e: Edge, f: Edge)
    requires Plain(g, e.0) && Plain(g, e.1) && Plain(g, f.0) && Plain(g, f.1)
    ensures EdgeLine(g, e) == EdgeLine(g, f) ==> e == f
  {
    ParseEdgeLine(g, e);
    ParseEdgeLine(g, f);
  }

  /** Different edges have different lines. */
  lemma {:induction false} EdgeLinesSize(g: Graph, edges: set<Edge>)
    requires PlainEdges(g, edges)
    ensures |EdgeLines(g, edges)| == |edges|
  {
    if edges == {} {
      assert EdgeLines(g, edges) == {};
    } else {
      var e :| e in edges;
      var others := edges - {e};
      EdgeLinesSize(g, others);
      forall f | f in others
        ensures EdgeLine(g, f) != EdgeLine(g, e)
      {
        EdgeLinesDiffer(g, e, f);
      }
      assert EdgeLines(g, edges) == EdgeLines(g, others) + {EdgeLine(g, e)};
    }
  }

  /** Below its header a text has one line for each edge, or an empty one if there are none. */
  ghost predicate OneLineEach(g: Graph, text: string, edges: set<Edge>) {
    var lines := SplitOn(text, '\n');
    && lines[0] == "graph TB"
    && (edges == {} ==> lines == ["graph TB", ""])
    && (edges != {} ==> |lines| == 1 + |edges| && forall i :: 1 <= i < |lines| ==> Parse(g, lines[i]).Some?)
  }

  const HEADER := "graph TB"

  function TreeText(ordered: seq<string>): string {
    Join([HEADER, Join(ordered, '\n')], '\n')
  }

  lemma TextLines(ordered: seq<string>)
    requires forall l :: l in ordered ==> '\n' !in l
    ensures SplitOn(TreeText(ordered), '\n') == [HEADER] + if ordered == [] then [""] else ordered
  {
    var body := Join(ordered, '\n');
    assert [HEADER, body][1..] == [body];
    assert Join([body], '\n') == body;
    assert TreeText(ordered) == HEADER + ['\n'] + body;
    SplitConcat(HEADER, body, '\n');
    SplitPlain(HEADER, '\n');
    if ordered != [] {
      SplitJoin(ordered, '\n');
      SplitAllPlain(ordered, '\n');
    }
  }

  lemma LinesAreOneEach(g: Graph, edges: set<Edge>, ordered: seq<string>)
    requires PlainEdges(g, edges) && Distinct(ordered) && Elements(ordered) == EdgeLines(g, edges)
    requires forall l :: l in ordered ==> '\n' !in l
    ensures OneLineEach(g, TreeText(ordered), edges)
  {
    TextLines(ordered);
    DistinctSize(ordered);
    EdgeLinesSize(g, edges);
    forall i | 0 <= i < |ordered|
      ensures Parse(g, ordered[i]).Some?
    {
      assert ordered[i] in Elements(ordered);
      var e :| e in edges && ordered[i] == EdgeLine(g, e);
      ParseEdgeLine(g, e);
    }
  }

  /** Parsing the lines of any edges gives the edges. */
  lemma TextParsesBack(g: Graph, edges: set<Edge>, ordered: seq<string>)
    requires PlainEdges(g, edges) && Elements(ordered) == EdgeLines(g, edges)
    requires forall l :: l in ordered ==> '\n' !in l
    ensures ParsedEdges(g, TreeText(ordered)) == edges
  {
    TextLines(ordered);
    SplitPlain(HEADER, '"');
    var lines := SplitOn(TreeText(ordered), '\n');
    forall l | l in lines && Parse(g, l).Some?
      ensures Parse(g, l).value in edges
    {
      assert l in Elements(ordered);
      var e :| e in edges && l == EdgeLine(g, e);
      ParseEdgeLine(g, e);
    }
    forall e | e in edges
      ensures EdgeLine(g, e) in lines && Parse(g, EdgeLine(g, e)) == Some(e)
    {
      ParseEdgeLine(g, e);
      assert EdgeLine(g, e) in EdgeLines(g, edges);
      assert EdgeLine(g, e) in ordered;
    }
  }

  lemma FilteredLines(g: Graph, edges: set<Edge>, whole: string, ordered: seq<string>)
    requires PlainEdges(g, edges) && ArrowLines(whole) == EdgeLines(g, edges)
    requires Distinct(ordered) && forall l :: l in ordered <==> l in ArrowLines(whole)
    ensures ParsedEdges(g, TreeText(ordered)) == edges
    ensures OneLineEach(g, TreeText(ordered), edges)
  {
    SplitHasNoSeparator(whole, '\n');
    assert Elements(ordered) == ArrowLines(whole);
    LinesAreOneEach(g, edges, ordered);
    TextParsesBack(g, edges, ordered);
  }

  /**
   * `ExecutionTree.serialize`: split the root's text, drop duplicates, keep the edge lines, in any order (sorted or
   * not).
   */
  method SerializeTree(g: Graph, root: TreeNode, ghost nodes: Nodes) returns (text: string)
    requires ValidGraph(g) && PlainNames(g) && root.className == g.root && Built(g, nodes, root)
    ensures ParsedEdges(g, text) == TreeEdges(g)
    ensures OneLineEach(g, text, TreeEdges(g))
  {
    BothRanked(g);
    ghost var below := EdgesBelow(KeptNext(g), g.rank);
    var whole := SerializeNode(g, root, nodes, below);
    var ordered := AnyOrder(set l | l in SplitOn(whole, '\n') && Contains(l, ARROW));
    text := TreeText(ordered);
    ghost var edges := TreeEdges(g);
    TreeEdgesArePlain(g);
    FilteredLines(g, edges, whole, ordered);
  }

  /**
   * Building and printing the tree of any algorithm. There is a text exactly when every annotation on the way can be
   * read: those of the algorithm must be classes, and no class below may have one without a name. Its lines draw the
   * edges of the tree, each of them once, from the upper-cased name of one class to that of the other; and these are
   * all the dependency edges exactly when no reachable class asks for two classes whose names differ in case only.
   */
  method PrintTree(g: Graph) returns (r: Option<string>)
    requires ValidGraph(g) && PlainNames(g)
    ensures r.Some? <==>
              && (forall a :: a in g.params[g.root] ==> a.Typed?)
              && (forall n :: n in g.params && n != g.root && Reaches(FullNext(g), g.root, n) ==>
                    Nameless !in g.params[n])
    ensures r.Some? ==> ParsedEdges(g, r.value) == TreeEdges(g) <= DependencyEdges(g)
    ensures r.Some? ==> OneLineEach(g, r.value, TreeEdges(g))
    ensures r.Some? ==> (ParsedEdges(g, r.value) == DependencyEdges(g) <==> NoCollisions(g))
  {
    WalkReads(g);
    var root, nodes := GetTree(g);
    if root.None? {
      return None;
    }
    var text := SerializeTree(g, root.value, nodes);
    TreeEdgesAreDependencies(g);
    TreeIsCompleteIff(g);
    r := Some(text);
  }
}
