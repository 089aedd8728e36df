/** Which classes an algorithm's constructors ask for, and which of these edges an execution tree can hold. */
module ConstructorGraph {
  import opened Collections
  import opened Text

  /** A constructor parameter's annotation: a string, an object without a name (such as a union), or a class. */
  datatype Annotation = Quoted(text: string) | Nameless | Typed(name: string)

  /**
   * Constructors by class name, the algorithm's own under `root`; `deps` is what the filters leave of their parameters,
   * and a rank makes acyclicity explicit.
   */
  datatype Graph = Graph(root: string, params: map<string, seq<Annotation>>, deps: map<string, seq<string>>,
                         rank: map<string, nat>, lower: string -> string, upper: string -> string)

  predicate IsInputObject(g: Graph, a: Annotation) {
    a.Typed? && (Contains(g.lower(a.name), "processor") || Contains(g.lower(a.name), "reader"))
  }

  function Inputs(g: Graph, ps: seq<Annotation>): seq<string> {
    if ps == [] then []
    else (if IsInputObject(g, ps[0]) then [ps[0].name] else []) + Inputs(g, ps[1..])
  }

  /** The algorithm's own parameters pass another filter. */
  function Processors(ps: seq<Annotation>): seq<string> {
    if ps == [] then []
    else (if ps[0].Typed? && Contains(ps[0].name, "Processor") then [ps[0].name] else []) + Processors(ps[1..])
  }

  function Filtered(g: Graph, n: string): seq<string>
    requires n in g.params
  {
    if n == g.root then Processors(g.params[n]) else Inputs(g, g.params[n])
  }

  ghost predicate IsFiltered(g: Graph, n: string)
    requires n in g.params && n in g.deps
  {
    g.deps[n] == Filtered(g, n)
  }

  lemma {:induction false} InputsAre(g: Graph, ps: seq<Annotation>, d: string)
    ensures d in Inputs(g, ps) <==> exists a :: a in ps && a == Typed(d) && IsInputObject(g, a)
  {
    if ps != [] {
      InputsAre(g, ps[1..], d);
      assert ps == [ps[0]] + ps[1..];
    }
  }

  lemma {:induction false} ProcessorsAre(ps: seq<Annotation>, d: string)
    ensures d in Processors(ps) <==> Typed(d) in ps && Contains(d, "Processor")
  {
    if ps != [] {
      ProcessorsAre(ps[1..], d);
      assert ps == [ps[0]] + ps[1..];
    }
  }

  /**
   * The dependents of a class are its annotated parameters that name a processor or a reader, in any case; for the
   * algorithm they are those that name a `Processor`, in this case only. Quoted annotations never count.
   */
  lemma DependentsAre(g: Graph, n: string, d: string)
    requires ValidGraph(g) && n in g.params
    ensures n == g.root ==> (d in g.deps[n] <==> Typed(d) in g.params[n] && Contains(d, "Processor"))
    ensures n != g.root ==>
              (d in g.deps[n] <==>
                 Typed(d) in g.params[n] && (Contains(g.lower(d), "processor") || Contains(g.lower(d), "reader")))
  {
    assert IsFiltered(g, n);
    InputsAre(g, g.params[n], d);
    ProcessorsAre(g.params[n], d);
  }

  ghost predicate DependentsBelow(g: Graph, n: string)
    requires n in g.deps && g.params.Keys == g.rank.Keys && n in g.rank
  {
    forall d :: d in g.deps[n] ==> d in g.params && d != g.root && g.rank[d] < g.rank[n]
  }

  ghost predicate ValidGraph(g: Graph) {
    && g.root in g.params && g.params.Keys == g.rank.Keys == g.deps.Keys
    && (forall n {:trigger IsFiltered(g, n)} :: n in g.params ==> IsFiltered(g, n))
    && forall n {:trigger DependentsBelow(g, n)} :: n in g.params ==> DependentsBelow(g, n)
  }

  /** The filters read every annotation's `__name__`; for the algorithm even a string's, which has none. */
  predicate Inspectable(g: Graph, n: string)
    requires n in g.params
  {
    if n == g.root then forall a :: a in g.params[n] ==> a.Typed?
    else Nameless !in g.params[n]
  }

  // ----- Children are kept under lower-cased names: of those that collide the last one wins -----

  function NameMap(g: Graph, deps: seq<string>): map<string, string> {
    if deps == [] then map[]
    else
      var last := deps[|deps| - 1];
      NameMap(g, deps[..|deps| - 1])[g.lower(last) := last]
  }

  ghost function Kept(g: Graph, deps: seq<string>): set<string> {
    NameMap(g, deps).Values
  }

  ghost predicate LowerDistinct(g: Graph, deps: seq<string>) {
    forall d, e :: d in deps && e in deps && g.lower(d) == g.lower(e) ==> d == e
  }

  lemma {:induction false} NameMapIs(g: Graph, deps: seq<string>)
    ensures forall d :: d in deps ==> g.lower(d) in NameMap(g, deps)
    ensures forall k :: k in NameMap(g, deps) ==> NameMap(g, deps)[k] in deps && g.lower(NameMap(g, deps)[k]) == k
  {
    if deps != [] {
      var init, last := deps[..|deps| - 1], deps[|deps| - 1];
      NameMapIs(g, init);
      assert deps == init + [last];
    }
  }

  /** Of the dependents whose lower-cased names collide the last one is kept, and no other. */
  lemma {:induction false} LastNameIsKept(g: Graph, deps: seq<string>, i: nat)
    requires i < |deps| && forall j :: i < j < |deps| ==> g.lower(deps[j]) != g.lower(deps[i])
    ensures g.lower(deps[i]) in NameMap(g, deps) && NameMap(g, deps)[g.lower(deps[i])] == deps[i]
    ensures deps[i] in Kept(g, deps)
    ensures forall d :: d in Kept(g, deps) && g.lower(d) == g.lower(deps[i]) ==> d == deps[i]
  {
    if i < |deps| - 1 {
      LastNameIsKept(g, deps[..|deps| - 1], i);
    }
    NameMapIs(g, deps);
  }

  /** Nothing is lost exactly when different dependents have different lower-cased names. */
  lemma KeptAllIff(g: Graph, deps: seq<string>)
    ensures Kept(g, deps) <= Elements(deps)
    ensures Kept(g, deps) == Elements(deps) <==> LowerDistinct(g, deps)
  {
    NameMapIs(g, deps);
    var m := NameMap(g, deps);
    if LowerDistinct(g, deps) {
      forall d | d in deps
        ensures d in Kept(g, deps)
      {
        assert m[g.lower(d)] == d;
      }
    }
    if Kept(g, deps) == Elements(deps) {
      forall d, e | d in deps && e in deps && g.lower(d) == g.lower(e)
        ensures d == e
      {
        assert d in Elements(deps) && e in Elements(deps);
        var k :| k in m && m[k] == d;
        var l :| l in m && m[l] == e;
      }
    }
  }

  // ----- Edges reachable from a class, under any choice of successors -----

  type Next = map<string, set<string>>
  type Edge = (string, string)

  ghost predicate Ranked(next: Next, rank: map<string, nat>) {
    forall n, d :: n in next && d in next[n] ==> d in next && n in rank && d in rank && rank[d] < rank[n]
  }

  ghost function EdgesFrom(next: Next, rank: map<string, nat>, n: string): set<Edge>
    requires Ranked(next, rank) && n in next
    decreases if n in rank then rank[n] else 0
  {
    (set d | d in next[n] :: (n, d)) + (set d, e | d in next[n] && e in EdgesFrom(next, rank, d) :: e)
  }

  ghost predicate IsPath(next: Next, p: seq<string>) {
    p != [] && forall i :: 0 <= i < |p| - 1 ==> p[i] in next && p[i + 1] in next[p[i]]
  }

  ghost predicate Reaches(next: Next, a: string, b: string) {
    exists p :: IsPath(next, p) && p[0] == a && p[|p| - 1] == b
  }

  lemma {:induction false} EdgeGivesPath(next: Next, rank: map<string, nat>, n: string, e: Edge)
    requires Ranked(next, rank) && n in next && e in EdgesFrom(next, rank, n)
    ensures e.0 in next && e.1 in next[e.0] && e.1 in next && Reaches(next, n, e.0)
    decreases if n in rank then rank[n] else 0
  {
    if e.0 == n && e.1 in next[n] {
      assert IsPath(next, [n]);
    } else {
      var d :| d in next[n] && e in EdgesFrom(next, rank, d);
      EdgeGivesPath(next, rank, d, e);
      var p :| IsPath(next, p) && p[0] == d && p[|p| - 1] == e.0;
      var q := [n] + p;
      assert IsPath(next, q) && q[0] == n && q[|q| - 1] == e.0;
    }
  }

  lemma {:induction false} PathGivesEdge(next: Next, rank: map<string, nat>, p: seq<string>, d: string)
    requires Ranked(next, rank) && IsPath(next, p) && p[|p| - 1] in next && d in next[p[|p| - 1]]
    ensures p[0] in next && (p[|p| - 1], d) in EdgesFrom(next, rank, p[0])
  {
    if |p| > 1 {
      assert p[0] in next && p[1] in next[p[0]];
      PathGivesEdge(next, rank, p[1..], d);
    }
  }

  /** The recursive edge set is what paths say it is. */
  lemma EdgesIffReached(next: Next, rank: map<string, nat>, n: string, e: Edge)
    requires Ranked(next, rank) && n in next
    ensures e in EdgesFrom(next, rank, n) <==> Reaches(next, n, e.0) && e.0 in next && e.1 in next[e.0]
  {
    if e in EdgesFrom(next, rank, n) {
      EdgeGivesPath(next, rank, n, e);
    }
    if Reaches(next, n, e.0) && e.0 in next && e.1 in next[e.0] {
      var p :| IsPath(next, p) && p[0] == n && p[|p| - 1] == e.0;
      PathGivesEdge(next, rank, p, e.1);
    }
  }

  // ----- The edges a tree holds, and all the edges there are -----

  ghost function KeptNext(g: Graph): Next {
    map n | n in g.deps :: Kept(g, g.deps[n])
  }

  ghost function FullNext(g: Graph): Next {
    map n | n in g.deps :: Elements(g.deps[n])
  }

  lemma KeptIsSubset(g: Graph)
    requires ValidGraph(g)
    ensures forall n :: n in g.params ==> KeptNext(g)[n] <= FullNext(g)[n]
  {
    forall n | n in g.params
      ensures KeptNext(g)[n] <= FullNext(g)[n]
    {
      KeptAllIff(g, g.deps[n]);
    }
  }

  lemma SmallerIsRanked(next: Next, smaller: Next, rank: map<string, nat>)
    requires Ranked(next, rank) && smaller.Keys == next.Keys
    requires forall n :: n in next ==> smaller[n] <= next[n]
    ensures Ranked(smaller, rank)
  {
    forall n, d | n in smaller && d in smaller[n]
      ensures d in smaller && n in rank && d in rank && rank[d] < rank[n]
    {
      assert n in next && d in next[n];
    }
  }

  lemma FullIsRanked(g: Graph)
    requires ValidGraph(g)
    ensures Ranked(FullNext(g), g.rank)
  {
    forall n, d | n in FullNext(g) && d in FullNext(g)[n]
      ensures d in FullNext(g) && n in g.rank && d in g.rank && g.rank[d] < g.rank[n]
    {
      assert DependentsBelow(g, n);
    }
  }

  lemma BothRanked(g: Graph)
    requires ValidGraph(g)
    ensures Ranked(KeptNext(g), g.rank) && Ranked(FullNext(g), g.rank)
    ensures forall n :: n in g.params ==> KeptNext(g)[n] <= FullNext(g)[n]
  {
    KeptIsSubset(g);
    FullIsRanked(g);
    SmallerIsRanked(FullNext(g), KeptNext(g), g.rank);
  }

  ghost function TreeEdges(g: Graph): set<Edge>
    requires ValidGraph(g)
  {
    BothRanked(g);
    EdgesFrom(KeptNext(g), g.rank, g.root)
  }

  lemma TreeEdgeNames(g: Graph, e: Edge)
    requires ValidGraph(g) && e in TreeEdges(g)
    ensures e.0 in g.params && e.1 in g.params
  {
    BothRanked(g);
    EdgeGivesPath(KeptNext(g), g.rank, g.root, e);
  }

  ghost function DependencyEdges(g: Graph): set<Edge>
    requires ValidGraph(g)
  {
    BothRanked(g);
    EdgesFrom(FullNext(g), g.rank, g.root)
  }

  lemma PathPrefix(next: Next, p: seq<string>, i: int)
    requires IsPath(next, p) && 0 <= i < |p|
    ensures Reaches(next, p[0], p[i])
  {
    var q := p[..i + 1];
    assert IsPath(next, q) && q[0] == p[0] && q[|q| - 1] == p[i];
  }

  lemma KeptPathIsFull(g: Graph, a: string, b: string)
    requires ValidGraph(g) && Reaches(KeptNext(g), a, b)
    ensures Reaches(FullNext(g), a, b)
  {
    BothRanked(g);
    var p :| IsPath(KeptNext(g), p) && p[0] == a && p[|p| - 1] == b;
    assert IsPath(FullNext(g), p);
  }

  ghost predicate NoCollisions(g: Graph)
    requires ValidGraph(g)
  {
    forall n :: n in g.params && Reaches(FullNext(g), g.root, n) ==> LowerDistinct(g, g.deps[n])
  }

  lemma FullPathIsKept(g: Graph, b: string)
    requires ValidGraph(g) && NoCollisions(g) && Reaches(FullNext(g), g.root, b)
    ensures Reaches(KeptNext(g), g.root, b)
  {
    var p :| IsPath(FullNext(g), p) && p[0] == g.root && p[|p| - 1] == b;
    forall i | 0 <= i < |p| - 1
      ensures p[i] in KeptNext(g) && p[i + 1] in KeptNext(g)[p[i]]
    {
      PathPrefix(FullNext(g), p, i);
      KeptAllIff(g, g.deps[p[i]]);
    }
    assert IsPath(KeptNext(g), p);
  }

  /** The walk from `n` meets no annotation that its filter cannot read. */
  ghost predicate Readable(g: Graph, n: string) {
    forall m {:trigger Reaches(FullNext(g), n, m)} :: m in g.params && Reaches(FullNext(g), n, m) ==> Inspectable(g, m)
  }

  lemma ReachesStep(next: Next, n: string, d: string, m: string)
    requires n in next && d in next[n] && Reaches(next, d, m)
    ensures Reaches(next, n, m)
  {
    var p :| IsPath(next, p) && p[0] == d && p[|p| - 1] == m;
    var q := [n] + p;
    assert IsPath(next, q) && q[0] == n && q[|q| - 1] == m;
  }

  lemma ReachesSplit(next: Next, n: string, m: string)
    requires Reaches(next, n, m) && n != m
    ensures n in next && exists d :: d in next[n] && Reaches(next, d, m)
  {
    var p :| IsPath(next, p) && p[0] == n && p[|p| - 1] == m;
    var q := p[1..];
    assert p[0] in next && p[1] in next[p[0]];
    assert IsPath(next, q) && q[0] == p[1] && q[|q| - 1] == m;
  }

  /** What the recursive walk establishes, one class at a time. */
  lemma ReadableIff(g: Graph, n: string)
    requires ValidGraph(g) && n in g.params
    ensures Readable(g, n) <==> Inspectable(g, n) && forall d :: d in g.deps[n] ==> Readable(g, d)
  {
    var next := FullNext(g);
    if Readable(g, n) {
      assert IsPath(next, [n]) && Reaches(FullNext(g), n, n);
      forall d, m | d in g.deps[n] && m in g.params && Reaches(FullNext(g), d, m)
        ensures Inspectable(g, m)
      {
        ReachesStep(next, n, d, m);
      }
    } else {
      var m :| m in g.params && Reaches(FullNext(g), n, m) && !Inspectable(g, m);
      if n != m {
        ReachesSplit(next, n, m);
        var d :| d in next[n] && Reaches(next, d, m);
        assert d in g.deps[n] && !Readable(g, d);
      }
    }
  }

  /** The whole walk of an algorithm, annotation by annotation. */
  lemma WalkReads(g: Graph)
    requires ValidGraph(g)
    ensures Readable(g, g.root) <==>
              && (forall a :: a in g.params[g.root] ==> a.Typed?)
              && (forall n :: n in g.params && n != g.root && Reaches(FullNext(g), g.root, n) ==>
                    Nameless !in g.params[n])
  {
    assert IsPath(FullNext(g), [g.root]) && Reaches(FullNext(g), g.root, g.root);
  }

  ghost predicate AllIn(deps: seq<string>, readable: set<string>) {
    deps == [] || (AllIn(deps[..|deps| - 1], readable) && deps[|deps| - 1] in readable)
  }

  lemma {:induction false} AllInIff(deps: seq<string>, readable: set<string>)
    ensures AllIn(deps, readable) <==> forall d :: d in deps ==> d in readable
  {
    if deps != [] {
      AllInIff(deps[..|deps| - 1], readable);
      assert deps == deps[..|deps| - 1] + [deps[|deps| - 1]];
    }
  }

  lemma AllInHas(deps: seq<string>, i: nat, readable: set<string>)
    requires i < |deps| && deps[i] !in readable
    ensures !AllIn(deps, readable)
  {
    AllInIff(deps, readable);
  }

  lemma AllInStep(deps: seq<string>, i: nat, readable: set<string>)
    requires i < |deps| && AllIn(deps[..i], readable) && deps[i] in readable
    ensures AllIn(deps[..i + 1], readable)
  {
    assert deps[..i + 1][..i] == deps[..i];
  }

  ghost predicate ReadsAt(g: Graph, readable: set<string>, n: string)
    requires n in g.params && n in g.deps
  {
    n in readable <==> Inspectable(g, n) && AllIn(g.deps[n], readable)
  }

  ghost predicate IsReadableSet(g: Graph, readable: set<string>)
    requires ValidGraph(g)
  {
    forall n {:trigger ReadsAt(g, readable, n)} :: n in g.params ==> ReadsAt(g, readable, n)
  }

  lemma ReadableSet(g: Graph) returns (readable: set<string>)
    requires ValidGraph(g)
    ensures IsReadableSet(g, readable)
    ensures forall n :: n in readable <==> n in g.params && Readable(g, n)
  {
    readable := set n | n in g.params && Readable(g, n);
    forall n | n in g.params
      ensures ReadsAt(g, readable, n)
    {
      ReadableIff(g, n);
      AllInIff(g.deps[n], readable);
      assert DependentsBelow(g, n);
    }
  }

  /** A tree never shows an edge that is no dependency. */
  lemma TreeEdgesAreDependencies(g: Graph)
    requires ValidGraph(g)
    ensures TreeEdges(g) <= DependencyEdges(g)
  {
    BothRanked(g);
    forall e | e in TreeEdges(g)
      ensures e in DependencyEdges(g)
    {
      EdgesIffReached(KeptNext(g), g.rank, g.root, e);
      KeptPathIsFull(g, g.root, e.0);
      EdgesIffReached(FullNext(g), g.rank, g.root, e);
    }
  }

  lemma NothingLost(g: Graph)
    requires ValidGraph(g) && NoCollisions(g)
    ensures DependencyEdges(g) <= TreeEdges(g)
  {
    BothRanked(g);
    forall e | e in DependencyEdges(g)
      ensures e in TreeEdges(g)
    {
      EdgesIffReached(FullNext(g), g.rank, g.root, e);
      FullPathIsKept(g, e.0);
      KeptAllIff(g, g.deps[e.0]);
      EdgesIffReached(KeptNext(g), g.rank, g.root, e);
    }
  }

  lemma DependentIsKept(g: Graph, n: string, d: string)
    requires ValidGraph(g) && DependencyEdges(g) <= TreeEdges(g)
    requires n in g.params && Reaches(FullNext(g), g.root, n) && d in g.deps[n]
    ensures d in Kept(g, g.deps[n])
  {
    BothRanked(g);
    EdgesIffReached(FullNext(g), g.rank, g.root, (n, d));
    EdgesIffReached(KeptNext(g), g.rank, g.root, (n, d));
  }

  lemma CompleteHasNoCollision(g: Graph, n: string)
    requires ValidGraph(g) && DependencyEdges(g) <= TreeEdges(g)
    requires n in g.params && Reaches(FullNext(g), g.root, n)
    ensures LowerDistinct(g, g.deps[n])
  {
    forall d | d in g.deps[n]
      ensures d in Kept(g, g.deps[n])
    {
      DependentIsKept(g, n, d);
    }
    KeptAllIff(g, g.deps[n]);
  }

  /** It shows every dependency edge exactly when no reachable class asks for two classes that differ in case only. */
  lemma TreeIsCompleteIff(g: Graph)
    requires ValidGraph(g)
    ensures TreeEdges(g) == DependencyEdges(g) <==> NoCollisions(g)
  {
    TreeEdgesAreDependencies(g);
    if NoCollisions(g) {
      NothingLost(g);
    }
    if TreeEdges(g) == DependencyEdges(g) {
      forall n | n in g.params && Reaches(FullNext(g), g.root, n)
        ensures LowerDistinct(g, g.deps[n])
      {
        CompleteHasNoCollision(g, n);
      }
    }
  }

  // ----- The text of an edge, and how to read it back -----

  const ARROW := " --> "

  function MermaidNode(g: Graph, n: string): string {
    g.upper(n) + "[\"" + n + "\"]"
  }

  function EdgeLine(g: Graph, e: Edge): string {
    MermaidNode(g, e.0) + ARROW + MermaidNode(g, e.1)
  }

  /** Class names are identifiers, in either case: no blank, quote or newline. */
  predicate Plain(g: Graph, n: string) {
    forall c :: c in [' ', '"', '\n'] ==> c !in n && c !in g.upper(n)
  }

  ghost predicate PlainNames(g: Graph) {
    forall n :: n in g.params ==> Plain(g, n)
  }

  /**
   * A line that draws an edge, cut at its quotes: each node is its upper-cased name as the id, and its name as the
   * label, and the arrow stands between them.
   */
  function Parse(g: Graph, line: string): Option<Edge> {
    var parts := SplitOn(line, '"');
    if |parts| == 5 && parts[0] == g.upper(parts[1]) + "[" && parts[2] == "] --> " + g.upper(parts[3]) + "[" &&
       parts[4] == "]"
    then Some((parts[1], parts[3])) else None
  }

  function ParsedEdges(g: Graph, text: string): set<Edge> {
    set l | l in SplitOn(text, '\n') && Parse(g, l).Some? :: Parse(g, l).value
  }

  lemma ParseEdgeLine(g: Graph, e: Edge)
    requires Plain(g, e.0) && Plain(g, e.1)
    ensures Parse(g, EdgeLine(g, e)) == Some(e)
  {
    var q := '"';
    var parts := [g.upper(e.0) + "[", e.0, "]" + ARROW + g.upper(e.1) + "[", e.1, "]"];
    JoinFive(parts[0], parts[1], parts[2], parts[3], parts[4], q);
    assert EdgeLine(g, e) == parts[0] + [q] + (parts[1] + [q] + (parts[2] + [q] + (parts[3] + [q] + parts[4])));
    SplitJoin(parts, q);
    SplitAllPlain(parts, q);
    assert parts[2] == "] --> " + g.upper(e.1) + "[";
  }

  lemma EdgeLineIsOneLine(g: Graph, e: Edge)
    requires Plain(g, e.0) && Plain(g, e.1)
    ensures SplitOn(EdgeLine(g, e), '\n') == [EdgeLine(g, e)] && Contains(EdgeLine(g, e), ARROW)
  {
    assert '\n' !in MermaidNode(g, e.0) && '\n' !in MermaidNode(g, e.1) && '\n' !in ARROW;
    SplitPlain(EdgeLine(g, e), '\n');
    ContainsMiddle(MermaidNode(g, e.0), ARROW, MermaidNode(g, e.1));
  }

  lemma NodeIsNoEdge(g: Graph, n: string)
    requires Plain(g, n)
    ensures SplitOn(MermaidNode(g, n), '\n') == [MermaidNode(g, n)] && !Contains(MermaidNode(g, n), ARROW)
  {
    assert '\n' !in MermaidNode(g, n) && ' ' !in MermaidNode(g, n);
    SplitPlain(MermaidNode(g, n), '\n');
    LacksSubstring(MermaidNode(g, n), ARROW, 0);
  }
}
