/** Building an execution tree over shared nodes. */
module Trees {
  import opened Collections
  import opened ConstructorGraph

  class TreeNode {
    const className: string
    var children: map<string, TreeNode>

    constructor (name: string)
      ensures className == name && children == map[]
    {
      className, children := name, map[];
    }

    method AddChild(g: Graph, child: TreeNode)
      modifies this`children
      ensures children == old(children)[g.lower(child.className) := child]
    {
      children := children[g.lower(child.className) := child];
    }
  }

  type Nodes = map<string, TreeNode>

  ghost predicate Named(nodes: Nodes) {
    forall n :: n in nodes ==> nodes[n].className == n
  }

  /** The children of all cached nodes, as they are now. */
  ghost function Kids(nodes: Nodes): map<string, Nodes>
    reads nodes.Values
  {
    map n | n in nodes :: nodes[n].children
  }

  /** One child for each kept dependent: the shared node of that class. */
  ghost predicate Holds(g: Graph, nodes: Nodes, children: Nodes, deps: seq<string>) {
    var names := NameMap(g, deps);
    && children.Keys == names.Keys
    && forall k :: k in names ==> names[k] in nodes && children[k] == nodes[names[k]]
  }

  ghost predicate Known(g: Graph, nodes: Nodes, kids: map<string, Nodes>) {
    && kids.Keys == nodes.Keys
    && forall n :: n in nodes ==> n in g.deps && n != g.root
  }

  ghost predicate Complete(g: Graph, nodes: Nodes, kids: map<string, Nodes>, n: string)
    requires n in kids && n in g.deps
  {
    Holds(g, nodes, kids[n], g.deps[n])
  }

  /** Every cached node is complete, but for the `open` ones, whose dependents are being walked. */
  ghost predicate Done(g: Graph, nodes: Nodes, kids: map<string, Nodes>, open: set<string>) {
    && Known(g, nodes, kids)
    && forall n {:trigger Complete(g, nodes, kids, n)} :: n in nodes && n !in open ==> Complete(g, nodes, kids, n)
  }

  /** Nothing is dropped or replaced, and the `open` nodes keep their children. */
  ghost predicate Keeps(nodes: Nodes, kids: map<string, Nodes>, later: Nodes, laterKids: map<string, Nodes>,
                        open: set<string>) {
    && (forall n :: n in nodes ==> n in later && later[n] == nodes[n])
    && (forall n :: n in open && n in kids ==> n in laterKids && laterKids[n] == kids[n])
  }

  ghost predicate AllAbove(g: Graph, open: set<string>, c: string) {
    c in g.rank && forall o :: o in open ==> o in g.rank && g.rank[o] > g.rank[c]
  }

  /** What the children become once the dependents named in `names` are added to what there was before. */
  ghost predicate Added(nodes: Nodes, before: Nodes, names: map<string, string>, after: Nodes) {
    && after.Keys == before.Keys + names.Keys
    && (forall k :: k in names ==> names[k] in nodes && after[k] == nodes[names[k]])
  }

  lemma AddedStep(nodes: Nodes, later: Nodes, before: Nodes, names: map<string, string>, after: Nodes, k: string,
                  d: string)
    requires Added(nodes, before, names, after) && d in later
    requires forall n :: n in nodes ==> n in later && later[n] == nodes[n]
    ensures Added(later, before, names[k := d], after[k := later[d]])
  {
  }

  lemma NameMapStep(g: Graph, deps: seq<string>, i: nat)
    requires i < |deps|
    ensures NameMap(g, deps[..i + 1]) == NameMap(g, deps[..i])[g.lower(deps[i]) := deps[i]]
  {
    assert deps[..i + 1][..i] == deps[..i];
  }

  lemma Opens(g: Graph, nodes: Nodes, kids: map<string, Nodes>, open: set<string>, c: string, node: TreeNode,
              children: Nodes)
    requires Done(g, nodes, kids, open) && c in g.deps && c != g.root
    requires c in nodes ==> node == nodes[c]
    ensures Done(g, nodes[c := node], kids[c := children], open + {c})
  {
    var later, laterKids := nodes[c := node], kids[c := children];
    forall n | n in later && n !in open + {c}
      ensures Complete(g, later, laterKids, n)
    {
      assert Complete(g, nodes, kids, n);
    }
  }

  lemma Closes(g: Graph, nodes: Nodes, kids: map<string, Nodes>, open: set<string>, c: string)
    requires Done(g, nodes, kids, open + {c}) && c in kids && Holds(g, nodes, kids[c], g.deps[c])
    ensures Done(g, nodes, kids, open)
  {
    forall n | n in nodes && n !in open
      ensures Complete(g, nodes, kids, n)
    {
      if n != c {
        assert Complete(g, nodes, kids, n);
      }
    }
  }

  /** Adding again what is there already, in the same order, ends with the same children. */
  lemma AddedIsHeld(g: Graph, nodes: Nodes, before: Nodes, deps: seq<string>, after: Nodes)
    requires before == map[] || before.Keys == NameMap(g, deps).Keys
    requires Added(nodes, before, NameMap(g, deps), after)
    ensures Holds(g, nodes, after, deps)
  {
  }

  /** The dictionary that every recursive call is handed. */
  class NodeCache {
    var nodes: Nodes
    ghost var repr: set<TreeNode>

    constructor ()
      ensures nodes == map[] && repr == {}
    {
      nodes, repr := map[], {};
    }

    ghost predicate Valid(g: Graph, open: set<string>)
      reads this, nodes.Values
    {
      Named(nodes) && (forall n :: n in nodes ==> nodes[n] in repr) && Done(g, nodes, Kids(nodes), open)
    }

    ghost predicate Since(earlier: Nodes, kids: map<string, Nodes>, open: set<string>)
      reads this, nodes.Values
    {
      Keeps(earlier, kids, nodes, Kids(nodes), open)
    }
  }

  /** Fetches the node of class `c`, or caches a new one; from here on its children are under construction. */
  method FetchNode(g: Graph, c: string, cache: NodeCache, ghost open: set<string>) returns (node: TreeNode)
    requires c in g.deps && c != g.root && c !in open && cache.Valid(g, open)
    modifies cache
    ensures cache.nodes == old(cache.nodes)[c := node]
    ensures fresh(cache.repr - old(cache.repr))
    ensures cache.Valid(g, open + {c}) && cache.Since(old(cache.nodes), old(Kids(cache.nodes)), open)
    ensures node.children == map[] || Holds(g, cache.nodes, node.children, g.deps[c])
  {
    ghost var nodes, kids := cache.nodes, Kids(cache.nodes);
    if c in cache.nodes {
      node := cache.nodes[c];
      assert Complete(g, nodes, kids, c);
    } else {
      node := new TreeNode(c);
      cache.nodes, cache.repr := cache.nodes[c := node], cache.repr + {node};
    }
    assert Kids(cache.nodes) == kids[c := node.children];
    Opens(g, nodes, kids, open, c, node, node.children);
  }

  method GetParameterTree(g: Graph, c: string, cache: NodeCache, ghost open: set<string>, ghost readable: set<string>)
    returns (r: Option<TreeNode>)
    requires ValidGraph(g) && IsReadableSet(g, readable)
    requires c in g.deps && c != g.root && AllAbove(g, open, c) && cache.Valid(g, open)
    modifies cache, cache.repr
    ensures r.Some? <==> c in readable
    ensures r.Some? ==> c in cache.nodes && r.value == cache.nodes[c]
    ensures r.Some? ==> cache.Valid(g, open) && cache.Since(old(cache.nodes), old(Kids(cache.nodes)), open)
    ensures r.Some? ==> fresh(cache.repr - old(cache.repr))
    decreases g.rank[c], 2
  {
    assert ReadsAt(g, readable, c);
    if !Inspectable(g, c) {
      return None;
    }
    var dependents := Filtered(g, c);
    assert IsFiltered(g, c) && DependentsBelow(g, c);
    var current := FetchNode(g, c, cache, open);
    if |dependents| == 0 {
      Closes(g, cache.nodes, Kids(cache.nodes), open, c);
      return Some(current);
    }
    var ok := AddDependents(g, c, dependents, current, cache, open, readable);
    if !ok {
      return None;
    }
    r := Some(current);
  }

  method AddDependents(g: Graph, c: string, dependents: seq<string>, current: TreeNode, cache: NodeCache,
                       ghost open: set<string>,
                       ghost readable: set<string>)
    returns (ok: bool)
    requires ValidGraph(g) && IsReadableSet(g, readable)
    requires c in g.deps && c != g.root && AllAbove(g, open, c) && cache.Valid(g, open + {c})
    requires DependentsBelow(g, c) && dependents == g.deps[c]
    requires c in cache.nodes && cache.nodes[c] == current
    requires current.children == map[] || Holds(g, cache.nodes, current.children, dependents)
    modifies cache, cache.repr
    ensures ok <==> AllIn(dependents, readable)
    ensures ok ==> cache.Valid(g, open) && cache.Since(old(cache.nodes), old(Kids(cache.nodes)), open)
    ensures ok ==> fresh(cache.repr - old(cache.repr))
    decreases g.rank[c], 1
  {
    ghost var before, nodes0, kids0 := current.children, cache.nodes, Kids(cache.nodes);
    for i := 0 to |dependents|
      invariant cache.Valid(g, open + {c}) && cache.Since(nodes0, kids0, open)
      invariant fresh(cache.repr - old(cache.repr))
      invariant Added(cache.nodes, before, NameMap(g, dependents[..i]), current.children)
      invariant AllIn(dependents[..i], readable)
    {
      ok := AddDependent(g, c, dependents[i], current, cache, before, NameMap(g, dependents[..i]), open, readable);
      if !ok {
        AllInHas(dependents, i, readable);
        return;
      }
      NameMapStep(g, dependents, i);
      AllInStep(dependents, i, readable);
    }
    ok := true;
    assert dependents[..|dependents|] == dependents;
    AddedIsHeld(g, cache.nodes, before, dependents, current.children);
    Closes(g, cache.nodes, Kids(cache.nodes), open, c);
  }

  /** Adding a child to a node under construction touches no other node. */
  method Attach(g: Graph, c: string, current: TreeNode, child: TreeNode, cache: NodeCache, ghost open: set<string>)
    requires c in g.deps && c != g.root && cache.Valid(g, open + {c}) && c in cache.nodes && cache.nodes[c] == current
    modifies current`children
    ensures cache.Valid(g, open + {c})
    ensures current.children == old(current.children)[g.lower(child.className) := child]
    ensures Kids(cache.nodes) == old(Kids(cache.nodes))[c := current.children]
  {
    ghost var kids := Kids(cache.nodes);
    current.AddChild(g, child);
    assert Kids(cache.nodes) == kids[c := current.children];
    Opens(g, cache.nodes, kids, open + {c}, c, current, current.children);
    assert cache.nodes[c := current] == cache.nodes && open + {c} + {c} == open + {c};
  }

  /** One turn of the loop over the dependents of class `c`. */
  method AddDependent(g: Graph, c: string, d: string, current: TreeNode, cache: NodeCache, ghost before: Nodes,
                      ghost names: map<string, string>, ghost open: set<string>, ghost readable: set<string>)
    returns (ok: bool)
    requires ValidGraph(g) && IsReadableSet(g, readable)
    requires c in g.deps && c != g.root && AllAbove(g, open, c) && cache.Valid(g, open + {c})
    requires DependentsBelow(g, c) && d in g.deps[c]
    requires c in cache.nodes && cache.nodes[c] == current && Added(cache.nodes, before, names, current.children)
    modifies cache, cache.repr
    ensures ok <==> d in readable
    ensures ok ==> cache.Valid(g, open + {c}) && cache.Since(old(cache.nodes), old(Kids(cache.nodes)), open)
    ensures ok ==> fresh(cache.repr - old(cache.repr))
    ensures ok ==> Added(cache.nodes, before, names[g.lower(d) := d], current.children)
    decreases g.rank[c], 0
  {
    ghost var nodes, children := cache.nodes, current.children;
    var child := GetParameterTree(g, d, cache, open + {c}, readable);
    ok := child.Some?;
    if ok {
      assert Kids(cache.nodes)[c] == children;
      Attach(g, c, current, child.value, cache, open);
      AddedStep(nodes, cache.nodes, before, names, children, g.lower(d), d);
    }
  }

  /** A finished tree: every shared node is complete, and the root has one child for each kept processor. */
  ghost predicate Built(g: Graph, nodes: Nodes, node: TreeNode)
    requires node.className in g.deps
    reads node, nodes.Values
  {
    Named(nodes) && Done(g, nodes, Kids(nodes), {}) && Holds(g, nodes, node.children, g.deps[node.className])
  }

  /**
   * `get_tree`: the root stays outside the cache. It fails exactly when the walk meets an annotation it cannot read.
   */
  method GetTree(g: Graph) returns (r: Option<TreeNode>, ghost nodes: Nodes)
    requires ValidGraph(g)
    ensures r.Some? <==> Readable(g, g.root)
    ensures r.Some? ==> r.value.className == g.root && Built(g, nodes, r.value)
  {
    nodes := map[];
    ghost var readable := ReadableSet(g);
    assert ReadsAt(g, readable, g.root);
    if !Inspectable(g, g.root) {
      return None, nodes;
    }
    var processors := Filtered(g, g.root);
    assert IsFiltered(g, g.root) && DependentsBelow(g, g.root);
    var root := new TreeNode(g.root);
    var cache := new NodeCache();
    var ok := AddProcessors(g, processors, root, cache, readable);
    if !ok {
      return None, nodes;
    }
    return Some(root), cache.nodes;
  }

  method AddProcessors(g: Graph, processors: seq<string>, root: TreeNode, cache: NodeCache, ghost readable: set<string>)
    returns (ok: bool)
    requires ValidGraph(g) && IsReadableSet(g, readable) && DependentsBelow(g, g.root) && processors == g.deps[g.root]
    requires root.children == map[] && root !in cache.repr && cache.nodes == map[] && cache.Valid(g, {})
    modifies cache, cache.repr, root`children
    ensures ok <==> AllIn(processors, readable)
    ensures ok ==> cache.Valid(g, {}) && Holds(g, cache.nodes, root.children, processors)
  {
    for i := 0 to |processors|
      invariant cache.Valid(g, {}) && fresh(cache.repr - old(cache.repr)) && root !in cache.repr
      invariant Added(cache.nodes, map[], NameMap(g, processors[..i]), root.children)
      invariant AllIn(processors[..i], readable)
    {
      ghost var before, children := cache.nodes, root.children;
      var d := processors[i];
      var child := GetParameterTree(g, d, cache, {}, readable);
      if child.None? {
        AllInHas(processors, i, readable);
        return false;
      }
      root.AddChild(g, child.value);
      AddedStep(before, cache.nodes, map[], NameMap(g, processors[..i]), children, g.lower(d), d);
      NameMapStep(g, processors, i);
      AllInStep(processors, i, readable);
    }
    ok := true;
    assert processors[..|processors|] == processors;
    AddedIsHeld(g, cache.nodes, map[], processors, root.children);
  }
}
