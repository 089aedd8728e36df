/** Ordered dictionaries, and what popping and reinserting every key in lower case makes of one. */
module ConfigKeys {

  /** An ordered dictionary, as the list of its items. */
  type Items<V> = seq<(string, V)>
  type Lower = string -> string

  ghost predicate DistinctKeys<V>(es: Items<V>) {
    forall i, j :: 0 <= i < j < |es| ==> es[i].0 != es[j].0
  }

  ghost predicate HasKey<V>(es: Items<V>, k: string) {
    exists i :: 0 <= i < |es| && es[i].0 == k
  }

  function Pop<V>(es: Items<V>, k: string): Items<V> {
    if es == [] then []
    else if es[0].0 == k then es[1..]
    else [es[0]] + Pop(es[1..], k)
  }

  /** An existing key keeps its place, a new one goes to the end. */
  function Put<V>(es: Items<V>, k: string, v: V): Items<V> {
    if es == [] then [(k, v)]
    else if es[0].0 == k then [(k, v)] + es[1..]
    else [es[0]] + Put(es[1..], k, v)
  }

  /** The dictionary after the first `n` turns of the loop over a snapshot of its own items. */
  function Reinserted<V>(lower: Lower, items: Items<V>, n: nat): Items<V>
    requires n <= |items|
  {
    if n == 0 then items
    else Put(Pop(Reinserted(lower, items, n - 1), items[n - 1].0), lower(items[n - 1].0), items[n - 1].1)
  }

  // ----- Contents -----

  ghost function MapOf<V>(es: Items<V>): map<string, V> {
    if es == [] then map[] else MapOf(es[1..])[es[0].0 := es[0].1]
  }

  /** Keys in lower case; of those that collide the last one wins. */
  ghost function Collapse<V>(lower: Lower, items: Items<V>, n: nat): map<string, V>
    requires n <= |items|
  {
    if n == 0 then map[] else Collapse(lower, items, n - 1)[lower(items[n - 1].0) := items[n - 1].1]
  }

  ghost predicate Idempotent(lower: Lower) {
    forall k :: lower(lower(k)) == lower(k)
  }

  lemma {:induction false} KeysOfMap<V>(es: Items<V>, k: string)
    ensures k in MapOf(es) <==> HasKey(es, k)
  {
    if es != [] {
      KeysOfMap(es[1..], k);
      if HasKey(es[1..], k) {
        var i :| 0 <= i < |es[1..]| && es[1..][i].0 == k;
        assert es[i + 1].0 == k;
      }
      if i :| 0 < i < |es| && es[i].0 == k {
        assert es[1..][i - 1].0 == k;
      }
    }
  }

  lemma Tail<V>(es: Items<V>)
    requires DistinctKeys(es) && es != []
    ensures DistinctKeys(es[1..]) && es[0].0 !in MapOf(es[1..])
  {
    KeysOfMap(es[1..], es[0].0);
  }

  lemma Prepend<V>(e: (string, V), es: Items<V>)
    requires DistinctKeys(es) && e.0 !in MapOf(es)
    ensures DistinctKeys([e] + es) && MapOf([e] + es) == MapOf(es)[e.0 := e.1]
  {
    assert ([e] + es)[1..] == es;
    KeysOfMap(es, e.0);
  }

  lemma {:induction false} PopIs<V>(es: Items<V>, k: string)
    requires DistinctKeys(es)
    ensures DistinctKeys(Pop(es, k)) && MapOf(Pop(es, k)) == MapOf(es) - {k}
  {
    if es != [] {
      Tail(es);
      if es[0].0 != k {
        PopIs(es[1..], k);
        Prepend(es[0], Pop(es[1..], k));
      }
    }
  }

  lemma {:induction false} PutIs<V>(es: Items<V>, k: string, v: V)
    requires DistinctKeys(es)
    ensures DistinctKeys(Put(es, k, v)) && MapOf(Put(es, k, v)) == MapOf(es)[k := v]
  {
    if es == [] {
      assert [(k, v)][1..] == [];
    } else {
      Tail(es);
      if es[0].0 == k {
        Prepend((k, v), es[1..]);
      } else {
        PutIs(es[1..], k, v);
        Prepend(es[0], Put(es[1..], k, v));
      }
    }
  }

  lemma {:induction false} CollapseKeys<V>(lower: Lower, items: Items<V>, n: nat, k: string)
    requires n <= |items|
    ensures k in Collapse(lower, items, n) <==> exists i :: 0 <= i < n && lower(items[i].0) == k
  {
    if n > 0 {
      CollapseKeys(lower, items, n - 1, k);
    }
  }

  lemma PopThenPut<V>(rest: map<string, V>, done: map<string, V>, k: string, v: V, l: string)
    requires k !in rest && (k in done ==> l == k)
    ensures (rest[k := v] + done - {k})[l := v] == rest + done[l := v]
  {
  }

  /** The keys of the dictionary stay distinct. */
  lemma {:induction false} StaysDistinct<V>(lower: Lower, items: Items<V>, n: nat)
    requires DistinctKeys(items) && n <= |items|
    ensures DistinctKeys(Reinserted(lower, items, n))
  {
    if n > 0 {
      StaysDistinct(lower, items, n - 1);
      var source := Reinserted(lower, items, n - 1);
      PopIs(source, items[n - 1].0);
      PutIs(Pop(source, items[n - 1].0), lower(items[n - 1].0), items[n - 1].1);
    }
  }

  /** Whatever `lower` does, a key of the snapshot stays until its own turn: the pop never misses. */
  lemma {:induction false} NeverMisses<V>(lower: Lower, items: Items<V>, n: nat, m: nat)
    requires DistinctKeys(items) && n <= m < |items|
    ensures HasKey(Reinserted(lower, items, n), items[m].0)
  {
    if n > 0 {
      NeverMisses(lower, items, n - 1, m);
      StaysDistinct(lower, items, n - 1);
      var source, k := Reinserted(lower, items, n - 1), items[n - 1].0;
      PopIs(source, k);
      PutIs(Pop(source, k), lower(k), items[n - 1].1);
      KeysOfMap(source, items[m].0);
      KeysOfMap(Reinserted(lower, items, n), items[m].0);
    }
  }

  /** One turn: what the popped key would take away with it is put back at once. */
  lemma OneTurn<V>(lower: Lower, items: Items<V>, n: nat, source: Items<V>)
    requires Idempotent(lower) && DistinctKeys(items) && n < |items| && DistinctKeys(source)
    requires MapOf(source) == MapOf(items[n..]) + Collapse(lower, items, n)
    ensures var next := Put(Pop(source, items[n].0), lower(items[n].0), items[n].1);
            MapOf(next) == MapOf(items[n + 1..]) + Collapse(lower, items, n + 1)
  {
    var (k, v) := items[n];
    var done := Collapse(lower, items, n);
    assert items[n..][0] == items[n] && items[n..][1..] == items[n + 1..];
    Tail(items[n..]);
    PopIs(source, k);
    PutIs(Pop(source, k), lower(k), v);
    CollapseKeys(lower, items, n, k);
    PopThenPut(MapOf(items[n + 1..]), done, k, v, lower(k));
  }

  /** After n turns the dictionary holds what is left of the snapshot and, over it, what was done. */
  lemma {:induction false} ReinsertedIs<V>(lower: Lower, items: Items<V>, n: nat)
    requires Idempotent(lower) && DistinctKeys(items) && n <= |items|
    ensures MapOf(Reinserted(lower, items, n)) == MapOf(items[n..]) + Collapse(lower, items, n)
  {
    if n == 0 {
      assert items[0..] == items;
    } else {
      ReinsertedIs(lower, items, n - 1);
      StaysDistinct(lower, items, n - 1);
      OneTurn(lower, items, n - 1, Reinserted(lower, items, n - 1));
    }
  }

  /** An item that no later one collides with decides its lower-cased key. */
  lemma {:induction false} LastCollidingWins<V>(lower: Lower, items: Items<V>, n: nat, i: nat)
    requires i < n <= |items| && forall j :: i < j < n ==> lower(items[j].0) != lower(items[i].0)
    ensures lower(items[i].0) in Collapse(lower, items, n) && Collapse(lower, items, n)[lower(items[i].0)] == items[i].1
  {
    if i < n - 1 {
      LastCollidingWins(lower, items, n - 1, i);
    }
  }

  // ----- A dictionary whose keys are in lower case already only rotates -----

  ghost predicate AllLower<V>(lower: Lower, items: Items<V>) {
    forall i :: 0 <= i < |items| ==> lower(items[i].0) == items[i].0
  }

  lemma {:induction false} PutAppends<V>(es: Items<V>, k: string, v: V)
    requires !HasKey(es, k)
    ensures Put(es, k, v) == es + [(k, v)]
  {
    if es != [] {
      assert forall i :: 0 <= i < |es[1..]| ==> es[1..][i] == es[i + 1];
      PutAppends(es[1..], k, v);
    }
  }

  lemma {:induction false} Rotates<V>(lower: Lower, items: Items<V>, n: nat)
    requires DistinctKeys(items) && AllLower(lower, items) && n <= |items|
    ensures Reinserted(lower, items, n) == items[n..] + items[..n]
  {
    if n > 0 {
      Rotates(lower, items, n - 1);
      var before, left := items[n - 1..] + items[..n - 1], items[n..] + items[..n - 1];
      assert before[0] == items[n - 1] && before[1..] == left;
      PutAppends(left, items[n - 1].0, items[n - 1].1);
      assert left + [items[n - 1]] == items[n..] + items[..n];
    }
  }

  // ----- Where items stand -----

  /** Popping takes the item out and closes the gap. */
  lemma {:induction false} PopTakesOut<V>(es: Items<V>, i: nat)
    requires DistinctKeys(es) && i < |es|
    ensures Pop(es, es[i].0) == es[..i] + es[i + 1..]
  {
    if i > 0 {
      PopTakesOut(es[1..], i - 1);
      assert es[1..][i - 1] == es[i];
      assert [es[0]] + es[1..][..i - 1] == es[..i];
      assert es[1..][i..] == es[i + 1..];
    }
  }

  /** Assigning to an existing key leaves the item in its place. */
  lemma {:induction false} PutInPlace<V>(es: Items<V>, i: nat, v: V)
    requires DistinctKeys(es) && i < |es|
    ensures Put(es, es[i].0, v) == es[i := (es[i].0, v)]
  {
    if i > 0 {
      PutInPlace(es[1..], i - 1, v);
      assert es[1..][i - 1] == es[i];
    }
  }

  // ----- Nested dictionaries -----

  datatype Config = Leaf(value: string) | Dict(entries: Items<Config>)

  /** Python dictionaries have distinct keys, at every level. */
  ghost predicate WellFormed(c: Config) {
    c.Dict? ==> DistinctKeys(c.entries) && forall i :: 0 <= i < |c.entries| ==> WellFormed(c.entries[i].1)
  }

  ghost function NormalizedValues(lower: Lower, c: Config): (r: Items<Config>)
    requires c.Dict?
    ensures |r| == |c.entries| && forall i :: 0 <= i < |r| ==> r[i].0 == c.entries[i].0
    decreases c, 0
  {
    seq(|c.entries|, i requires 0 <= i < |c.entries| => (c.entries[i].0, Normalized(lower, c.entries[i].1)))
  }

  /** `_normalize_property_keys`, as a function of the dictionary's value. */
  ghost function Normalized(lower: Lower, c: Config): Config
    decreases c, 1
  {
    match c
    case Leaf(_) => c
    case Dict(es) =>
      var values := NormalizedValues(lower, c);
      Dict(Reinserted(lower, values, |values|))
  }

  // ----- Which item ends where depends on the keys alone -----

  ghost function Numbered<V>(items: Items<V>): Items<int> {
    seq(|items|, i requires 0 <= i < |items| => (items[i].0, i))
  }

  ghost predicate Follows<V>(es: Items<V>, ix: Items<int>, items: Items<V>) {
    |es| == |ix| && forall p :: 0 <= p < |es| ==> 0 <= ix[p].1 < |items| && es[p] == (ix[p].0, items[ix[p].1].1)
  }

  lemma FollowsRest<V>(es: Items<V>, ix: Items<int>, items: Items<V>)
    requires Follows(es, ix, items) && es != []
    ensures Follows(es[1..], ix[1..], items)
  {
    assert forall p :: 0 <= p < |es| - 1 ==> es[1..][p] == es[p + 1] && ix[1..][p] == ix[p + 1];
  }

  lemma {:induction false} PopFollows<V>(es: Items<V>, ix: Items<int>, items: Items<V>, k: string)
    requires Follows(es, ix, items)
    ensures Follows(Pop(es, k), Pop(ix, k), items)
  {
    if es != [] {
      FollowsRest(es, ix, items);
      PopFollows(es[1..], ix[1..], items, k);
    }
  }

  lemma {:induction false} PutFollows<V>(es: Items<V>, ix: Items<int>, items: Items<V>, k: string, i: nat)
    requires Follows(es, ix, items) && i < |items|
    ensures Follows(Put(es, k, items[i].1), Put(ix, k, i), items)
  {
    if es != [] {
      FollowsRest(es, ix, items);
      PutFollows(es[1..], ix[1..], items, k, i);
    }
  }

  lemma {:induction false} ReinsertedFollows<V>(lower: Lower, items: Items<V>, n: nat)
    requires n <= |items|
    ensures Follows(Reinserted(lower, items, n), Reinserted(lower, Numbered(items), n), items)
  {
    if n > 0 {
      ReinsertedFollows(lower, items, n - 1);
      var es, ix := Reinserted(lower, items, n - 1), Reinserted(lower, Numbered(items), n - 1);
      PopFollows(es, ix, items, items[n - 1].0);
      PutFollows(Pop(es, items[n - 1].0), Pop(ix, items[n - 1].0), items, lower(items[n - 1].0), n - 1);
    }
  }

  lemma {:induction false} PopHas<V>(es: Items<V>, k: string, e: (string, V))
    requires DistinctKeys(es) && e in Pop(es, k)
    ensures e in es && e.0 != k
  {
    Tail(es);
    if es[0].0 == k {
      KeysOfMap(es[1..], k);
      var i :| 0 <= i < |es[1..]| && es[1..][i] == e;
    } else if e != es[0] {
      PopHas(es[1..], k, e);
    }
  }

  lemma {:induction false} PutHas<V>(es: Items<V>, k: string, v: V, e: (string, V))
    requires e in Put(es, k, v)
    ensures e in es || e == (k, v)
  {
    if es != [] && es[0].0 != k && e != es[0] {
      PutHas(es[1..], k, v, e);
    }
  }

  /** An item whose turn has come stands under its lower-cased key, any other under its own. */
  lemma {:induction false} KeysTell<V>(lower: Lower, items: Items<V>, n: nat, e: (string, int))
    requires DistinctKeys(items) && n <= |items| && e in Reinserted(lower, Numbered(items), n)
    ensures 0 <= e.1 < |items| && e.0 == if e.1 < n then lower(items[e.1].0) else items[e.1].0
  {
    if n > 0 {
      var source, k := Reinserted(lower, Numbered(items), n - 1), items[n - 1].0;
      StaysDistinct(lower, Numbered(items), n - 1);
      PutHas(Pop(source, k), lower(k), n - 1, e);
      if e != (lower(k), n - 1) {
        PopHas(source, k, e);
        KeysTell(lower, items, n - 1, e);
      }
    }
  }

  /** `ix` tells for each item of the result `es` which snapshot item it comes from. */
  ghost predicate ComesFrom<V>(lower: Lower, es: Items<V>, items: Items<V>, ix: seq<int>) {
    && |es| == |ix|
    && forall p :: 0 <= p < |es| ==>
         0 <= ix[p] < |items| && es[p] == (lower(items[ix[p]].0), items[ix[p]].1)
  }

  ghost predicate Different(ix: seq<int>) {
    forall p, q :: 0 <= p < q < |ix| ==> ix[p] != ix[q]
  }

  /** Every item of the result is another item of the snapshot, under its lower-cased key. */
  lemma Origins<V>(lower: Lower, items: Items<V>) returns (ix: seq<int>)
    requires DistinctKeys(items)
    ensures var numbered := Reinserted(lower, Numbered(items), |items|);
            |ix| == |numbered| && forall p :: 0 <= p < |ix| ==> ix[p] == numbered[p].1
    ensures ComesFrom(lower, Reinserted(lower, items, |items|), items, ix) && Different(ix)
  {
    var numbered := Reinserted(lower, Numbered(items), |items|);
    ReinsertedFollows(lower, items, |items|);
    StaysDistinct(lower, Numbered(items), |items|);
    forall p | 0 <= p < |numbered|
      ensures 0 <= numbered[p].1 < |items| && numbered[p].0 == lower(items[numbered[p].1].0)
    {
      KeysTell(lower, items, |items|, numbered[p]);
    }
    ix := seq(|numbered|, p requires 0 <= p < |numbered| => numbered[p].1);
  }

  /** Two dictionaries with the same keys in the same order are rearranged alike. */
  lemma RearrangedAlike<V, W>(lower: Lower, a: Items<V>, b: Items<W>) returns (ix: seq<int>)
    requires DistinctKeys(a) && |a| == |b| && forall i :: 0 <= i < |a| ==> a[i].0 == b[i].0
    ensures Different(ix) && DistinctKeys(Reinserted(lower, a, |a|))
    ensures ComesFrom(lower, Reinserted(lower, a, |a|), a, ix) && ComesFrom(lower, Reinserted(lower, b, |b|), b, ix)
  {
    ix := Origins(lower, a);
    var same := Origins(lower, b);
    assert Numbered(a) == Numbered(b);
    assert ix == same;
    StaysDistinct(lower, a, |a|);
  }

  // ----- Idempotence -----

  /** Python dictionaries stay Python dictionaries. */
  lemma {:induction false} NormalizedWellFormed(lower: Lower, c: Config)
    requires WellFormed(c)
    ensures WellFormed(Normalized(lower, c))
    decreases c
  {
    if c.Dict? {
      var values := NormalizedValues(lower, c);
      var ix := Origins(lower, values);
      StaysDistinct(lower, values, |values|);
      forall i | 0 <= i < |values|
        ensures WellFormed(values[i].1)
      {
        NormalizedWellFormed(lower, c.entries[i].1);
      }
    }
  }

  /** Normalising twice is normalising once, to the very order of the items. */
  lemma {:induction false} NormalizedTwice(lower: Lower, c: Config)
    requires Idempotent(lower) && WellFormed(c)
    ensures Normalized(lower, Normalized(lower, c)) == Normalized(lower, c)
    decreases c
  {
    if c.Dict? {
      var values := NormalizedValues(lower, c);
      var r := Reinserted(lower, values, |values|);
      var ix := Origins(lower, values);
      StaysDistinct(lower, values, |values|);
      forall p | 0 <= p < |r|
        ensures lower(r[p].0) == r[p].0 && Normalized(lower, r[p].1) == r[p].1
      {
        NormalizedTwice(lower, c.entries[ix[p]].1);
      }
      assert NormalizedValues(lower, Dict(r)) == r;
      Rotates(lower, r, |r|);
      assert r[|r|..] + r[..|r|] == r;
    }
  }

  // ----- The specification: the recursive lower-cased map -----

  /** The contents of a nested dictionary, without order. */
  datatype Tree = Text(value: string) | Node(children: map<string, Tree>)

  ghost function Trees(c: Config): (r: Items<Tree>)
    requires c.Dict?
    ensures |r| == |c.entries| && forall i :: 0 <= i < |r| ==> r[i].0 == c.entries[i].0
    decreases c, 0
  {
    seq(|c.entries|, i requires 0 <= i < |c.entries| => (c.entries[i].0, TreeOf(c.entries[i].1)))
  }

  ghost function TreeOf(c: Config): Tree
    decreases c, 1
  {
    match c
    case Leaf(v) => Text(v)
    case Dict(_) => Node(MapOf(Trees(c)))
  }

  ghost function LowerTrees(lower: Lower, c: Config): (r: Items<Tree>)
    requires c.Dict?
    ensures |r| == |c.entries| && forall i :: 0 <= i < |r| ==> r[i].0 == c.entries[i].0
    decreases c, 0
  {
    seq(|c.entries|, i requires 0 <= i < |c.entries| => (c.entries[i].0, LowerTree(lower, c.entries[i].1)))
  }

  /** Every key in lower case, at every level; of keys that collide the last one wins, with all below it. */
  ghost function LowerTree(lower: Lower, c: Config): Tree
    decreases c, 1
  {
    match c
    case Leaf(v) => Text(v)
    case Dict(es) => Node(Collapse(lower, LowerTrees(lower, c), |es|))
  }

  /** Reinserting and looking at the contents can be swapped. */
  lemma TreesOfReinserted(lower: Lower, values: Items<Config>)
    requires DistinctKeys(values)
    ensures Trees(Dict(Reinserted(lower, values, |values|))) == Reinserted(lower, Trees(Dict(values)), |values|)
  {
    var trees := Trees(Dict(values));
    var ix := RearrangedAlike(lower, values, trees);
    var left, right := Trees(Dict(Reinserted(lower, values, |values|))), Reinserted(lower, trees, |trees|);
    assert |left| == |right|;
    forall p | 0 <= p < |left|
      ensures left[p] == right[p]
    {
      assert trees[ix[p]] == (values[ix[p]].0, TreeOf(values[ix[p]].1));
    }
  }

  /** The loop with its recursion ends as the recursive lower-cased map, for every nested dictionary. */
  lemma {:induction false} NormalizedIsLowerTree(lower: Lower, c: Config)
    requires Idempotent(lower) && WellFormed(c)
    ensures TreeOf(Normalized(lower, c)) == LowerTree(lower, c)
    decreases c
  {
    if c.Dict? {
      var values := NormalizedValues(lower, c);
      forall i | 0 <= i < |values|
        ensures TreeOf(values[i].1) == LowerTree(lower, c.entries[i].1)
      {
        NormalizedIsLowerTree(lower, c.entries[i].1);
      }
      assert Trees(Dict(values)) == LowerTrees(lower, c);
      TreesOfReinserted(lower, values);
      ReinsertedIs(lower, LowerTrees(lower, c), |values|);
      assert LowerTrees(lower, c)[|values|..] == [];
    }
  }

  /** Two items of which the first moves to the key of the second. */
  function Chain(lower: Lower, k: string): Config {
    Dict([(k, Leaf("")), (lower(k), Leaf(""))])
  }

  /** The second turn pops the first item along with its key. */
  lemma LosesAnItem(lower: Lower, k: string)
    requires lower(lower(k)) != lower(k)
    ensures WellFormed(Chain(lower, k))
    ensures TreeOf(Normalized(lower, Chain(lower, k))) != LowerTree(lower, Chain(lower, k))
  {
    var l, c := lower(k), Chain(lower, k);
    var items := c.entries;
    assert NormalizedValues(lower, c) == items;
    assert items[1..] == [items[1]];
    assert Reinserted(lower, items, 1) == [(l, Leaf(""))];
    assert [(l, Leaf(""))][1..] == [];
    var r := Reinserted(lower, items, 2);
    assert r == [(lower(l), Leaf(""))];
    KeysOfMap(Trees(Dict(r)), l);
    CollapseKeys(lower, LowerTrees(lower, c), 2, l);
    assert lower(LowerTrees(lower, c)[0].0) == l;
  }

  /** Exactly the lower-casing functions that do nothing the second time make it so. */
  lemma ExactIffIdempotent(lower: Lower)
    ensures (forall c :: WellFormed(c) ==> TreeOf(Normalized(lower, c)) == LowerTree(lower, c)) <==> Idempotent(lower)
  {
    if Idempotent(lower) {
      forall c | WellFormed(c)
        ensures TreeOf(Normalized(lower, c)) == LowerTree(lower, c)
      {
        NormalizedIsLowerTree(lower, c);
      }
    } else {
      var k :| lower(lower(k)) != lower(k);
      LosesAnItem(lower, k);
    }
  }
}
