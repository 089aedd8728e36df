/** The graph of input objects and its plain recursive evaluation. */
module InputGraph {
  import opened Collections
  import opened ErrorMaps

  /** What readers and processors return: Python's None, or some object, known here by a number only. */
  datatype Value = Nothing | Data(id: int)
  type Kwargs = map<string, Value>

  /** Whoever calls `resolve`: an input object resolving its own readers, or a top-level caller such as an algorithm. */
  datatype Actor = Input(cacheKey: string) | Caller(index: nat)

  /** What user code (`_read_input`, `_process_input`) does when it is given its arguments. */
  datatype Own = Produced(value: Value) | Threw(cls: Class)

  /**
   * One run of the framework. `deps` are the readers given to a constructor, or the arguments of a top-level
   * `resolve`; `rank` witnesses that they form no cycle; `remap` is the cache's exception map; `slowOpen` and
   * `slowClose` hold the inputs whose `_context_open` and `_context_close` suspend.
   */
  datatype World = World(
    inputs: set<Actor>,
    callers: set<Actor>,
    deps: map<Actor, seq<Actor>>,
    rank: map<Actor, nat>,
    alias: map<Actor, string>,
    own: (Actor, Kwargs) -> Own,
    kwargs: Kwargs,
    remap: Class -> Class,
    slowOpen: set<Actor>,
    slowClose: set<Actor>)

  function Deps(w: World, a: Actor): seq<Actor> { if a in w.deps then w.deps[a] else [] }
  function Rank(w: World, a: Actor): nat { if a in w.rank then w.rank[a] else 0 }
  function Alias(w: World, a: Actor): string { if a in w.alias then w.alias[a] else "" }

  ghost predicate Known(w: World, a: Actor) {
    a in w.inputs || a in w.callers
  }

  ghost predicate ValidWorld(w: World) {
    && (forall a :: a in w.inputs ==> a.Input?)
    && (forall a :: a in w.callers ==> a.Caller?)
    && (forall a :: Known(w, a) ==> Distinct(Deps(w, a)))
    && (forall a, d :: Known(w, a) && d in Deps(w, a) ==> d in w.inputs && Rank(w, d) < Rank(w, a))
  }

  /** Evaluation of one input, by recursion: `None` when its own code or any dependency raises. */
  ghost function Eval(w: World, a: Actor): Option<Value>
    requires ValidWorld(w) && Known(w, a)
    decreases Rank(w, a), |Deps(w, a)| + 1
  {
    match EvalDeps(w, a, |Deps(w, a)|)
    case None => None
    case Some(results) =>
      match w.own(a, w.kwargs + results)
      case Threw(_) => None
      case Produced(v) => Some(v)
  }

  /** The dictionary of the first `n` dependencies of `a`, by alias; a later dependency overrides an earlier one. */
  ghost function EvalDeps(w: World, a: Actor, n: nat): Option<Kwargs>
    requires ValidWorld(w) && Known(w, a) && n <= |Deps(w, a)|
    decreases Rank(w, a), n
  {
    if n == 0 then Some(map[])
    else
      var d := Deps(w, a)[n - 1];
      assert d in Deps(w, a);
      match EvalDeps(w, a, n - 1)
      case None => None
      case Some(m) =>
        match Eval(w, d)
        case None => None
        case Some(v) => Some(m[Alias(w, d) := v])
  }

  ghost function AliasesOf(w: World, a: Actor, n: nat): set<string>
    requires n <= |Deps(w, a)|
  {
    set i | 0 <= i < n :: Alias(w, Deps(w, a)[i])
  }

  /** Of the first `n` dependencies the one at `i` is the last with its alias. */
  ghost predicate LastOfAlias(w: World, a: Actor, i: nat, n: nat)
    requires i < n <= |Deps(w, a)|
  {
    forall j :: i < j < n ==> Alias(w, Deps(w, a)[j]) != Alias(w, Deps(w, a)[i])
  }

  ghost predicate DepEvaluates(w: World, a: Actor, i: nat)
    requires ValidWorld(w) && i < |Deps(w, a)|
  {
    Deps(w, a)[i] in w.inputs && Eval(w, Deps(w, a)[i]).Some?
  }

  /** The entry of the dictionary `m` for the dependency at `i` is that dependency's evaluation. */
  ghost predicate EntryIsEval(w: World, a: Actor, i: nat, m: Kwargs)
    requires ValidWorld(w) && i < |Deps(w, a)|
  {
    var d := Deps(w, a)[i];
    d in w.inputs && Alias(w, d) in m && Eval(w, d) == Some(m[Alias(w, d)])
  }

  lemma EvalDepsUnfold(w: World, a: Actor, n: nat)
    requires ValidWorld(w) && Known(w, a) && 0 < n <= |Deps(w, a)|
    ensures var d := Deps(w, a)[n - 1];
            && d in w.inputs
            && (EvalDeps(w, a, n).Some? <==> EvalDeps(w, a, n - 1).Some? && Eval(w, d).Some?)
            && (EvalDeps(w, a, n).Some? ==>
                  EvalDeps(w, a, n).value == EvalDeps(w, a, n - 1).value[Alias(w, d) := Eval(w, d).value])
  {
    assert Deps(w, a)[n - 1] in Deps(w, a);
  }

  /** The dictionary has the dependencies' aliases for keys; of those that share one the last one counts. */
  lemma {:induction false} EvalDepsByAlias(w: World, a: Actor, n: nat)
    requires ValidWorld(w) && Known(w, a) && n <= |Deps(w, a)| && EvalDeps(w, a, n).Some?
    ensures EvalDeps(w, a, n).value.Keys == AliasesOf(w, a, n)
    ensures forall i :: 0 <= i < n && LastOfAlias(w, a, i, n) ==> EntryIsEval(w, a, i, EvalDeps(w, a, n).value)
  {
    if n > 0 {
      EvalDepsUnfold(w, a, n);
      EvalDepsByAlias(w, a, n - 1);
      assert AliasesOf(w, a, n) == AliasesOf(w, a, n - 1) + {Alias(w, Deps(w, a)[n - 1])};
      forall i | 0 <= i < n && LastOfAlias(w, a, i, n)
        ensures EntryIsEval(w, a, i, EvalDeps(w, a, n).value)
      {
        if i < n - 1 {
          assert LastOfAlias(w, a, i, n - 1);
          assert EntryIsEval(w, a, i, EvalDeps(w, a, n - 1).value);
        }
      }
    }
  }

  /** The dictionary exists exactly when every dependency evaluates. */
  lemma {:induction false} EvalDepsSome(w: World, a: Actor, n: nat)
    requires ValidWorld(w) && Known(w, a) && n <= |Deps(w, a)|
    ensures EvalDeps(w, a, n).Some? <==> forall i :: 0 <= i < n ==> DepEvaluates(w, a, i)
  {
    if n > 0 {
      EvalDepsUnfold(w, a, n);
      EvalDepsSome(w, a, n - 1);
      assert DepEvaluates(w, a, n - 1) <==> Eval(w, Deps(w, a)[n - 1]).Some?;
    }
  }

  // ----- What user code is given -----

  /**
   * `args` is what the own code of `a` gets once everything it needs has been evaluated: under each alias the
   * evaluation of the last dependency of that alias, and the run's own arguments under all other names.
   */
  ghost predicate IsArguments(w: World, a: Actor, args: Kwargs)
    requires ValidWorld(w) && Known(w, a)
  {
    var n := |Deps(w, a)|;
    && (forall i :: 0 <= i < n ==> DepEvaluates(w, a, i))
    && args.Keys == w.kwargs.Keys + AliasesOf(w, a, n)
    && (forall i :: 0 <= i < n && LastOfAlias(w, a, i, n) ==> EntryIsEval(w, a, i, args))
    && (forall k :: k in w.kwargs && k !in AliasesOf(w, a, n) ==> args[k] == w.kwargs[k])
  }

  lemma {:induction false} LastWith(w: World, a: Actor, k: string, n: nat) returns (i: nat)
    requires n <= |Deps(w, a)| && k in AliasesOf(w, a, n)
    ensures i < n && Alias(w, Deps(w, a)[i]) == k && LastOfAlias(w, a, i, n)
  {
    if Alias(w, Deps(w, a)[n - 1]) == k {
      i := n - 1;
    } else {
      i := LastWith(w, a, k, n - 1);
    }
  }

  /** There is at most one such dictionary. */
  lemma ArgumentsAreUnique(w: World, a: Actor, x: Kwargs, y: Kwargs)
    requires ValidWorld(w) && Known(w, a) && IsArguments(w, a, x) && IsArguments(w, a, y)
    ensures x == y
  {
    var n := |Deps(w, a)|;
    forall k | k in x
      ensures x[k] == y[k]
    {
      if k in AliasesOf(w, a, n) {
        var i := LastWith(w, a, k, n);
        assert EntryIsEval(w, a, i, x) && EntryIsEval(w, a, i, y);
      }
    }
  }

  /** The arguments exist exactly when every dependency evaluates, and are the run's, overridden by the dependencies. */
  lemma ArgumentsAre(w: World, a: Actor)
    requires ValidWorld(w) && Known(w, a)
    ensures match EvalDeps(w, a, |Deps(w, a)|)
            case None => !exists args :: IsArguments(w, a, args)
            case Some(results) => IsArguments(w, a, w.kwargs + results)
  {
    var n := |Deps(w, a)|;
    EvalDepsSome(w, a, n);
    if EvalDeps(w, a, n).Some? {
      var results := EvalDeps(w, a, n).value;
      EvalDepsByAlias(w, a, n);
      forall i | 0 <= i < n && LastOfAlias(w, a, i, n)
        ensures EntryIsEval(w, a, i, w.kwargs + results)
      {
        assert EntryIsEval(w, a, i, results);
      }
    }
  }

  /** An input evaluates to what its own code produces on these arguments, and does not if they cannot be had. */
  lemma EvalIsOwn(w: World, a: Actor, v: Value)
    requires ValidWorld(w) && Known(w, a)
    ensures Eval(w, a) == Some(v) <==> exists args :: IsArguments(w, a, args) && w.own(a, args) == Produced(v)
  {
    ArgumentsAre(w, a);
    var r := EvalDeps(w, a, |Deps(w, a)|);
    if args :| IsArguments(w, a, args) && w.own(a, args) == Produced(v) {
      ArgumentsAreUnique(w, a, args, w.kwargs + r.value);
    }
  }

  // ----- Reachability -----

  /** The inputs a call of `a` needs, directly or through others. */
  ghost function Needs(w: World, a: Actor, n: nat): set<Actor>
    requires ValidWorld(w) && Known(w, a) && n <= |Deps(w, a)|
    decreases Rank(w, a), n
  {
    if n == 0 then {}
    else
      var d := Deps(w, a)[n - 1];
      assert d in Deps(w, a);
      Needs(w, a, n - 1) + {d} + Needs(w, d, |Deps(w, d)|)
  }

  ghost predicate ClosedUnderDeps(w: World, s: set<Actor>) {
    forall a, d :: a in s && d in Deps(w, a) ==> d in s
  }

  /** `Needs` is the least set of inputs that holds the dependencies of `a` and is closed under dependencies. */
  lemma {:induction false} NeedsIsLeast(w: World, a: Actor, n: nat)
    requires ValidWorld(w) && Known(w, a) && n <= |Deps(w, a)|
    ensures forall i :: 0 <= i < n ==> Deps(w, a)[i] in Needs(w, a, n)
    ensures forall b :: b in Needs(w, a, n) ==> b in w.inputs
    ensures ClosedUnderDeps(w, Needs(w, a, n))
    ensures forall s: set<Actor> ::
              ClosedUnderDeps(w, s) && (forall i :: 0 <= i < n ==> Deps(w, a)[i] in s) ==> Needs(w, a, n) <= s
    decreases Rank(w, a), n
  {
    if n > 0 {
      var d := Deps(w, a)[n - 1];
      assert d in Deps(w, a);
      NeedsIsLeast(w, a, n - 1);
      NeedsIsLeast(w, d, |Deps(w, d)|);
    }
  }
}
