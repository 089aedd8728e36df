/** In which order tasks are created, and which of several failures a poll raises for. */
module ResolveOrder {
  import opened Collections
  import opened InputGraph
  import opened Protocol

  ghost predicate Before<T>(s: seq<T>, x: T, y: T) {
    exists p, q :: 0 <= p < q < |s| && s[p] == x && s[q] == y
  }

  ghost predicate Increasing(ix: seq<nat>) {
    forall p, q :: 0 <= p < q < |ix| ==> ix[p] < ix[q]
  }

  /** `chosen` are the inputs without a task, in argument order; `ix` tells at which positions they stand. */
  ghost predicate Selects(inputs: seq<Actor>, scheduled: seq<Actor>, chosen: seq<Actor>, ix: seq<nat>) {
    && Increasing(ix) && |chosen| == |ix|
    && (forall p :: 0 <= p < |ix| ==> ix[p] < |inputs| && chosen[p] == inputs[ix[p]])
    && (forall i :: 0 <= i < |inputs| ==> (inputs[i] !in scheduled <==> i in ix))
  }

  /** One more input is selected unless it has a task. */
  lemma SelectsSnoc(inputs: seq<Actor>, scheduled: seq<Actor>, chosen: seq<Actor>, ix: seq<nat>, x: Actor)
    requires Selects(inputs, scheduled, chosen, ix)
    ensures if x in scheduled then Selects(inputs + [x], scheduled, chosen, ix)
            else Selects(inputs + [x], scheduled, chosen + [x], ix + [|inputs|])
  {
    var longer := inputs + [x];
    assert forall i :: 0 <= i < |inputs| ==> longer[i] == inputs[i];
    if x in scheduled {
      assert |inputs| !in ix;
    } else {
      var more := ix + [|inputs|];
      assert more[|ix|] == |inputs|;
      assert forall i :: i in more <==> i in ix || i == |inputs|;
    }
  }

  lemma {:induction false} MissingSelects(inputs: seq<Actor>, scheduled: seq<Actor>) returns (ix: seq<nat>)
    ensures Selects(inputs, scheduled, Missing(inputs, scheduled), ix)
  {
    if inputs == [] {
      ix := [];
    } else {
      var init, last := inputs[..|inputs| - 1], inputs[|inputs| - 1];
      ix := MissingSelects(init, scheduled);
      SelectsSnoc(init, scheduled, Missing(init, scheduled), ix, last);
      assert init + [last] == inputs;
      if last !in scheduled {
        ix := ix + [|init|];
      } else {
        assert Missing(init, scheduled) + [] == Missing(init, scheduled);
      }
    }
  }

  lemma SelectionIsOrdered(inputs: seq<Actor>, scheduled: seq<Actor>, chosen: seq<Actor>, ix: seq<nat>, i: nat, j: nat)
    requires Selects(inputs, scheduled, chosen, ix) && i < j < |inputs|
    requires inputs[i] !in scheduled && inputs[j] !in scheduled
    ensures Before(chosen, inputs[i], inputs[j])
  {
    var p :| 0 <= p < |ix| && ix[p] == i;
    var q :| 0 <= q < |ix| && ix[q] == j;
    assert p < q;
    assert chosen[p] == inputs[i] && chosen[q] == inputs[j];
  }

  lemma BeforeInside<T>(s: seq<T>, before: seq<T>, t: seq<T>, x: T, y: T)
    requires before + s <= t && Before(s, x, y)
    ensures Before(t, x, y)
  {
    var p, q :| 0 <= p < q < |s| && s[p] == x && s[q] == y;
    var n := |before|;
    assert t[n + p] == (before + s)[n + p] && t[n + q] == (before + s)[n + q];
  }

  /** Tasks are only ever added at the end. */
  lemma StepExtends(w: World, s: State, l: Label)
    requires Enabled(w, s, l)
    ensures s.order <= Apply(w, s, l).order
  {
  }

  lemma {:induction false} RunExtends(w: World, run: seq<Label>, n: nat)
    requires Legal(w, run) && n <= |run| && Legal(w, run[..n])
    ensures After(w, run[..n]).order <= After(w, run).order
  {
    if n == |run| {
      assert run[..n] == run;
    } else {
      var init := run[..|run| - 1];
      assert init[..n] == run[..n];
      RunExtends(w, init, n);
      StepExtends(w, After(w, init), run[|run| - 1]);
    }
  }

  /** `x` has no task before the step at `n`, and has one after it. */
  ghost predicate GetsTaskAt(w: World, run: seq<Label>, n: nat, x: Actor) {
    && n < |run| && Legal(w, run[..n]) && Legal(w, run[..n + 1])
    && x !in After(w, run[..n]).order && x in After(w, run[..n + 1]).order
  }

  lemma ScheduleStepAt(w: World, run: seq<Label>, n: nat, a: Actor)
    requires n < |run| && Legal(w, run[..n]) && Legal(w, run[..n + 1]) && run[n] == Schedule(a)
    ensures After(w, run[..n + 1]).order ==
            After(w, run[..n]).order + Missing(Deps(w, a), After(w, run[..n]).order)
  {
    assert run[..n + 1][..n] == run[..n];
  }

  /**
   * In every run of every world: two arguments that got their tasks from one and the same schedule step stand in
   * `_scheduled` in argument order, for good.
   */
  lemma TasksInArgumentOrder(w: World, run: seq<Label>, n: nat, a: Actor, i: nat, j: nat)
    requires ValidWorld(w) && Legal(w, run) && n < |run| && run[n] == Schedule(a)
    requires i < j < |Deps(w, a)|
    requires GetsTaskAt(w, run, n, Deps(w, a)[i]) && GetsTaskAt(w, run, n, Deps(w, a)[j])
    ensures Before(After(w, run).order, Deps(w, a)[i], Deps(w, a)[j])
  {
    var deps, earlier := Deps(w, a), After(w, run[..n]).order;
    var missing := Missing(deps, earlier);
    var ix := MissingSelects(deps, earlier);
    SelectionIsOrdered(deps, earlier, missing, ix, i, j);
    ScheduleStepAt(w, run, n, a);
    RunExtends(w, run, n + 1);
    BeforeInside(missing, earlier, After(w, run).order, deps[i], deps[j]);
  }

  lemma PrefixFirst<T>(s: seq<T>, t: seq<T>, x: T, y: T)
    requires s <= t && x in s && y in t && y !in s
    ensures Before(t, x, y)
  {
    var p :| 0 <= p < |s| && s[p] == x;
    var q :| 0 <= q < |t| && t[q] == y;
    assert forall k :: 0 <= k < |s| ==> t[k] == s[k];
  }

  /** Whoever had a task before a step stands before whoever gets one from it. */
  lemma EarlierTasksFirst(w: World, run: seq<Label>, n: nat, x: Actor, y: Actor)
    requires Legal(w, run) && GetsTaskAt(w, run, n, y) && x in After(w, run[..n]).order
    ensures Before(After(w, run).order, x, y)
  {
    var earlier, later, all := After(w, run[..n]).order, After(w, run[..n + 1]).order, After(w, run).order;
    assert run[..n + 1][..n] == run[..n];
    StepExtends(w, After(w, run[..n]), run[n]);
    RunExtends(w, run, n + 1);
    PrefixFirst(earlier, later, x, y);
    BeforeInside(later, [], all, x, y);
  }

  lemma {:induction false} FirstFailedIsFirst(order: seq<Actor>, phase: map<Actor, Phase>, f: Actor)
    requires f in order && Failed(phase, f)
    ensures FirstFailed(order, phase).Some?
    ensures FirstFailed(order, phase).value == f || Before(order, FirstFailed(order, phase).value, f)
  {
    if !Failed(phase, order[0]) {
      FirstFailedIsFirst(order[1..], phase, f);
      var k := FirstFailed(order[1..], phase).value;
      if k != f {
        BeforeInside(order[1..], [order[0]], order, k, f);
      }
    } else if order[0] != f {
      var q :| 0 <= q < |order| && order[q] == f;
      assert order[0] == FirstFailed(order, phase).value;
    }
  }

  /** The task of `k` is done with the exception `e`. */
  ghost predicate FailedWith(s: State, k: Actor, e: Error) {
    k in s.phase && s.phase[k] == Done(Raised(e))
  }

  /** `k` failed with `e`, and every other task that failed was scheduled after it. */
  ghost predicate FirstToFail(s: State, k: Actor, e: Error) {
    FailedWith(s, k, e) && forall f, o :: FailedWith(s, f, o) && f != k ==> Before(s.order, k, f)
  }

  /**
   * A poll raises exactly when some task is done with an exception; it names the one that was scheduled first, carries
   * its exception as the cause, and has the class the map gives to that. Otherwise the caller waits on, with nothing
   * left to see exactly when everything it asked for is cached.
   */
  lemma PollNamesFirst(w: World, s: State, a: Actor)
    requires ValidWorld(w) && Inv(w, s) && Enabled(w, s, Poll(a))
    ensures a in Apply(w, s, Poll(a)).phase
    ensures var p := Apply(w, s, Poll(a)).phase[a];
            if exists f, o :: FailedWith(s, f, o) then
              exists k, e: Error :: p == Ended(Raised(Caching(w.remap(e.cls), k, e))) && FirstToFail(s, k, e)
            else
              p.Waiting? && (p.seen == |Deps(w, a)| <==> forall d :: d in Deps(w, a) ==> d in s.cache)
  {
    var failed := FirstFailed(s.order, s.phase);
    forall f, o | FailedWith(s, f, o)
      ensures failed.Some? && (f != failed.value ==> Before(s.order, failed.value, f))
    {
      assert ActorOk(w, s, f);
      FirstFailedIsFirst(s.order, s.phase, f);
    }
    if failed.Some? {
      var k := failed.value;
      assert FirstToFail(s, k, s.phase[k].outcome.error);
    }
  }

  lemma BeforeOneWay<T>(s: seq<T>, x: T, y: T)
    requires Distinct(s) && Before(s, x, y)
    ensures x != y && !Before(s, y, x)
  {
  }

  /**
   * So of two failed arguments that one call scheduled, a poll that raises for one of them raises for the earlier, and
   * with its class: the order of the arguments decides between two verdicts. Once the earlier has failed no poll names
   * the later.
   */
  lemma EarlierArgumentDecides(w: World, run: seq<Label>, n: nat, a: Actor, i: nat, j: nat, b: Actor, e: Error)
    requires ValidWorld(w) && Legal(w, run) && n < |run| && run[n] == Schedule(a)
    requires i < j < |Deps(w, a)|
    requires GetsTaskAt(w, run, n, Deps(w, a)[i]) && GetsTaskAt(w, run, n, Deps(w, a)[j])
    requires FailedWith(After(w, run), Deps(w, a)[i], e)
    requires Legal(w, run + [Poll(b)])
    ensures HasRaised(After(w, run + [Poll(b)]), b)
    ensures var raised := After(w, run + [Poll(b)]).phase[b].outcome.error;
            && raised.Caching? && raised.failed != Deps(w, a)[j]
            && (raised.failed == Deps(w, a)[i] ==> raised == Caching(w.remap(e.cls), Deps(w, a)[i], e))
  {
    var s, x, y := After(w, run), Deps(w, a)[i], Deps(w, a)[j];
    assert (run + [Poll(b)])[..|run + [Poll(b)]| - 1] == run;
    InvAlways(w, run);
    PollNamesFirst(w, s, b);
    TasksInArgumentOrder(w, run, n, a, i, j);
    BeforeOneWay(s.order, x, y);
  }
}
