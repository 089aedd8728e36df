/** The counters, the order of the cache, and how finished runs end. */
module ResolveAccounting {
  import opened Collections
  import opened InputGraph
  import opened Protocol
  import opened ResolveValues
  import opened ResolveProgress

  /** |cache| <= total executed <= |scheduled|, after every run. */
  lemma CountersOrdered(w: World, run: seq<Label>)
    requires ValidWorld(w) && Legal(w, run)
    ensures var s := After(w, run);
            && |s.cache| <= s.executed <= |s.order|
            && s.cache.Keys <= Elements(s.order)
  {
    InvAlways(w, run);
    var s := After(w, run);
    forall a | a in s.cache
      ensures a in Started(s)
    {
      assert ActorOk(w, s, a);
    }
    SubsetSize(s.cache.Keys, Started(s));
    assert Started(s) <= Elements(s.order);
    SubsetSize(Started(s), Elements(s.order));
    DistinctSize(s.order);
  }

  // ----- The cache is written in topological order -----

  predicate RanOwn(s: State, a: Actor) {
    a in s.phase && RanOwnCode(s.phase[a])
  }

  /** Every input whose own code ran was cached after all its dependencies. */
  ghost predicate Topological(w: World, s: State) {
    && Distinct(s.written)
    && (forall a :: a in s.written <==> a in s.cache)
    && (forall i, d :: 0 <= i < |s.written| && RanOwn(s, s.written[i]) && d in Deps(w, s.written[i]) ==>
          d in s.written[..i])
  }

  lemma TopologicalKept(w: World, s: State, t: State)
    requires Topological(w, s) && t.written == s.written
    requires forall a :: a in t.cache <==> a in s.cache
    requires forall a :: a in s.cache && RanOwn(t, a) ==> RanOwn(s, a)
    ensures Topological(w, t)
  {
    assert forall i :: 0 <= i < |s.written| ==> s.written[i] in s.cache;
  }

  lemma TopologicalWrite(w: World, s: State, a: Actor)
    requires Core(w, s) && Topological(w, s) && Enabled(w, s, Write(a))
    ensures Topological(w, Writing(w, s, a))
  {
    var t := Writing(w, s, a);
    assert ActorOk(w, s, a);
    assert t.written == s.written + [a];
    DistinctAppend(s.written, [a]);
    forall i, d | 0 <= i < |t.written| && RanOwn(t, t.written[i]) && d in Deps(w, t.written[i])
      ensures d in t.written[..i]
    {
      if i < |s.written| {
        assert t.written[i] == s.written[i] && s.written[i] in s.cache && s.written[i] != a;
        assert t.written[..i] == s.written[..i];
      } else {
        assert t.written[..i] == s.written;
      }
    }
  }

  lemma OwnCodeOnce(w: World, s: State, l: Label)
    requires Core(w, s) && Enabled(w, s, l) && !l.Write? && l.actor in Apply(w, s, l).phase
    ensures Apply(w, s, l).written == s.written && Apply(w, s, l).cache == s.cache
    ensures l.actor in s.cache && RanOwn(Apply(w, s, l), l.actor) ==> RanOwn(s, l.actor)
  {
    assert ActorOk(w, s, l.actor);
  }

  lemma TopologicalStep(w: World, s: State, l: Label)
    requires ValidWorld(w) && Inv(w, s) && Topological(w, s) && Enabled(w, s, l)
    ensures Topological(w, Apply(w, s, l))
  {
    if l.Write? {
      TopologicalWrite(w, s, l.actor);
    } else {
      StepMoves(w, s, l);
      OwnCodeOnce(w, s, l);
      TopologicalKept(w, s, Apply(w, s, l));
    }
  }

  lemma {:induction false} CacheOrderIsTopological(w: World, run: seq<Label>)
    requires ValidWorld(w) && Legal(w, run)
    ensures Topological(w, After(w, run))
  {
    if run != [] {
      var init := run[..|run| - 1];
      CacheOrderIsTopological(w, init);
      InvAlways(w, init);
      TopologicalStep(w, After(w, init), run[|run| - 1]);
    }
  }

  /** Own code starts only when every direct dependency is cached. */
  lemma OwnCodeStartsLate(w: World, run: seq<Label>, a: Actor, d: Actor)
    requires ValidWorld(w) && Legal(w, run) && Enabled(w, After(w, run), Compute(a)) && d in Deps(w, a)
    ensures d in After(w, run).cache
  {
    InvAlways(w, run);
    assert ActorOk(w, After(w, run), a);
  }

  // ----- Everything needed, and nothing else -----

  ghost function AllNeeds(w: World): set<Actor>
    requires ValidWorld(w)
  {
    set c, a | c in w.callers && a in Needs(w, c, |Deps(w, c)|) :: a
  }

  lemma NeedsClosed(w: World)
    requires ValidWorld(w)
    ensures ClosedUnderDeps(w, AllNeeds(w)) && AllNeeds(w) <= w.inputs
    ensures forall c, d :: c in w.callers && d in Deps(w, c) ==> d in AllNeeds(w)
  {
    forall c | c in w.callers
      ensures ClosedUnderDeps(w, Needs(w, c, |Deps(w, c)|)) && Needs(w, c, |Deps(w, c)|) <= w.inputs
      ensures forall d :: d in Deps(w, c) ==> d in Needs(w, c, |Deps(w, c)|)
    {
      NeedsIsLeast(w, c, |Deps(w, c)|);
    }
    forall a, d | a in AllNeeds(w) && d in Deps(w, a)
      ensures d in AllNeeds(w)
    {
      var c :| c in w.callers && a in Needs(w, c, |Deps(w, c)|);
      assert d in Needs(w, c, |Deps(w, c)|);
    }
  }

  ghost predicate OnlyNeeded(w: World, s: State)
    requires ValidWorld(w)
  {
    forall a :: a in s.phase && a.Input? ==> a in AllNeeds(w)
  }

  lemma {:induction false} OnlyNeededAlways(w: World, run: seq<Label>)
    requires ValidWorld(w) && Legal(w, run)
    ensures OnlyNeeded(w, After(w, run))
  {
    if run != [] {
      var init, l := run[..|run| - 1], run[|run| - 1];
      OnlyNeededAlways(w, init);
      InvAlways(w, init);
      StepMoves(w, After(w, init), l);
      NeedsClosed(w);
    }
  }

  ghost predicate AllReturned(w: World, s: State) {
    forall c :: c in w.callers ==> c in s.phase && s.phase[c].Resolved?
  }

  /** Cached after its own code has run, to whatever end. */
  predicate RanCached(s: State, a: Actor) {
    a in s.cache && RanOwn(s, a)
  }

  ghost predicate SomeFailed(s: State) {
    exists f :: f in s.order && Failed(s.phase, f)
  }

  /** Past its last poll, or past its own code. */
  ghost predicate SawAll(w: World, p: Phase, a: Actor) {
    p.Resolved? || p == Waiting(|Deps(w, a)|) || RanOwnCode(p)
  }

  /**
   * Until a task is done with an exception, whoever finishes does so by its own code; so whoever has seen all its
   * dependencies cached, and no such task, depends on inputs whose own code ran.
   */
  ghost predicate ActorSettles(w: World, s: State, a: Actor)
    requires a in s.phase
  {
    var p := s.phase[a];
    && (a.Input? && Finished(p) && !RanOwnCode(p) ==> SomeFailed(s))
    && (SawAll(w, p, a) ==> forall d :: d in Deps(w, a) ==> RanCached(s, d))
  }

  ghost predicate AllSettle(w: World, s: State) {
    forall a :: a in s.phase ==> ActorSettles(w, s, a)
  }

  lemma MoverStaysSettled(w: World, s: State, l: Label)
    requires Core(w, s) && Enabled(w, s, l) && RanCached(s, l.actor)
    ensures RanCached(Apply(w, s, l), l.actor)
  {
    assert ActorOk(w, s, l.actor);
    assert l.Close?;
  }

  lemma OrderGrows(w: World, s: State, l: Label)
    requires Enabled(w, s, l)
    ensures forall f :: f in s.order ==> f in Apply(w, s, l).order
  {
  }

  /** The inputs whose own code ran have run it for good, and a failed task stays failed. */
  lemma SettledStays(s: State, t: State, a: Actor)
    requires Moves(s, t, a) && !s.phase[a].Done? && (RanCached(s, a) ==> RanCached(t, a))
    requires forall f :: f in s.order ==> f in t.order
    ensures forall d :: RanCached(s, d) ==> RanCached(t, d)
    ensures SomeFailed(s) ==> SomeFailed(t)
  {
    if SomeFailed(s) {
      var f :| f in s.order && Failed(s.phase, f);
      assert f in t.order && Failed(t.phase, f);
    }
  }

  /** A full poll that raises nothing has seen own code run everywhere. */
  lemma FullPollSettles(w: World, s: State, a: Actor)
    requires ValidWorld(w) && Inv(w, s) && AllSettle(w, s) && Known(w, a)
    requires FirstFailed(s.order, s.phase).None? && forall d :: d in Deps(w, a) ==> d in s.cache
    ensures forall d :: d in Deps(w, a) ==> RanCached(s, d)
  {
    forall d | d in Deps(w, a)
      ensures RanCached(s, d)
    {
      assert d in w.inputs && ActorOk(w, s, d) && ActorSettles(w, s, d);
    }
  }

  lemma PollSettles(w: World, s: State, a: Actor, p: Phase)
    requires ValidWorld(w) && Inv(w, s) && AllSettle(w, s) && Enabled(w, s, Poll(a)) && p == Polling(w, s, a).phase[a]
    ensures Finished(p) ==> SomeFailed(s) && !RanOwnCode(p)
    ensures p == Waiting(|Deps(w, a)|) ==> forall d :: d in Deps(w, a) ==> RanCached(s, d)
  {
    var failed, n := FirstFailed(s.order, s.phase), CountCached(Deps(w, a), s.cache);
    if failed.Some? {
      assert p == Ended(Raised(Remapped(w, s.phase, failed.value)));
    } else {
      assert p == Waiting(n);
      if n == |Deps(w, a)| {
        FullPollSettles(w, s, a);
      }
    }
  }

  /** No step but a poll gets past the last poll, or ends otherwise than by own code. */
  lemma PhaseKeeps(w: World, s: State, l: Label, p: Phase)
    requires Core(w, s) && Enabled(w, s, l) && !l.Poll?
    requires l.actor in Apply(w, s, l).phase && p == Apply(w, s, l).phase[l.actor]
    ensures SawAll(w, p, l.actor) ==> SawAll(w, s.phase[l.actor], l.actor) || Deps(w, l.actor) == []
    ensures Finished(p) && !RanOwnCode(p) ==> Finished(s.phase[l.actor]) && !RanOwnCode(s.phase[l.actor])
  {
    assert ActorOk(w, s, l.actor);
    match l
    case Start(a) => assert p.Entering? || p.Resolving?;
    case Enter(a) => assert p.Resolving?;
    case Schedule(a) => assert p == Waiting(0);
    case _ =>
  }

  lemma OwnStepSettles(w: World, s: State, l: Label, p: Phase)
    requires ValidWorld(w) && Inv(w, s) && AllSettle(w, s) && Enabled(w, s, l)
    requires l.actor in Apply(w, s, l).phase && p == Apply(w, s, l).phase[l.actor]
    ensures l.actor.Input? && Finished(p) && !RanOwnCode(p) ==> SomeFailed(s)
    ensures SawAll(w, p, l.actor) ==> forall d :: d in Deps(w, l.actor) ==> RanCached(s, d)
  {
    if l.Poll? {
      PollSettles(w, s, l.actor, p);
    } else {
      assert ActorSettles(w, s, l.actor);
      PhaseKeeps(w, s, l, p);
    }
  }

  lemma BecomesSettled(w: World, s: State, t: State, a: Actor)
    requires AllSettle(w, s) && Moves(s, t, a)
    requires (forall d :: RanCached(s, d) ==> RanCached(t, d)) && (SomeFailed(s) ==> SomeFailed(t))
    requires a.Input? && Finished(t.phase[a]) && !RanOwnCode(t.phase[a]) ==> SomeFailed(s)
    requires SawAll(w, t.phase[a], a) ==> forall d :: d in Deps(w, a) ==> RanCached(s, d)
    ensures AllSettle(w, t)
  {
    forall b | b in t.phase
      ensures ActorSettles(w, t, b)
    {
      assert b in s.phase ==> ActorSettles(w, s, b);
    }
  }

  lemma {:induction false} SettlesAlways(w: World, run: seq<Label>)
    requires ValidWorld(w) && Legal(w, run)
    ensures AllSettle(w, After(w, run))
  {
    if run != [] {
      var init, l := run[..|run| - 1], run[|run| - 1];
      var s, t := After(w, init), After(w, run);
      SettlesAlways(w, init);
      InvAlways(w, init);
      StepMoves(w, s, l);
      if RanCached(s, l.actor) {
        MoverStaysSettled(w, s, l);
      }
      OrderGrows(w, s, l);
      SettledStays(s, t, l.actor);
      OwnStepSettles(w, s, l, t.phase[l.actor]);
      BecomesSettled(w, s, t, l.actor);
    }
  }

  lemma NeededSettled(w: World, s: State)
    requires ValidWorld(w) && AllSettle(w, s) && AllReturned(w, s)
    ensures forall a :: a in AllNeeds(w) ==> RanCached(s, a)
  {
    var done := set a | a in w.inputs && RanCached(s, a);
    forall a, d | a in done && d in Deps(w, a)
      ensures d in done
    {
      assert ActorSettles(w, s, a);
    }
    forall c | c in w.callers
      ensures Needs(w, c, |Deps(w, c)|) <= done
    {
      assert ActorSettles(w, s, c);
      NeedsIsLeast(w, c, |Deps(w, c)|);
    }
  }

  lemma SuccessAccounts(w: World, s: State, needs: set<Actor>)
    requires Inv(w, s) && needs <= w.inputs && forall a :: a in w.inputs ==> a.Input?
    requires forall a :: a in needs ==> a in s.cache
    requires forall a :: a in s.phase && a.Input? ==> a in needs
    ensures s.cache.Keys == Elements(s.order) == Started(s) == needs
  {
    forall a | a in s.phase
      ensures a in s.cache ==> a.Input?
      ensures a in needs ==> a in s.cache && a in s.order && a in Started(s)
    {
      assert ActorOk(w, s, a);
    }
    assert s.cache.Keys == needs;
    assert Elements(s.order) == needs;
    assert Started(s) == needs;
  }

  /**
   * When every call has returned, in any world, both counters equal the number of inputs the calls need, and those
   * are exactly the cached ones, each after its own code ran.
   */
  lemma CountersAfterSuccess(w: World, run: seq<Label>)
    requires ValidWorld(w) && Legal(w, run) && AllReturned(w, After(w, run))
    ensures var s := After(w, run);
            && s.cache.Keys == Elements(s.order) == AllNeeds(w)
            && s.executed == |s.cache| == |AllNeeds(w)|
            && forall a :: a in AllNeeds(w) ==> RanOwn(s, a)
  {
    InvAlways(w, run);
    SettlesAlways(w, run);
    OnlyNeededAlways(w, run);
    NeededSettled(w, After(w, run));
    NeedsClosed(w);
    SuccessAccounts(w, After(w, run), AllNeeds(w));
  }

  // ----- How finished runs end -----

  lemma HealthyCallReturns(w: World, s: State, c: Actor)
    requires ValidWorld(w) && Core(w, s) && Healthy(w, s) && c in w.callers && !Unfinished(s, c)
    ensures c in s.phase && s.phase[c].Resolved?
  {
    assert ActorOk(w, s, c) && ActorHealthy(w, s, c);
  }

  /**
   * The concurrent resolver against the recursive evaluator. A finished run of any world has every call returned if
   * every argument of every call evaluates; and only if, unless some `_context_close` suspends.
   */
  lemma FinishedRunsAgree(w: World, run: seq<Label>)
    requires ValidWorld(w) && Legal(w, run)
    requires forall a :: !Unfinished(After(w, run), a)
    ensures CallsEvaluate(w) ==> AllReturned(w, After(w, run))
    ensures NoSlowClose(w) && AllReturned(w, After(w, run)) ==> CallsEvaluate(w)
  {
    InvAlways(w, run);
    if NoSlowClose(w) && AllReturned(w, After(w, run)) {
      forall c | c in w.callers
        ensures EvalDeps(w, c, |Deps(w, c)|).Some?
      {
        ReturnedIsEvaluated(w, run, c);
      }
    }
    if CallsEvaluate(w) {
      HealthyAlways(w, run);
      forall c | c in w.callers
        ensures c in After(w, run).phase && After(w, run).phase[c].Resolved?
      {
        HealthyCallReturns(w, After(w, run), c);
      }
    }
  }
}
