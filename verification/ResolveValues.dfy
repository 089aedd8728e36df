/** What `resolve` returns: in every interleaving, the plain recursive evaluation. */
module ResolveValues {
  import opened Collections
  import opened ErrorMaps
  import opened InputGraph
  import opened Protocol

  /** No input's `_context_close` suspends, as the default one does not. */
  ghost predicate NoSlowClose(w: World) {
    w.slowClose !! w.inputs
  }

  predicate Succeeded(phase: map<Actor, Phase>, a: Actor) {
    a in phase && phase[a].Done? && phase[a].outcome.Ok?
  }

  predicate HasSucceeded(s: State, a: Actor) {
    a in s.phase && Finished(s.phase[a]) && s.phase[a].outcome.Ok?
  }

  /** Past its last poll, or finished without an error. */
  ghost predicate SawSuccess(w: World, p: Phase, a: Actor) {
    p.Resolved? || p == Waiting(|Deps(w, a)|) || (Finished(p) && p.outcome.Ok?)
  }

  /** On its evaluated dependencies the own code of `a` throws `c`. */
  ghost predicate OwnThrows(w: World, a: Actor, c: Class)
    requires ValidWorld(w) && Known(w, a)
  {
    var results := EvalDeps(w, a, |Deps(w, a)|);
    results.Some? && w.own(a, w.kwargs + results.value) == Own.Threw(c)
  }

  /** An actor that finished with its own code's outcome has its evaluation, or what its own code throws. */
  ghost predicate OutcomeIsOwn(w: World, a: Actor, p: Phase)
    requires ValidWorld(w) && Known(w, a)
  {
    Finished(p) ==>
      match p.outcome
      case Ok(v) => Eval(w, a) == Some(v)
      case Raised(Raw(c)) => OwnThrows(w, a, c)
      case Raised(_) => true
  }

  ghost predicate ActorGood(w: World, s: State, a: Actor)
    requires ValidWorld(w) && a in s.phase
  {
    var p := s.phase[a];
    && Known(w, a)
    && !p.Closing?
    && (SawSuccess(w, p, a) ==> forall d :: d in Deps(w, a) ==> Succeeded(s.phase, d))
    && (p.Resolved? ==> EvalDeps(w, a, |Deps(w, a)|) == Some(p.results))
    && OutcomeIsOwn(w, a, p)
  }

  ghost predicate Good(w: World, s: State)
    requires ValidWorld(w)
  {
    forall a :: a in s.phase ==> ActorGood(w, s, a)
  }

  /** Looking up the data of dependencies that hold their evaluations is evaluating them. */
  lemma {:induction false} ResultsAreEvaluations(w: World, s: State, a: Actor, n: nat)
    requires ValidWorld(w) && Known(w, a) && n <= |Deps(w, a)|
    requires forall d :: d in Deps(w, a) ==> d in w.inputs && d in s.cache && Eval(w, d) == Some(DataOf(s.data, d))
    ensures EvalDeps(w, a, n) == Some(Results(w, Deps(w, a)[..n], s.cache, s.data))
  {
    var ds := Deps(w, a);
    if n > 0 {
      ResultsAreEvaluations(w, s, a, n - 1);
      assert ds[..n][..n - 1] == ds[..n - 1];
      assert ds[n - 1] in ds;
    }
  }

  lemma OthersStayGood(w: World, s: State, t: State, a: Actor)
    requires ValidWorld(w) && Good(w, s) && Moves(s, t, a) && !s.phase[a].Done?
    requires forall b :: b in t.phase ==> Known(w, b)
    ensures forall b :: b in t.phase && b != a ==> ActorGood(w, t, b)
  {
    forall b | b in t.phase && b != a
      ensures ActorGood(w, t, b)
    {
      if b in s.phase {
        assert ActorGood(w, s, b);
      }
    }
  }

  /** A poll that raises nothing and sees everything cached has seen everything succeed. */
  lemma FullPollSucceeded(w: World, s: State, a: Actor)
    requires ValidWorld(w) && Inv(w, s) && Good(w, s) && Known(w, a)
    requires FirstFailed(s.order, s.phase).None?
    requires forall d :: d in Deps(w, a) ==> d in s.cache
    ensures forall d :: d in Deps(w, a) ==> Succeeded(s.phase, d)
  {
    forall d | d in Deps(w, a)
      ensures Succeeded(s.phase, d)
    {
      assert ActorOk(w, s, d) && ActorGood(w, s, d);
      assert d in w.inputs && d in s.order;
    }
  }

  /** It is enough to look at the actor that moved, and at its dependencies before the move. */
  lemma BecomesGood(w: World, s: State, t: State, a: Actor)
    requires ValidWorld(w) && Known(w, a) && Good(w, s) && Moves(s, t, a) && !s.phase[a].Done?
    requires forall b :: b in t.phase ==> Known(w, b)
    requires !t.phase[a].Closing?
    requires SawSuccess(w, t.phase[a], a) ==> forall d :: d in Deps(w, a) ==> Succeeded(s.phase, d)
    requires t.phase[a].Resolved? ==> EvalDeps(w, a, |Deps(w, a)|) == Some(t.phase[a].results)
    requires OutcomeIsOwn(w, a, t.phase[a])
    ensures Good(w, t)
  {
    OthersStayGood(w, s, t, a);
    assert ActorGood(w, t, a);
  }

  lemma RaisesGood(w: World, s: State, t: State, a: Actor, e: Error)
    requires ValidWorld(w) && Good(w, s) && Moves(s, t, a) && !s.phase[a].Done? && t.phase[a] == Ended(Raised(e))
    requires e.Caching?
    requires forall b :: b in t.phase ==> Known(w, b)
    ensures Good(w, t)
  {
    BecomesGood(w, s, t, a);
  }

  lemma WaitsGood(w: World, s: State, t: State, a: Actor, n: nat)
    requires ValidWorld(w) && Good(w, s) && Moves(s, t, a) && !s.phase[a].Done? && t.phase[a] == Waiting(n)
    requires n == |Deps(w, a)| ==> forall d :: d in Deps(w, a) ==> Succeeded(s.phase, d)
    requires forall b :: b in t.phase ==> Known(w, b)
    ensures Good(w, t)
  {
    BecomesGood(w, s, t, a);
  }

  lemma PollGood(w: World, s: State, a: Actor, t: State)
    requires ValidWorld(w) && Inv(w, s) && Good(w, s) && Enabled(w, s, Poll(a)) && t == Polling(w, s, a)
    requires Moves(s, t, a) && forall b :: b in t.phase ==> Known(w, b)
    ensures Good(w, t)
  {
    var failed, n := FirstFailed(s.order, s.phase), CountCached(Deps(w, a), s.cache);
    if failed.Some? {
      RaisesGood(w, s, t, a, Remapped(w, s.phase, failed.value));
    } else {
      if n == |Deps(w, a)| {
        FullPollSucceeded(w, s, a);
      }
      WaitsGood(w, s, t, a, n);
    }
  }

  lemma FinishGood(w: World, s: State, a: Actor, t: State)
    requires ValidWorld(w) && Inv(w, s) && Good(w, s) && Enabled(w, s, Finish(a)) && t == Finishing(w, s, a)
    requires Moves(s, t, a) && forall b :: b in t.phase ==> Known(w, b)
    ensures Good(w, t)
  {
    assert ActorGood(w, s, a);
    forall d | d in Deps(w, a)
      ensures d in w.inputs && d in s.cache && Eval(w, d) == Some(DataOf(s.data, d))
    {
      assert ActorOk(w, s, d) && ActorGood(w, s, d);
    }
    ResultsAreEvaluations(w, s, a, |Deps(w, a)|);
    assert Deps(w, a)[..|Deps(w, a)|] == Deps(w, a);
    BecomesGood(w, s, t, a);
  }

  lemma ComputeGood(w: World, s: State, a: Actor, t: State)
    requires ValidWorld(w) && Inv(w, s) && Good(w, s) && Enabled(w, s, Compute(a)) && t == Computing(w, s, a)
    requires Moves(s, t, a) && forall b :: b in t.phase ==> Known(w, b)
    ensures Good(w, t)
  {
    assert ActorGood(w, s, a);
    BecomesGood(w, s, t, a);
  }

  lemma WriteGood(w: World, s: State, a: Actor, t: State)
    requires ValidWorld(w) && NoSlowClose(w) && Inv(w, s) && Good(w, s)
    requires Enabled(w, s, Write(a)) && t == Writing(w, s, a)
    requires Moves(s, t, a) && forall b :: b in t.phase ==> Known(w, b)
    ensures Good(w, t)
  {
    assert ActorGood(w, s, a);
    BecomesGood(w, s, t, a);
  }

  lemma StartGood(w: World, s: State, a: Actor, t: State)
    requires ValidWorld(w) && Inv(w, s) && Good(w, s) && Enabled(w, s, Start(a)) && t == Starting(w, s, a)
    requires Moves(s, t, a) && forall b :: b in t.phase ==> Known(w, b)
    ensures Good(w, t)
  {
    assert ActorOk(w, s, a);
    BecomesGood(w, s, t, a);
  }

  lemma EnterGood(w: World, s: State, a: Actor, t: State)
    requires ValidWorld(w) && Inv(w, s) && Good(w, s) && Enabled(w, s, Enter(a)) && t == Entered(s, a)
    requires Moves(s, t, a) && forall b :: b in t.phase ==> Known(w, b)
    ensures Good(w, t)
  {
    assert ActorOk(w, s, a);
    BecomesGood(w, s, t, a);
  }

  lemma ScheduleGood(w: World, s: State, a: Actor, t: State)
    requires ValidWorld(w) && Inv(w, s) && Good(w, s) && Enabled(w, s, Schedule(a)) && t == Scheduling(w, s, a)
    requires Moves(s, t, a) && forall b :: b in t.phase ==> Known(w, b)
    ensures Good(w, t)
  {
    BecomesGood(w, s, t, a);
  }

  lemma GoodStep(w: World, s: State, l: Label)
    requires ValidWorld(w) && NoSlowClose(w) && Inv(w, s) && Good(w, s) && Enabled(w, s, l)
    ensures Good(w, Apply(w, s, l))
  {
    InvStep(w, s, l);
    match l
    case Start(a) => StartGood(w, s, a, Starting(w, s, a));
    case Enter(a) => EnterGood(w, s, a, Entered(s, a));
    case Schedule(a) => ScheduleGood(w, s, a, Scheduling(w, s, a));
    case Poll(a) => PollGood(w, s, a, Polling(w, s, a));
    case Finish(a) => FinishGood(w, s, a, Finishing(w, s, a));
    case Compute(a) => ComputeGood(w, s, a, Computing(w, s, a));
    case Write(a) => WriteGood(w, s, a, Writing(w, s, a));
    case Close(a) =>
  }

  lemma {:induction false} GoodAlways(w: World, run: seq<Label>)
    requires ValidWorld(w) && NoSlowClose(w) && Legal(w, run)
    ensures Good(w, After(w, run))
  {
    if run != [] {
      var init := run[..|run| - 1];
      GoodAlways(w, init);
      InvAlways(w, init);
      GoodStep(w, After(w, init), run[|run| - 1]);
    }
  }

  // ----- Every world: the evaluation, unless something that is needed has raised -----

  ghost predicate NeededRaised(w: World, s: State, a: Actor)
    requires ValidWorld(w) && Known(w, a)
  {
    exists d :: d in Needs(w, a, |Deps(w, a)|) && HasRaised(s, d)
  }

  ghost predicate ActorTrue(w: World, s: State, a: Actor)
    requires ValidWorld(w) && a in s.phase
  {
    var p := s.phase[a];
    && Known(w, a)
    && (p.Resolved? ==> EvalDeps(w, a, |Deps(w, a)|) == Some(p.results) || NeededRaised(w, s, a))
    && (OutcomeIsOwn(w, a, p) || NeededRaised(w, s, a))
  }

  ghost predicate AllTrue(w: World, s: State)
    requires ValidWorld(w)
  {
    forall a :: a in s.phase ==> ActorTrue(w, s, a)
  }

  /** Whoever has raised has raised for good. */
  lemma RaisedStays(w: World, s: State, l: Label)
    requires ValidWorld(w) && Inv(w, s) && Enabled(w, s, l)
    ensures forall b :: HasRaised(s, b) ==> HasRaised(Apply(w, s, l), b)
  {
    StepMoves(w, s, l);
  }

  lemma NeedsOfDependency(w: World, a: Actor, d: Actor)
    requires ValidWorld(w) && Known(w, a) && d in Deps(w, a)
    ensures d in w.inputs && d in Needs(w, a, |Deps(w, a)|)
    ensures Needs(w, d, |Deps(w, d)|) <= Needs(w, a, |Deps(w, a)|)
  {
    NeedsIsLeast(w, a, |Deps(w, a)|);
    NeedsIsLeast(w, d, |Deps(w, d)|);
  }

  /** A cached dependency holds its evaluation, unless something that `a` needs has raised. */
  lemma CachedDependency(w: World, s: State, a: Actor, d: Actor)
    requires ValidWorld(w) && Inv(w, s) && AllTrue(w, s) && Known(w, a) && d in Deps(w, a) && d in s.cache
    requires !NeededRaised(w, s, a)
    ensures d in w.inputs && Eval(w, d) == Some(DataOf(s.data, d))
  {
    NeedsOfDependency(w, a, d);
    assert ActorOk(w, s, d) && ActorTrue(w, s, d);
    assert !HasRaised(s, d);
  }

  lemma FinishIsTrue(w: World, s: State, a: Actor)
    requires ValidWorld(w) && Inv(w, s) && AllTrue(w, s) && Enabled(w, s, Finish(a)) && !NeededRaised(w, s, a)
    ensures EvalDeps(w, a, |Deps(w, a)|) == Some(Results(w, Deps(w, a), s.cache, s.data))
  {
    assert ActorOk(w, s, a);
    forall d | d in Deps(w, a)
      ensures d in w.inputs && d in s.cache && Eval(w, d) == Some(DataOf(s.data, d))
    {
      CachedDependency(w, s, a, d);
    }
    ResultsAreEvaluations(w, s, a, |Deps(w, a)|);
    assert Deps(w, a)[..|Deps(w, a)|] == Deps(w, a);
  }

  lemma ComputeIsTrue(w: World, s: State, a: Actor)
    requires ValidWorld(w) && AllTrue(w, s) && Enabled(w, s, Compute(a)) && !NeededRaised(w, s, a)
    ensures var p := Computing(w, s, a).phase[a];
            p.Ended? && OutcomeIsOwn(w, a, p)
  {
    assert ActorTrue(w, s, a);
  }

  lemma OwnStepTrue(w: World, s: State, l: Label, p: Phase)
    requires ValidWorld(w) && Inv(w, s) && AllTrue(w, s) && Enabled(w, s, l) && !NeededRaised(w, s, l.actor)
    requires l.actor in Apply(w, s, l).phase && p == Apply(w, s, l).phase[l.actor]
    ensures p.Resolved? ==> EvalDeps(w, l.actor, |Deps(w, l.actor)|) == Some(p.results)
    ensures OutcomeIsOwn(w, l.actor, p)
  {
    assert ActorOk(w, s, l.actor) && ActorTrue(w, s, l.actor);
    match l
    case Finish(a) => FinishIsTrue(w, s, a);
    case Compute(a) => ComputeIsTrue(w, s, a);
    case _ =>
  }

  lemma BecomesTrue(w: World, s: State, t: State, a: Actor)
    requires ValidWorld(w) && Known(w, a) && AllTrue(w, s) && Moves(s, t, a)
    requires forall b :: HasRaised(s, b) ==> HasRaised(t, b)
    requires forall b :: b in t.phase ==> Known(w, b)
    requires !NeededRaised(w, s, a) ==>
               && (t.phase[a].Resolved? ==> EvalDeps(w, a, |Deps(w, a)|) == Some(t.phase[a].results))
               && OutcomeIsOwn(w, a, t.phase[a])
    ensures AllTrue(w, t)
  {
    forall b | b in t.phase
      ensures ActorTrue(w, t, b)
    {
      assert NeededRaised(w, s, b) ==> NeededRaised(w, t, b);
      assert b in s.phase ==> ActorTrue(w, s, b);
    }
  }

  lemma TrueStep(w: World, s: State, l: Label, t: State)
    requires ValidWorld(w) && Inv(w, s) && AllTrue(w, s) && Enabled(w, s, l) && t == Apply(w, s, l)
    ensures AllTrue(w, t)
  {
    StepMoves(w, s, l);
    RaisedStays(w, s, l);
    if !NeededRaised(w, s, l.actor) {
      OwnStepTrue(w, s, l, t.phase[l.actor]);
    }
    BecomesTrue(w, s, t, l.actor);
  }

  lemma {:induction false} TrueAlways(w: World, run: seq<Label>)
    requires ValidWorld(w) && Legal(w, run)
    ensures AllTrue(w, After(w, run))
  {
    if run != [] {
      var init := run[..|run| - 1];
      TrueAlways(w, init);
      InvAlways(w, init);
      TrueStep(w, After(w, init), run[|run| - 1], After(w, run));
    }
  }

  /** Whatever `resolve` returns, in any world, is the recursive evaluation, unless some input it needs has raised. */
  lemma ReturnedUnlessRaised(w: World, run: seq<Label>, a: Actor)
    requires ValidWorld(w) && Legal(w, run)
    requires Known(w, a) && a in After(w, run).phase && After(w, run).phase[a].Resolved?
    ensures EvalDeps(w, a, |Deps(w, a)|) == Some(After(w, run).phase[a].results) || NeededRaised(w, After(w, run), a)
  {
    TrueAlways(w, run);
    assert ActorTrue(w, After(w, run), a);
  }

  /**
   * If no `_context_close` suspends, or if nothing that is needed has raised, then whatever `resolve` returns, to a
   * top-level caller or to an input, is the recursive evaluation of its arguments, and all of them have succeeded.
   */
  lemma ReturnedIsEvaluated(w: World, run: seq<Label>, a: Actor)
    requires ValidWorld(w) && Legal(w, run)
    requires Known(w, a) && a in After(w, run).phase && After(w, run).phase[a].Resolved?
    requires NoSlowClose(w) || !NeededRaised(w, After(w, run), a)
    ensures EvalDeps(w, a, |Deps(w, a)|) == Some(After(w, run).phase[a].results)
    ensures forall d :: d in Deps(w, a) ==> HasSucceeded(After(w, run), d)
    ensures NoSlowClose(w) ==> forall d :: d in Deps(w, a) ==> Succeeded(After(w, run).phase, d)
  {
    if NoSlowClose(w) {
      GoodAlways(w, run);
      assert ActorGood(w, After(w, run), a);
    } else {
      ReturnedUnlessRaised(w, run, a);
      InvAlways(w, run);
      forall d | d in Deps(w, a)
        ensures HasSucceeded(After(w, run), d)
      {
        UnraisedSucceeded(w, After(w, run), a, d);
      }
    }
  }

  lemma UnraisedSucceeded(w: World, s: State, a: Actor, d: Actor)
    requires ValidWorld(w) && Inv(w, s) && Known(w, a) && a in s.phase && s.phase[a].Resolved? && d in Deps(w, a)
    requires !NeededRaised(w, s, a)
    ensures HasSucceeded(s, d)
  {
    NeedsOfDependency(w, a, d);
    assert ActorOk(w, s, a) && ActorOk(w, s, d);
    assert !HasRaised(s, d);
  }

  /**
   * Under the same condition: one entry for each alias among the arguments, holding the evaluation of the last
   * argument of that alias.
   */
  lemma ReturnedByAlias(w: World, run: seq<Label>, a: Actor)
    requires ValidWorld(w) && Legal(w, run)
    requires Known(w, a) && a in After(w, run).phase && After(w, run).phase[a].Resolved?
    requires NoSlowClose(w) || !NeededRaised(w, After(w, run), a)
    ensures var results, n := After(w, run).phase[a].results, |Deps(w, a)|;
            && results.Keys == AliasesOf(w, a, n)
            && forall i :: 0 <= i < n && LastOfAlias(w, a, i, n) ==> EntryIsEval(w, a, i, results)
  {
    ReturnedIsEvaluated(w, run, a);
    EvalDepsByAlias(w, a, |Deps(w, a)|);
  }

  /**
   * Under the same condition: whatever an input ended with by its own code is what that code does on the arguments it
   * should get, a value or an error.
   */
  lemma EndsByOwnCode(w: World, run: seq<Label>, a: Actor)
    requires ValidWorld(w) && Legal(w, run)
    requires Known(w, a) && a in After(w, run).phase && RanOwnCode(After(w, run).phase[a])
    requires NoSlowClose(w) || !NeededRaised(w, After(w, run), a)
    ensures exists args :: IsArguments(w, a, args) &&
              match After(w, run).phase[a].outcome
              case Ok(v) => w.own(a, args) == Produced(v)
              case Raised(e) => w.own(a, args) == Own.Threw(e.cls)
  {
    var p := After(w, run).phase[a];
    if NoSlowClose(w) {
      GoodAlways(w, run);
      assert ActorGood(w, After(w, run), a);
    } else {
      TrueAlways(w, run);
      assert ActorTrue(w, After(w, run), a);
    }
    ArgumentsAre(w, a);
    assert IsArguments(w, a, w.kwargs + EvalDeps(w, a, |Deps(w, a)|).value);
  }

  /** What `_cache` holds after any run: what a task produced, and None for one that failed. */
  lemma CachedIs(w: World, run: seq<Label>, a: Actor)
    requires ValidWorld(w) && Legal(w, run) && a in After(w, run).cache
    ensures a in w.inputs
    ensures var s := After(w, run);
            if HasRaised(s, a) then s.cache[a] == Nothing
            else a in s.data && s.cache[a] == s.data[a] && (Eval(w, a) == Some(s.cache[a]) || NeededRaised(w, s, a))
  {
    InvAlways(w, run);
    TrueAlways(w, run);
    assert ActorOk(w, After(w, run), a) && ActorTrue(w, After(w, run), a);
  }

  // ----- No failure out of nowhere -----

  ghost predicate ActorHealthy(w: World, s: State, a: Actor)
    requires ValidWorld(w) && a in s.phase
  {
    && Known(w, a)
    && EvalDeps(w, a, |Deps(w, a)|).Some?
    && (a.Input? ==> Eval(w, a).Some?)
    && !(Finished(s.phase[a]) && s.phase[a].outcome.Raised?)
  }

  ghost predicate Healthy(w: World, s: State)
    requires ValidWorld(w)
  {
    forall a :: a in s.phase ==> ActorHealthy(w, s, a)
  }

  ghost predicate CallsEvaluate(w: World)
    requires ValidWorld(w)
  {
    forall c :: c in w.callers ==> EvalDeps(w, c, |Deps(w, c)|).Some?
  }

  lemma DepsEvaluate(w: World, a: Actor, d: Actor)
    requires ValidWorld(w) && Known(w, a) && d in Deps(w, a)
    requires EvalDeps(w, a, |Deps(w, a)|).Some?
    ensures d in w.inputs && Eval(w, d).Some? && EvalDeps(w, d, |Deps(w, d)|).Some?
  {
    EvalDepsSome(w, a, |Deps(w, a)|);
    var i :| 0 <= i < |Deps(w, a)| && Deps(w, a)[i] == d;
    assert DepEvaluates(w, a, i);
  }

  lemma BecomesHealthy(w: World, s: State, t: State, a: Actor)
    requires ValidWorld(w) && Healthy(w, s) && Moves(s, t, a)
    requires forall b :: b in t.phase && b !in s.phase ==> b in Deps(w, a)
    requires !(Finished(t.phase[a]) && t.phase[a].outcome.Raised?)
    ensures Healthy(w, t)
  {
    forall b | b in t.phase
      ensures ActorHealthy(w, t, b)
    {
      assert ActorHealthy(w, s, a);
      if b in s.phase {
        assert ActorHealthy(w, s, b);
      } else {
        DepsEvaluate(w, a, b);
      }
    }
  }

  lemma PollRaisesNothing(w: World, s: State, a: Actor)
    requires ValidWorld(w) && Ordered(s) && Healthy(w, s) && Enabled(w, s, Poll(a))
    ensures Polling(w, s, a).phase[a].Waiting?
  {
    forall k | k in s.order
      ensures !Failed(s.phase, k)
    {
      assert ActorHealthy(w, s, k);
    }
  }

  lemma NobodyRaised(w: World, s: State, a: Actor)
    requires ValidWorld(w) && Healthy(w, s) && Known(w, a)
    ensures !NeededRaised(w, s, a)
  {
    forall d
      ensures !HasRaised(s, d)
    {
      assert d in s.phase ==> ActorHealthy(w, s, d);
    }
  }

  lemma ComputeRaisesNothing(w: World, s: State, a: Actor)
    requires ValidWorld(w) && AllTrue(w, s) && Healthy(w, s) && Enabled(w, s, Compute(a))
    ensures Computing(w, s, a).phase[a].Ended? && Computing(w, s, a).phase[a].outcome.Ok?
  {
    NobodyRaised(w, s, a);
    assert ActorTrue(w, s, a) && ActorHealthy(w, s, a);
  }

  lemma RaisesNothing(w: World, s: State, l: Label)
    requires ValidWorld(w) && Ordered(s) && AllTrue(w, s) && Healthy(w, s) && Enabled(w, s, l)
    requires l.actor in Apply(w, s, l).phase
    ensures var p := Apply(w, s, l).phase[l.actor];
            !(Finished(p) && p.outcome.Raised?)
  {
    assert ActorHealthy(w, s, l.actor);
    match l
    case Poll(a) => PollRaisesNothing(w, s, a);
    case Compute(a) => ComputeRaisesNothing(w, s, a);
    case _ =>
  }

  lemma HealthyStep(w: World, s: State, l: Label)
    requires ValidWorld(w) && Inv(w, s) && AllTrue(w, s) && Healthy(w, s) && Enabled(w, s, l)
    ensures Healthy(w, Apply(w, s, l))
  {
    StepMoves(w, s, l);
    RaisesNothing(w, s, l);
    BecomesHealthy(w, s, Apply(w, s, l), l.actor);
  }

  /** If every call evaluates then nothing ever fails, in any world and any interleaving. */
  lemma {:induction false} HealthyAlways(w: World, run: seq<Label>)
    requires ValidWorld(w) && CallsEvaluate(w) && Legal(w, run)
    ensures Healthy(w, After(w, run))
  {
    if run != [] {
      var init := run[..|run| - 1];
      HealthyAlways(w, init);
      TrueAlways(w, init);
      InvAlways(w, init);
      HealthyStep(w, After(w, init), run[|run| - 1]);
    }
  }
}
