/** What becomes of a failure: the verdict it keeps on its way up, and that nobody can miss it. */
module ResolveFailures {
  import opened Collections
  import opened ErrorMaps
  import opened InputGraph
  import opened Protocol
  import opened ResolveProgress

  /** The exception user code raised, at the bottom of the `__cause__` chain. */
  function RootCause(e: Error): Class {
    match e
    case Raw(c) => c
    case Caching(_, _, cause) => RootCause(cause)
  }

  /**
   * An error the cache raised names a task that did fail, carries that task's own error as its cause, and its remapped
   * class.
   */
  ghost predicate Founded(w: World, s: State, e: Error) {
    match e
    case Raw(_) => true
    case Caching(cls, k, cause) =>
      && Failed(s.phase, k) && s.phase[k].outcome.error == cause
      && cls == w.remap(cause.cls)
      && Founded(w, s, cause)
  }

  ghost predicate ActorFounded(w: World, s: State, a: Actor)
    requires a in s.phase
  {
    Finished(s.phase[a]) && s.phase[a].outcome.Raised? ==>
      Founded(w, s, s.phase[a].outcome.error) && (a.Caller? ==> s.phase[a].outcome.error.Caching?)
  }

  ghost predicate AllFounded(w: World, s: State) {
    forall a :: a in s.phase ==> ActorFounded(w, s, a)
  }

  /** A failed task stays failed, with the same error. */
  ghost predicate FailuresKept(s: State, t: State) {
    forall k :: Failed(s.phase, k) ==> Failed(t.phase, k) && t.phase[k] == s.phase[k]
  }

  lemma {:induction false} FoundedKept(w: World, s: State, t: State, e: Error)
    requires FailuresKept(s, t) && Founded(w, s, e)
    ensures Founded(w, t, e)
  {
    if e.Caching? {
      FoundedKept(w, s, t, e.cause);
    }
  }

  lemma StepKeepsFailures(w: World, s: State, l: Label)
    requires ValidWorld(w) && Inv(w, s) && Enabled(w, s, l)
    ensures FailuresKept(s, Apply(w, s, l))
  {
    StepMoves(w, s, l);
  }

  /** The error of the actor that moves was its own before, is raw, or is the remapped error of a failed task. */
  lemma MovedErrorFounded(w: World, s: State, l: Label)
    requires Enabled(w, s, l) && AllFounded(w, s) && l.actor in Apply(w, s, l).phase
    ensures var p := Apply(w, s, l).phase[l.actor];
            Finished(p) && p.outcome.Raised? ==>
              Founded(w, s, p.outcome.error) && (l.actor.Caller? ==> p.outcome.error.Caching?)
  {
    assert ActorFounded(w, s, l.actor);
    match l
    case Poll(a) =>
      var failed := FirstFailed(s.order, s.phase);
      if failed.Some? {
        assert ActorFounded(w, s, failed.value);
        assert Founded(w, s, Remapped(w, s.phase, failed.value));
      }
    case _ =>
  }

  lemma FoundedStep(w: World, s: State, l: Label)
    requires ValidWorld(w) && Inv(w, s) && AllFounded(w, s) && Enabled(w, s, l)
    ensures AllFounded(w, Apply(w, s, l))
  {
    var a, t := l.actor, Apply(w, s, l);
    StepMoves(w, s, l);
    StepKeepsFailures(w, s, l);
    MovedErrorFounded(w, s, l);
    forall b | b in t.phase
      ensures ActorFounded(w, t, b)
    {
      if Finished(t.phase[b]) && t.phase[b].outcome.Raised? {
        assert b in s.phase && (b != a ==> ActorFounded(w, s, b));
        FoundedKept(w, s, t, t.phase[b].outcome.error);
      }
    }
  }

  lemma {:induction false} FoundedAlways(w: World, run: seq<Label>)
    requires ValidWorld(w) && Legal(w, run)
    ensures AllFounded(w, After(w, run))
  {
    if run != [] {
      var init := run[..|run| - 1];
      FoundedAlways(w, init);
      InvAlways(w, init);
      FoundedStep(w, After(w, init), run[|run| - 1]);
    }
  }

  /** Below every error the cache raised there is a failed task whose own code raised. */
  lemma {:induction false} OriginOf(w: World, s: State, e: Error) returns (origin: Actor)
    requires Founded(w, s, e) && e.Caching?
    ensures Failed(s.phase, origin) && s.phase[origin].outcome.error == Raw(RootCause(e))
  {
    if e.cause.Raw? {
      origin := e.failed;
    } else {
      origin := OriginOf(w, s, e.cause);
    }
  }

  lemma {:induction false} SettledVerdict(w: World, s: State, e: Error)
    requires Settled(w.remap) && Founded(w, s, e)
    ensures w.remap(e.cls) == w.remap(RootCause(e))
    ensures e.Caching? ==> e.cls == w.remap(RootCause(e))
  {
    if e.Caching? {
      SettledVerdict(w, s, e.cause);
    }
  }

  /**
   * Verdicts never drift. In every run, at any depth, the class an actor fails with is the remapped class of some
   * input whose own code raised in this run, so retried-or-not is decided where the failure began.
   */
  lemma VerdictsNeverDrift(w: World, isa: SubclassRelation, run: seq<Label>, a: Actor) returns (origin: Actor)
    requires ValidWorld(w) && Legal(w, run) && Settled(w.remap)
    requires a in After(w, run).phase && Finished(After(w, run).phase[a])
    requires After(w, run).phase[a].outcome.Raised? && After(w, run).phase[a].outcome.error.Caching?
    ensures var s := After(w, run);
            var e := s.phase[a].outcome.error;
            && Failed(s.phase, origin) && s.phase[origin].outcome.error.Raw?
            && e.cls == w.remap(s.phase[origin].outcome.error.cls)
            && IsTransient(isa, Some(e.cls)) == IsTransient(isa, Some(w.remap(s.phase[origin].outcome.error.cls)))
  {
    FoundedAlways(w, run);
    var s := After(w, run);
    assert ActorFounded(w, s, a);
    origin := OriginOf(w, s, s.phase[a].outcome.error);
    SettledVerdict(w, s, s.phase[a].outcome.error);
  }

  /**
   * Under a configuration with caching targets and a catch-all, as the default one, every failure the cache raises is
   * one of its two errors: the one that the flat configuration list gives to the class some input's own code raised.
   */
  lemma ConfiguredVerdicts(w: World, isa: SubclassRelation, config: seq<Scoped>, grouped: GroupedMap, default: Class,
                           run: seq<Label>, a: Actor) returns (origin: Actor)
    requires ValidWorld(w) && Legal(w, run)
    requires ValidHierarchy(isa) && IsGrouping(grouped, config) && CachingTargetsOnly(config) && HasCatchAll(config)
    requires forall c :: w.remap(c) == ResolveExcType(isa, grouped, default, c)
    requires a in After(w, run).phase && Finished(After(w, run).phase[a])
    requires After(w, run).phase[a].outcome.Raised? && After(w, run).phase[a].outcome.error.Caching?
    ensures var s := After(w, run);
            var e := s.phase[a].outcome.error;
            && IsCachingError(e.cls)
            && Failed(s.phase, origin) && s.phase[origin].outcome.error.Raw?
            && CacheVerdict(isa, config, default, s.phase[origin].outcome.error.cls, e.cls)
  {
    CachingMapSettles(isa, config, grouped, default);
    var remap := (c: Class) => ResolveExcType(isa, grouped, default, c);
    assert Settled(w.remap) by {
      forall c
        ensures w.remap(w.remap(c)) == w.remap(c)
      {
        assert remap(remap(c)) == remap(c);
      }
    }
    origin := VerdictsNeverDrift(w, isa, run, a);
    var s := After(w, run);
    VerdictIsConfigured(isa, config, grouped, default, s.phase[origin].outcome.error.cls, s.phase[a].outcome.error.cls);
  }

  /** With a single origin everyone who fails because of it fails with that origin's verdict. */
  lemma SingleOriginDecides(w: World, run: seq<Label>, origin: Actor, a: Actor)
    requires ValidWorld(w) && Legal(w, run) && Settled(w.remap)
    requires Failed(After(w, run).phase, origin)
    requires forall k :: Failed(After(w, run).phase, k) && After(w, run).phase[k].outcome.error.Raw? ==> k == origin
    requires a in After(w, run).phase && a != origin && Finished(After(w, run).phase[a])
    requires After(w, run).phase[a].outcome.Raised? && After(w, run).phase[a].outcome.error.Caching?
    ensures After(w, run).phase[a].outcome.error.cls == w.remap(After(w, run).phase[origin].outcome.error.cls)
  {
    var o := VerdictsNeverDrift(w, (c, d) => c == d, run, a);
    assert o == origin;
  }

  // ----- Failures are sticky -----

  /** `a` has not had its last poll yet. */
  ghost predicate StillToPoll(w: World, s: State, a: Actor) {
    a in s.phase ==>
      match s.phase[a]
      case Pending => true
      case Entering => true
      case Resolving => true
      case Waiting(n) => n != |Deps(w, a)|
      case _ => false
  }

  /** A phase from which no result can come any more. */
  ghost predicate NoResult(w: World, a: Actor, p: Phase) {
    || p.Entering? || p.Resolving?
    || (p.Waiting? && p.seen != |Deps(w, a)|)
    || (Finished(p) && p.outcome.Raised?)
  }

  lemma OwnStepDoomed(w: World, s: State, l: Label)
    requires Core(w, s) && Enabled(w, s, l) && |Deps(w, l.actor)| > 0
    requires FirstFailed(s.order, s.phase).Some?
    requires StillToPoll(w, s, l.actor) || HasRaised(s, l.actor)
    ensures l.actor in Apply(w, s, l).phase && NoResult(w, l.actor, Apply(w, s, l).phase[l.actor])
  {
    assert ActorOk(w, s, l.actor);
    match l
    case Poll(a) => assert NoResult(w, a, Polling(w, s, a).phase[a]);
    case Schedule(a) => assert NoResult(w, a, Scheduling(w, s, a).phase[a]);
    case Start(a) => assert NoResult(w, a, Starting(w, s, a).phase[a]);
    case Enter(a) => assert NoResult(w, a, Entered(s, a).phase[a]);
    case Write(a) => assert NoResult(w, a, Writing(w, s, a).phase[a]);
    case Close(a) => assert NoResult(w, a, Exiting(s, a).phase[a]);
    case _ =>
  }

  lemma DoomedStep(w: World, s: State, l: Label, a: Actor, f: Actor)
    requires ValidWorld(w) && Inv(w, s) && Enabled(w, s, l) && |Deps(w, a)| > 0
    requires Failed(s.phase, f) && f in s.order
    requires StillToPoll(w, s, a) || HasRaised(s, a)
    ensures StillToPoll(w, Apply(w, s, l), a) || HasRaised(Apply(w, s, l), a)
  {
    StepMoves(w, s, l);
    if l.actor == a {
      OwnStepDoomed(w, s, l);
    }
  }

  /**
   * Once a task has failed, whoever resolves a non-empty list and has a poll ahead of it never gets a result: in
   * every continuation it is still polling or it has raised.
   */
  lemma {:induction false} OnceFailedAllRaise(w: World, run: seq<Label>, n: nat, a: Actor, f: Actor)
    requires ValidWorld(w) && Legal(w, run) && n <= |run| && Legal(w, run[..n])
    requires Failed(After(w, run[..n]).phase, f) && f in w.inputs
    requires |Deps(w, a)| > 0 && StillToPoll(w, After(w, run[..n]), a)
    ensures Failed(After(w, run).phase, f)
    ensures StillToPoll(w, After(w, run), a) || HasRaised(After(w, run), a)
  {
    if n == |run| {
      assert run[..n] == run;
    } else {
      var init := run[..|run| - 1];
      assert init[..n] == run[..n];
      OnceFailedAllRaise(w, init, n, a, f);
      InvAlways(w, init);
      StepKeepsFailures(w, After(w, init), run[|run| - 1]);
      DoomedStep(w, After(w, init), run[|run| - 1], a, f);
    }
  }

  /** So a non-empty `resolve` that starts after the failure, and has come to its end, has raised. */
  lemma LateCallsRaise(w: World, run: seq<Label>, n: nat, a: Actor, f: Actor)
    requires ValidWorld(w) && Legal(w, run) && n <= |run| && Legal(w, run[..n])
    requires Failed(After(w, run[..n]).phase, f) && f in w.inputs
    requires |Deps(w, a)| > 0 && StillToPoll(w, After(w, run[..n]), a)
    requires a in After(w, run).phase && !Unfinished(After(w, run), a)
    ensures HasRaised(After(w, run), a)
  {
    OnceFailedAllRaise(w, run, n, a, f);
  }

  /** `resolve()` without inputs is the exception: it never polls, so it returns whatever has failed. */
  lemma EmptyResolveNeverRaises(w: World, s: State, a: Actor)
    requires ValidWorld(w) && Inv(w, s) && Known(w, a) && a in s.phase && s.phase[a].Resolving? && Deps(w, a) == []
    ensures Enabled(w, s, Schedule(a))
    ensures !Enabled(w, Apply(w, s, Schedule(a)), Poll(a))
    ensures Enabled(w, Apply(w, s, Schedule(a)), Finish(a))
    ensures Apply(w, Apply(w, s, Schedule(a)), Finish(a)).phase[a] == Resolved(map[])
  {
    InvStep(w, s, Schedule(a));
  }
}
