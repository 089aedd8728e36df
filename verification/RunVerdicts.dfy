/** From a failed input to the end of the process: the verdict of the configuration decides what becomes of the run. */
module RunVerdicts {
  import opened Collections
  import opened ErrorMaps
  import opened Retry
  import opened InputGraph
  import opened Protocol
  import opened ResolveFailures
  import A = Activation

  /**
   * Take any run of the resolver, in any world, in which the algorithm's `resolve` raised, and let the algorithm raise
   * the same. Then some input's own code raised, and what the flat configuration list makes of that class decides
   * alone: if it is TransientCachingError nothing is submitted and the run ends with `sys.exit(1)`, to be started
   * again; otherwise it is FatalCachingError, and exactly this error is submitted.
   */
  lemma FailedCallDecides(w: World, isa: SubclassRelation, config: seq<Scoped>, grouped: GroupedMap, default: Class,
                          run: seq<Label>, caller: Actor, env: A.Environment) returns (origin: Actor, verdict: Class)
    requires ValidWorld(w) && Legal(w, run) && caller.Caller? && HasRaised(After(w, run), caller)
    requires ValidHierarchy(isa) && IsGrouping(grouped, config) && CachingTargetsOnly(config) && HasCatchAll(config)
    requires forall c :: w.remap(c) == ResolveExcType(isa, grouped, default, c)
    requires env.isa == isa && A.Runs(env)
    requires env.algorithm == Attempt.Threw(After(w, run).phase[caller].outcome.error.cls)
    ensures Failed(After(w, run).phase, origin) && After(w, run).phase[origin].outcome.error.Raw?
    ensures CacheVerdict(isa, config, default, After(w, run).phase[origin].outcome.error.cls, verdict)
    ensures var o := A.OutcomeOf(env);
            && IsCachingError(verdict)
            && (verdict == TransientCachingError <==> o.submissions == [])
            && (verdict == TransientCachingError && env.close.Returned? <==> o.ending == A.SysExit(1))
            && (verdict == FatalCachingError <==>
                  && |o.submissions| == 1
                  && o.submissions[0].uri == None && o.submissions[0].error == Some(FatalCachingError))
  {
    var s := After(w, run);
    FoundedAlways(w, run);
    assert ActorFounded(w, s, caller);
    origin := ConfiguredVerdicts(w, isa, config, grouped, default, run, caller);
    verdict := s.phase[caller].outcome.error.cls;
    assert isa(TransientCachingError, TransientNexusError) && !isa(FatalCachingError, TransientNexusError);
    A.OutcomeByEnvironment(env);
    A.SubmissionsByEnvironment(env);
  }
}
