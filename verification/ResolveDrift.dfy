/**
 * Under an exception map that is not settled the verdict of a failure is a race: this module shows two runs of one
 * world, with one origin, that end with different verdicts, and that a settled map is exactly what rules this out.
 */
module ResolveDrift {
  import opened Collections
  import opened ErrorMaps
  import opened InputGraph
  import opened Protocol
  import opened ResolveFailures

  /** If `a` failed with an error of the cache, its class is what the map makes of the class first raised. */
  ghost predicate KeepsVerdict(w: World, run: seq<Label>, a: Actor)
    requires Legal(w, run)
  {
    var s := After(w, run);
    HasRaised(s, a) && s.phase[a].outcome.error.Caching? ==>
      s.phase[a].outcome.error.cls == w.remap(RootCause(s.phase[a].outcome.error))
  }

  ghost predicate FailsWith(w: World, run: seq<Label>, e: Error)
    requires Legal(w, run)
  {
    TOP in After(w, run).phase && After(w, run).phase[TOP] == Ended(Raised(e))
  }

  /** Of the tasks that failed, only that of `origin` failed by its own code. */
  ghost predicate SoleOrigin(w: World, run: seq<Label>, origin: Actor)
    requires Legal(w, run)
  {
    var s := After(w, run);
    && Failed(s.phase, origin) && s.phase[origin].outcome.error.Raw?
    && forall k :: k in s.order && Failed(s.phase, k) && s.phase[k].outcome.error.Raw? ==> k == origin
  }

  // ----- A caller that needs m, which needs l, whose own code raises -----

  const TOP := Caller(0)
  const M := Input("m")
  const L := Input("l")

  ghost function DriftWorld(remap: Class -> Class, c: Class): World {
    World({M, L}, {TOP}, map[TOP := [M], M := [L], L := []], map[TOP := 2, M := 1, L := 0],
          map[M := "m", L := "l"], (a: Actor, args: Kwargs) => Own.Threw(c), map[], remap, {}, {})
  }

  lemma DriftWorldIsValid(remap: Class -> Class, c: Class)
    ensures ValidWorld(DriftWorld(remap, c)) && Drifts(DriftWorld(remap, c), c)
  {
  }

  /** All that matters of that world. */
  ghost predicate Drifts(w: World, c: Class) {
    && TOP in w.callers && M in w.inputs && L in w.inputs
    && Deps(w, TOP) == [M] && Deps(w, M) == [L] && Deps(w, L) == []
    && M !in w.slowOpen && M !in w.slowClose && L !in w.slowOpen && L !in w.slowClose
    && forall args :: w.own(L, args) == Own.Threw(c)
  }

  /** After `run` nothing has produced data, `order` is scheduled, and `top`, `m` and `l` say where everyone stands. */
  ghost predicate Stand(w: World, run: seq<Label>, order: seq<Actor>, top: Phase, m: Phase, l: Option<Phase>) {
    Legal(w, run) &&
    var s := After(w, run);
    && s.order == order && s.data.Keys == {}
    && TOP in s.phase && s.phase[TOP] == top
    && M in s.phase && s.phase[M] == m
    && (L in s.phase <==> l.Some?) && (l.Some? ==> s.phase[L] == l.value)
  }

  ghost function FailedL(c: Class): Phase {
    Done(Raised(Raw(c)))
  }

  /** What m fails with. */
  ghost function Once(w: World, c: Class): Error {
    Caching(w.remap(c), L, Raw(c))
  }

  lemma TopSchedules(w: World, c: Class)
    requires Drifts(w, c) && w.callers == {TOP}
    ensures Stand(w, [Schedule(TOP)], [M], Waiting(0), Pending, None)
  {
    assert Missing([M], []) == [M];
    Extend(w, [], Schedule(TOP));
    assert [] + [Schedule(TOP)] == [Schedule(TOP)];
  }

  lemma MStarts(w: World, c: Class, run: seq<Label>)
    requires Drifts(w, c) && Stand(w, run, [M], Waiting(0), Pending, None)
    ensures Stand(w, run + [Start(M)], [M], Waiting(0), Resolving, None)
  {
    Extend(w, run, Start(M));
  }

  lemma MSchedules(w: World, c: Class, run: seq<Label>)
    requires Drifts(w, c) && Stand(w, run, [M], Waiting(0), Resolving, None)
    ensures Stand(w, run + [Schedule(M)], [M, L], Waiting(0), Waiting(0), Some(Pending))
  {
    assert Missing([L], [M]) == [L];
    Extend(w, run, Schedule(M));
  }

  lemma LStarts(w: World, c: Class, run: seq<Label>)
    requires Drifts(w, c) && Stand(w, run, [M, L], Waiting(0), Waiting(0), Some(Pending))
    ensures Stand(w, run + [Start(L)], [M, L], Waiting(0), Waiting(0), Some(Resolving))
  {
    Extend(w, run, Start(L));
  }

  lemma LSchedules(w: World, c: Class, run: seq<Label>)
    requires Drifts(w, c) && Stand(w, run, [M, L], Waiting(0), Waiting(0), Some(Resolving))
    ensures Stand(w, run + [Schedule(L)], [M, L], Waiting(0), Waiting(0), Some(Waiting(0)))
  {
    assert Missing([], [M, L]) == [];
    Extend(w, run, Schedule(L));
  }

  lemma LFinishes(w: World, c: Class, run: seq<Label>)
    requires Drifts(w, c) && Stand(w, run, [M, L], Waiting(0), Waiting(0), Some(Waiting(0)))
    ensures Stand(w, run + [Finish(L)], [M, L], Waiting(0), Waiting(0), Some(Resolved(map[])))
  {
    Extend(w, run, Finish(L));
  }

  lemma LRaises(w: World, c: Class, run: seq<Label>)
    requires Drifts(w, c) && Stand(w, run, [M, L], Waiting(0), Waiting(0), Some(Resolved(map[])))
    ensures Stand(w, run + [Compute(L)], [M, L], Waiting(0), Waiting(0), Some(Ended(Raised(Raw(c)))))
  {
    Extend(w, run, Compute(L));
  }

  lemma LWrites(w: World, c: Class, run: seq<Label>)
    requires Drifts(w, c) && Stand(w, run, [M, L], Waiting(0), Waiting(0), Some(Ended(Raised(Raw(c)))))
    ensures Stand(w, run + [Write(L)], [M, L], Waiting(0), Waiting(0), Some(FailedL(c)))
  {
    Extend(w, run, Write(L));
  }

  /** m polls, and fails with the error of the cache. */
  lemma MPolls(w: World, c: Class, run: seq<Label>)
    requires Drifts(w, c) && Stand(w, run, [M, L], Waiting(0), Waiting(0), Some(FailedL(c)))
    ensures Stand(w, run + [Poll(M)], [M, L], Waiting(0), Ended(Raised(Once(w, c))), Some(FailedL(c)))
  {
    assert [M, L][1..] == [L];
    assert FirstFailed([M, L], After(w, run).phase) == Some(L);
    Extend(w, run, Poll(M));
  }

  lemma MWrites(w: World, c: Class, run: seq<Label>)
    requires Drifts(w, c) && Stand(w, run, [M, L], Waiting(0), Ended(Raised(Once(w, c))), Some(FailedL(c)))
    ensures Stand(w, run + [Write(M)], [M, L], Waiting(0), Done(Raised(Once(w, c))), Some(FailedL(c)))
  {
    Extend(w, run, Write(M));
  }

  /** Early: the caller polls while m has not written yet, so the first failed task is l. */
  lemma TopPollsEarly(w: World, c: Class, run: seq<Label>)
    requires Drifts(w, c) && Stand(w, run, [M, L], Waiting(0), Ended(Raised(Once(w, c))), Some(FailedL(c)))
    ensures Legal(w, run + [Poll(TOP)])
    ensures FailsWith(w, run + [Poll(TOP)], Once(w, c)) && SoleOrigin(w, run + [Poll(TOP)], L)
  {
    assert [M, L][1..] == [L];
    assert FirstFailed([M, L], After(w, run).phase) == Some(L);
    Extend(w, run, Poll(TOP));
  }

  /** Late: m is the first failed task, and its error is remapped again. */
  lemma TopPollsLate(w: World, c: Class, run: seq<Label>)
    requires Drifts(w, c) && Stand(w, run, [M, L], Waiting(0), Done(Raised(Once(w, c))), Some(FailedL(c)))
    ensures Legal(w, run + [Poll(TOP)])
    ensures FailsWith(w, run + [Poll(TOP)], Caching(w.remap(w.remap(c)), M, Once(w, c)))
    ensures SoleOrigin(w, run + [Poll(TOP)], L)
  {
    assert FirstFailed([M, L], After(w, run).phase) == Some(M);
    Extend(w, run, Poll(TOP));
  }

  lemma UntilMFails(w: World, c: Class) returns (run: seq<Label>)
    requires Drifts(w, c) && w.callers == {TOP}
    ensures Stand(w, run, [M, L], Waiting(0), Ended(Raised(Once(w, c))), Some(FailedL(c)))
  {
    TopSchedules(w, c);
    run := [Schedule(TOP)];
    MStarts(w, c, run);
    run := run + [Start(M)];
    MSchedules(w, c, run);
    run := run + [Schedule(M)];
    LStarts(w, c, run);
    run := run + [Start(L)];
    LSchedules(w, c, run);
    run := run + [Schedule(L)];
    LFinishes(w, c, run);
    run := run + [Finish(L)];
    LRaises(w, c, run);
    run := run + [Compute(L)];
    LWrites(w, c, run);
    run := run + [Write(L)];
    MPolls(w, c, run);
    run := run + [Poll(M)];
  }

  /**
   * Two runs of one world with one origin, the own code of l. In one the caller fails with the class the map gives to
   * the origin, in the other with what the map makes of that.
   */
  lemma VerdictIsARace(remap: Class -> Class, c: Class) returns (early: seq<Label>, late: seq<Label>)
    ensures var w := DriftWorld(remap, c);
            && ValidWorld(w) && Legal(w, early) && Legal(w, late)
            && SoleOrigin(w, early, L) && FailsWith(w, early, Caching(remap(c), L, Raw(c)))
            && SoleOrigin(w, late, L)
            && FailsWith(w, late, Caching(remap(remap(c)), M, Caching(remap(c), L, Raw(c))))
  {
    var w := DriftWorld(remap, c);
    DriftWorldIsValid(remap, c);
    var run := UntilMFails(w, c);
    TopPollsEarly(w, c, run);
    early := run + [Poll(TOP)];
    MWrites(w, c, run);
    TopPollsLate(w, c, run + [Write(M)]);
    late := run + [Write(M)] + [Poll(TOP)];
  }

  /**
   * The framework's own default is not enough: under a configuration whose only entry makes FatalNexusError transient,
   * one and the same failure is reported in one run and retried in the other.
   */
  lemma DefaultRaces(isa: SubclassRelation, ex: string)
    returns (config: seq<Scoped>, grouped: GroupedMap, early: seq<Label>, late: seq<Label>)
    requires ValidHierarchy(isa)
    requires !isa(Other(ex), FatalNexusError) && !isa(Other(ex), TransientCachingError)
    requires !isa(FatalNexusError, FatalCachingError) && !isa(FatalNexusError, TransientCachingError)
    ensures IsGrouping(grouped, config) && CachingTargetsOnly(config)
    ensures var w := DriftWorld(c => ResolveExcType(isa, grouped, FatalNexusError, c), Other(ex));
            var once := Caching(FatalNexusError, L, Raw(Other(ex)));
            && ValidWorld(w) && Legal(w, early) && Legal(w, late)
            && SoleOrigin(w, early, L) && FailsWith(w, early, once)
            && SoleOrigin(w, late, L) && FailsWith(w, late, Caching(TransientCachingError, M, once))
  {
    config, grouped := DefaultCanDrift(isa, ex);
    early, late := VerdictIsARace(c => ResolveExcType(isa, grouped, FatalNexusError, c), Other(ex));
  }

  // ----- Exactly when verdicts are kept -----

  ghost predicate NeverDrifts(remap: Class -> Class) {
    forall w, run, a :: ValidWorld(w) && w.remap == remap && Legal(w, run) ==> KeepsVerdict(w, run, a)
  }

  lemma SettledKeepsVerdict(w: World, run: seq<Label>, a: Actor)
    requires ValidWorld(w) && Legal(w, run) && Settled(w.remap)
    ensures KeepsVerdict(w, run, a)
  {
    var s := After(w, run);
    FoundedAlways(w, run);
    if HasRaised(s, a) {
      assert ActorFounded(w, s, a);
      SettledVerdict(w, s, s.phase[a].outcome.error);
    }
  }

  lemma RaceDrifts(remap: Class -> Class, c: Class)
    requires remap(remap(c)) != remap(c)
    ensures !NeverDrifts(remap)
  {
    var w := DriftWorld(remap, c);
    var early, late := VerdictIsARace(remap, c);
    var once := Caching(remap(c), L, Raw(c));
    assert RootCause(Caching(remap(remap(c)), M, once)) == RootCause(once) == c;
    assert !KeepsVerdict(w, late, TOP);
  }

  lemma SettledNeverDrifts(remap: Class -> Class)
    requires Settled(remap)
    ensures NeverDrifts(remap)
  {
    forall w, run, a | ValidWorld(w) && w.remap == remap && Legal(w, run)
      ensures KeepsVerdict(w, run, a)
    {
      SettledKeepsVerdict(w, run, a);
    }
  }

  /**
   * Over all worlds and all their runs, failures keep the verdict of where they began exactly when the map is settled.
   */
  lemma NeverDriftsIffSettled(remap: Class -> Class)
    ensures NeverDrifts(remap) <==> Settled(remap)
  {
    if Settled(remap) {
      SettledNeverDrifts(remap);
    } else {
      var c :| remap(remap(c)) != remap(c);
      RaceDrifts(remap, c);
    }
  }
}
