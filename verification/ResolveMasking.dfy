/**
 * A failed input writes None to the cache before its task is done. If closing the input suspends in between, a poll
 * can see the entry and miss the failure. This module shows that this happens, and exactly when.
 */
module ResolveMasking {
  import opened ErrorMaps
  import opened InputGraph
  import opened Protocol
  import opened ResolveValues
  import opened ResolveProgress
  import opened ResolveFailures

  /** `a` got its dictionary although one of the inputs in it has failed. */
  ghost predicate Masked(w: World, s: State, a: Actor) {
    a in s.phase && s.phase[a].Resolved? && exists d :: d in Deps(w, a) && HasRaised(s, d)
  }

  /** The same input objects with the same dependencies and contexts; user code and top-level calls may differ. */
  ghost predicate SameInputs(w: World, v: World) {
    && v.inputs == w.inputs && v.slowClose == w.slowClose && v.remap == w.remap
    && forall a :: a in w.inputs ==> Deps(v, a) == Deps(w, a) && Alias(v, a) == Alias(w, a)
  }

  ghost predicate NeverMasks(w: World) {
    forall v, run, a :: SameInputs(w, v) && ValidWorld(v) && Legal(v, run) && a in v.callers ==>
      !Masked(v, After(v, run), a)
  }

  // ----- A run that masks a failure of `k` -----

  const CALLER := Caller(0)

  /** Only `k` fails, and a single caller resolves `k` alone. */
  ghost function FailingWorld(w: World, k: Actor): World {
    w.(callers := {CALLER},
       deps := w.deps[CALLER := [k]],
       rank := w.rank[CALLER := Rank(w, k) + 1],
       own := (a: Actor, args: Kwargs) => if a == k then Threw(NetworkError) else Produced(Nothing))
  }

  lemma FailingWorldValid(w: World, k: Actor)
    requires ValidWorld(w) && k in w.inputs
    ensures ValidWorld(FailingWorld(w, k)) && SameInputs(w, FailingWorld(w, k))
    ensures var v := FailingWorld(w, k); Deps(v, CALLER) == [k] && Rank(v, k) < Rank(v, CALLER) && OnlyFails(v, k)
  {
    var v := FailingWorld(w, k);
    assert forall a :: a in w.inputs ==> Deps(v, a) == Deps(w, a) && Rank(v, a) == Rank(w, a) && Known(w, a);
  }

  ghost predicate OnlyFails(v: World, k: Actor) {
    && (forall args :: v.own(k, args).Threw?)
    && (forall a, args :: a != k ==> v.own(a, args).Produced?)
  }

  /** `k` is on its way and nobody else has failed, while `CALLER` sleeps in its poll loop, having seen nothing. */
  ghost predicate UnderWay(s: State, k: Actor) {
    && k in s.phase && !Stored(s.phase[k])
    && (s.phase[k].Ended? ==> s.phase[k].outcome.Raised?)
    && (forall a :: a != k ==> !HasRaised(s, a))
    && CALLER in s.phase && s.phase[CALLER] == Waiting(0)
  }

  lemma NothingToFind(s: State, k: Actor)
    requires UnderWay(s, k)
    ensures FirstFailed(s.order, s.phase).None?
  {
    forall a | a in s.order
      ensures !Failed(s.phase, a)
    {
      assert a != k ==> !HasRaised(s, a);
    }
  }

  /** Only the own code of `k` can raise, since no failed task can be found by a poll. */
  lemma OwnStepQuiet(v: World, s: State, l: Label, k: Actor)
    requires Core(v, s) && Enabled(v, s, l) && l.actor in Apply(v, s, l).phase
    requires OnlyFails(v, k) && UnderWay(s, k) && l != Write(k)
    ensures var p := Apply(v, s, l).phase[l.actor];
            && (Finished(p) ==> (p.outcome.Raised? <==> l.actor == k))
            && (l.actor == k ==> !Stored(p))
  {
    assert ActorOk(v, s, l.actor);
    assert l.actor != k ==> !HasRaised(s, l.actor);
    match l
    case Poll(a) => NothingToFind(s, k);
    case _ =>
  }

  lemma UnderWayMoves(s: State, t: State, a: Actor, k: Actor)
    requires UnderWay(s, k) && Moves(s, t, a) && a != CALLER
    requires Finished(t.phase[a]) ==> (t.phase[a].outcome.Raised? <==> a == k)
    requires a == k ==> !Stored(t.phase[a])
    ensures UnderWay(t, k)
  {
    forall b | b != k
      ensures !HasRaised(t, b)
    {
      assert !HasRaised(s, b);
    }
  }

  lemma UnderWayKept(v: World, s: State, l: Label, k: Actor)
    requires ValidWorld(v) && Inv(v, s) && Enabled(v, s, l)
    requires OnlyFails(v, k) && UnderWay(s, k) && l != Write(k) && l.actor != CALLER
    ensures UnderWay(Apply(v, s, l), k)
  {
    StepMoves(v, s, l);
    OwnStepQuiet(v, s, l, k);
    UnderWayMoves(s, Apply(v, s, l), l.actor, k);
  }

  lemma UnderWayStep(v: World, k: Actor, run: seq<Label>) returns (l: Label)
    requires ValidWorld(v) && k in v.inputs && Legal(v, run) && OnlyFails(v, k)
    requires Rank(v, k) < Rank(v, CALLER)
    requires UnderWay(After(v, run), k) && !After(v, run).phase[k].Ended?
    ensures Legal(v, run + [l]) && UnderWay(After(v, run + [l]), k)
    ensures Measure(v, After(v, run + [l])) < Measure(v, After(v, run))
  {
    InvAlways(v, run);
    l := Progress(v, After(v, run), k);
    Extend(v, run, l);
    StepLowersMeasure(v, After(v, run), l);
    UnderWayKept(v, After(v, run), l, k);
  }

  /** Run everybody but the caller until `k` has failed. */
  lemma {:induction false} RunUntilFailed(v: World, k: Actor, run: seq<Label>) returns (full: seq<Label>)
    requires ValidWorld(v) && k in v.inputs && Legal(v, run) && OnlyFails(v, k)
    requires Rank(v, k) < Rank(v, CALLER) && UnderWay(After(v, run), k)
    ensures Legal(v, full) && UnderWay(After(v, full), k) && After(v, full).phase[k].Ended?
    decreases Measure(v, After(v, run))
  {
    if After(v, run).phase[k].Ended? {
      full := run;
    } else {
      var l := UnderWayStep(v, k, run);
      full := RunUntilFailed(v, k, run + [l]);
    }
  }

  lemma CallerStarts(w: World, k: Actor)
    requires ValidWorld(w) && k in w.inputs
    ensures var v := FailingWorld(w, k);
            Legal(v, [Schedule(CALLER)]) && UnderWay(After(v, [Schedule(CALLER)]), k)
  {
    var v := FailingWorld(w, k);
    FailingWorldValid(w, k);
    InvInit(v);
    assert Enabled(v, Init(v), Schedule(CALLER));
    assert Legal(v, []);
    Extend(v, [], Schedule(CALLER));
    assert [] + [Schedule(CALLER)] == [Schedule(CALLER)];
    StepMoves(v, Init(v), Schedule(CALLER));
    assert k in Missing([k], []);
  }

  /** The entry is written, but the task is not done ... */
  lemma WrittenNotDone(v: World, s: State, k: Actor, t: State)
    requires ValidWorld(v) && Inv(v, s) && k in v.inputs && k in v.slowClose && k in s.phase
    requires UnderWay(s, k) && s.phase[k].Ended? && t == Writing(v, s, k)
    ensures Enabled(v, s, Write(k)) && Inv(v, t)
    ensures k in t.cache && HasRaised(t, k) && CALLER in t.phase && t.phase[CALLER] == Waiting(0)
    ensures FirstFailed(t.order, t.phase).None?
  {
    InvStep(v, s, Write(k));
    forall a | a in t.order
      ensures !Failed(t.phase, a)
    {
      assert a != k ==> !HasRaised(s, a);
    }
  }

  /** ... so the caller's poll sees a full cache and no failure, and leaves the loop. */
  lemma PollMisses(v: World, t: State, k: Actor)
    requires CALLER in v.callers && Deps(v, CALLER) == [k]
    requires k in t.cache && HasRaised(t, k) && CALLER in t.phase && t.phase[CALLER] == Waiting(0)
    requires FirstFailed(t.order, t.phase).None? && k.Input?
    ensures Enabled(v, t, Poll(CALLER)) && Enabled(v, Polling(v, t, CALLER), Finish(CALLER))
    ensures Masked(v, Finishing(v, Polling(v, t, CALLER), CALLER), CALLER)
  {
    assert CountCached([k], t.cache) == 1;
    assert k in Deps(v, CALLER) && HasRaised(Finishing(v, Polling(v, t, CALLER), CALLER), k);
  }

  lemma MaskingRun(w: World, k: Actor) returns (run: seq<Label>)
    requires ValidWorld(w) && k in w.inputs && k in w.slowClose
    ensures var v := FailingWorld(w, k);
            Legal(v, run) && Masked(v, After(v, run), CALLER)
  {
    var v := FailingWorld(w, k);
    FailingWorldValid(w, k);
    CallerStarts(w, k);
    var r0 := RunUntilFailed(v, k, [Schedule(CALLER)]);
    InvAlways(v, r0);
    var t := Writing(v, After(v, r0), k);
    WrittenNotDone(v, After(v, r0), k, t);
    PollMisses(v, t, k);
    Extend(v, r0, Write(k));
    Extend(v, r0 + [Write(k)], Poll(CALLER));
    Extend(v, r0 + [Write(k)] + [Poll(CALLER)], Finish(CALLER));
    run := r0 + [Write(k)] + [Poll(CALLER)] + [Finish(CALLER)];
  }

  /** No user code and no call can have a failure masked exactly when no input's `_context_close` suspends. */
  lemma NeverMasksIffNoSlowClose(w: World)
    requires ValidWorld(w)
    ensures NeverMasks(w) <==> NoSlowClose(w)
  {
    if NoSlowClose(w) {
      forall v, run, a | SameInputs(w, v) && ValidWorld(v) && Legal(v, run) && a in v.callers
        ensures !Masked(v, After(v, run), a)
      {
        var s := After(v, run);
        if a in s.phase && s.phase[a].Resolved? {
          ReturnedIsEvaluated(v, run, a);
          assert forall d :: d in Deps(v, a) ==> Succeeded(s.phase, d);
        }
      }
    } else {
      var k :| k in w.inputs && k in w.slowClose;
      var run := MaskingRun(w, k);
      FailingWorldValid(w, k);
      assert CALLER in FailingWorld(w, k).callers;
    }
  }
}
