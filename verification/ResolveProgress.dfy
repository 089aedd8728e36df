/** The resolver never deadlocks, terminates but for idle polling, and does everything at most once. */
module ResolveProgress {
  import opened Collections
  import opened InputGraph
  import opened Protocol

  /** A task that is not done, or a caller whose `resolve` has neither returned nor raised. */
  predicate Unfinished(s: State, a: Actor) {
    a in s.phase &&
    if a.Input? then !s.phase[a].Done? else !s.phase[a].Resolved? && !s.phase[a].Ended?
  }

  /** A poll that neither raises nor sees every dependency cached only sleeps again. Every other step gets somewhere. */
  ghost predicate Productive(w: World, s: State, l: Label) {
    Enabled(w, s, l) &&
    (l.Poll? ==> FirstFailed(s.order, s.phase).Some? || CountCached(Deps(w, l.actor), s.cache) == |Deps(w, l.actor)|)
  }

  // ----- Progress -----

  /** Below any unfinished actor of an acyclic graph somebody can do something useful. */
  lemma {:induction false} Progress(w: World, s: State, a: Actor) returns (l: Label)
    requires ValidWorld(w) && Inv(w, s) && Unfinished(s, a)
    ensures Productive(w, s, l)
    ensures Rank(w, l.actor) <= Rank(w, a)
    decreases Rank(w, a)
  {
    assert Known(w, a) && ActorOk(w, s, a);
    match s.phase[a] {
      case Pending => l := Start(a);
      case Entering => l := Enter(a);
      case Resolving => l := Schedule(a);
      case Resolved(_) => l := Compute(a);
      case Ended(_) => l := Write(a);
      case Closing(_) => l := Close(a);
      case Waiting(n) =>
        if n == |Deps(w, a)| {
          l := Finish(a);
        } else if d :| d in Deps(w, a) && !s.phase[d].Done? {
          l := Progress(w, s, d);
        } else {
          l := Poll(a);
          forall d | d in Deps(w, a)
            ensures d in s.cache
          {
            assert ActorOk(w, s, d);
          }
        }
    }
  }

  // ----- The measure -----

  /** How far an actor is from its end; an input without a task is furthest. */
  ghost function Weight(w: World, s: State, a: Actor): nat {
    if a !in s.phase then 9
    else
      match s.phase[a]
      case Pending => 8
      case Entering => 7
      case Resolving => 6
      case Waiting(n) => if n == |Deps(w, a)| then 4 else 5
      case Resolved(_) => 3
      case Ended(_) => 2
      case Closing(_) => 1
      case Done(_) => 0
  }

  ghost function Everyone(w: World): set<Actor> {
    w.inputs + w.callers
  }

  ghost function AtLeast(w: World, s: State, j: nat): set<Actor> {
    set a | a in Everyone(w) && Weight(w, s, a) >= j
  }

  /** The sum of all weights, level by level. */
  ghost function Levels(w: World, s: State, n: nat): nat {
    if n == 0 then 0 else Levels(w, s, n - 1) + |AtLeast(w, s, n)|
  }

  ghost function Measure(w: World, s: State): nat {
    Levels(w, s, 9)
  }

  lemma LevelDrops(w: World, s: State, t: State, n: nat, a: Actor)
    requires a in Everyone(w)
    requires forall b :: Weight(w, t, b) <= Weight(w, s, b)
    ensures |AtLeast(w, t, n)| <= |AtLeast(w, s, n)|
    ensures Weight(w, t, a) < Weight(w, s, a) == n ==> |AtLeast(w, t, n)| < |AtLeast(w, s, n)|
  {
    assert AtLeast(w, t, n) <= AtLeast(w, s, n);
    SubsetSize(AtLeast(w, t, n), AtLeast(w, s, n));
    if Weight(w, t, a) < Weight(w, s, a) == n {
      SubsetSize(AtLeast(w, t, n), AtLeast(w, s, n) - {a});
    }
  }

  lemma {:induction false} LevelsDrop(w: World, s: State, t: State, n: nat, a: Actor)
    requires a in Everyone(w)
    requires forall b :: Weight(w, t, b) <= Weight(w, s, b)
    ensures Levels(w, t, n) <= Levels(w, s, n)
    ensures Weight(w, t, a) < Weight(w, s, a) <= n ==> Levels(w, t, n) < Levels(w, s, n)
  {
    if n > 0 {
      LevelsDrop(w, s, t, n - 1, a);
      LevelDrops(w, s, t, n, a);
    }
  }

  lemma {:induction false} LevelsAtMost(w: World, s: State, n: nat)
    ensures Levels(w, s, n) <= n * |Everyone(w)|
  {
    if n > 0 {
      LevelsAtMost(w, s, n - 1);
      SubsetSize(AtLeast(w, s, n), Everyone(w));
      var e := |Everyone(w)|;
      assert n * e == (n - 1) * e + e;
    }
  }

  lemma PollWeighsLess(w: World, s: State, a: Actor)
    requires Core(w, s) && Enabled(w, s, Poll(a))
    ensures Weight(w, Polling(w, s, a), a) <= Weight(w, s, a)
    ensures Productive(w, s, Poll(a)) <==> Weight(w, Polling(w, s, a), a) < Weight(w, s, a)
  {
    assert s.phase[a].seen != |Deps(w, a)|;
  }

  lemma OtherStepsWeighLess(w: World, s: State, l: Label)
    requires Enabled(w, s, l) && !l.Poll? && l.actor in Apply(w, s, l).phase
    ensures Weight(w, Apply(w, s, l), l.actor) < Weight(w, s, l.actor)
  {
    match l
    case Schedule(a) => assert Scheduling(w, s, a).phase[a] == Waiting(0);
    case _ =>
  }

  lemma OthersWeighNoMore(w: World, s: State, t: State, a: Actor)
    requires Moves(s, t, a)
    ensures forall b :: b != a ==> Weight(w, t, b) <= Weight(w, s, b)
  {
  }

  /** Weights never grow, and exactly the productive steps lower that of their actor. */
  lemma StepWeighsLess(w: World, s: State, l: Label)
    requires ValidWorld(w) && Inv(w, s) && Enabled(w, s, l)
    ensures forall b :: Weight(w, Apply(w, s, l), b) <= Weight(w, s, b)
    ensures Productive(w, s, l) <==> Weight(w, Apply(w, s, l), l.actor) < Weight(w, s, l.actor)
  {
    StepMoves(w, s, l);
    if l.Poll? {
      PollWeighsLess(w, s, l.actor);
    } else {
      OtherStepsWeighLess(w, s, l);
    }
    OthersWeighNoMore(w, s, Apply(w, s, l), l.actor);
  }

  /** A productive step strictly lowers the measure; no step raises it. */
  lemma StepLowersMeasure(w: World, s: State, l: Label)
    requires ValidWorld(w) && Inv(w, s) && Enabled(w, s, l)
    ensures Measure(w, Apply(w, s, l)) <= Measure(w, s)
    ensures Productive(w, s, l) ==> Measure(w, Apply(w, s, l)) < Measure(w, s)
  {
    StepWeighsLess(w, s, l);
    LevelsDrop(w, s, Apply(w, s, l), 9, l.actor);
  }

  // ----- Whole runs -----

  ghost function ProductiveSteps(w: World, run: seq<Label>): nat
    requires Legal(w, run)
  {
    if run == [] then 0
    else
      var init, last := run[..|run| - 1], run[|run| - 1];
      ProductiveSteps(w, init) + if Productive(w, After(w, init), last) then 1 else 0
  }

  /** However long a run polls, it takes at most nine productive steps per actor. */
  lemma {:induction false} ProductiveStepsBounded(w: World, run: seq<Label>)
    requires ValidWorld(w) && Legal(w, run)
    ensures ProductiveSteps(w, run) + Measure(w, After(w, run)) <= 9 * |Everyone(w)|
  {
    if run == [] {
      LevelsAtMost(w, Init(w), 9);
    } else {
      var init := run[..|run| - 1];
      ProductiveStepsBounded(w, init);
      InvAlways(w, init);
      StepLowersMeasure(w, After(w, init), run[|run| - 1]);
    }
  }

  lemma ExtendProductively(w: World, run: seq<Label>, a: Actor) returns (l: Label)
    requires ValidWorld(w) && Legal(w, run) && Unfinished(After(w, run), a)
    ensures Legal(w, run + [l]) && ProductiveSteps(w, run + [l]) == ProductiveSteps(w, run) + 1
    ensures Measure(w, After(w, run + [l])) < Measure(w, After(w, run))
  {
    InvAlways(w, run);
    l := Progress(w, After(w, run), a);
    Extend(w, run, l);
    StepLowersMeasure(w, After(w, run), l);
    assert (run + [l])[..|run + [l]| - 1] == run;
  }

  /** From wherever a run has got to, productive steps alone finish every task and every call. */
  lemma {:induction false} EveryRunCanFinish(w: World, run: seq<Label>) returns (full: seq<Label>)
    requires ValidWorld(w) && Legal(w, run)
    ensures run <= full && Legal(w, full)
    ensures forall a :: !Unfinished(After(w, full), a)
    ensures ProductiveSteps(w, full) == ProductiveSteps(w, run) + |full| - |run|
    decreases Measure(w, After(w, run))
  {
    if a :| Unfinished(After(w, run), a) {
      var l := ExtendProductively(w, run, a);
      full := EveryRunCanFinish(w, run + [l]);
    } else {
      full := run;
    }
  }

  // ----- Exactly once -----

  lemma {:induction false} WeightOnlyFalls(w: World, run: seq<Label>, n: nat, a: Actor)
    requires ValidWorld(w) && Legal(w, run) && n <= |run|
    ensures Legal(w, run[..n])
    ensures Weight(w, After(w, run), a) <= Weight(w, After(w, run[..n]), a)
  {
    if n == |run| {
      assert run[..n] == run;
    } else {
      var init := run[..|run| - 1];
      WeightOnlyFalls(w, init, n, a);
      assert init[..n] == run[..n];
      InvAlways(w, init);
      StepWeighsLess(w, After(w, init), run[|run| - 1]);
    }
  }

  lemma StepAt(w: World, run: seq<Label>, i: nat)
    requires Legal(w, run) && i < |run|
    ensures Legal(w, run[..i]) && Legal(w, run[..i + 1]) && Enabled(w, After(w, run[..i]), run[i])
    ensures After(w, run[..i + 1]) == Apply(w, After(w, run[..i]), run[i])
  {
    LegalPrefix(w, run, i + 1);
    assert run[..i + 1][..i] == run[..i];
  }

  lemma OnceOnly(w: World, s: State, t: State, l: Label)
    requires Enabled(w, s, l) && Enabled(w, t, l) && !l.Poll?
    ensures Weight(w, s, l.actor) == Weight(w, t, l.actor)
  {
  }

  /** A step that is no poll lowers the weight of its actor, for good. */
  lemma StepLowersForGood(w: World, run: seq<Label>, i: nat)
    requires ValidWorld(w) && Legal(w, run) && i < |run| && !run[i].Poll?
    ensures Legal(w, run[..i]) && Weight(w, After(w, run), run[i].actor) < Weight(w, After(w, run[..i]), run[i].actor)
  {
    StepAt(w, run, i);
    InvAlways(w, run[..i]);
    StepWeighsLess(w, After(w, run[..i]), run[i]);
    WeightOnlyFalls(w, run, i + 1, run[i].actor);
  }

  /**
   * Apart from polls, no step happens twice in a run: one start, one scheduling, one computation, one cache write per
   * input.
   */
  lemma EachStepAtMostOnce(w: World, run: seq<Label>, i: nat, j: nat)
    requires ValidWorld(w) && Legal(w, run) && i < j < |run| && run[i] == run[j]
    ensures run[i].Poll?
  {
    var earlier := run[..j];
    StepAt(w, run, i);
    StepAt(w, run, j);
    assert earlier[i] == run[i] && earlier[..i] == run[..i];
    if !run[i].Poll? {
      StepLowersForGood(w, earlier, i);
      OnceOnly(w, After(w, run[..i]), After(w, earlier), run[i]);
      assert false;
    }
  }
}
