/**
 * The concurrent resolver as a transition system. Every step is one section of the source that runs without
 * suspending; the steps of all tasks and callers interleave freely.
 */
module Protocol {
  import opened Collections
  import opened ErrorMaps
  import opened InputGraph

  /** An exception with its `__cause__`: raised by user code, or raised by the cache for the failed input `failed`. */
  datatype Error =
    | Raw(cls: Class)
    | Caching(cls: Class, failed: Actor, cause: Error)

  datatype Outcome = Ok(value: Value) | Raised(error: Error)

  /**
   * Where an actor stands. `Entering` is suspended in `_context_open`; `Waiting(seen)` sleeps in the poll loop with
   * `num_cached == seen`. `Resolved` has the dictionary of its dependencies: an input goes on to its own code, for a
   * top-level caller it is the result. `Ended` has left `process` (or, for a caller, `resolve` has raised); `Closing`
   * has written the cache.
   */
  datatype Phase =
    | Pending
    | Entering
    | Resolving
    | Waiting(seen: nat)
    | Resolved(results: Kwargs)
    | Ended(outcome: Outcome)
    | Closing(outcome: Outcome)
    | Done(outcome: Outcome)

  /**
   * `order` lists the keys of `_scheduled` and `written` those of `_cache`, both in insertion order;
   * `data` gathers the `_data` and `_result` fields that were assigned; `executed` is `_total_executed`.
   */
  datatype State = State(
    order: seq<Actor>,
    phase: map<Actor, Phase>,
    cache: map<Actor, Value>,
    written: seq<Actor>,
    data: map<Actor, Value>,
    executed: nat)

  datatype Label =
    | Start(actor: Actor)
    | Enter(actor: Actor)
    | Schedule(actor: Actor)
    | Poll(actor: Actor)
    | Finish(actor: Actor)
    | Compute(actor: Actor)
    | Write(actor: Actor)
    | Close(actor: Actor)

  ghost function Init(w: World): State {
    State([], map a | a in w.callers :: Resolving, map[], [], map[], 0)
  }

  // ----- The pieces of the steps -----

  predicate Failed(phase: map<Actor, Phase>, a: Actor) {
    a in phase && phase[a].Done? && phase[a].outcome.Raised?
  }

  /** The first scheduled task, in insertion order, that is done with an exception. */
  function FirstFailed(order: seq<Actor>, phase: map<Actor, Phase>): (r: Option<Actor>)
    ensures r.Some? ==> r.value in order && Failed(phase, r.value)
    ensures r.None? <==> forall a :: a in order ==> !Failed(phase, a)
  {
    if order == [] then None
    else if Failed(phase, order[0]) then Some(order[0])
    else FirstFailed(order[1..], phase)
  }

  function CountCached(deps: seq<Actor>, cache: map<Actor, Value>): (n: nat)
    ensures n <= |deps|
    ensures n == |deps| <==> forall d :: d in deps ==> d in cache
  {
    if deps == [] then 0
    else
      var last := deps[|deps| - 1];
      assert deps == deps[..|deps| - 1] + [last];
      CountCached(deps[..|deps| - 1], cache) + if last in cache then 1 else 0
  }

  /** The dependencies that have no task yet, in argument order. */
  function Missing(deps: seq<Actor>, order: seq<Actor>): (r: seq<Actor>)
    ensures forall a :: a in r <==> a in deps && a !in order
    ensures Distinct(deps) ==> Distinct(r)
  {
    if deps == [] then []
    else
      var last := deps[|deps| - 1];
      assert deps == deps[..|deps| - 1] + [last];
      Missing(deps[..|deps| - 1], order) + if last !in order then [last] else []
  }

  /** A new task for each of `missing`. */
  function AddPending(phase: map<Actor, Phase>, missing: seq<Actor>): (r: map<Actor, Phase>)
    ensures forall b :: b in r <==> b in phase || b in missing
    ensures forall b :: b in missing ==> r[b] == Pending
    ensures forall b :: b in phase && b !in missing ==> r[b] == phase[b]
  {
    phase + map m | m in missing :: Pending
  }

  function DataOf(data: map<Actor, Value>, a: Actor): Value {
    if a in data then data[a] else Nothing
  }

  function Results(w: World, deps: seq<Actor>, cache: map<Actor, Value>, data: map<Actor, Value>): Kwargs {
    if deps == [] then map[]
    else
      var rest, last := Results(w, deps[..|deps| - 1], cache, data), deps[|deps| - 1];
      if last in cache then rest[Alias(w, last) := DataOf(data, last)] else rest
  }

  function OutcomeValue(o: Outcome): Value {
    if o.Ok? then o.value else Nothing
  }

  /** The exception a failed task turns into when a poll finds it. */
  function Remapped(w: World, phase: map<Actor, Phase>, a: Actor): Error
    requires Failed(phase, a)
  {
    var e := phase[a].outcome.error;
    Caching(w.remap(e.cls), a, e)
  }

  // ----- Steps -----

  ghost predicate Enabled(w: World, s: State, l: Label) {
    var a := l.actor;
    a in s.phase && Known(w, a) &&
    match l
    case Start(_) => s.phase[a].Pending?
    case Enter(_) => s.phase[a].Entering?
    case Schedule(_) => s.phase[a].Resolving?
    case Poll(_) => s.phase[a].Waiting? && s.phase[a].seen != |Deps(w, a)|
    case Finish(_) => s.phase[a].Waiting? && s.phase[a].seen == |Deps(w, a)|
    case Compute(_) => a.Input? && s.phase[a].Resolved?
    case Write(_) => a.Input? && s.phase[a].Ended?
    case Close(_) => a.Input? && s.phase[a].Closing?
  }

  /** `process` begins: a memoised result would end it at once. */
  function Processing(s: State, a: Actor): Phase {
    var memo := DataOf(s.data, a);
    if memo.Data? then Ended(Ok(memo)) else Resolving
  }

  /** `_execute` begins: the task is counted and, unless entering the input suspends, processing begins. */
  function Starting(w: World, s: State, a: Actor): State {
    s.(executed := s.executed + 1, phase := s.phase[a := if a in w.slowOpen then Entering else Processing(s, a)])
  }

  /** A suspended `_context_open` ends. */
  function Entered(s: State, a: Actor): State {
    s.(phase := s.phase[a := Processing(s, a)])
  }

  /** The locked section of `resolve`: one task for every dependency that has none. */
  function Scheduling(w: World, s: State, a: Actor): State {
    var missing := Missing(Deps(w, a), s.order);
    s.(order := s.order + missing, phase := AddPending(s.phase, missing)[a := Waiting(0)])
  }

  /** One turn of the poll loop: count the cached dependencies, then look for a failed task. */
  function Polling(w: World, s: State, a: Actor): State {
    var failed := FirstFailed(s.order, s.phase);
    s.(phase := s.phase[a := if failed.Some? then Ended(Raised(Remapped(w, s.phase, failed.value)))
                             else Waiting(CountCached(Deps(w, a), s.cache))])
  }

  /** The poll loop is left and the dictionary of dependencies is built. */
  function Finishing(w: World, s: State, a: Actor): State {
    s.(phase := s.phase[a := Resolved(Results(w, Deps(w, a), s.cache, s.data))])
  }

  /** User code runs on the run's arguments, overridden by the dependencies. */
  function Computing(w: World, s: State, a: Actor): State
    requires a in s.phase && s.phase[a].Resolved?
  {
    match w.own(a, w.kwargs + s.phase[a].results)
    case Produced(v) => s.(data := s.data[a := v], phase := s.phase[a := Ended(Ok(v))])
    case Threw(c) => s.(phase := s.phase[a := Ended(Raised(Raw(c)))])
  }

  /**
   * The `finally` block: a failed input writes None. Without a suspending close the task is done in the same breath.
   */
  function Writing(w: World, s: State, a: Actor): State
    requires a in s.phase && s.phase[a].Ended?
  {
    var o := s.phase[a].outcome;
    s.(cache := s.cache[a := OutcomeValue(o)],
       written := if a in s.cache then s.written else s.written + [a],
       phase := s.phase[a := if a in w.slowClose then Closing(o) else Done(o)])
  }

  function Exiting(s: State, a: Actor): State
    requires a in s.phase && s.phase[a].Closing?
  {
    s.(phase := s.phase[a := Done(s.phase[a].outcome)])
  }

  ghost function Apply(w: World, s: State, l: Label): State
    requires Enabled(w, s, l)
  {
    match l
    case Start(a) => Starting(w, s, a)
    case Enter(a) => Entered(s, a)
    case Schedule(a) => Scheduling(w, s, a)
    case Poll(a) => Polling(w, s, a)
    case Finish(a) => Finishing(w, s, a)
    case Compute(a) => Computing(w, s, a)
    case Write(a) => Writing(w, s, a)
    case Close(a) => Exiting(s, a)
  }

  // ----- Runs: sequences of steps from the initial state -----

  ghost predicate Legal(w: World, run: seq<Label>)
    decreases |run|, 0
  {
    run == [] ||
    var init, last := run[..|run| - 1], run[|run| - 1];
    Legal(w, init) && Enabled(w, After(w, init), last)
  }

  ghost function After(w: World, run: seq<Label>): State
    requires Legal(w, run)
    decreases |run|, 1
  {
    if run == [] then Init(w)
    else Apply(w, After(w, run[..|run| - 1]), run[|run| - 1])
  }

  lemma LegalPrefix(w: World, run: seq<Label>, n: nat)
    requires Legal(w, run) && n <= |run|
    ensures Legal(w, run[..n])
  {
    if n == |run| {
      assert run[..n] == run;
    } else {
      LegalPrefix(w, run[..|run| - 1], n);
      assert run[..|run| - 1][..n] == run[..n];
    }
  }

  lemma Extend(w: World, run: seq<Label>, l: Label)
    requires Legal(w, run) && Enabled(w, After(w, run), l)
    ensures Legal(w, run + [l]) && After(w, run + [l]) == Apply(w, After(w, run), l)
  {
    assert (run + [l])[..|run + [l]| - 1] == run;
  }

  // ----- The invariant every step keeps -----

  predicate Stored(p: Phase) { p.Closing? || p.Done? }

  predicate Finished(p: Phase) { p.Ended? || p.Closing? || p.Done? }

  /** Own code has run, to whatever end. */
  predicate RanOwnCode(p: Phase) {
    Finished(p) && (p.outcome.Ok? || p.outcome.error.Raw?)
  }

  predicate HasRaised(s: State, a: Actor) {
    a in s.phase && Finished(s.phase[a]) && s.phase[a].outcome.Raised?
  }

  ghost function Started(s: State): set<Actor> {
    set a | a in s.phase && a.Input? && !s.phase[a].Pending?
  }

  /** Every actor in play is known, and only actors in play have data or a cache entry. */
  ghost predicate Bookkeeping(w: World, s: State) {
    && (forall a :: a in s.phase ==> Known(w, a))
    && w.callers <= s.phase.Keys
    && s.cache.Keys <= s.phase.Keys
    && s.data.Keys <= s.phase.Keys
  }

  /** `_scheduled` holds every input that has a task, once. */
  ghost predicate Ordered(s: State) {
    && Distinct(s.order)
    && (forall a :: a in s.order <==> a in s.phase && a.Input?)
  }

  /**
   * One actor: its cache entry and its data follow from its phase, and so does what is known about its dependencies.
   */
  ghost predicate ActorOk(w: World, s: State, a: Actor)
    requires a in s.phase
  {
    var p := s.phase[a];
    && (a.Caller? ==> !p.Pending? && !p.Entering? && !Stored(p) && (p.Ended? ==> p.outcome.Raised?))
    && (a in s.cache <==> Stored(p))
    && (a in s.cache ==> s.cache[a] == OutcomeValue(p.outcome))
    && (a in s.data <==> Finished(p) && p.outcome.Ok?)
    && (a in s.data ==> s.data[a] == p.outcome.value)
    && (!p.Pending? && !p.Entering? && !p.Resolving? ==> forall d :: d in Deps(w, a) ==> d in s.phase)
    && (p.Waiting? ==> p.seen <= |Deps(w, a)|)
    && (p.Resolved? || p == Waiting(|Deps(w, a)|) || RanOwnCode(p) ==> forall d :: d in Deps(w, a) ==> d in s.cache)
  }

  ghost predicate Core(w: World, s: State) {
    && Bookkeeping(w, s)
    && (forall a :: a in s.phase ==> ActorOk(w, s, a))
    && s.executed == |Started(s)|
  }

  ghost predicate Inv(w: World, s: State) {
    Core(w, s) && Ordered(s)
  }

  /** What a step of `a` leaves alone: everyone else, and whatever is already cached. */
  ghost predicate Moves(s: State, t: State, a: Actor) {
    && a in s.phase && a in t.phase
    && (forall b :: b in s.phase && b != a ==> b in t.phase && t.phase[b] == s.phase[b])
    && (forall b :: b in t.phase && b !in s.phase ==> t.phase[b] == Pending)
    && (forall b :: b != a ==> (b in t.cache <==> b in s.cache) && (b in t.data <==> b in s.data))
    && (forall b :: b != a && b in s.cache ==> t.cache[b] == s.cache[b])
    && (forall b :: b != a && b in s.data ==> t.data[b] == s.data[b])
    && (a in s.cache ==> a in t.cache && DataOf(t.data, a) == DataOf(s.data, a))
  }

  lemma OthersStayOk(w: World, s: State, t: State, a: Actor)
    requires (forall b :: b in s.phase ==> ActorOk(w, s, b)) && Moves(s, t, a)
    requires forall b :: b in t.phase && b !in s.phase ==> b.Input? && b !in t.cache && b !in t.data
    ensures forall b :: b in t.phase && b != a ==> ActorOk(w, t, b)
  {
    forall b | b in t.phase && b != a
      ensures ActorOk(w, t, b)
    {
      if b in s.phase {
        assert ActorOk(w, s, b);
      }
    }
  }

  lemma StartedMoves(s: State, t: State, a: Actor)
    requires Moves(s, t, a) && t.phase.Keys == s.phase.Keys
    requires a.Input? ==> !t.phase[a].Pending?
    ensures |Started(t)| == |Started(s)| + if a.Input? && s.phase[a].Pending? then 1 else 0
  {
    if a.Input? && s.phase[a].Pending? {
      assert Started(t) == Started(s) + {a};
    } else {
      assert Started(t) == Started(s);
    }
  }

  lemma Reframe(w: World, s: State, t: State, a: Actor)
    requires Core(w, s) && Moves(s, t, a) && ActorOk(w, t, a)
    requires t.phase.Keys == s.phase.Keys
    requires a.Input? ==> !t.phase[a].Pending?
    requires t.executed == s.executed + if a.Input? && s.phase[a].Pending? then 1 else 0
    ensures Core(w, t)
  {
    OthersStayOk(w, s, t, a);
    StartedMoves(s, t, a);
    assert Bookkeeping(w, t) by {
      assert forall b :: b in t.cache || b in t.data ==> b == a || b in s.phase;
    }
  }

  /** A missing dependency has no task yet. */
  lemma MissingIsNew(w: World, s: State, a: Actor)
    requires ValidWorld(w) && Ordered(s) && Known(w, a)
    ensures forall m :: m in Missing(Deps(w, a), s.order) ==> m in w.inputs && m.Input? && m !in s.phase
    ensures Distinct(Missing(Deps(w, a), s.order))
  {
    forall m | m in Missing(Deps(w, a), s.order)
      ensures m in w.inputs && m.Input? && m !in s.phase
    {
      assert m in Deps(w, a);
      assert m in w.inputs;
    }
  }

  lemma ScheduleMoves(s: State, a: Actor, missing: seq<Actor>, t: State)
    requires a in s.phase && s.phase[a].Resolving?
    requires forall m :: m in missing ==> m.Input? && m !in s.phase
    requires t == s.(order := s.order + missing, phase := AddPending(s.phase, missing)[a := Waiting(0)])
    ensures Moves(s, t, a)
    ensures forall b :: b in t.phase <==> b in s.phase || b in missing
    ensures Started(t) == Started(s) + (if a.Input? then {a} else {})
  {
  }

  lemma ScheduleOrdered(s: State, t: State, missing: seq<Actor>)
    requires Ordered(s) && Distinct(missing)
    requires forall m :: m in missing ==> m.Input? && m !in s.phase
    requires forall b :: b in t.phase <==> b in s.phase || b in missing
    requires t.order == s.order + missing
    ensures Ordered(t)
  {
    DistinctAppend(s.order, missing);
  }

  lemma ScheduleActorOk(w: World, s: State, a: Actor, t: State)
    requires a in s.phase && s.phase[a].Resolving? && ActorOk(w, s, a)
    requires a in t.phase && t.phase[a] == Waiting(0) && t.cache == s.cache && t.data == s.data
    requires forall d :: d in Deps(w, a) ==> d in t.phase
    ensures ActorOk(w, t, a)
  {
    assert |Deps(w, a)| == 0 || t.phase[a] != Waiting(|Deps(w, a)|);
  }

  lemma ScheduleCore(w: World, s: State, a: Actor, missing: seq<Actor>, t: State)
    requires Core(w, s) && a in s.phase && s.phase[a].Resolving?
    requires forall m :: m in missing ==> m in w.inputs && m.Input? && m !in s.phase
    requires forall d :: d in Deps(w, a) ==> d in s.phase || d in missing
    requires t == s.(order := s.order + missing, phase := AddPending(s.phase, missing)[a := Waiting(0)])
    ensures Core(w, t)
  {
    ScheduleMoves(s, a, missing, t);
    OthersStayOk(w, s, t, a);
    ScheduleActorOk(w, s, a, t);
    assert Started(t) == Started(s);
  }

  lemma ScheduleStep(w: World, s: State, a: Actor)
    requires ValidWorld(w) && Inv(w, s) && Enabled(w, s, Schedule(a))
    ensures Inv(w, Scheduling(w, s, a)) && Moves(s, Scheduling(w, s, a), a)
  {
    var t, missing := Scheduling(w, s, a), Missing(Deps(w, a), s.order);
    MissingIsNew(w, s, a);
    ScheduleCore(w, s, a, missing, t);
    ScheduleMoves(s, a, missing, t);
    ScheduleOrdered(s, t, missing);
  }

  lemma StartStep(w: World, s: State, a: Actor)
    requires Core(w, s) && Enabled(w, s, Start(a))
    ensures Core(w, Starting(w, s, a)) && Starting(w, s, a).phase.Keys == s.phase.Keys && Moves(s, Starting(w, s, a), a)
  {
    assert ActorOk(w, s, a);
    Reframe(w, s, Starting(w, s, a), a);
  }

  lemma EnterStep(w: World, s: State, a: Actor)
    requires Core(w, s) && Enabled(w, s, Enter(a))
    ensures Core(w, Entered(s, a)) && Entered(s, a).phase.Keys == s.phase.Keys && Moves(s, Entered(s, a), a)
  {
    assert ActorOk(w, s, a);
    Reframe(w, s, Entered(s, a), a);
  }

  /** A step that changes the phase of `a` only. */
  lemma Shifts(w: World, s: State, a: Actor, p: Phase)
    requires Core(w, s) && a in s.phase && !p.Pending? && !p.Entering?
    requires !s.phase[a].Pending? && !Stored(s.phase[a]) && !Stored(p)
    requires !(Finished(s.phase[a]) && s.phase[a].outcome.Ok?) && !(Finished(p) && p.outcome.Ok?)
    requires !p.Resolving? ==> forall d :: d in Deps(w, a) ==> d in s.phase
    requires p.Waiting? ==> p.seen <= |Deps(w, a)|
    requires p.Resolved? || p == Waiting(|Deps(w, a)|) || RanOwnCode(p) ==> forall d :: d in Deps(w, a) ==> d in s.cache
    ensures var t := s.(phase := s.phase[a := p]);
            Core(w, t) && t.phase.Keys == s.phase.Keys && Moves(s, t, a)
  {
    var t := s.(phase := s.phase[a := p]);
    assert ActorOk(w, s, a);
    assert Moves(s, t, a);
    Reframe(w, s, t, a);
  }

  lemma PollStep(w: World, s: State, a: Actor)
    requires Core(w, s) && Enabled(w, s, Poll(a))
    ensures Core(w, Polling(w, s, a)) && Polling(w, s, a).phase.Keys == s.phase.Keys && Moves(s, Polling(w, s, a), a)
  {
    assert ActorOk(w, s, a);
    var failed := FirstFailed(s.order, s.phase);
    if failed.Some? {
      Shifts(w, s, a, Ended(Raised(Remapped(w, s.phase, failed.value))));
    } else {
      Shifts(w, s, a, Waiting(CountCached(Deps(w, a), s.cache)));
    }
  }

  lemma FinishStep(w: World, s: State, a: Actor)
    requires Core(w, s) && Enabled(w, s, Finish(a))
    ensures Core(w, Finishing(w, s, a)) && Moves(s, Finishing(w, s, a), a)
    ensures Finishing(w, s, a).phase.Keys == s.phase.Keys
  {
    assert ActorOk(w, s, a);
    Shifts(w, s, a, Finishing(w, s, a).phase[a]);
  }

  lemma EndsWith(w: World, s: State, t: State, a: Actor, o: Outcome)
    requires Core(w, s) && a in s.phase && a.Input? && s.phase[a].Resolved?
    requires t.phase == s.phase[a := Ended(o)] && t.cache == s.cache && t.executed == s.executed
    requires t.data == if o.Ok? then s.data[a := o.value] else s.data
    ensures Core(w, t) && t.phase.Keys == s.phase.Keys && Moves(s, t, a)
  {
    assert ActorOk(w, s, a);
    assert Moves(s, t, a);
    Reframe(w, s, t, a);
  }

  lemma ComputeStep(w: World, s: State, a: Actor)
    requires Core(w, s) && Enabled(w, s, Compute(a))
    ensures Core(w, Computing(w, s, a)) && Moves(s, Computing(w, s, a), a)
    ensures Computing(w, s, a).phase.Keys == s.phase.Keys
  {
    match w.own(a, w.kwargs + s.phase[a].results)
    case Produced(v) => EndsWith(w, s, Computing(w, s, a), a, Ok(v));
    case Threw(c) => EndsWith(w, s, Computing(w, s, a), a, Raised(Raw(c)));
  }

  lemma WriteStep(w: World, s: State, a: Actor)
    requires Core(w, s) && Enabled(w, s, Write(a))
    ensures Core(w, Writing(w, s, a)) && Writing(w, s, a).phase.Keys == s.phase.Keys && Moves(s, Writing(w, s, a), a)
  {
    assert ActorOk(w, s, a);
    Reframe(w, s, Writing(w, s, a), a);
  }

  lemma CloseStep(w: World, s: State, a: Actor)
    requires Core(w, s) && Enabled(w, s, Close(a))
    ensures Core(w, Exiting(s, a)) && Exiting(s, a).phase.Keys == s.phase.Keys && Moves(s, Exiting(s, a), a)
  {
    assert ActorOk(w, s, a);
    Reframe(w, s, Exiting(s, a), a);
  }

  lemma InvInit(w: World)
    requires ValidWorld(w)
    ensures Inv(w, Init(w))
  {
    assert Started(Init(w)) == {};
  }

  lemma SameOrder(s: State, t: State)
    requires Ordered(s) && t.order == s.order && t.phase.Keys == s.phase.Keys
    ensures Ordered(t)
  {
  }

  lemma InvStep(w: World, s: State, l: Label)
    requires ValidWorld(w) && Inv(w, s) && Enabled(w, s, l)
    ensures Inv(w, Apply(w, s, l)) && Moves(s, Apply(w, s, l), l.actor)
  {
    match l
    case Start(a) => StartStep(w, s, a); SameOrder(s, Starting(w, s, a));
    case Enter(a) => EnterStep(w, s, a); SameOrder(s, Entered(s, a));
    case Schedule(a) => ScheduleStep(w, s, a);
    case Poll(a) => PollStep(w, s, a); SameOrder(s, Polling(w, s, a));
    case Finish(a) => FinishStep(w, s, a); SameOrder(s, Finishing(w, s, a));
    case Compute(a) => ComputeStep(w, s, a); SameOrder(s, Computing(w, s, a));
    case Write(a) => WriteStep(w, s, a); SameOrder(s, Writing(w, s, a));
    case Close(a) => CloseStep(w, s, a); SameOrder(s, Exiting(s, a));
  }

  /** Who moves in a step, who appears, and that finished tasks do not move. */
  lemma StepMoves(w: World, s: State, l: Label)
    requires ValidWorld(w) && Inv(w, s) && Enabled(w, s, l)
    ensures Moves(s, Apply(w, s, l), l.actor) && !s.phase[l.actor].Done?
    ensures forall b :: b in Apply(w, s, l).phase ==> Known(w, b) && (b in s.phase || b in Deps(w, l.actor))
  {
    InvStep(w, s, l);
  }

  /** The invariant holds after every run. */
  lemma {:induction false} InvAlways(w: World, run: seq<Label>)
    requires ValidWorld(w) && Legal(w, run)
    ensures Inv(w, After(w, run))
  {
    if run == [] {
      InvInit(w);
    } else {
      var init := run[..|run| - 1];
      InvAlways(w, init);
      InvStep(w, After(w, init), run[|run| - 1]);
    }
  }
}
