/** Creating a run and awaiting its result, with a new run whenever scheduling fails. */
module Scheduling {
  import opened Collections
  import opened ErrorMaps
  import opened Retry
  import opened RetryBuilders

  const SCHEDULING_FAILED := "SCHEDULING_FAILED"

  datatype RunResult = RunResult(status: string, uri: Option<string>)

  /**
   * An arbitrary scheduler, and the caller's callback: what they do on the i-th attempt, given the run just created.
   */
  datatype Scheduler = Scheduler(create: nat -> Attempt<string>,
                                 callback: Option<(nat, string) -> Attempt<()>>,
                                 wait: (nat, string) -> Attempt<RunResult>)

  datatype Event =
    | Created(run: Attempt<string>)
    | CalledBack(id: string)
    | Awaited(id: string, result: Attempt<RunResult>)

  /** What one attempt came to, and the calls it made. */
  datatype Try = Try(outcome: Attempt<RunResult>, events: seq<Event>)

  /** The inner `_create_and_await`. */
  function CreateAndAwaitOnce(s: Scheduler, i: nat): Try {
    var run := s.create(i);
    if run.Threw? then Try(Threw(run.cls), [Created(run)])
    else
      var id := run.value;
      var called := if s.callback.Some? then [CalledBack(id)] else [];
      var back := if s.callback.Some? then s.callback.value(i, id) else Returned(());
      if back.Threw? then Try(Threw(back.cls), [Created(run)] + called)
      else
        var result := s.wait(i, id);
        var outcome :=
          if result.Returned? && result.value.status == SCHEDULING_FAILED then Threw(NexusSchedulingError) else result;
        Try(outcome, [Created(run)] + called + [Awaited(id, result)])
  }

  function Tries(s: Scheduler): nat -> Attempt<RunResult> {
    (i: nat) => CreateAndAwaitOnce(s, i).outcome
  }

  /** The calls of the first `n` attempts, in order. */
  function Flatten(events: nat -> seq<Event>, n: nat): seq<Event> {
    if n == 0 then [] else Flatten(events, n - 1) + events(n - 1)
  }

  function TraceOf(s: Scheduler, n: nat): seq<Event> {
    Flatten((i: nat) => CreateAndAwaitOnce(s, i).events, n)
  }

  function CreatePolicy(propagateError: bool): Settings {
    var exhaust := if propagateError then Some(NexusClientRuntimeError) else None;
    Settings(3, 5000, [NetworkError, NexusSchedulingError], exhaust)
  }

  class SchedulerAsyncClient {
    const isa: SubclassRelation
    const builder: RetryPolicyBuilder
    var trace: seq<Event>

    constructor (subclasses: SubclassRelation)
      ensures fresh(builder) && fresh(builder.errorTypes) && builder.Current() == DEFAULTS
      ensures isa == subclasses && trace == []
    {
      var policy := DefaultPolicy();
      isa, trace := subclasses, [];
      builder := new RetryPolicyBuilder(policy);
    }

    /**
     * The default settings, with scheduling failures retried too, and silent exhaustion if errors are not propagated.
     */
    method RunPolicy(propagateError: bool) returns (p: RetryPolicy)
      ensures fresh(p) && p.Current() == CreatePolicy(propagateError)
      ensures p.Current() == Settings(3, 5000, [NetworkError, NexusSchedulingError],
                                      if propagateError then Some(NexusClientRuntimeError) else None)
    {
      var forked := builder.Fork();
      forked.WithErrorTypes([NexusSchedulingError]);
      if !propagateError {
        forked.WithRetryExhaustErrorType(None);
      }
      p := forked.Build();
    }

    /** The inner `_create_and_await`, call by call. */
    method CreateAndAwaitAttempt(s: Scheduler, i: nat) returns (outcome: Attempt<RunResult>)
      modifies this`trace
      ensures outcome == CreateAndAwaitOnce(s, i).outcome && trace == old(trace) + CreateAndAwaitOnce(s, i).events
    {
      var run := s.create(i);
      trace := trace + [Created(run)];
      if run.Threw? {
        return Threw(run.cls);
      }
      if s.callback.Some? {
        trace := trace + [CalledBack(run.value)];
        var back := s.callback.value(i, run.value);
        if back.Threw? {
          return Threw(back.cls);
        }
      }
      outcome := s.wait(i, run.value);
      trace := trace + [Awaited(run.value, outcome)];
      if outcome.Returned? && outcome.value.status == SCHEDULING_FAILED {
        outcome := Threw(NexusSchedulingError);
      }
    }

    /** The policy's recursion, from its `i`-th try. */
    method ExecuteTries(s: Scheduler, p: Settings, i: nat, ghost before: seq<Event>, ghost draw: nat -> real)
      returns (r: Result<RunResult>)
      requires trace == before + TraceOf(s, i)
      modifies this`trace
      ensures var e := Execute(isa, p, Tries(s), draw, i);
              r == e.result && trace == before + TraceOf(s, e.attempts)
      decreases p.retryCount - i
    {
      if i >= p.retryCount {
        return HandleExhaust(p);
      }
      var outcome := CreateAndAwaitAttempt(s, i);
      TraceStep(s, i);
      assert Tries(s)(i) == outcome;
      if outcome.Returned? {
        r := Value(outcome.value);
      } else if Retryable(isa, p, outcome.cls) {
        r := ExecuteTries(s, p, i + 1, before, draw);
      } else {
        r := Propagated(outcome.cls);
      }
    }

    /**
     * Against any scheduler: one to three runs are created, each called back once, if there is a callback, and then
     * awaited; a result is that of the run created last; a run is replaced exactly when creating, calling back or
     * awaiting it raised a network or scheduling error, or its scheduling failed, and at most twice.
     */
    method CreateAndAwait(s: Scheduler, propagateError: bool) returns (r: Result<RunResult>)
      modifies this`trace
      ensures builder.Current() == old(builder.Current())
      ensures old(trace) <= trace
      ensures var made := trace[|old(trace)|..];
              && InTurn(s, made)
              && Concludes(isa, s, propagateError, Creations(made), r)
              && (r.Value? ==>
                    LastCreated(made).Some? && made[|made| - 1] == Awaited(LastCreated(made).value, Returned(r.value)))
    {
      ghost var draw := (i: nat) => 0.0;
      ghost var before := trace;
      var policy := RunPolicy(propagateError);
      r := ExecuteTries(s, policy.Current(), 0, before, draw);
      ghost var n := Execute(isa, CreatePolicy(propagateError), Tries(s), draw, 0).attempts;
      assert trace[|before|..] == TraceOf(s, n);
      ResultIsOfLastRun(isa, s, propagateError, draw);
      AllInTurn(s, n);
    }
  }

  lemma TraceStep(s: Scheduler, i: nat)
    ensures TraceOf(s, i + 1) == TraceOf(s, i) + CreateAndAwaitOnce(s, i).events
  {
  }

  // ----- What the caller gets -----

  function Creations(events: seq<Event>): nat {
    if events == [] then 0
    else Creations(events[..|events| - 1]) + if events[|events| - 1].Created? then 1 else 0
  }

  /** The run that the last successful creation gave. */
  function LastCreated(events: seq<Event>): Option<string> {
    if events == [] then None
    else
      var last := events[|events| - 1];
      if last.Created? && last.run.Returned? then Some(last.run.value) else LastCreated(events[..|events| - 1])
  }

  lemma {:induction false} Concatenated(a: seq<Event>, b: seq<Event>)
    ensures Creations(a + b) == Creations(a) + Creations(b)
    ensures LastCreated(a + b) == if LastCreated(b).Some? then LastCreated(b) else LastCreated(a)
  {
    if b == [] {
      assert a + b == a;
    } else {
      assert (a + b)[..|a + b| - 1] == a + b[..|b| - 1];
      Concatenated(a, b[..|b| - 1]);
    }
  }

  lemma {:induction false} FirstIsCreation(events: seq<Event>)
    requires events != [] && events[0].Created? && forall i :: 0 < i < |events| ==> !events[i].Created?
    ensures Creations(events) == 1
    ensures LastCreated(events) == if events[0].run.Returned? then Some(events[0].run.value) else None
  {
    if |events| > 1 {
      FirstIsCreation(events[..|events| - 1]);
    } else {
      assert events[..0] == [];
    }
  }

  /** Every attempt creates one run, and awaits that one. */
  lemma OneTry(s: Scheduler, i: nat)
    ensures var t := CreateAndAwaitOnce(s, i);
            && Creations(t.events) == 1
            && LastCreated(t.events) == if s.create(i).Returned? then Some(s.create(i).value) else None
  {
    FirstIsCreation(CreateAndAwaitOnce(s, i).events);
  }

  lemma {:induction false} CreationsAre(events: nat -> seq<Event>, n: nat)
    requires forall i: nat :: Creations(events(i)) == 1
    ensures Creations(Flatten(events, n)) == n
  {
    if n > 0 {
      CreationsAre(events, n - 1);
      Concatenated(Flatten(events, n - 1), events(n - 1));
    }
  }

  lemma FlattenEnds(events: nat -> seq<Event>, n: nat)
    requires n > 0 && events(n - 1) != []
    ensures Flatten(events, n) != []
    ensures Flatten(events, n)[|Flatten(events, n)| - 1] == events(n - 1)[|events(n - 1)| - 1]
    ensures LastCreated(events(n - 1)).Some? ==> LastCreated(Flatten(events, n)) == LastCreated(events(n - 1))
  {
    Concatenated(Flatten(events, n - 1), events(n - 1));
  }

  /** After n attempts n runs were created, and what the last attempt returned is the result of the last of them. */
  lemma TraceIs(s: Scheduler, n: nat, result: RunResult)
    requires n > 0
    ensures Creations(TraceOf(s, n)) == n
    ensures CreateAndAwaitOnce(s, n - 1).outcome == Returned(result) ==>
              && LastCreated(TraceOf(s, n)).Some?
              && TraceOf(s, n) != []
              && TraceOf(s, n)[|TraceOf(s, n)| - 1] == Awaited(LastCreated(TraceOf(s, n)).value, Returned(result))
              && result.status != SCHEDULING_FAILED
  {
    var events := (i: nat) => CreateAndAwaitOnce(s, i).events;
    forall i: nat
      ensures Creations(events(i)) == 1
    {
      OneTry(s, i);
    }
    CreationsAre(events, n);
    OneTry(s, n - 1);
    FlattenEnds(events, n);
  }

  // ----- Attempts, from what the scheduler and the callback do -----

  ghost predicate CallbackPasses(s: Scheduler, i: nat, id: string) {
    s.callback.Some? ==> s.callback.value(i, id).Returned?
  }

  /** The `i`-th attempt raises `c`. */
  ghost predicate AttemptRaises(s: Scheduler, i: nat, c: Class) {
    match s.create(i)
    case Threw(d) => c == d
    case Returned(id) =>
      if !CallbackPasses(s, i, id) then s.callback.value(i, id) == Threw(c)
      else
        match s.wait(i, id)
        case Threw(d) => c == d
        case Returned(result) => result.status == "SCHEDULING_FAILED" && c == NexusSchedulingError
  }

  /** The `i`-th attempt gives a result. */
  ghost predicate AttemptGives(s: Scheduler, i: nat, result: RunResult) {
    && s.create(i).Returned? && CallbackPasses(s, i, s.create(i).value)
    && s.wait(i, s.create(i).value) == Returned(result) && result.status != "SCHEDULING_FAILED"
  }

  /** It raises a network or a scheduling error. */
  ghost predicate AttemptIsRepeated(isa: SubclassRelation, s: Scheduler, i: nat) {
    exists c :: AttemptRaises(s, i, c) && (isa(c, NetworkError) || isa(c, NexusSchedulingError))
  }

  /** After `n` attempts, of which all but the last were repeated, the last decides; the third is never repeated. */
  ghost predicate Concludes(isa: SubclassRelation, s: Scheduler, propagateError: bool, n: nat, r: Result<RunResult>) {
    && 1 <= n <= 3
    && (forall j: nat :: j < n - 1 ==> AttemptIsRepeated(isa, s, j))
    && match r
       case Value(result) => AttemptGives(s, n - 1, result)
       case Propagated(c) => AttemptRaises(s, n - 1, c) && !AttemptIsRepeated(isa, s, n - 1)
       case Exhausted(c) => n == 3 && AttemptIsRepeated(isa, s, 2) && propagateError && c == NexusClientRuntimeError
       case Empty => n == 3 && AttemptIsRepeated(isa, s, 2) && !propagateError
  }

  /**
   * A given callback is called once for each created run, with its id and at once; then, or at once if there is no
   * callback, that run is awaited, unless the callback raised.
   */
  ghost predicate TakesItsTurn(s: Scheduler, made: seq<Event>, p: int)
    requires 0 <= p < |made|
  {
    match made[p]
    case Created(run) =>
      run.Returned? ==>
        && p + 1 < |made|
        && if s.callback.Some? then made[p + 1] == CalledBack(run.value)
           else made[p + 1].Awaited? && made[p + 1].id == run.value
    case CalledBack(id) => s.callback.Some? && p > 0 && made[p - 1] == Created(Returned(id))
    case Awaited(id, _) => p > 0 && made[p - 1] == if s.callback.Some? then CalledBack(id) else Created(Returned(id))
  }

  ghost predicate InTurn(s: Scheduler, made: seq<Event>) {
    forall p {:trigger TakesItsTurn(s, made, p)} :: 0 <= p < |made| ==> TakesItsTurn(s, made, p)
  }

  lemma InTurnAppend(s: Scheduler, a: seq<Event>, b: seq<Event>)
    requires InTurn(s, a) && InTurn(s, b)
    ensures InTurn(s, a + b)
  {
    forall p | 0 <= p < |a + b|
      ensures TakesItsTurn(s, a + b, p)
    {
      if p < |a| {
        assert TakesItsTurn(s, a, p);
      } else {
        assert TakesItsTurn(s, b, p - |a|);
      }
    }
  }

  lemma {:induction false} AllInTurn(s: Scheduler, n: nat)
    ensures InTurn(s, TraceOf(s, n))
  {
    if n > 0 {
      AllInTurn(s, n - 1);
      TraceStep(s, n - 1);
      InTurnAppend(s, TraceOf(s, n - 1), CreateAndAwaitOnce(s, n - 1).events);
    }
  }

  lemma AttemptIs(isa: SubclassRelation, s: Scheduler, propagateError: bool, i: nat)
    ensures match Tries(s)(i)
            case Returned(result) => AttemptGives(s, i, result) && forall c :: !AttemptRaises(s, i, c)
            case Threw(c) => forall d :: AttemptRaises(s, i, d) <==> d == c
    ensures AttemptIsRepeated(isa, s, i) <==> RetryableFailure(isa, CreatePolicy(propagateError), Tries(s)(i))
  {
    var p := CreatePolicy(propagateError);
    assert p.errorTypes[0] == NetworkError && p.errorTypes[1] == NexusSchedulingError;
  }

  /**
   * Against any scheduler: at most three runs are created, one per attempt, and the attempts conclude as they should;
   * a result is that of the run created last.
   */
  lemma ResultIsOfLastRun(isa: SubclassRelation, s: Scheduler, propagateError: bool, draw: nat -> real)
    ensures var e := Execute(isa, CreatePolicy(propagateError), Tries(s), draw, 0);
            var trace := TraceOf(s, e.attempts);
            && Creations(trace) == e.attempts
            && Concludes(isa, s, propagateError, e.attempts, e.result)
            && (e.result.Value? ==>
                  && LastCreated(trace).Some?
                  && trace[|trace| - 1] == Awaited(LastCreated(trace).value, Returned(e.result.value)))
  {
    var p := CreatePolicy(propagateError);
    var e := Execute(isa, p, Tries(s), draw, 0);
    var stopped := ExecuteFrom(isa, p, Tries(s), draw, 0);
    forall i: nat
      ensures AttemptIsRepeated(isa, s, i) <==> RetryableFailure(isa, p, Tries(s)(i))
    {
      AttemptIs(isa, s, propagateError, i);
    }
    AttemptIs(isa, s, propagateError, e.attempts - 1);
    TraceIs(s, e.attempts, if e.result.Value? then e.result.value else RunResult("", None));
  }

  /** A run whose scheduling failed is replaced by a new one, as long as attempts are left. */
  lemma SchedulingFailureCreatesAnother(isa: SubclassRelation, s: Scheduler, propagateError: bool, draw: nat -> real,
                                        i: nat, id: string)
    requires i < 2 && i < Execute(isa, CreatePolicy(propagateError), Tries(s), draw, 0).attempts
    requires s.create(i) == Returned(id) && (s.callback.Some? ==> s.callback.value(i, id).Returned?)
    requires s.wait(i, id).Returned? && s.wait(i, id).value.status == SCHEDULING_FAILED
    ensures i + 1 < Execute(isa, CreatePolicy(propagateError), Tries(s), draw, 0).attempts
  {
    var p := CreatePolicy(propagateError);
    var e := Execute(isa, p, Tries(s), draw, 0);
    var stopped := ExecuteFrom(isa, p, Tries(s), draw, 0);
    assert NexusSchedulingError == p.errorTypes[1];
    assert RetryableFailure(isa, p, Tries(s)(i));
  }
}
