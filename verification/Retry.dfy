/** The retry policies: bounded recursion over the outcomes of repeated attempts. */
module Retry {
  import opened Collections
  import opened ErrorMaps

  /** One call of the wrapped function. */
  datatype Attempt<+T> = Returned(value: T) | Threw(cls: Class)

  /** `Empty` is the None returned when retries are exhausted and no exhaust error is set. */
  datatype Result<+T> = Value(value: T) | Propagated(cls: Class) | Exhausted(cls: Class) | Empty

  datatype Settings = Settings(retryCount: int, baseDelayMs: int, errorTypes: seq<Class>, exhaustError: Option<Class>)

  /** How a call of `execute` ended, after how many attempts, and how many seconds it slept. */
  datatype Execution<+T> = Execution(result: Result<T>, attempts: nat, slept: real)

  const DEFAULTS := Settings(3, 5000, [NetworkError], Some(NexusClientRuntimeError))

  predicate Retryable(isa: SubclassRelation, p: Settings, c: Class) {
    exists e | e in p.errorTypes :: isa(c, e)
  }

  function Delay(p: Settings, draw: real): real {
    p.baseDelayMs as real / 1000.0 + draw * p.baseDelayMs as real / 1000.0
  }

  function HandleExhaust<T>(p: Settings): Result<T> {
    if p.exhaustError.Some? then Exhausted(p.exhaustError.value) else Empty
  }

  /** The synchronous `_execute`, from its `i`-th try; `attempt(i)` is what the `i`-th call does. */
  function Execute<T>(isa: SubclassRelation, p: Settings, attempt: nat -> Attempt<T>, draw: nat -> real,
                      i: nat): Execution<T>
    decreases p.retryCount - i
  {
    if i >= p.retryCount then Execution(HandleExhaust(p), i, 0.0)
    else
      match attempt(i)
      case Returned(v) => Execution(Value(v), i + 1, 0.0)
      case Threw(c) =>
        if Retryable(isa, p, c) then
          var rest := Execute(isa, p, attempt, draw, i + 1);
          rest.(slept := Delay(p, draw(i)) + rest.slept)
        else Execution(Propagated(c), i + 1, 0.0)
  }

  /** What calling an asynchronous runnable gives: an outcome at once, or a coroutine to await. */
  datatype Call<+T> = Now(outcome: Attempt<T>) | Coroutine(outcome: Attempt<T>)

  /** The asynchronous `_execute`: either runs, or materialises and awaits a coroutine. */
  function ExecuteAsync<T>(isa: SubclassRelation, p: Settings, call: nat -> Call<T>, draw: nat -> real,
                           i: nat): Execution<T>
    decreases p.retryCount - i
  {
    if i >= p.retryCount then Execution(HandleExhaust(p), i, 0.0)
    else
      var outcome := match call(i) case Coroutine(awaited) => awaited case Now(direct) => direct;
      if outcome.Returned? then Execution(Value(outcome.value), i + 1, 0.0)
      else if Retryable(isa, p, outcome.cls) then
        var rest := ExecuteAsync(isa, p, call, draw, i + 1);
        rest.(slept := Delay(p, draw(i)) + rest.slept)
      else Execution(Propagated(outcome.cls), i + 1, 0.0)
  }

  // ----- The specification: look for the first attempt that is not a retryable failure -----

  function Budget(p: Settings): nat {
    if p.retryCount > 0 then p.retryCount else 0
  }

  predicate RetryableFailure<T>(isa: SubclassRelation, p: Settings, a: Attempt<T>) {
    a.Threw? && Retryable(isa, p, a.cls)
  }

  ghost predicate AllRetryable<T>(isa: SubclassRelation, p: Settings, attempt: nat -> Attempt<T>, i: nat, n: nat) {
    forall j: nat :: i <= j < n ==> RetryableFailure(isa, p, attempt(j))
  }

  ghost predicate StopsAt<T>(isa: SubclassRelation, p: Settings, attempt: nat -> Attempt<T>, i: nat, n: nat) {
    i <= n < Budget(p) && AllRetryable(isa, p, attempt, i, n) && !RetryableFailure(isa, p, attempt(n))
  }

  function Conclusion<T>(a: Attempt<T>): Result<T> {
    match a
    case Returned(v) => Value(v)
    case Threw(c) => Propagated(c)
  }

  /**
   * Either the call stops at its first attempt that is no retryable failure, or every attempt of its budget was one.
   */
  lemma {:induction false} ExecuteFrom<T>(isa: SubclassRelation, p: Settings, attempt: nat -> Attempt<T>,
                                          draw: nat -> real, i: nat)
    returns (stopped: bool)
    requires i <= Budget(p)
    ensures var e := Execute(isa, p, attempt, draw, i);
            if stopped then
              && e.attempts > 0
              && StopsAt(isa, p, attempt, i, e.attempts - 1)
              && e.result == Conclusion(attempt(e.attempts - 1))
            else
              e.attempts == Budget(p) && AllRetryable(isa, p, attempt, i, Budget(p)) && e.result == HandleExhaust(p)
    decreases Budget(p) - i
  {
    if i == Budget(p) {
      stopped := false;
    } else if RetryableFailure(isa, p, attempt(i)) {
      stopped := ExecuteFrom(isa, p, attempt, draw, i + 1);
    } else {
      stopped := true;
    }
  }

  /**
   * `execute`, by its attempts alone: the first that is no retryable failure decides, and is the last one made; if
   * there is none within the budget the call ends exhausted after exactly `max(retry_count, 0)` attempts, whatever
   * the class of the exhaust error.
   */
  lemma ExecuteMeets<T>(isa: SubclassRelation, p: Settings, attempt: nat -> Attempt<T>, draw: nat -> real, n: nat)
    ensures var e := Execute(isa, p, attempt, draw, 0);
            && (StopsAt(isa, p, attempt, 0, n) ==> e.attempts == n + 1 && e.result == Conclusion(attempt(n)))
            && (AllRetryable(isa, p, attempt, 0, Budget(p)) <==> e.result.Exhausted? || e.result.Empty?)
            && (AllRetryable(isa, p, attempt, 0, Budget(p)) ==> e.attempts == Budget(p))
            && (e.result.Exhausted? ==> p.exhaustError == Some(e.result.cls))
            && (e.result.Empty? ==> p.exhaustError.None?)
  {
    var stopped := ExecuteFrom(isa, p, attempt, draw, 0);
    var e := Execute(isa, p, attempt, draw, 0);
    if StopsAt(isa, p, attempt, 0, n) {
      assert !RetryableFailure(isa, p, attempt(n));
      assert e.attempts - 1 == n;
    }
  }

  /** `c` is an instance of one of the listed classes. */
  ghost predicate IsListed(isa: SubclassRelation, listed: seq<Class>, c: Class) {
    exists e :: e in listed && isa(c, e)
  }

  ghost predicate FailsListed<T>(isa: SubclassRelation, listed: seq<Class>, a: Attempt<T>) {
    a.Threw? && IsListed(isa, listed, a.cls)
  }

  /** What a call ends with when its tries are used up: the exhaust error, or nothing. */
  ghost predicate GivesUp<T>(p: Settings, r: Result<T>) {
    if p.exhaustError.Some? then r == Exhausted(p.exhaustError.value) else r == Empty
  }

  /**
   * After `n` listed failures the next attempt is made if there are tries left. A value is returned at once; a failure
   * that is an instance of no listed class is propagated at once; another listed failure uses up the tries or leads to
   * yet another attempt.
   */
  lemma NextAttemptDecides<T>(isa: SubclassRelation, p: Settings, attempt: nat -> Attempt<T>, draw: nat -> real, n: nat)
    requires forall j: nat :: j < n ==> FailsListed(isa, p.errorTypes, attempt(j))
    requires n <= p.retryCount || n == 0
    ensures var e := Execute(isa, p, attempt, draw, 0);
            if n >= p.retryCount then e.attempts == n && GivesUp(p, e.result)
            else
              && e.attempts > n
              && match attempt(n)
                 case Returned(v) => e.attempts == n + 1 && e.result == Value(v)
                 case Threw(c) =>
                   !IsListed(isa, p.errorTypes, c) ==> e.attempts == n + 1 && e.result == Propagated(c)
  {
    var stopped := ExecuteFrom(isa, p, attempt, draw, 0);
    var e := Execute(isa, p, attempt, draw, 0);
    forall j: nat
      ensures RetryableFailure(isa, p, attempt(j)) <==> FailsListed(isa, p.errorTypes, attempt(j))
    {
    }
    if stopped {
      assert !FailsListed(isa, p.errorTypes, attempt(e.attempts - 1));
    }
  }

  /** Synchronous and asynchronous execution make the same attempts, sleep the same and end the same. */
  lemma {:induction false} AsyncIsSync<T>(isa: SubclassRelation, p: Settings, call: nat -> Call<T>,
                                          draw: nat -> real, i: nat)
    ensures ExecuteAsync(isa, p, call, draw, i) == Execute(isa, p, (j: nat) => call(j).outcome, draw, i)
    decreases Budget(p) - i
  {
    if i < p.retryCount {
      AsyncIsSync(isa, p, call, draw, i + 1);
    }
  }

  // ----- Sleeping -----

  /** The retryable failures among the attempts: all of them, but for the one that stopped the call. */
  function Failures<T>(e: Execution<T>): int {
    if e.result.Exhausted? || e.result.Empty? then e.attempts else e.attempts - 1
  }

  /** n times x, by addition. */
  ghost function Times(n: nat, x: real): real {
    if n == 0 then 0.0 else Times(n - 1, x) + x
  }

  lemma {:induction false} TimesIsProduct(n: nat, x: real)
    ensures Times(n, x) == n as real * x
  {
    if n > 0 {
      TimesIsProduct(n - 1, x);
      assert n as real * x == (n - 1) as real * x + x;
    }
  }

  lemma {:induction false} SleepFrom<T>(isa: SubclassRelation, p: Settings, attempt: nat -> Attempt<T>,
                                        draw: nat -> real, i: nat)
    requires i <= Budget(p) && p.baseDelayMs > 0 && forall j :: 0.0 <= draw(j) < 1.0
    ensures var e := Execute(isa, p, attempt, draw, i);
            var base := p.baseDelayMs as real / 1000.0;
            && Failures(e) >= i
            && Times(Failures(e) - i, base) <= e.slept <= Times(Failures(e) - i, 2.0 * base)
            && (Failures(e) > i ==> e.slept < Times(Failures(e) - i, 2.0 * base))
    decreases Budget(p) - i
  {
    if i < Budget(p) && RetryableFailure(isa, p, attempt(i)) {
      SleepFrom(isa, p, attempt, draw, i + 1);
      DelayBounds(p, draw(i));
    }
  }

  lemma DelayBounds(p: Settings, d: real)
    requires p.baseDelayMs > 0 && 0.0 <= d < 1.0
    ensures var base := p.baseDelayMs as real / 1000.0;
            base > 0.0 && base <= Delay(p, d) < 2.0 * base
  {
    var base := p.baseDelayMs as real / 1000.0;
    assert Delay(p, d) == base + d * base;
    ScaledDraw(d, base);
  }

  lemma ScaledDraw(d: real, base: real)
    requires 0.0 <= d < 1.0 && base > 0.0
    ensures 0.0 <= d * base < base
  {
  }

  /** The base delay and a random share of it, for each failure from `i` on. */
  ghost function Delays(base: real, draw: nat -> real, i: nat, n: nat): real
    decreases n - i
  {
    if i >= n then 0.0 else base * (1.0 + draw(i)) + Delays(base, draw, i + 1, n)
  }

  lemma DelayIs(p: Settings, d: real)
    ensures Delay(p, d) == (p.baseDelayMs as real / 1000.0) * (1.0 + d)
  {
    var ms := p.baseDelayMs as real;
    assert d * ms / 1000.0 == (ms / 1000.0) * d;
  }

  lemma {:induction false} SleptFrom<T>(isa: SubclassRelation, p: Settings, attempt: nat -> Attempt<T>,
                                        draw: nat -> real, i: nat)
    requires i <= Budget(p)
    ensures var e := Execute(isa, p, attempt, draw, i);
            Failures(e) >= i && e.slept == Delays(p.baseDelayMs as real / 1000.0, draw, i, Failures(e))
    decreases Budget(p) - i
  {
    if i < Budget(p) && RetryableFailure(isa, p, attempt(i)) {
      SleptFrom(isa, p, attempt, draw, i + 1);
      DelayIs(p, draw(i));
    }
  }

  /** A call sleeps, for each of its retryable failures, the base delay and the drawn share of it. */
  lemma SleptIs<T>(isa: SubclassRelation, p: Settings, attempt: nat -> Attempt<T>, draw: nat -> real)
    ensures var e := Execute(isa, p, attempt, draw, 0);
            Failures(e) >= 0 && e.slept == Delays(p.baseDelayMs as real / 1000.0, draw, 0, Failures(e))
  {
    SleptFrom(isa, p, attempt, draw, 0);
  }

  /**
   * With draws in [0, 1) and a positive base delay, a call with n > 0 retryable failures sleeps at least n and less
   * than 2n base delays; when it is exhausted n is the whole retry count, so the last failure sleeps for nothing.
   */
  lemma SleepBounds<T>(isa: SubclassRelation, p: Settings, attempt: nat -> Attempt<T>, draw: nat -> real)
    requires p.baseDelayMs > 0 && forall j :: 0.0 <= draw(j) < 1.0
    ensures var e := Execute(isa, p, attempt, draw, 0);
            var n := Failures(e);
            var base := p.baseDelayMs as real / 1000.0;
            && (n > 0 ==> n as real * base <= e.slept < 2.0 * n as real * base)
            && (e.result.Exhausted? || e.result.Empty? ==> n == Budget(p))
  {
    var e, base := Execute(isa, p, attempt, draw, 0), p.baseDelayMs as real / 1000.0;
    SleepFrom(isa, p, attempt, draw, 0);
    TimesIsProduct(Failures(e), base);
    TimesIsProduct(Failures(e), 2.0 * base);
    ExecuteMeets(isa, p, attempt, draw, 0);
  }
}
