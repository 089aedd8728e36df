/** The policy builder in the heap: which settings a fork, a builder and its policies share. */
module RetryBuilders {
  import opened Collections
  import opened ErrorMaps
  import opened Retry

  /** One call of a `with_*` method. */
  datatype Op =
    | WithRetries(count: int)
    | WithDelay(delayMs: int)
    | WithExhaustError(error: Option<Class>)
    | WithErrorTypes(errors: seq<Class>)

  function Configure(s: Settings, op: Op): Settings {
    match op
    case WithRetries(n) => s.(retryCount := n)
    case WithDelay(d) => s.(baseDelayMs := d)
    case WithExhaustError(e) => s.(exhaustError := e)
    case WithErrorTypes(es) => s.(errorTypes := s.errorTypes + es)
  }

  function ConfigureAll(s: Settings, ops: seq<Op>): Settings {
    if ops == [] then s
    else Configure(ConfigureAll(s, ops[..|ops| - 1]), ops[|ops| - 1])
  }

  /** A Python list, shared by reference. */
  class ErrorList {
    var items: seq<Class>

    constructor (errors: seq<Class>)
      ensures items == errors
    {
      items := errors;
    }
  }

  class RetryPolicy {
    const retryCount: int
    const baseDelayMs: int
    const errorTypes: ErrorList
    const exhaustError: Option<Class>

    function Current(): Settings
      reads this, errorTypes
    {
      Settings(retryCount, baseDelayMs, errorTypes.items, exhaustError)
    }

    constructor (count: int, delayMs: int, errors: ErrorList, exhaust: Option<Class>)
      ensures errorTypes == errors && Current() == Settings(count, delayMs, errors.items, exhaust)
    {
      retryCount, baseDelayMs, errorTypes, exhaustError := count, delayMs, errors, exhaust;
    }
  }

  /** The `default` class method of either policy class. */
  method DefaultPolicy() returns (p: RetryPolicy)
    ensures fresh(p) && fresh(p.errorTypes)
    ensures p.Current() == Settings(3, 5000, [NetworkError], Some(NexusClientRuntimeError)) == DEFAULTS
  {
    var errors := new ErrorList([NetworkError]);
    p := new RetryPolicy(3, 5000, errors, Some(NexusClientRuntimeError));
  }

  class RetryPolicyBuilder {
    const defaultPolicy: RetryPolicy
    const errorTypes: ErrorList
    var retryCount: int
    var baseDelayMs: int
    var exhaustError: Option<Class>

    ghost function Current(): Settings
      reads this, errorTypes
    {
      Settings(retryCount, baseDelayMs, errorTypes.items, exhaustError)
    }

    /** The builder takes over the very list of its default policy. */
    constructor (policy: RetryPolicy)
      ensures defaultPolicy == policy && errorTypes == policy.errorTypes
      ensures Current() == policy.Current()
    {
      defaultPolicy, errorTypes := policy, policy.errorTypes;
      retryCount, baseDelayMs, exhaustError := policy.retryCount, policy.baseDelayMs, policy.exhaustError;
    }

    /** A fork starts from the defaults, not from this builder's settings. */
    method Fork() returns (b: RetryPolicyBuilder)
      ensures fresh(b) && fresh(b.errorTypes) && fresh(b.defaultPolicy)
      ensures b.Current() == DEFAULTS
    {
      var policy := DefaultPolicy();
      b := new RetryPolicyBuilder(policy);
    }

    method WithRetries(count: int)
      modifies this`retryCount
      ensures Current() == Configure(old(Current()), Op.WithRetries(count))
    {
      retryCount := count;
    }

    method WithRetryBaseDelayMs(delay: int)
      modifies this`baseDelayMs
      ensures Current() == Configure(old(Current()), WithDelay(delay))
    {
      baseDelayMs := delay;
    }

    method WithRetryExhaustErrorType(error: Option<Class>)
      modifies this`exhaustError
      ensures Current() == Configure(old(Current()), WithExhaustError(error))
    {
      exhaustError := error;
    }

    /** Extends the shared list, and with it every policy that shares it, built before or after. */
    method WithErrorTypes(errors: seq<Class>)
      modifies errorTypes
      ensures Current() == Configure(old(Current()), Op.WithErrorTypes(errors))
      ensures forall p: RetryPolicy {:trigger p.Current()} | old(allocated(p)) ::
                p.Current() == if p.errorTypes == errorTypes then Configure(old(p.Current()), Op.WithErrorTypes(errors))
                               else old(p.Current())
    {
      errorTypes.items := errorTypes.items + errors;
    }

    method Build() returns (p: RetryPolicy)
      ensures fresh(p) && p.errorTypes == errorTypes && p.Current() == Current()
    {
      p := new RetryPolicy(retryCount, baseDelayMs, errorTypes, exhaustError);
    }

    /** Any sequence of `with_*` calls. */
    method Apply(ops: seq<Op>)
      modifies this`retryCount, this`baseDelayMs, this`exhaustError, errorTypes
      ensures Current() == ConfigureAll(old(Current()), ops)
    {
      for i := 0 to |ops|
        invariant Current() == ConfigureAll(old(Current()), ops[..i])
      {
        assert ops[..i + 1][..i] == ops[..i];
        match ops[i]
        case WithRetries(n) => WithRetries(n);
        case WithDelay(d) => WithRetryBaseDelayMs(d);
        case WithExhaustError(e) => WithRetryExhaustErrorType(e);
        case WithErrorTypes(es) => WithErrorTypes(es);
      }
      assert ops[..|ops|] == ops;
    }

    /**
     * Fork isolation: whatever is configured on a fork, no policy and no builder that existed before changes, and the
     * policy built from the fork has the defaults with those changes only.
     */
    method ForkAndBuild(ops: seq<Op>) returns (p: RetryPolicy)
      ensures fresh(p) && fresh(p.errorTypes)
      ensures p.Current() == ConfigureAll(DEFAULTS, ops)
      ensures forall q: RetryPolicy {:trigger q.Current()} | old(allocated(q)) :: q.Current() == old(q.Current())
      ensures forall b: RetryPolicyBuilder {:trigger b.Current()} | old(allocated(b)) :: b.Current() == old(b.Current())
    {
      var fork := Fork();
      fork.Apply(ops);
      p := fork.Build();
    }

    /** No such isolation within one builder: two policies and the default policy share one list of error types. */
    method BuildTwice(between: seq<Class>) returns (first: RetryPolicy, second: RetryPolicy)
      requires defaultPolicy.errorTypes == errorTypes
      modifies errorTypes
      ensures first.errorTypes == second.errorTypes == defaultPolicy.errorTypes == errorTypes
      ensures first.Current() == second.Current() == Configure(old(Current()), Op.WithErrorTypes(between))
      ensures defaultPolicy.Current() == Configure(old(defaultPolicy.Current()), Op.WithErrorTypes(between))
    {
      first := Build();
      WithErrorTypes(between);
      second := Build();
    }
  }

  // ----- What a sequence of `with_*` calls amounts to -----

  function ErrorsAdded(ops: seq<Op>): seq<Class> {
    if ops == [] then []
    else
      var last := ops[|ops| - 1];
      ErrorsAdded(ops[..|ops| - 1]) + if last.WithErrorTypes? then last.errors else []
  }

  predicate SameSetting(a: Op, b: Op) {
    (a.WithRetries? && b.WithRetries?) || (a.WithDelay? && b.WithDelay?) || (a.WithExhaustError? && b.WithExhaustError?)
  }

  /** Error types only accumulate, in call order. */
  lemma {:induction false} ErrorTypesAccumulate(s: Settings, ops: seq<Op>)
    ensures ConfigureAll(s, ops).errorTypes == s.errorTypes + ErrorsAdded(ops)
  {
    if ops != [] {
      ErrorTypesAccumulate(s, ops[..|ops| - 1]);
    }
  }

  /** Of the other settings the last call counts. */
  lemma {:induction false} LastCallCounts(s: Settings, ops: seq<Op>, i: nat)
    requires i < |ops| && forall j :: i < j < |ops| ==> !SameSetting(ops[i], ops[j])
    ensures var t := ConfigureAll(s, ops);
            match ops[i]
            case WithRetries(n) => t.retryCount == n
            case WithDelay(d) => t.baseDelayMs == d
            case WithExhaustError(e) => t.exhaustError == e
            case WithErrorTypes(_) => true
  {
    if i < |ops| - 1 {
      LastCallCounts(s, ops[..|ops| - 1], i);
      assert !SameSetting(ops[i], ops[|ops| - 1]);
    }
  }

  /** A setting that is never called stays. */
  lemma {:induction false} UntouchedSettingStays(s: Settings, ops: seq<Op>, like: Op)
    requires forall j :: 0 <= j < |ops| ==> !SameSetting(like, ops[j])
    ensures var t := ConfigureAll(s, ops);
            match like
            case WithRetries(_) => t.retryCount == s.retryCount
            case WithDelay(_) => t.baseDelayMs == s.baseDelayMs
            case WithExhaustError(_) => t.exhaustError == s.exhaustError
            case WithErrorTypes(_) => true
  {
    if ops != [] {
      UntouchedSettingStays(s, ops[..|ops| - 1], like);
      assert !SameSetting(like, ops[|ops| - 1]);
    }
  }
}
