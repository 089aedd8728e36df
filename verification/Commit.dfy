/** Completing a run: submit the result, call back, then wait until the receiver says it is committed. */
module Commit {
  import opened Collections
  import opened ErrorMaps
  import opened Retry
  import opened RetryBuilders

  /** What `check_run` answers: an optional boolean, or an exception. */
  datatype Answer = Answered(committed: Option<bool>) | CheckThrew(cls: Class)

  /** An arbitrary receiver: what it does at its i-th submit and at its i-th check. */
  datatype Receiver = Receiver(submit: nat -> Attempt<()>, check: nat -> Answer)

  datatype Event = Submitted(outcome: Attempt<()>) | CalledBack | Checked(answer: Answer)

  datatype Ending = Normal | Raises(cls: Class)

  datatype Committed = Committed(ending: Ending, trace: seq<Event>)

  predicate Positive(a: Answer) {
    a == Answered(Some(true))
  }

  /** `check_run_committed`: no answer, or a negative one, is an exception. */
  function CheckRunCommitted(a: Answer): Attempt<()> {
    match a
    case Answered(Some(true)) => Returned(())
    case Answered(_) => Threw(NexusReceiverResultNotCommittedError)
    case CheckThrew(c) => Threw(c)
  }

  function Checking(r: Receiver): nat -> Attempt<()> {
    (i: nat) => CheckRunCommitted(r.check(i))
  }

  function Submits(r: Receiver, n: nat): seq<Event> {
    seq(n, (i: nat) => Submitted(r.submit(i)))
  }

  function Checks(r: Receiver, n: nat): seq<Event> {
    seq(n, (i: nat) => Checked(r.check(i)))
  }

  function EndingOf<T>(r: Result<T>): Ending {
    match r
    case Value(_) => Normal
    case Empty => Normal
    case Propagated(c) => Raises(c)
    case Exhausted(c) => Raises(c)
  }

  /** First phase: submit, under a retry policy. */
  function Submitting(isa: SubclassRelation, p: Settings, r: Receiver, draw: nat -> real): Committed {
    var e := Execute(isa, p, r.submit, draw, 0);
    Committed(EndingOf(e.result), Submits(r, e.attempts))
  }

  /** Last phase: ask whether the run is committed, under a retry policy. */
  function Awaiting(isa: SubclassRelation, p: Settings, r: Receiver, draw: nat -> real): Committed {
    var e := Execute(isa, p, Checking(r), draw, 0);
    Committed(EndingOf(e.result), Checks(r, e.attempts))
  }

  function Called(callback: Option<Attempt<()>>): seq<Event> {
    if callback.Some? then [CalledBack] else []
  }

  /**
   * The protocol both clients follow, given the policies of its two phases. `callback` is what the callback does, if
   * given.
   */
  function Completion(isa: SubclassRelation, submitting: Settings, awaiting: Settings, r: Receiver,
                      callback: Option<Attempt<()>>, draw: nat -> real): Committed
  {
    var submit := Submitting(isa, submitting, r, draw);
    if submit.ending.Raises? then submit
    else if callback.Some? && callback.value.Threw? then
      Committed(Raises(callback.value.cls), submit.trace + Called(callback))
    else
      var check := Awaiting(isa, awaiting, r, draw);
      Committed(check.ending, submit.trace + Called(callback) + check.trace)
  }

  lemma AppendInTurn<T>(before: seq<T>, a: seq<T>, b: seq<T>, c: seq<T>)
    ensures before + a + b == before + (a + b)
    ensures before + a + b + c == before + (a + b + c)
  {
  }

  const ACK_SETTINGS :=
    Settings(10, 2000, [NetworkError, NexusReceiverResultNotCommittedError], Some(NexusClientRuntimeError))

  /** The client whose calls reach the receiver. */
  class ReceiverClient {
    const isa: SubclassRelation
    var trace: seq<Event>

    constructor (subclasses: SubclassRelation)
      ensures isa == subclasses && trace == []
    {
      isa, trace := subclasses, [];
    }

    /** A policy's `execute` around `complete_run`. */
    method SubmitUnder(r: Receiver, p: Settings, ghost draw: nat -> real) returns (ending: Ending)
      modifies this`trace
      ensures var c := Submitting(isa, p, r, draw); ending == c.ending && trace == old(trace) + c.trace
    {
      assert trace + Submits(r, 0) == trace;
      ending := SubmitTries(r, p, 0, trace, draw);
    }

    /** A policy's `execute` around `check_run_committed`. */
    method CheckUnder(r: Receiver, p: Settings, ghost draw: nat -> real) returns (ending: Ending)
      modifies this`trace
      ensures var c := Awaiting(isa, p, r, draw); ending == c.ending && trace == old(trace) + c.trace
    {
      assert trace + Checks(r, 0) == trace;
      ending := CheckTries(r, p, 0, trace, draw);
    }

    /** The callback between the phases, if there is one. */
    method CallBack(callback: Option<Attempt<()>>) returns (ending: Ending)
      modifies this`trace
      ensures trace == old(trace) + Called(callback)
      ensures ending == if callback.Some? && callback.value.Threw? then Raises(callback.value.cls) else Normal
    {
      ending := Normal;
      if callback.Some? {
        trace := trace + [CalledBack];
        if callback.value.Threw? {
          ending := Raises(callback.value.cls);
        }
      }
    }

    /** The recursion of a retry policy around `complete_run`, from its `i`-th try. */
    method SubmitTries(r: Receiver, p: Settings, i: nat, ghost before: seq<Event>, ghost draw: nat -> real)
      returns (ending: Ending)
      requires trace == before + Submits(r, i)
      modifies this`trace
      ensures var e := Execute(isa, p, r.submit, draw, i);
              ending == EndingOf(e.result) && trace == before + Submits(r, e.attempts)
      decreases p.retryCount - i
    {
      if i >= p.retryCount {
        return if p.exhaustError.Some? then Raises(p.exhaustError.value) else Normal;
      }
      var outcome := r.submit(i);
      trace := trace + [Submitted(outcome)];
      assert Submits(r, i + 1) == Submits(r, i) + [Submitted(outcome)];
      if outcome.Returned? {
        ending := Normal;
      } else if Retryable(isa, p, outcome.cls) {
        ending := SubmitTries(r, p, i + 1, before, draw);
      } else {
        ending := Raises(outcome.cls);
      }
    }

    /** The recursion of a retry policy around `check_run_committed`, from its `i`-th try. */
    method CheckTries(r: Receiver, p: Settings, i: nat, ghost before: seq<Event>, ghost draw: nat -> real)
      returns (ending: Ending)
      requires trace == before + Checks(r, i)
      modifies this`trace
      ensures var e := Execute(isa, p, Checking(r), draw, i);
              ending == EndingOf(e.result) && trace == before + Checks(r, e.attempts)
      decreases p.retryCount - i
    {
      if i >= p.retryCount {
        return if p.exhaustError.Some? then Raises(p.exhaustError.value) else Normal;
      }
      var answer := r.check(i);
      trace := trace + [Checked(answer)];
      assert Checks(r, i + 1) == Checks(r, i) + [Checked(answer)];
      var outcome := CheckRunCommitted(answer);
      assert Checking(r)(i) == outcome;
      if outcome.Returned? {
        ending := Normal;
      } else if Retryable(isa, p, outcome.cls) {
        ending := CheckTries(r, p, i + 1, before, draw);
      } else {
        ending := Raises(outcome.cls);
      }
    }
  }

  /** The settings of the synchronous helper: one configured builder, used for both phases. */
  function SyncSettings(retryCount: int, delayMs: int, errorTypes: seq<Class>, exhaust: Option<Class>): Settings {
    var errors := if errorTypes == [] then [NexusReceiverResultNotCommittedError] else errorTypes;
    Settings(retryCount, delayMs, DEFAULTS.errorTypes + errors, exhaust)
  }

  // ----- What a normal return means -----

  ghost predicate SubmitPhase(isa: SubclassRelation, p: Settings, events: seq<Event>) {
    && 1 <= |events| <= p.retryCount
    && (forall i :: 0 <= i < |events| ==> events[i].Submitted?)
    && (forall i :: 0 <= i < |events| - 1 ==> RetryableFailure(isa, p, events[i].outcome))
    && events[|events| - 1].outcome.Returned?
  }

  ghost predicate CheckPhase(p: Settings, events: seq<Event>) {
    && 1 <= |events| <= p.retryCount
    && (forall i :: 0 <= i < |events| ==> events[i].Checked?)
    && (forall i :: 0 <= i < |events| - 1 ==> !Positive(events[i].answer))
    && Positive(events[|events| - 1].answer)
  }

  lemma SubmitPhaseIs(isa: SubclassRelation, p: Settings, r: Receiver, draw: nat -> real)
    requires p.exhaustError.Some?
    ensures var e := Submitting(isa, p, r, draw);
            e.ending.Normal? ==> SubmitPhase(isa, p, e.trace)
  {
    var stopped := ExecuteFrom(isa, p, r.submit, draw, 0);
    var e := Execute(isa, p, r.submit, draw, 0);
    if stopped {
      assert StopsAt(isa, p, r.submit, 0, e.attempts - 1);
    }
  }

  lemma ReturnsIffPositive(a: Answer)
    ensures CheckRunCommitted(a).Returned? <==> Positive(a)
  {
    if a.Answered? && a.committed.Some? && a.committed.value {
      assert a.committed == Some(true);
    }
  }

  lemma CheckPhaseIs(isa: SubclassRelation, p: Settings, r: Receiver, draw: nat -> real)
    requires p.exhaustError.Some?
    ensures var e := Awaiting(isa, p, r, draw);
            if e.ending.Normal? then CheckPhase(p, e.trace)
            else forall i :: 0 <= i < |e.trace| ==> e.trace[i].Checked? && !Positive(e.trace[i].answer)
  {
    var stopped := ExecuteFrom(isa, p, Checking(r), draw, 0);
    var e := Execute(isa, p, Checking(r), draw, 0);
    forall i: nat
      ensures Checking(r)(i).Returned? <==> Positive(r.check(i))
    {
      ReturnsIffPositive(r.check(i));
    }
    if stopped {
      assert StopsAt(isa, p, Checking(r), 0, e.attempts - 1);
      assert forall i: nat :: i < e.attempts - 1 ==> RetryableFailure(isa, p, Checking(r)(i));
    } else {
      assert forall i: nat :: i < e.attempts ==> RetryableFailure(isa, p, Checking(r)(i));
    }
  }

  /**
   * Against any receiver: with exhaust errors set, a normal return means a successful submit, then the callback
   * exactly once if there is one, then a positive check, in this order and each phase within its retry count.
   */
  lemma NormalReturnIsCommitted(isa: SubclassRelation, submitting: Settings, awaiting: Settings, r: Receiver,
                                callback: Option<Attempt<()>>, draw: nat -> real)
    returns (submits: seq<Event>, checks: seq<Event>)
    requires submitting.exhaustError.Some? && awaiting.exhaustError.Some?
    ensures var c := Completion(isa, submitting, awaiting, r, callback, draw);
            c.ending.Normal? ==>
              && c.trace == submits + Called(callback) + checks
              && SubmitPhase(isa, submitting, submits) && CheckPhase(awaiting, checks)
  {
    SubmitPhaseIs(isa, submitting, r, draw);
    CheckPhaseIs(isa, awaiting, r, draw);
    submits := Submitting(isa, submitting, r, draw).trace;
    checks := Awaiting(isa, awaiting, r, draw).trace;
  }

  // ----- The ending, from what the receiver does -----

  /** Within the retries some submit succeeds, after retryable failures only. */
  ghost predicate AcceptsSubmit(isa: SubclassRelation, p: Settings, r: Receiver) {
    exists n :: StopsAt(isa, p, r.submit, 0, n) && r.submit(n).Returned?
  }

  /** Within the retries some check is positive, after retryable failures only. */
  ghost predicate Confirms(isa: SubclassRelation, p: Settings, r: Receiver) {
    exists n :: StopsAt(isa, p, Checking(r), 0, n) && Positive(r.check(n))
  }

  lemma ReturnsIffAnAttemptDoes<T>(isa: SubclassRelation, p: Settings, attempt: nat -> Attempt<T>, draw: nat -> real)
    requires p.exhaustError.Some?
    ensures var e := Execute(isa, p, attempt, draw, 0);
            EndingOf(e.result).Normal? <==> exists n :: StopsAt(isa, p, attempt, 0, n) && attempt(n).Returned?
  {
    var stopped := ExecuteFrom(isa, p, attempt, draw, 0);
    var e := Execute(isa, p, attempt, draw, 0);
    if stopped {
      assert StopsAt(isa, p, attempt, 0, e.attempts - 1);
    }
    if n :| StopsAt(isa, p, attempt, 0, n) && attempt(n).Returned? {
      ExecuteMeets(isa, p, attempt, draw, n);
    }
  }

  /**
   * With exhaust errors set: a normal ending exactly when the receiver accepts, the callback returns, and the receiver
   * confirms.
   */
  lemma NormalIffReceiverAgrees(isa: SubclassRelation, submitting: Settings, awaiting: Settings, r: Receiver,
                                callback: Option<Attempt<()>>, draw: nat -> real)
    requires submitting.exhaustError.Some? && awaiting.exhaustError.Some?
    ensures Completion(isa, submitting, awaiting, r, callback, draw).ending.Normal? <==>
              && AcceptsSubmit(isa, submitting, r)
              && (callback.Some? ==> callback.value.Returned?)
              && Confirms(isa, awaiting, r)
  {
    ReturnsIffAnAttemptDoes(isa, submitting, r.submit, draw);
    ReturnsIffAnAttemptDoes(isa, awaiting, Checking(r), draw);
    forall n: nat
      ensures Checking(r)(n).Returned? <==> Positive(r.check(n))
    {
      ReturnsIffPositive(r.check(n));
    }
  }

  ghost predicate SomePositiveCheck(trace: seq<Event>) {
    exists i :: 0 <= i < |trace| && trace[i].Checked? && Positive(trace[i].answer)
  }

  /**
   * With exhaust errors set the caller can rely on the ending: it is normal exactly when the receiver has confirmed
   * the commit.
   */
  lemma NormalIffCommitted(isa: SubclassRelation, submitting: Settings, awaiting: Settings, r: Receiver,
                           callback: Option<Attempt<()>>, draw: nat -> real)
    requires submitting.exhaustError.Some? && awaiting.exhaustError.Some?
    ensures var c := Completion(isa, submitting, awaiting, r, callback, draw);
            c.ending.Normal? <==> SomePositiveCheck(c.trace)
  {
    var c := Completion(isa, submitting, awaiting, r, callback, draw);
    var submits, checks := NormalReturnIsCommitted(isa, submitting, awaiting, r, callback, draw);
    CheckPhaseIs(isa, awaiting, r, draw);
    if c.ending.Normal? {
      var last := |c.trace| - 1;
      assert c.trace[last] == checks[|checks| - 1];
    } else {
      var before := Submitting(isa, submitting, r, draw).trace + Called(callback);
      assert forall i :: 0 <= i < |before| ==> !before[i].Checked?;
    }
  }

  /**
   * The synchronous helper vouches for the commit of every run it returns from exactly when it is given an exhaust
   * error.
   */
  lemma SyncVouchesIffExhaustError(isa: SubclassRelation, retryCount: int, delayMs: int, errorTypes: seq<Class>,
                                   exhaust: Option<Class>)
    ensures var p := SyncSettings(retryCount, delayMs, errorTypes, exhaust);
            (forall r, callback, draw ::
               var c := Completion(isa, p, p, r, callback, draw);
               c.ending.Normal? ==> SomePositiveCheck(c.trace))
            <==> exhaust.Some?
  {
    var p := SyncSettings(retryCount, delayMs, errorTypes, exhaust);
    if exhaust.Some? {
      forall r, callback, draw
        ensures var c := Completion(isa, p, p, r, callback, draw);
                c.ending.Normal? ==> SomePositiveCheck(c.trace)
      {
        NormalIffCommitted(isa, p, p, r, callback, draw);
      }
    } else {
      SilentReceiver(isa, p);
    }
  }

  /** Without an exhaust error a receiver that never answers makes the call return as if all were well. */
  lemma SilentReceiver(isa: SubclassRelation, p: Settings)
    requires p.exhaustError.None? && Retryable(isa, p, NetworkError)
    ensures exists r, callback, draw ::
              var c := Completion(isa, p, p, r, callback, draw);
              c.ending.Normal? && !SomePositiveCheck(c.trace)
  {
    var r := Receiver((i: nat) => Threw(NetworkError), (i: nat) => CheckThrew(NetworkError));
    var draw := (i: nat) => 0.0;
    var none: Option<Attempt<()>> := None;
    forall j: nat
      ensures RetryableFailure(isa, p, r.submit(j)) && RetryableFailure(isa, p, Checking(r)(j))
    {
      assert r.submit(j) == Threw(NetworkError) && r.check(j) == CheckThrew(NetworkError);
    }
    ExecuteMeets(isa, p, r.submit, draw, 0);
    ExecuteMeets(isa, p, Checking(r), draw, 0);
    assert AllRetryable(isa, p, r.submit, 0, Budget(p)) && AllRetryable(isa, p, Checking(r), 0, Budget(p));
    var c := Completion(isa, p, p, r, none, draw);
    assert c.ending.Normal? && !SomePositiveCheck(c.trace);
  }

  // ----- The ending and the calls, from the receiver's answers -----

  /** What the calls of a phase raise, if anything; an answer other than yes is an exception too. */
  ghost function SubmitRaises(r: Receiver): nat -> Option<Class> {
    (i: nat) => if r.submit(i).Threw? then Some(r.submit(i).cls) else None
  }

  ghost function CheckRaises(r: Receiver): nat -> Option<Class> {
    (i: nat) =>
      if r.check(i) == Answered(Some(true)) then None
      else if r.check(i).CheckThrew? then Some(r.check(i).cls)
      else Some(NexusReceiverResultNotCommittedError)
  }

  /**
   * A phase under the settings `p` ends after `n` calls: with the first that raises nothing, with the first that raises
   * what is not listed, or, when all its tries have raised what is listed, with the exhaust error if there is one.
   */
  ghost predicate PhaseEnds(isa: SubclassRelation, p: Settings, raised: nat -> Option<Class>, n: nat, ending: Ending) {
    && (n == 0 || n <= p.retryCount)
    && (forall j: nat :: j < n - 1 ==> raised(j).Some? && IsListed(isa, p.errorTypes, raised(j).value))
    && if n > 0 && raised(n - 1).None? then ending == Normal
       else if n > 0 && !IsListed(isa, p.errorTypes, raised(n - 1).value) then ending == Raises(raised(n - 1).value)
       else n >= p.retryCount && ending == if p.exhaustError.Some? then Raises(p.exhaustError.value) else Normal
  }

  /**
   * The whole protocol, with `n` submits and `k` checks: a submit phase that raises is all there is; then the callback,
   * and if it raises nothing is checked; then the check phase, which decides.
   */
  ghost predicate CompletesAs(isa: SubclassRelation, submitting: Settings, awaiting: Settings, r: Receiver,
                              callback: Option<Attempt<()>>, n: nat, k: nat, ending: Ending, made: seq<Event>)
  {
    var submits := seq(n, (i: nat) => Submitted(r.submit(i)));
    var checks := seq(k, (i: nat) => Checked(r.check(i)));
    || (ending.Raises? && PhaseEnds(isa, submitting, SubmitRaises(r), n, ending) && made == submits)
    || (PhaseEnds(isa, submitting, SubmitRaises(r), n, Normal) &&
        match callback
        case Some(Threw(c)) => ending == Raises(c) && made == submits + [CalledBack]
        case Some(_) => PhaseEnds(isa, awaiting, CheckRaises(r), k, ending) && made == submits + [CalledBack] + checks
        case None => PhaseEnds(isa, awaiting, CheckRaises(r), k, ending) && made == submits + checks)
  }

  lemma ExecuteEndsPhase<T>(isa: SubclassRelation, p: Settings, attempt: nat -> Attempt<T>, draw: nat -> real,
                            raised: nat -> Option<Class>)
    requires forall i: nat :: raised(i) == if attempt(i).Threw? then Some(attempt(i).cls) else None
    ensures var e := Execute(isa, p, attempt, draw, 0);
            PhaseEnds(isa, p, raised, e.attempts, EndingOf(e.result))
  {
    var stopped := ExecuteFrom(isa, p, attempt, draw, 0);
    var e := Execute(isa, p, attempt, draw, 0);
    forall i: nat
      ensures RetryableFailure(isa, p, attempt(i)) <==>
                raised(i).Some? && IsListed(isa, p.errorTypes, raised(i).value)
    {
    }
    if stopped {
      assert !RetryableFailure(isa, p, attempt(e.attempts - 1));
      assert AllRetryable(isa, p, attempt, 0, e.attempts - 1);
    }
  }

  lemma CheckRaisesIs(r: Receiver, i: nat)
    ensures CheckRaises(r)(i) == if Checking(r)(i).Threw? then Some(Checking(r)(i).cls) else None
  {
    var a := r.check(i);
    if a.Answered? && a.committed.Some? && a.committed.value {
      assert a == Answered(Some(true));
    }
  }

  lemma CompletionIs(isa: SubclassRelation, submitting: Settings, awaiting: Settings, r: Receiver,
                     callback: Option<Attempt<()>>, draw: nat -> real)
    ensures var c := Completion(isa, submitting, awaiting, r, callback, draw);
            exists n, k :: CompletesAs(isa, submitting, awaiting, r, callback, n, k, c.ending, c.trace)
  {
    ExecuteEndsPhase(isa, submitting, r.submit, draw, SubmitRaises(r));
    forall i: nat
      ensures CheckRaises(r)(i) == if Checking(r)(i).Threw? then Some(Checking(r)(i).cls) else None
    {
      CheckRaisesIs(r, i);
    }
    ExecuteEndsPhase(isa, awaiting, Checking(r), draw, CheckRaises(r));
    var c := Completion(isa, submitting, awaiting, r, callback, draw);
    var n := Execute(isa, submitting, r.submit, draw, 0).attempts;
    var k := Execute(isa, awaiting, Checking(r), draw, 0).attempts;
    assert Submits(r, n) + [] == Submits(r, n);
    assert CompletesAs(isa, submitting, awaiting, r, callback, n, k, c.ending, c.trace);
  }

  // ----- Waiting for the commit -----

  /** The `n`-th submit is the first that the receiver takes, and before it there were network errors only. */
  ghost predicate Accepts(isa: SubclassRelation, r: Receiver, n: nat) {
    r.submit(n).Returned? && forall j: nat :: j < n ==> r.submit(j).Threw? && isa(r.submit(j).cls, NetworkError)
  }

  /** The receiver does not know yet, says no, or cannot be reached. */
  ghost predicate Unconfirmed(isa: SubclassRelation, a: Answer) {
    match a
    case Answered(committed) => committed == None || committed == Some(false)
    case CheckThrew(c) => isa(c, NetworkError) || isa(c, NexusReceiverResultNotCommittedError)
  }

  ghost predicate UnconfirmedUntil(isa: SubclassRelation, r: Receiver, k: nat) {
    forall j: nat :: j < k ==> Unconfirmed(isa, r.check(j))
  }

  /** With the `n`-th submit taken and the first `k` checks unconfirmed. */
  ghost predicate WaitsFor(submits: int, checks: int, givenUp: Ending, r: Receiver, callback: Option<Attempt<()>>,
                           ending: Ending, made: seq<Event>, n: nat, k: nat)
  {
    n < submits && k <= checks && (callback.None? || callback.value.Returned?) ==>
      (k == checks || r.check(k) == Answered(Some(true))) ==>
        && ending == (if k == checks then givenUp else Normal)
        && made == seq(n + 1, (i: nat) => Submitted(r.submit(i)))
                   + (if callback.Some? then [CalledBack] else [])
                   + seq(if k == checks then k else k + 1, (i: nat) => Checked(r.check(i)))
  }

  /**
   * Once the submit is taken and the callback has returned, the call asks until it is told yes and then returns, or
   * until it has asked as often as it may and then gives up.
   */
  ghost predicate WaitsForCommit(isa: SubclassRelation, submits: int, checks: int, givenUp: Ending, r: Receiver,
                                 callback: Option<Attempt<()>>, ending: Ending, made: seq<Event>)
  {
    forall n: nat, k: nat :: Accepts(isa, r, n) && UnconfirmedUntil(isa, r, k) ==>
      WaitsFor(submits, checks, givenUp, r, callback, ending, made, n, k)
  }

  function GivenUp(p: Settings): Ending {
    if p.exhaustError.Some? then Raises(p.exhaustError.value) else Normal
  }

  /** Network errors and refusals are retried. */
  ghost predicate ListsBoth(p: Settings) {
    NetworkError in p.errorTypes && NexusReceiverResultNotCommittedError in p.errorTypes
  }

  /** There is only one way for a phase to end. */
  lemma PhaseEndsOneWay(isa: SubclassRelation, p: Settings, raised: nat -> Option<Class>, m: nat, d: Ending, n: nat,
                        e: Ending)
    requires PhaseEnds(isa, p, raised, m, d) && PhaseEnds(isa, p, raised, n, e)
    ensures m == n && d == e
  {
  }

  lemma CompletesOneWay(isa: SubclassRelation, submitting: Settings, awaiting: Settings, r: Receiver,
                        callback: Option<Attempt<()>>, m: nat, j: nat, d: Ending, x: seq<Event>,
                        n: nat, k: nat, e: Ending, y: seq<Event>)
    requires CompletesAs(isa, submitting, awaiting, r, callback, m, j, d, x)
    requires CompletesAs(isa, submitting, awaiting, r, callback, n, k, e, y)
    ensures d == e && x == y
  {
    var first, second := if PhaseEnds(isa, submitting, SubmitRaises(r), m, Normal) then Normal else d,
                         if PhaseEnds(isa, submitting, SubmitRaises(r), n, Normal) then Normal else e;
    PhaseEndsOneWay(isa, submitting, SubmitRaises(r), m, first, n, second);
    if PhaseEnds(isa, awaiting, CheckRaises(r), j, d) && PhaseEnds(isa, awaiting, CheckRaises(r), k, e) {
      PhaseEndsOneWay(isa, awaiting, CheckRaises(r), j, d, k, e);
    }
  }

  // ----- The asynchronous client, as its callers meet it -----

  /** A call of the asynchronous client without a callback raises `c`. */
  ghost predicate CompletionRaises(isa: SubclassRelation, r: Receiver, c: Class) {
    exists n, k, made ::
      CompletesAs(isa, Settings(3, 5000, [NetworkError], Some(NexusClientRuntimeError)),
                  Settings(10, 2000, [NetworkError, NexusReceiverResultNotCommittedError],
                           Some(NexusClientRuntimeError)),
                  r, None, n, k, Raises(c), made)
  }

  /** The receiver takes one of three submits and confirms at one of ten checks, with nothing worse on the way. */
  ghost predicate TakesAndConfirms(isa: SubclassRelation, r: Receiver) {
    && (exists n: nat :: n < 3 && Accepts(isa, r, n))
    && (exists k: nat :: k < 10 && UnconfirmedUntil(isa, r, k) && r.check(k) == Answered(Some(true)))
  }

  lemma PhaseEndsOnce(isa: SubclassRelation, p: Settings, raised: nat -> Option<Class>, x: nat, ending: Ending, n: nat)
    requires PhaseEnds(isa, p, raised, x, ending) && n <= p.retryCount
    requires forall j: nat :: j < n ==> raised(j).Some? && IsListed(isa, p.errorTypes, raised(j).value)
    requires n == p.retryCount || raised(n).None?
    ensures x == (if n == p.retryCount then n else n + 1)
    ensures n < p.retryCount ==> ending == Normal
    ensures n == p.retryCount ==> ending == if p.exhaustError.Some? then Raises(p.exhaustError.value) else Normal
  {
  }

  lemma SubmitPasses(isa: SubclassRelation, submitting: Settings, awaiting: Settings, r: Receiver,
                     callback: Option<Attempt<()>>, x: nat, y: nat, ending: Ending, made: seq<Event>, n: nat)
    requires CompletesAs(isa, submitting, awaiting, r, callback, x, y, ending, made)
    requires NetworkError in submitting.errorTypes && Accepts(isa, r, n) && n < submitting.retryCount
    requires callback.None? || callback.value.Returned?
    ensures PhaseEnds(isa, awaiting, CheckRaises(r), y, ending)
    ensures made == seq(n + 1, (i: nat) => Submitted(r.submit(i)))
                    + (if callback.Some? then [CalledBack] else [])
                    + seq(y, (i: nat) => Checked(r.check(i)))
  {
    if PhaseEnds(isa, submitting, SubmitRaises(r), x, ending) {
      PhaseEndsOnce(isa, submitting, SubmitRaises(r), x, ending, n);
    }
    PhaseEndsOnce(isa, submitting, SubmitRaises(r), x, Normal, n);
  }

  lemma UnconfirmedIsListed(isa: SubclassRelation, awaiting: Settings, r: Receiver, k: nat)
    requires ListsBoth(awaiting) && UnconfirmedUntil(isa, r, k)
    ensures forall j: nat :: j < k ==>
              CheckRaises(r)(j).Some? && IsListed(isa, awaiting.errorTypes, CheckRaises(r)(j).value)
  {
    forall j: nat | j < k
      ensures CheckRaises(r)(j).Some? && IsListed(isa, awaiting.errorTypes, CheckRaises(r)(j).value)
    {
      assert Unconfirmed(isa, r.check(j));
    }
  }

  lemma WaitsAt(isa: SubclassRelation, submitting: Settings, awaiting: Settings, r: Receiver,
                callback: Option<Attempt<()>>, x: nat, y: nat, ending: Ending, made: seq<Event>, n: nat, k: nat)
    requires CompletesAs(isa, submitting, awaiting, r, callback, x, y, ending, made)
    requires NetworkError in submitting.errorTypes && ListsBoth(awaiting)
    requires Accepts(isa, r, n) && UnconfirmedUntil(isa, r, k) && n < submitting.retryCount && k <= awaiting.retryCount
    requires callback.None? || callback.value.Returned?
    requires k == awaiting.retryCount || r.check(k) == Answered(Some(true))
    ensures ending == if k == awaiting.retryCount then GivenUp(awaiting) else Normal
    ensures made == seq(n + 1, (i: nat) => Submitted(r.submit(i)))
                    + (if callback.Some? then [CalledBack] else [])
                    + seq(if k == awaiting.retryCount then k else k + 1, (i: nat) => Checked(r.check(i)))
  {
    SubmitPasses(isa, submitting, awaiting, r, callback, x, y, ending, made, n);
    UnconfirmedIsListed(isa, awaiting, r, k);
    PhaseEndsOnce(isa, awaiting, CheckRaises(r), y, ending, k);
  }

  lemma WaitsUntilCommitted(isa: SubclassRelation, submitting: Settings, awaiting: Settings, r: Receiver,
                            callback: Option<Attempt<()>>, x: nat, y: nat, ending: Ending, made: seq<Event>)
    requires CompletesAs(isa, submitting, awaiting, r, callback, x, y, ending, made)
    requires NetworkError in submitting.errorTypes && ListsBoth(awaiting)
    ensures WaitsForCommit(isa, submitting.retryCount, awaiting.retryCount, GivenUp(awaiting), r, callback, ending,
                           made)
  {
    forall n: nat, k: nat | Accepts(isa, r, n) && UnconfirmedUntil(isa, r, k)
      ensures WaitsFor(submitting.retryCount, awaiting.retryCount, GivenUp(awaiting), r, callback, ending, made, n, k)
    {
      if n < submitting.retryCount && k <= awaiting.retryCount && (callback.None? || callback.value.Returned?) {
        if k == awaiting.retryCount || r.check(k) == Answered(Some(true)) {
          WaitsAt(isa, submitting, awaiting, r, callback, x, y, ending, made, n, k);
        }
      }
    }
  }

  lemma AcceptsIff(isa: SubclassRelation, r: Receiver, n: nat)
    ensures n < 3 && Accepts(isa, r, n) <==> StopsAt(isa, DEFAULTS, r.submit, 0, n) && r.submit(n).Returned?
  {
    forall c
      ensures Retryable(isa, DEFAULTS, c) <==> isa(c, NetworkError)
    {
      assert NetworkError in DEFAULTS.errorTypes;
    }
  }

  lemma AckRetries(isa: SubclassRelation, c: Class)
    ensures Retryable(isa, ACK_SETTINGS, c) <==> isa(c, NetworkError) || isa(c, NexusReceiverResultNotCommittedError)
  {
    assert ACK_SETTINGS.errorTypes[0] == NetworkError;
    assert ACK_SETTINGS.errorTypes[1] == NexusReceiverResultNotCommittedError;
  }

  lemma UnconfirmedIff(isa: SubclassRelation, r: Receiver, i: nat)
    ensures Unconfirmed(isa, r.check(i)) <==> RetryableFailure(isa, ACK_SETTINGS, Checking(r)(i))
  {
    CheckRaisesIs(r, i);
    if Checking(r)(i).Threw? {
      AckRetries(isa, Checking(r)(i).cls);
    }
  }

  lemma ConfirmsIff(isa: SubclassRelation, r: Receiver, k: nat)
    ensures k < 10 && UnconfirmedUntil(isa, r, k) && r.check(k) == Answered(Some(true)) <==>
              StopsAt(isa, ACK_SETTINGS, Checking(r), 0, k) && Positive(r.check(k))
  {
    forall i: nat
      ensures Unconfirmed(isa, r.check(i)) <==> RetryableFailure(isa, ACK_SETTINGS, Checking(r)(i))
    {
      UnconfirmedIff(isa, r, i);
    }
  }

  /** Without a callback the call returns exactly when the receiver takes a submit and confirms. */
  lemma NormalIffConfirmed(isa: SubclassRelation, r: Receiver, draw: nat -> real)
    ensures Completion(isa, DEFAULTS, ACK_SETTINGS, r, None, draw).ending.Normal? <==> TakesAndConfirms(isa, r)
  {
    NormalIffReceiverAgrees(isa, DEFAULTS, ACK_SETTINGS, r, None, draw);
    forall n: nat
      ensures n < 3 && Accepts(isa, r, n) <==> StopsAt(isa, DEFAULTS, r.submit, 0, n) && r.submit(n).Returned?
      ensures n < 10 && UnconfirmedUntil(isa, r, n) && r.check(n) == Answered(Some(true)) <==>
                StopsAt(isa, ACK_SETTINGS, Checking(r), 0, n) && Positive(r.check(n))
    {
      AcceptsIff(isa, r, n);
      ConfirmsIff(isa, r, n);
    }
  }

  /** And otherwise it raises the one class that the two phases determine. */
  lemma RaisesIff(isa: SubclassRelation, r: Receiver, draw: nat -> real, c: Class)
    ensures Completion(isa, DEFAULTS, ACK_SETTINGS, r, None, draw).ending == Raises(c) <==> CompletionRaises(isa, r, c)
  {
    var none: Option<Attempt<()>> := None;
    CompletionIs(isa, DEFAULTS, ACK_SETTINGS, r, none, draw);
    var e := Completion(isa, DEFAULTS, ACK_SETTINGS, r, none, draw);
    var n, k :| CompletesAs(isa, DEFAULTS, ACK_SETTINGS, r, none, n, k, e.ending, e.trace);
    if CompletionRaises(isa, r, c) {
      var m, j, made :| CompletesAs(isa, DEFAULTS, ACK_SETTINGS, r, none, m, j, Raises(c), made);
      CompletesOneWay(isa, DEFAULTS, ACK_SETTINGS, r, none, n, k, e.ending, e.trace, m, j, Raises(c), made);
    }
  }

  // ----- The two clients -----

  /** What holds of a completion under the asynchronous client's two policies. */
  lemma CompletionKeepsWaiting(isa: SubclassRelation, r: Receiver, callback: Option<Attempt<()>>, draw: nat -> real)
    ensures var c := Completion(isa, DEFAULTS, ACK_SETTINGS, r, callback, draw);
            && (c.ending.Normal? <==> SomePositiveCheck(c.trace))
            && WaitsForCommit(isa, 3, 10, Raises(NexusClientRuntimeError), r, callback, c.ending, c.trace)
            && exists n, k :: CompletesAs(isa, DEFAULTS, ACK_SETTINGS, r, callback, n, k, c.ending, c.trace)
  {
    NormalIffCommitted(isa, DEFAULTS, ACK_SETTINGS, r, callback, draw);
    CompletionIs(isa, DEFAULTS, ACK_SETTINGS, r, callback, draw);
    var c := Completion(isa, DEFAULTS, ACK_SETTINGS, r, callback, draw);
    var n, k :| CompletesAs(isa, DEFAULTS, ACK_SETTINGS, r, callback, n, k, c.ending, c.trace);
    assert ACK_SETTINGS.errorTypes[1] == NexusReceiverResultNotCommittedError;
    WaitsUntilCommitted(isa, DEFAULTS, ACK_SETTINGS, r, callback, n, k, c.ending, c.trace);
  }

  /** What holds of a completion under the helper's one policy. */
  lemma HelperKeepsWaiting(isa: SubclassRelation, r: Receiver, callback: Option<Attempt<()>>, draw: nat -> real,
                           retryCount: int, delayMs: int, errorTypes: seq<Class>, exhaust: Option<Class>)
    ensures var p := SyncSettings(retryCount, delayMs, errorTypes, exhaust);
            var c := Completion(isa, p, p, r, callback, draw);
            && (exhaust.Some? ==> (c.ending.Normal? <==> SomePositiveCheck(c.trace)))
            && (errorTypes == [] ==>
                  WaitsForCommit(isa, retryCount, retryCount, if exhaust.Some? then Raises(exhaust.value) else Normal,
                                 r, callback, c.ending, c.trace))
            && var listed := if errorTypes == [] then [NexusReceiverResultNotCommittedError] else errorTypes;
               var q := Settings(retryCount, delayMs, [NetworkError] + listed, exhaust);
               exists n, k :: CompletesAs(isa, q, q, r, callback, n, k, c.ending, c.trace)
  {
    var p := SyncSettings(retryCount, delayMs, errorTypes, exhaust);
    var c := Completion(isa, p, p, r, callback, draw);
    if exhaust.Some? {
      NormalIffCommitted(isa, p, p, r, callback, draw);
    }
    CompletionIs(isa, p, p, r, callback, draw);
    var n, k :| CompletesAs(isa, p, p, r, callback, n, k, c.ending, c.trace);
    if errorTypes == [] {
      assert p.errorTypes[0] == NetworkError && p.errorTypes[1] == NexusReceiverResultNotCommittedError;
      WaitsUntilCommitted(isa, p, p, r, callback, n, k, c.ending, c.trace);
    }
  }

  /** The asynchronous client: default policy for submitting, a forked and reconfigured one for waiting. */
  class ReceiverAsyncClient {
    const client: ReceiverClient
    const builder: RetryPolicyBuilder

    constructor (subclasses: SubclassRelation)
      ensures fresh(builder) && fresh(builder.errorTypes) && builder.Current() == DEFAULTS
      ensures fresh(client) && client.isa == subclasses && client.trace == []
    {
      var policy := DefaultPolicy();
      builder := new RetryPolicyBuilder(policy);
      client := new ReceiverClient(subclasses);
    }

    /** The forked policy under which a commit is awaited. */
    method AckPolicy() returns (p: RetryPolicy)
      ensures fresh(p) && p.Current() == ACK_SETTINGS ==
              Settings(10, 2000, [NetworkError, NexusReceiverResultNotCommittedError], Some(NexusClientRuntimeError))
    {
      var fork := builder.Fork();
      fork.WithErrorTypes([NexusReceiverResultNotCommittedError]);
      fork.WithRetries(10);
      fork.WithRetryBaseDelayMs(2000);
      fork.WithRetryExhaustErrorType(Some(NexusClientRuntimeError));
      p := fork.Build();
    }

    /** The first phase. */
    method Submit(r: Receiver, ghost draw: nat -> real) returns (ending: Ending)
      requires builder.Current() == DEFAULTS
      modifies client`trace
      ensures var c := Submitting(client.isa, DEFAULTS, r, draw);
              ending == c.ending && client.trace == old(client.trace) + c.trace
    {
      var policy := builder.Build();
      ending := client.SubmitUnder(r, policy.Current(), draw);
    }

    /** The last phase. */
    method AwaitCommit(r: Receiver, ghost draw: nat -> real) returns (ending: Ending)
      modifies client`trace
      ensures var c := Awaiting(client.isa, ACK_SETTINGS, r, draw);
              ending == c.ending && client.trace == old(client.trace) + c.trace
    {
      var ackPolicy := AckPolicy();
      ending := client.CheckUnder(r, ackPolicy.Current(), draw);
    }

    /**
     * Whatever the receiver and the callback do: at most three submits, then the callback, then at most ten checks,
     * each phase ended and retried as its settings say; the call waits for the commit while the receiver has not
     * confirmed it, and ends normally exactly when it has.
     */
    method CompleteRun(r: Receiver, callback: Option<Attempt<()>>, ghost draw: nat -> real) returns (ending: Ending)
      requires builder.Current() == DEFAULTS
      modifies client`trace
      ensures builder.Current() == DEFAULTS
      ensures var c := Completion(client.isa, DEFAULTS, ACK_SETTINGS, r, callback, draw);
              ending == c.ending && client.trace == old(client.trace) + c.trace
      ensures old(client.trace) <= client.trace
      ensures var made := client.trace[|old(client.trace)|..];
              && (ending.Normal? <==> SomePositiveCheck(made))
              && WaitsForCommit(client.isa, 3, 10, Raises(NexusClientRuntimeError), r, callback, ending, made)
              && exists n, k ::
                   CompletesAs(client.isa, Settings(3, 5000, [NetworkError], Some(NexusClientRuntimeError)),
                               Settings(10, 2000, [NetworkError, NexusReceiverResultNotCommittedError],
                                        Some(NexusClientRuntimeError)),
                               r, callback, n, k, ending, made)
    {
      ending := Submit(r, draw);
      if ending.Normal? {
        ending := client.CallBack(callback);
        if ending.Normal? {
          ending := AwaitCommit(r, draw);
        }
        AppendInTurn(old(client.trace), Submitting(client.isa, DEFAULTS, r, draw).trace, Called(callback),
                     Awaiting(client.isa, ACK_SETTINGS, r, draw).trace);
      }
      ghost var c := Completion(client.isa, DEFAULTS, ACK_SETTINGS, r, callback, draw);
      assert client.trace[|old(client.trace)|..] == c.trace;
      CompletionKeepsWaiting(client.isa, r, callback, draw);
    }
  }

  /** The one builder of the synchronous helper. */
  method SyncBuilder(retryCount: int, delayMs: int, errorTypes: seq<Class>,
                     exhaust: Option<Class>) returns (b: RetryPolicyBuilder)
    ensures fresh(b) && b.Current() == SyncSettings(retryCount, delayMs, errorTypes, exhaust)
  {
    var default := DefaultPolicy();
    b := new RetryPolicyBuilder(default);
    b.WithErrorTypes(if errorTypes == [] then [NexusReceiverResultNotCommittedError] else errorTypes);
    b.WithRetries(retryCount);
    b.WithRetryBaseDelayMs(delayMs);
    b.WithRetryExhaustErrorType(exhaust);
  }

  method CompleteRunSync(client: ReceiverClient, r: Receiver, callback: Option<Attempt<()>>, ghost draw: nat -> real,
                         retryCount: int, delayMs: int, errorTypes: seq<Class>, exhaust: Option<Class>)
    returns (ending: Ending)
    modifies client`trace
    ensures var p := SyncSettings(retryCount, delayMs, errorTypes, exhaust);
            var c := Completion(client.isa, p, p, r, callback, draw);
            ending == c.ending && client.trace == old(client.trace) + c.trace
    ensures old(client.trace) <= client.trace
    ensures var made := client.trace[|old(client.trace)|..];
            && (exhaust.Some? ==> (ending.Normal? <==> SomePositiveCheck(made)))
            && (errorTypes == [] ==>
                  WaitsForCommit(client.isa, retryCount, retryCount,
                                 if exhaust.Some? then Raises(exhaust.value) else Normal, r, callback, ending, made))
            && var listed := if errorTypes == [] then [NexusReceiverResultNotCommittedError] else errorTypes;
               var p := Settings(retryCount, delayMs, [NetworkError] + listed, exhaust);
               exists n, k :: CompletesAs(client.isa, p, p, r, callback, n, k, ending, made)
  {
    var builder := SyncBuilder(retryCount, delayMs, errorTypes, exhaust);
    var policy := builder.Build();
    ending := client.SubmitUnder(r, policy.Current(), draw);
    if ending.Normal? {
      ending := client.CallBack(callback);
      if ending.Normal? {
        var again := builder.Build();
        ending := client.CheckUnder(r, again.Current(), draw);
      }
    }
    ghost var p := SyncSettings(retryCount, delayMs, errorTypes, exhaust);
    ghost var c := Completion(client.isa, p, p, r, callback, draw);
    AppendInTurn(old(client.trace), Submitting(client.isa, p, r, draw).trace, Called(callback),
                 Awaiting(client.isa, p, r, draw).trace);
    assert client.trace[|old(client.trace)|..] == c.trace;
    HelperKeepsWaiting(client.isa, r, callback, draw, retryCount, delayMs, errorTypes, exhaust);
  }
}
