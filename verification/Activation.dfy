/** Activating a run: bootstrap, run the algorithm, submit what became of it, and end the process. */
module Activation {
  import opened Collections
  import opened ErrorMaps
  import opened Retry
  import C = Commit

  /** Whether an exception is an HTTP error, and the status it carries. */
  datatype Http = NotHttp | NoResponse | Status(code: int)

  /** An exception raised by bootstrap. */
  datatype Failure = Failure(cls: Class, http: Http)

  /** The class of the errors that validating the configuration raises. */
  const VALIDATION_ERROR := Other("dynaconf.ValidationError")

  datatype Bootstrap = Ready | Failed(failure: Failure)

  /** Everything around the run: what each part the process calls would do. */
  datatype Environment = Environment(
    isa: SubclassRelation,
    setup: Attempt<()>,         // loading the configuration and entering the bootstrapper
    bootstrap: Bootstrap,
    prepare: Attempt<()>,       // resolving and opening the algorithm
    algorithm: Attempt<int>,    // the run itself
    save: int -> Attempt<string>,
    receiver: C.Receiver,
    draw: nat -> real,
    telemetry: Attempt<()>,     // everything after the submission
    close: Attempt<()>          // leaving the algorithm's context
  )

  /** One call of `complete_run`: what was submitted, how the call ended and what the receiver saw. */
  datatype Submission = Submission(uri: Option<string>, error: Option<Class>, completion: C.Committed)

  /** How `activate` ends: by `sys.exit`, by returning, or with an exception nobody handles. */
  datatype Ending = SysExit(code: int) | ReturnedNormally | Crashed(cls: Class)

  /** The exit status of the process; Python ends with status 1 on an unhandled exception. */
  function ProcessStatus(ending: Ending): int {
    match ending
    case SysExit(code) => code
    case ReturnedNormally => 0
    case Crashed(_) => 1
  }

  datatype Outcome = Outcome(ending: Ending, submissions: seq<Submission>)

  const NON_RETRYABLE := [401, 403, 410, 405, 501, 505]

  /** One call of `complete_run`. */
  function Submit(env: Environment, uri: Option<string>, error: Option<Class>): Submission {
    Submission(uri, error, C.Completion(env.isa, DEFAULTS, C.ACK_SETTINGS, env.receiver, None, env.draw))
  }

  /** Report a bootstrap failure; once that is confirmed the process ends as if all were well. */
  function Report(env: Environment, cls: Class): Outcome {
    var s := Submit(env, None, Some(cls));
    Outcome(if s.completion.ending.Normal? then SysExit(0) else Crashed(s.completion.ending.cls), [s])
  }

  /** The handlers of a bootstrap failure, in the order they are tried. */
  function AfterFailedBootstrap(env: Environment, f: Failure): Outcome {
    if env.isa(f.cls, VALIDATION_ERROR) then Report(env, f.cls)
    else if env.isa(f.cls, FatalStartupConfigurationError) then Report(env, f.cls)
    else
      match f.http
      case NotHttp => Outcome(SysExit(1), [])
      case NoResponse => Outcome(Crashed(Other("AttributeError")), [])
      case Status(code) => if code in NON_RETRYABLE then Report(env, f.cls) else Outcome(SysExit(1), [])
  }

  /** What `_submit_result` does: `None` lets the run go on, otherwise the process is ending. */
  datatype Submitted = Submitted(ending: Option<Ending>, submissions: seq<Submission>)

  function Sent(s: Submission): Submitted {
    Submitted(if s.completion.ending.Normal? then None else Some(Crashed(s.completion.ending.cls)), [s])
  }

  function SubmitResultOf(env: Environment): Submitted {
    match env.algorithm
    case Returned(result) =>
      (match env.save(result)
       case Returned(uri) => Sent(Submit(env, Some(uri), None))
       case Threw(c) => Submitted(Some(Crashed(c)), []))
    case Threw(c) =>
      if IsTransient(env.isa, Some(c)) == Some(true) then Submitted(Some(SysExit(1)), [])
      else Sent(Submit(env, None, Some(c)))
  }

  /** Leaving the algorithm's context replaces whatever is under way when it fails itself. */
  function Leave(env: Environment, ending: Ending): Ending {
    if env.close.Threw? then Crashed(env.close.cls) else ending
  }

  function OutcomeOf(env: Environment): Outcome {
    if env.setup.Threw? then Outcome(Crashed(env.setup.cls), [])
    else if env.bootstrap.Failed? then AfterFailedBootstrap(env, env.bootstrap.failure)
    else if env.prepare.Threw? then Outcome(Crashed(env.prepare.cls), [])
    else
      var sent := SubmitResultOf(env);
      var ending :=
        if sent.ending.Some? then sent.ending.value
        else if env.telemetry.Threw? then Crashed(env.telemetry.cls)
        else ReturnedNormally;
      Outcome(Leave(env, ending), sent.submissions)
  }

  class Nexus {
    const env: Environment
    var injector: C.ReceiverAsyncClient?
    var runTask: Option<Attempt<int>>
    var submissions: seq<Submission>

    constructor (environment: Environment)
      ensures env == environment && injector == null && runTask == None && submissions == []
    {
      env, injector, runTask, submissions := environment, null, None, [];
    }

    /** Calls `complete_run` on a client and keeps record of it. */
    method Complete(client: C.ReceiverAsyncClient, uri: Option<string>, error: Option<Class>) returns (ending: C.Ending)
      requires client.client.isa == env.isa && client.builder.Current() == DEFAULTS
      modifies this`submissions, client.client`trace
      ensures submissions == old(submissions) + [Submit(env, uri, error)]
      ensures ending == Submit(env, uri, error).completion.ending
    {
      var before := |client.client.trace|;
      ending := client.CompleteRun(env.receiver, None, env.draw);
      submissions := submissions + [Submission(uri, error, C.Committed(ending, client.client.trace[before..]))];
    }

    /** Bootstrap failures are reported by a client of their own. */
    method CompleteWithError(error: Class) returns (ending: C.Ending)
      modifies this`submissions
      ensures submissions == old(submissions) + [Submit(env, None, Some(error))]
      ensures ending == Submit(env, None, Some(error)).completion.ending
    {
      var client := new C.ReceiverAsyncClient(env.isa);
      ending := Complete(client, None, Some(error));
    }

    method HandleBootstrapFailure(f: Failure) returns (ending: Ending)
      modifies this`submissions
      ensures var o := AfterFailedBootstrap(env, f);
              ending == o.ending && submissions == old(submissions) + o.submissions
      ensures Hopeless(env.isa, f) <==> submissions != old(submissions)
      ensures ending == SysExit(1) <==> !Hopeless(env.isa, f) && !HandlerFails(env.isa, f)
    {
      FailedBootstrapIs(env, f);
      if env.isa(f.cls, VALIDATION_ERROR) {
        var sent := CompleteWithError(f.cls);
        return if sent.Normal? then SysExit(0) else Crashed(sent.cls);
      }
      if env.isa(f.cls, FatalStartupConfigurationError) {
        var sent := CompleteWithError(f.cls);
        return if sent.Normal? then SysExit(0) else Crashed(sent.cls);
      }
      match f.http
      case NotHttp => ending := SysExit(1);
      case NoResponse => ending := Crashed(Other("AttributeError"));
      case Status(code) =>
        if code in NON_RETRYABLE {
          var sent := CompleteWithError(f.cls);
          ending := if sent.Normal? then SysExit(0) else Crashed(sent.cls);
        } else {
          ending := SysExit(1);
        }
    }

    /** `_submit_result`: saves and submits a result, submits a fatal failure, or exits to be retried. */
    method SubmitResult(result: Option<int>, ex: Option<Class>) returns (ending: Option<Ending>)
      requires injector != null && injector.client.isa == env.isa && injector.builder.Current() == DEFAULTS
      requires env.algorithm.Returned? ==> result == Some(env.algorithm.value) && ex == None
      requires env.algorithm.Threw? ==> result == None && ex == Some(env.algorithm.cls)
      modifies this`submissions, injector.client`trace
      ensures var s := SubmitResultOf(env);
              ending == s.ending && submissions == old(submissions) + s.submissions
    {
      var transient := IsTransient(env.isa, ex);
      if transient == None {
        var saved := env.save(result.value);
        if saved.Threw? {
          return Some(Crashed(saved.cls));
        }
        var sent := Complete(injector, Some(saved.value), None);
        ending := if sent.Normal? then None else Some(Crashed(sent.cls));
      } else if transient == Some(true) {
        ending := Some(SysExit(1));
      } else {
        var sent := Complete(injector, None, ex);
        ending := if sent.Normal? then None else Some(Crashed(sent.cls));
      }
    }

    method Activate() returns (ending: Ending)
      requires submissions == []
      modifies this
      ensures Outcome(ending, submissions) == OutcomeOf(env)
      ensures |submissions| <= 1 && (ending == SysExit(1) ==> submissions == [])
      ensures ProcessStatus(ending) == 0 ==> |submissions| == 1 && Acknowledged(submissions[0])
    {
      EndingsMeanCommit(env);
      if env.setup.Threw? {
        return Crashed(env.setup.cls);
      }
      match env.bootstrap {
        case Failed(f) =>
          ending := HandleBootstrapFailure(f);
          return;
        case Ready =>
          injector := new C.ReceiverAsyncClient(env.isa);
      }
      if env.prepare.Threw? {
        return Crashed(env.prepare.cls);
      }
      runTask := Some(env.algorithm);
      var result := if env.algorithm.Returned? then Some(env.algorithm.value) else None;
      var ex := if env.algorithm.Threw? then Some(env.algorithm.cls) else None;
      var ended := SubmitResult(result, ex);
      if ended.Some? {
        ending := ended.value;
      } else if env.telemetry.Threw? {
        ending := Crashed(env.telemetry.cls);
      } else {
        ending := ReturnedNormally;
      }
      if env.close.Threw? {
        ending := Crashed(env.close.cls);
      }
    }
  }

  // ----- What an ending says about the run -----

  /** The receiver has confirmed that the submission is committed. */
  ghost predicate Acknowledged(s: Submission) {
    s.completion.ending.Normal? && C.SomePositiveCheck(s.completion.trace)
  }

  lemma AcknowledgedIff(env: Environment, uri: Option<string>, error: Option<Class>)
    ensures var s := Submit(env, uri, error);
            && (Acknowledged(s) <==> s.completion.ending.Normal?)
            && (Acknowledged(s) <==> C.SomePositiveCheck(s.completion.trace))
  {
    C.NormalIffCommitted(env.isa, DEFAULTS, C.ACK_SETTINGS, env.receiver, None, env.draw);
  }

  /** Bootstrap is through and the algorithm runs. */
  predicate Runs(env: Environment) {
    env.setup.Returned? && env.bootstrap.Ready? && env.prepare.Returned?
  }

  /** Something after the submission raises. */
  predicate AftermathRaises(env: Environment) {
    env.telemetry.Threw? || env.close.Threw?
  }

  /**
   * A run is submitted at most once. `sys.exit(1)` leaves the receiver untouched, and status 0 needs its confirmation.
   * The converse fails: a process also ends with status 1 although its submission was confirmed, exactly when
   * something after the submission raises.
   */
  lemma EndingsMeanCommit(env: Environment)
    ensures var o := OutcomeOf(env);
            && |o.submissions| <= 1
            && (o.ending == SysExit(1) ==> o.submissions == [])
            && (ProcessStatus(o.ending) == 0 ==> |o.submissions| == 1 && Acknowledged(o.submissions[0]))
            && (o.submissions != [] && Acknowledged(o.submissions[0]) ==>
                  (ProcessStatus(o.ending) == 1 <==> Runs(env) && AftermathRaises(env)))
            && ProcessStatus(o.ending) in {0, 1}
  {
    var o := OutcomeOf(env);
    if o.submissions != [] {
      AcknowledgedIff(env, o.submissions[0].uri, o.submissions[0].error);
    }
  }

  // ----- The whole outcome, from the environment alone -----

  predicate RaisesFatally(env: Environment) {
    env.algorithm.Threw? && !env.isa(env.algorithm.cls, TransientNexusError)
  }

  predicate Saves(env: Environment) {
    env.algorithm.Returned? && env.save(env.algorithm.value).Returned?
  }

  /** Bootstrap fails with `f`. */
  predicate FailsWith(env: Environment, f: Failure) {
    env.setup.Returned? && env.bootstrap == Failed(f)
  }

  /** Starting again cannot help: the configuration is wrong, or the server says no for good. */
  predicate Hopeless(isa: SubclassRelation, f: Failure) {
    || isa(f.cls, Other("dynaconf.ValidationError"))
    || isa(f.cls, FatalStartupConfigurationError)
    || f.http in {Status(401), Status(403), Status(405), Status(410), Status(501), Status(505)}
  }

  /** The handler of an HTTP error fails in turn when that came without a response. */
  predicate HandlerFails(isa: SubclassRelation, f: Failure) {
    f.http == NoResponse && !Hopeless(isa, f)
  }

  lemma FailedBootstrapIs(env: Environment, f: Failure)
    ensures AfterFailedBootstrap(env, f) ==
            if Hopeless(env.isa, f) then Report(env, f.cls)
            else if HandlerFails(env.isa, f) then Outcome(Crashed(Other("AttributeError")), [])
            else Outcome(SysExit(1), [])
  {
  }

  lemma SubmitAgrees(env: Environment, uri: Option<string>, error: Option<Class>)
    ensures Submit(env, uri, error).completion.ending.Normal? <==> C.TakesAndConfirms(env.isa, env.receiver)
    ensures forall c :: Submit(env, uri, error).completion.ending == C.Raises(c) <==>
                          C.CompletionRaises(env.isa, env.receiver, c)
  {
    C.NormalIffConfirmed(env.isa, env.receiver, env.draw);
    forall c
      ensures Submit(env, uri, error).completion.ending == C.Raises(c) <==>
                C.CompletionRaises(env.isa, env.receiver, c)
    {
      C.RaisesIff(env.isa, env.receiver, env.draw, c);
    }
  }

  ghost predicate SubmitsOnly(o: Outcome, uri: Option<string>, error: Option<Class>) {
    |o.submissions| == 1 && o.submissions[0].uri == uri && o.submissions[0].error == error
  }

  /** What a run submits: its result, its fatal failure, a hopeless bootstrap failure, or nothing. */
  lemma SubmissionsByEnvironment(env: Environment)
    ensures var o := OutcomeOf(env);
            if Runs(env) && Saves(env) then SubmitsOnly(o, Some(env.save(env.algorithm.value).value), None)
            else if Runs(env) && RaisesFatally(env) then SubmitsOnly(o, None, Some(env.algorithm.cls))
            else if exists f :: FailsWith(env, f) && Hopeless(env.isa, f) then
              SubmitsOnly(o, None, Some(env.bootstrap.failure.cls))
            else o.submissions == []
    ensures forall s :: s in OutcomeOf(env).submissions ==>
              (Acknowledged(s) <==> C.TakesAndConfirms(env.isa, env.receiver))
  {
    if env.setup.Returned? && env.bootstrap.Failed? {
      FailedBootstrapIs(env, env.bootstrap.failure);
      assert FailsWith(env, env.bootstrap.failure);
    }
    forall s | s in OutcomeOf(env).submissions
      ensures Acknowledged(s) <==> C.TakesAndConfirms(env.isa, env.receiver)
    {
      assert s == Submit(env, s.uri, s.error);
      AcknowledgedIff(env, s.uri, s.error);
      SubmitAgrees(env, s.uri, s.error);
    }
  }

  /** Exactly when a run returns, and when it is ended with `sys.exit`, by what its surroundings do. */
  lemma OutcomeByEnvironment(env: Environment)
    ensures var o, confirmed := OutcomeOf(env), C.TakesAndConfirms(env.isa, env.receiver);
            && (o.ending == ReturnedNormally <==>
                  Runs(env) && (Saves(env) || RaisesFatally(env)) && confirmed && !AftermathRaises(env))
            && (o.ending == SysExit(0) <==> confirmed && exists f :: FailsWith(env, f) && Hopeless(env.isa, f))
            && (o.ending == SysExit(1) <==>
                  || (Runs(env) && env.algorithm.Threw? && !RaisesFatally(env) && env.close.Returned?)
                  || exists f :: FailsWith(env, f) && !Hopeless(env.isa, f) && !HandlerFails(env.isa, f))
  {
    if env.setup.Returned? && env.bootstrap.Failed? {
      var f := env.bootstrap.failure;
      FailedBootstrapIs(env, f);
      SubmitAgrees(env, None, Some(f.cls));
      assert FailsWith(env, f);
    } else if Runs(env) && Saves(env) {
      SubmitAgrees(env, Some(env.save(env.algorithm.value).value), None);
    } else if Runs(env) && RaisesFatally(env) {
      SubmitAgrees(env, None, Some(env.algorithm.cls));
    }
  }

  /** A run that is through bootstrap crashes with what closing raises, or else with the first thing that raised. */
  ghost predicate RunCrashes(env: Environment, c: Class) {
    if env.close.Threw? then c == env.close.cls
    else if env.algorithm.Returned? && env.save(env.algorithm.value).Threw? then
      c == env.save(env.algorithm.value).cls
    else
      (Saves(env) || RaisesFatally(env)) &&
      (C.CompletionRaises(env.isa, env.receiver, c) ||
       (C.TakesAndConfirms(env.isa, env.receiver) && env.telemetry == Threw(c)))
  }

  /** Exactly when a run ends with an exception that nobody handles, and with which. */
  lemma CrashByEnvironment(env: Environment, c: Class)
    ensures OutcomeOf(env).ending == Crashed(c) <==>
              || env.setup == Threw(c)
              || (exists f :: FailsWith(env, f) && Hopeless(env.isa, f) &&
                    C.CompletionRaises(env.isa, env.receiver, c))
              || (exists f :: FailsWith(env, f) && HandlerFails(env.isa, f) && c == Other("AttributeError"))
              || (env.setup.Returned? && env.bootstrap.Ready? && env.prepare == Threw(c))
              || (Runs(env) && RunCrashes(env, c))
  {
    if env.setup.Returned? && env.bootstrap.Failed? {
      var f := env.bootstrap.failure;
      FailedBootstrapIs(env, f);
      SubmitAgrees(env, None, Some(f.cls));
      assert FailsWith(env, f);
    } else if Runs(env) && Saves(env) {
      SubmitAgrees(env, Some(env.save(env.algorithm.value).value), None);
    } else if Runs(env) && RaisesFatally(env) {
      SubmitAgrees(env, None, Some(env.algorithm.cls));
    }
  }
}
