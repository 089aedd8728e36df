/** Launching remote runs: one per payload, or reusing the latest run that carries the payload's tag. */
module RemoteRuns {
  import opened Collections
  import opened ErrorMaps
  import opened Retry

  /** The parameters a run is created with: the payload's content, as it is or compressed. */
  datatype Parameters = Plain(content: string) | Compressed(content: string)

  datatype Run = Run(id: string, algorithm: string, tag: string, receivedAt: int, parameters: Parameters)

  /** What `_run` yields; `tag` is what the payload-specific tag generator returns for it. */
  datatype Payload = Payload(content: string, tag: Option<string>)

  /** The settings of a remote algorithm, and the id and reception time the scheduler gives to its n-th run. */
  datatype Remote = Remote(name: string, forceRun: bool, compressPayload: bool, hasCompressor: bool,
                           idOf: nat -> string, clock: nat -> int)

  // ----- Looking up the latest run of a tag -----

  function Matching(runs: seq<Run>, algorithm: string, tag: string): seq<Run> {
    if runs == [] then []
    else
      var init, last := runs[..|runs| - 1], runs[|runs| - 1];
      Matching(init, algorithm, tag) + if last.algorithm == algorithm && last.tag == tag then [last] else []
  }

  function Insert(sorted: seq<Run>, r: Run): seq<Run> {
    if sorted == [] || sorted[|sorted| - 1].receivedAt <= r.receivedAt then sorted + [r]
    else Insert(sorted[..|sorted| - 1], r) + [sorted[|sorted| - 1]]
  }

  /** A stable sort by reception time. */
  function SortByReceived(runs: seq<Run>): seq<Run> {
    if runs == [] then [] else Insert(SortByReceived(runs[..|runs| - 1]), runs[|runs| - 1])
  }

  /** The run that is reused: the last one after sorting. */
  function Latest(runs: seq<Run>, algorithm: string, tag: string): Option<Run> {
    var sorted := SortByReceived(Matching(runs, algorithm, tag));
    if sorted == [] then None else Some(sorted[|sorted| - 1])
  }

  ghost predicate HasRun(runs: seq<Run>, algorithm: string, tag: string) {
    exists r :: r in runs && r.algorithm == algorithm && r.tag == tag
  }

  /** One more run is the latest of its tag unless an earlier one was received later. */
  lemma LatestSnoc(runs: seq<Run>, r: Run, algorithm: string, tag: string)
    ensures var before := Latest(runs, algorithm, tag);
            Latest(runs + [r], algorithm, tag) ==
              if r.algorithm == algorithm && r.tag == tag && (before.None? || before.value.receivedAt <= r.receivedAt)
              then Some(r) else before
  {
    assert (runs + [r])[..|runs + [r]| - 1] == runs;
    var found := Matching(runs, algorithm, tag);
    if r.algorithm == algorithm && r.tag == tag {
      assert (found + [r])[..|found + [r]| - 1] == found;
    } else {
      assert found + [] == found;
    }
  }

  ghost predicate Matches(r: Run, algorithm: string, tag: string) {
    r.algorithm == algorithm && r.tag == tag
  }

  /** The run at `i` is one of the tag, none of the tag was received later, and of those received with it it is last. */
  ghost predicate IsLatestAt(runs: seq<Run>, algorithm: string, tag: string, i: int) {
    && 0 <= i < |runs| && Matches(runs[i], algorithm, tag)
    && forall j :: 0 <= j < |runs| && Matches(runs[j], algorithm, tag) ==>
         runs[j].receivedAt <= runs[i].receivedAt && (j > i ==> runs[j].receivedAt < runs[i].receivedAt)
  }

  /** `latest` is that run, and there is none only if the tag has no run. */
  ghost predicate IsLatest(runs: seq<Run>, algorithm: string, tag: string, latest: Option<Run>) {
    match latest
    case None => !HasRun(runs, algorithm, tag)
    case Some(r) => exists i :: IsLatestAt(runs, algorithm, tag, i) && r == runs[i]
  }

  lemma IsLatestSnoc(runs: seq<Run>, last: Run, algorithm: string, tag: string, latest: Option<Run>)
    requires IsLatest(runs, algorithm, tag, latest)
    ensures IsLatest(runs + [last], algorithm, tag,
                     if Matches(last, algorithm, tag) && (latest.None? || latest.value.receivedAt <= last.receivedAt)
                     then Some(last) else latest)
  {
    var longer := runs + [last];
    if latest.Some? {
      var i :| IsLatestAt(runs, algorithm, tag, i) && latest.value == runs[i];
      if Matches(last, algorithm, tag) && latest.value.receivedAt <= last.receivedAt {
        assert IsLatestAt(longer, algorithm, tag, |runs|);
      } else {
        assert IsLatestAt(longer, algorithm, tag, i);
      }
    } else if Matches(last, algorithm, tag) {
      assert forall j :: 0 <= j < |runs| ==> runs[j] in runs;
      assert IsLatestAt(longer, algorithm, tag, |runs|);
    } else {
      assert forall r :: r in longer <==> r in runs || r == last;
    }
  }

  /** Sorting and taking the last gives just that run. */
  lemma {:induction false} LatestIsMaximal(runs: seq<Run>, algorithm: string, tag: string)
    ensures IsLatest(runs, algorithm, tag, Latest(runs, algorithm, tag))
  {
    if runs != [] {
      var init, last := runs[..|runs| - 1], runs[|runs| - 1];
      assert runs == init + [last];
      LatestSnoc(init, last, algorithm, tag);
      LatestIsMaximal(init, algorithm, tag);
      IsLatestSnoc(init, last, algorithm, tag, Latest(init, algorithm, tag));
    }
  }

  lemma LatestIffHasRun(runs: seq<Run>, algorithm: string, tag: string)
    ensures Latest(runs, algorithm, tag).Some? <==> HasRun(runs, algorithm, tag)
    ensures var latest := Latest(runs, algorithm, tag);
            latest.Some? ==> latest.value in runs && Matches(latest.value, algorithm, tag)
  {
    LatestIsMaximal(runs, algorithm, tag);
  }

  /** A run of another tag is no competitor. */
  lemma LatestUnaffected(runs: seq<Run>, r: Run, algorithm: string, tag: string)
    requires !Matches(r, algorithm, tag)
    ensures Latest(runs + [r], algorithm, tag) == Latest(runs, algorithm, tag)
  {
    LatestSnoc(runs, r, algorithm, tag);
  }

  lemma LatestOfFirst(runs: seq<Run>, r: Run)
    requires !HasRun(runs, r.algorithm, r.tag)
    ensures Latest(runs + [r], r.algorithm, r.tag) == Some(r)
  {
    LatestIffHasRun(runs, r.algorithm, r.tag);
    LatestSnoc(runs, r, r.algorithm, r.tag);
  }

  // ----- One submission -----

  /** A missing or an empty tag falls back to that of the algorithm. */
  function EffectiveTag(p: Payload, default: string): (tag: string)
    ensures p.tag in {None, Some("")} ==> tag == default
    ensures p.tag !in {None, Some("")} ==> p.tag == Some(tag)
  {
    if p.tag.Some? && p.tag.value != "" then p.tag.value else default
  }

  /** What a payload asks for: a run with these parameters, unless its tag has one. */
  datatype Job = Job(tag: string, parameters: Parameters)

  function ParametersOf(remote: Remote, p: Payload): Parameters {
    if remote.compressPayload then Compressed(p.content) else Plain(p.content)
  }

  datatype Submission = Submission(runs: seq<Run>, ids: seq<string>)

  function NewRun(remote: Remote, runs: seq<Run>, job: Job): Run {
    Run(remote.idOf(|runs|), remote.name, job.tag, remote.clock(|runs|), job.parameters)
  }

  function SubmitOne(remote: Remote, s: Submission, job: Job): Submission {
    var latest := Latest(s.runs, remote.name, job.tag);
    if !remote.forceRun && latest.Some? then Submission(s.runs, s.ids + [latest.value.id])
    else
      var run := NewRun(remote, s.runs, job);
      Submission(s.runs + [run], s.ids + [run.id])
  }

  function SubmitAll(remote: Remote, runs: seq<Run>, jobs: seq<Job>): Submission {
    if jobs == [] then Submission(runs, [])
    else SubmitOne(remote, SubmitAll(remote, runs, jobs[..|jobs| - 1]), jobs[|jobs| - 1])
  }

  lemma SubmitAllStep(remote: Remote, runs: seq<Run>, jobs: seq<Job>, i: nat)
    requires i < |jobs|
    ensures SubmitAll(remote, runs, jobs[..i + 1]) == SubmitOne(remote, SubmitAll(remote, runs, jobs[..i]), jobs[i])
  {
    assert jobs[..i + 1][..i] == jobs[..i];
  }

  /** What one submission does does not depend on the ids gathered before. */
  lemma SubmitOneAppends(remote: Remote, s: Submission, job: Job)
    ensures var t := SubmitOne(remote, Submission(s.runs, []), job);
            SubmitOne(remote, s, job) == Submission(t.runs, s.ids + t.ids)
  {
  }

  lemma SubmitOneFinds(remote: Remote, s: Submission, job: Job)
    requires !remote.forceRun && Latest(s.runs, remote.name, job.tag).Some?
    ensures SubmitOne(remote, s, job) == Submission(s.runs, s.ids + [Latest(s.runs, remote.name, job.tag).value.id])
  {
  }

  function Jobs(remote: Remote, payloads: seq<Payload>, default: string): seq<Job> {
    seq(|payloads|, i requires 0 <= i < |payloads| =>
      Job(EffectiveTag(payloads[i], default), ParametersOf(remote, payloads[i])))
  }

  // ----- Calls of the scheduler can fail -----

  /** What the scheduler's calls for one payload would raise, if they are made: looking up runs, and creating one. */
  datatype Faults = Faults(lookup: Option<Class>, create: Option<Class>)

  function FaultAt(remote: Remote, runs: seq<Run>, tag: string, f: Faults): Option<Class> {
    if !remote.forceRun && f.lookup.Some? then f.lookup
    else if remote.forceRun || Latest(runs, remote.name, tag).None? then f.create
    else None
  }

  /** How far a submission has got, and what has stopped it, if anything. */
  datatype Progress = Progress(done: Submission, raised: Option<Class>)

  function SubmitUntil(remote: Remote, runs: seq<Run>, jobs: seq<Job>, faults: nat -> Faults): Progress {
    if jobs == [] then Progress(Submission(runs, []), None)
    else
      var n := |jobs| - 1;
      var p := SubmitUntil(remote, runs, jobs[..n], faults);
      if p.raised.Some? then p
      else
        var fault := FaultAt(remote, p.done.runs, jobs[n].tag, faults(n));
        if fault.Some? then p.(raised := fault) else Progress(SubmitOne(remote, p.done, jobs[n]), None)
  }

  class Scheduler {
    var runs: seq<Run>

    constructor ()
      ensures runs == []
    {
      runs := [];
    }

    /** The runs of a tag, with their metadata, in reception order. */
    method LookUp(algorithm: string, tag: string, fault: Option<Class>) returns (found: Attempt<seq<Run>>)
      ensures fault.Some? ==> found == Threw(fault.value)
      ensures fault.None? ==> found == Returned(SortByReceived(Matching(runs, algorithm, tag)))
    {
      if fault.Some? {
        return Threw(fault.value);
      }
      found := Returned(SortByReceived(Matching(runs, algorithm, tag)));
    }

    /** A created run is visible at once. */
    method CreateRun(remote: Remote, job: Job, fault: Option<Class>) returns (id: Attempt<string>)
      modifies this
      ensures fault.Some? ==> id == Threw(fault.value) && runs == old(runs)
      ensures fault.None? ==>
                var run := NewRun(remote, old(runs), job);
                runs == old(runs) + [run] && id == Returned(run.id)
    {
      if fault.Some? {
        return Threw(fault.value);
      }
      var newId := remote.idOf(|runs|);
      runs := runs + [Run(newId, remote.name, job.tag, remote.clock(|runs|), job.parameters)];
      id := Returned(newId);
    }
  }

  class RemoteAlgorithm {
    const remote: Remote
    const scheduler: Scheduler

    constructor (r: Remote, s: Scheduler)
      ensures remote == r && scheduler == s
    {
      remote, scheduler := r, s;
    }

    /** `_create_remote_run`: without a compressor to compress with, it fails before it asks the scheduler anything. */
    method CreateRemoteRun(payload: Payload, tag: string, f: Faults) returns (id: Attempt<string>)
      modifies scheduler
      ensures remote.compressPayload && !remote.hasCompressor ==>
                id == Threw(FatalNexusError) && scheduler.runs == old(scheduler.runs)
      ensures !remote.compressPayload || remote.hasCompressor ==>
                var fault := FaultAt(remote, old(scheduler.runs), tag, f);
                if fault.Some? then id == Threw(fault.value) && scheduler.runs == old(scheduler.runs)
                else
                  && id.Returned?
                  && var before := Submission(old(scheduler.runs), []);
                     SubmitOne(remote, before, Job(tag, ParametersOf(remote, payload))) ==
                       Submission(scheduler.runs, [id.value])
    {
      if remote.compressPayload && !remote.hasCompressor {
        return Threw(FatalNexusError);
      }
      var parameters := if remote.compressPayload then Compressed(payload.content) else Plain(payload.content);
      if !remote.forceRun {
        var found := scheduler.LookUp(remote.name, tag, f.lookup);
        if found.Threw? {
          return Threw(found.cls);
        }
        if |found.value| > 0 {
          return Returned(found.value[|found.value| - 1].id);
        }
      }
      id := scheduler.CreateRun(remote, Job(tag, parameters), f.create);
    }

    /** `_measured_run`: payload by payload, in order, until a call fails; nothing fails but the calls. */
    method Launch(payloads: seq<Payload>, default: string, faults: nat -> Faults) returns (r: Attempt<seq<string>>)
      modifies scheduler
      ensures remote.compressPayload && !remote.hasCompressor && payloads != [] ==>
                r == Threw(FatalNexusError) && scheduler.runs == old(scheduler.runs)
      ensures !remote.compressPayload || remote.hasCompressor || payloads == [] ==>
                var p := SubmitUntil(remote, old(scheduler.runs), Jobs(remote, payloads, default), faults);
                && scheduler.runs == p.done.runs
                && r == (if p.raised.Some? then Threw(p.raised.value) else Returned(p.done.ids))
                && (r.Threw? ==> exists i: nat ::
                      i < |payloads| && (faults(i).lookup == Some(r.cls) || faults(i).create == Some(r.cls)))
    {
      var ids := [];
      var jobs := Jobs(remote, payloads, default);
      ghost var k := CutShort(remote, scheduler.runs, jobs, faults);
      for i := 0 to |payloads|
        invariant i > 0 ==> !remote.compressPayload || remote.hasCompressor
        invariant Progress(Submission(scheduler.runs, ids), None) ==
                  SubmitUntil(remote, old(scheduler.runs), jobs[..i], faults)
      {
        SubmitUntilStep(remote, old(scheduler.runs), jobs, faults, i);
        SubmitOneAppends(remote, Submission(scheduler.runs, ids), jobs[i]);
        var id := CreateRemoteRun(payloads[i], EffectiveTag(payloads[i], default), faults(i));
        if id.Threw? {
          if !remote.compressPayload || remote.hasCompressor {
            StaysStopped(remote, old(scheduler.runs), jobs, faults, i + 1, |jobs|);
            assert jobs[..|jobs|] == jobs;
          }
          return Threw(id.cls);
        }
        ids := ids + [id.value];
      }
      assert jobs[..|payloads|] == jobs;
      r := Returned(ids);
    }
  }

  lemma SubmitUntilStep(remote: Remote, runs: seq<Run>, jobs: seq<Job>, faults: nat -> Faults, i: nat)
    requires i < |jobs|
    ensures var p := SubmitUntil(remote, runs, jobs[..i], faults);
            var fault := FaultAt(remote, p.done.runs, jobs[i].tag, faults(i));
            SubmitUntil(remote, runs, jobs[..i + 1], faults) ==
              if p.raised.Some? then p
              else if fault.Some? then p.(raised := fault)
              else Progress(SubmitOne(remote, p.done, jobs[i]), None)
  {
    assert jobs[..i + 1][..i] == jobs[..i];
  }

  lemma StaysStopped(remote: Remote, runs: seq<Run>, jobs: seq<Job>, faults: nat -> Faults, k: nat, n: nat)
    requires k <= n <= |jobs| && SubmitUntil(remote, runs, jobs[..k], faults).raised.Some?
    ensures SubmitUntil(remote, runs, jobs[..n], faults) == SubmitUntil(remote, runs, jobs[..k], faults)
  {
    for m := k to n
      invariant SubmitUntil(remote, runs, jobs[..m], faults) == SubmitUntil(remote, runs, jobs[..k], faults)
    {
      SubmitUntilStep(remote, runs, jobs, faults, m);
    }
  }

  // ----- What a submission amounts to -----

  ghost predicate IdIsLatest(remote: Remote, s: Submission, tag: string, i: nat) {
    i < |s.ids| && Latest(s.runs, remote.name, tag).Some? && Latest(s.runs, remote.name, tag).value.id == s.ids[i]
  }

  /** Every id returned is that of the latest run of its tag, in the order of the payloads. */
  ghost predicate IdsAreLatest(remote: Remote, s: Submission, jobs: seq<Job>) {
    && |s.ids| == |jobs|
    && forall i {:trigger IdIsLatest(remote, s, jobs[i].tag, i)} :: 0 <= i < |jobs| ==>
         IdIsLatest(remote, s, jobs[i].tag, i)
  }

  ghost predicate HasJob(jobs: seq<Job>, tag: string) {
    exists k :: 0 <= k < |jobs| && jobs[k].tag == tag
  }

  ghost predicate FirstOfTag(jobs: seq<Job>, tag: string, k: int) {
    0 <= k < |jobs| && jobs[k].tag == tag && forall j :: 0 <= j < k ==> jobs[j].tag != tag
  }

  /** The run at `i` has the next id and reception time and the parameters of the first job of its tag. */
  ghost predicate CreatedFor(remote: Remote, r: Run, i: nat, jobs: seq<Job>) {
    exists k :: FirstOfTag(jobs, r.tag, k) &&
      r == Run(remote.idOf(i), remote.name, jobs[k].tag, remote.clock(i), jobs[k].parameters)
  }

  /** The runs created: one for each tag that had none. */
  ghost predicate CreatesMissing(remote: Remote, before: seq<Run>, after: seq<Run>, jobs: seq<Job>) {
    && before <= after
    && (forall i :: |before| <= i < |after| ==> CreatedFor(remote, after[i], i, jobs))
    && (forall i, j :: |before| <= i < j < |after| ==> after[i].tag != after[j].tag)
    && (forall t :: HasJob(jobs, t) && !HasRun(before, remote.name, t) <==>
          exists i :: |before| <= i < |after| && after[i].tag == t)
  }

  lemma HasJobSnoc(jobs: seq<Job>, last: Job)
    ensures forall t :: HasJob(jobs + [last], t) <==> HasJob(jobs, t) || last.tag == t
    ensures !HasJob(jobs, last.tag) ==> FirstOfTag(jobs + [last], last.tag, |jobs|)
    ensures forall t, k :: FirstOfTag(jobs, t, k) ==> FirstOfTag(jobs + [last], t, k)
  {
    var longer := jobs + [last];
    assert forall k :: 0 <= k < |jobs| ==> longer[k] == jobs[k];
    assert longer[|jobs|] == last;
  }

  lemma CreatedForSnoc(remote: Remote, r: Run, i: nat, jobs: seq<Job>, last: Job)
    requires CreatedFor(remote, r, i, jobs)
    ensures CreatedFor(remote, r, i, jobs + [last])
  {
    HasJobSnoc(jobs, last);
    var k :| FirstOfTag(jobs, r.tag, k) &&
             r == Run(remote.idOf(i), remote.name, jobs[k].tag, remote.clock(i), jobs[k].parameters);
    assert FirstOfTag(jobs + [last], r.tag, k) && (jobs + [last])[k] == jobs[k];
  }

  /** What one more tag does to the latest runs: nothing, but for a tag that had none. */
  lemma SubmitOneKeeps(remote: Remote, s: Submission, job: Job, other: string)
    requires !remote.forceRun
    ensures var t, latest := SubmitOne(remote, s, job), Latest(SubmitOne(remote, s, job).runs, remote.name, job.tag);
            && latest.Some? && latest.value.id == t.ids[|s.ids|]
            && (Latest(s.runs, remote.name, other).Some? ==>
                  Latest(t.runs, remote.name, other) == Latest(s.runs, remote.name, other))
  {
    LatestIffHasRun(s.runs, remote.name, job.tag);
    if Latest(s.runs, remote.name, job.tag).None? {
      LatestOfFirst(s.runs, NewRun(remote, s.runs, job));
      if other != job.tag {
        LatestUnaffected(s.runs, NewRun(remote, s.runs, job), remote.name, other);
      }
    }
  }

  lemma OneMoreId(remote: Remote, s: Submission, init: seq<Job>, last: Job)
    requires !remote.forceRun && IdsAreLatest(remote, s, init)
    ensures IdsAreLatest(remote, SubmitOne(remote, s, last), init + [last])
  {
    var t, jobs := SubmitOne(remote, s, last), init + [last];
    forall i | 0 <= i < |jobs|
      ensures IdIsLatest(remote, t, jobs[i].tag, i)
    {
      if i < |init| {
        assert IdIsLatest(remote, s, init[i].tag, i);
        SubmitOneKeeps(remote, s, last, init[i].tag);
      } else {
        SubmitOneKeeps(remote, s, last, last.tag);
      }
    }
  }

  lemma {:induction false} IdsAre(remote: Remote, runs: seq<Run>, jobs: seq<Job>)
    requires !remote.forceRun
    ensures IdsAreLatest(remote, SubmitAll(remote, runs, jobs), jobs)
  {
    if jobs != [] {
      var init, last := jobs[..|jobs| - 1], jobs[|jobs| - 1];
      IdsAre(remote, runs, init);
      OneMoreId(remote, SubmitAll(remote, runs, init), init, last);
      assert jobs == init + [last];
    }
  }

  lemma {:induction false} CreatesAre(remote: Remote, runs: seq<Run>, jobs: seq<Job>)
    requires !remote.forceRun
    ensures CreatesMissing(remote, runs, SubmitAll(remote, runs, jobs).runs, jobs)
  {
    if jobs != [] {
      var init, last := jobs[..|jobs| - 1], jobs[|jobs| - 1];
      CreatesAre(remote, runs, init);
      var mid := SubmitAll(remote, runs, init).runs;
      LatestIffHasRun(mid, remote.name, last.tag);
      assert jobs == init + [last];
      CreatesOne(remote, runs, mid, init, last);
    }
  }

  lemma CreatesOne(remote: Remote, runs: seq<Run>, mid: seq<Run>, init: seq<Job>, last: Job)
    requires CreatesMissing(remote, runs, mid, init)
    ensures HasRun(mid, remote.name, last.tag) ==> CreatesMissing(remote, runs, mid, init + [last])
    ensures !HasRun(mid, remote.name, last.tag) ==>
              CreatesMissing(remote, runs, mid + [NewRun(remote, mid, last)], init + [last])
  {
    var jobs := init + [last];
    HasJobSnoc(init, last);
    forall i | |runs| <= i < |mid|
      ensures CreatedFor(remote, mid[i], i, jobs)
    {
      CreatedForSnoc(remote, mid[i], i, init, last);
    }
    if HasRun(mid, remote.name, last.tag) {
      var r :| r in mid && r.algorithm == remote.name && r.tag == last.tag;
      var k :| 0 <= k < |mid| && mid[k] == r;
      assert k < |runs| ==> r in runs;
    } else {
      CreatesAnother(remote, runs, mid, init, last);
    }
  }

  lemma CreatesAnother(remote: Remote, runs: seq<Run>, mid: seq<Run>, init: seq<Job>, last: Job)
    requires CreatesMissing(remote, runs, mid, init) && !HasRun(mid, remote.name, last.tag)
    requires forall i :: |runs| <= i < |mid| ==> CreatedFor(remote, mid[i], i, init + [last])
    ensures CreatesMissing(remote, runs, mid + [NewRun(remote, mid, last)], init + [last])
  {
    var jobs, after := init + [last], mid + [NewRun(remote, mid, last)];
    HasJobSnoc(init, last);
    assert forall r :: r in runs ==> r in mid;
    assert after[|mid|].tag == last.tag;
    forall i | |runs| <= i < |mid|
      ensures mid[i].tag != last.tag
    {
      assert mid[i] in mid && CreatedFor(remote, mid[i], i, init);
    }
    assert !HasJob(init, last.tag);
    assert CreatedFor(remote, after[|mid|], |mid|, jobs) by {
      assert FirstOfTag(jobs, last.tag, |init|) && jobs[|init|] == last;
    }
    forall t
      ensures HasJob(jobs, t) && !HasRun(runs, remote.name, t) <==>
                exists i :: |runs| <= i < |after| && after[i].tag == t
    {
      if HasJob(init, t) && !HasRun(runs, remote.name, t) {
        var i :| |runs| <= i < |mid| && mid[i].tag == t;
        assert after[i].tag == t;
      }
      if i :| |runs| <= i < |after| && after[i].tag == t {
        if i < |mid| {
          assert mid[i].tag == t;
        }
      }
    }
  }

  /**
   * Without forcing, a submission creates exactly one run for each distinct effective tag that had none, drops no
   * run, and returns for each payload, in order, the id of the latest run of its tag.
   */
  lemma SubmissionReuses(remote: Remote, runs: seq<Run>, jobs: seq<Job>)
    requires !remote.forceRun
    ensures var s := SubmitAll(remote, runs, jobs);
            IdsAreLatest(remote, s, jobs) && CreatesMissing(remote, runs, s.runs, jobs)
  {
    IdsAre(remote, runs, jobs);
    CreatesAre(remote, runs, jobs);
  }

  lemma FindsLatest(remote: Remote, s: Submission, jobs: seq<Job>, i: nat)
    requires !remote.forceRun && IdsAreLatest(remote, s, jobs) && i < |jobs|
    ensures SubmitOne(remote, Submission(s.runs, s.ids[..i]), jobs[i]) == Submission(s.runs, s.ids[..i] + [s.ids[i]])
  {
    assert IdIsLatest(remote, s, jobs[i].tag, i);
    SubmitOneFinds(remote, Submission(s.runs, s.ids[..i]), jobs[i]);
  }

  /** Submitting jobs that all have runs creates nothing and returns their latest runs. */
  lemma {:induction false} NothingMissing(remote: Remote, s: Submission, jobs: seq<Job>, n: nat)
    requires !remote.forceRun && IdsAreLatest(remote, s, jobs) && n <= |jobs|
    ensures SubmitAll(remote, s.runs, jobs[..n]) == Submission(s.runs, s.ids[..n])
  {
    if n == 0 {
      assert jobs[..0] == [] && s.ids[..0] == [];
    } else {
      var k := n - 1;
      calc {
        SubmitAll(remote, s.runs, jobs[..n]);
        { SubmitAllStep(remote, s.runs, jobs, k); }
        SubmitOne(remote, SubmitAll(remote, s.runs, jobs[..k]), jobs[k]);
        { NothingMissing(remote, s, jobs, k); }
        SubmitOne(remote, Submission(s.runs, s.ids[..k]), jobs[k]);
        { FindsLatest(remote, s, jobs, k); }
        Submission(s.runs, s.ids[..k] + [s.ids[k]]);
        { assert s.ids[..k] + [s.ids[k]] == s.ids[..n]; }
        Submission(s.runs, s.ids[..n]);
      }
    }
  }

  /** Submitting the same again changes nothing and returns the same ids. */
  lemma ResubmissionIsIdempotent(remote: Remote, runs: seq<Run>, jobs: seq<Job>)
    requires !remote.forceRun
    ensures var s := SubmitAll(remote, runs, jobs); SubmitAll(remote, s.runs, jobs) == s
  {
    var s := SubmitAll(remote, runs, jobs);
    IdsAre(remote, runs, jobs);
    NothingMissing(remote, s, jobs, |jobs|);
    assert jobs[..|jobs|] == jobs && s.ids[..|jobs|] == s.ids;
  }

  /** With forcing every payload gets a run of its own, in order. */
  lemma {:induction false} ForcedCreatesAll(remote: Remote, runs: seq<Run>, jobs: seq<Job>)
    requires remote.forceRun
    ensures var s := SubmitAll(remote, runs, jobs);
            && runs <= s.runs && |s.runs| == |runs| + |jobs| && |s.ids| == |jobs|
            && forall i :: 0 <= i < |jobs| ==>
                 var n := |runs| + i;
                 && s.runs[n] ==
                      Run(remote.idOf(n), remote.name, jobs[i].tag, remote.clock(n), jobs[i].parameters)
                 && s.ids[i] == s.runs[n].id
  {
    if jobs != [] {
      ForcedCreatesAll(remote, runs, jobs[..|jobs| - 1]);
    }
  }

  // ----- A submission that is cut short -----

  /**
   * Submitting under `tag` raises `c`: looking up runs does, which is not done when forcing, or creating one does,
   * which is done when forcing or when the tag has no run.
   */
  ghost predicate CallRaises(remote: Remote, runs: seq<Run>, tag: string, f: Faults, c: Class) {
    if remote.forceRun then f.create == Some(c)
    else if f.lookup.Some? then f.lookup == Some(c)
    else !HasRun(runs, remote.name, tag) && f.create == Some(c)
  }

  lemma FaultIs(remote: Remote, runs: seq<Run>, tag: string, f: Faults)
    ensures forall c :: CallRaises(remote, runs, tag, f, c) <==> FaultAt(remote, runs, tag, f) == Some(c)
  {
    LatestIffHasRun(runs, remote.name, tag);
  }

  ghost predicate RaisesAt(remote: Remote, runs: seq<Run>, jobs: seq<Job>, faults: nat -> Faults, i: nat, c: Class)
    requires i < |jobs|
  {
    CallRaises(remote, SubmitAll(remote, runs, jobs[..i]).runs, jobs[i].tag, faults(i), c)
  }

  lemma RaisesAtIs(remote: Remote, runs: seq<Run>, jobs: seq<Job>, faults: nat -> Faults, i: nat)
    requires i < |jobs|
    ensures var fault := FaultAt(remote, SubmitAll(remote, runs, jobs[..i]).runs, jobs[i].tag, faults(i));
            forall c :: RaisesAt(remote, runs, jobs, faults, i, c) <==> fault == Some(c)
  {
    FaultIs(remote, SubmitAll(remote, runs, jobs[..i]).runs, jobs[i].tag, faults(i));
  }

  /** None of the first `k` payloads raises anything. */
  ghost predicate NoneRaises(remote: Remote, runs: seq<Run>, jobs: seq<Job>, faults: nat -> Faults, k: nat)
    requires k <= |jobs|
  {
    forall i, c :: 0 <= i < k ==> !RaisesAt(remote, runs, jobs, faults, i, c)
  }

  /** The `k`-th payload, after `k` that raised nothing. */
  lemma NextPayload(remote: Remote, runs: seq<Run>, jobs: seq<Job>, faults: nat -> Faults, k: nat)
    requires k < |jobs| && NoneRaises(remote, runs, jobs, faults, k)
    requires SubmitUntil(remote, runs, jobs[..k], faults) == Progress(SubmitAll(remote, runs, jobs[..k]), None)
    ensures var p := SubmitUntil(remote, runs, jobs[..k + 1], faults);
            if p.raised.None? then
              && NoneRaises(remote, runs, jobs, faults, k + 1)
              && p == Progress(SubmitAll(remote, runs, jobs[..k + 1]), None)
            else
              && RaisesAt(remote, runs, jobs, faults, k, p.raised.value)
              && p.done == SubmitAll(remote, runs, jobs[..k])
  {
    SubmitUntilStep(remote, runs, jobs, faults, k);
    SubmitAllStep(remote, runs, jobs, k);
    RaisesAtIs(remote, runs, jobs, faults, k);
  }

  /**
   * A submission that meets no fault is the whole one. One that is cut short has done the payloads before the first
   * that raises, and no more.
   */
  lemma CutShort(remote: Remote, runs: seq<Run>, jobs: seq<Job>, faults: nat -> Faults) returns (k: nat)
    ensures k <= |jobs| && NoneRaises(remote, runs, jobs, faults, k)
    ensures var p := SubmitUntil(remote, runs, jobs, faults);
            && p.done == SubmitAll(remote, runs, jobs[..k])
            && (p.raised.None? <==> k == |jobs|)
            && (p.raised.Some? ==> RaisesAt(remote, runs, jobs, faults, k, p.raised.value))
  {
    k := 0;
    while k < |jobs| && SubmitUntil(remote, runs, jobs[..k + 1], faults).raised.None?
      invariant k <= |jobs| && NoneRaises(remote, runs, jobs, faults, k)
      invariant SubmitUntil(remote, runs, jobs[..k], faults) == Progress(SubmitAll(remote, runs, jobs[..k]), None)
    {
      NextPayload(remote, runs, jobs, faults, k);
      k := k + 1;
    }
    assert jobs[..|jobs|] == jobs;
    if k < |jobs| {
      NextPayload(remote, runs, jobs, faults, k);
      StaysStopped(remote, runs, jobs, faults, k + 1, |jobs|);
    }
  }

  /** Two stores on which a submission ends alike. */
  ghost predicate EndAlike(remote: Remote, a: seq<Run>, b: seq<Run>, jobs: seq<Job>) {
    SubmitAll(remote, a, jobs) == SubmitAll(remote, b, jobs)
  }

  lemma EndAlikeStep(remote: Remote, a: seq<Run>, b: seq<Run>, jobs: seq<Job>, i: nat)
    requires i < |jobs| && EndAlike(remote, a, b, jobs[..i])
    ensures EndAlike(remote, a, b, jobs[..i + 1])
  {
    SubmitAllStep(remote, a, jobs, i);
    SubmitAllStep(remote, b, jobs, i);
  }

  lemma EndAlikeFrom(remote: Remote, a: seq<Run>, b: seq<Run>, jobs: seq<Job>, k: nat)
    requires k <= |jobs| && EndAlike(remote, a, b, jobs[..k])
    ensures EndAlike(remote, a, b, jobs)
  {
    for n := k to |jobs|
      invariant EndAlike(remote, a, b, jobs[..n])
    {
      EndAlikeStep(remote, a, b, jobs, n);
    }
    assert jobs[..|jobs|] == jobs;
  }

  /** From the point where it was cut short, the same submission goes on as if nothing had happened. */
  lemma Resumes(remote: Remote, runs: seq<Run>, jobs: seq<Job>, k: nat)
    requires !remote.forceRun && k <= |jobs|
    ensures SubmitAll(remote, SubmitAll(remote, runs, jobs[..k]).runs, jobs) == SubmitAll(remote, runs, jobs)
  {
    ResubmissionIsIdempotent(remote, runs, jobs[..k]);
    EndAlikeFrom(remote, SubmitAll(remote, runs, jobs[..k]).runs, runs, jobs, k);
  }

  /**
   * Without forcing, submitting again after a failed call ends with the very runs and ids that the submission would
   * have ended with had no call failed.
   */
  lemma SubmittingAgainCompletes(remote: Remote, runs: seq<Run>, jobs: seq<Job>, faults: nat -> Faults)
    requires !remote.forceRun
    ensures SubmitAll(remote, SubmitUntil(remote, runs, jobs, faults).done.runs, jobs) == SubmitAll(remote, runs, jobs)
  {
    var k := CutShort(remote, runs, jobs, faults);
    Resumes(remote, runs, jobs, k);
  }

  // ----- By payload -----

  /** The payload goes under `tag`: its own, or the algorithm's if it has none or an empty one. */
  ghost predicate GoesUnder(p: Payload, default: string, tag: string) {
    if p.tag == None || p.tag == Some("") then tag == default else p.tag == Some(tag)
  }

  /**
   * The run at `i` was created for the first payload that goes under its tag, with that payload's content, compressed
   * if the algorithm says so.
   */
  ghost predicate CarriesPayload(remote: Remote, r: Run, i: nat, payloads: seq<Payload>, default: string) {
    exists k :: 0 <= k < |payloads| && GoesUnder(payloads[k], default, r.tag) &&
      (forall j :: 0 <= j < k ==> !GoesUnder(payloads[j], default, r.tag)) &&
      r.id == remote.idOf(i) && r.algorithm == remote.name && r.receivedAt == remote.clock(i) &&
      r.parameters == if remote.compressPayload then Compressed(payloads[k].content) else Plain(payloads[k].content)
  }

  /**
   * Without forcing: each payload gets the latest run of the tag it goes under; a tag has a run in the end exactly if
   * it had one before or some payload goes under it; and a new run carries the first of these payloads.
   */
  lemma SubmissionByPayload(remote: Remote, runs: seq<Run>, payloads: seq<Payload>, default: string)
    requires !remote.forceRun
    ensures var s := SubmitAll(remote, runs, Jobs(remote, payloads, default));
            && |s.ids| == |payloads| && runs <= s.runs
            && (forall i, t :: 0 <= i < |payloads| && GoesUnder(payloads[i], default, t) ==>
                  IdIsLatest(remote, s, t, i))
            && (forall t :: HasRun(s.runs, remote.name, t) <==>
                  HasRun(runs, remote.name, t) || exists p :: p in payloads && GoesUnder(p, default, t))
            && (forall i :: |runs| <= i < |s.runs| ==> CarriesPayload(remote, s.runs[i], i, payloads, default))
  {
    var jobs := Jobs(remote, payloads, default);
    var s := SubmitAll(remote, runs, jobs);
    SubmissionReuses(remote, runs, jobs);
    forall i, t | 0 <= i < |payloads| && GoesUnder(payloads[i], default, t)
      ensures IdIsLatest(remote, s, t, i)
    {
      assert jobs[i].tag == t;
      assert IdIsLatest(remote, s, jobs[i].tag, i);
    }
    forall t
      ensures HasRun(s.runs, remote.name, t) <==>
                HasRun(runs, remote.name, t) || exists p :: p in payloads && GoesUnder(p, default, t)
    {
      RunsOfTag(remote, runs, s.runs, jobs, t);
      JobsGoUnder(remote, payloads, default, t);
    }
    forall i | |runs| <= i < |s.runs|
      ensures CarriesPayload(remote, s.runs[i], i, payloads, default)
    {
      PayloadCarried(remote, s.runs[i], i, payloads, default);
    }
  }

  lemma PayloadCarried(remote: Remote, r: Run, i: nat, payloads: seq<Payload>, default: string)
    requires CreatedFor(remote, r, i, Jobs(remote, payloads, default))
    ensures CarriesPayload(remote, r, i, payloads, default)
  {
    var jobs := Jobs(remote, payloads, default);
    var k :| FirstOfTag(jobs, r.tag, k) &&
             r == Run(remote.idOf(i), remote.name, jobs[k].tag, remote.clock(i), jobs[k].parameters);
    assert forall j :: 0 <= j < |payloads| ==> (GoesUnder(payloads[j], default, r.tag) <==> jobs[j].tag == r.tag);
  }

  lemma JobsGoUnder(remote: Remote, payloads: seq<Payload>, default: string, t: string)
    ensures HasJob(Jobs(remote, payloads, default), t) <==> exists p :: p in payloads && GoesUnder(p, default, t)
  {
    var jobs := Jobs(remote, payloads, default);
    if HasJob(jobs, t) {
      var i :| 0 <= i < |jobs| && jobs[i].tag == t;
      assert payloads[i] in payloads && GoesUnder(payloads[i], default, t);
    }
    if p :| p in payloads && GoesUnder(p, default, t) {
      var i :| 0 <= i < |payloads| && payloads[i] == p;
      assert jobs[i].tag == t;
    }
  }

  lemma RunsOfTag(remote: Remote, before: seq<Run>, after: seq<Run>, jobs: seq<Job>, t: string)
    requires CreatesMissing(remote, before, after, jobs)
    ensures HasRun(after, remote.name, t) <==> HasRun(before, remote.name, t) || HasJob(jobs, t)
  {
    assert forall j :: 0 <= j < |before| ==> after[j] == before[j] && before[j] in before;
    if HasRun(after, remote.name, t) && !HasRun(before, remote.name, t) {
      var r :| r in after && r.algorithm == remote.name && r.tag == t;
      var i :| 0 <= i < |after| && after[i] == r;
      assert i >= |before|;
    }
    if HasRun(before, remote.name, t) {
      var r :| r in before && r.algorithm == remote.name && r.tag == t;
      assert r in after;
    } else if HasJob(jobs, t) {
      var i :| |before| <= i < |after| && after[i].tag == t;
      assert after[i] in after && CreatedFor(remote, after[i], i, jobs);
    }
  }
}
