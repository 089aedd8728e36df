/**
 * The shared cache object, its fields and its sections of code between suspensions. Each method is one step of the
 * transition system, loops included.
 */
module InputCaches {
  import opened Collections
  import opened InputGraph
  import opened Protocol
  import opened ResolveOrder

  /** `tasks` says where each scheduled task, and each top-level caller, stands; `data` is kept by the input objects. */
  class InputCache {
    const world: World
    var scheduled: seq<Actor>
    var tasks: map<Actor, Phase>
    var cache: map<Actor, Value>
    var written: seq<Actor>
    var data: map<Actor, Value>
    var totalExecuted: nat

    ghost function Current(): State
      reads this
    {
      State(scheduled, tasks, cache, written, data, totalExecuted)
    }

    constructor (w: World)
      ensures world == w && Current() == Init(w)
    {
      world := w;
      scheduled, written, totalExecuted := [], [], 0;
      tasks := map a | a in w.callers :: Resolving;
      cache, data := map[], map[];
    }

    /** `_execute` up to where it first suspends: in `_context_open`, or in `process`. */
    method BeginTask(a: Actor)
      requires Enabled(world, Current(), Start(a))
      modifies this`totalExecuted, this`tasks
      ensures Current() == Apply(world, old(Current()), Start(a))
    {
      totalExecuted := totalExecuted + 1;
      if a in world.slowOpen {
        tasks := tasks[a := Entering];
      } else {
        BeginProcessing(a);
      }
    }

    /** A suspended `_context_open` ends, and `process` begins. */
    method EnterContext(a: Actor)
      requires Enabled(world, Current(), Enter(a))
      modifies this`tasks
      ensures Current() == Apply(world, old(Current()), Enter(a))
    {
      BeginProcessing(a);
    }

    /** The memo test of `process`. */
    method BeginProcessing(a: Actor)
      modifies this`tasks
      ensures tasks == old(tasks)[a := Processing(old(Current()), a)]
    {
      if a in data && data[a].Data? {
        tasks := tasks[a := Ended(Ok(data[a]))];
      } else {
        tasks := tasks[a := Resolving];
      }
    }

    /** The first statement of the locked section of `resolve`: the inputs that have no task. */
    method SelectMissing(inputs: seq<Actor>) returns (toSchedule: seq<Actor>)
      ensures toSchedule == Missing(inputs, scheduled)
      ensures exists ix :: Selects(inputs, scheduled, toSchedule, ix)
    {
      ghost var ix := MissingSelects(inputs, scheduled);
      toSchedule := [];
      for i := 0 to |inputs|
        invariant toSchedule == Missing(inputs[..i], scheduled)
      {
        assert inputs[..i + 1][..i] == inputs[..i];
        if inputs[i] !in scheduled {
          toSchedule := toSchedule + [inputs[i]];
        }
      }
      assert inputs[..|inputs|] == inputs;
    }

    /** The rest of it: a task for each of them. */
    method CreateTasks(toSchedule: seq<Actor>)
      modifies this`scheduled, this`tasks
      ensures scheduled == old(scheduled) + toSchedule
      ensures tasks == AddPending(old(tasks), toSchedule)
    {
      for i := 0 to |toSchedule|
        invariant scheduled == old(scheduled) + toSchedule[..i]
        invariant tasks == AddPending(old(tasks), toSchedule[..i])
      {
        assert toSchedule[..i + 1] == toSchedule[..i] + [toSchedule[i]];
        AddPendingSnoc(old(tasks), toSchedule[..i], toSchedule[i]);
        scheduled := scheduled + [toSchedule[i]];
        tasks := tasks[toSchedule[i] := Pending];
      }
      assert toSchedule[..|toSchedule|] == toSchedule;
    }

    /** The locked section of `resolve`, after which its caller waits. */
    method ScheduleInputs(a: Actor)
      requires Enabled(world, Current(), Schedule(a))
      modifies this`scheduled, this`tasks
      ensures Current() == Apply(world, old(Current()), Schedule(a))
    {
      var toSchedule := SelectMissing(Deps(world, a));
      CreateTasks(toSchedule);
      tasks := tasks[a := Waiting(0)];
    }

    /** One turn of the poll loop: count, then scan the scheduled tasks for the first that failed. */
    method PollOnce(a: Actor)
      requires Enabled(world, Current(), Poll(a))
      modifies this`tasks
      ensures Current() == Apply(world, old(Current()), Poll(a))
    {
      var inputs := Deps(world, a);
      var numCached := 0;
      for i := 0 to |inputs|
        invariant numCached == CountCached(inputs[..i], cache)
      {
        assert inputs[..i + 1][..i] == inputs[..i];
        if inputs[i] in cache {
          numCached := numCached + 1;
        }
      }
      assert inputs[..|inputs|] == inputs;
      for i := 0 to |scheduled|
        invariant forall j :: 0 <= j < i ==> !Failed(tasks, scheduled[j])
        invariant tasks == old(tasks)
      {
        var k := scheduled[i];
        if Failed(tasks, k) {
          FirstFailedIs(scheduled, tasks, i);
          tasks := tasks[a := Ended(Raised(Remapped(world, tasks, k)))];
          return;
        }
      }
      tasks := tasks[a := Waiting(numCached)];
    }

    /** Leave the poll loop and build the dictionary of inputs. */
    method FinishWaiting(a: Actor)
      requires Enabled(world, Current(), Finish(a))
      modifies this`tasks
      ensures Current() == Apply(world, old(Current()), Finish(a))
    {
      var inputs := Deps(world, a);
      var results: Kwargs := map[];
      for i := 0 to |inputs|
        invariant results == Results(world, inputs[..i], cache, data)
      {
        assert inputs[..i + 1][..i] == inputs[..i];
        if inputs[i] in cache {
          results := results[Alias(world, inputs[i]) := DataOf(data, inputs[i])];
        }
      }
      assert inputs[..|inputs|] == inputs;
      tasks := tasks[a := Resolved(results)];
    }

    /** `_read_input` or `_process_input`, and the assignment of its result. */
    method RunOwnCode(a: Actor)
      requires Enabled(world, Current(), Compute(a))
      modifies this`tasks, this`data
      ensures Current() == Apply(world, old(Current()), Compute(a))
    {
      match world.own(a, world.kwargs + tasks[a].results)
      case Produced(v) =>
        data := data[a := v];
        tasks := tasks[a := Ended(Ok(v))];
      case Threw(c) =>
        tasks := tasks[a := Ended(Raised(Raw(c)))];
    }

    /** The `finally` block of `_execute`. */
    method WriteCache(a: Actor)
      requires Enabled(world, Current(), Write(a))
      modifies this`tasks, this`cache, this`written
      ensures Current() == Apply(world, old(Current()), Write(a))
    {
      var outcome := tasks[a].outcome;
      if a !in cache {
        written := written + [a];
      }
      cache := cache[a := OutcomeValue(outcome)];
      tasks := tasks[a := if a in world.slowClose then Closing(outcome) else Done(outcome)];
    }

    /** A suspended `_context_close` ends. */
    method LeaveContext(a: Actor)
      requires Enabled(world, Current(), Close(a))
      modifies this`tasks
      ensures Current() == Apply(world, old(Current()), Close(a))
    {
      tasks := tasks[a := Done(tasks[a].outcome)];
    }
  }

  lemma AddPendingSnoc(phase: map<Actor, Phase>, missing: seq<Actor>, m: Actor)
    ensures AddPending(phase, missing + [m]) == AddPending(phase, missing)[m := Pending]
  {
  }

  lemma {:induction false} FirstFailedIs(order: seq<Actor>, phase: map<Actor, Phase>, i: nat)
    requires i < |order| && Failed(phase, order[i])
    requires forall j :: 0 <= j < i ==> !Failed(phase, order[j])
    ensures FirstFailed(order, phase) == Some(order[i])
  {
    if i > 0 {
      FirstFailedIs(order[1..], phase, i - 1);
    }
  }

  // ----- One task per key -----

  /** No input without a task is passed twice. */
  ghost predicate NoRepeatedMissing(deps: seq<Actor>, order: seq<Actor>) {
    forall i, j :: 0 <= i < j < |deps| && deps[i] == deps[j] ==> deps[i] in order
  }

  lemma DistinctSnoc<T>(s: seq<T>, x: T)
    ensures Distinct(s + [x]) <==> Distinct(s) && x !in s
  {
    var t := s + [x];
    assert forall i :: 0 <= i < |s| ==> t[i] == s[i];
    if x in s {
      var i :| 0 <= i < |s| && s[i] == x;
      assert t[i] == t[|s|];
    }
  }

  lemma NoRepeatedSnoc(deps: seq<Actor>, x: Actor, order: seq<Actor>)
    ensures NoRepeatedMissing(deps + [x], order) <==> NoRepeatedMissing(deps, order) && (x in order || x !in deps)
  {
    var t := deps + [x];
    assert forall i :: 0 <= i < |deps| ==> t[i] == deps[i];
    if x in deps && x !in order {
      var i :| 0 <= i < |deps| && deps[i] == x;
      assert t[i] == t[|deps|];
    }
  }

  /**
   * The list of missing inputs is taken before any task is created, so one call creates one task per key exactly
   * when it is not given an unscheduled input twice.
   */
  lemma {:induction false} OneTaskPerKey(deps: seq<Actor>, order: seq<Actor>)
    ensures Distinct(Missing(deps, order)) <==> NoRepeatedMissing(deps, order)
  {
    if deps != [] {
      var init, last := deps[..|deps| - 1], deps[|deps| - 1];
      assert deps == init + [last];
      OneTaskPerKey(init, order);
      NoRepeatedSnoc(init, last, order);
      DistinctSnoc(Missing(init, order), last);
      assert Missing(init, order) + [] == Missing(init, order);
    }
  }
}
