/**
 * The scheduler's guarantees for a whole plan, run from an empty result
 * map as `executePlan` does (hooks/useExecutionEngine.ts).
 */
module EngineTheorems {
  import opened Wrappers
  import opened Types
  import opened ResultStore
  import opened Engine
  import opened Seqs
  import opened EngineProofs
  import opened Tools

  /** The statuses a list of reports announces, in order. */
  function Statuses(rs: seq<Task>): (ss: seq<Status>)
    ensures |ss| == |rs|
    ensures forall i :: 0 <= i < |rs| ==> ss[i] == rs[i].status
  {
    MapSeq(rs, (r: Task) => r.status)
  }

  lemma PlanSettles(tasks: seq<Task>, invoke: Invoke, json: Value -> string)
    requires UniqueIds(tasks)
    ensures Valid(Run(tasks, Empty, invoke, json).results)
    ensures Run(tasks, Empty, invoke, json).results.entries.Keys <= IdSet(tasks)
    ensures forall t :: t in tasks ==>
      Settled(t, ReportsOf(Run(tasks, Empty, invoke, json).reports, t.id), Run(tasks, Empty, invoke, json).results, invoke, json)
    ensures forall x :: x !in IdSet(tasks) ==> ReportsOf(Run(tasks, Empty, invoke, json).reports, x) == []
  {
    EmptyIsValid();
    RunSettles(tasks, Empty, invoke, json);
  }

  lemma SettledLifecycle(t: Task, rs: seq<Task>, results: ResultMap, invoke: Invoke, json: Value -> string)
    requires Settled(t, rs, results, invoke, json)
    ensures Statuses(rs) in {[Running, Succeeded], [Running, Failed], [Skipped]}
    ensures forall r :: r in rs ==> r.(status := t.status, result := t.result, error := t.error) == t
  {
    if Ran(t, rs, results, invoke, json) {
      var r := results.entries[t.id];
      assert Statuses(rs) == [Running, r.status];
    } else {
      assert Statuses(rs) == [Skipped];
    }
  }

  /**
   * Every task of the plan is reported Running and then Succeeded or
   * Failed, or reported Skipped once; each report is the task with only
   * its status, result and error changed; no other id is reported.
   */
  lemma ReportLifecycle(tasks: seq<Task>, invoke: Invoke, json: Value -> string)
    requires UniqueIds(tasks)
    ensures forall t :: t in tasks ==>
      Statuses(ReportsOf(Run(tasks, Empty, invoke, json).reports, t.id)) in {[Running, Succeeded], [Running, Failed], [Skipped]}
    ensures forall t, r :: t in tasks && r in ReportsOf(Run(tasks, Empty, invoke, json).reports, t.id) ==>
      r.(status := t.status, result := t.result, error := t.error) == t
    ensures forall x :: x !in IdSet(tasks) ==> ReportsOf(Run(tasks, Empty, invoke, json).reports, x) == []
  {
    PlanSettles(tasks, invoke, json);
    var tr := Run(tasks, Empty, invoke, json);
    forall t | t in tasks
      ensures Statuses(ReportsOf(tr.reports, t.id)) in {[Running, Succeeded], [Running, Failed], [Skipped]}
      ensures forall r :: r in ReportsOf(tr.reports, t.id) ==> r.(status := t.status, result := t.result, error := t.error) == t
    {
      SettledLifecycle(t, ReportsOf(tr.reports, t.id), tr.results, invoke, json);
    }
  }

  lemma SettledRecord(t: Task, rs: seq<Task>, results: ResultMap, invoke: Invoke, json: Value -> string)
    requires Settled(t, rs, results, invoke, json)
    ensures rs != []
    ensures t.id in results.entries <==> rs != [DeadlockReport(t)]
    ensures t.id in results.entries ==>
      results.entries[t.id].id == t.id && results.entries[t.id].status == rs[|rs| - 1].status
  {
    if Ran(t, rs, results, invoke, json) {
      assert rs[1] == OutcomeReport(t, results.entries[t.id], json);
    } else if Cascaded(t, rs, results) {
      assert CascadeReportMessage[15] != DeadlockMessage[15];
      assert CascadeReport(t).error != DeadlockReport(t).error;
    }
  }

  /**
   * A task has a recorded result exactly when it was not skipped by the
   * deadlock branch, and that result carries its id and the status of its
   * last report.
   */
  lemma RecordMatchesLastReport(tasks: seq<Task>, invoke: Invoke, json: Value -> string, t: Task)
    requires UniqueIds(tasks) && t in tasks
    ensures ReportsOf(Run(tasks, Empty, invoke, json).reports, t.id) != []
    ensures t.id in Run(tasks, Empty, invoke, json).results.entries <==>
      ReportsOf(Run(tasks, Empty, invoke, json).reports, t.id) != [DeadlockReport(t)]
    ensures t.id in Run(tasks, Empty, invoke, json).results.entries ==>
      var rs := ReportsOf(Run(tasks, Empty, invoke, json).reports, t.id);
      && Run(tasks, Empty, invoke, json).results.entries[t.id].id == t.id
      && Run(tasks, Empty, invoke, json).results.entries[t.id].status == rs[|rs| - 1].status
  {
    PlanSettles(tasks, invoke, json);
    var tr := Run(tasks, Empty, invoke, json);
    SettledRecord(t, ReportsOf(tr.reports, t.id), tr.results, invoke, json);
  }

  /**
   * The reports of a task that ran match its record: Running, then
   * Succeeded showing the display form of the recorded value, or Failed
   * showing the recorded, non-empty error message.
   */
  lemma OutcomeMatchesRecord(tasks: seq<Task>, invoke: Invoke, json: Value -> string, t: Task)
    requires UniqueIds(tasks) && t in tasks
    ensures var tr := Run(tasks, Empty, invoke, json);
      t.id in tr.results.entries && tr.results.entries[t.id].status == Succeeded ==>
        ReportsOf(tr.reports, t.id) ==
          [t.(status := Running), t.(status := Succeeded, result := Display(tr.results.entries[t.id].result, json))]
    ensures var tr := Run(tasks, Empty, invoke, json);
      t.id in tr.results.entries && tr.results.entries[t.id].status == Failed ==>
        && tr.results.entries[t.id].error.Some? && tr.results.entries[t.id].error.value != ""
        && ReportsOf(tr.reports, t.id) ==
          [t.(status := Running), t.(status := Failed, error := tr.results.entries[t.id].error, result := None)]
  {
    PlanSettles(tasks, invoke, json);
    var tr := Run(tasks, Empty, invoke, json);
    SettledOutcome(t, ReportsOf(tr.reports, t.id), tr.results, invoke, json);
  }

  lemma SettledOutcome(t: Task, rs: seq<Task>, results: ResultMap, invoke: Invoke, json: Value -> string)
    requires Settled(t, rs, results, invoke, json)
    ensures t.id in results.entries && results.entries[t.id].status == Succeeded ==>
      rs == [t.(status := Running), t.(status := Succeeded, result := Display(results.entries[t.id].result, json))]
    ensures t.id in results.entries && results.entries[t.id].status == Failed ==>
      && results.entries[t.id].error.Some? && results.entries[t.id].error.value != ""
      && rs == [t.(status := Running), t.(status := Failed, error := results.entries[t.id].error, result := None)]
  {
  }

  /**
   * The list handed to the summariser holds a result for a plan task
   * exactly when the task ran or was skipped by the cascade, that is, when
   * its reports are not the deadlock skip.
   */
  lemma FinalResultsCoverRecorded(plan: ExecutionPlan, goal: string, invoke: Invoke, json: Value -> string,
                                  summarize: Summarizer)
    requires UniqueIds(plan.tasks)
    ensures forall t :: t in plan.tasks ==>
      (t.id in ResultIds(ExecutePlan(plan, goal, invoke, json, summarize).finalResults) <==>
       ReportsOf(Run(plan.tasks, Empty, invoke, json).reports, t.id) != [DeadlockReport(t)])
  {
    PlanSettles(plan.tasks, invoke, json);
    var tr := Run(plan.tasks, Empty, invoke, json);
    KeysCarryIds(plan.tasks, invoke, json);
    ValuesIds(tr.results);
    assert ExecutePlan(plan, goal, invoke, json, summarize).finalResults == Values(tr.results);
    forall t | t in plan.tasks
      ensures t.id in tr.results.entries <==> ReportsOf(tr.reports, t.id) != [DeadlockReport(t)]
    {
      RecordMatchesLastReport(plan.tasks, invoke, json, t);
    }
  }

  /** Every recorded result is stored under its own task's id, with a terminal status. */
  lemma KeysCarryIds(tasks: seq<Task>, invoke: Invoke, json: Value -> string)
    requires UniqueIds(tasks)
    ensures var results := Run(tasks, Empty, invoke, json).results;
      forall k :: k in results.entries ==> results.entries[k].id == k && IsTerminal(results.entries[k].status)
  {
    PlanSettles(tasks, invoke, json);
    var tr := Run(tasks, Empty, invoke, json);
    forall k | k in tr.results.entries ensures tr.results.entries[k].id == k && IsTerminal(tr.results.entries[k].status) {
      var t :| t in tasks && t.id == k;
      SettledRecord(t, ReportsOf(tr.reports, t.id), tr.results, invoke, json);
      assert Settled(t, ReportsOf(tr.reports, t.id), tr.results, invoke, json);
    }
  }

  /** The task's id has a record of its own outcome: Succeeded or Failed, not Skipped. */
  ghost predicate RanKey(results: ResultMap, k: string) {
    k in results.entries && results.entries[k].status != Skipped
  }

  /** A settled task with a record of its own outcome is a task that ran. */
  lemma SettledRan(t: Task, rs: seq<Task>, results: ResultMap, invoke: Invoke, json: Value -> string)
    requires Settled(t, rs, results, invoke, json) && RanKey(results, t.id)
    ensures Ran(t, rs, results, invoke, json)
  {
  }

  /**
   * A task that ran recorded what its one tool call returned, given the
   * values recorded for its dependencies: the raw value when the tool
   * succeeded; otherwise a null result and the error's message, or the
   * fallback message when the error has none.
   */
  lemma RecordIsToolOutcome(tasks: seq<Task>, invoke: Invoke, json: Value -> string, t: Task)
    requires UniqueIds(tasks) && t in tasks
    ensures var results := Run(tasks, Empty, invoke, json).results;
      var called := invoke(t.tool, t.args, BuildDeps(t.dependsOn, results));
      RanKey(results, t.id) ==>
        && (called.Ok? ==> results.entries[t.id] == TaskResult(t.id, Succeeded, called.value, None))
        && (called.Err? ==> results.entries[t.id] == TaskResult(t.id, Failed, Null, Some(ErrorText(called.error))))
  {
    PlanSettles(tasks, invoke, json);
    var tr := Run(tasks, Empty, invoke, json);
    if RanKey(tr.results, t.id) {
      SettledRan(t, ReportsOf(tr.reports, t.id), tr.results, invoke, json);
    }
  }

  /**
   * Dependencies are met before dispatch: every dependency of a task that
   * ran is recorded Succeeded, and was recorded before the task, in the
   * result map's insertion order.
   */
  lemma DependenciesRecordedFirst(tasks: seq<Task>, invoke: Invoke, json: Value -> string, t: Task)
    requires UniqueIds(tasks) && t in tasks
    ensures var results := Run(tasks, Empty, invoke, json).results;
      RanKey(results, t.id) ==>
        forall i :: 0 <= i < |t.dependsOn| ==>
          DepSucceeded(results, t.dependsOn[i]) && SetBefore(results, t.dependsOn[i], t.id)
  {
    PlanSettles(tasks, invoke, json);
    var tr := Run(tasks, Empty, invoke, json);
    if RanKey(tr.results, t.id) {
      SettledRan(t, ReportsOf(tr.reports, t.id), tr.results, invoke, json);
    }
  }

  /** Every task of the plan that ran had its dependencies recorded Succeeded, and recorded before it. */
  ghost predicate DependenciesFirst(tasks: seq<Task>, results: ResultMap) {
    forall t :: t in tasks && RanKey(results, t.id) ==>
      forall i :: 0 <= i < |t.dependsOn| ==>
        DepSucceeded(results, t.dependsOn[i]) && SetBefore(results, t.dependsOn[i], t.id)
  }

  lemma DependencyFirstStep(tasks: seq<Task>, results: ResultMap, a: string, b: string)
    requires DependenciesFirst(tasks, results) && DependsOn(tasks, a, b) && RanKey(results, a)
    ensures RanKey(results, b) && SetBefore(results, b, a)
  {
    var t :| t in tasks && t.id == a && b in t.dependsOn;
    var j :| 0 <= j < |t.dependsOn| && t.dependsOn[j] == b;
    assert DepSucceeded(results, t.dependsOn[j]) && SetBefore(results, t.dependsOn[j], t.id);
  }

  /** When the head of a dependency chain ran, every later link ran, and was recorded before the head. */
  lemma {:induction false} ChainRanEarlier(tasks: seq<Task>, results: ResultMap, chain: seq<string>, i: nat)
    requires DependenciesFirst(tasks, results)
    requires DependencyChain(tasks, chain) && 1 <= i < |chain|
    ensures RanKey(results, chain[0]) ==> RanKey(results, chain[i]) && SetBefore(results, chain[i], chain[0])
    decreases i
  {
    if RanKey(results, chain[0]) {
      assert DependsOn(tasks, chain[i - 1], chain[i]);
      if i == 1 {
        DependencyFirstStep(tasks, results, chain[0], chain[1]);
      } else {
        ChainRanEarlier(tasks, results, chain, i - 1);
        DependencyFirstStep(tasks, results, chain[i - 1], chain[i]);
        SetBeforeTrans(results, chain[i], chain[i - 1], chain[0]);
      }
    }
  }

  /** When dependencies are recorded first, the id at the head of a dependency cycle never ran. */
  lemma CycleCannotRun(tasks: seq<Task>, results: ResultMap, chain: seq<string>)
    requires DependenciesFirst(tasks, results)
    requires |chain| >= 2 && DependencyChain(tasks, chain) && chain[0] == chain[|chain| - 1]
    ensures !RanKey(results, chain[0])
  {
    ChainRanEarlier(tasks, results, chain, |chain| - 1);
    SetBeforeIrreflexive(results, chain[0]);
  }

  lemma SettledWithoutRunSkips(t: Task, rs: seq<Task>, results: ResultMap, invoke: Invoke, json: Value -> string)
    requires Settled(t, rs, results, invoke, json) && !RanKey(results, t.id)
    ensures Statuses(rs) == [Skipped]
  {
  }

  /**
   * A dependency cycle never runs, even beside tasks that do: a task whose
   * id lies on a cycle, a self-dependency included, is never reported
   * Running and has no record of its own outcome; its only report is
   * Skipped.
   */
  lemma CycleIsSkipped(tasks: seq<Task>, invoke: Invoke, json: Value -> string, chain: seq<string>)
    requires UniqueIds(tasks)
    requires |chain| >= 2 && DependencyChain(tasks, chain) && chain[0] == chain[|chain| - 1]
    ensures !RanKey(Run(tasks, Empty, invoke, json).results, chain[0])
    ensures forall t :: t in tasks && t.id == chain[0] ==>
      Statuses(ReportsOf(Run(tasks, Empty, invoke, json).reports, t.id)) == [Skipped]
  {
    PlanSettles(tasks, invoke, json);
    var tr := Run(tasks, Empty, invoke, json);
    forall t | t in tasks && RanKey(tr.results, t.id)
      ensures forall i :: 0 <= i < |t.dependsOn| ==>
        DepSucceeded(tr.results, t.dependsOn[i]) && SetBefore(tr.results, t.dependsOn[i], t.id)
    {
      DependenciesRecordedFirst(tasks, invoke, json, t);
    }
    CycleCannotRun(tasks, tr.results, chain);
    forall t | t in tasks && t.id == chain[0] ensures Statuses(ReportsOf(tr.reports, t.id)) == [Skipped] {
      SettledWithoutRunSkips(t, ReportsOf(tr.reports, t.id), tr.results, invoke, json);
    }
  }

  /** A task without dependencies always runs: Running, then the outcome of its tool call on an empty record. */
  lemma RootTaskRuns(tasks: seq<Task>, invoke: Invoke, json: Value -> string, t: Task)
    requires UniqueIds(tasks) && t in tasks && t.dependsOn == []
    ensures var tr := Run(tasks, Empty, invoke, json);
      && t.id in tr.results.entries
      && tr.results.entries[t.id] == ExecuteTask(t, Empty, invoke, json).0
      && ReportsOf(tr.reports, t.id) == [t.(status := Running), ExecuteTask(t, Empty, invoke, json).1]
  {
    PlanSettles(tasks, invoke, json);
    var tr := Run(tasks, Empty, invoke, json);
    SettledRoot(t, ReportsOf(tr.reports, t.id), tr.results, invoke, json);
  }

  lemma SettledRoot(t: Task, rs: seq<Task>, results: ResultMap, invoke: Invoke, json: Value -> string)
    requires Settled(t, rs, results, invoke, json) && t.dependsOn == []
    ensures t.id in results.entries
    ensures results.entries[t.id] == ExecuteTask(t, Empty, invoke, json).0
    ensures rs == [t.(status := Running), ExecuteTask(t, Empty, invoke, json).1]
  {
    assert Executable(t, results);
    assert !HasFailedDependency(t, results);
    assert BuildDeps(t.dependsOn, results) == BuildDeps(t.dependsOn, Empty) == [];
  }

  /**
   * With the engine calling `executeTool`, a getWeather task without
   * dependencies that names a location always succeeds with the weather
   * report for it.
   */
  lemma RootWeatherSucceeds(tasks: seq<Task>, json: Value -> string, services: Services, t: Task)
    requires UniqueIds(tasks) && t in tasks && t.dependsOn == []
    requires t.tool == GetWeather && "location" in t.args
    ensures var tr := Run(tasks, Empty, Invoker(json, services), json);
      && t.id in tr.results.entries
      && tr.results.entries[t.id] == TaskResult(t.id, Succeeded, GetWeatherReport(t.args).value, None)
      && ReportsOf(tr.reports, t.id) ==
           [t.(status := Running), t.(status := Succeeded, result := Some(GetWeatherReport(t.args).value.s))]
  {
    var invoke := Invoker(json, services);
    RootTaskRuns(tasks, invoke, json, t);
    assert invoke(t.tool, t.args, BuildDeps(t.dependsOn, Empty)) == GetWeatherReport(t.args);
  }

  /** A task that succeeded had every dependency recorded as Succeeded. */
  lemma SuccessNeedsSucceededDependencies(tasks: seq<Task>, invoke: Invoke, json: Value -> string, t: Task)
    requires UniqueIds(tasks) && t in tasks
    requires DepSucceeded(Run(tasks, Empty, invoke, json).results, t.id)
    ensures Executable(t, Run(tasks, Empty, invoke, json).results)
  {
    PlanSettles(tasks, invoke, json);
    var tr := Run(tasks, Empty, invoke, json);
    var rs := ReportsOf(tr.reports, t.id);
    assert Settled(t, rs, tr.results, invoke, json);
  }

  /** Some task of the plan has id `a` and depends on `b`. */
  ghost predicate DependsOn(tasks: seq<Task>, a: string, b: string) {
    exists t :: t in tasks && t.id == a && b in t.dependsOn
  }

  /** `chain[i + 1]` is a dependency of the task with id `chain[i]`. */
  ghost predicate DependencyChain(tasks: seq<Task>, chain: seq<string>) {
    forall i :: 0 <= i < |chain| - 1 ==> DependsOn(tasks, chain[i], chain[i + 1])
  }

  /** Along a dependency chain, success at the head reaches every link when success implies succeeded dependencies. */
  lemma {:induction false} ChainSucceeds(tasks: seq<Task>, results: ResultMap, chain: seq<string>)
    requires forall t :: t in tasks && DepSucceeded(results, t.id) ==> Executable(t, results)
    requires chain != [] && DependencyChain(tasks, chain) && DepSucceeded(results, chain[0])
    ensures forall i :: 0 <= i < |chain| ==> DepSucceeded(results, chain[i])
    decreases |chain|
  {
    if |chain| > 1 {
      assert DependsOn(tasks, chain[0], chain[1]);
      ChainStep(tasks, results, chain[0], chain[1]);
      ChainTail(tasks, chain);
      ChainSucceeds(tasks, results, chain[1..]);
      forall i | 0 <= i < |chain| ensures DepSucceeded(results, chain[i]) {
        if i > 0 {
          assert chain[1..][i - 1] == chain[i];
        }
      }
    }
  }

  /** A dependency of a succeeded task succeeded, when success implies succeeded dependencies. */
  lemma ChainStep(tasks: seq<Task>, results: ResultMap, a: string, b: string)
    requires forall t :: t in tasks && DepSucceeded(results, t.id) ==> Executable(t, results)
    requires DependsOn(tasks, a, b) && DepSucceeded(results, a)
    ensures DepSucceeded(results, b)
  {
    var t :| t in tasks && t.id == a && b in t.dependsOn;
    var j :| 0 <= j < |t.dependsOn| && t.dependsOn[j] == b;
    assert DepSucceeded(results, t.dependsOn[j]);
  }

  /** Dropping the head of a chain leaves a chain. */
  lemma ChainTail(tasks: seq<Task>, chain: seq<string>)
    requires |chain| > 1 && DependencyChain(tasks, chain)
    ensures DependencyChain(tasks, chain[1..])
  {
    var tail := chain[1..];
    forall i | 0 <= i < |tail| - 1 ensures DependsOn(tasks, tail[i], tail[i + 1]) {
      assert tail[i] == chain[i + 1] && tail[i + 1] == chain[i + 2];
      assert DependsOn(tasks, chain[i + 1], chain[i + 2]);
    }
  }

  /**
   * Success only follows success: when the first task of a dependency
   * chain succeeded, so did every task the chain reaches. Hence no task
   * downstream of a failed or skipped one ever succeeds.
   */
  lemma SuccessNeedsSucceededAncestors(tasks: seq<Task>, invoke: Invoke, json: Value -> string, chain: seq<string>)
    requires UniqueIds(tasks) && chain != [] && DependencyChain(tasks, chain)
    requires DepSucceeded(Run(tasks, Empty, invoke, json).results, chain[0])
    ensures forall i :: 0 <= i < |chain| ==> DepSucceeded(Run(tasks, Empty, invoke, json).results, chain[i])
  {
    var results := Run(tasks, Empty, invoke, json).results;
    forall t | t in tasks && DepSucceeded(results, t.id) ensures Executable(t, results) {
      SuccessNeedsSucceededDependencies(tasks, invoke, json, t);
    }
    ChainSucceeds(tasks, results, chain);
  }

  lemma SettledCascades(t: Task, rs: seq<Task>, results: ResultMap, invoke: Invoke, json: Value -> string, i: nat)
    requires Settled(t, rs, results, invoke, json) && i < |t.dependsOn|
    requires DepFailed(results, t.dependsOn[i])
    ensures Cascaded(t, rs, results)
  {
    assert !DepSucceeded(results, t.dependsOn[i]);
    assert HasFailedDependency(t, results);
  }

  /** A dependency recorded as Failed makes the cascade skip the task: one Skipped report and a Skipped record. */
  lemma FailedDependencySkips(tasks: seq<Task>, invoke: Invoke, json: Value -> string, t: Task, i: nat)
    requires UniqueIds(tasks) && t in tasks && i < |t.dependsOn|
    requires DepFailed(Run(tasks, Empty, invoke, json).results, t.dependsOn[i])
    ensures ReportsOf(Run(tasks, Empty, invoke, json).reports, t.id) == [CascadeReport(t)]
    ensures t.id in Run(tasks, Empty, invoke, json).results.entries
    ensures Run(tasks, Empty, invoke, json).results.entries[t.id] == CascadeRecord(t)
  {
    var tr := Run(tasks, Empty, invoke, json);
    var rs := ReportsOf(tr.reports, t.id);
    PlanSettles(tasks, invoke, json);
    assert Settled(t, rs, tr.results, invoke, json);
    SettledCascades(t, rs, tr.results, invoke, json, i);
    assert Cascaded(t, rs, tr.results);
  }

  /**
   * Only a Failed dependency sets off the cascade: a task none of whose
   * dependencies is recorded Failed (a Skipped one included) is never
   * cascade-skipped, and any record it has is its own outcome.
   */
  lemma OnlyFailureCascades(tasks: seq<Task>, invoke: Invoke, json: Value -> string, t: Task)
    requires UniqueIds(tasks) && t in tasks
    requires !HasFailedDependency(t, Run(tasks, Empty, invoke, json).results)
    ensures ReportsOf(Run(tasks, Empty, invoke, json).reports, t.id) != [CascadeReport(t)]
    ensures t.id in Run(tasks, Empty, invoke, json).results.entries ==>
      Run(tasks, Empty, invoke, json).results.entries[t.id].status != Skipped
  {
    PlanSettles(tasks, invoke, json);
    var tr := Run(tasks, Empty, invoke, json);
    SettledWithoutFailure(t, ReportsOf(tr.reports, t.id), tr.results, invoke, json);
  }

  lemma SettledWithoutFailure(t: Task, rs: seq<Task>, results: ResultMap, invoke: Invoke, json: Value -> string)
    requires Settled(t, rs, results, invoke, json) && !HasFailedDependency(t, results)
    ensures rs != [CascadeReport(t)]
    ensures t.id in results.entries ==> results.entries[t.id].status != Skipped
  {
    if Deadlocked(t, rs, results) {
      assert CascadeReportMessage[15] != DeadlockMessage[15];
      assert CascadeReport(t).error != DeadlockReport(t).error;
    }
  }

  /**
   * A dependency that never succeeded (it failed, was skipped, is part of
   * a cycle, or names no task) means the task never runs: its only report
   * is Skipped.
   */
  lemma UnmetDependencySkips(tasks: seq<Task>, invoke: Invoke, json: Value -> string, t: Task, i: nat)
    requires UniqueIds(tasks) && t in tasks && i < |t.dependsOn|
    requires !DepSucceeded(Run(tasks, Empty, invoke, json).results, t.dependsOn[i])
    ensures Statuses(ReportsOf(Run(tasks, Empty, invoke, json).reports, t.id)) == [Skipped]
  {
    PlanSettles(tasks, invoke, json);
    var tr := Run(tasks, Empty, invoke, json);
    SettledUnmetSkips(t, ReportsOf(tr.reports, t.id), tr.results, invoke, json, i);
  }

  lemma SettledUnmetSkips(t: Task, rs: seq<Task>, results: ResultMap, invoke: Invoke, json: Value -> string, i: nat)
    requires Settled(t, rs, results, invoke, json) && i < |t.dependsOn|
    requires !DepSucceeded(results, t.dependsOn[i])
    ensures Statuses(rs) == [Skipped]
  {
    assert !Executable(t, results);
  }

  /** The first wave is exactly the tasks with no dependencies. */
  lemma FirstWaveIsRoots(tasks: seq<Task>)
    ensures forall t :: t in Frontier(tasks, Empty) <==> t in tasks && t.dependsOn == []
  {
    forall t | t in tasks && t.dependsOn != [] ensures !Executable(t, Empty) {
      assert !DepSucceeded(Empty, t.dependsOn[0]);
    }
  }

  /** The run opens by reporting every root task Running, in plan order. */
  lemma RunStartsWithRoots(tasks: seq<Task>, invoke: Invoke, json: Value -> string)
    requires Frontier(tasks, Empty) != []
    ensures var roots := Frontier(tasks, Empty);
      Run(tasks, Empty, invoke, json).reports[..|roots|] == RunningReports(roots)
  {
    RunOpensWithFrontier(tasks, Empty, invoke, json);
  }

  /** A run with something executable opens with the Running reports of its first frontier. */
  lemma RunOpensWithFrontier(remaining: seq<Task>, results: ResultMap, invoke: Invoke, json: Value -> string)
    requires Frontier(remaining, results) != []
    ensures var f := Frontier(remaining, results);
      |f| <= |Run(remaining, results, invoke, json).reports|
      && Run(remaining, results, invoke, json).reports[..|f|] == RunningReports(f)
  {
    var f := Frontier(remaining, results);
    var w := RunRound(remaining, results, invoke, json);
    RoundOpensWithFrontier(remaining, results, invoke, json);
    var rest := Run(w.remaining, w.results, invoke, json);
    assert Run(remaining, results, invoke, json).reports == w.reports + rest.reports;
    PrefixOfConcat(w.reports, rest.reports);
    assert w.reports[..|f|] == (w.reports + rest.reports)[..|w.reports|][..|f|];
  }

  /** A round opens with the Running reports of its frontier. */
  lemma RoundOpensWithFrontier(remaining: seq<Task>, results: ResultMap, invoke: Invoke, json: Value -> string)
    requires Frontier(remaining, results) != []
    ensures var f := Frontier(remaining, results);
      |f| <= |RunRound(remaining, results, invoke, json).reports|
      && RunRound(remaining, results, invoke, json).reports[..|f|] == RunningReports(f)
  {
    var p := RoundHasPieces(remaining, results, invoke, json);
    assert RunRound(remaining, results, invoke, json).reports == RoundReports(p);
    RoundReportsOpen(p);
  }

  lemma RoundReportsOpen(p: Pieces)
    ensures |p.frontier| <= |RoundReports(p)| && RoundReports(p)[..|p.frontier|] == RunningReports(p.frontier)
  {
    var opening := RunningReports(p.frontier);
    var later := OutcomeReports(p.outcomes) + CascadeReports(p.skipped);
    assert RoundReports(p) == opening + later;
    PrefixOfConcat(opening, later);
  }

  /**
   * A plan in which every task has a dependency never runs anything: one
   * iteration reports every task Skipped and records nothing. Cycles,
   * self-dependencies and dangling ids all end this way when no root exists.
   */
  lemma NoRootsDeadlock(tasks: seq<Task>, invoke: Invoke, json: Value -> string)
    requires tasks != []
    requires forall t :: t in tasks ==> t.dependsOn != []
    ensures Run(tasks, Empty, invoke, json) == Trace(DeadlockReports(tasks), Empty, 1)
  {
    forall t | t in tasks ensures !Executable(t, Empty) {
      assert !DepSucceeded(Empty, t.dependsOn[0]);
    }
    FilterNone(tasks, (t: Task) => Executable(t, Empty));
  }

  /**
   * The results handed to the summariser: one per task that ran or was
   * cascade-skipped, each for a task of the plan, with distinct ids and a
   * terminal status.
   */
  lemma FinalResultsAreTerminal(plan: ExecutionPlan, goal: string, invoke: Invoke, json: Value -> string,
                                summarize: Summarizer)
    requires UniqueIds(plan.tasks)
    ensures var fr := ExecutePlan(plan, goal, invoke, json, summarize).finalResults;
      && (forall i :: 0 <= i < |fr| ==> fr[i].id in IdSet(plan.tasks) && IsTerminal(fr[i].status))
      && (forall i, j :: 0 <= i < j < |fr| ==> fr[i].id != fr[j].id)
  {
    PlanSettles(plan.tasks, invoke, json);
    var tr := Run(plan.tasks, Empty, invoke, json);
    var fr := Values(tr.results);
    assert ExecutePlan(plan, goal, invoke, json, summarize).finalResults == fr;
    KeysCarryIds(plan.tasks, invoke, json);
    forall i | 0 <= i < |fr| ensures fr[i].id in IdSet(plan.tasks) && IsTerminal(fr[i].status) {
      assert tr.results.order[i] in tr.results.entries;
    }
    forall i, j | 0 <= i < j < |fr| ensures fr[i].id != fr[j].id {
      assert tr.results.order[i] in tr.results.entries && tr.results.order[j] in tr.results.entries;
    }
  }
}
