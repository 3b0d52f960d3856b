/**
 * The wave scheduler `executePlan` (hooks/useExecutionEngine.ts).
 *
 * The run is a recursive function over the tasks not yet handled. Each
 * round computes the frontier of tasks whose dependencies all succeeded,
 * runs it, drops it, and skips the tasks left with a failed dependency;
 * a round with an empty frontier skips everything left and ends the run.
 * Every `onUpdateTask` call is a report in the returned trace.
 *
 * Within a round the source starts every frontier task before awaiting
 * any of them, so every Running report precedes the outcomes and every
 * task reads the results recorded before the round. The model reports the
 * outcomes in frontier order, one of the orders the source allows.
 */
module Engine {
  import opened Wrappers
  import opened Types
  import opened ResultStore
  import opened Tools
  import opened Seqs

  const DeadlockMessage: string := "Skipped due to unmet or failed dependencies."
  const CascadeReportMessage: string := "Skipped due to a failed dependency."
  const CascadeResultMessage: string := "Dependency failed"
  const UnknownErrorMessage: string := "An unknown error occurred"

  /** The tool invocation: a tool, its arguments and the dependency record, to a value or an error message. */
  type Invoke = (ToolName, Args, Deps) -> Result<Value, string>

  function IdSet(ts: seq<Task>): set<string> {
    set t | t in ts :: t.id
  }

  /** `d` has a result, and it is Succeeded. */
  predicate DepSucceeded(results: ResultMap, d: string) {
    Get(results, d).Some? && Get(results, d).value.status == Succeeded
  }

  /** Every id the task depends on has a Succeeded result. */
  predicate Executable(t: Task, results: ResultMap) {
    forall i :: 0 <= i < |t.dependsOn| ==> DepSucceeded(results, t.dependsOn[i])
  }

  /** `d` has a result, and it is Failed. */
  predicate DepFailed(results: ResultMap, d: string) {
    Get(results, d).Some? && Get(results, d).value.status == Failed
  }

  /** Some id the task depends on has a Failed result. */
  predicate HasFailedDependency(t: Task, results: ResultMap) {
    exists i :: 0 <= i < |t.dependsOn| && DepFailed(results, t.dependsOn[i])
  }

  /** The tasks that may run now, in list order. */
  function Frontier(remaining: seq<Task>, results: ResultMap): (f: seq<Task>)
    ensures forall t :: t in f <==> t in remaining && Executable(t, results)
  {
    Filter(remaining, (t: Task) => Executable(t, results))
  }

  /** The tasks whose ids are not in `ids`, in list order. */
  function WithoutIds(ts: seq<Task>, ids: set<string>): (r: seq<Task>)
    ensures forall t :: t in r <==> t in ts && t.id !in ids
    ensures (exists t :: t in ts && t.id in ids) ==> |r| < |ts|
    ensures |r| <= |ts|
  {
    Filter(ts, (t: Task) => t.id !in ids)
  }

  /** The raw value recorded for `d`; `undefined` when there is none. */
  function RecordedValue(results: ResultMap, d: string): Value {
    match Get(results, d)
    case Some(r) => r.result
    case None => Undefined
  }

  /** The ids of a dependency record, in order. */
  function DepKeys(deps: Deps): (keys: seq<string>)
    ensures |keys| == |deps|
    ensures forall i :: 0 <= i < |deps| ==> keys[i] == deps[i].0
  {
    if deps == [] then [] else [deps[0].0] + DepKeys(deps[1..])
  }

  /** The position of the first occurrence of `x` in `s`. */
  function FirstIndex(s: seq<string>, x: string): (i: nat)
    requires x in s
    ensures i < |s| && s[i] == x && x !in s[..i]
  {
    if s[0] == x then 0
    else
      var j := FirstIndex(s[1..], x);
      assert s[..j + 1] == [s[0]] + s[1..][..j];
      j + 1
  }

  /** Appending an element keeps the first positions of the elements already present. */
  lemma {:induction false} FirstIndexSnoc(s: seq<string>, y: string, x: string)
    requires x in s + [y]
    ensures x in s ==> FirstIndex(s + [y], x) == FirstIndex(s, x)
    ensures x !in s ==> FirstIndex(s + [y], x) == |s|
  {
    if s != [] && s[0] != x {
      assert (s + [y])[1..] == s[1..] + [y];
      FirstIndexSnoc(s[1..], y, x);
    }
  }

  /**
   * The dependency record: each id of `dependsOn`, once, with the raw value
   * recorded for it.
   */
  function BuildDeps(dependsOn: seq<string>, results: ResultMap): (deps: Deps)
    ensures forall d :: d in DepKeys(deps) <==> d in dependsOn
    ensures forall i :: 0 <= i < |deps| ==> deps[i].1 == RecordedValue(results, deps[i].0)
    ensures forall i, j :: 0 <= i < j < |deps| ==> deps[i].0 != deps[j].0
    decreases |dependsOn|
  {
    if dependsOn == [] then []
    else
      var init := dependsOn[..|dependsOn| - 1];
      var d := dependsOn[|dependsOn| - 1];
      var acc := BuildDeps(init, results);
      assert dependsOn == init + [d];
      if d in DepKeys(acc) then acc
      else
        var deps := acc + [(d, RecordedValue(results, d))];
        assert DepKeys(deps) == DepKeys(acc) + [d];
        deps
  }

  /** Every id of the record occurs in `ds`, and the record lists them in order of first occurrence. */
  ghost predicate InFirstAppearanceOrder(deps: Deps, ds: seq<string>) {
    && (forall i :: 0 <= i < |deps| ==> deps[i].0 in ds)
    && (forall i, j :: 0 <= i < j < |deps| ==> FirstIndex(ds, deps[i].0) < FirstIndex(ds, deps[j].0))
  }

  /** The record lists the ids in order of their first appearance in `dependsOn`. */
  lemma {:induction false} BuildDepsFollowsFirstAppearance(dependsOn: seq<string>, results: ResultMap)
    ensures InFirstAppearanceOrder(BuildDeps(dependsOn, results), dependsOn)
    decreases |dependsOn|
  {
    if dependsOn != [] {
      var init := dependsOn[..|dependsOn| - 1];
      var d := dependsOn[|dependsOn| - 1];
      var acc := BuildDeps(init, results);
      assert dependsOn == init + [d];
      BuildDepsFollowsFirstAppearance(init, results);
      OrderSurvivesSnoc(acc, init, d);
      if d in DepKeys(acc) {
        assert BuildDeps(dependsOn, results) == acc;
      } else {
        assert BuildDeps(dependsOn, results) == acc + [(d, RecordedValue(results, d))];
        OrderTakesNewId(acc, init, d, RecordedValue(results, d));
      }
    }
  }

  lemma OrderSurvivesSnoc(acc: Deps, init: seq<string>, d: string)
    requires InFirstAppearanceOrder(acc, init)
    ensures InFirstAppearanceOrder(acc, init + [d])
  {
    forall i | 0 <= i < |acc| ensures FirstIndex(init + [d], acc[i].0) == FirstIndex(init, acc[i].0) {
      FirstIndexSnoc(init, d, acc[i].0);
    }
  }

  lemma OrderTakesNewId(acc: Deps, init: seq<string>, d: string, v: Value)
    requires InFirstAppearanceOrder(acc, init) && d !in init
    ensures InFirstAppearanceOrder(acc + [(d, v)], init + [d])
  {
    OrderSurvivesSnoc(acc, init, d);
    FirstIndexSnoc(init, d, d);
    var deps := acc + [(d, v)];
    forall i | 0 <= i < |acc| ensures FirstIndex(init + [d], acc[i].0) < |init| {
      FirstIndexSnoc(init, d, acc[i].0);
    }
    forall i, j | 0 <= i < j < |deps|
      ensures FirstIndex(init + [d], deps[i].0) < FirstIndex(init + [d], deps[j].0)
    {
      assert deps[i] == acc[i];
      if j < |acc| {
        assert deps[j] == acc[j];
      }
    }
  }

  /** The message a failed task records: the error's message, or a fallback when it has none. */
  function ErrorText(message: string): (text: string)
    ensures text != ""
    ensures message != "" ==> text == message
    ensures message == "" ==> text == UnknownErrorMessage
  {
    if message == "" then UnknownErrorMessage else message
  }

  /**
   * The display form of a raw result: a string as itself, anything else as
   * its JSON text; `JSON.stringify(undefined)` is itself `undefined`, so an
   * undefined result shows as none.
   */
  function Display(v: Value, json: Value -> string): Option<string> {
    if v.Str? then Some(v.s) else if v.Undefined? then None else Some(json(v))
  }

  /** The report that announces a recorded outcome. */
  function OutcomeReport(t: Task, r: TaskResult, json: Value -> string): Task {
    if r.status == Succeeded then t.(status := Succeeded, result := Display(r.result, json))
    else t.(status := Failed, error := r.error, result := None)
  }

  /**
   * Runs one frontier task against the results recorded before its round:
   * the result it records, and the report of its outcome. A failure is
   * captured here and never escapes the round.
   */
  function ExecuteTask(t: Task, results: ResultMap, invoke: Invoke, json: Value -> string): (out: (TaskResult, Task))
    ensures out.0.id == t.id
    ensures out.0.status == Succeeded || out.0.status == Failed
    ensures out.0.status == Failed ==> out.0.result == Null && out.0.error.Some? && out.0.error.value != ""
    ensures out.0.status == Succeeded ==> out.0.error.None?
    ensures out.1 == OutcomeReport(t, out.0, json)
    ensures invoke(t.tool, t.args, BuildDeps(t.dependsOn, results)).Ok? <==> out.0.status == Succeeded
    ensures var called := invoke(t.tool, t.args, BuildDeps(t.dependsOn, results));
      called.Ok? ==> out.0 == TaskResult(t.id, Succeeded, called.value, None)
    ensures var called := invoke(t.tool, t.args, BuildDeps(t.dependsOn, results));
      called.Err? ==> out.0 == TaskResult(t.id, Failed, Null, Some(ErrorText(called.error)))
  {
    match invoke(t.tool, t.args, BuildDeps(t.dependsOn, results))
    case Ok(v) =>
      (TaskResult(t.id, Succeeded, v, None), t.(status := Succeeded, result := Display(v, json)))
    case Err(m) =>
      var msg := ErrorText(m);
      (TaskResult(t.id, Failed, Null, Some(msg)), t.(status := Failed, error := Some(msg), result := None))
  }

  /** `{...t, status: Running}` for each task. */
  function RunningReports(ts: seq<Task>): (rs: seq<Task>)
    ensures |rs| == |ts|
    ensures forall i :: 0 <= i < |ts| ==> rs[i] == ts[i].(status := Running)
  {
    MapSeq(ts, (t: Task) => t.(status := Running))
  }

  function DeadlockReport(t: Task): Task {
    t.(status := Skipped, error := Some(DeadlockMessage))
  }

  /** The deadlock branch's report for each task left. */
  function DeadlockReports(ts: seq<Task>): (rs: seq<Task>)
    ensures |rs| == |ts|
    ensures forall i :: 0 <= i < |ts| ==> rs[i] == DeadlockReport(ts[i])
  {
    MapSeq(ts, DeadlockReport)
  }

  function CascadeReport(t: Task): Task {
    t.(status := Skipped, error := Some(CascadeReportMessage))
  }

  function CascadeRecord(t: Task): TaskResult {
    TaskResult(t.id, Skipped, Null, Some(CascadeResultMessage))
  }

  /** Every frontier task run against the results recorded before the round, in frontier order. */
  function RoundOutcomes(frontier: seq<Task>, results: ResultMap, invoke: Invoke, json: Value -> string): (os: seq<(TaskResult, Task)>)
    ensures |os| == |frontier|
    ensures forall i :: 0 <= i < |frontier| ==> os[i] == ExecuteTask(frontier[i], results, invoke, json)
  {
    MapSeq(frontier, (t: Task) => ExecuteTask(t, results, invoke, json))
  }

  function OutcomeRecords(os: seq<(TaskResult, Task)>): (rs: seq<TaskResult>)
    ensures |rs| == |os|
    ensures forall i :: 0 <= i < |os| ==> rs[i] == os[i].0
  {
    MapSeq(os, (o: (TaskResult, Task)) => o.0)
  }

  function OutcomeReports(os: seq<(TaskResult, Task)>): (rs: seq<Task>)
    ensures |rs| == |os|
    ensures forall i :: 0 <= i < |os| ==> rs[i] == os[i].1
  {
    MapSeq(os, (o: (TaskResult, Task)) => o.1)
  }

  /** The tasks left after the frontier that have a failed dependency, in list order. */
  function CascadeSet(left: seq<Task>, results: ResultMap): (c: seq<Task>)
    ensures forall t :: t in c <==> t in left && HasFailedDependency(t, results)
  {
    Filter(left, (t: Task) => HasFailedDependency(t, results))
  }

  function CascadeReports(ts: seq<Task>): (rs: seq<Task>)
    ensures |rs| == |ts|
    ensures forall i :: 0 <= i < |ts| ==> rs[i] == CascadeReport(ts[i])
  {
    MapSeq(ts, CascadeReport)
  }

  function CascadeRecords(ts: seq<Task>): (rs: seq<TaskResult>)
    ensures |rs| == |ts|
    ensures forall i :: 0 <= i < |ts| ==> rs[i] == CascadeRecord(ts[i])
  {
    MapSeq(ts, CascadeRecord)
  }

  /** What one round leaves behind: its reports, the results so far, and the tasks still to handle. */
  datatype Round = Round(reports: seq<Task>, results: ResultMap, remaining: seq<Task>)

  /** One round with a non-empty frontier: run it, drop it, then skip the tasks left with a failed dependency. */
  function RunRound(remaining: seq<Task>, results: ResultMap, invoke: Invoke, json: Value -> string): (w: Round)
    requires Frontier(remaining, results) != []
    ensures |w.remaining| < |remaining|
    ensures forall t :: t in w.remaining ==> t in remaining && !Executable(t, results)
    ensures forall t :: t in w.remaining ==> !HasFailedDependency(t, w.results)
  {
    var frontier := Frontier(remaining, results);
    var outcomes := RoundOutcomes(frontier, results, invoke, json);
    var afterRun := Record(results, OutcomeRecords(outcomes));
    var left := WithoutIds(remaining, IdSet(frontier));
    assert frontier[0] in remaining && frontier[0].id in IdSet(frontier);
    var skipped := CascadeSet(left, afterRun);
    var afterSkip := Record(afterRun, CascadeRecords(skipped));
    var left' := WithoutIds(left, IdSet(skipped));
    assert forall t :: t in left' ==> !HasFailedDependency(t, afterSkip) by {
      forall t | t in left' ensures !HasFailedDependency(t, afterSkip) {
        CascadeKeepsOutcomes(afterRun, skipped, t);
      }
    }
    Round(
      RunningReports(frontier) + OutcomeReports(outcomes) + CascadeReports(skipped),
      afterSkip,
      left')
  }

  /** Recording cascade skips never adds or overwrites a Failed result a remaining task depends on. */
  lemma CascadeKeepsOutcomes(m: ResultMap, skipped: seq<Task>, t: Task)
    requires !HasFailedDependency(t, m)
    ensures !HasFailedDependency(t, Record(m, CascadeRecords(skipped)))
    decreases |skipped|
  {
    if skipped != [] {
      var m1 := Set(m, skipped[0].id, CascadeRecord(skipped[0]));
      assert !HasFailedDependency(t, m1);
      assert CascadeRecords(skipped)[1..] == CascadeRecords(skipped[1..]);
      CascadeKeepsOutcomes(m1, skipped[1..], t);
    }
  }

  /** The reports of a whole run, the final results, and the number of loop iterations. */
  datatype Trace = Trace(reports: seq<Task>, results: ResultMap, iterations: nat)

  /**
   * The `while` loop from a given set of remaining tasks and results. It
   * stops after at most one iteration per task, because every iteration
   * but the last removes at least one task.
   */
  function Run(remaining: seq<Task>, results: ResultMap, invoke: Invoke, json: Value -> string): (tr: Trace)
    ensures tr.iterations <= |remaining|
    ensures remaining != [] <==> tr.iterations >= 1
    decreases |remaining|
  {
    if remaining == [] then Trace([], results, 0)
    else if Frontier(remaining, results) == [] then
      Trace(DeadlockReports(remaining), results, 1)
    else
      var w := RunRound(remaining, results, invoke, json);
      var rest := Run(w.remaining, w.results, invoke, json);
      Trace(w.reports + rest.reports, rest.results, rest.iterations + 1)
  }

  /** The summariser `generateFinalSummary`: the goal and the recorded results to a summary, or the error it rejects with. */
  type Summarizer = (string, seq<TaskResult>) -> Result<string, string>

  /**
   * What a whole `executePlan` call produces: every report, the results
   * handed to the summariser, and the summary or the summariser's error.
   */
  datatype Execution = Execution(reports: seq<Task>, finalResults: seq<TaskResult>, summary: Result<string, string>)

  /** `executePlan`: run the plan from an empty result map, then summarise the recorded results. */
  function ExecutePlan(
    plan: ExecutionPlan, goal: string, invoke: Invoke, json: Value -> string,
    summarize: Summarizer): (e: Execution)
    ensures e.summary == summarize(goal, e.finalResults)
  {
    var tr := Run(plan.tasks, Empty, invoke, json);
    EmptyIsValid();
    RunKeepsValid(plan.tasks, Empty, invoke, json);
    var finalResults := Values(tr.results);
    Execution(tr.reports, finalResults, summarize(goal, finalResults))
  }

  lemma {:induction false} RunKeepsValid(remaining: seq<Task>, results: ResultMap, invoke: Invoke, json: Value -> string)
    requires Valid(results)
    ensures Valid(Run(remaining, results, invoke, json).results)
    decreases |remaining|
  {
    if remaining != [] && Frontier(remaining, results) != [] {
      var w := RunRound(remaining, results, invoke, json);
      RunKeepsValid(w.remaining, w.results, invoke, json);
    }
  }
}
