/**
 * A whole session as App.tsx wires it: a submitted goal's plan is run by
 * the scheduler, every report goes through `onUpdateTask`, and the summary
 * through `onSetFinalResult`.
 */
module Session {
  import opened Wrappers
  import opened Types
  import opened ResultStore
  import opened Engine
  import opened EngineProofs
  import opened EngineTheorems
  import opened App

  /** The reports applied in order, each through `onUpdateTask`. */
  function ApplyReports(state: Option<AgentState>, reports: seq<Task>): Option<AgentState>
    decreases |reports|
  {
    if reports == [] then state
    else ApplyUpdate(ApplyReports(state, reports[..|reports| - 1]), reports[|reports| - 1])
  }

  /** The task as the last of its reports left it, or unchanged when it has none. */
  function Latest(t: Task, rs: seq<Task>): Task {
    if rs == [] then t else rs[|rs| - 1]
  }

  lemma ReportsOfSnoc(rs: seq<Task>, r: Task, x: string)
    ensures ReportsOf(rs + [r], x) == ReportsOf(rs, x) + (if r.id == x then [r] else [])
  {
    ReportsOfConcat(rs, [r], x);
    ReportsOfCons([r], x);
    assert [r][1..] == [];
  }

  /**
   * After a sequence of reports every plan task shows its last report, and
   * the plan keeps its length and ids; goal, final result and done flag
   * are untouched.
   */
  lemma {:induction false} ApplyReportsShowsLatest(state: Option<AgentState>, reports: seq<Task>)
    requires state.Some? && state.value.plan.Some?
    ensures var s := ApplyReports(state, reports);
      && s.Some? && s.value.plan.Some?
      && s.value.goal == state.value.goal && s.value.finalResult == state.value.finalResult
      && s.value.isDone == state.value.isDone
      && |s.value.plan.value.tasks| == |state.value.plan.value.tasks|
      && Ids(s.value.plan.value.tasks) == Ids(state.value.plan.value.tasks)
      && forall k :: 0 <= k < |state.value.plan.value.tasks| ==>
           var t := state.value.plan.value.tasks[k];
           s.value.plan.value.tasks[k] == Latest(t, ReportsOf(reports, t.id))
    decreases |reports|
  {
    if reports != [] {
      var init := reports[..|reports| - 1];
      var r := reports[|reports| - 1];
      assert reports == init + [r];
      ApplyReportsShowsLatest(state, init);
      var before := state.value.plan.value.tasks;
      var mid := ApplyReports(state, init).value.plan.value.tasks;
      var after := ApplyReports(state, reports).value.plan.value.tasks;
      LatestStep(before, mid, after, init, r);
    }
  }

  /** One more report moves every task it names to that report and leaves the others showing their last one. */
  lemma LatestStep(before: seq<Task>, mid: seq<Task>, after: seq<Task>, init: seq<Task>, r: Task)
    requires |mid| == |before| && |after| == |mid| && Ids(mid) == Ids(before)
    requires forall k :: 0 <= k < |before| ==> mid[k] == Latest(before[k], ReportsOf(init, before[k].id))
    requires forall i :: 0 <= i < |mid| && mid[i].id == r.id ==> after[i] == r
    requires forall i :: 0 <= i < |mid| && mid[i].id != r.id ==> after[i] == mid[i]
    ensures forall k :: 0 <= k < |before| ==> after[k] == Latest(before[k], ReportsOf(init + [r], before[k].id))
  {
    forall k | 0 <= k < |before| ensures after[k] == Latest(before[k], ReportsOf(init + [r], before[k].id)) {
      ReportsOfSnoc(init, r, before[k].id);
      assert Ids(mid)[k] == Ids(before)[k];
    }
  }

  /**
   * The end of `executePlan`: a summary that resolves goes through
   * `onSetFinalResult`; one that rejects ends the call before it, so the
   * state stays as the reports left it.
   */
  function Finish(state: Option<AgentState>, summary: Result<string, string>): Option<AgentState> {
    if summary.Ok? then SetFinalResult(state, summary.value) else state
  }

  /** The agent state and the hook's `isRunning` flag once `executePlan` has returned or rejected. */
  datatype SessionEnd = SessionEnd(agent: Option<AgentState>, isRunning: bool)

  /**
   * A submitted plan run through the reducers: every report, then the
   * summary; `setIsRunning(false)` is only reached after the summary resolved.
   */
  function RunSession(ui: Ui, goal: string, plan: ExecutionPlan, invoke: Invoke, json: Value -> string,
                      summarize: Summarizer): SessionEnd
  {
    var e := ExecutePlan(plan, goal, invoke, json, summarize);
    SessionEnd(Finish(ApplyReports(Submit(ui, false, goal, Ok(plan)).settled.agent, e.reports), e.summary), e.summary.Err?)
  }

  /**
   * Submitting a goal whose plan has unique ids and letting the run
   * finish leaves every task showing a terminal status: none is left
   * Queued or Running. When the summary resolves the state is done and
   * holds it, and the hook stops running; when it rejects, the state is
   * never marked done and the hook stays running.
   */
  lemma RunLeavesNothingPending(ui: Ui, goal: string, plan: ExecutionPlan, invoke: Invoke, json: Value -> string,
                                summarize: Summarizer)
    requires UniqueIds(plan.tasks)
    ensures var e := ExecutePlan(plan, goal, invoke, json, summarize);
      var o := RunSession(ui, goal, plan, invoke, json, summarize);
      && o.agent.Some? && o.agent.value.goal == goal
      && o.agent.value.plan.Some? && |o.agent.value.plan.value.tasks| == |plan.tasks|
      && (forall k :: 0 <= k < |plan.tasks| ==>
           o.agent.value.plan.value.tasks[k].id == plan.tasks[k].id && IsTerminal(o.agent.value.plan.value.tasks[k].status))
      && (e.summary.Ok? ==> o.agent.value.isDone && o.agent.value.finalResult == Some(e.summary.value) && !o.isRunning)
      && (e.summary.Err? ==> !o.agent.value.isDone && o.agent.value.finalResult.None? && o.isRunning)
  {
    var e := ExecutePlan(plan, goal, invoke, json, summarize);
    var reports := Run(plan.tasks, Empty, invoke, json).reports;
    assert e.reports == reports;
    var start := Submit(ui, false, goal, Ok(plan)).settled.agent;
    assert start == Some(AgentState(goal, Some(plan), None, false));
    ApplyReportsShowsLatest(start, reports);
    ReportLifecycle(plan.tasks, invoke, json);
    var shown := ApplyReports(start, reports).value.plan.value.tasks;
    forall k | 0 <= k < |plan.tasks| ensures shown[k].id == plan.tasks[k].id && IsTerminal(shown[k].status) {
      var t := plan.tasks[k];
      var rs := ReportsOf(reports, t.id);
      assert t in plan.tasks;
      assert Statuses(rs) in {[Running, Succeeded], [Running, Failed], [Skipped]};
      assert Statuses(rs)[|rs| - 1] == rs[|rs| - 1].status;
      assert Ids(shown)[k] == Ids(plan.tasks)[k];
    }
  }
}
