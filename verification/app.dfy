/**
 * The state reducers of App.tsx that consume the scheduler's reports, and
 * the goal-submission handler. `null` states are `None`.
 */
module App {
  import opened Wrappers
  import opened Types
  import opened Seqs

  /** The plan's tasks with every task of the update's id replaced by the update. */
  function ReplaceById(tasks: seq<Task>, u: Task): (r: seq<Task>)
    ensures |r| == |tasks|
    ensures forall i :: 0 <= i < |tasks| ==> r[i] == (if tasks[i].id == u.id then u else tasks[i])
  {
    MapSeq(tasks, (t: Task) => if t.id == u.id then u else t)
  }

  /** `onUpdateTask`. */
  function ApplyUpdate(state: Option<AgentState>, u: Task): (s: Option<AgentState>)
    ensures state.None? || state.value.plan.None? ==> s == state
    ensures state.Some? ==>
      && s.Some? && s.value.goal == state.value.goal
      && s.value.finalResult == state.value.finalResult && s.value.isDone == state.value.isDone
      && s.value.plan.Some? == state.value.plan.Some?
    ensures state.Some? && state.value.plan.Some? ==>
      var before := state.value.plan.value.tasks;
      var after := s.value.plan.value.tasks;
      && |after| == |before|
      && Ids(after) == Ids(before)
      && (forall i :: 0 <= i < |before| && before[i].id == u.id ==> after[i] == u)
      && (forall i :: 0 <= i < |before| && before[i].id != u.id ==> after[i] == before[i])
  {
    if state.None? || state.value.plan.None? then state
    else
      var tasks := ReplaceById(state.value.plan.value.tasks, u);
      Some(state.value.(plan := Some(ExecutionPlan(tasks))))
  }

  /** Applying the same update twice is applying it once. */
  lemma ApplyUpdateIdempotent(state: Option<AgentState>, u: Task)
    ensures ApplyUpdate(ApplyUpdate(state, u), u) == ApplyUpdate(state, u)
  {
    if state.Some? && state.value.plan.Some? {
      var once := ApplyUpdate(state, u).value.plan.value.tasks;
      assert ReplaceById(once, u) == once;
    }
  }

  /** Updates of different tasks commute. */
  lemma ApplyUpdatesCommute(state: Option<AgentState>, u: Task, v: Task)
    requires u.id != v.id
    ensures ApplyUpdate(ApplyUpdate(state, u), v) == ApplyUpdate(ApplyUpdate(state, v), u)
  {
    if state.Some? && state.value.plan.Some? {
      var uv := ApplyUpdate(ApplyUpdate(state, u), v).value.plan.value.tasks;
      var vu := ApplyUpdate(ApplyUpdate(state, v), u).value.plan.value.tasks;
      assert uv == vu;
    }
  }

  /** `onSetFinalResult`: the result is stored and the run marked done; a `null` state stays `null`. */
  function SetFinalResult(state: Option<AgentState>, result: string): (s: Option<AgentState>)
    ensures state.None? <==> s.None?
    ensures state.Some? ==>
      && s.value.goal == state.value.goal && s.value.plan == state.value.plan
      && s.value.finalResult == Some(result) && s.value.isDone
  {
    if state.None? then None else Some(state.value.(finalResult := Some(result), isDone := true))
  }

  /** Only the last final result is kept. */
  lemma SetFinalResultLastWins(state: Option<AgentState>, a: string, b: string)
    ensures SetFinalResult(SetFinalResult(state, a), b) == SetFinalResult(state, b)
  {
  }

  /** The component's state besides the hook's: the agent state, the loading flag and the error banner. */
  datatype Ui = Ui(agent: Option<AgentState>, isLoading: bool, error: Option<string>)

  const PlanFailureMessage: string :=
    "Failed to generate a plan. The AI might be unavailable or the goal too complex. Please try again."

  /**
   * One goal submission: the state while the plan is generated, the state
   * after, and the plan handed to `executePlan`, if any.
   */
  datatype Submission = Submission(pending: Ui, settled: Ui, launched: Option<ExecutionPlan>)

  /**
   * `handleGoalSubmit`, with `planned` the outcome of `generatePlan`: an
   * exception's content is only logged, so every failure leads to the same
   * state.
   */
  function Submit(ui: Ui, isRunning: bool, goal: string, planned: Result<ExecutionPlan, string>): (s: Submission)
    ensures isRunning ==> s.pending == ui && s.settled == ui && s.launched.None?
    ensures !isRunning ==> s.pending == Ui(Some(AgentState(goal, None, None, false)), true, None)
    ensures !isRunning && planned.Ok? ==>
      && s.settled == Ui(Some(AgentState(goal, Some(planned.value), None, false)), false, None)
      && s.launched == Some(planned.value)
    ensures !isRunning && planned.Err? ==>
      s.settled == Ui(None, false, Some(PlanFailureMessage)) && s.launched.None?
    ensures s.launched.Some? <==> !isRunning && planned.Ok?
  {
    if isRunning then Submission(ui, ui, None)
    else
      var pending := Ui(Some(AgentState(goal, None, None, false)), true, None);
      match planned
      case Ok(plan) => Submission(pending, Ui(Some(AgentState(goal, Some(plan), None, false)), false, None), Some(plan))
      case Err(_) => Submission(pending, Ui(None, false, Some(PlanFailureMessage)), None)
  }

  /** How planning failed makes no difference to the state. */
  lemma PlanFailureIsUniform(ui: Ui, isRunning: bool, goal: string, e1: string, e2: string)
    ensures Submit(ui, isRunning, goal, Err(e1)) == Submit(ui, isRunning, goal, Err(e2))
  {
  }
}
