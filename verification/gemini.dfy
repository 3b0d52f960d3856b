/**
 * The pure parts of services/geminiService.ts: turning a parsed plan into
 * tasks ready to run, and preparing the final summary from the recorded
 * results. The model calls themselves are oracles.
 */
module Gemini {
  import opened Wrappers
  import opened Types
  import opened Strings
  import opened Seqs

  /** A task as the planning model returns it: everything but status, result and error. */
  datatype RawTask = RawTask(id: string, description: string, tool: ToolName, args: Args, dependsOn: seq<string>)

  /** The fields the planning model supplies, read back from a task. */
  function Strip(t: Task): RawTask {
    RawTask(t.id, t.description, t.tool, t.args, t.dependsOn)
  }

  /** `{...task, status: Queued, result: null, error: null}`. */
  function Initialise(raw: RawTask): (t: Task)
    ensures t.status == Queued && t.result == None && t.error == None
    ensures Strip(t) == raw
  {
    Task(raw.id, raw.description, raw.tool, raw.args, raw.dependsOn, Queued, None, None)
  }

  /** The plan `generatePlan` returns for the parsed task list. */
  function InitPlan(raws: seq<RawTask>): (plan: ExecutionPlan)
    ensures |plan.tasks| == |raws|
    ensures forall i :: 0 <= i < |raws| ==>
      && Strip(plan.tasks[i]) == raws[i]
      && plan.tasks[i].status == Queued && plan.tasks[i].result == None && plan.tasks[i].error == None
  {
    ExecutionPlan(MapSeq(raws, Initialise))
  }

  /** Initialising loses nothing the model supplied: stripping gives the parsed list back. */
  lemma InitPlanRoundTrip(raws: seq<RawTask>)
    ensures MapSeq(InitPlan(raws).tasks, Strip) == raws
  {
  }

  /** Initialising keeps the ids in order, so unique ids stay unique. */
  lemma InitPlanKeepsIds(raws: seq<RawTask>)
    ensures forall i :: 0 <= i < |raws| ==> InitPlan(raws).tasks[i].id == raws[i].id
    ensures (forall i, j :: 0 <= i < j < |raws| ==> raws[i].id != raws[j].id) ==> UniqueIds(InitPlan(raws).tasks)
  {
    var plan := InitPlan(raws);
    forall i | 0 <= i < |raws| ensures plan.tasks[i].id == raws[i].id {
      assert Strip(plan.tasks[i]) == raws[i];
    }
  }

  /** Initialising a plan that is already initialised changes nothing. */
  lemma InitPlanIdempotent(raws: seq<RawTask>)
    ensures InitPlan(MapSeq(InitPlan(raws).tasks, Strip)) == InitPlan(raws)
  {
    InitPlanRoundTrip(raws);
  }

  const NoSuccessSummary: string :=
    "The process finished, but no tasks were successfully completed. Unable to provide a final summary."

  predicate IsSuccess(r: TaskResult) {
    r.status == Succeeded
  }

  /** The results whose status is Succeeded, in order. */
  function Successful(results: seq<TaskResult>): (s: seq<TaskResult>)
    ensures forall r :: r in s <==> r in results && r.status == Succeeded
  {
    Filter(results, IsSuccess)
  }

  function ContextLine(r: TaskResult, json: Value -> string): string {
    "Task " + r.id + " result: " + json(r.result)
  }

  /** One line per successful result, in order. */
  function ContextLines(results: seq<TaskResult>, json: Value -> string): (lines: seq<string>)
    ensures |lines| == |Successful(results)|
    ensures forall i :: 0 <= i < |lines| ==> lines[i] == ContextLine(Successful(results)[i], json)
  {
    MapSeq(Successful(results), (r: TaskResult) => ContextLine(r, json))
  }

  /** The context handed to the summarising model: the lines joined by newlines. */
  function SummaryContext(results: seq<TaskResult>, json: Value -> string): string {
    Join(ContextLines(results, json), '\n')
  }

  /**
   * `generateFinalSummary`: the fixed sentence when nothing succeeded,
   * otherwise whatever the summarising model `ask` answers for the goal
   * and the context, which includes its failure: the model call is not
   * caught, so its error rejects the summary.
   */
  function FinalSummary(goal: string, results: seq<TaskResult>, json: Value -> string, ask: (string, string) -> Result<string, string>): (s: Result<string, string>)
    ensures (forall r :: r in results ==> r.status != Succeeded) ==> s == Ok(NoSuccessSummary)
    ensures (exists r :: r in results && r.status == Succeeded) ==> s == ask(goal, SummaryContext(results, json))
  {
    if Successful(results) == [] then Ok(NoSuccessSummary)
    else
      assert Successful(results)[0] in Successful(results);
      ask(goal, SummaryContext(results, json))
  }

  /** With nothing successful the model is never consulted: any two models give the same summary. */
  lemma FallbackIgnoresModel(goal: string, results: seq<TaskResult>, json: Value -> string, ask1: (string, string) -> Result<string, string>, ask2: (string, string) -> Result<string, string>)
    requires forall r :: r in results ==> r.status != Succeeded
    ensures FinalSummary(goal, results, json, ask1) == FinalSummary(goal, results, json, ask2) == Ok(NoSuccessSummary)
  {
  }

  /** A result that did not succeed contributes nothing to the context, wherever it stands. */
  lemma UnsuccessfulIsIgnored(a: seq<TaskResult>, r: TaskResult, b: seq<TaskResult>, json: Value -> string)
    requires r.status != Succeeded
    ensures SummaryContext(a + [r] + b, json) == SummaryContext(a + b, json)
  {
    FilterConcat(a + [r], b, IsSuccess);
    FilterConcat(a, [r], IsSuccess);
    FilterConcat(a, b, IsSuccess);
    assert Filter([r], IsSuccess) == [];
    assert Successful(a + [r] + b) == Successful(a + b);
  }

  /**
   * When ids and JSON texts hold no newline, splitting the context at
   * newlines gives back exactly one line per successful result, in order.
   */
  lemma ContextSplitsIntoLines(results: seq<TaskResult>, json: Value -> string)
    requires Successful(results) != []
    requires forall r :: r in results ==> '\n' !in r.id && '\n' !in json(r.result)
    ensures Split(SummaryContext(results, json), '\n') == ContextLines(results, json)
  {
    var lines := ContextLines(results, json);
    forall i | 0 <= i < |lines| ensures '\n' !in lines[i] {
      var r := Successful(results)[i];
      assert r in Successful(results);
      assert lines[i] == "Task " + r.id + " result: " + json(r.result);
    }
    SplitJoin(lines, '\n');
  }
}
