/**
 * The data model shared by the planner, the tools, the execution engine and
 * the application state (types.ts).
 */
module Types {
  import opened Wrappers

  /** The lifecycle of a task. Queued is the initial state; the last three are terminal. */
  datatype Status = Queued | Running | Succeeded | Failed | Skipped

  predicate IsTerminal(s: Status) {
    s == Succeeded || s == Failed || s == Skipped
  }

  /** The string value each status carries in the source enum. */
  function StatusText(s: Status): string {
    match s
    case Queued => "queued"
    case Running => "running"
    case Succeeded => "succeeded"
    case Failed => "failed"
    case Skipped => "skipped"
  }

  /** Reads a status back from its enum text; any other text is no status. */
  function ParseStatus(text: string): (r: Option<Status>)
    ensures r.Some? ==> StatusText(r.value) == text
    ensures (forall s: Status :: StatusText(s) != text) ==> r.None?
  {
    if text == "queued" then Some(Queued)
    else if text == "running" then Some(Running)
    else if text == "succeeded" then Some(Succeeded)
    else if text == "failed" then Some(Failed)
    else if text == "skipped" then Some(Skipped)
    else None
  }

  /** Every status survives the round trip through its enum text. */
  lemma StatusTextRoundTrip(s: Status)
    ensures ParseStatus(StatusText(s)) == Some(s)
  {
    match s
    case Queued =>
    case Running =>
    case Succeeded =>
    case Failed =>
    case Skipped =>
  }

  /** The four tools a task may name. */
  datatype ToolName = WebSearch | Calculate | GetWeather | Summarize

  /** The name under which each tool appears in a plan. */
  function ToolText(t: ToolName): string {
    match t
    case WebSearch => "webSearch"
    case Calculate => "calculate"
    case GetWeather => "getWeather"
    case Summarize => "summarize"
  }

  /** The four names of the tool union, which is also the planner's enum. */
  const ToolNames: set<string> := {"webSearch", "calculate", "getWeather", "summarize"}

  /** Resolves a tool name; a name outside the four tools resolves to nothing. */
  function ParseTool(name: string): (r: Option<ToolName>)
    ensures r.Some? ==> ToolText(r.value) == name
    ensures r.None? <==> name !in ToolNames
  {
    if name == "webSearch" then Some(WebSearch)
    else if name == "calculate" then Some(Calculate)
    else if name == "getWeather" then Some(GetWeather)
    else if name == "summarize" then Some(Summarize)
    else None
  }

  /** Every tool survives the round trip through its name, and names exactly the union. */
  lemma ToolTextRoundTrip(t: ToolName)
    ensures ParseTool(ToolText(t)) == Some(t)
    ensures ToolText(t) in ToolNames
  {
    match t
    case WebSearch =>
    case Calculate =>
    case GetWeather =>
    case Summarize =>
  }

  /**
   * The raw, untyped values that tools return and that results carry
   * (`any` in the source), as a closed tagged variant.
   */
  datatype Value =
    | Undefined
    | Null
    | Bool(b: bool)
    | Num(n: int)
    | Str(s: string)
    | Structured(fields: seq<(string, Value)>)

  /** A task's arguments: argument name to text. */
  type Args = map<string, string>

  /**
   * A task of a plan. `result` and `error` are the display forms shown to the
   * user (text or null), unlike the raw value a TaskResult records.
   */
  datatype Task = Task(
    id: string,
    description: string,
    tool: ToolName,
    args: Args,
    dependsOn: seq<string>,
    status: Status,
    result: Option<string>,
    error: Option<string>)

  /** An ordered sequence of tasks; `dependsOn` may name ids absent from it. */
  datatype ExecutionPlan = ExecutionPlan(tasks: seq<Task>)

  /** The application state the engine's reports are folded into. */
  datatype AgentState = AgentState(
    goal: string,
    plan: Option<ExecutionPlan>,
    finalResult: Option<string>,
    isDone: bool)

  /** The engine's record of a task that reached a terminal status. */
  datatype TaskResult = TaskResult(id: string, status: Status, result: Value, error: Option<string>)

  /** The ids of a task list, in order. */
  function Ids(ts: seq<Task>): (r: seq<string>)
    ensures |r| == |ts|
    ensures forall i :: 0 <= i < |ts| ==> r[i] == ts[i].id
  {
    if ts == [] then [] else [ts[0].id] + Ids(ts[1..])
  }

  /** No two tasks of the list share an id. */
  ghost predicate UniqueIds(ts: seq<Task>) {
    forall i, j :: 0 <= i < j < |ts| ==> ts[i].id != ts[j].id
  }
}
