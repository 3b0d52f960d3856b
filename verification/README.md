# Autonomous AI Agent: the plan executor, modelled in Dafny

The agent turns a user's goal into an execution plan, which is a list of tasks. Each task names one of four tools and the ids of the tasks it depends on. A wave scheduler then runs the plan:

1. It repeatedly computes the frontier: the tasks whose dependencies have all been recorded as Succeeded.
2. It runs the frontier. Each task is reported Running and then Succeeded or Failed.
3. It drops the executed tasks.
4. It skips every remaining task that has a Failed dependency.
5. When nothing is executable, it skips everything left and stops.

The recorded results are then handed to a summariser. The React state reducers fold every report into the displayed plan.

This project models that core as immutable datatypes and pure functions:

- `types.dfy`: the shared datatypes of `types.ts`. These are the task status, the tool name, the task, the plan, the agent state and the raw task result.
- `results.dfy`: the engine's result map, a JavaScript `Map` that remembers insertion order.
- `engine.dfy`: `executePlan` as a recursive function over the remaining tasks. It decreases on their number. Every `onUpdateTask` call is one report in the returned trace.
- `engine_proofs.dfy` and `engine_theorems.dfy`: what a whole run guarantees. Every task ends in exactly one of three fates:
  - ran;
  - skipped by the failure cascade;
  - skipped by the deadlock branch.

  From this follow dependency gating, the cascade, the report lifecycle, and the list handed to the summariser.
- `placeholders.dfy` and `strings.dfy`: the `{{id}}` substitution loop of the tools. The loop is shown equal to a single simultaneous substitution, which gives order independence and idempotence.
- `tools.dfy`: the four tools and the dispatcher `executeTool`.
- `gemini.dfy`: the pure parts of the Gemini service. These are the plan initialisation after parsing, and the fallback and context construction of the final summary.
- `app.dfy`: the `onUpdateTask` and `onSetFinalResult` reducers and the guard and failure handling of `handleGoalSubmit`.
- `session.dfy`: a submitted plan run to completion through the reducers.
- `wrappers.dfy` and `seqs.dfy`: `Option`/`Result` and sequence helpers.

Foreign code becomes function parameters:

- **`json: Value -> string`**: `JSON.stringify`.
- **`Services`**: three oracles:
  - `search` stands for `performWebSearch`;
  - `summarize` stands for `performSummarization`;
  - `evaluate` stands for the `new Function` evaluation of an expression.
- **`invoke`**: the tool call as the engine sees it. `Tools.Invoker` builds it from `executeTool`.
- **`ask`**: the model call that writes the final summary.
- **`summarize`**: the engine's `generateFinalSummary` callback. It returns a `Result`, because the promise it stands for can reject.

The wave runs its tasks concurrently in the source. Every task of a wave reads only results recorded before the wave, and the source starts every task before awaiting any. The model therefore reports all Running updates of a wave first and then the outcomes in frontier order. That is one of the orders the source allows.

## Model

| member | source | states |
|---|---|---|
| Types.ParseStatus | types.ts:2-8 | a parsed status prints back as the parsed text, and a text that is none of the five TaskStatus values parses to nothing |
| Types.StatusTextRoundTrip | types.ts:2-8 | each of the five statuses is recovered from its text |
| Types.ParseTool | types.ts:13 | a name is a tool exactly when it is one of webSearch, calculate, getWeather, summarize |
| Types.ToolTextRoundTrip | types.ts:13 | each tool is recovered from its name, and its name is one of the four |
| ResultStore.GetSet | hooks/useExecutionEngine.ts:24-25 | reading a key after `set` gives the result just set for that key, and for any other key what it gave before |
| ResultStore.Set | hooks/useExecutionEngine.ts:51 | `set` stores the result under its key; a new key joins the end of the order, an old one keeps its place, no other entry changes, and validity is kept |
| ResultStore.Record | hooks/useExecutionEngine.ts:76-79 | setting a list of results keeps the map valid and adds exactly their ids as keys |
| ResultStore.RecordFresh | hooks/useExecutionEngine.ts:51-56 | setting results with distinct new ids keeps every old entry and stores each result under its id |
| ResultStore.Values | hooks/useExecutionEngine.ts:84 | `Array.from(values())` lists one result per key, in first-set order |
| ResultStore.ValuesIds | hooks/useExecutionEngine.ts:84 | when each result carries its own key as id, the listed results carry exactly the keys |
| Engine.Frontier | hooks/useExecutionEngine.ts:22-27 | the executable tasks are exactly the remaining tasks all of whose dependencies are recorded Succeeded |
| Engine.WithoutIds | hooks/useExecutionEngine.ts:63-64 | dropping a set of ids keeps exactly the tasks whose id is outside it, and shrinks the list when some task is dropped |
| Engine.BuildDeps | hooks/useExecutionEngine.ts:43-46 | the dependency record has exactly the task's dependsOn ids as keys, once each, each mapped to that id's recorded raw result |
| Engine.BuildDepsFollowsFirstAppearance | hooks/useExecutionEngine.ts:43-46 | the record lists the ids in the order in which `reduce` first sets them, that is, by first appearance in dependsOn |
| Engine.ErrorText | hooks/useExecutionEngine.ts:54 | a failed task's error is the thrown message, or "An unknown error occurred" when the message is empty; it is never empty |
| Engine.ExecuteTask | hooks/useExecutionEngine.ts:40-59 | a dispatched task records Succeeded with the tool's raw value when the tool call on its dependency record returned one, and otherwise Failed with a null result and the error text of the tool's message; the failure is caught and its report matches the record |
| Engine.DeadlockReports | hooks/useExecutionEngine.ts:29-37 | the deadlock branch reports every remaining task Skipped with the unmet-dependencies message |
| Engine.CascadeSet | hooks/useExecutionEngine.ts:67-72 | the cascade picks exactly the remaining tasks with some dependency recorded Failed |
| Engine.CascadeKeepsOutcomes | hooks/useExecutionEngine.ts:76-79 | recording cascade skips gives no task a Failed dependency it did not already have |
| Engine.RunRound | hooks/useExecutionEngine.ts:40-81 | a round with a non-empty frontier removes at least one task; every task left was not executable before the round and has no Failed dependency after it |
| Engine.Run | hooks/useExecutionEngine.ts:21-82 | the loop ends within as many iterations as there are tasks, and runs at least one iteration exactly when there are tasks |
| Engine.RunKeepsValid | hooks/useExecutionEngine.ts:18-82 | a run started from a valid map, such as the cleared one, leaves a valid map |
| Engine.ExecutePlan | hooks/useExecutionEngine.ts:84-86 | the summary is the summariser's answer for the goal and the list of recorded results |
| EngineProofs.RunSettles | hooks/useExecutionEngine.ts:21-82 | from fresh results, every remaining task ends with exactly one fate: it ran (Running, then its recorded outcome), or the cascade skipped it (one Skipped report and a Skipped record), or the deadlock branch skipped it (one Skipped report, no record); no other ids are reported and old entries are kept |
| EngineTheorems.PlanSettles | hooks/useExecutionEngine.ts:18-82 | with unique ids, starting from the cleared map every plan task settles as above and only plan ids are recorded or reported |
| EngineTheorems.ReportLifecycle | hooks/useExecutionEngine.ts:29-81 | every task's statuses are exactly Running then Succeeded, Running then Failed, or a single Skipped; a report changes only status, result and error; nothing else is reported |
| EngineTheorems.RecordMatchesLastReport | hooks/useExecutionEngine.ts:29-81 | every task is reported; it has a record exactly when the deadlock branch did not skip it, and the record carries its id and the status of its last report |
| EngineTheorems.OutcomeMatchesRecord | hooks/useExecutionEngine.ts:50-57 | a Succeeded task is reported Running and then Succeeded with the display form of its raw result; a Failed task is reported Running and then Failed with its non-empty recorded error and a null result |
| EngineTheorems.SuccessNeedsSucceededDependencies | hooks/useExecutionEngine.ts:22-27 | a task recorded Succeeded had every dependency recorded Succeeded |
| EngineTheorems.RecordIsToolOutcome | hooks/useExecutionEngine.ts:43-57 | the record of a task that ran is what its one tool call returned on its dependencies' recorded values: Succeeded with the raw value, or Failed with a null result and the message or "An unknown error occurred" |
| EngineTheorems.DependenciesRecordedFirst | hooks/useExecutionEngine.ts:22-27 | every dependency of a task that ran is recorded Succeeded, and was set in the result map before the task was |
| EngineTheorems.ChainRanEarlier | hooks/useExecutionEngine.ts:22-27 | when dependencies are recorded first and the head of a dependency chain ran, every later link has a Succeeded or Failed record, set before the head's |
| EngineTheorems.CycleCannotRun | hooks/useExecutionEngine.ts:22-27 | when dependencies are recorded first, the id at the head of a dependency cycle has no Succeeded or Failed record |
| EngineTheorems.CycleIsSkipped | hooks/useExecutionEngine.ts:21-38 | in any plan, also one with roots, a task on a dependency cycle or depending on itself is never reported Running and has no Succeeded or Failed record; its only report is Skipped |
| EngineTheorems.RootTaskRuns | hooks/useExecutionEngine.ts:40-59 | a task without dependencies always runs: it is reported Running, then the outcome of its tool call on an empty record, which is also what it records |
| EngineTheorems.RootWeatherSucceeds | hooks/useExecutionEngine.ts:48 | with the engine calling `executeTool`, a getWeather task without dependencies that names a location records Succeeded with the weather report and shows that sentence |
| EngineTheorems.ChainSucceeds | hooks/useExecutionEngine.ts:22-27 | along a dependency chain, success at the head reaches every link |
| EngineTheorems.SuccessNeedsSucceededAncestors | hooks/useExecutionEngine.ts:22-27 | when a task succeeded, every task it depends on, directly or transitively, succeeded; so nothing downstream of a Failed or Skipped task succeeds |
| EngineTheorems.FailedDependencySkips | hooks/useExecutionEngine.ts:67-81 | a task with a dependency recorded Failed gets exactly one report, the cascade Skipped report, and the "Dependency failed" record |
| EngineTheorems.OnlyFailureCascades | hooks/useExecutionEngine.ts:67-72 | a task without a Failed dependency is never cascade-skipped and never recorded Skipped; a Skipped dependency alone does not cascade |
| EngineTheorems.UnmetDependencySkips | hooks/useExecutionEngine.ts:22-38 | a task with a dependency not recorded Succeeded never runs; its only report is Skipped |
| EngineTheorems.FirstWaveIsRoots | hooks/useExecutionEngine.ts:22-27 | the first frontier is exactly the tasks with an empty dependsOn |
| EngineTheorems.RunStartsWithRoots | hooks/useExecutionEngine.ts:40-42 | the run opens with a Running report for every root task, in plan order |
| EngineTheorems.RunOpensWithFrontier | hooks/useExecutionEngine.ts:40-42 | any run with an executable task opens with the Running reports of its frontier |
| EngineTheorems.NoRootsDeadlock | hooks/useExecutionEngine.ts:29-38 | when every task has a dependency, as with cycles, self-dependencies and dangling ids, the run takes one iteration, reports every task Skipped and records nothing |
| EngineTheorems.FinalResultsAreTerminal | hooks/useExecutionEngine.ts:84 | the list handed to the summariser holds terminal results of plan tasks, one per id |
| EngineTheorems.FinalResultsCoverRecorded | hooks/useExecutionEngine.ts:84 | that list holds a result for a task exactly when the task ran or was cascade-skipped |
| EngineTheorems.KeysCarryIds | hooks/useExecutionEngine.ts:50-56 | every recorded result sits under its own task's id with a terminal status |
| Placeholders.PlaceholderAt | services/toolService.ts:7 | recognises a `{{id}}` with a brace-free id at the start of a text; a recognised id is the only one that starts there |
| Placeholders.SubstStepIsReplaceAll | services/toolService.ts:8-9 | the `includes` test only saves work: each step is a global literal replace |
| Placeholders.SubstituteAllWithoutPlaceholders | services/toolService.ts:8 | a text with no placeholder of any dependency id comes back unchanged |
| Placeholders.SequentialIsSimultaneous | services/toolService.ts:6-11 | when the JSON texts are safe, the one-id-at-a-time loop equals a single left-to-right substitution of all ids |
| Placeholders.SubstReplacesEvery | services/toolService.ts:6-11 | when the JSON texts are safe, no placeholder of a dependency id is left after substitution |
| Placeholders.SubstituteAllReplacesEvery | services/toolService.ts:6-11 | when the JSON texts are safe, the loop leaves no placeholder of any dependency id |
| Placeholders.SubstKeepsUnknown | services/toolService.ts:6-11 | a placeholder of an id outside the record is copied verbatim |
| Placeholders.SubstituteAllKeepsUnknown | services/toolService.ts:6-11 | when the JSON texts are safe, the loop copies a placeholder of a non-dependency id verbatim and raises no error |
| Placeholders.SubstituteAllOrderIrrelevant | services/toolService.ts:6-11 | when the JSON texts are safe, the order in which ids are visited does not matter |
| Placeholders.SubstIdempotent | services/toolService.ts:6-11 | when the JSON texts are safe, a second simultaneous substitution changes nothing |
| Placeholders.SubstituteAllIdempotent | services/toolService.ts:6-11 | when the JSON texts are safe, a second pass of the loop changes nothing |
| Placeholders.SecondPassCanChangeUnguardedText | services/toolService.ts:6-11 | with the dependency `null` valued `null`, a first pass turns `{{{{null}}}}` into `{{null}}` and a second into `null`, although no JSON text holds a placeholder; both placeholders are literal regular expressions |
| Placeholders.OrderMattersForUnguardedText | services/toolService.ts:6-11 | with ids x and t12 valued `1` and the string `"v"`, the visiting order changes the result of `{{t{{x}}2}}`, although no JSON text holds a placeholder |
| Tools.DepTexts | services/toolService.ts:9 | each dependency is replaced by the JSON text of its value, in record order |
| Tools.ResolveArgument | services/toolService.ts:4-11 | a present argument is substituted; a missing one is `undefined`, which throws the TypeError about `includes` as soon as there is a dependency to substitute |
| Tools.Calculation | services/toolService.ts:28-45 | an evaluation failure is "Invalid mathematical expression: " and the substituted expression; a success quotes the original expression and the value |
| Tools.FahrenheitIsConverted | services/toolService.ts:61 | each table row's Fahrenheit reading is its Celsius reading times 9/5 plus 32 |
| Tools.WeatherReadings | services/toolService.ts:50-62 | the readings print as 25/77.0, 15/59.0 and 18/64.4 |
| Tools.FindCity | services/toolService.ts:57 | the match is the first city, in table order, that the location contains; none is found only when it contains none |
| Strings.ToLower | services/toolService.ts:56 | lower-casing keeps the length and lowers each letter |
| Strings.ToLowerIdempotent | services/toolService.ts:56 | lower-casing twice is lower-casing once |
| Tools.GetWeatherReport | services/toolService.ts:47-65 | a missing location throws the TypeError about `toLowerCase`; otherwise the result is a string and never an error: the template sentence for the first matching row, or the not-found sentence |
| Tools.WeatherRowChosen | services/toolService.ts:56-62 | a location whose lower-cased form contains a row's city, and no earlier row's, gets that row's sentence |
| Tools.WeatherSentences | services/toolService.ts:50-62 | the three possible sentences written out: tokyo wins over london, london over paris, each with its condition and its Celsius and Fahrenheit readings |
| Tools.ExecuteTool | services/toolService.ts:68-85 | a name outside the four tools throws `Tool "<name>" not found.`; getWeather is the weather report |
| Tools.GetWeatherIgnoresDependencies | services/toolService.ts:78-79 | getWeather's result does not depend on the dependency record |
| Tools.TextToolsShareSubstitution | services/toolService.ts:3-45 | webSearch and summarize hand their service the substituted query; calculate evaluates the substituted expression, failing with it quoted or succeeding with the original expression and the value |
| Gemini.Initialise | services/geminiService.ts:81-86 | an initialised task is Queued with null result and error, and keeps every parsed field |
| Gemini.InitPlan | services/geminiService.ts:81-88 | initialisation keeps the number and order of tasks and sets each one Queued with null result and error |
| Gemini.InitPlanRoundTrip | services/geminiService.ts:81-88 | stripping the added fields gives back the parsed tasks |
| Gemini.InitPlanKeepsIds | services/geminiService.ts:81-88 | ids are kept position by position, so distinct parsed ids stay unique |
| Gemini.InitPlanIdempotent | services/geminiService.ts:81-88 | initialising an initialised plan again changes nothing |
| Gemini.Successful | services/geminiService.ts:92 | the successful results are exactly the Succeeded ones |
| Gemini.ContextLines | services/geminiService.ts:98 | one `Task <id> result: <json>` line per Succeeded result, in input order |
| Gemini.FinalSummary | services/geminiService.ts:91-113 | with no Succeeded result the fixed fallback sentence is returned, and otherwise the model's answer for the goal and the context, or the model call's error, which rejects the summary |
| Gemini.FallbackIgnoresModel | services/geminiService.ts:94-96 | with no Succeeded result the model is never consulted: any two models give the fallback as a resolved summary |
| Gemini.UnsuccessfulIsIgnored | services/geminiService.ts:92 | a Failed or Skipped result anywhere in the list leaves the context unchanged |
| Gemini.ContextSplitsIntoLines | services/geminiService.ts:98 | splitting the context at newlines gives back the lines, when no id or JSON text holds a newline |
| App.ReplaceById | App.tsx:19 | every task with the update's id becomes the update and every other task stays, in order |
| App.ApplyUpdate | App.tsx:16-22 | a null state or plan is left alone; otherwise goal, finalResult and isDone are kept, the plan keeps its length and ids, matching tasks are replaced and the others stay identical |
| App.ApplyUpdateIdempotent | App.tsx:19 | applying the same update twice is applying it once |
| App.ApplyUpdatesCommute | App.tsx:19 | updates for different ids can be applied in either order |
| App.SetFinalResult | App.tsx:24-29 | a null state stays null; otherwise finalResult is set, isDone becomes true, and goal and plan are kept |
| App.SetFinalResultLastWins | App.tsx:27 | the last final result set is the one shown |
| App.Submit | App.tsx:37-60 | a submission while running changes nothing; otherwise loading starts with a fresh goal-only state; a plan gives {goal, plan, null, false} and launches the run; a planning failure resets the state to null with the fixed error message and launches nothing |
| App.PlanFailureIsUniform | App.tsx:53-56 | every planning failure ends in the same state, whatever its cause |
| Session.ApplyReportsShowsLatest | App.tsx:16-22 | after a sequence of reports every plan task shows its last report, or is unchanged if it has none; the plan keeps its length and ids |
| Session.RunLeavesNothingPending | hooks/useExecutionEngine.ts:84-88 | a submitted plan with unique ids, run through the reducers, keeps its goal and the same tasks in the same order, none left Queued or Running; a resolved summary marks the state done with it and stops the hook running, and a rejected one leaves the state not done and the hook running |

## Left out

- Gemini network calls are left out: `generateContent` in `generatePlan` and in `generateFinalSummary`, `performWebSearch` and `performSummarization`. They are function parameters (`Services`, `ask`). The prompt wording is not modelled, and the model call receives the goal and the context.
- `JSON.parse` of the plan response and the response schema are left out. They are library parsing and validation, so `Gemini.InitPlan` starts from the parsed tasks.
- `JSON.stringify` is the abstract parameter `json`. A tool value that is `undefined` is displayed as no result, because `JSON.stringify(undefined)` is `undefined`; the model has one `Undefined` value and does not tell the other JavaScript values that serialise to `undefined` apart.
- The `new Function` evaluation in calculate is the oracle `evaluate`, and the printed form of its value is part of that oracle.
- The regular-expression form of the replacement is not modelled. The source interpolates the placeholder into `new RegExp` unescaped, so for instance `{{1}}` is a quantifier. `String.prototype.replace` also expands `$`-patterns in the JSON text. The model replaces the literal text `{{id}}`.
- The `for...in` loop of the tools visits integer-like ids such as `1` first, in ascending numeric order, and then the other ids in insertion order. The model visits every id in the order in which it first appears in `dependsOn` (`Engine.BuildDepsFollowsFirstAppearance`). This affects only the order of the substitution steps, and for safe JSON texts that order does not matter (`Placeholders.SubstituteAllOrderIrrelevant`).
- The guard hypothesis `SafeEnv` of the substitution lemmas has three parts:
  - every dependency id is free of braces;
  - every JSON text is non-empty and starts and ends with a character that is neither a brace nor part of any id, which a JSON string always satisfies when no id contains a double quote;
  - no JSON text contains the placeholder of any id.
- Placeholders.SubstReplacesEvery: stated under `SafeEnv`, not for every JSON text. An inserted text could itself hold a placeholder, or complete one with the text around it.
- Placeholders.SubstituteAllReplacesEvery: stated under `SafeEnv`, not for every JSON text, for the same reason.
- Placeholders.SubstituteAllKeepsUnknown: stated under `SafeEnv`, not for every JSON text. An inserted text could otherwise complete a placeholder of an unknown id.
- Placeholders.SubstIdempotent: stated under `SafeEnv`, not for every JSON text. A second pass could otherwise replace a placeholder that the first pass created.
- Placeholders.SubstituteAllOrderIrrelevant: stated under `SafeEnv` rather than only "no JSON text holds a placeholder". That weaker hypothesis is refuted by `Placeholders.OrderMattersForUnguardedText`.
- Placeholders.SubstituteAllIdempotent: stated under `SafeEnv`, for the same reason. `Placeholders.SecondPassCanChangeUnguardedText` refutes the weaker hypothesis.
- Tools.WebSearch and Tools.Summarize carry no contract of their own. Each just passes the substituted query to its service, which `Tools.TextToolsShareSubstitution` states.
- The Fahrenheit arithmetic and `toFixed(1)` are floating point. The table holds the Fahrenheit reading in tenths, precomputed from the three Celsius constants. `Tools.FahrenheitIsConverted` ties each reading to its Celsius value.
- `toLowerCase` is modelled for ASCII letters only. Unicode case mapping is not modelled.
- Tools.ResolveArgument and Tools.GetWeatherReport: for a missing argument they name V8's TypeError text. JavaScript's other behaviour with non-string arguments is not modelled; arguments are strings.
- `Promise.allSettled` concurrency is sequentialised. Within a wave, outcome reports and result-map entries follow frontier order, one of the interleavings the source allows.
- React state, `useLocalStorage` persistence, `clearState` and all components are left out: they are rendering and plumbing. `App.Submit` takes the hook's `isRunning` flag as a parameter and returns the state before and after planning. After a run that flag is the `isRunning` field of `Session.RunSession`, so a rejected summary leaves every later submission ignored.
- `console.error` in `handleGoalSubmit` is left out: it is logging only.
- Duplicate task ids are left out. Nothing in the source prevents them, so the run itself is defined for any plan, but the whole-run theorems require unique ids.
