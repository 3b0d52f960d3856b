/**
 * What the wave scheduler guarantees over a whole run, for plans whose task
 * ids are unique: every task is reported Running and then Succeeded or
 * Failed, or reported Skipped once; the results record exactly the tasks
 * that ran or were skipped by the cascade; and only tasks whose
 * dependencies all succeeded ever run.
 */
module EngineProofs {
  import opened Wrappers
  import opened Types
  import opened ResultStore
  import opened Tools
  import opened Engine
  import opened Seqs

  /** The reports about task `x`, in the order they were made. */
  function ReportsOf(reports: seq<Task>, x: string): seq<Task> {
    Filter(reports, (r: Task) => r.id == x)
  }

  lemma ReportsOfConcat(a: seq<Task>, b: seq<Task>, x: string)
    ensures ReportsOf(a + b, x) == ReportsOf(a, x) + ReportsOf(b, x)
  {
    FilterConcat(a, b, (r: Task) => r.id == x);
  }

  lemma {:induction false} FilterUnique(ts: seq<Task>, f: Task -> bool)
    requires UniqueIds(ts)
    ensures UniqueIds(Filter(ts, f))
  {
    if ts != [] {
      FilterUnique(ts[1..], f);
      if f(ts[0]) {
        var r := Filter(ts[1..], f);
        forall j | 0 <= j < |r| ensures r[j].id != ts[0].id {
          assert r[j] in ts[1..];
          var k :| 0 <= k < |ts[1..]| && ts[1..][k] == r[j];
          assert ts[k + 1] == r[j];
        }
      }
    }
  }

  lemma IdSetSplit(ts: seq<Task>)
    requires ts != []
    ensures IdSet(ts) == {ts[0].id} + IdSet(ts[1..])
  {
    forall x | x in IdSet(ts) ensures x in {ts[0].id} + IdSet(ts[1..]) {
      var t :| t in ts && t.id == x;
      if t != ts[0] {
        var k :| 0 <= k < |ts| && ts[k] == t;
        assert ts[1..][k - 1] == t;
      }
    }
  }

  lemma {:induction false} ReportsOfAbsent(rs: seq<Task>, x: string)
    requires forall i :: 0 <= i < |rs| ==> rs[i].id != x
    ensures ReportsOf(rs, x) == []
  {
    if rs != [] {
      ReportsOfAbsent(rs[1..], x);
    }
  }

  lemma ReportsOfCons(rs: seq<Task>, x: string)
    requires rs != []
    ensures ReportsOf(rs, x) == (if rs[0].id == x then [rs[0]] else []) + ReportsOf(rs[1..], x)
  {
  }

  /** Distinct tasks of a list with unique ids have distinct ids. */
  lemma DistinctTasksDistinctIds(ts: seq<Task>, a: Task, b: Task)
    requires UniqueIds(ts) && a in ts && b in ts && a != b
    ensures a.id != b.id
  {
    var i :| 0 <= i < |ts| && ts[i] == a;
    var j :| 0 <= j < |ts| && ts[j] == b;
    if i < j {
      assert ts[i].id != ts[j].id;
    } else {
      assert ts[j].id != ts[i].id;
    }
  }

  /** A task of a list with unique ids that is missing from a sublist has an id the sublist lacks. */
  lemma MissingIdOutside(ts: seq<Task>, sub: seq<Task>, t: Task)
    requires UniqueIds(ts) && t in ts && t !in sub
    requires forall s :: s in sub ==> s in ts
    ensures t.id !in IdSet(sub)
  {
    forall s | s in sub ensures s.id != t.id {
      DistinctTasksDistinctIds(ts, s, t);
    }
  }

  lemma HeadIdNotInTail(ts: seq<Task>)
    requires ts != [] && UniqueIds(ts)
    ensures ts[0].id !in IdSet(ts[1..])
  {
    forall t | t in ts[1..] ensures t.id != ts[0].id {
      var j :| 0 <= j < |ts[1..]| && ts[1..][j] == t;
      assert ts[j + 1].id != ts[0].id;
    }
  }

  /**
   * Reports made one per task of a list with unique ids: each task has
   * exactly its own report, and any other id has none.
   */
  lemma {:induction false} ReportsOfAligned(ts: seq<Task>, rs: seq<Task>)
    requires |rs| == |ts| && UniqueIds(ts)
    requires forall i :: 0 <= i < |ts| ==> rs[i].id == ts[i].id
    ensures forall k :: 0 <= k < |ts| ==> ReportsOf(rs, ts[k].id) == [rs[k]]
    ensures forall x :: x !in IdSet(ts) ==> ReportsOf(rs, x) == []
  {
    if ts != [] {
      IdSetSplit(ts);
      HeadIdNotInTail(ts);
      ReportsOfAligned(ts[1..], rs[1..]);
      forall x | x !in IdSet(ts) ensures ReportsOf(rs, x) == [] {
        ReportsOfCons(rs, x);
      }
      forall k | 0 <= k < |ts| ensures ReportsOf(rs, ts[k].id) == [rs[k]] {
        ReportsOfCons(rs, ts[k].id);
        if k > 0 {
          assert ts[1..][k - 1] == ts[k];
          assert rs[1..][k - 1] == rs[k];
        }
      }
    }
  }

  /**
   * The task ran: every dependency was recorded Succeeded before it, it
   * was reported Running, and then the outcome of the tool call on its
   * dependencies' recorded values was recorded and reported.
   */
  ghost predicate Ran(t: Task, rs: seq<Task>, results: ResultMap, invoke: Invoke, json: Value -> string) {
    && t.id in results.entries
    && var r := results.entries[t.id];
    && r.id == t.id
    && (r.status == Succeeded || r.status == Failed)
    && (r.status == Failed ==> r.result == Null && r.error.Some? && r.error.value != "")
    && (r.status == Succeeded ==> r.error.None?)
    && r == ExecuteTask(t, results, invoke, json).0
    && rs == [t.(status := Running), OutcomeReport(t, r, json)]
    && Executable(t, results)
    && (forall i :: 0 <= i < |t.dependsOn| ==> SetBefore(results, t.dependsOn[i], t.id))
  }

  /** The cascade skipped the task: a dependency failed, and it was reported and recorded Skipped. */
  ghost predicate Cascaded(t: Task, rs: seq<Task>, results: ResultMap) {
    && t.id in results.entries
    && results.entries[t.id] == CascadeRecord(t)
    && rs == [CascadeReport(t)]
    && HasFailedDependency(t, results)
  }

  /**
   * The deadlock branch skipped the task: reported Skipped, never
   * recorded, unable to run, yet with no failed dependency either.
   */
  ghost predicate Deadlocked(t: Task, rs: seq<Task>, results: ResultMap) {
    && t.id !in results.entries
    && rs == [DeadlockReport(t)]
    && !Executable(t, results)
    && !HasFailedDependency(t, results)
  }

  ghost predicate Settled(t: Task, rs: seq<Task>, results: ResultMap, invoke: Invoke, json: Value -> string) {
    Ran(t, rs, results, invoke, json) || Cascaded(t, rs, results) || Deadlocked(t, rs, results)
  }

  /** Running and cascading stay true of a task when results are only added. */
  lemma FatesPersist(t: Task, rs: seq<Task>, m1: ResultMap, m2: ResultMap, invoke: Invoke, json: Value -> string)
    requires Extends(m1, m2)
    ensures Ran(t, rs, m1, invoke, json) ==> Ran(t, rs, m2, invoke, json)
    ensures Cascaded(t, rs, m1) ==> Cascaded(t, rs, m2)
  {
    if Ran(t, rs, m1, invoke, json) {
      RanPersists(t, rs, m1, m2, invoke, json);
    }
    if Cascaded(t, rs, m1) {
      FailurePersists(t, m1, m2);
    }
  }

  lemma RanPersists(t: Task, rs: seq<Task>, m1: ResultMap, m2: ResultMap, invoke: Invoke, json: Value -> string)
    requires Extends(m1, m2) && Ran(t, rs, m1, invoke, json)
    ensures Ran(t, rs, m2, invoke, json)
  {
    ExecutablePersists(t, m1, m2);
    ExecuteTaskStable(t, m1, m2, invoke, json);
    forall i | 0 <= i < |t.dependsOn| ensures SetBefore(m2, t.dependsOn[i], t.id) {
      SetBeforePersists(m1, m2, t.dependsOn[i], t.id);
    }
  }

  /** The dependency record only reads entries that an extension keeps. */
  lemma {:induction false} BuildDepsStable(dependsOn: seq<string>, m1: ResultMap, m2: ResultMap)
    requires Extends(m1, m2)
    requires forall i :: 0 <= i < |dependsOn| ==> dependsOn[i] in m1.entries
    ensures BuildDeps(dependsOn, m1) == BuildDeps(dependsOn, m2)
    decreases |dependsOn|
  {
    if dependsOn != [] {
      var init := dependsOn[..|dependsOn| - 1];
      var d := dependsOn[|dependsOn| - 1];
      BuildDepsStable(init, m1, m2);
      assert RecordedValue(m1, d) == RecordedValue(m2, d);
    }
  }

  /** A task whose dependencies all have results runs the same against any extension of them. */
  lemma ExecuteTaskStable(t: Task, m1: ResultMap, m2: ResultMap, invoke: Invoke, json: Value -> string)
    requires Extends(m1, m2) && Executable(t, m1)
    ensures ExecuteTask(t, m1, invoke, json) == ExecuteTask(t, m2, invoke, json)
  {
    forall i | 0 <= i < |t.dependsOn| ensures t.dependsOn[i] in m1.entries {
      assert DepSucceeded(m1, t.dependsOn[i]);
    }
    BuildDepsStable(t.dependsOn, m1, m2);
  }

  /** A Failed dependency stays Failed when results are only added. */
  lemma FailurePersists(t: Task, m1: ResultMap, m2: ResultMap)
    requires Extends(m1, m2) && HasFailedDependency(t, m1)
    ensures HasFailedDependency(t, m2)
  {
    var i :| 0 <= i < |t.dependsOn| && DepFailed(m1, t.dependsOn[i]);
    assert DepFailed(m2, t.dependsOn[i]);
  }

  /** The intermediate values of one round, named as `RunRound` computes them. */
  datatype Pieces = Pieces(
    frontier: seq<Task>, outcomes: seq<(TaskResult, Task)>, afterRun: ResultMap,
    left: seq<Task>, skipped: seq<Task>, afterSkip: ResultMap, left': seq<Task>)

  ghost predicate PiecesOf(p: Pieces, remaining: seq<Task>, results: ResultMap, invoke: Invoke, json: Value -> string) {
    && p.frontier == Frontier(remaining, results)
    && p.outcomes == RoundOutcomes(p.frontier, results, invoke, json)
    && p.afterRun == Record(results, OutcomeRecords(p.outcomes))
    && p.left == WithoutIds(remaining, IdSet(p.frontier))
    && p.skipped == CascadeSet(p.left, p.afterRun)
    && p.afterSkip == Record(p.afterRun, CascadeRecords(p.skipped))
    && p.left' == WithoutIds(p.left, IdSet(p.skipped))
  }

  ghost predicate Fresh(remaining: seq<Task>, results: ResultMap) {
    && UniqueIds(remaining)
    && Valid(results)
    && forall t :: t in remaining ==> t.id !in results.entries
  }

  lemma RoundHasPieces(remaining: seq<Task>, results: ResultMap, invoke: Invoke, json: Value -> string)
      returns (p: Pieces)
    requires Frontier(remaining, results) != []
    ensures PiecesOf(p, remaining, results, invoke, json)
    ensures RunRound(remaining, results, invoke, json) ==
      Round(RunningReports(p.frontier) + OutcomeReports(p.outcomes) + CascadeReports(p.skipped), p.afterSkip, p.left')
  {
    var frontier := Frontier(remaining, results);
    var outcomes := RoundOutcomes(frontier, results, invoke, json);
    var afterRun := Record(results, OutcomeRecords(outcomes));
    var left := WithoutIds(remaining, IdSet(frontier));
    var skipped := CascadeSet(left, afterRun);
    p := Pieces(frontier, outcomes, afterRun, left, skipped,
      Record(afterRun, CascadeRecords(skipped)), WithoutIds(left, IdSet(skipped)));
  }

  /** Every remaining task falls in exactly one of the frontier, the cascade and the tasks left. */
  lemma RoundPartition(p: Pieces, remaining: seq<Task>, results: ResultMap, invoke: Invoke, json: Value -> string)
    requires PiecesOf(p, remaining, results, invoke, json) && UniqueIds(remaining)
    ensures UniqueIds(p.frontier) && UniqueIds(p.left) && UniqueIds(p.skipped) && UniqueIds(p.left')
    ensures forall t :: t in remaining ==> t in p.frontier || t in p.skipped || t in p.left'
    ensures forall t :: t in p.skipped ==> t.id !in IdSet(p.frontier)
    ensures forall t :: t in p.left' ==> t.id !in IdSet(p.frontier) && t.id !in IdSet(p.skipped)
    ensures forall t :: t in p.frontier ==> t.id !in IdSet(p.skipped) && t.id !in IdSet(p.left')
    ensures forall t :: t in p.skipped ==> t.id !in IdSet(p.left')
    ensures IdSet(p.frontier) <= IdSet(remaining) && IdSet(p.skipped) <= IdSet(remaining)
    ensures IdSet(p.left') <= IdSet(remaining)
  {
    FilterUnique(remaining, (t: Task) => Executable(t, results));
    FilterUnique(remaining, (t: Task) => t.id !in IdSet(p.frontier));
    FilterUnique(p.left, (t: Task) => HasFailedDependency(t, p.afterRun));
    FilterUnique(p.left, (t: Task) => t.id !in IdSet(p.skipped));
    forall t | t in remaining ensures t in p.frontier || t in p.skipped || t in p.left' {
      if t !in p.frontier {
        MissingIdOutside(remaining, p.frontier, t);
        if t !in p.skipped {
          MissingIdOutside(p.left, p.skipped, t);
        }
      }
    }
    forall t | t in p.frontier ensures t.id !in IdSet(p.skipped) && t.id !in IdSet(p.left') {
      assert t.id in IdSet(p.frontier);
    }
    forall t | t in p.skipped ensures t.id !in IdSet(p.left') {
      assert t.id in IdSet(p.skipped);
    }
  }

  /** Recording one new result per task of a list with unique ids stores each under its task's id. */
  lemma RecordAligned(m: ResultMap, ts: seq<Task>, rs: seq<TaskResult>)
    requires |rs| == |ts| && UniqueIds(ts)
    requires forall k :: 0 <= k < |ts| ==> rs[k].id == ts[k].id
    requires forall t :: t in ts ==> t.id !in m.entries
    ensures Extends(m, Record(m, rs))
    ensures forall k :: 0 <= k < |ts| ==> Record(m, rs).entries[ts[k].id] == rs[k]
    ensures Record(m, rs).entries.Keys == m.entries.Keys + IdSet(ts)
  {
    forall i, j | 0 <= i < j < |rs| ensures rs[i].id != rs[j].id {
      assert ts[i].id != ts[j].id;
    }
    forall i | 0 <= i < |rs| ensures rs[i].id !in m.entries {
      assert ts[i] in ts;
    }
    RecordFresh(m, rs);
    forall x | x in IdSet(ts) ensures x in ResultIds(rs) {
      var t :| t in ts && t.id == x;
      var k :| 0 <= k < |ts| && ts[k] == t;
      assert rs[k].id == x;
    }
  }

  /** Running the frontier records each task's outcome under its id and keeps everything else. */
  lemma RunStores(p: Pieces, remaining: seq<Task>, results: ResultMap, invoke: Invoke, json: Value -> string)
    requires PiecesOf(p, remaining, results, invoke, json) && Fresh(remaining, results)
    ensures Extends(results, p.afterRun) && Valid(p.afterRun)
    ensures forall k :: 0 <= k < |p.frontier| ==> p.afterRun.entries[p.frontier[k].id] == p.outcomes[k].0
    ensures p.afterRun.entries.Keys == results.entries.Keys + IdSet(p.frontier)
  {
    FilterUnique(remaining, (t: Task) => Executable(t, results));
    var records := OutcomeRecords(p.outcomes);
    forall k | 0 <= k < |p.frontier| ensures records[k].id == p.frontier[k].id {
      assert p.outcomes[k] == ExecuteTask(p.frontier[k], results, invoke, json);
    }
    RecordAligned(results, p.frontier, records);
  }

  /** The tasks the cascade skips were new to the results before the cascade. */
  lemma SkippedAreNew(p: Pieces, remaining: seq<Task>, results: ResultMap, invoke: Invoke, json: Value -> string)
    requires PiecesOf(p, remaining, results, invoke, json) && Fresh(remaining, results)
    ensures UniqueIds(p.skipped) && Valid(p.afterRun)
    ensures forall t :: t in p.skipped ==> t.id !in p.afterRun.entries
  {
    RoundPartition(p, remaining, results, invoke, json);
    RunStores(p, remaining, results, invoke, json);
    forall t | t in p.skipped ensures t.id !in p.afterRun.entries {
      assert t in p.left && t in remaining;
    }
  }

  /** The cascade records each skipped task under its id and keeps everything else. */
  lemma SkipStores(p: Pieces, remaining: seq<Task>, results: ResultMap, invoke: Invoke, json: Value -> string)
    requires PiecesOf(p, remaining, results, invoke, json) && Fresh(remaining, results)
    ensures Extends(p.afterRun, p.afterSkip) && Valid(p.afterSkip)
    ensures forall k :: 0 <= k < |p.skipped| ==> p.afterSkip.entries[p.skipped[k].id] == CascadeRecord(p.skipped[k])
    ensures p.afterSkip.entries.Keys == results.entries.Keys + IdSet(p.frontier) + IdSet(p.skipped)
  {
    SkippedAreNew(p, remaining, results, invoke, json);
    RunStores(p, remaining, results, invoke, json);
    CascadeStores(p.afterRun, p.skipped);
  }

  lemma CascadeStores(m: ResultMap, skipped: seq<Task>)
    requires UniqueIds(skipped) && Valid(m)
    requires forall t :: t in skipped ==> t.id !in m.entries
    ensures Extends(m, Record(m, CascadeRecords(skipped))) && Valid(Record(m, CascadeRecords(skipped)))
    ensures forall k :: 0 <= k < |skipped| ==> Record(m, CascadeRecords(skipped)).entries[skipped[k].id] == CascadeRecord(skipped[k])
    ensures Record(m, CascadeRecords(skipped)).entries.Keys == m.entries.Keys + IdSet(skipped)
  {
    var cascade := CascadeRecords(skipped);
    RecordAligned(m, skipped, cascade);
  }

  /** The tasks left after a round are still new to the results. */
  lemma LeftStaysFresh(p: Pieces, remaining: seq<Task>, results: ResultMap, invoke: Invoke, json: Value -> string)
    requires PiecesOf(p, remaining, results, invoke, json) && Fresh(remaining, results)
    ensures Fresh(p.left', p.afterSkip)
  {
    RoundPartition(p, remaining, results, invoke, json);
    SkipStores(p, remaining, results, invoke, json);
  }
  lemma ExecutablePersists(t: Task, m1: ResultMap, m2: ResultMap)
    requires Extends(m1, m2) && Executable(t, m1)
    ensures Executable(t, m2)
  {
    forall i | 0 <= i < |t.dependsOn| ensures DepSucceeded(m2, t.dependsOn[i]) {
      assert DepSucceeded(m1, t.dependsOn[i]);
    }
  }

  /** The reports one round makes. */
  function RoundReports(p: Pieces): seq<Task> {
    RunningReports(p.frontier) + OutcomeReports(p.outcomes) + CascadeReports(p.skipped)
  }

  lemma RoundReportsOf(p: Pieces, x: string)
    ensures ReportsOf(RoundReports(p), x) ==
      ReportsOf(RunningReports(p.frontier), x) + ReportsOf(OutcomeReports(p.outcomes), x) + ReportsOf(CascadeReports(p.skipped), x)
  {
    ReportsOfConcat(RunningReports(p.frontier) + OutcomeReports(p.outcomes), CascadeReports(p.skipped), x);
    ReportsOfConcat(RunningReports(p.frontier), OutcomeReports(p.outcomes), x);
  }

  /** The Running reports: one per task, and none for other ids. */
  lemma RunningAligned(ts: seq<Task>)
    requires UniqueIds(ts)
    ensures forall k :: 0 <= k < |ts| ==> ReportsOf(RunningReports(ts), ts[k].id) == [ts[k].(status := Running)]
    ensures forall x :: x !in IdSet(ts) ==> ReportsOf(RunningReports(ts), x) == []
  {
    ReportsOfAligned(ts, RunningReports(ts));
  }

  /** The outcome reports: one per task, and none for other ids. */
  lemma OutcomesAligned(ts: seq<Task>, results: ResultMap, invoke: Invoke, json: Value -> string)
    requires UniqueIds(ts)
    ensures forall k :: 0 <= k < |ts| ==>
      ReportsOf(OutcomeReports(RoundOutcomes(ts, results, invoke, json)), ts[k].id) == [ExecuteTask(ts[k], results, invoke, json).1]
    ensures forall x :: x !in IdSet(ts) ==> ReportsOf(OutcomeReports(RoundOutcomes(ts, results, invoke, json)), x) == []
  {
    var os := RoundOutcomes(ts, results, invoke, json);
    var rs := OutcomeReports(os);
    forall k | 0 <= k < |ts| ensures rs[k].id == ts[k].id {
      assert os[k] == ExecuteTask(ts[k], results, invoke, json);
    }
    ReportsOfAligned(ts, rs);
  }

  /** The cascade reports: one per task, and none for other ids. */
  lemma CascadeAligned(ts: seq<Task>)
    requires UniqueIds(ts)
    ensures forall k :: 0 <= k < |ts| ==> ReportsOf(CascadeReports(ts), ts[k].id) == [CascadeReport(ts[k])]
    ensures forall x :: x !in IdSet(ts) ==> ReportsOf(CascadeReports(ts), x) == []
  {
    ReportsOfAligned(ts, CascadeReports(ts));
  }

  lemma FrontierReports(p: Pieces, results: ResultMap, invoke: Invoke, json: Value -> string, k: nat)
    requires UniqueIds(p.frontier) && p.outcomes == RoundOutcomes(p.frontier, results, invoke, json)
    requires forall s :: s in p.skipped ==> s.id !in IdSet(p.frontier)
    requires k < |p.frontier|
    ensures ReportsOf(RoundReports(p), p.frontier[k].id) ==
      [p.frontier[k].(status := Running), ExecuteTask(p.frontier[k], results, invoke, json).1]
  {
    var t := p.frontier[k];
    RunningAligned(p.frontier);
    OutcomesAligned(p.frontier, results, invoke, json);
    assert t.id in IdSet(p.frontier);
    var cascade := CascadeReports(p.skipped);
    forall i | 0 <= i < |cascade| ensures cascade[i].id != t.id {
      assert p.skipped[i] in p.skipped;
    }
    ReportsOfAbsent(cascade, t.id);
    RoundReportsOf(p, t.id);
  }

  lemma FrontierStore(p: Pieces, remaining: seq<Task>, results: ResultMap, invoke: Invoke, json: Value -> string, k: nat)
    requires PiecesOf(p, remaining, results, invoke, json) && Fresh(remaining, results)
    requires k < |p.frontier|
    ensures p.frontier[k].id in p.afterSkip.entries
    ensures p.afterSkip.entries[p.frontier[k].id] == ExecuteTask(p.frontier[k], results, invoke, json).0
    ensures ExecuteTask(p.frontier[k], results, invoke, json) == ExecuteTask(p.frontier[k], p.afterSkip, invoke, json)
    ensures Executable(p.frontier[k], p.afterSkip)
    ensures forall i :: 0 <= i < |p.frontier[k].dependsOn| ==> SetBefore(p.afterSkip, p.frontier[k].dependsOn[i], p.frontier[k].id)
  {
    RunStores(p, remaining, results, invoke, json);
    SkipStores(p, remaining, results, invoke, json);
    ExtendsTrans(results, p.afterRun, p.afterSkip);
    var t := p.frontier[k];
    assert t in p.frontier;
    ExecutablePersists(t, results, p.afterSkip);
    ExecuteTaskStable(t, results, p.afterSkip, invoke, json);
    forall i | 0 <= i < |t.dependsOn| ensures SetBefore(p.afterSkip, t.dependsOn[i], t.id) {
      assert DepSucceeded(results, t.dependsOn[i]);
      OldKeySetBefore(results, p.afterSkip, t.dependsOn[i], t.id);
    }
  }

  /** A frontier task ran in its round: Running, then its outcome, recorded under its id. */
  lemma FrontierTaskRan(p: Pieces, remaining: seq<Task>, results: ResultMap, invoke: Invoke, json: Value -> string, k: nat)
    requires PiecesOf(p, remaining, results, invoke, json) && Fresh(remaining, results)
    requires k < |p.frontier|
    ensures Ran(p.frontier[k], ReportsOf(RoundReports(p), p.frontier[k].id), p.afterSkip, invoke, json)
  {
    RoundPartition(p, remaining, results, invoke, json);
    FrontierReports(p, results, invoke, json, k);
    FrontierStore(p, remaining, results, invoke, json, k);
  }

  /** A task the cascade skipped: one Skipped report, and its Skipped record. */
  lemma SkippedTaskCascaded(p: Pieces, remaining: seq<Task>, results: ResultMap, invoke: Invoke, json: Value -> string, k: nat)
    requires PiecesOf(p, remaining, results, invoke, json) && Fresh(remaining, results)
    requires k < |p.skipped|
    ensures Cascaded(p.skipped[k], ReportsOf(RoundReports(p), p.skipped[k].id), p.afterSkip)
  {
    var t := p.skipped[k];
    RoundPartition(p, remaining, results, invoke, json);
    RunningAligned(p.frontier);
    OutcomesAligned(p.frontier, results, invoke, json);
    CascadeAligned(p.skipped);
    RoundReportsOf(p, t.id);
    assert t in p.skipped;
    assert t.id !in IdSet(p.frontier);
    SkipStores(p, remaining, results, invoke, json);
    assert HasFailedDependency(t, p.afterRun);
    FailurePersists(t, p.afterRun, p.afterSkip);
  }

  /** A round reports nothing about the tasks it leaves, nor about ids outside its remaining tasks. */
  lemma RoundSilent(p: Pieces, remaining: seq<Task>, results: ResultMap, invoke: Invoke, json: Value -> string, x: string)
    requires PiecesOf(p, remaining, results, invoke, json) && UniqueIds(remaining)
    requires x in IdSet(p.left') || x !in IdSet(remaining)
    ensures ReportsOf(RoundReports(p), x) == []
  {
    RoundPartition(p, remaining, results, invoke, json);
    RunningAligned(p.frontier);
    OutcomesAligned(p.frontier, results, invoke, json);
    CascadeAligned(p.skipped);
    RoundReportsOf(p, x);
    if x in IdSet(p.left') {
      var t :| t in p.left' && t.id == x;
    }
  }

  /** What a round achieves, in terms of the tasks it was given. */
  ghost predicate RoundDone(p: Pieces, remaining: seq<Task>, results: ResultMap, invoke: Invoke, json: Value -> string) {
    && Extends(results, p.afterSkip)
    && p.afterSkip.entries.Keys <= results.entries.Keys + IdSet(remaining)
    && Fresh(p.left', p.afterSkip)
    && IdSet(p.left') <= IdSet(remaining)
    && (forall t :: t in remaining && t !in p.left' ==>
          && t.id !in IdSet(p.left')
          && (Ran(t, ReportsOf(RoundReports(p), t.id), p.afterSkip, invoke, json)
              || Cascaded(t, ReportsOf(RoundReports(p), t.id), p.afterSkip)))
    && (forall x :: x in IdSet(p.left') || x !in IdSet(remaining) ==> ReportsOf(RoundReports(p), x) == [])
  }

  /** A task the round does not leave is in its frontier or its cascade. */
  lemma Placed(p: Pieces, remaining: seq<Task>, results: ResultMap, invoke: Invoke, json: Value -> string, t: Task)
    requires PiecesOf(p, remaining, results, invoke, json) && UniqueIds(remaining)
    requires t in remaining && t !in p.left'
    ensures t in p.frontier || t in p.skipped
    ensures t.id !in IdSet(p.left')
  {
    RoundPartition(p, remaining, results, invoke, json);
  }

  lemma RoundSettlesTasks(p: Pieces, remaining: seq<Task>, results: ResultMap, invoke: Invoke, json: Value -> string, t: Task)
    requires PiecesOf(p, remaining, results, invoke, json) && Fresh(remaining, results)
    requires t in remaining && t !in p.left'
    ensures t.id !in IdSet(p.left')
    ensures Ran(t, ReportsOf(RoundReports(p), t.id), p.afterSkip, invoke, json)
      || Cascaded(t, ReportsOf(RoundReports(p), t.id), p.afterSkip)
  {
    Placed(p, remaining, results, invoke, json, t);
    if t in p.frontier {
      FrontierMemberRan(p, remaining, results, invoke, json, t);
    } else {
      SkippedMemberCascaded(p, remaining, results, invoke, json, t);
    }
  }

  lemma FrontierMemberRan(p: Pieces, remaining: seq<Task>, results: ResultMap, invoke: Invoke, json: Value -> string, t: Task)
    requires PiecesOf(p, remaining, results, invoke, json) && Fresh(remaining, results)
    requires t in p.frontier
    ensures Ran(t, ReportsOf(RoundReports(p), t.id), p.afterSkip, invoke, json)
  {
    var k :| 0 <= k < |p.frontier| && p.frontier[k] == t;
    FrontierTaskRan(p, remaining, results, invoke, json, k);
  }

  lemma SkippedMemberCascaded(p: Pieces, remaining: seq<Task>, results: ResultMap, invoke: Invoke, json: Value -> string, t: Task)
    requires PiecesOf(p, remaining, results, invoke, json) && Fresh(remaining, results)
    requires t in p.skipped
    ensures Cascaded(t, ReportsOf(RoundReports(p), t.id), p.afterSkip)
  {
    var k :| 0 <= k < |p.skipped| && p.skipped[k] == t;
    SkippedTaskCascaded(p, remaining, results, invoke, json, k);
  }

  lemma RoundIsDone(p: Pieces, remaining: seq<Task>, results: ResultMap, invoke: Invoke, json: Value -> string)
    requires PiecesOf(p, remaining, results, invoke, json) && Fresh(remaining, results)
    ensures RoundDone(p, remaining, results, invoke, json)
  {
    RoundPartition(p, remaining, results, invoke, json);
    RunStores(p, remaining, results, invoke, json);
    SkipStores(p, remaining, results, invoke, json);
    LeftStaysFresh(p, remaining, results, invoke, json);
    forall t | t in remaining && t !in p.left'
      ensures t.id !in IdSet(p.left')
      ensures Ran(t, ReportsOf(RoundReports(p), t.id), p.afterSkip, invoke, json)
        || Cascaded(t, ReportsOf(RoundReports(p), t.id), p.afterSkip)
    {
      RoundSettlesTasks(p, remaining, results, invoke, json, t);
    }
    forall x | x in IdSet(p.left') || x !in IdSet(remaining) ensures ReportsOf(RoundReports(p), x) == [] {
      RoundSilent(p, remaining, results, invoke, json, x);
    }
  }

  /**
   * The whole loop from tasks new to the results: only new entries are
   * recorded, all of them for these tasks, and every task settles in one
   * of the three ways, with no report about any other id.
   */
  lemma {:induction false} RunSettles(remaining: seq<Task>, results: ResultMap, invoke: Invoke, json: Value -> string)
    requires Fresh(remaining, results)
    requires forall t :: t in remaining ==> !HasFailedDependency(t, results)
    ensures Extends(results, Run(remaining, results, invoke, json).results)
    ensures Valid(Run(remaining, results, invoke, json).results)
    ensures Run(remaining, results, invoke, json).results.entries.Keys <= results.entries.Keys + IdSet(remaining)
    ensures forall t :: t in remaining ==>
      Settled(t, ReportsOf(Run(remaining, results, invoke, json).reports, t.id), Run(remaining, results, invoke, json).results, invoke, json)
    ensures forall x :: x !in IdSet(remaining) ==> ReportsOf(Run(remaining, results, invoke, json).reports, x) == []
    decreases |remaining|
  {
    if remaining == [] {
    } else if Frontier(remaining, results) == [] {
      DeadlockSettles(remaining, results, invoke, json);
    } else {
      var p := RoundHasPieces(remaining, results, invoke, json);
      RoundIsDone(p, remaining, results, invoke, json);
      RunSettles(p.left', p.afterSkip, invoke, json);
      var rest := Run(p.left', p.afterSkip, invoke, json);
      RunAfterRound(p, remaining, results, invoke, json);
      forall t | t in remaining ensures Settled(t, ReportsOf(RoundReports(p) + rest.reports, t.id), rest.results, invoke, json) {
        TaskAfterRound(p, remaining, results, invoke, json, rest, t);
      }
      forall x | x !in IdSet(remaining) ensures ReportsOf(RoundReports(p) + rest.reports, x) == [] {
        SilentAfterRound(p, remaining, results, invoke, json, rest, x);
      }
    }
  }

  /** The run is the round followed by the rest of the run. */
  lemma RunAfterRound(p: Pieces, remaining: seq<Task>, results: ResultMap, invoke: Invoke, json: Value -> string)
    requires remaining != [] && Frontier(remaining, results) != []
    requires RunRound(remaining, results, invoke, json) == Round(RoundReports(p), p.afterSkip, p.left')
    ensures Run(remaining, results, invoke, json).reports == RoundReports(p) + Run(p.left', p.afterSkip, invoke, json).reports
    ensures Run(remaining, results, invoke, json).results == Run(p.left', p.afterSkip, invoke, json).results
  {
  }

  /** A task's reports over the round and the rest of the run. */
  lemma TaskAfterRound(p: Pieces, remaining: seq<Task>, results: ResultMap, invoke: Invoke, json: Value -> string, rest: Trace, t: Task)
    requires RoundDone(p, remaining, results, invoke, json)
    requires Extends(p.afterSkip, rest.results)
    requires forall u :: u in p.left' ==> Settled(u, ReportsOf(rest.reports, u.id), rest.results, invoke, json)
    requires forall x :: x !in IdSet(p.left') ==> ReportsOf(rest.reports, x) == []
    requires t in remaining
    ensures Settled(t, ReportsOf(RoundReports(p) + rest.reports, t.id), rest.results, invoke, json)
  {
    ReportsOfConcat(RoundReports(p), rest.reports, t.id);
    if t in p.left' {
      assert t.id in IdSet(p.left');
      assert ReportsOf(RoundReports(p) + rest.reports, t.id) == [] + ReportsOf(rest.reports, t.id);
    } else {
      var rs := ReportsOf(RoundReports(p), t.id);
      assert ReportsOf(RoundReports(p) + rest.reports, t.id) == rs + [];
      FatesPersist(t, rs, p.afterSkip, rest.results, invoke, json);
    }
  }

  /** The round's reports and the rest of the run's, for ids outside the tasks given. */
  lemma SilentAfterRound(p: Pieces, remaining: seq<Task>, results: ResultMap, invoke: Invoke, json: Value -> string, rest: Trace, x: string)
    requires RoundDone(p, remaining, results, invoke, json)
    requires forall x :: x !in IdSet(p.left') ==> ReportsOf(rest.reports, x) == []
    requires x !in IdSet(remaining)
    ensures ReportsOf(RoundReports(p) + rest.reports, x) == []
  {
    ReportsOfConcat(RoundReports(p), rest.reports, x);
  }

  lemma DeadlockSettles(remaining: seq<Task>, results: ResultMap, invoke: Invoke, json: Value -> string)
    requires Fresh(remaining, results) && remaining != [] && Frontier(remaining, results) == []
    requires forall t :: t in remaining ==> !HasFailedDependency(t, results)
    ensures forall t :: t in remaining ==>
      Deadlocked(t, ReportsOf(Run(remaining, results, invoke, json).reports, t.id), Run(remaining, results, invoke, json).results)
    ensures forall x :: x !in IdSet(remaining) ==> ReportsOf(Run(remaining, results, invoke, json).reports, x) == []
  {
    var reports := DeadlockReports(remaining);
    assert Run(remaining, results, invoke, json) == Trace(reports, results, 1);
    ReportsOfAligned(remaining, reports);
    forall t | t in remaining ensures Deadlocked(t, ReportsOf(reports, t.id), results) {
      var k :| 0 <= k < |remaining| && remaining[k] == t;
      assert t !in Frontier(remaining, results);
    }
  }
}
