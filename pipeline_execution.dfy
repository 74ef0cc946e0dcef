/**
 * The knowledge-graph pipeline run engine: one task extracts the rows of a
 * source table, turns them into nGQL statements and executes them in one
 * Nebula session; a run executes the tasks of a pipeline in task order,
 * stops at the first failure or at a cancellation observed between tasks,
 * and records the final status of the run.
 *
 * The extraction query, the Nebula session and the clock are outside the
 * model and enter through `Env`: `extract` gives the rows a query returns
 * (None where extraction raises), `sessionOpens` whether a session on the
 * graph space can be opened, and `respond` how Nebula answers a statement.
 */
module PipelineExecution {
  import opened Common
  import opened Sorting
  import opened NebulaValue
  import opened StatementBuilder
  import opened RunStore

  datatype MappingKind = NodeMapping | RelationshipMapping | OtherMapping(name: string)

  datatype Task = Task(
    id: int,
    order: int,
    name: string,
    enabled: bool,
    sourceDataSourceId: int,
    entity: string,
    filter: Option<string>,
    kind: MappingKind,
    targetLabel: string,
    fieldMappings: FieldMappings)

  datatype DataSourceType = MySql | PostgreSql | Csv | Excel | Api

  datatype DataSource = DataSource(id: int, kind: DataSourceType)

  datatype Pipeline = Pipeline(id: int, targetKgName: string, tasks: seq<Task>)

  /** Nebula's answer to one statement; `ResponseRaises` is an exception from the session. */
  datatype Response = Succeeded | NotSucceeded | ResponseRaises

  datatype Env = Env(
    pipelines: map<int, Pipeline>,
    tasks: map<int, Task>,
    dataSources: map<int, DataSource>,
    extract: (DataSource, string) -> Option<seq<Row>>,
    sessionOpens: string -> bool,
    respond: (string, string) -> Response,
    floatText: RawValue -> Option<string>)

  /** A task returns True or False, or raises out of the statement generation. */
  datatype TaskOutcome = TaskSucceeded | TaskFailed | TaskRaises

  /** The outcome of a task and the statements it sent to Nebula, in order. */
  datatype TaskResult = TaskResult(outcome: TaskOutcome, sent: seq<string>)

  // ---------------------------------------------------------------
  // One task
  // ---------------------------------------------------------------

  /** The extraction query of a task; the filter is appended only when it is non-empty. */
  function ExtractionQuery(task: Task): (q: string)
    ensures StartsWith(q, "SELECT * FROM " + task.entity)
    ensures q[|q| - 1] == ';'
    ensures !Truthy(task.filter) ==> q == "SELECT * FROM " + task.entity + ";"
    ensures Truthy(task.filter) ==> q == "SELECT * FROM " + task.entity + " WHERE " + task.filter.value + ";"
  {
    var base := "SELECT * FROM " + task.entity;
    var q := base + (if Truthy(task.filter) then " WHERE " + task.filter.value else "") + ";";
    assert q[..|base|] == base;
    q
  }

  /** Reading the field mappings for the task's mapping kind. */
  function PlanTask(task: Task): PlanOutcome
  {
    match task.kind
    case NodeMapping => PlanNode(task.targetLabel, task.fieldMappings)
    case RelationshipMapping => PlanRelationship(task.targetLabel, task.fieldMappings)
    case OtherMapping(_) => PlanFails
  }

  /** The index of the first statement Nebula does not answer with success, or the count. */
  function FirstFailure(space: string, statements: seq<string>, respond: (string, string) -> Response): (k: nat)
    ensures k <= |statements|
    ensures forall i :: 0 <= i < k ==> respond(space, statements[i]) == Succeeded
    ensures k < |statements| ==> respond(space, statements[k]) != Succeeded
  {
    if |statements| == 0 then 0
    else if respond(space, statements[0]) != Succeeded then 0
    else 1 + FirstFailure(space, statements[1..], respond)
  }

  /**
   * Executing the generated statements in one session: nothing to execute
   * succeeds without a session; otherwise the first statement that does not
   * succeed, or a session that cannot be opened, fails the task.
   */
  function ExecuteSpec(space: string, statements: seq<string>, env: Env): TaskResult
  {
    if |statements| == 0 then TaskResult(TaskSucceeded, [])
    else if !env.sessionOpens(space) then TaskResult(TaskFailed, [])
    else
      var k := FirstFailure(space, statements, env.respond);
      if k == |statements| then TaskResult(TaskSucceeded, statements)
      else TaskResult(TaskFailed, statements[..k + 1])
  }

  /** The whole of one task, in the order the checks are made. */
  function RunTask(taskId: int, space: string, env: Env): TaskResult
  {
    if taskId !in env.tasks || !env.tasks[taskId].enabled then TaskResult(TaskFailed, [])
    else
      var task := env.tasks[taskId];
      if task.sourceDataSourceId !in env.dataSources then TaskResult(TaskFailed, [])
      else
        var ds := env.dataSources[task.sourceDataSourceId];
        if ds.kind != MySql then TaskResult(TaskFailed, [])
        else
          match env.extract(ds, ExtractionQuery(task))
          case None => TaskResult(TaskFailed, [])
          case Some(rows) =>
            if |rows| == 0 then TaskResult(TaskSucceeded, [])
            else
              match PlanTask(task)
              case PlanRaises => TaskResult(TaskRaises, [])
              case PlanFails => TaskResult(TaskFailed, [])
              case Planned(plan) =>
                match Generate(plan, rows, env.floatText)
                case GenerationRaises => TaskResult(TaskRaises, [])
                case Generated(statements) => ExecuteSpec(space, statements, env)
  }

  /** The statement loop inside the Nebula session. */
  method ExecuteStatements(space: string, statements: seq<string>, env: Env)
    returns (outcome: TaskOutcome, sent: seq<string>)
    ensures TaskResult(outcome, sent) == ExecuteSpec(space, statements, env)
  {
    if |statements| == 0 {
      return TaskSucceeded, [];
    }
    if !env.sessionOpens(space) {
      return TaskFailed, [];
    }
    sent := [];
    var i := 0;
    while i < |statements|
      invariant 0 <= i <= |statements|
      invariant sent == statements[..i]
      invariant forall j :: 0 <= j < i ==> env.respond(space, statements[j]) == Succeeded
    {
      var response := env.respond(space, statements[i]);
      sent := sent + [statements[i]];
      if response != Succeeded {
        FirstFailureAt(space, statements, env.respond, i);
        return TaskFailed, sent;
      }
      i := i + 1;
    }
    FirstFailureAt(space, statements, env.respond, |statements|);
    assert statements[..|statements|] == statements;
    outcome := TaskSucceeded;
  }

  /** FirstFailure is the first index whose response is not success. */
  lemma {:induction false} FirstFailureAt(space: string, statements: seq<string>, respond: (string, string) -> Response, k: nat)
    requires k <= |statements|
    requires forall i :: 0 <= i < k ==> respond(space, statements[i]) == Succeeded
    requires k < |statements| ==> respond(space, statements[k]) != Succeeded
    ensures FirstFailure(space, statements, respond) == k
  {
  }

  /** execute_pipeline_task. */
  method ExecuteTask(taskId: int, space: string, env: Env) returns (outcome: TaskOutcome, sent: seq<string>)
    ensures TaskResult(outcome, sent) == RunTask(taskId, space, env)
  {
    if taskId !in env.tasks || !env.tasks[taskId].enabled {
      return TaskFailed, [];
    }
    var task := env.tasks[taskId];
    if task.sourceDataSourceId !in env.dataSources {
      return TaskFailed, [];
    }
    var ds := env.dataSources[task.sourceDataSourceId];
    if ds.kind != MySql {
      return TaskFailed, [];
    }
    var extracted := env.extract(ds, ExtractionQuery(task));
    if extracted.None? {
      return TaskFailed, [];
    }
    var rows := extracted.value;
    if |rows| == 0 {
      return TaskSucceeded, [];
    }
    var planned := PlanTask(task);
    if planned.PlanRaises? {
      return TaskRaises, [];
    }
    if planned.PlanFails? {
      return TaskFailed, [];
    }
    var generated;
    if planned.plan.VertexPlan? {
      generated := GenerateVertexStatements(planned.plan, rows, env.floatText);
    } else {
      generated := GenerateEdgeStatements(planned.plan, rows, env.floatText);
    }
    if generated.GenerationRaises? {
      return TaskRaises, [];
    }
    outcome, sent := ExecuteStatements(space, generated.statements, env);
  }

  // ---------------------------------------------------------------
  // Properties of one task
  // ---------------------------------------------------------------

  /**
   * The statements sent are a prefix of the generated ones; all but the
   * last sent succeeded, the last one failed unless the task succeeded,
   * and the task succeeds exactly when every statement does.
   */
  lemma ExecuteFailFast(space: string, statements: seq<string>, env: Env)
    ensures var r := ExecuteSpec(space, statements, env);
      r.outcome != TaskRaises
      && |r.sent| <= |statements| && r.sent == statements[..|r.sent|]
      && (forall i :: 0 <= i < |r.sent| - 1 ==> env.respond(space, r.sent[i]) == Succeeded)
      && (r.outcome == TaskFailed && |r.sent| > 0 ==> env.respond(space, r.sent[|r.sent| - 1]) != Succeeded)
      && (r.outcome == TaskSucceeded <==>
            |statements| == 0 || (env.sessionOpens(space) && forall i :: 0 <= i < |statements| ==> env.respond(space, statements[i]) == Succeeded))
  {
    var r := ExecuteSpec(space, statements, env);
    if |statements| > 0 && env.sessionOpens(space) {
      var k := FirstFailure(space, statements, env.respond);
      if k < |statements| {
        assert r.sent == statements[..k + 1];
        assert r.sent[k] == statements[k];
      } else {
        assert statements[..|statements|] == statements;
      }
    }
  }

  /** A missing or disabled task fails without anything being extracted or sent. */
  lemma DisabledTaskFails(taskId: int, space: string, env: Env)
    requires taskId !in env.tasks || !env.tasks[taskId].enabled
    ensures RunTask(taskId, space, env) == TaskResult(TaskFailed, [])
  {
  }

  /** Only MySQL sources are extracted; every other source type fails the task. */
  lemma OnlyMySqlIsExtracted(taskId: int, space: string, env: Env)
    requires taskId in env.tasks && env.tasks[taskId].enabled
    requires env.tasks[taskId].sourceDataSourceId in env.dataSources
    requires env.dataSources[env.tasks[taskId].sourceDataSourceId].kind != MySql
    ensures RunTask(taskId, space, env) == TaskResult(TaskFailed, [])
  {
  }

  /**
   * No extracted rows is a success before the mapping kind or its columns
   * are looked at: even mappings that would raise are never read.
   */
  lemma NoRowsSucceeds(taskId: int, space: string, env: Env)
    requires taskId in env.tasks && env.tasks[taskId].enabled
    requires env.tasks[taskId].sourceDataSourceId in env.dataSources
    requires env.dataSources[env.tasks[taskId].sourceDataSourceId].kind == MySql
    requires env.extract(env.dataSources[env.tasks[taskId].sourceDataSourceId], ExtractionQuery(env.tasks[taskId])) == Some([])
    ensures RunTask(taskId, space, env) == TaskResult(TaskSucceeded, [])
  {
  }

  /**
   * A NODE task whose mappings have no vertex-id entry raises as soon as
   * some rows were extracted, and no statement is sent.
   */
  lemma MissingVertexIdRaises(taskId: int, space: string, env: Env)
    requires taskId in env.tasks && env.tasks[taskId].enabled
    requires env.tasks[taskId].sourceDataSourceId in env.dataSources
    requires env.dataSources[env.tasks[taskId].sourceDataSourceId].kind == MySql
    requires env.extract(env.dataSources[env.tasks[taskId].sourceDataSourceId], ExtractionQuery(env.tasks[taskId])).Some?
    requires |env.extract(env.dataSources[env.tasks[taskId].sourceDataSourceId], ExtractionQuery(env.tasks[taskId])).value| > 0
    requires env.tasks[taskId].kind == NodeMapping
    requires env.tasks[taskId].fieldMappings.FieldMap? && env.tasks[taskId].fieldMappings.vertexId == Absent
    ensures RunTask(taskId, space, env) == TaskResult(TaskRaises, [])
  {
  }

  /** A mapping kind other than NODE or RELATIONSHIP fails a task that has rows. */
  lemma UnsupportedKindFails(taskId: int, space: string, env: Env)
    requires taskId in env.tasks && env.tasks[taskId].enabled
    requires env.tasks[taskId].kind.OtherMapping?
    ensures RunTask(taskId, space, env).outcome != TaskRaises
    ensures RunTask(taskId, space, env).sent == []
  {
  }

  /**
   * All statements are generated before any is sent: when generation
   * raises nothing is sent, and otherwise what is sent is a prefix of
   * the generated statements.
   */
  lemma GenerationPrecedesExecution(taskId: int, space: string, env: Env)
    ensures var r := RunTask(taskId, space, env);
      r.outcome == TaskRaises ==> r.sent == []
  {
    var r := RunTask(taskId, space, env);
    if taskId in env.tasks && env.tasks[taskId].enabled {
      var task := env.tasks[taskId];
      if task.sourceDataSourceId in env.dataSources {
        var ds := env.dataSources[task.sourceDataSourceId];
        var extracted := env.extract(ds, ExtractionQuery(task));
        if ds.kind == MySql && extracted.Some? && |extracted.value| > 0 {
          var planned := PlanTask(task);
          if planned.Planned? {
            var g := Generate(planned.plan, extracted.value, env.floatText);
            if g.Generated? {
              ExecuteFailFast(space, g.statements, env);
            }
          }
        }
      }
    }
  }

  // ---------------------------------------------------------------
  // A run
  // ---------------------------------------------------------------

  function TaskOrder(t: Task): int
  {
    t.order
  }

  function Ids(tasks: seq<Task>): (r: seq<int>)
    ensures |r| == |tasks|
    ensures forall i :: 0 <= i < |tasks| ==> r[i] == tasks[i].id
  {
    seq(|tasks|, i requires 0 <= i < |tasks| => tasks[i].id)
  }

  datatype LoopExit = Completed | StoppedByCancel | StoppedByFailure | StoppedByRaise

  /** How the task loop ended, how many status reads it made and how many tasks it started. */
  datatype LoopResult = LoopResult(exit: LoopExit, statusReads: nat, invoked: nat)

  /**
   * The status read before task j sees CANCELLED exactly when the run
   * exists and the external cancellation landed before that read
   * (`cancelFrom`, the index of the first read after it).
   */
  predicate Seen(cancelFrom: Option<nat>, j: nat)
  {
    cancelFrom.Some? && cancelFrom.value <= j
  }

  /** What each task of a run yields when it is started. */
  function TaskOutcomes(space: string, env: Env): Task -> TaskOutcome
  {
    (t: Task) => RunTask(t.id, space, env).outcome
  }

  /** The task loop from task j on, given what each task yields. */
  function Loop(sorted: seq<Task>, j: nat, outcome: Task -> TaskOutcome, cancelFrom: Option<nat>): (r: LoopResult)
    requires j <= |sorted|
    ensures j <= r.invoked <= |sorted|
    decreases |sorted| - j
  {
    if j == |sorted| then LoopResult(Completed, j, j)
    else if Seen(cancelFrom, j) then LoopResult(StoppedByCancel, j + 1, j)
    else if outcome(sorted[j]) == TaskSucceeded then Loop(sorted, j + 1, outcome, cancelFrom)
    else if outcome(sorted[j]) == TaskFailed then LoopResult(StoppedByFailure, j + 1, j + 1)
    else LoopResult(StoppedByRaise, j + 1, j + 1)
  }

  /**
   * The status written at the end of a loop: an exception gives FAILED
   * without a further read; otherwise a CANCELLED final read wins over
   * both SUCCESS and FAILED.
   */
  function FinalStatus(r: LoopResult, cancelFrom: Option<nat>): RunStatus
  {
    if r.exit == StoppedByRaise then Failed
    else if Seen(cancelFrom, r.statusReads) then Cancelled
    else if r.exit == Completed then Success
    else Failed
  }

  /** What a run does: its final status and the ids of the tasks it started, in order. */
  datatype Report = Report(final: RunStatus, invoked: seq<int>)

  function RunSpec(pipelineId: int, env: Env, cancelFrom: Option<nat>): Report
  {
    if pipelineId !in env.pipelines then Report(Failed, [])
    else
      var pipeline := env.pipelines[pipelineId];
      if |pipeline.tasks| == 0 then Report(Success, [])
      else TasksSpec(pipeline, TaskOutcomes(pipeline.targetKgName, env), cancelFrom)
  }

  /** A run of a pipeline that has tasks: they are started by ascending order. */
  function TasksSpec(pipeline: Pipeline, outcome: Task -> TaskOutcome, cancelFrom: Option<nat>): Report
  {
    var sorted := SortBy(pipeline.tasks, TaskOrder);
    SortByLength(pipeline.tasks, TaskOrder);
    var r := Loop(sorted, 0, outcome, cancelFrom);
    Report(FinalStatus(r, cancelFrom), Ids(sorted[..r.invoked]))
  }

  /** A cancellation only counts for a run that is in the table. */
  function CancelFrom(runExists: bool, cancelAt: Option<nat>): Option<nat>
  {
    if runExists then cancelAt else None
  }

  /** The record of a run that ended with a terminal status at time `now`. */
  function Finished(run: Run, status: RunStatus, now: int): Run
  {
    run.(status := status, updatedAt := now, endTime := Some(now))
  }

  /** The run table once the run (when it exists) is marked RUNNING. */
  ghost function RunningTable(table: map<int, Run>, runId: int, now: int): map<int, Run>
  {
    if runId in table then table[runId := WithStatus(table[runId], Running, None, now)] else table
  }

  /** The run table once the run (when it exists) has been cancelled by another writer. */
  ghost function CancelledTable(table: map<int, Run>, runId: int, now: int): map<int, Run>
  {
    if runId in table then table[runId := Finished(table[runId], Cancelled, now)] else table
  }

  /** Writing a terminal status over a running or cancelled run ends it at `now`. */
  lemma TerminalWrite(run: Run, status: RunStatus, now: int)
    requires IsTerminal(status)
    ensures WithStatus(WithStatus(run, Running, None, now), status, None, now) == Finished(run, status, now)
    ensures WithStatus(Finished(run, Cancelled, now), status, None, now) == Finished(run, status, now)
  {
  }

  /** `step` gives what each task yields when it is started in `space`. */
  ghost predicate Yields(step: Task -> TaskOutcome, space: string, env: Env)
  {
    forall t {:trigger RunTask(t.id, space, env)} :: step(t) == RunTask(t.id, space, env).outcome
  }

  lemma TaskOutcomesYield(space: string, env: Env)
    ensures Yields(TaskOutcomes(space, env), space, env)
  {
  }

  /** Starting one task of the loop; only its outcome matters to the run. */
  method StartTask(task: Task, space: string, env: Env, ghost step: Task -> TaskOutcome) returns (outcome: TaskOutcome)
    requires Yields(step, space, env)
    ensures outcome == step(task)
  {
    var sent;
    outcome, sent := ExecuteTask(task.id, space, env);
  }

  /**
   * One status read of the loop, preceded by the external cancellation
   * when it lands at this read; a run that is not in the table reads as
   * not cancelled.
   */
  method ReadCancelled(store: RunTable, runId: int, read: nat, cancelAt: Option<nat>, now: int,
                       ghost initial: map<int, Run>, ghost already: bool)
    returns (cancelled: bool)
    requires store.Valid()
    requires store.runs == if already then CancelledTable(initial, runId, now) else RunningTable(initial, runId, now)
    modifies store
    ensures store.Valid() && store.nextId == old(store.nextId)
    ensures cancelled <==> runId in initial && (already || cancelAt == Some(read))
    ensures store.runs == if cancelled then CancelledTable(initial, runId, now) else RunningTable(initial, runId, now)
  {
    if runId in initial {
      TerminalWrite(initial[runId], Cancelled, now);
    }
    if cancelAt == Some(read) {
      var _ := store.UpdateStatus(runId, Cancelled, None, now);
    }
    var current := store.Get(runId);
    cancelled := current.Some? && current.value.status == Cancelled;
  }

  /**
   * The loop over the sorted tasks: before each task the run status is
   * read, and a CANCELLED status or a task that does not succeed ends the
   * loop. `result` records how it ended, for the final status.
   */
  method TaskLoop(store: RunTable, runId: int, sorted: seq<Task>, space: string, env: Env,
                  cancelAt: Option<nat>, now: int, ghost initial: map<int, Run>, ghost step: Task -> TaskOutcome)
    returns (allSuccessful: bool, result: LoopResult)
    requires store.Valid() && store.runs == RunningTable(initial, runId, now)
    requires Yields(step, space, env)
    modifies store
    ensures store.Valid() && store.nextId == old(store.nextId)
    ensures result == Loop(sorted, 0, step, CancelFrom(runId in initial, cancelAt))
    ensures allSuccessful <==> result.exit == Completed
    ensures store.runs == if result.exit == StoppedByCancel then CancelledTable(initial, runId, now) else RunningTable(initial, runId, now)
  {
    ghost var cancelFrom := CancelFrom(runId in initial, cancelAt);
    ghost var whole := Loop(sorted, 0, step, cancelFrom);
    allSuccessful := true;
    var j := 0;
    while j < |sorted|
      invariant 0 <= j <= |sorted| && allSuccessful
      invariant store.Valid() && store.nextId == old(store.nextId)
      invariant forall i :: 0 <= i < j ==> !Seen(cancelFrom, i)
      invariant Loop(sorted, j, step, cancelFrom) == whole
      invariant store.runs == RunningTable(initial, runId, now)
    {
      var cancelled := ReadCancelled(store, runId, j, cancelAt, now, initial, false);
      if cancelled {
        return false, LoopResult(StoppedByCancel, j + 1, j);
      }
      assert !Seen(cancelFrom, j) by {
        if j > 0 {
          assert !Seen(cancelFrom, j - 1);
        }
      }
      var outcome := StartTask(sorted[j], space, env, step);
      if outcome == TaskRaises {
        return false, LoopResult(StoppedByRaise, j + 1, j + 1);
      }
      if outcome == TaskFailed {
        return false, LoopResult(StoppedByFailure, j + 1, j + 1);
      }
      j := j + 1;
    }
    result := LoopResult(Completed, j, j);
  }

  /**
   * The part of a run after its pipeline is found with at least one task:
   * the task loop, the final status read, and the final status.
   */
  method RunTasks(store: RunTable, runId: int, pipeline: Pipeline, env: Env, cancelAt: Option<nat>, now: int,
                  ghost initial: map<int, Run>, ghost step: Task -> TaskOutcome)
    returns (report: Report)
    requires store.Valid() && store.runs == RunningTable(initial, runId, now)
    requires Yields(step, pipeline.targetKgName, env)
    modifies store
    ensures store.Valid() && store.nextId == old(store.nextId)
    ensures report == TasksSpec(pipeline, step, CancelFrom(runId in initial, cancelAt))
    ensures IsTerminal(report.final)
    ensures store.runs == if runId in initial then initial[runId := Finished(initial[runId], report.final, now)] else initial
  {
    ghost var cancelFrom := CancelFrom(runId in initial, cancelAt);
    if runId in initial {
      TerminalWrite(initial[runId], Failed, now);
      TerminalWrite(initial[runId], Success, now);
      TerminalWrite(initial[runId], Cancelled, now);
    }
    var sorted := SortBy(pipeline.tasks, TaskOrder);
    SortByLength(pipeline.tasks, TaskOrder);
    var allSuccessful, loop := TaskLoop(store, runId, sorted, pipeline.targetKgName, env, cancelAt, now, initial, step);
    if loop.exit == StoppedByRaise {
      var _ := store.UpdateStatus(runId, Failed, None, now);
      return Report(Failed, Ids(sorted[..loop.invoked]));
    }
    var final := if allSuccessful then Success else Failed;
    var cancelled := ReadCancelled(store, runId, loop.statusReads, cancelAt, now, initial, loop.exit == StoppedByCancel);
    if cancelled {
      final := Cancelled;
    }
    FinalReadSeen(sorted, step, cancelFrom);
    assert cancelled <==> Seen(cancelFrom, loop.statusReads);
    assert final == FinalStatus(loop, cancelFrom);
    var _ := store.UpdateStatus(runId, final, None, now);
    report := Report(final, Ids(sorted[..loop.invoked]));
  }

  /**
   * run_kg_pipeline_background. `cancelAt == Some(k)` stands for another
   * writer setting the run to CANCELLED just before the engine's status
   * read number k (reads are counted from 0, one before each task and one
   * after the loop).
   */
  method RunPipeline(store: RunTable, runId: int, pipelineId: int, env: Env, cancelAt: Option<nat>, now: int)
    returns (report: Report)
    requires store.Valid()
    modifies store
    ensures store.Valid() && store.nextId == old(store.nextId)
    ensures report == RunSpec(pipelineId, env, CancelFrom(runId in old(store.runs), cancelAt))
    ensures IsTerminal(report.final)
    ensures runId !in old(store.runs) ==> store.runs == old(store.runs)
    ensures runId in old(store.runs) ==> store.runs == old(store.runs)[runId := Finished(old(store.runs[runId]), report.final, now)]
  {
    ghost var initial := store.runs;
    if runId in initial {
      TerminalWrite(initial[runId], Failed, now);
      TerminalWrite(initial[runId], Success, now);
    }
    var _ := store.UpdateStatus(runId, Running, None, now);
    if pipelineId !in env.pipelines {
      var _ := store.UpdateStatus(runId, Failed, None, now);
      return Report(Failed, []);
    }
    var pipeline := env.pipelines[pipelineId];
    if |pipeline.tasks| == 0 {
      var _ := store.UpdateStatus(runId, Success, None, now);
      return Report(Success, []);
    }
    TaskOutcomesYield(pipeline.targetKgName, env);
    report := RunTasks(store, runId, pipeline, env, cancelAt, now, initial, TaskOutcomes(pipeline.targetKgName, env));
  }

  /**
   * The final read of a loop that did not raise sees the cancellation
   * exactly when the loop stopped on one or it landed just before that read.
   */
  lemma FinalReadSeen(sorted: seq<Task>, outcome: Task -> TaskOutcome, cancelFrom: Option<nat>)
    ensures Loop(sorted, 0, outcome, cancelFrom).exit == StoppedByCancel ==> cancelFrom.Some?
    ensures var r := Loop(sorted, 0, outcome, cancelFrom);
      r.exit != StoppedByRaise ==>
        (Seen(cancelFrom, r.statusReads) <==> cancelFrom.Some? && (r.exit == StoppedByCancel || cancelFrom.value == r.statusReads))
  {
    LoopCancelSeen(sorted, 0, outcome, cancelFrom);
    var r := Loop(sorted, 0, outcome, cancelFrom);
    if r.exit != StoppedByCancel && r.statusReads > 0 {
      assert !Seen(cancelFrom, r.statusReads - 1);
    }
  }

  /**
   * How the reads of a loop relate to the cancellation: a loop stopped by
   * a cancellation saw it at its last read; any other loop saw none, so
   * its final read sees one only if it landed exactly there.
   */
  lemma {:induction false} LoopCancelSeen(sorted: seq<Task>, j: nat, outcome: Task -> TaskOutcome, cancelFrom: Option<nat>)
    requires j <= |sorted|
    requires forall i :: 0 <= i < j ==> !Seen(cancelFrom, i)
    ensures var r := Loop(sorted, j, outcome, cancelFrom);
      (r.exit == StoppedByCancel ==> r.statusReads == r.invoked + 1 && Seen(cancelFrom, r.invoked))
      && (r.exit != StoppedByCancel ==> forall i :: 0 <= i < r.statusReads ==> !Seen(cancelFrom, i))
    decreases |sorted| - j
  {
    if j < |sorted| && !Seen(cancelFrom, j) && outcome(sorted[j]) == TaskSucceeded {
      LoopCancelSeen(sorted, j + 1, outcome, cancelFrom);
    }
  }

  /**
   * Fail-fast: every task the loop started succeeded except, when the loop
   * stopped on a failure or an exception, the last one, which failed or
   * raised. A cancellation stops the loop exactly at the read it lands
   * before; a completed loop started every task and read once per task.
   */
  lemma {:induction false} LoopFacts(sorted: seq<Task>, j: nat, outcome: Task -> TaskOutcome, cancelFrom: Option<nat>)
    requires j <= |sorted|
    requires forall i :: 0 <= i < j ==> outcome(sorted[i]) == TaskSucceeded && !Seen(cancelFrom, i)
    ensures var r := Loop(sorted, j, outcome, cancelFrom);
      (r.exit == Completed || r.exit == StoppedByCancel ==> forall i :: 0 <= i < r.invoked ==> outcome(sorted[i]) == TaskSucceeded)
      && (r.exit == StoppedByFailure || r.exit == StoppedByRaise ==>
            0 < r.invoked && r.statusReads == r.invoked
            && (forall i :: 0 <= i < r.invoked - 1 ==> outcome(sorted[i]) == TaskSucceeded)
            && outcome(sorted[r.invoked - 1]) == (if r.exit == StoppedByFailure then TaskFailed else TaskRaises))
      && (r.exit == Completed ==> r.invoked == |sorted| && r.statusReads == |sorted|)
      && (r.exit == StoppedByCancel ==> r.invoked < |sorted| && cancelFrom == Some(r.invoked) && r.statusReads == r.invoked + 1)
      && (r.exit != StoppedByCancel ==> cancelFrom.None? || cancelFrom.value >= r.statusReads)
    decreases |sorted| - j
  {
    if j < |sorted| {
      if Seen(cancelFrom, j) {
        if j > 0 {
          assert !Seen(cancelFrom, j - 1);
        }
      } else if outcome(sorted[j]) == TaskSucceeded {
        LoopFacts(sorted, j + 1, outcome, cancelFrom);
      } else if j > 0 {
        assert !Seen(cancelFrom, j - 1);
      }
    } else if j > 0 {
      assert !Seen(cancelFrom, j - 1);
    }
  }

  /**
   * The final status of a run whose loop did not raise is CANCELLED
   * exactly when the cancellation landed no later than the final read;
   * an exception ends the run FAILED even when it was cancelled.
   */
  lemma FinalStatusFacts(sorted: seq<Task>, outcome: Task -> TaskOutcome, cancelFrom: Option<nat>)
    ensures var r := Loop(sorted, 0, outcome, cancelFrom);
      (r.exit == StoppedByRaise ==> FinalStatus(r, cancelFrom) == Failed)
      && (r.exit != StoppedByRaise ==>
            (FinalStatus(r, cancelFrom) == Cancelled <==> cancelFrom.Some? && cancelFrom.value <= r.statusReads))
      && (cancelFrom.None? ==> (FinalStatus(r, cancelFrom) == Success <==> r.exit == Completed))
  {
  }

  /** Without a cancellation the tasks of a pipeline succeed together exactly when each one does. */
  lemma {:induction false} TasksSucceedIff(pipeline: Pipeline, outcome: Task -> TaskOutcome)
    requires |pipeline.tasks| > 0
    ensures TasksSpec(pipeline, outcome, None).final == Success <==>
      forall t :: t in pipeline.tasks ==> outcome(t) == TaskSucceeded
  {
    var sorted := SortBy(pipeline.tasks, TaskOrder);
    SortByLength(pipeline.tasks, TaskOrder);
    SortByFacts(pipeline.tasks, TaskOrder);
    var r := Loop(sorted, 0, outcome, None);
    LoopFacts(sorted, 0, outcome, None);
    if r.exit == Completed {
      forall t | t in pipeline.tasks
        ensures outcome(t) == TaskSucceeded
      {
        assert t in multiset(pipeline.tasks);
        assert t in multiset(sorted);
        var i :| 0 <= i < |sorted| && sorted[i] == t;
      }
    } else if r.exit == StoppedByFailure || r.exit == StoppedByRaise {
      var t := sorted[r.invoked - 1];
      assert t in multiset(sorted);
      assert t in pipeline.tasks;
    }
  }

  /**
   * Without a cancellation a run succeeds exactly when its pipeline
   * exists and every one of its tasks succeeds.
   */
  lemma NoCancelSuccessIff(pipelineId: int, env: Env)
    ensures RunSpec(pipelineId, env, None).final == Success <==>
      pipelineId in env.pipelines
      && forall t :: t in env.pipelines[pipelineId].tasks ==> TaskOutcomes(env.pipelines[pipelineId].targetKgName, env)(t) == TaskSucceeded
  {
    if pipelineId in env.pipelines && |env.pipelines[pipelineId].tasks| > 0 {
      var pipeline := env.pipelines[pipelineId];
      TasksSucceedIff(pipeline, TaskOutcomes(pipeline.targetKgName, env));
    }
  }

  /**
   * A cancellation that lands before the first status read stops a run
   * with tasks before any of them is started, and the run ends CANCELLED.
   */
  lemma CancelBeforeFirstTask(pipelineId: int, env: Env)
    requires pipelineId in env.pipelines && |env.pipelines[pipelineId].tasks| > 0
    ensures RunSpec(pipelineId, env, Some(0)) == Report(Cancelled, [])
  {
    var pipeline := env.pipelines[pipelineId];
    SortByLength(pipeline.tasks, TaskOrder);
  }

  /**
   * The tasks a run starts are tasks of its pipeline, started by ascending
   * `order`, and each is started at most as often as it occurs.
   */
  lemma {:induction false} TasksStartedInOrder(pipeline: Pipeline, outcome: Task -> TaskOutcome, cancelFrom: Option<nat>)
    requires |pipeline.tasks| > 0
    ensures var report := TasksSpec(pipeline, outcome, cancelFrom);
      |report.invoked| <= |pipeline.tasks|
      && (exists started: seq<Task> ::
            |started| == |report.invoked|
            && multiset(started) <= multiset(pipeline.tasks)
            && (forall i :: 0 <= i < |started| ==> started[i].id == report.invoked[i])
            && (forall i, k :: 0 <= i < k < |started| ==> started[i].order <= started[k].order))
  {
    var sorted := SortBy(pipeline.tasks, TaskOrder);
    SortByLength(pipeline.tasks, TaskOrder);
    SortByFacts(pipeline.tasks, TaskOrder);
    var n := Loop(sorted, 0, outcome, cancelFrom).invoked;
    assert TasksSpec(pipeline, outcome, cancelFrom).invoked == Ids(sorted[..n]);
    StartedPrefix(pipeline.tasks, sorted, n);
  }

  /** A prefix of the tasks sorted by order is a sub-multiset of the tasks, by ascending order. */
  lemma StartedPrefix(tasks: seq<Task>, sorted: seq<Task>, n: nat)
    requires n <= |sorted| && SortedBy(sorted, TaskOrder) && multiset(sorted) == multiset(tasks)
    ensures exists started: seq<Task> ::
      |started| == |Ids(sorted[..n])|
      && multiset(started) <= multiset(tasks)
      && (forall i :: 0 <= i < |started| ==> started[i].id == Ids(sorted[..n])[i])
      && (forall i, k :: 0 <= i < k < |started| ==> started[i].order <= started[k].order)
  {
    PrefixOfSorted(sorted, n);
    var started := sorted[..n];
    assert forall i :: 0 <= i < |started| ==> started[i].id == Ids(sorted[..n])[i];
  }

  lemma PrefixOfSorted(sorted: seq<Task>, n: nat)
    requires n <= |sorted| && SortedBy(sorted, TaskOrder)
    ensures multiset(sorted[..n]) <= multiset(sorted)
    ensures forall i, k :: 0 <= i < k < n ==> sorted[..n][i].order <= sorted[..n][k].order
  {
    assert sorted == sorted[..n] + sorted[n..];
    assert multiset(sorted) == multiset(sorted[..n]) + multiset(sorted[n..]);
    forall i, k | 0 <= i < k < n
      ensures sorted[..n][i].order <= sorted[..n][k].order
    {
      assert TaskOrder(sorted[i]) <= TaskOrder(sorted[k]);
    }
  }
}
