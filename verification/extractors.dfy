/** Extractor dispatch: a registry of extractors probed in registration order,
    with an always-matching default as the fallback, and the metadata record each
    extractor builds for an Airflow task. The SQL parser the Postgres extractor
    delegates to is not part of this model: it is a parameter `parse`, about which
    nothing is assumed. */
module Extractors {
  import opened Wrappers
  import opened Strings

  /** A table reference as the SQL parser reports it. */
  type Table = string

  /** What the SQL parser returns: the tables a statement reads and writes. */
  datatype SqlMeta = SqlMeta(inTables: seq<Table>, outTables: seq<Table>)

  /** The operator class of a task. Only a Postgres operator carries the SQL text
      and the connection id the Postgres extractor reads; every other operator
      class is opaque here. */
  datatype Operator =
    | PostgresOperator(sql: string, postgresConnId: string)
    | OtherOperator(className: string)

  /** An Airflow task: its DAG id, its own id, and its operator. */
  datatype Task = Task(dagId: string, taskId: string, operator: Operator)

  /** The source types the extractors emit. */
  datatype SourceType = POSTGRESQL

  /** The lineage record of a task. The optional fields are `None` when the
      extractor leaves them unset. */
  datatype TaskMeta = TaskMeta(
    name: string,
    sourceType: Option<SourceType>,
    sourceName: Option<string>,
    inputs: Option<seq<Table>>,
    outputs: Option<seq<Table>>)

  /** The extractor classes. */
  datatype Extractor = DefaultExtractor | PostgresExtractor

  /** `_task_name(task)`: the DAG id, a dot, then the task id. */
  function TaskName(task: Task): (name: string)
    ensures |name| == |task.dagId| + 1 + |task.taskId|
    ensures name[..|task.dagId|] == task.dagId
    ensures name[|task.dagId|] == '.'
    ensures name[|task.dagId| + 1..] == task.taskId
  {
    task.dagId + "." + task.taskId
  }

  /** `can_extract`: the default accepts every task, the Postgres extractor
      accepts exactly the Postgres-operator tasks. */
  predicate CanExtract(e: Extractor, task: Task)
    ensures CanExtract(e, task) <==> e == DefaultExtractor || task.operator.PostgresOperator?
  {
    match e
    case DefaultExtractor => true
    case PostgresExtractor => task.operator.PostgresOperator?
  }

  /** `extract`: the metadata record an extractor builds for a task it accepts.
      The Postgres extractor hands the task's SQL to `parse` and passes the tables
      it reports through unchanged. */
  function Extract(e: Extractor, task: Task, parse: string -> SqlMeta): (m: TaskMeta)
    requires CanExtract(e, task)
    ensures m.name == TaskName(task)
    ensures m.sourceType.Some? <==> e.PostgresExtractor?
    ensures e.DefaultExtractor? ==> m.sourceName.None? && m.inputs.None? && m.outputs.None?
    ensures e.PostgresExtractor? ==>
              && m.sourceType == Some(POSTGRESQL)
              && m.sourceName == Some(task.operator.postgresConnId)
              && m.inputs == Some(parse(task.operator.sql).inTables)
              && m.outputs == Some(parse(task.operator.sql).outTables)
  {
    match e
    case DefaultExtractor =>
      TaskMeta(TaskName(task), None, None, None, None)
    case PostgresExtractor =>
      var sqlMeta := parse(task.operator.sql);
      TaskMeta(TaskName(task), Some(POSTGRESQL), Some(task.operator.postgresConnId),
               Some(sqlMeta.inTables), Some(sqlMeta.outTables))
  }

  /** No extractor before index `i` of the registry accepts the task. */
  predicate NoneMatchBefore(registry: seq<Extractor>, task: Task, i: int)
    requires i <= |registry|
  {
    forall j :: 0 <= j < i ==> !CanExtract(registry[j], task)
  }

  /** Index of the first registered extractor that accepts the task, or
      `|registry|` when none does. */
  function FirstMatch(registry: seq<Extractor>, task: Task): (i: nat)
    ensures i <= |registry|
    ensures i < |registry| ==> CanExtract(registry[i], task)
    ensures NoneMatchBefore(registry, task, i)
  {
    if |registry| == 0 then 0
    else if CanExtract(registry[0], task) then 0
    else
      var k := FirstMatch(registry[1..], task);
      assert forall j :: 1 <= j < k + 1 ==> registry[j] == registry[1..][j - 1];
      1 + k
  }

  /** `Extractors.extractor_for_task`: the first registered extractor that accepts
      the task, or the default when none does. Selection never fails. */
  function ExtractorFor(registry: seq<Extractor>, task: Task): (e: Extractor)
    ensures CanExtract(e, task)
    ensures e in registry || e == DefaultExtractor
    ensures NoneMatchBefore(registry, task, |registry|) ==> e == DefaultExtractor
    ensures !NoneMatchBefore(registry, task, |registry|) ==>
              exists i :: 0 <= i < |registry| && registry[i] == e && NoneMatchBefore(registry, task, i)
  {
    var i := FirstMatch(registry, task);
    if i < |registry| then registry[i] else DefaultExtractor
  }

  /** `Extractors.extractor_for_task` as the loop the source runs. */
  method SelectExtractor(registry: seq<Extractor>, task: Task) returns (e: Extractor)
    ensures e == ExtractorFor(registry, task)
    ensures CanExtract(e, task)
  {
    var i := 0;
    while i < |registry|
      invariant 0 <= i <= |registry|
      invariant NoneMatchBefore(registry, task, i)
    {
      if CanExtract(registry[i], task) {
        FirstMatchIsUnique(registry, task, i);
        return registry[i];
      }
      i := i + 1;
    }
    FirstMatchIsUnique(registry, task, |registry|);
    return DefaultExtractor;
  }

  /** Any index with no match before it and a match at it (or the end) is the
      first match. */
  lemma FirstMatchIsUnique(registry: seq<Extractor>, task: Task, i: nat)
    requires i <= |registry|
    requires NoneMatchBefore(registry, task, i)
    requires i < |registry| ==> CanExtract(registry[i], task)
    ensures FirstMatch(registry, task) == i
  {
  }

  /** Reads a task name back as (DAG id, task id) by cutting at its first dot. */
  function SplitTaskName(name: string): (parts: Option<(string, string)>)
    ensures parts.Some? <==> '.' in name
    ensures parts.Some? ==> parts.value.0 + "." + parts.value.1 == name
    ensures parts.Some? ==> '.' !in parts.value.0
  {
    var i := IndexOf(name, '.');
    if i == |name| then None
    else
      assert name == name[..i] + "." + name[i + 1..];
      assert forall j :: 0 <= j < i ==> name[..i][j] == name[j];
      Some((name[..i], name[i + 1..]))
  }

  /** A task name determines its DAG id and task id whenever the DAG id holds no
      dot. */
  lemma TaskNameRoundTrip(task: Task)
    requires '.' !in task.dagId
    ensures SplitTaskName(TaskName(task)) == Some((task.dagId, task.taskId))
  {
  }

  /** Airflow lets DAG and task ids hold dots, so two distinct tasks can share a
      name. */
  lemma TaskNameAmbiguous(op: Operator)
    ensures Task("a.b", "c", op) != Task("a", "b.c", op)
    ensures TaskName(Task("a.b", "c", op)) == TaskName(Task("a", "b.c", op))
  {
  }

  /** The default extractor accepts every task; the Postgres extractor accepts
      exactly the Postgres-operator tasks. */
  lemma CanExtractCases(task: Task)
    ensures CanExtract(DefaultExtractor, task)
    ensures CanExtract(PostgresExtractor, task) <==> task.operator.PostgresOperator?
  {
  }

  /** With nothing registered, every task gets the default extractor. */
  lemma EmptyRegistryGivesDefault(task: Task)
    ensures ExtractorFor([], task) == DefaultExtractor
  {
  }

  /** A registry holding only the Postgres extractor hands it the Postgres tasks
      and leaves every other task to the default. */
  lemma PostgresRegistrySelection(task: Task)
    ensures task.operator.PostgresOperator? ==> ExtractorFor([PostgresExtractor], task) == PostgresExtractor
    ensures task.operator.OtherOperator? ==> ExtractorFor([PostgresExtractor], task) == DefaultExtractor
  {
  }

  /** Registering more extractors after `front` changes nothing for a task some
      extractor in `front` accepts; for any other task the choice is made by the
      later extractors alone. */
  lemma SelectionOverConcatenation(front: seq<Extractor>, back: seq<Extractor>, task: Task)
    ensures !NoneMatchBefore(front, task, |front|) ==> ExtractorFor(front + back, task) == ExtractorFor(front, task)
    ensures NoneMatchBefore(front, task, |front|) ==> ExtractorFor(front + back, task) == ExtractorFor(back, task)
  {
  }

  /** The Postgres extractor is registered ahead of any default extractor. */
  predicate PostgresReachable(registry: seq<Extractor>)
  {
    exists i :: 0 <= i < |registry| && registry[i] == PostgresExtractor && DefaultAbsentBefore(registry, i)
  }

  /** No default extractor sits before index `i` of the registry. */
  predicate DefaultAbsentBefore(registry: seq<Extractor>, i: int)
    requires i <= |registry|
  {
    forall j :: 0 <= j < i ==> registry[j] != DefaultExtractor
  }

  /** Dispatch then extraction: the record always carries the task name, and it
      carries lineage exactly when the task is a Postgres task and the Postgres
      extractor is registered ahead of any default extractor. */
  lemma LineageIffPostgresSelected(registry: seq<Extractor>, task: Task, parse: string -> SqlMeta)
    ensures Extract(ExtractorFor(registry, task), task, parse).name == TaskName(task)
    ensures Extract(ExtractorFor(registry, task), task, parse).sourceType.Some?
            <==> task.operator.PostgresOperator? && PostgresReachable(registry)
  {
  }

  /** A default extractor at the head of the registry shadows every later entry. */
  lemma NotReachableWhenDefaultFirst(registry: seq<Extractor>)
    requires |registry| > 0 && registry[0] == DefaultExtractor
    ensures !PostgresReachable(registry)
  {
  }

  /** A Postgres task whose SQL the parser reads as one source table and one
      target table yields the record with the task name, the Postgres source,
      and those two tables. */
  lemma EndToEndExample(parse: string -> SqlMeta)
    requires parse("INSERT INTO users SELECT id, name FROM staging_users")
             == SqlMeta(["staging_users"], ["users"])
    ensures var task := Task("daily_etl", "load_users",
                             PostgresOperator("INSERT INTO users SELECT id, name FROM staging_users", "pg_conn"));
            Extract(ExtractorFor([PostgresExtractor], task), task, parse)
            == TaskMeta("daily_etl.load_users", Some(POSTGRESQL), Some("pg_conn"),
                        Some(["staging_users"]), Some(["users"]))
  {
  }
}
