/** `CrewOrchestrator.run_pipeline`: six stages run one after the other, each
    fed from the outputs of the ones before, and the first failure ends the run. */
module Orchestrator {
  import opened Common
  import Ingestion
  import NlToSql
  import QueryExecution

  /** The six stages as the orchestrator sees them. Each answers with a success
      payload or with the error message of its `{"status": "error"}` dict.
      `R` is the statistics record the WASM service hands back. */
  datatype Stages<!R> = Stages(
    ingest: string -> Result<string>,
    describe: string -> Result<seq<Column>>,
    translate: (string, string, seq<Column>) -> Result<string>,
    execute: string -> Result<seq<real>>,
    compute: seq<real> -> Result<R>,
    interpret: R -> Result<string>)

  /** One stage invocation with the arguments it was given. */
  datatype Call<R> =
    | Ingest(path: string)
    | Describe(table: string)
    | Translate(question: string, table: string, schema: seq<Column>)
    | Execute(query: string)
    | Compute(vector: seq<real>)
    | Interpret(statistics: R)

  /** The dict `run_pipeline` returns: the success payload or one error. */
  datatype Outcome<R> =
    | Success(table: string, query: string, statistics: R, insight: string)
    | Failure(error: string)

  /** The outcome together with the stage calls made, in order. */
  datatype Run<R> = Run(outcome: Outcome<R>, calls: seq<Call<R>>)

  /** The error a call answers with, if it fails. */
  ghost function ErrorOf<R>(st: Stages<R>, c: Call<R>): Option<string> {
    match c
    case Ingest(p) => if st.ingest(p).Ok? then None else Some(st.ingest(p).error)
    case Describe(t) => if st.describe(t).Ok? then None else Some(st.describe(t).error)
    case Translate(q, t, s) => if st.translate(q, t, s).Ok? then None else Some(st.translate(q, t, s).error)
    case Execute(q) => if st.execute(q).Ok? then None else Some(st.execute(q).error)
    case Compute(v) => if st.compute(v).Ok? then None else Some(st.compute(v).error)
    case Interpret(r) => if st.interpret(r).Ok? then None else Some(st.interpret(r).error)
  }

  /** The reference step: the call that follows `c` once it has answered, or
      `None` when `c` failed or was the last stage. */
  ghost function Next<R>(st: Stages<R>, question: string, c: Call<R>): Option<Call<R>> {
    match c
    case Ingest(p) =>
      if st.ingest(p).Ok? then Some(Describe(st.ingest(p).value)) else None
    case Describe(t) =>
      if st.describe(t).Ok? then Some(Translate(question, t, st.describe(t).value)) else None
    case Translate(q, t, s) =>
      if st.translate(q, t, s).Ok? then Some(Execute(st.translate(q, t, s).value)) else None
    case Execute(q) =>
      if st.execute(q).Ok? then Some(Compute(st.execute(q).value)) else None
    case Compute(v) =>
      if st.compute(v).Ok? then Some(Interpret(st.compute(v).value)) else None
    case Interpret(_) => None
  }

  /** `calls` starts with ingesting `path`, every call is the reference step of
      the one before, and the last has no successor. */
  ghost predicate IsChain<R>(st: Stages<R>, path: string, question: string, calls: seq<Call<R>>) {
    && |calls| >= 1
    && calls[0] == Ingest(path)
    && (forall k :: 0 <= k < |calls| - 1 ==> Next(st, question, calls[k]) == Some(calls[k + 1]))
    && Next(st, question, calls[|calls| - 1]) == None
  }

  /** `run_pipeline(file_path, question)`. */
  function RunPipeline<R>(st: Stages<R>, path: string, question: string): (run: Run<R>)
    ensures |run.calls| <= 6
    ensures IsChain(st, path, question, run.calls)
    ensures run.outcome.Failure? <==> ErrorOf(st, run.calls[|run.calls| - 1]).Some?
    ensures run.outcome.Failure? ==> run.outcome.error == ErrorOf(st, run.calls[|run.calls| - 1]).value
  {
    match st.ingest(path)
    case Err(e) => Run(Failure(e), [Ingest(path)])
    case Ok(table) =>
      var c1 := [Ingest(path), Describe(table)];
      match st.describe(table)
      case Err(e) => Run(Failure(e), c1)
      case Ok(schema) =>
        var c2 := c1 + [Translate(question, table, schema)];
        match st.translate(question, table, schema)
        case Err(e) => Run(Failure(e), c2)
        case Ok(query) =>
          var c3 := c2 + [Execute(query)];
          match st.execute(query)
          case Err(e) => Run(Failure(e), c3)
          case Ok(vector) =>
            var c4 := c3 + [Compute(vector)];
            match st.compute(vector)
            case Err(e) => Run(Failure(e), c4)
            case Ok(statistics) =>
              var c5 := c4 + [Interpret(statistics)];
              match st.interpret(statistics)
              case Err(e) => Run(Failure(e), c5)
              case Ok(insight) => Run(Success(table, query, statistics, insight), c5)
  }

  /** A call with a successor did not fail. */
  lemma NextMeansAnswered<R>(st: Stages<R>, question: string, c: Call<R>)
    requires Next(st, question, c).Some?
    ensures ErrorOf(st, c) == None
  {}

  /** Two chains for the same input agree call by call. */
  lemma {:induction false} ChainsAgree<R>(st: Stages<R>, path: string, question: string,
                                          a: seq<Call<R>>, b: seq<Call<R>>, k: nat)
    requires IsChain(st, path, question, a) && IsChain(st, path, question, b)
    requires k < |a| && k < |b|
    ensures a[k] == b[k]
  {
    if k > 0 {
      ChainsAgree(st, path, question, a, b, k - 1);
      assert Next(st, question, a[k - 1]) == Some(a[k]);
      assert Next(st, question, b[k - 1]) == Some(b[k]);
    }
  }

  lemma ChainStep<R>(st: Stages<R>, path: string, question: string, a: seq<Call<R>>, k: nat)
    requires IsChain(st, path, question, a) && k < |a| - 1
    ensures Next(st, question, a[k]) == Some(a[k + 1])
  {}

  /** No chain for an input is longer than another: a chain ends where the
      reference step has no successor. */
  lemma ChainNotLonger<R>(st: Stages<R>, path: string, question: string,
                          a: seq<Call<R>>, b: seq<Call<R>>)
    requires IsChain(st, path, question, a) && IsChain(st, path, question, b)
    ensures |a| <= |b|
  {
    if |a| > |b| {
      ChainsAgree(st, path, question, a, b, |b| - 1);
      ChainStep(st, path, question, a, |b| - 1);
    }
  }

  /** The reference step fixes the trace: there is exactly one chain per input. */
  lemma ChainUnique<R>(st: Stages<R>, path: string, question: string,
                       a: seq<Call<R>>, b: seq<Call<R>>)
    requires IsChain(st, path, question, a) && IsChain(st, path, question, b)
    ensures a == b
  {
    ChainNotLonger(st, path, question, a, b);
    ChainNotLonger(st, path, question, b, a);
    forall k | 0 <= k < |a| ensures a[k] == b[k] {
      ChainsAgree(st, path, question, a, b, k);
    }
  }

  /** The run is the one chain for its input. */
  lemma TraceIsTheChain<R>(st: Stages<R>, path: string, question: string, calls: seq<Call<R>>)
    requires IsChain(st, path, question, calls)
    ensures RunPipeline(st, path, question).calls == calls
  {
    ChainUnique(st, path, question, RunPipeline(st, path, question).calls, calls);
  }

  /** Exactly one of: the run succeeded after all six stages answered, or the
      last call made is the only one that failed and its error is returned. */
  lemma ExactlyOneOutcome<R>(st: Stages<R>, path: string, question: string)
    ensures var run := RunPipeline(st, path, question);
            forall k :: 0 <= k < |run.calls| - 1 ==> ErrorOf(st, run.calls[k]) == None
    ensures var run := RunPipeline(st, path, question);
            run.outcome.Success? ==> |run.calls| == 6 && ErrorOf(st, run.calls[5]) == None
  {
    var run := RunPipeline(st, path, question);
    forall k | 0 <= k < |run.calls| - 1 ensures ErrorOf(st, run.calls[k]) == None {
      NextMeansAnswered(st, question, run.calls[k]);
    }
  }

  /** A failed ingestion is returned as it is and nothing else runs. */
  lemma IngestFailureReturned<R>(st: Stages<R>, path: string, question: string)
    requires st.ingest(path).Err?
    ensures RunPipeline(st, path, question) == Run(Failure(st.ingest(path).error), [Ingest(path)])
  {}

  /** The schema stage gets the table name ingestion produced; its failure is
      returned as it is and nothing after it runs. */
  lemma SchemaReceivesTable<R>(st: Stages<R>, path: string, question: string)
    requires st.ingest(path).Ok?
    ensures var run := RunPipeline(st, path, question);
            |run.calls| >= 2 && run.calls[1] == Describe(st.ingest(path).value)
    ensures var run := RunPipeline(st, path, question);
            st.describe(st.ingest(path).value).Err? ==>
              run.outcome == Failure(st.describe(st.ingest(path).value).error) && |run.calls| == 2
  {}

  /** The translation stage gets the question, the ingested table name and the
      schema the schema stage produced. */
  lemma TranslateReceivesInputs<R>(st: Stages<R>, path: string, question: string)
    requires st.ingest(path).Ok? && st.describe(st.ingest(path).value).Ok?
    ensures var run := RunPipeline(st, path, question);
            var table := st.ingest(path).value;
            |run.calls| >= 3 && run.calls[2] == Translate(question, table, st.describe(table).value)
  {}

  /** A stage after the translation runs only on what the stage before it
      answered with success: a query is executed only if the translation
      returned it, statistics are computed only on an extracted vector, and the
      insight is asked only for computed statistics. */
  lemma LaterStagesGuarded<R>(st: Stages<R>, path: string, question: string, k: nat)
    requires k < |RunPipeline(st, path, question).calls|
    ensures var c := RunPipeline(st, path, question).calls;
            c[k].Execute? ==>
              k == 3 && c[2].Translate? && st.translate(c[2].question, c[2].table, c[2].schema) == Ok(c[k].query)
    ensures var c := RunPipeline(st, path, question).calls;
            c[k].Compute? ==> k == 4 && c[3].Execute? && st.execute(c[3].query) == Ok(c[k].vector)
    ensures var c := RunPipeline(st, path, question).calls;
            c[k].Interpret? ==> k == 5 && c[4].Compute? && st.compute(c[4].vector) == Ok(c[k].statistics)
  {}

  /** A translation failure ends the run with its error before anything is
      executed. */
  lemma TranslateFailureStops<R>(st: Stages<R>, path: string, question: string)
    requires st.ingest(path).Ok? && st.describe(st.ingest(path).value).Ok?
    requires var t := st.ingest(path).value;
             st.translate(question, t, st.describe(t).value).Err?
    ensures var t := st.ingest(path).value;
            var run := RunPipeline(st, path, question);
            run.outcome == Failure(st.translate(question, t, st.describe(t).value).error) && |run.calls| == 3
  {}

  /** A failed execution ends the run with its error before statistics are
      computed. */
  lemma ExecuteFailureStops<R>(st: Stages<R>, path: string, question: string)
    requires var run := RunPipeline(st, path, question);
             |run.calls| >= 4 && run.calls[3].Execute? && st.execute(run.calls[3].query).Err?
    ensures var run := RunPipeline(st, path, question);
            run.outcome == Failure(st.execute(run.calls[3].query).error) && |run.calls| == 4
  {}

  /** A successful run carries exactly the outputs of the stages. */
  lemma SuccessShape<R>(st: Stages<R>, path: string, question: string)
    ensures var run := RunPipeline(st, path, question);
            run.outcome.Success? ==>
              var c := run.calls;
              && |c| == 6
              && st.ingest(path) == Ok(run.outcome.table)
              && c[2] == Translate(question, run.outcome.table, st.describe(run.outcome.table).value)
              && st.translate(question, run.outcome.table, c[2].schema) == Ok(run.outcome.query)
              && c[4] == Compute(st.execute(run.outcome.query).value)
              && st.compute(c[4].vector) == Ok(run.outcome.statistics)
              && st.interpret(run.outcome.statistics) == Ok(run.outcome.insight)
  {}

  /** The services the agents call out to: the database catalog and its loaders,
      `PRAGMA table_info`, the SQL engine, the language model, `float()` and the
      WASM statistics service. */
  datatype Services<!D, !V, !R> = Services(
    catalog: map<string, D>,
    load: (Ingestion.Format, string) -> Result<D>,
    pragma: (map<string, D>, string) -> Result<seq<QueryExecution.PragmaRow>>,
    complete: string -> Result<string>,
    query: (map<string, D>, string) -> Result<seq<seq<V>>>,
    coerce: V -> Option<real>,
    compute: seq<real> -> Result<R>,
    interpret: R -> Result<string>)

  /** The catalog the later stages query: the one left by ingesting `path`. */
  function Database<D, V, R>(sv: Services<D, V, R>, path: string): map<string, D> {
    Ingestion.Ingest(sv.catalog, path, sv.load).catalog
  }

  /** `DataIngestionAgent.run` on the initial catalog. */
  function IngestStage<D, V, R>(sv: Services<D, V, R>, p: string): Result<string> {
    Ingestion.Ingest(sv.catalog, p, sv.load).result
  }

  /** `QueryExecutionAgent.get_table_schema` against the catalog ingestion left. */
  function DescribeStage<D, V, R>(sv: Services<D, V, R>, path: string, t: string): Result<seq<Column>> {
    QueryExecution.GetTableSchema(t, sv.pragma(Database(sv, path), t))
  }

  /** `QueryExecutionAgent.process` against the catalog ingestion left. */
  function ExecuteStage<D, V, R>(sv: Services<D, V, R>, path: string, q: string): Result<seq<real>> {
    QueryExecution.ProcessSpec(sv.query(Database(sv, path), q), sv.coerce)
  }

  /** The stages the orchestrator is built from, wired to the agent models. */
  function AgentStages<D, V, R>(sv: Services<D, V, R>, path: string): Stages<R> {
    Stages(
      p => IngestStage(sv, p),
      t => DescribeStage(sv, path, t),
      (q, t, s) => NlToSql.Process(q, t, s, sv.complete),
      q => ExecuteStage(sv, path, q),
      sv.compute,
      sv.interpret)
  }

  /** The wired translation stage is `process` of the NL-to-SQL agent. */
  lemma WiredTranslate<D, V, R>(sv: Services<D, V, R>, path: string,
                                question: string, table: string, schema: seq<Column>)
    ensures AgentStages(sv, path).translate(question, table, schema)
            == NlToSql.Process(question, table, schema, sv.complete)
  {}

  /** The wired translation stage only ever answers with a query that passed
      the gate. */
  lemma TranslationIsGated<D, V, R>(sv: Services<D, V, R>, path: string)
    ensures forall q, t, s :: AgentStages(sv, path).translate(q, t, s).Ok? ==>
              NlToSql.IsSafeQuery(AgentStages(sv, path).translate(q, t, s).value)
  {
    forall q, t, s | AgentStages(sv, path).translate(q, t, s).Ok?
      ensures NlToSql.IsSafeQuery(AgentStages(sv, path).translate(q, t, s).value)
    {
      WiredTranslate(sv, path, q, t, s);
      NlToSql.ProcessIsGated(q, t, s, sv.complete);
    }
  }

  /** When the translation stage answers only with safe queries, only safe
      queries are executed. */
  lemma ExecutionIsGated<R>(st: Stages<R>, path: string, question: string, k: nat)
    requires forall q, t, s :: st.translate(q, t, s).Ok? ==> NlToSql.IsSafeQuery(st.translate(q, t, s).value)
    requires k < |RunPipeline(st, path, question).calls|
    requires RunPipeline(st, path, question).calls[k].Execute?
    ensures NlToSql.IsSafeQuery(RunPipeline(st, path, question).calls[k].query)
  {
    LaterStagesGuarded(st, path, question, k);
  }

  /** Whatever the language model answers, every query the execution stage
      runs passed the gate: it starts with `select` and holds none of the
      denied keywords. The ingestion and schema statements are not gated. */
  lemma ExecutedQueriesAreSafe<D, V, R>(sv: Services<D, V, R>, path: string, question: string, k: nat)
    requires k < |RunPipeline(AgentStages(sv, path), path, question).calls|
    requires RunPipeline(AgentStages(sv, path), path, question).calls[k].Execute?
    ensures NlToSql.IsSafeQuery(RunPipeline(AgentStages(sv, path), path, question).calls[k].query)
  {
    TranslationIsGated(sv, path);
    ExecutionIsGated(AgentStages(sv, path), path, question, k);
  }

  /** A completion the gate refuses ends the run with the gate's error before
      anything is executed. */
  lemma RejectedCompletionStops<D, V, R>(sv: Services<D, V, R>, path: string, question: string, text: string)
    requires Ingestion.Ingest(sv.catalog, path, sv.load).result.Ok?
    requires var t := Ingestion.Ingest(sv.catalog, path, sv.load).result.value;
             var s := QueryExecution.GetTableSchema(t, sv.pragma(Database(sv, path), t));
             s.Ok? && sv.complete(NlToSql.Prompt(question, t, NlToSql.ColumnList(s.value))) == Ok(text)
    requires NlToSql.Validate(text).Err?
    ensures var run := RunPipeline(AgentStages(sv, path), path, question);
            run.outcome == Failure(NlToSql.Validate(text).error) && |run.calls| == 3
  {
    var st := AgentStages(sv, path);
    var t := Ingestion.Ingest(sv.catalog, path, sv.load).result.value;
    var schema := QueryExecution.GetTableSchema(t, sv.pragma(Database(sv, path), t)).value;
    WiredEarlyStages(sv, path, t);
    WiredTranslate(sv, path, question, t, schema);
    assert st.translate(question, t, schema) == NlToSql.Validate(text);
    TranslateFailureStops(st, path, question);
  }

  /** The wired ingestion and schema stages are `run` and `get_table_schema`. */
  lemma WiredEarlyStages<D, V, R>(sv: Services<D, V, R>, path: string, table: string)
    ensures AgentStages(sv, path).ingest(path) == Ingestion.Ingest(sv.catalog, path, sv.load).result
    ensures AgentStages(sv, path).describe(table)
            == QueryExecution.GetTableSchema(table, sv.pragma(Database(sv, path), table))
  {}

  /** The WASM service is only ever handed a non-empty vector of values that
      `float()` produced from the first cells of the rows the query returned. */
  lemma ComputedVectorsNonEmpty<D, V, R>(sv: Services<D, V, R>, path: string, question: string, k: nat)
    requires k < |RunPipeline(AgentStages(sv, path), path, question).calls|
    requires RunPipeline(AgentStages(sv, path), path, question).calls[k].Compute?
    ensures var c := RunPipeline(AgentStages(sv, path), path, question).calls;
            && k == 4 && c[3].Execute?
            && QueryExecution.ExtractedFrom(c[k].vector, sv.query(Database(sv, path), c[3].query), sv.coerce)
  {
    var c := RunPipeline(AgentStages(sv, path), path, question).calls;
    LaterStagesGuarded(AgentStages(sv, path), path, question, k);
    WiredExecute(sv, path, c[3].query);
    QueryExecution.ProcessedVector(sv.query(Database(sv, path), c[3].query), sv.coerce, c[k].vector);
  }

  /** A query that returns no rows ends the run with the empty-result error
      before the statistics service is called. */
  lemma EmptyResultStops<D, V, R>(sv: Services<D, V, R>, path: string, question: string)
    requires var run := RunPipeline(AgentStages(sv, path), path, question);
             |run.calls| >= 4 && run.calls[3].Execute?
             && sv.query(Database(sv, path), run.calls[3].query) == Ok([])
    ensures var run := RunPipeline(AgentStages(sv, path), path, question);
            run.outcome == Failure(QueryExecution.EmptyResultError) && |run.calls| == 4
  {
    var st := AgentStages(sv, path);
    var q := RunPipeline(st, path, question).calls[3].query;
    WiredExecute(sv, path, q);
    ExecuteFailureStops(st, path, question);
  }

  /** The wired execution stage is `process` of the query-execution agent on
      the rows the query returns from the catalog ingestion left. */
  lemma WiredExecute<D, V, R>(sv: Services<D, V, R>, path: string, q: string)
    ensures AgentStages(sv, path).execute(q)
            == QueryExecution.ProcessSpec(sv.query(Database(sv, path), q), sv.coerce)
  {}
}
