# Statistical analysis pipeline: a Dafny model

This project models the deterministic core of a pipeline. The pipeline ingests a tabular file into DuckDB, then turns a natural-language question into SQL with a language model. It runs the query, computes statistics on the numeric column returned, and asks a language model to interpret them. The project has five parts:

- **Orchestrator** (`CrewOrchestrator.run_pipeline`). Six stages run in a fixed order, and the first failure ends the run.
  - It is modelled as a pure function. The function returns the outcome together with the trace of stage calls it made.
  - A separate reference step relation (`Next`) says which call must follow which answer. The trace is proved to be the unique chain of that relation.
  - In a second layer the abstract stages are wired to the agent models below. This layer proves end-to-end facts, for example that every query the execution stage runs, which is the NL-to-SQL output, passed the SQL gate. The ingestion and schema statements are built from the file name and are not gated.
- **NL-to-SQL agent** (`NLPtoSQLAgent.process`).
  - The column list put into the prompt and the prompt template.
  - The two-step safety gate: a case-insensitive `select` prefix, then a substring denylist of `DROP`, `DELETE`, `UPDATE` and `INSERT`.
- **Query-execution agent.**
  - `process` is an imperative loop. It keeps, in row order, the first cell of every row that converts to a number.
  - `get_table_schema` maps `PRAGMA table_info` rows to (name, type) pairs.
- **Ingestion agent** (`DataIngestionAgent.run`). It derives the extension and the table name from the path, and dispatches over csv/xlsx/json. The database is a catalog, a map from table names to contents, and `CREATE OR REPLACE` becomes a map update.
- **Rust statistics** (`compute_statistics`), over `real`:
  - min and max as folds, and the mean;
  - a sorted copy, produced by an in-place sort on an array;
  - median and quartiles read by index;
  - the population variance.

Calls out of the program are parameters taking a total function: the DuckDB loaders, `PRAGMA` and query execution, the OpenAI completions, Python's `float()` on a cell, and the WASM statistics service. A failing stage is a `Result.Err` carrying the text of its `{"status": "error", "error": ...}` dict.

Files:

| file | module |
|---|---|
| `common.dfy` | `Common`: `Result`, `Option`, schema `Column` |
| `ascii.dfy` | `Ascii`: `lower`, `upper`, `strip`, `startswith`, substring `in`, `join` |
| `nl_to_sql.dfy` | `NlToSql` |
| `query_execution.dfy` | `QueryExecution` |
| `ingestion.dfy` | `Ingestion` |
| `statistics.dfy` | `Statistics` |
| `orchestrator.dfy` | `Orchestrator` |

## Model

| member | source | states |
|---|---|---|
| Orchestrator.RunPipeline | crew_agents/orchestrator/crew_orchestrator.py:27-80 | The trace holds at most six calls and starts with ingesting the path. Each later call is the reference step of the one before, and the last call has no successor. The run fails exactly when the last call failed, and then with that call's error. |
| Orchestrator.ChainUnique | crew_agents/orchestrator/crew_orchestrator.py:27-80 | Two call sequences that both satisfy the reference chain for the same input are equal. |
| Orchestrator.ChainsAgree | crew_agents/orchestrator/crew_orchestrator.py:27-80 | Two chains for the same input agree call by call, for every index both have. |
| Orchestrator.ChainNotLonger | crew_agents/orchestrator/crew_orchestrator.py:27-80 | A chain for an input is no longer than any other chain for the same input. |
| Orchestrator.TraceIsTheChain | crew_agents/orchestrator/crew_orchestrator.py:27-80 | Any sequence satisfying the reference chain is exactly the trace of the run. |
| Orchestrator.NextMeansAnswered | crew_agents/orchestrator/crew_orchestrator.py:31-69 | A stage is followed by another only if it did not fail. |
| Orchestrator.ExactlyOneOutcome | crew_agents/orchestrator/crew_orchestrator.py:28-84 | Every call before the last succeeded. A successful run made all six calls and none failed. So a run ends with one success or with exactly one surfaced failure. |
| Orchestrator.IngestFailureReturned | crew_agents/orchestrator/crew_orchestrator.py:30-32 | A failed ingestion is the outcome, unchanged, and the trace is that single call. |
| Orchestrator.SchemaReceivesTable | crew_agents/orchestrator/crew_orchestrator.py:34-40 | The schema stage is called with exactly the table name ingestion returned. If it fails, its error is the outcome and nothing else runs. |
| Orchestrator.TranslateReceivesInputs | crew_agents/orchestrator/crew_orchestrator.py:42-45 | The NL-to-SQL stage is called with the original question, the ingested table name and the schema the schema stage returned. |
| Orchestrator.TranslateFailureStops | crew_agents/orchestrator/crew_orchestrator.py:45-47 | A failed translation is the outcome, and the trace stops after three calls, so nothing is executed. |
| Orchestrator.LaterStagesGuarded | crew_agents/orchestrator/crew_orchestrator.py:45-69 | Each of the last three stages is called only with the success payload of the stage before it:<br>execution only with a query the translation returned;<br>the statistics service only with the vector execution returned;<br>the insight stage only with the statistics the service returned. |
| Orchestrator.ExecuteFailureStops | crew_agents/orchestrator/crew_orchestrator.py:53-55 | A failed execution is the outcome, and the statistics service is never called. |
| Orchestrator.SuccessShape | crew_agents/orchestrator/crew_orchestrator.py:74-80 | A successful run made six calls. Its table, query, statistics and insight are the success payloads of the ingestion, translation, statistics and insight stages. |
| Orchestrator.TranslationIsGated | crew_agents/agents/nlp_to_sql_agent.py:49-57 | Every query the wired translation stage answers with passes the gate. |
| Orchestrator.ExecutionIsGated | crew_agents/orchestrator/crew_orchestrator.py:45-55 | If the translation stage only returns gated queries, then every executed query is gated. |
| Orchestrator.ExecutedQueriesAreSafe | crew_agents/orchestrator/crew_orchestrator.py:45-55 | Whatever the language model answers, every query the execution stage runs (the NL-to-SQL output) starts with `select`, ignoring case, and holds no denied keyword. The ingestion and `PRAGMA` statements are built from the file name outside this gate. |
| Orchestrator.RejectedCompletionStops | crew_agents/agents/nlp_to_sql_agent.py:49-53 | A completion the gate refuses ends the run with the gate's message after three calls, before any execution. |
| Orchestrator.ComputedVectorsNonEmpty | crew_agents/orchestrator/crew_orchestrator.py:53-60 | The statistics service is called only as the fifth stage. It receives a non-empty vector, no longer than the row set, whose every value `float()` produced from a row's first cell. |
| Orchestrator.EmptyResultStops | crew_agents/agents/query_execution_agent.py:25-26 | A query returning no rows ends the run with the empty-result error after four calls. |
| Common.Names | crew_agents/agents/nlp_to_sql_agent.py:26 | One name per schema entry, in order. |
| NlToSql.ColumnListLayout | crew_agents/agents/nlp_to_sql_agent.py:26 | The k-th column name appears in the column list at its join offset (every earlier name plus one `", "` each), and exactly `", "` lies between it and the next name. |
| NlToSql.JoinAt | crew_agents/agents/nlp_to_sql_agent.py:26 | In a `sep.join(parts)`, part k sits at the offset of the earlier parts and separators, and the text between part k and part k + 1 is exactly `sep`. |
| NlToSql.JoinLength | crew_agents/agents/nlp_to_sql_agent.py:26 | The joined string is as long as all parts plus one separator between each pair of neighbours. |
| Ascii.Join | crew_agents/agents/nlp_to_sql_agent.py:26 | Joining no parts gives the empty string, and joining one part gives that part. |
| Ascii.Lower | crew_agents/agents/nlp_to_sql_agent.py:49 | Same length, and each character is lowered. |
| Ascii.Upper | crew_agents/agents/nlp_to_sql_agent.py:52 | Same length, and each character is raised. |
| Ascii.StripStart | crew_agents/agents/nlp_to_sql_agent.py:46 | A suffix of the input, all of whose removed characters are whitespace, and which does not start with whitespace. |
| Ascii.StripEnd | crew_agents/agents/nlp_to_sql_agent.py:46 | A prefix of the input, all of whose removed characters are whitespace, and which does not end with whitespace. |
| Ascii.StripIdempotent | crew_agents/agents/nlp_to_sql_agent.py:46-49 | Stripping twice equals stripping once. |
| Ascii.StripLowerOfStripped | crew_agents/agents/nlp_to_sql_agent.py:49 | On a stripped completion, the second strip of the shape test changes nothing. |
| NlToSql.Validate | crew_agents/agents/nlp_to_sql_agent.py:46-57 | On success the query is the stripped completion in its original case. On failure the message is the shape error or the unsafe error, each followed by the stripped completion. |
| NlToSql.ValidateAcceptsIff | crew_agents/agents/nlp_to_sql_agent.py:49-57 | The gate accepts if and only if the stripped completion, lowercased, starts with `select` and, uppercased, contains no denied keyword. An accepted query passes the gate. |
| NlToSql.ShapeCheckedFirst | crew_agents/agents/nlp_to_sql_agent.py:49-51 | A completion failing the shape test reports the shape error, whatever the denylist would say. |
| NlToSql.DeniedWordRejected | crew_agents/agents/nlp_to_sql_agent.py:52-53 | A select-shaped completion with a denied keyword at any position of its uppercased form is refused with the unsafe error. |
| NlToSql.AcceptedHasNoDeniedWord | crew_agents/agents/nlp_to_sql_agent.py:52-57 | No slice of an accepted query, uppercased, equals a denied keyword. |
| NlToSql.SafeQueryHasNoDeniedWord | crew_agents/agents/nlp_to_sql_agent.py:52 | The same holds for any query that passes the gate predicate. |
| NlToSql.Process | crew_agents/agents/nlp_to_sql_agent.py:23-61 | The completion service is asked with this schema's prompt. A failed completion's error is the result, unchanged. A completion that answers is passed to the gate, and the result is the gate's verdict: the stripped query when accepted, the gate's error when refused. |
| NlToSql.ProcessIsGated | crew_agents/agents/nlp_to_sql_agent.py:46-61 | Every query `process` returns passes the gate. |
| NlToSql.UpdatedAtColumnRejected | crew_agents/agents/nlp_to_sql_agent.py:52-53 | `SELECT updated_at FROM t` is refused as unsafe: the denylist is a substring test with no word boundary. |
| NlToSql.DropTableRejected | crew_agents/agents/nlp_to_sql_agent.py:49-51 | `DROP TABLE x` is refused with the shape error. |
| QueryExecution.SchemaOf | crew_agents/agents/query_execution_agent.py:65 | One entry per pragma row, in order, with the row's name and type. |
| QueryExecution.GetTableSchema | crew_agents/agents/query_execution_agent.py:50-73 | The rules for `get_table_schema`:<br>a database error passes through;<br>no pragma rows gives the table-not-found error;<br>any non-empty set of pragma rows succeeds with one entry per row, in order, holding that row's name and declared type. |
| QueryExecution.Process | crew_agents/agents/query_execution_agent.py:17-48 | The loop returns exactly the reference result:<br>a database error passes through;<br>an empty row set is an error;<br>a row with no cells gives the uncaught index error `tuple index out of range`;<br>otherwise the converting first cells are kept in row order, and an empty vector is an error. |
| QueryExecution.KeptConcat | crew_agents/agents/query_execution_agent.py:29-35 | The vector of concatenated row sets is the concatenation of their vectors, so the row order is kept. |
| QueryExecution.KeptLength | crew_agents/agents/query_execution_agent.py:29-35 | One value per converting row, so never more values than rows. |
| QueryExecution.KeptMembers | crew_agents/agents/query_execution_agent.py:29-35 | A number is in the vector if and only if some row's first cell converts to it. |
| QueryExecution.AllNumericKeptWhole | crew_agents/agents/query_execution_agent.py:29-35 | When every first cell converts, the vector is the whole converted column. |
| QueryExecution.ProcessOutcome | crew_agents/agents/query_execution_agent.py:25-44 | An empty row set gives the empty-result error. On success the vector has between 1 and the number of rows elements, and each was converted from some row. |
| QueryExecution.ProcessedVector | crew_agents/agents/query_execution_agent.py:29-44 | Every vector returned is non-empty, no longer than the row set, and made of converted first cells. |
| Ingestion.AfterLast | crew_agents/agents/data_ingestion_agent.py:20-21 | A suffix without the separator, preceded by the separator unless it is the whole string. |
| Ingestion.ReplaceChar | crew_agents/agents/data_ingestion_agent.py:21 | Same length, and each `.` is replaced by `_`, with every other character kept. |
| Ingestion.FormatOf | crew_agents/agents/data_ingestion_agent.py:24-38 | `csv`, `xlsx` and `json` each select their own format, and each only from that exact extension. |
| Ingestion.ExtensionIsLastSegment | crew_agents/agents/data_ingestion_agent.py:20 | The extension is the lowercased text after the last `.` of the whole path. With no `.` it is the whole path, lowercased. |
| Ingestion.TableNameShape | crew_agents/agents/data_ingestion_agent.py:21 | The table name has no `.`, is as long as the basename, and has no uppercase letter. |
| Ingestion.TableNameOfBasename | crew_agents/agents/data_ingestion_agent.py:21 | Paths with the same basename get the same table name. |
| Ingestion.Ingest | crew_agents/agents/data_ingestion_agent.py:18-46 | The four cases of `run`:<br>an unsupported extension gives the unsupported-format error and leaves the catalog unchanged;<br>a loader error is returned and the catalog is unchanged;<br>success holds if and only if the format is supported and the load succeeds;<br>on success the table name is returned and maps to the loaded contents. |
| Ingestion.ReingestReplaces | crew_agents/agents/data_ingestion_agent.py:21-33 | Ingesting a second file with the same basename leaves the catalog as if only the second had been ingested. Its table names are the old ones plus that one name. In the program this is the `CREATE OR REPLACE` of the csv and xlsx branches; for json it holds of the model's catalog only (see Left out). |
| Ingestion.DispatchIgnoresCase | crew_agents/agents/data_ingestion_agent.py:20-24 | The csv loader is chosen exactly when the text after the last `.` spells `csv` in any mix of letter cases, and an unsupported extension is none of the three. |
| Ingestion.UpperCaseExtension | crew_agents/agents/data_ingestion_agent.py:20 | `d/A.CSV` has extension `csv`. |
| Ingestion.TableNameExample | crew_agents/agents/data_ingestion_agent.py:21 | `d/A.CSV` becomes table `a_csv`. |
| Statistics.MinOf | rust_module/src/statistics.rs:4 | At most every element, and one of them. |
| Statistics.MaxOf | rust_module/src/statistics.rs:5 | At least every element, and one of them. |
| Statistics.MeanBetweenExtremes | rust_module/src/statistics.rs:4-6 | min ≤ mean ≤ max. |
| Statistics.SumBounds | rust_module/src/statistics.rs:6 | If every element lies in [lo, hi], the sum lies in [n·lo, n·hi]. |
| Statistics.SortSeq | rust_module/src/statistics.rs:8-9 | The reference sort: sorted, a permutation, and of the same length. |
| Statistics.Insert | rust_module/src/statistics.rs:9 | Inserting into a sorted sequence keeps it sorted and adds exactly that element. |
| Statistics.SortedUnique | rust_module/src/statistics.rs:8-9 | Two sorted permutations of one multiset are equal. |
| Statistics.SortInPlace | rust_module/src/statistics.rs:9 | The buffer ends sorted and is a permutation of what it held. |
| Statistics.QuartileIndices | rust_module/src/statistics.rs:10-13 | For a length n ≥ 1: 0 ≤ n/4 ≤ n/2 ≤ 3n/4 < n. |
| Statistics.OrderStatistics | rust_module/src/statistics.rs:4-13 | min ≤ q1 ≤ median ≤ q3 ≤ max. |
| Statistics.ComputeStatistics | rust_module/src/statistics.rs:3-15 | On a sorted copy, with the input untouched, it computes:<br>min and max as the folds;<br>the mean as sum / len;<br>median, q1 and q3 as the sorted copy's elements at len/2, len/4 and 3·len/4;<br>the population variance;<br>min ≤ q1 ≤ median ≤ q3 ≤ max. |
| Statistics.SquaredDeviationZero | rust_module/src/statistics.rs:15 | The sum of squared deviations is ≥ 0, and 0 if and only if every element equals the centre. |
| Statistics.SquaredDeviationPositive | rust_module/src/statistics.rs:15 | One element away from the centre makes the sum of squared deviations positive. |
| Statistics.SquaredDeviationOfConstant | rust_module/src/statistics.rs:15 | When every element equals the centre, the sum of squared deviations is 0. |
| Statistics.VarianceZeroIff | rust_module/src/statistics.rs:15 | The variance is ≥ 0, and 0 if and only if every element equals the mean. |

## Left out

- Ingestion.Ingest: the model assumes the table name reaches DuckDB as one identifier. The program pastes it unquoted into the `CREATE OR REPLACE TABLE` text, so a file name carrying SQL (a `;`, a second statement) can make DuckDB run other statements while `run` reports success under the long name. Such file names are not modelled.
- Ingestion.Basename: models POSIX `os.path.basename`, splitting at `/` only. On Windows the path separator `\` also splits, and that is not modelled.
- The gate of the NL-to-SQL agent covers only the query the execution stage runs. The ingestion statements and `PRAGMA table_info` are built from the file name and pass no gate; a file named `drop.csv` gives a statement containing `DROP`.
- The DuckDB calls are parameters, and so are the connections that surround them. This covers `read_csv_auto`, `read_excel`, `pd.read_json` with `register`, `PRAGMA table_info` and query execution. Connection open and close, and their failures, are not modelled beyond the error text a stage may return.
- A json file is registered on the ingestion connection, which `run` then closes. A registered frame is a view seen only by that connection, so it does not outlive `run`, and later stages cannot query it. The model treats all three loaders alike, as "name now maps to contents", so for json `Ingestion.Ingest` and `Ingestion.ReingestReplaces` describe the catalog the model keeps, not what a later connection sees.
- The OpenAI completions are parameters, including the empty or missing `content` case, which surfaces only as an error.
- The insight agent (`crew_agents/agents/insights_llm_agent.py`) and its prompt are modelled only as the abstract sixth stage.
- The WASM statistics service, with its subprocess and JSON protocol, is the abstract fifth stage. It is not linked to `Statistics.ComputeStatistics`, whose input precondition is what `Orchestrator.ComputedVectorsNonEmpty` establishes for the vector handed over.
- `std_dev`, `coef_var`, `f64` rounding, NaN, and the `partial_cmp().unwrap()` panic are not modelled: the statistics are over `real`.
- Python's `float()` is the partial function `coerce`. Numeric parsing itself is not modelled.
- `lower()` and `upper()` map ASCII letters only. Python's full Unicode case mapping, such as `'ı'.upper() == 'I'`, is not modelled, so the gate's behaviour on non-ASCII letters is not captured. `strip()` uses Python's complete whitespace set.
- Orchestrator.RunPipeline: the `except` branch has no counterpart in the model. Every stage is total here and reports failure as a value, and the orchestrator itself does nothing that can raise.
- NlToSql.Prompt has no contract beyond its definition: the template text is reproduced as written.
- The library sort is modelled by an insertion sort by adjacent swaps. Only its result, the unique sorted permutation, is claimed.
- Async execution, logging, timing and the HTTP and UI layers (`api/`, `interface/`) are not part of this model.
