/** Model of `QueryExecutionAgent` (crew_agents/agents/query_execution_agent.py).
    `process` runs a query and keeps, in row order, the first cell of every row
    that converts to a number; `get_table_schema` turns the rows of
    `PRAGMA table_info` into (name, type) pairs. Running SQL is a parameter: the
    agent receives the fetched rows, or the text of the database's exception.
    Python's `float()` on a cell is the partial function `coerce`. */
module QueryExecution {
  import opened Common

  const EmptyResultError: string := "Query não retornou resultados."
  const NoNumericError: string := "Nenhum valor numérico encontrado no resultado da query."
  /** `row[0]` on a row without columns raises IndexError, which the inner
      handler (ValueError, TypeError) does not catch. */
  const IndexError: string := "tuple index out of range"

  /** One row of `PRAGMA table_info`: (cid, name, type, notnull, dflt_value, pk). */
  datatype PragmaRow = PragmaRow(cid: int, name: string, colType: string,
                                 notNull: bool, defaultValue: Option<string>, primaryKey: bool)

  function NotFoundError(table: string): string {
    "Tabela '" + table + "' não encontrada."
  }

  /** One schema entry per pragma row, in order: its name and its declared type. */
  function SchemaOf(rows: seq<PragmaRow>): (schema: seq<Column>)
    ensures |schema| == |rows|
    ensures forall i :: 0 <= i < |rows| ==> schema[i] == Column(rows[i].name, rows[i].colType)
  {
    if rows == [] then [] else [Column(rows[0].name, rows[0].colType)] + SchemaOf(rows[1..])
  }

  /** `get_table_schema(table_name)`, given what the PRAGMA query fetched. */
  function GetTableSchema(table: string, fetched: Result<seq<PragmaRow>>): (r: Result<seq<Column>>)
    ensures fetched.Err? ==> r == Err(fetched.error)
    ensures fetched == Ok([]) ==> r == Err(NotFoundError(table))
    ensures fetched.Ok? && fetched.value != [] ==> r == Ok(SchemaOf(fetched.value))
    ensures r.Ok? ==> fetched.Ok? && |fetched.value| > 0 && |r.value| == |fetched.value|
                      && Names(r.value) == seq(|fetched.value|, i requires 0 <= i < |fetched.value| => fetched.value[i].name)
  {
    match fetched
    case Err(e) => Err(e)
    case Ok(rows) => if rows == [] then Err(NotFoundError(table)) else Ok(SchemaOf(rows))
  }

  /** The first cells of `rows` that convert, in row order. */
  function Kept<V>(rows: seq<seq<V>>, coerce: V -> Option<real>): seq<real>
    requires forall i :: 0 <= i < |rows| ==> |rows[i]| > 0
  {
    if rows == [] then []
    else
      var init := rows[..|rows| - 1];
      var last := rows[|rows| - 1];
      Kept(init, coerce) + (match coerce(last[0]) case Some(x) => [x] case None => [])
  }

  predicate HasEmptyRow<V>(rows: seq<seq<V>>) {
    exists i :: 0 <= i < |rows| && |rows[i]| == 0
  }

  /** What `process(query)` returns, given what the query fetched. */
  function ProcessSpec<V>(fetched: Result<seq<seq<V>>>, coerce: V -> Option<real>): Result<seq<real>> {
    match fetched
    case Err(e) => Err(e)
    case Ok(rows) =>
      if rows == [] then Err(EmptyResultError)
      else if HasEmptyRow(rows) then Err(IndexError)
      else if Kept(rows, coerce) == [] then Err(NoNumericError)
      else Ok(Kept(rows, coerce))
  }

  /** `process(query)`: one pass over the fetched rows, keeping the first cell of
      each row that converts to a number. */
  method Process<V>(fetched: Result<seq<seq<V>>>, coerce: V -> Option<real>) returns (r: Result<seq<real>>)
    ensures r == ProcessSpec(fetched, coerce)
  {
    if fetched.Err? {
      return Err(fetched.error);
    }
    var rows := fetched.value;
    if |rows| == 0 {
      return Err(EmptyResultError);
    }
    var vector: seq<real> := [];
    var i := 0;
    while i < |rows|
      invariant 0 <= i <= |rows|
      invariant forall k :: 0 <= k < i ==> |rows[k]| > 0
      invariant vector == Kept(rows[..i], coerce)
    {
      var row := rows[i];
      if |row| == 0 {
        return Err(IndexError);
      }
      assert rows[..i + 1][..i] == rows[..i];
      match coerce(row[0]) {
        case None =>
        case Some(value) => vector := vector + [value];
      }
      i := i + 1;
    }
    assert rows[..i] == rows;
    if |vector| == 0 {
      return Err(NoNumericError);
    }
    return Ok(vector);
  }

  /** Extraction is compositional over the rows: the vector of a concatenation
      is the concatenation of the vectors, so row order is kept. */
  lemma {:induction false} KeptConcat<V>(a: seq<seq<V>>, b: seq<seq<V>>, coerce: V -> Option<real>)
    requires forall i :: 0 <= i < |a| ==> |a[i]| > 0
    requires forall i :: 0 <= i < |b| ==> |b[i]| > 0
    ensures Kept(a + b, coerce) == Kept(a, coerce) + Kept(b, coerce)
  {
    if b == [] {
      assert a + b == a;
    } else {
      var init := b[..|b| - 1];
      assert (a + b)[..|a + b| - 1] == a + init;
      KeptConcat(a, init, coerce);
    }
  }

  /** Number of rows whose first cell converts. */
  function CountNumeric<V>(rows: seq<seq<V>>, coerce: V -> Option<real>): nat
    requires forall i :: 0 <= i < |rows| ==> |rows[i]| > 0
  {
    if rows == [] then 0
    else CountNumeric(rows[..|rows| - 1], coerce) + (if coerce(rows[|rows| - 1][0]).Some? then 1 else 0)
  }

  /** One element per converting row, so never more elements than rows. */
  lemma {:induction false} KeptLength<V>(rows: seq<seq<V>>, coerce: V -> Option<real>)
    requires forall i :: 0 <= i < |rows| ==> |rows[i]| > 0
    ensures |Kept(rows, coerce)| == CountNumeric(rows, coerce) <= |rows|
  {
    if rows != [] {
      KeptLength(rows[..|rows| - 1], coerce);
    }
  }

  /** A number is in the vector exactly when some row's first cell converts to it:
      nothing is invented and no converting row is lost. */
  lemma {:induction false} KeptMembers<V>(rows: seq<seq<V>>, coerce: V -> Option<real>, x: real)
    requires forall i :: 0 <= i < |rows| ==> |rows[i]| > 0
    ensures x in Kept(rows, coerce) <==> exists i :: 0 <= i < |rows| && coerce(rows[i][0]) == Some(x)
  {
    if rows != [] {
      var init := rows[..|rows| - 1];
      KeptMembers(init, coerce, x);
      if exists i :: 0 <= i < |rows| && coerce(rows[i][0]) == Some(x) {
        var i :| 0 <= i < |rows| && coerce(rows[i][0]) == Some(x);
        if i < |rows| - 1 {
          assert init[i] == rows[i];
        }
      }
      if exists i :: 0 <= i < |init| && coerce(init[i][0]) == Some(x) {
        var i :| 0 <= i < |init| && coerce(init[i][0]) == Some(x);
        assert rows[i] == init[i];
      }
    }
  }

  /** When every first cell converts, the vector is the column itself. */
  lemma {:induction false} AllNumericKeptWhole<V>(rows: seq<seq<V>>, coerce: V -> Option<real>)
    requires forall i :: 0 <= i < |rows| ==> |rows[i]| > 0 && coerce(rows[i][0]).Some?
    ensures Kept(rows, coerce) == seq(|rows|, i requires 0 <= i < |rows| => coerce(rows[i][0]).value)
  {
    if rows != [] {
      AllNumericKeptWhole(rows[..|rows| - 1], coerce);
    }
  }

  /** A successful run yields between one and |rows| numbers, each converted
      from some row; an empty result set or a result with nothing numeric fails. */
  lemma ProcessOutcome<V>(fetched: Result<seq<seq<V>>>, coerce: V -> Option<real>)
    ensures fetched == Ok([]) ==> ProcessSpec(fetched, coerce) == Err(EmptyResultError)
    ensures ProcessSpec(fetched, coerce).Ok? ==>
              fetched.Ok? && 1 <= |ProcessSpec(fetched, coerce).value| <= |fetched.value|
    ensures ProcessSpec(fetched, coerce).Ok? ==>
              forall j :: 0 <= j < |ProcessSpec(fetched, coerce).value| ==>
                exists i :: 0 <= i < |fetched.value| && |fetched.value[i]| > 0
                            && coerce(fetched.value[i][0]) == Some(ProcessSpec(fetched, coerce).value[j])
  {
    if ProcessSpec(fetched, coerce).Ok? {
      var rows := fetched.value;
      KeptLength(rows, coerce);
      var v := Kept(rows, coerce);
      forall j | 0 <= j < |v|
        ensures exists i :: 0 <= i < |rows| && |rows[i]| > 0 && coerce(rows[i][0]) == Some(v[j])
      {
        KeptMembers(rows, coerce, v[j]);
      }
    }
  }

  /** `v` is non-empty, no longer than the fetched result, and made of
      converted first cells of its rows. */
  ghost predicate ExtractedFrom<V>(v: seq<real>, fetched: Result<seq<seq<V>>>, coerce: V -> Option<real>) {
    && fetched.Ok? && 1 <= |v| <= |fetched.value|
    && forall j :: 0 <= j < |v| ==>
         exists i :: 0 <= i < |fetched.value| && |fetched.value[i]| > 0
                     && coerce(fetched.value[i][0]) == Some(v[j])
  }

  /** Every vector `process` hands back is extracted from the fetched rows. */
  lemma ProcessedVector<V>(fetched: Result<seq<seq<V>>>, coerce: V -> Option<real>, v: seq<real>)
    requires ProcessSpec(fetched, coerce) == Ok(v)
    ensures ExtractedFrom(v, fetched, coerce)
  {
    ProcessOutcome(fetched, coerce);
  }
}
