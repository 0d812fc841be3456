/** Model of `NLPtoSQLAgent.process` (crew_agents/agents/nlp_to_sql_agent.py):
    the column list put into the prompt, the prompt template, and the two-step
    safety gate applied to the language model's completion. The completion
    service itself is a parameter. */
module NlToSql {
  import opened Common
  import opened Ascii

  /** The statements the gate refuses, matched as substrings of the
      upper-cased query. */
  const Denylist: seq<string> := ["DROP", "DELETE", "UPDATE", "INSERT"]

  const ShapeError: string := "Query inválida, não começa com SELECT: "
  const UnsafeError: string := "Query contém instruções perigosas: "

  /** The schema's column names, in order, separated by a comma and a space. */
  function ColumnList(columns: seq<Column>): string {
    Join(Names(columns), ", ")
  }

  /** The column list has every name, in order, at its offset, separated by ", ". */
  lemma {:induction false} ColumnListLayout(columns: seq<Column>, k: nat)
    requires k < |columns|
    ensures JoinOffset(Names(columns), ", ", k) + |columns[k].name| <= |ColumnList(columns)|
    ensures ColumnList(columns)[JoinOffset(Names(columns), ", ", k)..JoinOffset(Names(columns), ", ", k) + |columns[k].name|]
            == columns[k].name
    ensures k + 1 < |columns| ==>
              JoinOffset(Names(columns), ", ", k + 1) == JoinOffset(Names(columns), ", ", k) + |columns[k].name| + 2
    ensures k + 1 < |columns| ==> JoinOffset(Names(columns), ", ", k + 1) <= |ColumnList(columns)|
    ensures k + 1 < |columns| ==>
              ColumnList(columns)[JoinOffset(Names(columns), ", ", k) + |columns[k].name|..JoinOffset(Names(columns), ", ", k + 1)]
              == ", "
  {
    JoinAt(Names(columns), ", ", k);
  }

  /** The length of a joined list: all parts plus one separator between neighbours. */
  lemma {:induction false} JoinLength(parts: seq<string>, sep: string)
    requires parts != []
    ensures |Join(parts, sep)| == TotalLength(parts) + (|parts| - 1) * |sep|
  {
    if |parts| > 1 {
      JoinLength(parts[1..], sep);
    }
  }

  /** The `k`-th part sits in the joined string at `JoinOffset(parts, sep, k)`. */
  lemma {:induction false} JoinAt(parts: seq<string>, sep: string, k: nat)
    requires k < |parts|
    ensures JoinOffset(parts, sep, k) + |parts[k]| <= |Join(parts, sep)|
    ensures Join(parts, sep)[JoinOffset(parts, sep, k)..JoinOffset(parts, sep, k) + |parts[k]|] == parts[k]
    ensures k + 1 < |parts| ==> JoinOffset(parts, sep, k + 1) == JoinOffset(parts, sep, k) + |parts[k]| + |sep|
    ensures k + 1 < |parts| ==> JoinOffset(parts, sep, k + 1) <= |Join(parts, sep)|
    ensures k + 1 < |parts| ==>
              Join(parts, sep)[JoinOffset(parts, sep, k) + |parts[k]|..JoinOffset(parts, sep, k + 1)] == sep
  {
    var r := Join(parts, sep);
    if |parts| == 1 {
      assert parts[..0] == [];
    } else if k == 0 {
      var tail := parts[1..];
      assert parts[..0] == [];
      assert parts[..1][1..] == [];
      assert TotalLength(parts[..1]) == |parts[0]|;
      assert r == parts[0] + (sep + Join(tail, sep));
      assert r == (parts[0] + sep) + Join(tail, sep);
      assert r[..|parts[0]| + |sep|] == parts[0] + sep;
    } else {
      var tail := parts[1..];
      JoinAt(tail, sep, k - 1);
      var o := JoinOffset(tail, sep, k - 1);
      assert parts[..k][1..] == tail[..k - 1];
      assert TotalLength(parts[..k]) == |parts[0]| + TotalLength(tail[..k - 1]);
      assert JoinOffset(parts, sep, k) == |parts[0]| + |sep| + o;
      assert r == (parts[0] + sep) + Join(tail, sep);
      assert tail[k - 1] == parts[k];
      if k + 1 < |parts| {
        assert parts[..k + 1][1..] == tail[..k];
        assert TotalLength(parts[..k + 1]) == |parts[0]| + TotalLength(tail[..k]);
        assert JoinOffset(parts, sep, k + 1) == |parts[0]| + |sep| + JoinOffset(tail, sep, k);
      }
    }
  }

  /** The prompt sent to the completion service. */
  function Prompt(question: string, table: string, columnList: string): string
  {
    "Converta a seguinte pergunta em uma consulta SQL válida.\n"
    + "Pergunta: \"" + question + "\"\n"
    + "Tabela: \"" + table + "\"\n"
    + "Colunas disponíveis: " + columnList + "\n"
    + "Restrições:\n"
    + "- Use apenas instruções SELECT.\n"
    + "- Não utilize funções agregadas (AVG, MIN, MAX, STDDEV, MEDIAN, etc).\n"
    + "- A query deve retornar apenas os dados brutos para posterior análise.\n"
    + "- Não utilize DELETE, DROP, UPDATE ou INSERT.\n"
    + "- Não gere explicações, apenas a query."
    + "Apenas retorne a query SQL pura, sem explicações, sem comentários."
  }

  /** Some denied keyword occurs somewhere in `q`. */
  predicate HasDeniedKeyword(q: string) {
    Contains(q, "DROP") || Contains(q, "DELETE") || Contains(q, "UPDATE") || Contains(q, "INSERT")
  }

  /** The shape test: the lowercased, stripped query begins with "select". */
  predicate LooksLikeSelect(query: string) {
    StartsWith(Strip(Lower(query)), "select")
  }

  /** The safety gate of lines 46-57: strip the completion, then refuse it
      unless it starts with "select" (ignoring case), then refuse it if its
      upper-cased form contains a denylisted word anywhere. */
  function Validate(completion: string): (r: Result<string>)
    ensures r.Ok? ==> r.value == Strip(completion)
    ensures r.Err? ==> r.error == ShapeError + Strip(completion) || r.error == UnsafeError + Strip(completion)
  {
    var query := Strip(completion);
    if !LooksLikeSelect(query) then Err(ShapeError + query)
    else if HasDeniedKeyword(Upper(query)) then Err(UnsafeError + query)
    else Ok(query)
  }

  /** The agent: build the prompt, ask the completion service, gate the answer.
      A failing completion service surfaces its own error text. */
  function Process(question: string, table: string, columns: seq<Column>,
                   complete: string -> Result<string>): (r: Result<string>)
    ensures complete(Prompt(question, table, ColumnList(columns))).Err? ==>
              r == Err(complete(Prompt(question, table, ColumnList(columns))).error)
    ensures complete(Prompt(question, table, ColumnList(columns))).Ok? ==>
              r == Validate(complete(Prompt(question, table, ColumnList(columns))).value)
  {
    var answer := complete(Prompt(question, table, ColumnList(columns)));
    if answer.Err? then Err(answer.error) else Validate(answer.value)
  }

  /** On a stripped query the second `strip()` of the shape test is a no-op. */
  lemma ShapeOfStripped(completion: string)
    ensures LooksLikeSelect(Strip(completion)) == StartsWith(Lower(Strip(completion)), "select")
  {
    StripLowerOfStripped(completion);
  }

  /** What the gate guarantees about a query it lets through. */
  predicate IsSafeQuery(q: string) {
    StartsWith(Lower(q), "select") && !HasDeniedKeyword(Upper(q))
  }

  /** The gate accepts exactly the completions whose stripped form passes both
      tests, and then hands back the stripped completion in its original case. */
  lemma ValidateAcceptsIff(completion: string)
    ensures Validate(completion).Ok?
            <==> StartsWith(Lower(Strip(completion)), "select") && !HasDeniedKeyword(Upper(Strip(completion)))
    ensures Validate(completion).Ok? ==> IsSafeQuery(Validate(completion).value)
  {
    ShapeOfStripped(completion);
  }

  /** `process` hands back a query only when that query passes the gate. */
  lemma ProcessIsGated(question: string, table: string, columns: seq<Column>,
                       complete: string -> Result<string>)
    ensures Process(question, table, columns, complete).Ok? ==>
              IsSafeQuery(Process(question, table, columns, complete).value)
  {
    var answer := Process(question, table, columns, complete);
    if answer.Ok? {
      var text :| complete(Prompt(question, table, ColumnList(columns))) == Ok(text)
                  && Validate(text) == Ok(answer.value);
      ValidateAcceptsIff(text);
    }
  }

  /** The shape test runs first: a completion failing it reports the shape
      error whatever the denylist would say. */
  lemma ShapeCheckedFirst(completion: string)
    requires !StartsWith(Lower(Strip(completion)), "select")
    ensures Validate(completion) == Err(ShapeError + Strip(completion))
  {
    ShapeOfStripped(completion);
  }

  /** A completion of the right shape with a denylisted word anywhere in it
      is refused with the unsafe-query error. */
  lemma DeniedWordRejected(completion: string, k: nat, i: nat)
    requires StartsWith(Lower(Strip(completion)), "select")
    requires k < |Denylist| && OccursAt(Upper(Strip(completion)), Denylist[k], i)
    ensures Validate(completion) == Err(UnsafeError + Strip(completion))
  {
    ShapeOfStripped(completion);
    OccurrenceIsDenied(Upper(Strip(completion)), k, i);
  }

  lemma OccurrenceIsDenied(u: string, k: nat, i: nat)
    requires k < |Denylist| && OccursAt(u, Denylist[k], i)
    ensures HasDeniedKeyword(u)
  {
  }

  /** No slice of an accepted query, in any letter case, spells a denylisted word. */
  lemma AcceptedHasNoDeniedWord(completion: string, k: nat, i: nat)
    requires Validate(completion).Ok?
    requires k < |Denylist|
    requires i + |Denylist[k]| <= |Validate(completion).value|
    ensures Upper(Validate(completion).value[i..i + |Denylist[k]|]) != Denylist[k]
  {
    ValidateAcceptsIff(completion);
    SafeQueryHasNoDeniedWord(Validate(completion).value, k, i);
  }

  lemma SafeQueryHasNoDeniedWord(q: string, k: nat, i: nat)
    requires !HasDeniedKeyword(Upper(q))
    requires k < |Denylist| && i + |Denylist[k]| <= |q|
    ensures Upper(q[i..i + |Denylist[k]|]) != Denylist[k]
  {
    var w := Denylist[k];
    UpperSlice(q, i, i + |w|);
    if Upper(q[i..i + |w|]) == w {
      OccurrenceIsDenied(Upper(q), k, i);
      assert false;
    }
  }

  /** A column called `updated_at` in an otherwise harmless query is refused:
      the denylist is a substring test with no word boundary. */
  lemma UpdatedAtColumnRejected()
    ensures Validate("SELECT updated_at FROM t") == Err(UnsafeError + "SELECT updated_at FROM t")
  {
    var q := "SELECT updated_at FROM t";
    StripNoop(q);
    assert Lower(q)[..6] == "select";
    assert Upper(q)[7..13] == "UPDATE";
    DeniedWordRejected(q, 2, 7);
  }

  /** "DROP TABLE x" never reaches the denylist: it fails the shape test. */
  lemma DropTableRejected()
    ensures Validate("DROP TABLE x") == Err(ShapeError + "DROP TABLE x")
  {
    var q := "DROP TABLE x";
    StripNoop(q);
    assert Lower(q)[0] == 'd';
    ShapeCheckedFirst(q);
  }
}
