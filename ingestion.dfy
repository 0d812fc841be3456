/** Model of `DataIngestionAgent.run` (crew_agents/agents/data_ingestion_agent.py):
    the extension and table name derived from the uploaded file's path, and the
    three-way dispatch to a loader. The database is a catalog from table names to
    table contents; what a loader reads from the file is a parameter. */
module Ingestion {
  import opened Common
  import opened Ascii

  datatype Format = Csv | Xlsx | Json

  /** The text after the last occurrence of `c` in `s`, or all of `s` when `c`
      does not occur: `s.split(c)[-1]` (and `s[s.rfind(c) + 1:]`). */
  function AfterLast(s: string, c: char): (r: string)
    ensures |r| <= |s| && r == s[|s| - |r|..]
    ensures c !in r
    ensures |r| < |s| ==> s[|s| - |r| - 1] == c
  {
    if s == [] then []
    else if s[|s| - 1] == c then []
    else AfterLast(s[..|s| - 1], c) + [s[|s| - 1]]
  }

  /** The lowercased text after the last '.' of the whole path. */
  function Extension(path: string): string {
    Lower(AfterLast(path, '.'))
  }

  /** `os.path.basename(file_path)` on a POSIX path. */
  function Basename(path: string): string {
    AfterLast(path, '/')
  }

  /** `s.replace(old, new)` for single characters. */
  function ReplaceChar(s: string, from: char, to: char): (r: string)
    ensures |r| == |s|
    ensures forall i :: 0 <= i < |s| ==> r[i] == (if s[i] == from then to else s[i])
  {
    seq(|s|, i requires 0 <= i < |s| => if s[i] == from then to else s[i])
  }

  /** The basename with every '.' turned into '_', then lowercased. */
  function TableName(path: string): string {
    Lower(ReplaceChar(Basename(path), '.', '_'))
  }

  /** The `if`/`elif` chain over the extension. */
  function FormatOf(ext: string): (r: Option<Format>)
    ensures r == Some(Csv) <==> ext == "csv"
    ensures r == Some(Xlsx) <==> ext == "xlsx"
    ensures r == Some(Json) <==> ext == "json"
  {
    if ext == "csv" then Some(Csv)
    else if ext == "xlsx" then Some(Xlsx)
    else if ext == "json" then Some(Json)
    else None
  }

  function UnsupportedError(ext: string): string {
    "Formato " + ext + " não suportado."
  }

  /** What a run hands back, and the catalog it leaves behind. */
  datatype Ingested<D> = Ingested(result: Result<string>, catalog: map<string, D>)

  /** `run(file_path)`. `load(format, path)` is what the database reads from the
      file with the loader for that format (`read_csv_auto`, `read_excel`,
      `pd.read_json`), or the text of the exception it raises. csv and xlsx run
      `CREATE OR REPLACE TABLE`, json registers the frame under the table name:
      either way the name now maps to the loaded contents. */
  function Ingest<D>(catalog: map<string, D>, path: string,
                     load: (Format, string) -> Result<D>): (out: Ingested<D>)
    ensures FormatOf(Extension(path)) == None ==>
              out == Ingested(Err(UnsupportedError(Extension(path))), catalog)
    ensures FormatOf(Extension(path)).Some? && load(FormatOf(Extension(path)).value, path).Err? ==>
              out == Ingested(Err(load(FormatOf(Extension(path)).value, path).error), catalog)
    ensures out.result.Ok? <==>
              FormatOf(Extension(path)).Some? && load(FormatOf(Extension(path)).value, path).Ok?
    ensures out.result.Ok? ==>
              out.result.value == TableName(path)
              && out.catalog == catalog[TableName(path) := load(FormatOf(Extension(path)).value, path).value]
  {
    var ext := Extension(path);
    var table := TableName(path);
    match FormatOf(ext)
    case None => Ingested(Err(UnsupportedError(ext)), catalog)
    case Some(format) =>
      match load(format, path)
      case Err(e) => Ingested(Err(e), catalog)
      case Ok(contents) => Ingested(Ok(table), catalog[table := contents])
  }

  /** The extension is the lower-cased text after the last '.' of the whole
      path; with no '.' it is the whole path, lower-cased. */
  lemma ExtensionIsLastSegment(path: string)
    ensures exists k :: 0 <= k <= |path| && Extension(path) == Lower(path[k..]) && '.' !in path[k..]
                        && (k == 0 || path[k - 1] == '.')
    ensures '.' !in path ==> Extension(path) == Lower(path)
  {
    var seg := AfterLast(path, '.');
    var k := |path| - |seg|;
    assert path[k..] == seg;
  }

  /** The table name has no '.', is as long as the basename, and has no
      upper-case letter. */
  lemma TableNameShape(path: string)
    ensures '.' !in TableName(path)
    ensures |TableName(path)| == |Basename(path)|
    ensures forall i :: 0 <= i < |TableName(path)| ==> !IsUpperChar(TableName(path)[i])
  {

  }

  /** The table name depends only on the basename: files uploaded from
      different directories under the same name share one table. */
  lemma TableNameOfBasename(p1: string, p2: string)
    requires Basename(p1) == Basename(p2)
    ensures TableName(p1) == TableName(p2)
  {
  }

  /** Ingesting a second file with the same basename leaves the catalog as if
      only the second had been ingested: the table is replaced, not duplicated. */
  lemma ReingestReplaces<D>(catalog: map<string, D>, p1: string, p2: string,
                            load: (Format, string) -> Result<D>)
    requires Basename(p1) == Basename(p2)
    requires Ingest(catalog, p2, load).result.Ok?
    ensures Ingest(Ingest(catalog, p1, load).catalog, p2, load).catalog == Ingest(catalog, p2, load).catalog
    ensures Ingest(Ingest(catalog, p1, load).catalog, p2, load).catalog.Keys == catalog.Keys + {TableName(p2)}
  {
    TableNameOfBasename(p1, p2);
    var name := TableName(p2);
    var first := Ingest(catalog, p1, load).catalog;
    IngestedCatalog(catalog, p1, load);
    IngestedCatalog(catalog, p2, load);
    IngestedCatalog(first, p2, load);
    var contents := Loaded(p2, load);
    if Ingest(catalog, p1, load).result.Ok? {
      OverwriteTwice(catalog, name, Loaded(p1, load), contents);
    }
    UpdateKeys(catalog, name, contents);
  }

  /** The contents a successful load of `path` yields. */
  function Loaded<D>(path: string, load: (Format, string) -> Result<D>): D
    requires FormatOf(Extension(path)).Some? && load(FormatOf(Extension(path)).value, path).Ok?
  {
    load(FormatOf(Extension(path)).value, path).value
  }

  lemma IngestedCatalog<D>(catalog: map<string, D>, path: string, load: (Format, string) -> Result<D>)
    ensures Ingest(catalog, path, load).result.Ok? ==>
              Ingest(catalog, path, load).catalog == catalog[TableName(path) := Loaded(path, load)]
    ensures Ingest(catalog, path, load).result.Err? ==> Ingest(catalog, path, load).catalog == catalog
  {
  }

  lemma UpdateKeys<K, V>(m: map<K, V>, k: K, v: V)
    ensures m[k := v].Keys == m.Keys + {k}
  {
  }

  lemma OverwriteTwice<K, V>(m: map<K, V>, k: K, a: V, b: V)
    ensures m[k := a][k := b] == m[k := b]
  {
  }

  /** The csv loader is chosen exactly when the text after the last '.' spells
      `csv` in any mix of letter cases, and an unsupported extension is none of
      the three. */
  lemma DispatchIgnoresCase(path: string)
    ensures FormatOf(Extension(path)) == Some(Csv) <==>
              var e := AfterLast(path, '.');
              |e| == 3 && (e[0] == 'c' || e[0] == 'C') && (e[1] == 's' || e[1] == 'S') && (e[2] == 'v' || e[2] == 'V')
    ensures FormatOf(Extension(path)) == None ==>
              Extension(path) != "csv" && Extension(path) != "xlsx" && Extension(path) != "json"
  {
    var e := AfterLast(path, '.');
    if |e| == 3 {
      LowerCharIs(e[0], 'c');
      LowerCharIs(e[1], 's');
      LowerCharIs(e[2], 'v');
      assert Extension(path) == [LowerChar(e[0]), LowerChar(e[1]), LowerChar(e[2])];
    }
  }

  /** A character lowercases to the letter `l` exactly when it is `l` or its capital. */
  lemma LowerCharIs(c: char, l: char)
    requires IsLowerChar(l)
    ensures LowerChar(c) == l <==> c == l || c == (l as int - 32) as char
  {
  }

  /** A mixed-case extension selects its loader. */
  lemma UpperCaseExtension()
    ensures Extension("d/A.CSV") == "csv"
  {
    assert AfterLast("d/A.CSV", '.') == "CSV" by {
      assert AfterLast("d/A.", '.') == [];
      assert AfterLast("d/A.C", '.') == "C";
      assert AfterLast("d/A.CS", '.') == "CS";
    }
  }

  /** Every '.' of the basename, the extension's included, becomes '_'. */
  lemma TableNameExample()
    ensures TableName("d/A.CSV") == "a_csv"
  {
    BasenameExample();
    assert ReplaceChar("A.CSV", '.', '_') == "A_CSV";
    assert Lower("A_CSV") == "a_csv";
  }

  /** The basename is what follows the last '/'. */
  lemma BasenameExample()
    ensures Basename("d/A.CSV") == "A.CSV"
  {
    assert AfterLast("d/", '/') == [];
    assert AfterLast("d/A", '/') == "A";
    assert AfterLast("d/A.", '/') == "A.";
    assert AfterLast("d/A.C", '/') == "A.C";
    assert AfterLast("d/A.CS", '/') == "A.CS";
  }
}
