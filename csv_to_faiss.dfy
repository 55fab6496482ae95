/**
 * The disease-table converter (`csv_to_faiss.py`): each row of a symptom table (one 0/1
 * column per symptom and a `Disease` column) becomes the list of symptoms it marks, the
 * embedding of that list joined with commas, and a metadata record; the embeddings go into
 * a flat L2 index saved beside the records under names derived from the table's file name.
 *
 * The table is what `pd.read_csv` gives: its column names (which pandas keeps distinct) and
 * one map from column name to cell per row. The embedding request is `embed` (`None`: it
 * raised).
 */
module CsvToFaiss {
  import opened Wrappers
  import opened PyText
  import Ranking
  import opened VectorFaiss

  /** A cell as pandas reads it: a number, a text, or missing (NaN). */
  datatype Cell = Number(value: real) | Text(text: string) | Missing

  type Row = map<string, Cell>

  /** `{'disease': row['Disease'], 'symptoms': symptoms_present}` */
  datatype DiseaseRecord = DiseaseRecord(disease: Cell, symptoms: seq<string>)

  /** The column whose value names the disease. */
  const DiseaseColumn: string := "Disease"
  /** The lower-cased column name that is not a symptom. */
  const DiseaseKey: string := "disease"
  /** The folder the outputs are written to. */
  const OutputFolder: string := "rag_utils/"

  /** A table whose every row has a cell under every column, and under no other name. */
  predicate Complete(columns: seq<string>, rows: seq<Row>) {
    forall i :: 0 <= i < |rows| ==> rows[i].Keys == set c | c in columns
  }

  predicate IsSymptomColumn(c: string) {
    Lower(c) != DiseaseKey
  }

  /** `[col for col in df.columns if col.lower() != 'disease']` */
  function SymptomColumns(columns: seq<string>): (cols: seq<string>)
    ensures forall c :: c in cols <==> c in columns && IsSymptomColumn(c)
  {
    Ranking.FilterSubset(columns, IsSymptomColumn);
    Ranking.Filter(columns, IsSymptomColumn)
  }

  /** `row[col] == 1`: pandas compares the number, so `1` and `1.0` both mark the symptom. */
  function Marked(row: Row): (f: string -> bool)
    ensures forall c :: f(c) <==> c in row && row[c] == Number(1.0)
  {
    c => c in row && row[c] == Number(1.0)
  }

  /** `[col for col in symptom_cols if row[col] == 1]` */
  function SymptomsPresent(columns: seq<string>, row: Row): (present: seq<string>)
    ensures forall c :: c in present <==> c in columns && IsSymptomColumn(c) && c in row && row[c] == Number(1.0)
  {
    Ranking.FilterSubset(SymptomColumns(columns), Marked(row));
    Ranking.Filter(SymptomColumns(columns), Marked(row))
  }

  predicate MarkedSymptom(row: Row, c: string) {
    IsSymptomColumn(c) && c in row && row[c] == Number(1.0)
  }

  /** The marked symptoms keep the table's column order: one filter over the columns gives them. */
  lemma SymptomsInColumnOrder(columns: seq<string>, row: Row)
    ensures SymptomsPresent(columns, row) == Ranking.Filter(columns, c => MarkedSymptom(row, c))
  {
    Ranking.FilterImplied(columns, IsSymptomColumn, c => MarkedSymptom(row, c));
    FilterSame(SymptomColumns(columns), Marked(row), c => MarkedSymptom(row, c));
  }

  /** Filters by predicates that agree on the elements give the same result. */
  lemma {:induction false} FilterSame(s: seq<string>, p: string -> bool, q: string -> bool)
    requires forall i :: 0 <= i < |s| ==> (p(s[i]) <==> q(s[i]))
    ensures Ranking.Filter(s, p) == Ranking.Filter(s, q)
    decreases |s|
  {
    if s != [] {
      FilterSame(s[1..], p, q);
    }
  }

  /** `', '.join(symptoms_present)` */
  function RowText(columns: seq<string>, row: Row): string {
    Join(SymptomsPresent(columns, row), ", ")
  }

  /** The metadata record of a row; the table must have a `Disease` column. */
  function RecordOf(columns: seq<string>, row: Row): DiseaseRecord
    requires DiseaseColumn in row
  {
    DiseaseRecord(row[DiseaseColumn], SymptomsPresent(columns, row))
  }

  /** The flat index and the records `main` saves, built the way the loop builds them. */
  function Convert(columns: seq<string>, rows: seq<Row>, embed: string -> Option<Vector>, width: nat)
    : (r: Result<(FlatIndex, seq<DiseaseRecord>)>)
    requires Complete(columns, rows) && Uniform(embed, width)
    ensures r.Success? <==>
      && rows != [] && DiseaseColumn in columns
      && forall i :: 0 <= i < |rows| ==> embed(RowText(columns, rows[i])).Some?
    ensures r.Success? ==>
      var (index, meta) := r.value;
      && |meta| == |rows| && |index.rows| == |rows|
      && index.dimension == width && WellFormed(index)
      && forall i :: 0 <= i < |rows| ==>
           && meta[i] == RecordOf(columns, rows[i])
           && embed(RowText(columns, rows[i])) == Some(index.rows[i])
  {
    if rows == [] then Failure("need at least one array to concatenate")
    else if DiseaseColumn !in columns then Failure("KeyError: 'Disease'")
    else if exists i :: 0 <= i < |rows| && embed(RowText(columns, rows[i])).None? then Failure(EmbeddingError)
    else
      var vectors := seq(|rows|, i requires 0 <= i < |rows| => embed(RowText(columns, rows[i])).value);
      var meta := seq(|rows|, i requires 0 <= i < |rows| => RecordOf(columns, rows[i]));
      assert forall i :: 0 <= i < |rows| ==> embed(RowText(columns, rows[i])) == Some(vectors[i]);
      Success((FlatIndex(width, vectors), meta))
  }

  /**
   * The loop of `main`: one embedding and one record per row, in order. The first row
   * without a `Disease` cell raises `KeyError` (after its embedding was requested), an
   * embedding request that raises ends the run, and stacking no embeddings raises.
   */
  method BuildDiseaseIndex(columns: seq<string>, rows: seq<Row>, embed: string -> Option<Vector>, width: nat)
    returns (r: Result<(FlatIndex, seq<DiseaseRecord>)>)
    requires Complete(columns, rows) && Uniform(embed, width)
    ensures r.Success? <==> Convert(columns, rows, embed, width).Success?
    ensures r.Success? ==> r == Convert(columns, rows, embed, width)
  {
    forall i | 0 <= i < |rows| ensures DiseaseColumn in rows[i] <==> DiseaseColumn in columns {
      HasColumn(columns, rows, i);
    }
    var gathered := EmbedRows(columns, rows, embed);
    if gathered.Failure? {
      return Failure(gathered.error);
    }
    var embeddings, meta := gathered.value.0, gathered.value.1;
    if embeddings == [] {
      return Failure("need at least one array to concatenate");
    }
    ConvertBuilt(columns, rows, embed, width, embeddings, meta);
    r := Success((FlatIndex(width, embeddings), meta));
  }

  /** The row loop: the embedding and the record of each row, stopping at the first failure. */
  method EmbedRows(columns: seq<string>, rows: seq<Row>, embed: string -> Option<Vector>)
    returns (r: Result<(seq<Vector>, seq<DiseaseRecord>)>)
    requires forall i :: 0 <= i < |rows| ==> (DiseaseColumn in rows[i] <==> DiseaseColumn in columns)
    ensures r.Failure? ==>
      || (rows != [] && DiseaseColumn !in columns)
      || exists i :: 0 <= i < |rows| && embed(RowText(columns, rows[i])).None?
    ensures r.Success? ==> |r.value.0| == |rows| && |r.value.1| == |rows|
    ensures r.Success? ==> rows != [] ==> DiseaseColumn in columns
    ensures r.Success? ==> forall j :: 0 <= j < |rows| ==> embed(RowText(columns, rows[j])) == Some(r.value.0[j])
    ensures r.Success? ==> forall j :: 0 <= j < |rows| ==> DiseaseColumn in rows[j] && r.value.1[j] == RecordOf(columns, rows[j])
  {
    var embeddings: seq<Vector> := [];
    var meta: seq<DiseaseRecord> := [];
    var i := 0;
    while i < |rows|
      invariant 0 <= i <= |rows|
      invariant |embeddings| == i && |meta| == i
      invariant forall j :: 0 <= j < i ==> embed(RowText(columns, rows[j])) == Some(embeddings[j])
      invariant i > 0 ==> DiseaseColumn in columns
      invariant forall j :: 0 <= j < i ==> DiseaseColumn in rows[j] && meta[j] == RecordOf(columns, rows[j])
    {
      var step := EmbedRow(columns, rows, i, embed);
      if step.Failure? {
        return Failure(step.error);
      }
      embeddings := embeddings + [step.value.0];
      meta := meta + [step.value.1];
      i := i + 1;
    }
    r := Success((embeddings, meta));
  }

  /**
   * The loop body for row `i`: its marked symptoms, the embedding of their text, and its
   * record; `KeyError` when the row has no `Disease` cell.
   */
  method EmbedRow(columns: seq<string>, rows: seq<Row>, i: nat, embed: string -> Option<Vector>)
    returns (r: Result<(Vector, DiseaseRecord)>)
    requires i < |rows| && (DiseaseColumn in rows[i] <==> DiseaseColumn in columns)
    ensures r.Failure? ==> embed(RowText(columns, rows[i])).None? || DiseaseColumn !in columns
    ensures r.Success? ==>
      && embed(RowText(columns, rows[i])) == Some(r.value.0)
      && DiseaseColumn in columns && DiseaseColumn in rows[i]
      && r.value.1 == RecordOf(columns, rows[i])
  {
    var row := rows[i];
    var present := SymptomsPresent(columns, row);
    var text := Join(present, ", ");
    var emb := embed(text);
    if emb.None? {
      return Failure(EmbeddingError);
    }
    if DiseaseColumn !in row {
      return Failure("KeyError: 'Disease'");
    }
    r := Success((emb.value, DiseaseRecord(row[DiseaseColumn], present)));
  }

  /** What the loop gathers, once every row is done, is what `Convert` describes. */
  lemma ConvertBuilt(columns: seq<string>, rows: seq<Row>, embed: string -> Option<Vector>, width: nat,
                     embeddings: seq<Vector>, meta: seq<DiseaseRecord>)
    requires Complete(columns, rows) && Uniform(embed, width)
    requires rows != [] && DiseaseColumn in columns
    requires |embeddings| == |rows| && |meta| == |rows|
    requires forall j :: 0 <= j < |rows| ==> embed(RowText(columns, rows[j])) == Some(embeddings[j])
    requires forall j :: 0 <= j < |rows| ==> DiseaseColumn in rows[j] && meta[j] == RecordOf(columns, rows[j])
    ensures Convert(columns, rows, embed, width) == Success((FlatIndex(width, embeddings), meta))
  {
    var expected := Convert(columns, rows, embed, width);
    assert expected.Success?;
    var (index, records) := expected.value;
    assert index.rows == embeddings by {
      forall j | 0 <= j < |rows| ensures index.rows[j] == embeddings[j] {
        assert embed(RowText(columns, rows[j])) == Some(index.rows[j]);
      }
    }
    assert records == meta;
  }

  /** A row has a `Disease` cell exactly when the table has that column. */
  lemma HasColumn(columns: seq<string>, rows: seq<Row>, i: nat)
    requires Complete(columns, rows) && i < |rows|
    ensures DiseaseColumn in rows[i] <==> DiseaseColumn in columns
  {
    assert rows[i].Keys == set c | c in columns;
  }

  /** The part of a path after its last `/` (`os.path.basename`). */
  function Basename(path: string): (b: string)
    ensures '/' !in b
    ensures |b| <= |path|
    decreases |path|
  {
    if path == [] then []
    else if path[|path| - 1] == '/' then []
    else Basename(path[..|path| - 1]) + [path[|path| - 1]]
  }

  /** `os.path.splitext(name)[0]`: drops the text from the last dot, unless only dots precede it. */
  function Stem(name: string): (s: string)
  {
    var dot := LastDot(name, |name|);
    if dot < 0 || OnlyDots(name[..dot]) then name else name[..dot]
  }

  /** The position of the last `.` in `name[..end]`, or -1. */
  function LastDot(name: string, end: nat): (k: int)
    requires end <= |name|
    ensures -1 <= k < end
    ensures k >= 0 ==> name[k] == '.' && forall j :: k < j < end ==> name[j] != '.'
    ensures k < 0 ==> forall j :: 0 <= j < end ==> name[j] != '.'
  {
    if end == 0 then -1
    else if name[end - 1] == '.' then end - 1
    else LastDot(name, end - 1)
  }

  predicate OnlyDots(s: string) {
    forall j :: 0 <= j < |s| ==> s[j] == '.'
  }

  /** `rag_utils/<base>.index` */
  function IndexPath(csvPath: string): string {
    OutputFolder + Stem(Basename(csvPath)) + ".index"
  }

  /** `rag_utils/<base>_meta.json` */
  function MetaPath(csvPath: string): string {
    OutputFolder + Stem(Basename(csvPath)) + "_meta.json"
  }

  /** A plain file name: not empty, no dot and no slash. */
  predicate PlainName(n: string) {
    n != [] && '.' !in n && '/' !in n
  }

  /**
   * A table at `<folder>/<name>.<ext>` is saved as `rag_utils/<name>.index` and
   * `rag_utils/<name>_meta.json`.
   */
  lemma {:induction false} OutputNames(folder: string, name: string, ext: string)
    requires PlainName(name) && '.' !in ext && '/' !in ext
    ensures IndexPath(folder + "/" + name + "." + ext) == OutputFolder + name + ".index"
    ensures MetaPath(folder + "/" + name + "." + ext) == OutputFolder + name + "_meta.json"
  {
    var path := folder + "/" + name + "." + ext;
    var b := name + "." + ext;
    assert path == (folder + "/") + b;
    BasenameOfSuffix(folder + "/", b);
    var k := LastDot(b, |b|);
    assert b[|name|] == '.';
    assert k == |name| by {
      assert forall j :: 0 <= j < |name| ==> b[j] == name[j];
    }
    assert b[..k] == name;
    assert !OnlyDots(name) by {
      assert name[0] in name;
    }
    assert Stem(b) == name;
  }

  /** The base name of a path ending in `/` followed by a name without `/` is that name. */
  lemma {:induction false} BasenameOfSuffix(prefix: string, name: string)
    requires prefix != [] && prefix[|prefix| - 1] == '/' && '/' !in name
    ensures Basename(prefix + name) == name
    decreases |name|
  {
    if name == [] {
      assert prefix + name == prefix;
    } else {
      var init := name[..|name| - 1];
      assert (prefix + name)[..|prefix + name| - 1] == prefix + init;
      BasenameOfSuffix(prefix, init);
      assert init + [name[|name| - 1]] == name;
    }
  }

  /** The command line: the table's path, or exit status 1 when it is missing. */
  function CommandLine(argv: seq<string>): (r: Result<string>)
    ensures r.Failure? <==> |argv| < 2
    ensures r.Success? ==> r.value == argv[1]
  {
    if |argv| < 2 then Failure("Usage: python csv_to_faiss.py <csv_path>") else Success(argv[1])
  }
}
