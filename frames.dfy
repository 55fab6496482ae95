/**
 * The few pandas DataFrame operations the emergency-room helpers use, on a value model of
 * a frame: its column names in order and one map from column name to cell per row. A frame
 * is a value, so `df.copy()` followed by in-place changes is a new frame and the caller's
 * frame never changes.
 */
module Frames {
  /** A cell: missing (`None`/NaN), an integer, a float, a text or a boolean. */
  datatype Value = Null | Int(i: int) | Num(r: real) | Text(s: string) | Flag(b: bool)

  type Row = map<string, Value>

  datatype Frame = Frame(columns: seq<string>, rows: seq<Row>)

  predicate Distinct(columns: seq<string>) {
    forall i, j :: 0 <= i < j < |columns| ==> columns[i] != columns[j]
  }

  /** Distinct column names, and every row has exactly those cells. */
  ghost predicate Valid(f: Frame) {
    && Distinct(f.columns)
    && forall i :: 0 <= i < |f.rows| ==> HasCells(f.rows[i], f.columns)
  }

  /** A row with a cell under each of the columns and under no other name. */
  ghost predicate HasCells(row: Row, columns: seq<string>) {
    forall c :: c in row <==> c in columns
  }

  /** Python truthiness of a cell: missing, `0`, `0.0`, `""` and `False` are false. */
  predicate Truthy(v: Value) {
    match v
    case Null => false
    case Int(i) => i != 0
    case Num(r) => r != 0.0
    case Text(s) => s != ""
    case Flag(b) => b
  }

  /** The columns after `df[col] = ...`: a new column goes last, an existing one stays put. */
  function AddColumn(columns: seq<string>, col: string): (cs: seq<string>)
    ensures col in cs
    ensures forall c :: c in cs <==> c in columns || c == col
    ensures Distinct(columns) ==> Distinct(cs)
    ensures col !in columns ==> cs == columns + [col]
    ensures col in columns ==> cs == columns
  {
    if col in columns then columns else columns + [col]
  }

  /** `df[col] = values`, one value per row. */
  function Assign(f: Frame, col: string, values: seq<Value>): (g: Frame)
    requires |values| == |f.rows|
    ensures g.columns == AddColumn(f.columns, col)
    ensures |g.rows| == |f.rows|
    ensures forall i :: 0 <= i < |f.rows| ==> g.rows[i] == f.rows[i][col := values[i]]
    ensures Valid(f) ==> Valid(g)
  {
    var g := Frame(AddColumn(f.columns, col), seq(|f.rows|, i requires 0 <= i < |f.rows| => f.rows[i][col := values[i]]));
    assert Valid(f) ==> Valid(g) by {
      if Valid(f) {
        forall i | 0 <= i < |g.rows| ensures HasCells(g.rows[i], g.columns) {
          assert HasCells(f.rows[i], f.columns);
        }
      }
    }
    g
  }

  /** `df[col] = v`: the same value in every row. */
  function Fill(f: Frame, col: string, v: Value): (g: Frame)
    ensures g == Assign(f, col, seq(|f.rows|, i => v))
  {
    Assign(f, col, seq(|f.rows|, i => v))
  }

  /** A row without one of its cells. */
  function Without(row: Row, col: string): Row {
    row - {col}
  }

  /** Dropping a cell forgets what was last written to it. */
  lemma WithoutUpdated(row: Row, col: string, v: Value)
    ensures Without(row[col := v], col) == Without(row, col)
  {
    var a, b := Without(row[col := v], col), Without(row, col);
    assert a.Keys == b.Keys;
    forall c | c in a.Keys ensures a[c] == b[c] {
    }
  }

  /** `df.drop(columns=[col])` */
  function Drop(f: Frame, col: string): (g: Frame)
    requires col in f.columns
    ensures forall c :: c in g.columns <==> c in f.columns && c != col
    ensures |g.rows| == |f.rows|
    ensures forall i :: 0 <= i < |f.rows| ==> g.rows[i] == Without(f.rows[i], col)
    ensures Valid(f) ==> Valid(g)
  {
    var cs := RemoveAll(f.columns, col);
    var g := Frame(cs, seq(|f.rows|, i requires 0 <= i < |f.rows| => Without(f.rows[i], col)));
    assert Valid(f) ==> Valid(g) by {
      if Valid(f) {
        forall i | 0 <= i < |g.rows| ensures HasCells(g.rows[i], g.columns) {
          assert HasCells(f.rows[i], f.columns);
        }
      }
    }
    g
  }

  /** The columns without any occurrence of `col`, in order. */
  function RemoveAll(columns: seq<string>, col: string): (cs: seq<string>)
    ensures forall c :: c in cs <==> c in columns && c != col
    ensures Distinct(columns) ==> Distinct(cs)
    ensures col !in columns ==> cs == columns
    decreases |columns|
  {
    if columns == [] then []
    else
      var rest := RemoveAll(columns[1..], col);
      assert forall c :: c in columns <==> c == columns[0] || c in columns[1..];
      if columns[0] == col then rest
      else
        assert Distinct(columns) ==> columns[0] !in columns[1..] && Distinct(columns[1..]) by {
          if Distinct(columns) {
            forall j | 0 <= j < |columns| - 1 ensures columns[1..][j] != columns[0] {
              assert columns[1..][j] == columns[j + 1];
            }
          }
        }
        [columns[0]] + rest
  }

  /** Dropping a column just added, to a frame that lacked it, gives the frame back. */
  lemma DropAssigned(f: Frame, col: string, values: seq<Value>)
    requires Valid(f) && col !in f.columns && |values| == |f.rows|
    ensures Drop(Assign(f, col, values), col) == f
  {
    var g := Drop(Assign(f, col, values), col);
    assert f.columns + [col] == AddColumn(f.columns, col);
    assert g.columns == f.columns by {
      RemoveLast(f.columns, col);
    }
    forall i | 0 <= i < |f.rows| ensures g.rows[i] == f.rows[i] {
      assert HasCells(f.rows[i], f.columns);
      assert col !in f.rows[i];
    }
  }

  lemma {:induction false} RemoveLast(columns: seq<string>, col: string)
    requires col !in columns
    ensures RemoveAll(columns + [col], col) == columns
    decreases |columns|
  {
    if columns == [] {
      assert [] + [col] == [col];
      assert [col][1..] == [];
    } else {
      assert (columns + [col])[1..] == columns[1..] + [col];
      RemoveLast(columns[1..], col);
    }
  }

  /** Reordering the rows of a valid frame (`sort_values`) keeps it valid. */
  lemma ReorderedValid(f: Frame, rows: seq<Row>)
    requires Valid(f) && multiset(rows) == multiset(f.rows)
    ensures Valid(Frame(f.columns, rows))
  {
    forall i | 0 <= i < |rows| ensures HasCells(rows[i], f.columns) {
      assert rows[i] in multiset(f.rows);
      var k :| 0 <= k < |f.rows| && f.rows[k] == rows[i];
    }
  }

  /** `df[columns]`: the named columns in the given order. */
  function Select(f: Frame, columns: seq<string>): (g: Frame)
    ensures g.columns == columns && |g.rows| == |f.rows|
    ensures forall i :: 0 <= i < |f.rows| ==>
      forall c :: c in g.rows[i] <==> c in f.rows[i] && c in columns
    ensures forall i, c :: 0 <= i < |f.rows| && c in g.rows[i] ==> g.rows[i][c] == f.rows[i][c]
  {
    Frame(columns, seq(|f.rows|, i requires 0 <= i < |f.rows| => map c | c in f.rows[i] && c in columns :: f.rows[i][c]))
  }
}
