/**
 * Travel times for emergency rooms (`er_utils/direction_for_er.py`): every hospital row
 * with coordinates gets the public-transport time and distance from the user, the time is
 * split into hours, minutes and seconds, and the rows are sorted by travel time and then by
 * how far the hospital's bed balance (`hvec`) is from zero.
 *
 * The frame is a value, so the copy the code takes first and its in-place changes leave
 * the caller's frame as it was. `float()` of a text cell is the function `toFloat` (`None`:
 * it raises `ValueError`) and the Directions request for a destination is `directions`
 * (`Failure`: it raised).
 */
module DirectionForEr {
  import opened Wrappers
  import opened Frames
  import Ranking
  import Direction

  const LatColumn: string := "wgs84Lat"
  const LonColumn: string := "wgs84Lon"
  const HvecColumn: string := "hvec"
  const SecColumn: string := "transit_travel_time_sec"
  const KmColumn: string := "transit_travel_distance_km"
  const HourColumn: string := "transit_travel_time_h"
  const MinuteColumn: string := "transit_travel_time_m"
  const SecondColumn: string := "transit_travel_time_s"
  /** The helper column the sort uses and the result drops. */
  const HvecAbsColumn: string := "hvec_abs"

  /** The five columns the result gains, in the order they are assigned. */
  function NewColumns(): seq<string> {
    [SecColumn, KmColumn, HourColumn, MinuteColumn, SecondColumn]
  }

  /** The calls the computation makes: `float()` of a text and the Directions request. */
  datatype Services = Services(toFloat: string -> Option<real>,
                               directions: (real, real) -> Result<Direction.DirectionsReply>)

  /** The cell under `col`, `Null` when the row has none. */
  function CellAt(row: Row, col: string): Value {
    if col in row then row[col] else Null
  }

  /** `float(v)`: a missing cell raises `TypeError`, a text that is no number `ValueError`. */
  function FloatOf(v: Value, toFloat: string -> Option<real>): (r: Result<real>)
    ensures v.Null? ==> r.Failure?
    ensures v.Int? ==> r == Success(v.i as real)
    ensures v.Num? ==> r == Success(v.r)
    ensures v.Text? ==> (r.Success? <==> toFloat(v.s).Some?)
  {
    match v
    case Null => Failure("TypeError: float() argument must be a string or a real number")
    case Int(i) => Success(i as real)
    case Num(x) => Success(x)
    case Text(s) => if toFloat(s).Some? then Success(toFloat(s).value) else Failure("ValueError: could not convert string to float")
    case Flag(b) => Success(if b then 1.0 else 0.0)
  }

  /**
   * `enrich_row_with_transit(row)`: with both coordinates truthy, their floats go to the
   * Directions request and its answer is read as `get_travel_time_er` reads it; otherwise no
   * request is made and time and distance are missing. A row without the coordinate cells
   * raises `KeyError`.
   */
  function Transit(row: Row, svc: Services): (r: Result<Direction.Travel>)
    ensures (LatColumn !in row || LonColumn !in row) ==> r.Failure?
    ensures LatColumn in row && LonColumn in row && !(Truthy(row[LatColumn]) && Truthy(row[LonColumn])) ==>
      r == Success(Direction.Travel(None, None))
    ensures r.Success? ==> (r.value.seconds.Some? <==> r.value.km.Some?)
  {
    if LatColumn !in row then Failure("KeyError: 'wgs84Lat'")
    else if LonColumn !in row then Failure("KeyError: 'wgs84Lon'")
    else if Truthy(row[LatColumn]) && Truthy(row[LonColumn]) then
      match FloatOf(row[LatColumn], svc.toFloat)
      case Failure(e) => Failure(e)
      case Success(lat) =>
        match FloatOf(row[LonColumn], svc.toFloat)
        case Failure(e) => Failure(e)
        case Success(lon) =>
          match svc.directions(lat, lon)
          case Failure(e) => Failure(e)
          case Success(reply) => Direction.TravelTimeAndDistance(reply)
    else Success(Direction.Travel(None, None))
  }

  /** The result of `f` on every element, or the first failure (`df.apply` and `astype`). */
  function Collect<A, B>(xs: seq<A>, f: A -> Result<B>): (r: Result<seq<B>>)
    ensures r.Success? <==> forall i :: 0 <= i < |xs| ==> f(xs[i]).Success?
    ensures r.Success? ==> |r.value| == |xs| && forall i :: 0 <= i < |xs| ==> f(xs[i]) == Success(r.value[i])
    decreases |xs|
  {
    if xs == [] then Success([])
    else
      match f(xs[0])
      case Failure(e) => Failure(e)
      case Success(y) =>
        match Collect(xs[1..], f)
        case Failure(e) =>
          assert forall i :: 0 <= i < |xs| - 1 ==> xs[1..][i] == xs[i + 1];
          Failure(e)
        case Success(ys) =>
          assert forall i :: 1 <= i < |xs| ==> xs[i] == xs[1..][i - 1];
          Success([y] + ys)
  }

  function SecCell(t: Direction.Travel): Value {
    if t.seconds.Some? then Int(t.seconds.value) else Null
  }

  function KmCell(t: Direction.Travel): Value {
    if t.km.Some? then Num(t.km.value) else Null
  }

  /** `fillna(0).astype(int)` of a time cell; the time column only holds integers and missing cells. */
  function SecondsOrZero(v: Value): int {
    if v.Int? then v.i else 0
  }

  /** The split of a row's time, missing counted as 0. */
  function ClockOf(row: Row): Direction.Clock {
    Direction.SplitSeconds(SecondsOrZero(CellAt(row, SecColumn)))
  }

  function HourCell(row: Row): Value { Int(ClockOf(row).h) }
  function MinuteCell(row: Row): Value { Int(ClockOf(row).m) }
  function SecondCell(row: Row): Value { Int(ClockOf(row).s) }

  function Abs(x: real): real {
    if x < 0.0 then -x else x
  }

  /** `astype(float).abs()` of an `hvec` cell: a missing cell stays missing (NaN). */
  function HvecAbsCell(v: Value, toFloat: string -> Option<real>): (r: Result<Value>)
    ensures v.Null? ==> r == Success(Null)
    ensures r.Success? && !v.Null? ==> r.value.Num? && r.value.r >= 0.0
  {
    if v.Null? then Success(Null)
    else
      match FloatOf(v, toFloat)
      case Failure(e) => Failure(e)
      case Success(x) => Success(Num(Abs(x)))
  }

  /** The number a cell sorts by; `None` for a missing cell (NaN). */
  function SortNumber(v: Value): Option<real> {
    match v
    case Int(i) => Some(i as real)
    case Num(x) => Some(x)
    case _ => None
  }

  /** Ascending, with missing numbers after every present one and tied with each other. */
  predicate NumLe(x: Option<real>, y: Option<real>) {
    y.None? || (x.Some? && x.value <= y.value)
  }

  /** Lexicographic order on (time, |hvec|), each ascending with missing values last. */
  predicate KeyLe(a: (Option<real>, Option<real>), b: (Option<real>, Option<real>)) {
    NumLe(a.0, b.0) && (a.0 == b.0 ==> NumLe(a.1, b.1))
  }

  /** The sort key of a row while it has its `hvec_abs` cell. */
  function SortKey(row: Row): (Option<real>, Option<real>) {
    (SortNumber(CellAt(row, SecColumn)), SortNumber(CellAt(row, HvecAbsColumn)))
  }

  /** `sort_values(by=[sec, hvec_abs], ascending=[True, True])`, NaN last. */
  function ByTravel(): (le: (Row, Row) -> bool)
    ensures forall a, b :: le(a, b) <==> KeyLe(SortKey(a), SortKey(b))
  {
    (a, b) => KeyLe(SortKey(a), SortKey(b))
  }

  lemma ByTravelIsTotalPreorder()
    ensures Ranking.IsTotalPreorder(ByTravel())
  {
    var le := ByTravel();
    forall a: Row, b: Row, c: Row | le(a, b) && le(b, c) ensures le(a, c) {
      var ka, kb, kc := SortKey(a), SortKey(b), SortKey(c);
      assert KeyLe(ka, kb) && KeyLe(kb, kc);
      if ka.0 == kc.0 {
        assert ka.0 == kb.0;
      }
    }
  }

  /** A row with its time and distance cells. */
  function Travelled(row: Row, t: Direction.Travel): Row {
    row[SecColumn := SecCell(t)][KmColumn := KmCell(t)]
  }

  /** A row with its h/m/s cells, split from its time cell. */
  function Clocked(row: Row): Row {
    row[HourColumn := HourCell(row)][MinuteColumn := MinuteCell(row)][SecondColumn := SecondCell(row)]
  }

  /** The time and distance columns: `enriched_df[[sec, km]] = enriched_df.apply(...)`. */
  function WithTravel(df: Frame, ts: seq<Direction.Travel>): (g: Frame)
    requires |ts| == |df.rows|
    ensures |g.rows| == |df.rows|
    ensures g.columns == AddColumn(AddColumn(df.columns, SecColumn), KmColumn)
    ensures forall i :: 0 <= i < |df.rows| ==> g.rows[i] == Travelled(df.rows[i], ts[i])
  {
    Assign(Assign(df, SecColumn, Ranking.Map(ts, SecCell)), KmColumn, Ranking.Map(ts, KmCell))
  }

  /** The hour, minute and second columns, each computed from the time column. */
  function WithClock(f: Frame): (g: Frame)
    ensures |g.rows| == |f.rows|
    ensures g.columns == AddColumn(AddColumn(AddColumn(f.columns, HourColumn), MinuteColumn), SecondColumn)
    ensures forall i :: 0 <= i < |f.rows| ==> g.rows[i] == Clocked(f.rows[i])
  {
    var f2 := Assign(f, HourColumn, Ranking.Map(f.rows, HourCell));
    assert forall i :: 0 <= i < |f.rows| ==> CellAt(f2.rows[i], SecColumn) == CellAt(f.rows[i], SecColumn);
    var f3 := Assign(f2, MinuteColumn, Ranking.Map(f2.rows, MinuteCell));
    assert forall i :: 0 <= i < |f.rows| ==> CellAt(f3.rows[i], SecColumn) == CellAt(f.rows[i], SecColumn);
    Assign(f3, SecondColumn, Ranking.Map(f3.rows, SecondCell))
  }

  /** A row without its `hvec_abs` cell. */
  function DropHvecAbs(row: Row): Row {
    Without(row, HvecAbsColumn)
  }

  /** `hvec_abs` assigned, the stable sort, and `hvec_abs` dropped again. */
  function SortedWithout(f: Frame, hs: seq<Value>): (g: Frame)
    requires |hs| == |f.rows|
    ensures |g.rows| == |f.rows|
    ensures g.columns == RemoveAll(AddColumn(f.columns, HvecAbsColumn), HvecAbsColumn)
  {
    var f5 := Assign(f, HvecAbsColumn, hs);
    var sorted := Ranking.SortBy(f5.rows, ByTravel());
    assert |sorted| == |multiset(sorted)| == |f5.rows|;
    Drop(Frame(f5.columns, sorted), HvecAbsColumn)
  }

  /** The rows of `SortedWithout` are those of the frame, reordered, without `hvec_abs`. */
  lemma SortedWithoutRows(f: Frame, hs: seq<Value>)
    requires |hs| == |f.rows|
    ensures multiset(SortedWithout(f, hs).rows) == multiset(Ranking.Map(f.rows, DropHvecAbs))
  {
    var f5 := Assign(f, HvecAbsColumn, hs);
    var sorted := Ranking.SortBy(f5.rows, ByTravel());
    assert |sorted| == |multiset(sorted)| == |f5.rows|;
    var g := SortedWithout(f, hs);
    assert g.rows == Ranking.Map(sorted, DropHvecAbs) by {
      forall k | 0 <= k < |sorted| ensures g.rows[k] == DropHvecAbs(sorted[k]) {
      }
    }
    Ranking.MapPermutation(sorted, f5.rows, DropHvecAbs);
    assert Ranking.Map(f5.rows, DropHvecAbs) == Ranking.Map(f.rows, DropHvecAbs) by {
      forall k | 0 <= k < |f.rows| ensures DropHvecAbs(f5.rows[k]) == DropHvecAbs(f.rows[k]) {
        assert f5.rows[k] == f.rows[k][HvecAbsColumn := hs[k]];
        WithoutUpdated(f.rows[k], HvecAbsColumn, hs[k]);
      }
    }
  }

  /** Sorted by `hvec_abs` computed from `hvec`, the rows are sorted by the key read off `hvec`. */
  lemma SortedWithoutSorted(f: Frame, hs: seq<Value>, toFloat: string -> Option<real>)
    requires |hs| == |f.rows|
    requires forall i :: 0 <= i < |f.rows| ==> HvecAbsCell(CellAt(f.rows[i], HvecColumn), toFloat) == Success(hs[i])
    ensures var out := SortedWithout(f, hs).rows;
      forall i, j :: 0 <= i < j < |out| ==> KeyLe(ResultKey(out[i], toFloat), ResultKey(out[j], toFloat))
  {
    var f5 := Assign(f, HvecAbsColumn, hs);
    var sorted := Ranking.SortBy(f5.rows, ByTravel());
    ByTravelIsTotalPreorder();
    Ranking.SortBySorted(f5.rows, ByTravel());
    forall m | 0 <= m < |f5.rows| ensures ResultKey(DropHvecAbs(f5.rows[m]), toFloat) == SortKey(f5.rows[m]) {
      KeyKept(f.rows[m], hs[m], toFloat);
    }
    KeysCarried(f5.rows, sorted, SortedWithout(f, hs).rows, toFloat);
  }

  /** Dropping the `hvec_abs` cell just written from `hvec` leaves the key it was sorted by readable. */
  lemma KeyKept(row: Row, h: Value, toFloat: string -> Option<real>)
    requires HvecAbsCell(CellAt(row, HvecColumn), toFloat) == Success(h)
    ensures ResultKey(DropHvecAbs(row[HvecAbsColumn := h]), toFloat) == SortKey(row[HvecAbsColumn := h])
  {
    NamesDistinct();
  }

  /** A reordering sorted by `SortKey` gives, once each row loses `hvec_abs`, rows sorted by `ResultKey`. */
  lemma KeysCarried(rows: seq<Row>, sorted: seq<Row>, out: seq<Row>, toFloat: string -> Option<real>)
    requires multiset(sorted) == multiset(rows) && Ranking.SortedBy(sorted, ByTravel())
    requires |out| == |sorted| && forall k :: 0 <= k < |sorted| ==> out[k] == DropHvecAbs(sorted[k])
    requires forall m :: 0 <= m < |rows| ==> ResultKey(DropHvecAbs(rows[m]), toFloat) == SortKey(rows[m])
    ensures forall i, j :: 0 <= i < j < |out| ==> KeyLe(ResultKey(out[i], toFloat), ResultKey(out[j], toFloat))
  {
    forall k | 0 <= k < |sorted| ensures ResultKey(out[k], toFloat) == SortKey(sorted[k]) {
      assert sorted[k] in multiset(rows);
    }
  }

  /** Every row's `|hvec|`, or the first failure of `astype(float)`. */
  function HvecAbses(f: Frame, toFloat: string -> Option<real>): (r: Result<seq<Value>>)
    ensures r.Success? <==> forall i :: 0 <= i < |f.rows| ==> HvecAbsCell(CellAt(f.rows[i], HvecColumn), toFloat).Success?
    ensures r.Success? ==> |r.value| == |f.rows|
    ensures r.Success? ==> forall i :: 0 <= i < |f.rows| ==> HvecAbsCell(CellAt(f.rows[i], HvecColumn), toFloat) == Success(r.value[i])
  {
    Collect(f.rows, row => HvecAbsCell(CellAt(row, HvecColumn), toFloat))
  }

  /**
   * `calculate_travel_time_and_sort(enriched_df, ...)` on a copy of the frame: the time and
   * distance columns from one request per row, the h/m/s columns from the time, the
   * `hvec_abs` column, a stable sort by time and `hvec_abs`, and the helper column dropped.
   * A request that raises, a coordinate or `hvec` cell that is no number, or a missing
   * column fails the whole call.
   */
  function SortByTravel(df: Frame, svc: Services): (r: Result<Frame>)
    ensures r.Success? ==> |r.value.rows| == |df.rows|
  {
    match Transits(df, svc)
    case Failure(e) => Failure(e)
    case Success(ts) => AfterTransit(df, ts, svc.toFloat)
  }

  /** `enriched_df.apply(enrich_row_with_transit, axis=1)`: one request per row, in order. */
  function Transits(df: Frame, svc: Services): (r: Result<seq<Direction.Travel>>)
    ensures r.Success? <==> forall i :: 0 <= i < |df.rows| ==> Transit(df.rows[i], svc).Success?
    ensures r.Success? ==> |r.value| == |df.rows| && forall i :: 0 <= i < |df.rows| ==> Transit(df.rows[i], svc) == Success(r.value[i])
  {
    Collect(df.rows, row => Transit(row, svc))
  }

  /** Everything after the requests, given their answers `ts`. */
  function AfterTransit(df: Frame, ts: seq<Direction.Travel>, toFloat: string -> Option<real>): (r: Result<Frame>)
    requires |ts| == |df.rows|
    ensures r.Success? ==> |r.value.rows| == |df.rows|
  {
    var f := WithClock(WithTravel(df, ts));
    if HvecColumn !in f.columns then Failure("KeyError: 'hvec'")
    else
      match HvecAbses(f, toFloat)
      case Failure(e) => Failure(e)
      case Success(hs) => Success(SortedWithout(f, hs))
  }

  /** `calculate_travel_time_and_sort`, changing its copy of the frame one step at a time. */
  method CalculateTravelTimeAndSort(enrichedDf: Frame, svc: Services) returns (r: Result<Frame>)
    ensures r == SortByTravel(enrichedDf, svc)
  {
    var df := enrichedDf;
    var transit := Transits(df, svc);
    if transit.Failure? {
      return Failure(transit.error);
    }
    df := Assign(df, SecColumn, Ranking.Map(transit.value, SecCell));
    df := Assign(df, KmColumn, Ranking.Map(transit.value, KmCell));
    assert df == WithTravel(enrichedDf, transit.value);
    var travelled := df;
    df := Assign(df, HourColumn, Ranking.Map(df.rows, HourCell));
    df := Assign(df, MinuteColumn, Ranking.Map(df.rows, MinuteCell));
    df := Assign(df, SecondColumn, Ranking.Map(df.rows, SecondCell));
    assert df == WithClock(travelled);
    if HvecColumn !in df.columns {
      return Failure("KeyError: 'hvec'");
    }
    var abs := HvecAbses(df, svc.toFloat);
    if abs.Failure? {
      return Failure(abs.error);
    }
    var clocked := df;
    df := Assign(df, HvecAbsColumn, abs.value);
    var sorted := Ranking.SortBy(df.rows, ByTravel());
    assert |sorted| == |multiset(sorted)| == |df.rows|;
    df := df.(rows := sorted);
    df := Drop(df, HvecAbsColumn);
    assert df == SortedWithout(clocked, abs.value);
    return Success(df);
  }

  /** The row the result holds for an input row: its five new cells and no `hvec_abs` cell. */
  function ResultRow(row: Row, t: Direction.Travel): Row {
    DropHvecAbs(Clocked(Travelled(row, t)))
  }

  /** The sort key as read off a result row: its time and the `|hvec|` of its `hvec` cell. */
  function ResultKey(row: Row, toFloat: string -> Option<real>): (Option<real>, Option<real>) {
    var abs := HvecAbsCell(CellAt(row, HvecColumn), toFloat);
    (SortNumber(CellAt(row, SecColumn)), if abs.Success? then SortNumber(abs.value) else None)
  }

  /** The steps before `hvec_abs` leave the `hvec` cells and the column's presence as they were. */
  lemma PreparedCells(df: Frame, ts: seq<Direction.Travel>)
    requires |ts| == |df.rows|
    ensures var f := WithClock(WithTravel(df, ts));
      && (HvecColumn in f.columns <==> HvecColumn in df.columns)
      && forall i :: 0 <= i < |df.rows| ==> CellAt(f.rows[i], HvecColumn) == CellAt(df.rows[i], HvecColumn)
  {
    var f := WithClock(WithTravel(df, ts));
    NamesDistinct();
    forall i | 0 <= i < |df.rows| ensures CellAt(f.rows[i], HvecColumn) == CellAt(df.rows[i], HvecColumn) {
      HvecUntouched(df.rows[i], ts[i]);
    }
  }

  /** The column names the computation writes differ from each other and from `hvec`. */
  lemma NamesDistinct()
    ensures HvecColumn !in NewColumns() && HvecColumn != HvecAbsColumn
    ensures HvecAbsColumn !in NewColumns() && SecColumn !in NewColumns()[1..]
  {
  }

  lemma HvecUntouched(row: Row, t: Direction.Travel)
    ensures CellAt(Clocked(Travelled(row, t)), HvecColumn) == CellAt(row, HvecColumn)
    ensures CellAt(Clocked(Travelled(row, t)), SecColumn) == SecCell(t)
  {
    NamesDistinct();
  }

  /** The column list after the six assignments and the drop of `hvec_abs`. */
  function ColumnsAfter(cols: seq<string>): (cs: seq<string>)
    ensures forall c :: c in cs <==> (c in cols || c in NewColumns()) && c != HvecAbsColumn
  {
    var c1 := AddColumn(AddColumn(cols, SecColumn), KmColumn);
    var c2 := AddColumn(AddColumn(AddColumn(c1, HourColumn), MinuteColumn), SecondColumn);
    RemoveAll(AddColumn(c2, HvecAbsColumn), HvecAbsColumn)
  }

  /** Columns the frame lacked are appended in assignment order, and nothing else moves. */
  lemma ColumnsAppended(cols: seq<string>)
    requires forall c :: c in NewColumns() ==> c !in cols
    requires HvecAbsColumn !in cols
    ensures ColumnsAfter(cols) == cols + NewColumns()
  {
    var c1 := cols + [SecColumn];
    var c2 := c1 + [KmColumn];
    var c3 := c2 + [HourColumn];
    var c4 := c3 + [MinuteColumn];
    assert KmColumn !in c1 && HourColumn !in c2 && MinuteColumn !in c3 && SecondColumn !in c4;
    assert c4 + [SecondColumn] == cols + NewColumns();
    assert HvecAbsColumn !in cols + NewColumns();
    RemoveLast(cols + NewColumns(), HvecAbsColumn);
  }

  /** With the requests' answers given: when the rest succeeds, and the `|hvec|` cells it sorts by. */
  lemma AfterTransitOutcome(df: Frame, ts: seq<Direction.Travel>, toFloat: string -> Option<real>) returns (hs: seq<Value>)
    requires |ts| == |df.rows|
    ensures AfterTransit(df, ts, toFloat).Success? <==>
      && HvecColumn in df.columns
      && (forall i :: 0 <= i < |df.rows| ==> HvecAbsCell(CellAt(df.rows[i], HvecColumn), toFloat).Success?)
    ensures AfterTransit(df, ts, toFloat).Success? ==>
      && |hs| == |df.rows|
      && (forall i :: 0 <= i < |df.rows| ==> HvecAbsCell(CellAt(df.rows[i], HvecColumn), toFloat) == Success(hs[i]))
      && AfterTransit(df, ts, toFloat) == Success(SortedWithout(WithClock(WithTravel(df, ts)), hs))
  {
    var f := WithClock(WithTravel(df, ts));
    PreparedCells(df, ts);
    var abs := HvecAbses(f, toFloat);
    if abs.Success? {
      hs := abs.value;
    } else {
      hs := [];
    }
  }

  /**
   * When the call succeeds: every row needs a request that does not raise, the frame needs
   * an `hvec` column, and every `hvec` cell must be a number or missing.
   */
  lemma SortByTravelOutcome(df: Frame, svc: Services)
    ensures SortByTravel(df, svc).Success? <==>
      && (forall i :: 0 <= i < |df.rows| ==> Transit(df.rows[i], svc).Success?)
      && HvecColumn in df.columns
      && (forall i :: 0 <= i < |df.rows| ==> HvecAbsCell(CellAt(df.rows[i], HvecColumn), svc.toFloat).Success?)
  {
    var transit := Transits(df, svc);
    if transit.Success? {
      var hs := AfterTransitOutcome(df, transit.value, svc.toFloat);
    }
  }

  /**
   * The result's columns: the input's, then the five new ones where they were not already
   * there, without `hvec_abs`; a frame without any of them gains exactly the five at the end.
   */
  lemma SortByTravelColumns(df: Frame, svc: Services)
    requires SortByTravel(df, svc).Success?
    ensures var cs := SortByTravel(df, svc).value.columns;
      && (forall c :: c in cs <==> (c in df.columns || c in NewColumns()) && c != HvecAbsColumn)
      && ((forall c :: c in NewColumns() ==> c !in df.columns) && HvecAbsColumn !in df.columns ==>
            cs == df.columns + NewColumns())
  {
    var ts := Transits(df, svc).value;
    var hs := AfterTransitOutcome(df, ts, svc.toFloat);
    assert SortByTravel(df, svc).value.columns == ColumnsAfter(df.columns);
    if (forall c :: c in NewColumns() ==> c !in df.columns) && HvecAbsColumn !in df.columns {
      ColumnsAppended(df.columns);
    }
  }

  /** `ResultRow` of each input row and its request's answer. */
  function ResultRows(rows: seq<Row>, ts: seq<Direction.Travel>): (rs: seq<Row>)
    requires |ts| == |rows|
    ensures |rs| == |rows| && forall i :: 0 <= i < |rows| ==> rs[i] == ResultRow(rows[i], ts[i])
  {
    seq(|rows|, i requires 0 <= i < |rows| => ResultRow(rows[i], ts[i]))
  }

  /** The rows after the requests: the input rows, each with its new cells, reordered. */
  lemma AfterTransitPermutation(df: Frame, ts: seq<Direction.Travel>, hs: seq<Value>)
    requires |ts| == |df.rows| && |hs| == |df.rows|
    ensures multiset(SortedWithout(WithClock(WithTravel(df, ts)), hs).rows) == multiset(ResultRows(df.rows, ts))
  {
    var f := WithClock(WithTravel(df, ts));
    SortedWithoutRows(f, hs);
    PreparedRows(df.rows, ts, f.rows);
  }

  /** Rows that are the input rows with their new cells map, without `hvec_abs`, to `ResultRows`. */
  lemma PreparedRows(rows: seq<Row>, ts: seq<Direction.Travel>, prepared: seq<Row>)
    requires |ts| == |rows| && |prepared| == |rows|
    requires forall i :: 0 <= i < |rows| ==> prepared[i] == Clocked(Travelled(rows[i], ts[i]))
    ensures Ranking.Map(prepared, DropHvecAbs) == ResultRows(rows, ts)
  {
    var expected := ResultRows(rows, ts);
    var mapped := Ranking.Map(prepared, DropHvecAbs);
    forall i | 0 <= i < |rows| ensures mapped[i] == expected[i] {
    }
  }

  /**
   * The result holds exactly the input rows, each with its new cells: a permutation of
   * `ResultRow` over the input rows and their requests' answers.
   */
  lemma SortByTravelPermutation(df: Frame, svc: Services)
    requires SortByTravel(df, svc).Success?
    ensures Transits(df, svc).Success?
    ensures multiset(SortByTravel(df, svc).value.rows) == multiset(ResultRows(df.rows, Transits(df, svc).value))
  {
    var ts := Transits(df, svc).value;
    var hs := AfterTransitOutcome(df, ts, svc.toFloat);
    AfterTransitPermutation(df, ts, hs);
  }

  /**
   * The result is in order: by travel time ascending, then by `|hvec|` ascending, missing
   * values last in each.
   */
  lemma SortByTravelSorted(df: Frame, svc: Services)
    requires SortByTravel(df, svc).Success?
    ensures var out := SortByTravel(df, svc).value.rows;
      forall i, j :: 0 <= i < j < |out| ==> KeyLe(ResultKey(out[i], svc.toFloat), ResultKey(out[j], svc.toFloat))
  {
    var ts := Transits(df, svc).value;
    var hs := AfterTransitOutcome(df, ts, svc.toFloat);
    AfterTransitSorted(df, ts, hs, svc.toFloat);
  }

  /** With the requests' answers given and every `|hvec|` read, the sorted rows are in key order. */
  lemma AfterTransitSorted(df: Frame, ts: seq<Direction.Travel>, hs: seq<Value>, toFloat: string -> Option<real>)
    requires |ts| == |df.rows| && |hs| == |df.rows|
    requires forall i :: 0 <= i < |df.rows| ==> HvecAbsCell(CellAt(df.rows[i], HvecColumn), toFloat) == Success(hs[i])
    ensures var out := SortedWithout(WithClock(WithTravel(df, ts)), hs).rows;
      forall i, j :: 0 <= i < j < |out| ==> KeyLe(ResultKey(out[i], toFloat), ResultKey(out[j], toFloat))
  {
    var f := WithClock(WithTravel(df, ts));
    PreparedCells(df, ts);
    SortedWithoutSorted(f, hs, toFloat);
  }

  /** The steps after the requests keep a frame valid. */
  lemma StepsValid(df: Frame, ts: seq<Direction.Travel>, hs: seq<Value>)
    requires Valid(df) && |ts| == |df.rows| && |hs| == |df.rows|
    ensures Valid(SortedWithout(WithClock(WithTravel(df, ts)), hs))
  {
    var f1 := Assign(df, SecColumn, Ranking.Map(ts, SecCell));
    var f2 := Assign(f1, KmColumn, Ranking.Map(ts, KmCell));
    assert f2 == WithTravel(df, ts);
    var f3 := Assign(f2, HourColumn, Ranking.Map(f2.rows, HourCell));
    var f4 := Assign(f3, MinuteColumn, Ranking.Map(f3.rows, MinuteCell));
    var f := Assign(f4, SecondColumn, Ranking.Map(f4.rows, SecondCell));
    assert f == WithClock(f2);
    var f5 := Assign(f, HvecAbsColumn, hs);
    var sorted := Ranking.SortBy(f5.rows, ByTravel());
    ReorderedValid(f5, sorted);
  }

  /** A valid frame gives a valid result: distinct columns, and every row has exactly those cells. */
  lemma SortByTravelValid(df: Frame, svc: Services)
    requires Valid(df) && SortByTravel(df, svc).Success?
    ensures Valid(SortByTravel(df, svc).value)
  {
    var ts := Transits(df, svc).value;
    var hs := AfterTransitOutcome(df, ts, svc.toFloat);
    StepsValid(df, ts, hs);
  }

  /** The h/m/s cells of a row are the split of its time, a missing time read as 0. */
  predicate ClockConsistent(row: Row) {
    && HourColumn in row && MinuteColumn in row && SecondColumn in row
    && row[HourColumn].Int? && row[MinuteColumn].Int? && row[SecondColumn].Int?
    && row[HourColumn].i * 3600 + row[MinuteColumn].i * 60 + row[SecondColumn].i
         == SecondsOrZero(CellAt(row, SecColumn))
    && 0 <= row[MinuteColumn].i < 60 && 0 <= row[SecondColumn].i < 60
  }

  /** A result row's h/m/s cells agree with its time. */
  lemma ResultRowClock(row: Row, t: Direction.Travel)
    ensures ClockConsistent(ResultRow(row, t))
  {
    var r := Travelled(row, t);
    assert CellAt(ResultRow(row, t), SecColumn) == CellAt(r, SecColumn);
  }

  /** Every result row carries h/m/s cells consistent with its time. */
  lemma SortByTravelClock(df: Frame, svc: Services)
    requires SortByTravel(df, svc).Success?
    ensures var out := SortByTravel(df, svc).value.rows;
      forall k :: 0 <= k < |out| ==> ClockConsistent(out[k])
  {
    var out := SortByTravel(df, svc).value.rows;
    SortByTravelPermutation(df, svc);
    var expected := ResultRows(df.rows, Transits(df, svc).value);
    forall k | 0 <= k < |out| ensures ClockConsistent(out[k]) {
      assert out[k] in multiset(expected);
      var m :| 0 <= m < |expected| && expected[m] == out[k];
      ResultRowClock(df.rows[m], Transits(df, svc).value[m]);
    }
  }

  /** A row whose coordinates are missing or zero gets no time and no distance, without a request. */
  lemma NoCoordinatesNoTravel(row: Row, svc: Services, other: (real, real) -> Result<Direction.DirectionsReply>)
    requires LatColumn in row && LonColumn in row
    requires !Truthy(row[LatColumn]) || !Truthy(row[LonColumn])
    ensures Transit(row, svc) == Transit(row, svc.(directions := other)) == Success(Direction.Travel(None, None))
    ensures var r := ResultRow(row, Direction.Travel(None, None));
      r[SecColumn] == Null && r[KmColumn] == Null
      && r[HourColumn] == Int(0) && r[MinuteColumn] == Int(0) && r[SecondColumn] == Int(0)
  {
    var r := Travelled(row, Direction.Travel(None, None));
    Direction.SplitOfClock(0, 0, 0);
    assert ClockOf(r) == Direction.Clock(0, 0, 0);
  }
}
