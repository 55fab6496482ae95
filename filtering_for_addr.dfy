/**
 * `AddressFilter` of the emergency-room path: the list of trauma centres, read page by
 * page from the public emergency-care service; the address and coordinates of one
 * hospital; and the hospital frame enriched with both, its new columns moved next to
 * `dutyName`.
 *
 * The service is a parameter: a function from the request to the reply once parsed.
 */
module FilteringForAddr {
  import opened Wrappers
  import opened Frames

  // ---------------------------------------------------------------- the trauma-centre list

  /** `numOfRows`: the items asked for per page. */
  const RowsPerPage := 100

  /** `(total_count + numOfRows - 1) // numOfRows`; Python's `//` floors, as `/` does here for a positive divisor. */
  function PageCount(totalCount: int): int {
    (totalCount + 99) / 100
  }

  /** The page count is the ceiling of `totalCount / 100`: the pages hold every item, and one page fewer would not. */
  lemma PageCountIsCeiling(totalCount: int)
    ensures (PageCount(totalCount) - 1) * RowsPerPage < totalCount <= PageCount(totalCount) * RowsPerPage
    ensures totalCount <= 0 <==> PageCount(totalCount) <= 0
  {
    var q, m := (totalCount + 99) / 100, (totalCount + 99) % 100;
    assert totalCount + 99 == 100 * q + m && 0 <= m < 100;
  }

  /**
   * A reply of the trauma-centre service once parsed: its `totalCount`, missing when the
   * tag is absent or not an integer, and the `hpid` of each item, missing when some item
   * has no `hpid` tag (an empty tag reads as `None`). An XML parse error leaves both missing.
   */
  datatype TraumaReply = TraumaReply(totalCount: Option<int>, hpids: Option<seq<Option<string>>>)

  /** `call_api` for the trauma-centre service: the parsed reply for page `p`, `None` when the call failed. */
  type TraumaCall = int -> Option<TraumaReply>

  /** Pages 1 to `n`, in order: a failed call adds nothing, a page with an item lacking `hpid` raises. */
  function PagesUpTo(call: TraumaCall, n: int): Result<seq<Option<string>>>
    decreases n
  {
    if n <= 0 then Success([])
    else
      match PagesUpTo(call, n - 1)
      case Failure(e) => Failure(e)
      case Success(earlier) =>
        match call(n)
        case None => Success(earlier)
        case Some(reply) =>
          if reply.hpids.None? then Failure("AttributeError: 'NoneType' object has no attribute 'text'")
          else Success(earlier + reply.hpids.value)
  }

  /** `fetch_trauma_center_hpids`: nothing when the first call fails, otherwise every page's hpids. */
  function TraumaHpids(call: TraumaCall): Result<seq<Option<string>>> {
    match call(1)
    case None => Success([])
    case Some(first) =>
      if first.totalCount.None? then Failure("ValueError: totalCount")
      else PagesUpTo(call, PageCount(first.totalCount.value))
  }

  /** The reply for page `p` came back and lists `h`. */
  predicate Lists(reply: Option<TraumaReply>, h: Option<string>) {
    reply.Some? && reply.value.hpids.Some? && h in reply.value.hpids.value
  }

  /** The reply for page `p` came back with an item that has no `hpid` tag. */
  predicate Broken(reply: Option<TraumaReply>) {
    reply.Some? && reply.value.hpids.None?
  }

  /**
   * Reading pages 1 to `n` fails exactly when one of them came back broken; otherwise it
   * holds exactly the hpids listed on those pages.
   */
  lemma {:induction false} PagesUpToContents(call: TraumaCall, n: int)
    ensures PagesUpTo(call, n).Success? <==> forall p :: 1 <= p <= n ==> !Broken(call(p))
    ensures PagesUpTo(call, n).Success? ==>
      forall h :: h in PagesUpTo(call, n).value <==> exists p :: 1 <= p <= n && Lists(call(p), h)
    decreases n
  {
    if n > 0 {
      PagesUpToContents(call, n - 1);
      if PagesUpTo(call, n).Success? {
        forall h ensures h in PagesUpTo(call, n).value <==> exists p :: 1 <= p <= n && Lists(call(p), h) {
          if h in PagesUpTo(call, n).value && !Lists(call(n), h) {
            var p :| 1 <= p <= n - 1 && Lists(call(p), h);
          }
        }
      }
    }
  }

  /** Once a page is broken, reading further pages fails the same way. */
  lemma {:induction false} FailureSticks(call: TraumaCall, n: int, m: int)
    requires n <= m && PagesUpTo(call, n).Failure?
    ensures PagesUpTo(call, m) == PagesUpTo(call, n)
    decreases m - n
  {
    if n < m {
      FailureSticks(call, n, m - 1);
    }
  }

  /** Pages are kept in order: reading fewer pages gives a prefix of reading more. */
  lemma {:induction false} PagesUpToPrefix(call: TraumaCall, n: int, m: int)
    requires n <= m
    requires PagesUpTo(call, m).Success?
    ensures PagesUpTo(call, n).Success?
    ensures PagesUpTo(call, n).value <= PagesUpTo(call, m).value
    decreases m - n
  {
    if n < m && m > 0 {
      PagesUpToPrefix(call, n, m - 1);
    }
  }

  /**
   * A failed first call gives an empty list; otherwise the list is exactly the hpids listed
   * on pages 1 to `ceil(totalCount / 100)`, and it fails only on a broken page or an
   * unreadable `totalCount`.
   */
  lemma TraumaHpidsContents(call: TraumaCall)
    ensures call(1).None? ==> TraumaHpids(call) == Success([])
    ensures call(1).Some? && call(1).value.totalCount.Some? ==>
      var n := PageCount(call(1).value.totalCount.value);
      && (TraumaHpids(call).Success? <==> forall p :: 1 <= p <= n ==> !Broken(call(p)))
      && (TraumaHpids(call).Success? ==>
            forall h :: h in TraumaHpids(call).value <==> exists p :: 1 <= p <= n && Lists(call(p), h))
  {
    if call(1).Some? && call(1).value.totalCount.Some? {
      PagesUpToContents(call, PageCount(call(1).value.totalCount.value));
    }
  }

  /** `fetch_trauma_center_hpids`: asks for page 1 to learn the count, then walks the pages. */
  method FetchTraumaCenterHpids(call: TraumaCall) returns (r: Result<seq<Option<string>>>)
    ensures r == TraumaHpids(call)
  {
    var first := call(1);
    if first.None? {
      return Success([]);
    }
    if first.value.totalCount.None? {
      return Failure("ValueError: totalCount");
    }
    var totalPages := PageCount(first.value.totalCount.value);
    var hpids: seq<Option<string>> := [];
    var page := 1;
    while page <= totalPages
      invariant 1 <= page <= if totalPages < 1 then 1 else totalPages + 1
      invariant PagesUpTo(call, page - 1) == Success(hpids)
      decreases totalPages - page
    {
      var reply := call(page);
      if reply.Some? {
        if reply.value.hpids.None? {
          FailureSticks(call, page, totalPages);
          return Failure("AttributeError: 'NoneType' object has no attribute 'text'");
        }
        hpids := hpids + reply.value.hpids.value;
      }
      page := page + 1;
    }
    r := Success(hpids);
  }

  // ---------------------------------------------------------------- one hospital's location

  /** The item of a location reply: each child tag with its text (`None` for an empty tag). */
  type Item = map<string, Option<string>>

  /** A location reply: unparsable XML, or the first `item`, missing when there is none. */
  datatype LocationReply = Unparsable | Parsed(item: Option<Item>)

  /** `call_api` for the location services: the reply to `url` with `HPID` set, `None` when the call failed. */
  type LocationCall = (string, Value) -> Option<LocationReply>

  datatype Location = Location(addr: Option<string>, lat: Option<string>, lon: Option<string>)

  const BaseUrl := "http://apis.data.go.kr/B552657/ErmctInfoInqireService/"

  /** Trauma centres are looked up in the trauma-centre service, the rest in the emergency-room one. */
  function Endpoint(isTrauma: bool): string {
    if isTrauma then "getStrmBassInfoInqire" else "getEgytBassInfoInqire"
  }

  /** `item.find(tag).text if item.find(tag) is not None else None` */
  function TagText(item: Item, tag: string): Option<string> {
    if tag in item then item[tag] else None
  }

  /** The call came back, parsed, and held an item. */
  predicate Located(reply: Option<LocationReply>) {
    reply.Some? && reply.value.Parsed? && reply.value.item.Some?
  }

  /** `fetch_location_data` */
  function FetchLocationData(hpid: Value, isTrauma: bool, call: LocationCall): (loc: Location)
    ensures !Located(call(BaseUrl + Endpoint(isTrauma), hpid)) ==> loc == Location(None, None, None)
    ensures loc.addr.Some? ==> "dutyAddr" in call(BaseUrl + Endpoint(isTrauma), hpid).value.item.value
    ensures loc.lat.Some? ==> "wgs84Lat" in call(BaseUrl + Endpoint(isTrauma), hpid).value.item.value
    ensures loc.lon.Some? ==> "wgs84Lon" in call(BaseUrl + Endpoint(isTrauma), hpid).value.item.value
  {
    var reply := call(BaseUrl + Endpoint(isTrauma), hpid);
    if !Located(reply) then Location(None, None, None)
    else
      var item := reply.value.item.value;
      Location(TagText(item, "dutyAddr"), TagText(item, "wgs84Lat"), TagText(item, "wgs84Lon"))
  }

  /** Each field is read on its own: a missing tag empties only its own field. */
  lemma LocationFieldsIndependent(hpid: Value, isTrauma: bool, call: LocationCall)
    requires Located(call(BaseUrl + Endpoint(isTrauma), hpid))
    ensures var item := call(BaseUrl + Endpoint(isTrauma), hpid).value.item.value;
      var loc := FetchLocationData(hpid, isTrauma, call);
      && ("dutyAddr" in item ==> loc.addr == item["dutyAddr"])
      && ("wgs84Lat" in item ==> loc.lat == item["wgs84Lat"])
      && ("wgs84Lon" in item ==> loc.lon == item["wgs84Lon"])
  {
  }

  // ---------------------------------------------------------------- the enriched frame

  const AddrColumn := "dutyAddr"
  const LatColumn := "wgs84Lat"
  const LonColumn := "wgs84Lon"
  const TraumaColumn := "is_trauma"
  const DutyNameColumn := "dutyName"
  const HpidColumn := "hpid"

  /** The column names involved are different names. */
  lemma NamesDistinct()
    ensures AddrColumn != LatColumn && AddrColumn != LonColumn && AddrColumn != TraumaColumn
    ensures LatColumn != LonColumn && LatColumn != TraumaColumn && LonColumn != TraumaColumn
    ensures HpidColumn != AddrColumn && HpidColumn != LatColumn && HpidColumn != LonColumn && HpidColumn != TraumaColumn
    ensures DutyNameColumn != AddrColumn && DutyNameColumn != LatColumn && DutyNameColumn != LonColumn
    ensures DutyNameColumn != TraumaColumn && DutyNameColumn != HpidColumn
  {
    assert DutyNameColumn[4] != AddrColumn[4] && DutyNameColumn[0] != LatColumn[0] && DutyNameColumn[0] != LonColumn[0];
    assert DutyNameColumn[0] != TraumaColumn[0] && |DutyNameColumn| != |HpidColumn|;
    assert AddrColumn[0] != LatColumn[0] && AddrColumn[0] != TraumaColumn[0] && AddrColumn[0] != LonColumn[0];
    assert LatColumn[6] != LonColumn[6] && LatColumn[0] != TraumaColumn[0] && LonColumn[0] != TraumaColumn[0];
    assert |HpidColumn| != |AddrColumn| && |HpidColumn| != |LatColumn| && |HpidColumn| != |LonColumn| && |HpidColumn| != |TraumaColumn|;
  }

  /** The four columns `enrich_filtered_df` adds, in the order it assigns them. */
  function NewColumns(): seq<string> {
    [AddrColumn, LatColumn, LonColumn, TraumaColumn]
  }

  /** `None` or the text, as a cell. */
  function OptionCell(o: Option<string>): Value {
    match o
    case None => Null
    case Some(s) => Text(s)
  }

  /** `hpid in trauma_hpids`: the list holds only texts and `None`, so only those can match. */
  predicate IsTrauma(hpid: Value, trauma: seq<Option<string>>) {
    || (hpid.Null? && None in trauma)
    || (hpid.Text? && Some(hpid.s) in trauma)
  }

  /** The four cells written for one row. */
  function Enriched(row: Row, trauma: seq<Option<string>>, call: LocationCall): Row
    requires HpidColumn in row
  {
    var isTrauma := IsTrauma(row[HpidColumn], trauma);
    var loc := FetchLocationData(row[HpidColumn], isTrauma, call);
    row[AddrColumn := OptionCell(loc.addr)][LatColumn := OptionCell(loc.lat)]
       [LonColumn := OptionCell(loc.lon)][TraumaColumn := Flag(isTrauma)]
  }

  /** The columns once the four are assigned: `None`, `None`, `None` and `False` throughout. */
  function Initialised(df: Frame): Frame {
    Fill(Fill(Fill(Fill(df, AddrColumn, Null), LatColumn, Null), LonColumn, Null), TraumaColumn, Flag(false))
  }

  /** Some row has no `hpid` cell, so `row["hpid"]` raises. */
  predicate LacksHpid(rows: seq<Row>) {
    exists i | 0 <= i < |rows| :: HpidColumn !in rows[i]
  }

  /** `list.remove(x)`: drops the first occurrence. */
  function RemoveFirst<T(==, !new)>(cs: seq<T>, x: T): (r: seq<T>)
    requires x in cs
    ensures |r| == |cs| - 1
    ensures forall c {:trigger c in r} :: c != x ==> (c in r <==> c in cs)
    ensures x !in cs[1..] ==> x !in r
  {
    if cs[0] == x then cs[1..] else [cs[0]] + RemoveFirst(cs[1..], x)
  }

  /** `list.insert(i, x)`: an index past the end appends. */
  function Insert<T>(cs: seq<T>, i: nat, x: T): (r: seq<T>)
    ensures |r| == |cs| + 1
  {
    var k := if i < |cs| then i else |cs|;
    cs[..k] + [x] + cs[k..]
  }

  /** The first index of `x` in `cs`. */
  function IndexOf<T(==)>(cs: seq<T>, x: T): (i: nat)
    requires x in cs
    ensures i < |cs| && cs[i] == x && x !in cs[..i]
  {
    if cs[0] == x then 0 else 1 + IndexOf(cs[1..], x)
  }

  /** The four names, all present. */
  predicate HasAll<T(==)>(cs: seq<T>, a: T, b: T, c: T, d: T) {
    a in cs && b in cs && c in cs && d in cs
  }

  /** Four different names. */
  predicate Different<T(==)>(a: T, b: T, c: T, d: T) {
    a != b && a != c && a != d && b != c && b != d && c != d
  }

  /** `columns.remove(a)` to `columns.remove(d)`, in that order. */
  function RemoveFour<T(==, !new)>(cs: seq<T>, a: T, b: T, c: T, d: T): seq<T>
    requires HasAll(cs, a, b, c, d) && Different(a, b, c, d)
  {
    RemoveFirst(RemoveFirst(RemoveFirst(RemoveFirst(cs, a), b), c), d)
  }

  /**
   * The four names moved next to `anchor`: with `anchor` present, they are removed and put
   * back, in order, at the position `anchor` had BEFORE the removal, plus one; without it
   * the order is unchanged.
   */
  function MovedAfter<T(==, !new)>(cs: seq<T>, anchor: T, a: T, b: T, c: T, d: T): seq<T>
    requires HasAll(cs, a, b, c, d) && Different(a, b, c, d)
  {
    if anchor !in cs then cs
    else
      var base := RemoveFour(cs, a, b, c, d);
      var start := IndexOf(cs, anchor) + 1;
      var k := if start < |base| then start else |base|;
      base[..k] + [a, b, c, d] + base[k..]
  }

  predicate HasNewColumns(cs: seq<string>) {
    HasAll(cs, AddrColumn, LatColumn, LonColumn, TraumaColumn)
  }

  /** The new column order: the four new columns moved next to `dutyName`. */
  function Reordered(cs: seq<string>): seq<string>
    requires HasNewColumns(cs)
  {
    NamesDistinct();
    MovedAfter(cs, DutyNameColumn, AddrColumn, LatColumn, LonColumn, TraumaColumn)
  }

  /**
   * The column edits: remove the four new columns, then insert them after `dutyName`,
   * whose index is read before the removals.
   */
  method ReorderColumns(columns: seq<string>) returns (cs: seq<string>)
    requires HasNewColumns(columns)
    ensures cs == Reordered(columns)
  {
    NamesDistinct();
    cs := columns;
    if DutyNameColumn in cs {
      var dutyNameIndex := IndexOf(cs, DutyNameColumn);
      cs := RemoveFirst(cs, AddrColumn);
      cs := RemoveFirst(cs, LatColumn);
      cs := RemoveFirst(cs, LonColumn);
      cs := RemoveFirst(cs, TraumaColumn);
      cs := InsertEach(cs, dutyNameIndex + 1, NewColumns());
    }
  }

  /** The insert loop: each column goes in one place after the last, starting at `start`. */
  method InsertEach<T>(columns: seq<T>, start: nat, inserted: seq<T>) returns (cs: seq<T>)
    ensures var k := if start < |columns| then start else |columns|;
      cs == columns[..k] + inserted + columns[k..]
  {
    ghost var k := if start < |columns| then start else |columns|;
    cs := columns;
    assert cs == columns[..k] + inserted[..0] + columns[k..];
    var index := start;
    for n := 0 to |inserted|
      invariant index == start + n
      invariant cs == columns[..k] + inserted[..n] + columns[k..]
    {
      InsertRun(columns, start, inserted[..n], inserted[n]);
      assert inserted[..n] + [inserted[n]] == inserted[..n + 1];
      cs := Insert(cs, index, inserted[n]);
      index := index + 1;
    }
    assert inserted[..|inserted|] == inserted;
  }

  /**
   * Inserting at `start + |run|` right after a run placed at `min(start, |base|)` extends
   * the run, whether or not `start` is past the end.
   */
  lemma InsertRun<T>(base: seq<T>, start: nat, run: seq<T>, x: T)
    ensures var k := if start < |base| then start else |base|;
      Insert(base[..k] + run + base[k..], start + |run|, x) == base[..k] + (run + [x]) + base[k..]
  {
    var k := if start < |base| then start else |base|;
    var cs := base[..k] + run + base[k..];
    if start < |base| {
      assert cs[..k + |run|] == base[..k] + run;
      assert cs[k + |run|..] == base[k..];
    } else {
      assert base[k..] == [];
      assert cs == base[..k] + run;
    }
  }

  /** The frame after the cell loop: every row carries its four new cells. */
  function EnrichedFrame(f: Frame, trauma: seq<Option<string>>, call: LocationCall): (g: Frame)
    requires !LacksHpid(f.rows)
    ensures g.columns == f.columns && |g.rows| == |f.rows|
    ensures forall i :: 0 <= i < |f.rows| ==> g.rows[i] == Enriched(f.rows[i], trauma, call)
  {
    Frame(f.columns, seq(|f.rows|, i requires 0 <= i < |f.rows| => Enriched(f.rows[i], trauma, call)))
  }

  /** `enrich_filtered_df` */
  function Enrich(df: Frame, traumaCall: TraumaCall, call: LocationCall): Result<Frame> {
    match TraumaHpids(traumaCall)
    case Failure(e) => Failure(e)
    case Success(trauma) =>
      var f := Initialised(df);
      if LacksHpid(f.rows) then Failure("KeyError: 'hpid'")
      else Success(Select(EnrichedFrame(f, trauma, call), Reordered(f.columns)))
  }

  /**
   * `enrich_filtered_df`: fetches the trauma list, sets up the four columns on a copy,
   * writes each row's cells, then reorders the columns.
   */
  method EnrichFilteredDf(filteredDf: Frame, traumaCall: TraumaCall, call: LocationCall) returns (r: Result<Frame>)
    ensures r == Enrich(filteredDf, traumaCall, call)
  {
    var trauma := FetchTraumaCenterHpids(traumaCall);
    if trauma.Failure? {
      return Failure(trauma.error);
    }
    var df := filteredDf;
    df := Fill(df, AddrColumn, Null);
    df := Fill(df, LatColumn, Null);
    df := Fill(df, LonColumn, Null);
    df := Fill(df, TraumaColumn, Flag(false));
    assert df == Initialised(filteredDf);
    var filled := WriteCells(df, trauma.value, call);
    if filled.Failure? {
      return Failure(filled.error);
    }
    var columns := ReorderColumns(df.columns);
    r := Success(Select(filled.value, columns));
  }

  /** The row loop: reads each row's `hpid`, looks the hospital up and writes its four cells. */
  method WriteCells(df: Frame, trauma: seq<Option<string>>, call: LocationCall) returns (r: Result<Frame>)
    ensures LacksHpid(df.rows) ==> r == Failure("KeyError: 'hpid'")
    ensures !LacksHpid(df.rows) ==> r == Success(EnrichedFrame(df, trauma, call))
  {
    var rows := df.rows;
    for i := 0 to |rows|
      invariant |rows| == |df.rows|
      invariant forall k :: 0 <= k < i ==> HpidColumn in df.rows[k]
      invariant forall k :: 0 <= k < i ==> rows[k] == Enriched(df.rows[k], trauma, call)
      invariant forall k :: i <= k < |rows| ==> rows[k] == df.rows[k]
    {
      var row := rows[i];
      if HpidColumn !in row {
        return Failure("KeyError: 'hpid'");
      }
      var hpid := row[HpidColumn];
      var isTrauma := IsTrauma(hpid, trauma);
      var loc := FetchLocationData(hpid, isTrauma, call);
      row := row[AddrColumn := OptionCell(loc.addr)];
      row := row[LatColumn := OptionCell(loc.lat)];
      row := row[LonColumn := OptionCell(loc.lon)];
      row := row[TraumaColumn := Flag(isTrauma)];
      assert row == Enriched(df.rows[i], trauma, call);
      rows := rows[i := row];
    }
    assert rows == EnrichedFrame(df, trauma, call).rows;
    r := Success(Frame(df.columns, rows));
  }

  // ---------------------------------------------------------------- what enrichment promises

  /** Removing a name that is not in a prefix removes it from what follows. */
  lemma {:induction false} RemoveFirstAfter<T(!new)>(cs: seq<T>, tail: seq<T>, x: T)
    requires x !in cs && x in tail
    ensures RemoveFirst(cs + tail, x) == cs + RemoveFirst(tail, x)
    decreases |cs|
  {
    if cs != [] {
      var rest := cs[1..];
      assert cs == [cs[0]] + rest;
      assert (cs + tail)[0] == cs[0] && (cs + tail)[1..] == rest + tail;
      RemoveFirstAfter(rest, tail, x);
      assert RemoveFirst(cs + tail, x) == [cs[0]] + (rest + RemoveFirst(tail, x));
      assert [cs[0]] + (rest + RemoveFirst(tail, x)) == cs + RemoveFirst(tail, x);
    } else {
      assert cs + tail == tail;
    }
  }

  /** The first index of a name found in a prefix is its index in the prefix. */
  lemma {:induction false} IndexOfBefore<T(!new)>(cs: seq<T>, tail: seq<T>, x: T)
    requires x in cs
    ensures IndexOf(cs + tail, x) == IndexOf(cs, x)
    decreases |cs|
  {
    if cs[0] != x {
      assert (cs + tail)[1..] == cs[1..] + tail;
      IndexOfBefore(cs[1..], tail, x);
    }
  }

  /** Removing four names from columns that end with them, and hold them nowhere else, leaves the rest. */
  lemma RemoveFourAppended<T(!new)>(cs: seq<T>, a: T, b: T, c: T, d: T)
    requires Different(a, b, c, d)
    requires a !in cs && b !in cs && c !in cs && d !in cs
    ensures HasAll(cs + [a, b, c, d], a, b, c, d)
    ensures RemoveFour(cs + [a, b, c, d], a, b, c, d) == cs
  {
    assert (cs + [a, b, c, d])[|cs|..] == [a, b, c, d];
    RemoveFirstAfter(cs, [a, b, c, d], a);
    assert RemoveFirst([a, b, c, d], a) == [b, c, d];
    RemoveFirstAfter(cs, [b, c, d], b);
    assert RemoveFirst([b, c, d], b) == [c, d];
    RemoveFirstAfter(cs, [c, d], c);
    assert RemoveFirst([c, d], c) == [d];
    RemoveFirstAfter(cs, [d], d);
    assert RemoveFirst([d], d) == [];
    assert cs + [] == cs;
  }

  /** `remove` takes out exactly one occurrence and keeps all others. */
  lemma {:induction false} RemoveFirstCount<T(!new)>(cs: seq<T>, x: T)
    requires x in cs
    ensures multiset(RemoveFirst(cs, x)) == multiset(cs) - multiset{x}
    decreases |cs|
  {
    assert cs == [cs[0]] + cs[1..];
    if cs[0] != x {
      RemoveFirstCount(cs[1..], x);
    }
  }

  /** Putting back a name that was taken out restores the multiset. */
  lemma PutBack<T>(m: multiset<T>, x: T)
    requires x in m
    ensures (m - multiset{x}) + multiset{x} == m
  {
  }

  /** `remove` and then putting the name back gives the same multiset. */
  lemma RemovePutBack<T(!new)>(cs: seq<T>, x: T)
    requires x in cs
    ensures multiset(RemoveFirst(cs, x)) + multiset{x} == multiset(cs)
  {
    RemoveFirstCount(cs, x);
    PutBack(multiset(cs), x);
  }

  /** Taking out the four names, one after another. */
  lemma RemoveFourPermutes<T(!new)>(cs: seq<T>, a: T, b: T, c: T, d: T)
    requires HasAll(cs, a, b, c, d) && Different(a, b, c, d)
    ensures multiset(RemoveFour(cs, a, b, c, d)) + multiset{a, b, c, d} == multiset(cs)
  {
    var r1 := RemoveFirst(cs, a);
    var r2 := RemoveFirst(r1, b);
    var r3 := RemoveFirst(r2, c);
    RemovePutBack(cs, a);
    RemovePutBack(r1, b);
    RemovePutBack(r2, c);
    RemovePutBack(r3, d);
    assert multiset{a, b, c, d} == multiset{d} + multiset{c} + multiset{b} + multiset{a};
  }

  /** Moving the four names only reorders the columns: each name occurs as often as before. */
  lemma MovedAfterPermutes<T(!new)>(cs: seq<T>, anchor: T, a: T, b: T, c: T, d: T)
    requires HasAll(cs, a, b, c, d) && Different(a, b, c, d)
    ensures multiset(MovedAfter(cs, anchor, a, b, c, d)) == multiset(cs)
    ensures forall x :: x in MovedAfter(cs, anchor, a, b, c, d) <==> x in cs
  {
    var moved := MovedAfter(cs, anchor, a, b, c, d);
    if anchor in cs {
      var base := RemoveFour(cs, a, b, c, d);
      var start := IndexOf(cs, anchor) + 1;
      var k := if start < |base| then start else |base|;
      assert moved == base[..k] + [a, b, c, d] + base[k..];
      assert base == base[..k] + base[k..];
      assert multiset(moved) == multiset(base) + multiset{a, b, c, d};
      RemoveFourPermutes(cs, a, b, c, d);
    }
    forall x ensures x in moved <==> x in cs {
      assert x in moved <==> x in multiset(moved);
      assert x in cs <==> x in multiset(cs);
    }
  }

  /**
   * Moving four names that were appended at the end: with `anchor` present they land right
   * after it, in order, and every other column keeps its place; without it they stay at the end.
   */
  lemma MovedAfterAppended<T(!new)>(cs: seq<T>, anchor: T, a: T, b: T, c: T, d: T)
    requires Different(a, b, c, d)
    requires a !in cs && b !in cs && c !in cs && d !in cs
    requires anchor != a && anchor != b && anchor != c && anchor != d
    ensures HasAll(cs + [a, b, c, d], a, b, c, d)
    ensures anchor in cs ==>
      var j := IndexOf(cs, anchor);
      MovedAfter(cs + [a, b, c, d], anchor, a, b, c, d) == cs[..j + 1] + [a, b, c, d] + cs[j + 1..]
    ensures anchor !in cs ==> MovedAfter(cs + [a, b, c, d], anchor, a, b, c, d) == cs + [a, b, c, d]
  {
    RemoveFourAppended(cs, a, b, c, d);
    var full := cs + [a, b, c, d];
    if anchor in cs {
      IndexOfBefore(cs, [a, b, c, d], anchor);
      PutBackAt(full, anchor, a, b, c, d, cs, IndexOf(cs, anchor));
    } else {
      assert anchor !in full;
    }
  }

  /** With the removals and the anchor's old position known, the moved columns are the put-back ones. */
  lemma PutBackAt<T(!new)>(cs: seq<T>, anchor: T, a: T, b: T, c: T, d: T, base: seq<T>, j: nat)
    requires HasAll(cs, a, b, c, d) && Different(a, b, c, d) && anchor in cs
    requires RemoveFour(cs, a, b, c, d) == base && IndexOf(cs, anchor) == j && j < |base|
    ensures MovedAfter(cs, anchor, a, b, c, d) == base[..j + 1] + [a, b, c, d] + base[j + 1..]
  {
  }

  /** The removals behind the stale index: only `anchor` and `h` are left. */
  lemma StaleRemovals<T(!new)>(anchor: T, h: T, a: T, b: T, c: T, d: T)
    requires Different(a, b, c, d)
    requires anchor != b && anchor != c && anchor != d
    requires h != b && h != c && h != d
    ensures HasAll([a, anchor, h, b, c, d], a, b, c, d)
    ensures RemoveFour([a, anchor, h, b, c, d], a, b, c, d) == [anchor, h]
  {
    var cs := [a, anchor, h, b, c, d];
    assert cs[0] == a && cs[1..] == [anchor, h] + [b, c, d];
    RemoveFirstAfter([anchor, h], [b, c, d], b);
    assert RemoveFirst([b, c, d], b) == [c, d];
    RemoveFirstAfter([anchor, h], [c, d], c);
    assert RemoveFirst([c, d], c) == [d];
    RemoveFirstAfter([anchor, h], [d], d);
    assert RemoveFirst([d], d) == [];
  }

  /**
   * The stale index: when `a` already stands in front of `anchor`, removing it shifts
   * `anchor` left, and the four names land one place further on, after `h`.
   */
  lemma StaleIndex<T(!new)>(anchor: T, h: T, a: T, b: T, c: T, d: T)
    requires Different(a, b, c, d)
    requires anchor != a && anchor != b && anchor != c && anchor != d && anchor != h
    requires h != a && h != b && h != c && h != d
    ensures MovedAfter([a, anchor, h, b, c, d], anchor, a, b, c, d) == [anchor, h, a, b, c, d]
  {
    var cs := [a, anchor, h, b, c, d];
    StaleRemovals(anchor, h, a, b, c, d);
    var rest := [anchor, h, b, c, d];
    assert cs[0] != anchor && cs[1..] == rest;
    assert IndexOf(rest, anchor) == 0;
    assert IndexOf(cs, anchor) == 1;
    var base := [anchor, h];
    assert base[..2] == base && base[2..] == [];
    assert MovedAfter(cs, anchor, a, b, c, d) == base[..2] + [a, b, c, d] + base[2..];
  }

  /**
   * The same with the real names: columns `dutyAddr, dutyName, hpid, wgs84Lat, wgs84Lon,
   * is_trauma` come out as `dutyName, hpid, dutyAddr, wgs84Lat, wgs84Lon, is_trauma`.
   */
  lemma StaleIndexExample()
    ensures Reordered([AddrColumn, DutyNameColumn, HpidColumn, LatColumn, LonColumn, TraumaColumn])
      == [DutyNameColumn, HpidColumn, AddrColumn, LatColumn, LonColumn, TraumaColumn]
  {
    NamesDistinct();
    StaleIndex(DutyNameColumn, HpidColumn, AddrColumn, LatColumn, LonColumn, TraumaColumn);
  }

  /**
   * The four columns are assigned in order: each joins the columns once, at the end
   * when it is new.
   */
  lemma InitialisedColumns(df: Frame)
    ensures forall c :: c in Initialised(df).columns <==> c in df.columns || c in NewColumns()
    ensures (AddrColumn !in df.columns && LatColumn !in df.columns && LonColumn !in df.columns &&
             TraumaColumn !in df.columns) ==> Initialised(df).columns == df.columns + NewColumns()
  {
    NamesDistinct();
    assert df.columns + [AddrColumn] + [LatColumn] + [LonColumn] + [TraumaColumn] == df.columns + NewColumns();
  }

  /** Each row after the four assignments: `None`, `None`, `None` and `False` over what it held. */
  lemma InitialisedRow(df: Frame, i: int)
    requires 0 <= i < |df.rows|
    ensures |Initialised(df).rows| == |df.rows|
    ensures Initialised(df).rows[i] == df.rows[i][AddrColumn := Null][LatColumn := Null][LonColumn := Null][TraumaColumn := Flag(false)]
  {
  }

  /** A successful enrichment: the trauma list was read and every row has an `hpid`. */
  lemma EnrichSucceeded(df: Frame, traumaCall: TraumaCall, call: LocationCall)
    requires Enrich(df, traumaCall, call).Success?
    ensures TraumaHpids(traumaCall).Success? && !LacksHpid(Initialised(df).rows)
    ensures HasNewColumns(Initialised(df).columns)
    ensures Enrich(df, traumaCall, call).value ==
      Select(EnrichedFrame(Initialised(df), TraumaHpids(traumaCall).value, call), Reordered(Initialised(df).columns))
  {
  }

  /** The result's columns are the reordered columns of the frame with the four appended. */
  lemma EnrichColumnOrder(df: Frame, traumaCall: TraumaCall, call: LocationCall)
    requires AddrColumn !in df.columns && LatColumn !in df.columns
    requires LonColumn !in df.columns && TraumaColumn !in df.columns
    requires Enrich(df, traumaCall, call).Success?
    ensures HasNewColumns(df.columns + NewColumns())
    ensures Enrich(df, traumaCall, call).value.columns == Reordered(df.columns + NewColumns())
  {
    EnrichSucceeded(df, traumaCall, call);
    InitialisedColumns(df);
  }

  /**
   * For a frame that has `dutyName` but not the four columns: they come right after it, in
   * the order `dutyAddr`, `wgs84Lat`, `wgs84Lon`, `is_trauma`, and every other column keeps
   * its place.
   */
  lemma EnrichColumnsAfterDutyName(df: Frame, traumaCall: TraumaCall, call: LocationCall)
    requires AddrColumn !in df.columns && LatColumn !in df.columns
    requires LonColumn !in df.columns && TraumaColumn !in df.columns
    requires DutyNameColumn in df.columns
    requires Enrich(df, traumaCall, call).Success?
    ensures var j := IndexOf(df.columns, DutyNameColumn);
      Enrich(df, traumaCall, call).value.columns == df.columns[..j + 1] + NewColumns() + df.columns[j + 1..]
  {
    EnrichColumnOrder(df, traumaCall, call);
    NamesDistinct();
    MovedAfterAppended(df.columns, DutyNameColumn, AddrColumn, LatColumn, LonColumn, TraumaColumn);
  }

  /** For a frame without `dutyName` or the four columns: they stay at the end, in assignment order. */
  lemma EnrichColumnsAtEnd(df: Frame, traumaCall: TraumaCall, call: LocationCall)
    requires AddrColumn !in df.columns && LatColumn !in df.columns
    requires LonColumn !in df.columns && TraumaColumn !in df.columns
    requires DutyNameColumn !in df.columns
    requires Enrich(df, traumaCall, call).Success?
    ensures Enrich(df, traumaCall, call).value.columns == df.columns + NewColumns()
  {
    EnrichColumnOrder(df, traumaCall, call);
    NamesDistinct();
    MovedAfterAppended(df.columns, DutyNameColumn, AddrColumn, LatColumn, LonColumn, TraumaColumn);
  }

  /** The cells of one row after the loop: its own cells, then the four written ones. */
  lemma EnrichedCells(row: Row, trauma: seq<Option<string>>, call: LocationCall)
    requires HpidColumn in row
    ensures forall c :: c !in NewColumns() ==>
      (c in Enriched(row, trauma, call) <==> c in row) && (c in row ==> Enriched(row, trauma, call)[c] == row[c])
    ensures var isTrauma := IsTrauma(row[HpidColumn], trauma);
      var loc := FetchLocationData(row[HpidColumn], isTrauma, call);
      && Enriched(row, trauma, call)[TraumaColumn] == Flag(isTrauma)
      && Enriched(row, trauma, call)[AddrColumn] == OptionCell(loc.addr)
      && Enriched(row, trauma, call)[LatColumn] == OptionCell(loc.lat)
      && Enriched(row, trauma, call)[LonColumn] == OptionCell(loc.lon)
  {
    NamesDistinct();
  }

  /**
   * Row `i` of the result is row `i` of the frame after the cell loop, restricted to the
   * columns, which are the frame's own and the four new ones.
   */
  lemma EnrichRow(df: Frame, traumaCall: TraumaCall, call: LocationCall, i: int)
    requires 0 <= i < |df.rows|
    requires Enrich(df, traumaCall, call).Success?
    ensures |Enrich(df, traumaCall, call).value.rows| == |df.rows|
    ensures HpidColumn in Initialised(df).rows[i] && HpidColumn in df.rows[i]
    ensures Initialised(df).rows[i][HpidColumn] == df.rows[i][HpidColumn]
    ensures var row := Enriched(Initialised(df).rows[i], TraumaHpids(traumaCall).value, call);
      var out := Enrich(df, traumaCall, call).value.rows[i];
      && (forall c :: c in out <==> c in row && (c in df.columns || c in NewColumns()))
      && (forall c :: c in out ==> out[c] == row[c])
  {
    EnrichSucceeded(df, traumaCall, call);
    var f := Initialised(df);
    InitialisedColumns(df);
    InitialisedRow(df, i);
    NamesDistinct();
    MovedAfterPermutes(f.columns, DutyNameColumn, AddrColumn, LatColumn, LonColumn, TraumaColumn);
    assert HpidColumn in f.rows[i];
  }

  /** Every row is kept, in order, and keeps each of its own cells. */
  lemma EnrichKeepsCells(df: Frame, traumaCall: TraumaCall, call: LocationCall, i: int)
    requires Valid(df) && 0 <= i < |df.rows|
    requires Enrich(df, traumaCall, call).Success?
    ensures |Enrich(df, traumaCall, call).value.rows| == |df.rows|
    ensures forall c :: c in df.rows[i] && c !in NewColumns() ==>
      c in Enrich(df, traumaCall, call).value.rows[i] && Enrich(df, traumaCall, call).value.rows[i][c] == df.rows[i][c]
  {
    EnrichRow(df, traumaCall, call, i);
    InitialisedRow(df, i);
    EnrichedCells(Initialised(df).rows[i], TraumaHpids(traumaCall).value, call);
    assert HasCells(df.rows[i], df.columns);
  }

  /**
   * Each row's `is_trauma` holds exactly when its `hpid` is in the trauma list, and its
   * other three new cells hold the address and coordinates looked up for that `hpid`.
   */
  lemma EnrichWritesCells(df: Frame, traumaCall: TraumaCall, call: LocationCall, i: int)
    requires 0 <= i < |df.rows|
    requires Enrich(df, traumaCall, call).Success?
    ensures HpidColumn in df.rows[i]
    ensures var out := Enrich(df, traumaCall, call).value;
      var isTrauma := IsTrauma(df.rows[i][HpidColumn], TraumaHpids(traumaCall).value);
      var loc := FetchLocationData(df.rows[i][HpidColumn], isTrauma, call);
      && i < |out.rows|
      && TraumaColumn in out.rows[i] && out.rows[i][TraumaColumn] == Flag(isTrauma)
      && AddrColumn in out.rows[i] && out.rows[i][AddrColumn] == OptionCell(loc.addr)
      && LatColumn in out.rows[i] && out.rows[i][LatColumn] == OptionCell(loc.lat)
      && LonColumn in out.rows[i] && out.rows[i][LonColumn] == OptionCell(loc.lon)
  {
    EnrichRow(df, traumaCall, call, i);
    EnrichedCells(Initialised(df).rows[i], TraumaHpids(traumaCall).value, call);
  }
}
