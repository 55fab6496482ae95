/**
 * The hospital search of hosp_utils/es_functions.py: the Elasticsearch request body
 * built from the user's position, the department(s) and the three hospital-tier flags,
 * and the flattening of the search hits into hospital records.
 *
 * The search itself is a parameter: a function from the request body to the response.
 */
module HospitalSearch {
  import opened Wrappers
  import opened PyText
  import Ranking

  // ---------------------------------------------------------------- the request body

  /** The `department` argument: absent (`None`), one string, or a list of strings. */
  datatype Department = Unset | Named(text: string) | Listed(names: seq<string>)

  /** A clause of the `must` list. */
  datatype Clause =
    | Terms(field: string, values: seq<string>)
    | MatchPhrase(field: string, phrase: string)
    | Should(clauses: seq<Clause>)

  /**
   * The request body: the `must` clauses, and the user's position, which the geo filter,
   * the geo sort and the distance script all use; the filter radius in km, whether the
   * sort is ascending, and `size`.
   */
  datatype Query = Query(must: seq<Clause>, lat: real, lon: real, radiusKm: int, ascending: bool, size: int)

  /** Primary care: clinics, dental and oriental clinics and hospitals, long-term care, public health centres. */
  const PrimaryTypes: seq<string> := ["의원", "치과의원", "요양병원", "정신병원", "한의원", "치과병원", "한방병원",
                                      "의료원", "보건소", "보건지소", "진료소", "보건의료원", "보건진료소"]
  /** Secondary care: hospitals and general hospitals. */
  const SecondaryTypes: seq<string> := ["병원", "종합병원"]
  /** Tertiary care: advanced general hospitals. */
  const TertiaryTypes: seq<string> := ["상급종합"]
  /** The twelve dental subjects `치의과` stands for. */
  const DentalSubjects: seq<string> := ["치과", "구강악안면외과", "치과보철과", "치과교정과", "소아치과", "치주과",
                                        "치과보존과", "구강내과", "영상치의학과", "구강병리과", "예방치과", "통합치의학과"]
  /** The nine oriental-medicine subjects `한방과` stands for. */
  const OrientalSubjects: seq<string> := ["한방내과", "한방부인과", "한방소아과", "한방안·이비인후·피부과", "한방신경정신과",
                                          "침구과", "한방재활의학과", "사상체질과", "한방응급"]
  const DentalName := "치의과"
  const OrientalName := "한방과"
  const TypeField := "clcdnm"
  const SubjectField := "dgsbjt"
  /** The geo filter radius. */
  const RadiusKm := 100
  /** The number of hits asked for. */
  const ResultSize := 30

  /** The types the set flags select, primary first, then secondary, then tertiary. */
  function SelectedTypes(primary: bool, secondary: bool, tertiary: bool): seq<string> {
    (if primary then PrimaryTypes else []) + (if secondary then SecondaryTypes else []) + (if tertiary then TertiaryTypes else [])
  }

  /** `must_clcdnm`: nothing when all three flags or none are set, otherwise one `terms` filter on the type. */
  function TypeFilter(primary: bool, secondary: bool, tertiary: bool): seq<Clause> {
    if (primary && secondary && tertiary) || (!primary && !secondary && !tertiary) then []
    else [Terms(TypeField, SelectedTypes(primary, secondary, tertiary))]
  }

  /** One department's clause: the dental and oriental groups expand to their subjects. */
  function DepartmentClause(dept: string): Clause {
    if dept == DentalName then Terms(SubjectField, DentalSubjects)
    else if dept == OrientalName then Terms(SubjectField, OrientalSubjects)
    else MatchPhrase(SubjectField, dept)
  }

  /** The department as one string: a list joined with `", "`. */
  function DepartmentText(d: Department): Option<string> {
    match d
    case Unset => None
    case Named(s) => Some(s)
    case Listed(xs) => Some(Join(xs, ", "))
  }

  /** `[dept.strip() for dept in department.split(',')]` */
  function DepartmentNames(text: string): seq<string> {
    Ranking.Map(Split(text, ','), Strip)
  }

  /** The department clauses: none for an empty department, one clause for one name, a `bool/should` of all for more. */
  function DepartmentClauses(d: Department): seq<Clause> {
    var t := DepartmentText(d);
    if t.None? || t.value == "" then []
    else
      var qs := Ranking.Map(DepartmentNames(t.value), DepartmentClause);
      if |qs| > 1 then [Should(qs)] else qs
  }

  /** The body `query_elasticsearch_hosp` sends: department clauses, then the type filter. */
  function HospQuery(lat: real, lon: real, d: Department, primary: bool, secondary: bool, tertiary: bool): Query {
    Query(DepartmentClauses(d) + TypeFilter(primary, secondary, tertiary), lat, lon, RadiusKm, true, ResultSize)
  }

  /** The clause filters on the hospital type. */
  predicate OnType(c: Clause) {
    c.Terms? && c.field == TypeField
  }

  /**
   * With all three flags or none, the body has no type filter; otherwise it has exactly
   * one, as its last clause, listing a type iff the flag of its tier is set.
   */
  lemma TypeFilterMeans(lat: real, lon: real, d: Department, primary: bool, secondary: bool, tertiary: bool)
    ensures var q := HospQuery(lat, lon, d, primary, secondary, tertiary);
      (primary && secondary && tertiary) || (!primary && !secondary && !tertiary) ==>
        forall i :: 0 <= i < |q.must| ==> !OnType(q.must[i])
    ensures var q := HospQuery(lat, lon, d, primary, secondary, tertiary);
      !((primary && secondary && tertiary) || (!primary && !secondary && !tertiary)) ==>
        && q.must != [] && OnType(q.must[|q.must| - 1])
        && (forall i :: 0 <= i < |q.must| - 1 ==> !OnType(q.must[i]))
        && forall x :: x in q.must[|q.must| - 1].values <==>
             (primary && x in PrimaryTypes) || (secondary && x in SecondaryTypes) || (tertiary && x in TertiaryTypes)
  {
    var dc := DepartmentClauses(d);
    DepartmentClausesOffType(d);
    var q := HospQuery(lat, lon, d, primary, secondary, tertiary);
    assert q.must == dc + TypeFilter(primary, secondary, tertiary);
    assert forall i :: 0 <= i < |dc| ==> q.must[i] == dc[i];
  }

  /** No department clause filters on the type. */
  lemma {:induction false} DepartmentClausesOffType(d: Department)
    ensures forall i :: 0 <= i < |DepartmentClauses(d)| ==> !OnType(DepartmentClauses(d)[i])
  {
    var t := DepartmentText(d);
    if t.Some? && t.value != "" {
      var names := DepartmentNames(t.value);
      var qs := Ranking.Map(names, DepartmentClause);
      forall i | 0 <= i < |qs| ensures !OnType(qs[i]) {
        DepartmentClauseOffType(names[i]);
      }
    }
  }

  lemma DepartmentClauseOffType(dept: string)
    ensures !OnType(DepartmentClause(dept))
  {
    assert SubjectField[0] != TypeField[0];
  }

  /** Every body asks for the 30 nearest hits within 100 km of the user, nearest first. */
  lemma QueryBounds(lat: real, lon: real, d: Department, primary: bool, secondary: bool, tertiary: bool)
    ensures var q := HospQuery(lat, lon, d, primary, secondary, tertiary);
      q.radiusKm == 100 && q.ascending && q.size == 30 && q.lat == lat && q.lon == lon
      && |q.must| <= 2
  {
    var t := DepartmentText(d);
    if t.Some? && t.value != "" {
      var qs := Ranking.Map(DepartmentNames(t.value), DepartmentClause);
      assert |DepartmentNames(t.value)| >= 1;
    }
  }

  /**
   * An empty department adds no clause; a single name adds its clause directly; several
   * names add one `bool/should` holding one clause per name, in order.
   */
  lemma DepartmentClausesShape(d: Department)
    ensures var t := DepartmentText(d);
      t.None? || t.value == "" ==> DepartmentClauses(d) == []
    ensures var t := DepartmentText(d);
      t.Some? && t.value != "" && |DepartmentNames(t.value)| == 1 ==>
        DepartmentClauses(d) == [DepartmentClause(DepartmentNames(t.value)[0])]
    ensures var t := DepartmentText(d);
      t.Some? && t.value != "" && |DepartmentNames(t.value)| > 1 ==>
        var names := DepartmentNames(t.value);
        && |DepartmentClauses(d)| == 1 && DepartmentClauses(d)[0].Should?
        && |DepartmentClauses(d)[0].clauses| == |names|
        && forall i :: 0 <= i < |names| ==> DepartmentClauses(d)[0].clauses[i] == DepartmentClause(names[i])
  {
  }

  /** The dental and oriental groups become `terms` over their 12 and 9 subjects; any other name a phrase match on itself. */
  lemma DepartmentClauseKinds(dept: string)
    ensures dept == DentalName ==> DepartmentClause(dept).Terms? && |DepartmentClause(dept).values| == 12
    ensures dept == OrientalName ==> DepartmentClause(dept).Terms? && |DepartmentClause(dept).values| == 9
    ensures dept != DentalName && dept != OrientalName ==> DepartmentClause(dept) == MatchPhrase(SubjectField, dept)
    ensures DepartmentClause(dept).field == SubjectField
  {
  }

  /** `" " + x` strips to what `x` strips to. */
  lemma StripSpaced(x: string)
    ensures Strip(" " + x) == Strip(x)
  {
    assert (" " + x)[1..] == x;
    assert TrimLeft(" " + x, IsSpace) == TrimLeft(x, IsSpace);
  }

  /** `x` behind a space. */
  function Spaced(x: string): string { " " + x }

  /** `", ".join(xs)` is `",".join` of the names, all but the first behind a space. */
  lemma {:induction false} JoinCommaSpace(xs: seq<string>)
    requires |xs| >= 1
    ensures Join(xs, ", ") == Join([xs[0]] + Ranking.Map(xs[1..], Spaced), ",")
    decreases |xs|
  {
    if |xs| > 1 {
      var tail := Ranking.Map(xs[2..], Spaced);
      JoinCommaSpace(xs[1..]);
      assert xs[1..][0] == xs[1] && xs[1..][1..] == xs[2..];
      var spaced := Ranking.Map(xs[1..], Spaced);
      assert spaced == [" " + xs[1]] + tail;
      JoinSpacedHead(xs[1], tail);
      assert ([xs[0]] + spaced)[1..] == spaced;
    }
  }

  lemma JoinSpacedHead(a: string, rest: seq<string>)
    ensures Join([" " + a] + rest, ",") == " " + Join([a] + rest, ",")
  {
    assert ([" " + a] + rest)[1..] == rest && ([a] + rest)[1..] == rest;
  }

  /** The spaced parts hold no comma when the names hold none. */
  lemma {:induction false} SpacedNoComma(xs: seq<string>, parts: seq<string>)
    requires |xs| >= 1 && forall i :: 0 <= i < |xs| ==> ',' !in xs[i]
    requires |parts| == |xs| && parts[0] == xs[0] && forall i :: 1 <= i < |xs| ==> parts[i] == Spaced(xs[i])
    ensures forall i :: 0 <= i < |parts| ==> ',' !in parts[i]
  {
    forall i | 1 <= i < |parts| ensures ',' !in parts[i] {
      assert parts[i] == [' '] + xs[i];
    }
  }

  /** Names behind a space strip to what the names strip to. */
  lemma {:induction false} SpacedStrip(ys: seq<string>)
    ensures Ranking.Map(Ranking.Map(ys, Spaced), Strip) == Ranking.Map(ys, Strip)
  {
    var spaced := Ranking.Map(ys, Spaced);
    forall i | 0 <= i < |ys| ensures Strip(spaced[i]) == Strip(ys[i]) {
      StripSpaced(ys[i]);
    }
    MapAgrees(spaced, ys, Strip);
  }

  lemma MapAgrees<A, B>(s: seq<A>, t: seq<A>, f: A -> B)
    requires |s| == |t| && forall i :: 0 <= i < |s| ==> f(s[i]) == f(t[i])
    ensures Ranking.Map(s, f) == Ranking.Map(t, f)
  {
  }

  /**
   * A list of names that hold no comma comes back, after the join and the split, as the
   * same names up to surrounding whitespace.
   */
  lemma {:induction false} ListedNamesRoundTrip(xs: seq<string>)
    requires |xs| >= 1 && forall i :: 0 <= i < |xs| ==> ',' !in xs[i]
    ensures DepartmentNames(Join(xs, ", ")) == Ranking.Map(xs, Strip)
  {
    var parts := [xs[0]] + Ranking.Map(xs[1..], Spaced);
    ListedSplit(xs, parts);
    NamesOfParts(xs, parts, Join(xs, ", "));
  }

  lemma {:induction false} NamesOfParts(xs: seq<string>, parts: seq<string>, text: string)
    requires |xs| >= 1 && parts == [xs[0]] + Ranking.Map(xs[1..], Spaced)
    requires Split(text, ',') == parts
    ensures DepartmentNames(text) == Ranking.Map(xs, Strip)
  {
    var x, ys := xs[0], xs[1..];
    HeadAndTail(xs);
    NamesOfSplit(text, parts);
    StripParts(x, ys);
  }

  lemma HeadAndTail<T>(xs: seq<T>)
    requires |xs| >= 1
    ensures [xs[0]] + xs[1..] == xs
  {
  }

  lemma NamesOfSplit(text: string, parts: seq<string>)
    requires Split(text, ',') == parts
    ensures DepartmentNames(text) == Ranking.Map(parts, Strip)
  {
  }

  /** Splitting the joined names at the commas gives the names, all but the first behind a space. */
  lemma {:induction false} ListedSplit(xs: seq<string>, parts: seq<string>)
    requires |xs| >= 1 && forall i :: 0 <= i < |xs| ==> ',' !in xs[i]
    requires parts == [xs[0]] + Ranking.Map(xs[1..], Spaced)
    ensures Split(Join(xs, ", "), ',') == parts
  {
    JoinCommaSpace(xs);
    SpacedNoComma(xs, parts);
    SplitJoin(parts, ',');
  }

  lemma {:induction false} StripParts(x: string, ys: seq<string>)
    ensures Ranking.Map([x] + Ranking.Map(ys, Spaced), Strip) == Ranking.Map([x] + ys, Strip)
  {
    SpacedStrip(ys);
    Ranking.MapAppend([x], Ranking.Map(ys, Spaced), Strip);
    Ranking.MapAppend([x], ys, Strip);
  }

  /** `query_elasticsearch_hosp`: the body built step by step, and the response `search` gives for it. */
  method QueryElasticsearchHosp<R>(userLat: real, userLon: real, department: Department,
                                   primary: bool, secondary: bool, tertiary: bool, search: Query -> R)
    returns (query: Query, response: R)
    ensures query == HospQuery(userLat, userLon, department, primary, secondary, tertiary)
    ensures response == search(query)
  {
    var text := DepartmentText(department);
    var mustClcdnm := TypeClauses(primary, secondary, tertiary);
    var mustQueries: seq<Clause> := [];
    if text.Some? && text.value != "" {
      var departments := DepartmentNames(text.value);
      var departmentQueries := DepartmentQueries(departments);
      if |departmentQueries| > 1 {
        mustQueries := mustQueries + [Should(departmentQueries)];
      } else {
        mustQueries := mustQueries + departmentQueries;
      }
    }
    assert mustQueries == DepartmentClauses(department);
    query := Query(mustQueries, userLat, userLon, RadiusKm, true, ResultSize);
    if mustClcdnm != [] {
      query := query.(must := query.must + mustClcdnm);
    }
    response := search(query);
  }

  /** `must_clcdnm`, the selected types gathered tier by tier. */
  method TypeClauses(primary: bool, secondary: bool, tertiary: bool) returns (mustClcdnm: seq<Clause>)
    ensures mustClcdnm == TypeFilter(primary, secondary, tertiary)
  {
    mustClcdnm := [];
    if !((primary && secondary && tertiary) || (!primary && !secondary && !tertiary)) {
      var selectedTypes: seq<string> := [];
      if primary {
        selectedTypes := selectedTypes + PrimaryTypes;
      }
      assert selectedTypes == (if primary then PrimaryTypes else []);
      if secondary {
        selectedTypes := selectedTypes + SecondaryTypes;
      }
      if tertiary {
        selectedTypes := selectedTypes + TertiaryTypes;
      }
      assert selectedTypes == SelectedTypes(primary, secondary, tertiary);
      assert |selectedTypes| >= |SecondaryTypes| || |selectedTypes| >= |TertiaryTypes| || |selectedTypes| >= |PrimaryTypes|;
      if selectedTypes != [] {
        mustClcdnm := [Terms(TypeField, selectedTypes)];
      }
    }
  }

  /** The loop over the department names. */
  method DepartmentQueries(departments: seq<string>) returns (queries: seq<Clause>)
    ensures queries == Ranking.Map(departments, DepartmentClause)
  {
    queries := [];
    for i := 0 to |departments|
      invariant queries == Ranking.Map(departments[..i], DepartmentClause)
    {
      Ranking.MapSnoc(departments[..i], departments[i], DepartmentClause);
      assert departments[..i + 1] == departments[..i] + [departments[i]];
      queries := queries + [DepartmentClause(departments[i])];
    }
    assert departments[..|departments|] == departments;
  }

  // ---------------------------------------------------------------- the hits

  /**
   * A search hit: its `_source` (`None` when the hit has none), its script `fields`
   * (an absent `fields` is the empty map) and its `sort` values, if any.
   */
  datatype Hit<V> = Hit(source: Option<map<string, V>>, fields: map<string, seq<V>>, sort: Option<seq<V>>)

  /** The record `filtering_hosp` makes of a hit. */
  datatype HospitalRecord<V> = HospitalRecord(
    id: Option<V>, name: Option<V>, address: Option<V>, telephone: Option<V>, department: Option<V>,
    latitude: Option<V>, longitude: Option<V>, esDistanceInKm: Option<V>, sidocdnm: Option<V>,
    sggucdnm: Option<V>, emdongnm: Option<V>, clcdnm: Option<V>, location: Option<V>, url: Option<V>,
    sortScore: Option<V>)

  /** `source.get(key)` */
  function Get<V>(source: map<string, V>, key: string): (r: Option<V>)
    ensures r.Some? <==> key in source
    ensures r.Some? ==> r.value == source[key]
  {
    if key in source then Some(source[key]) else None
  }

  /** `xs[0]` of a list that may be absent (`[None][0]`) or empty (`IndexError`). */
  function FirstOrNone<V>(xs: Option<seq<V>>): Result<Option<V>> {
    if xs.None? then Success(None)
    else if xs.value == [] then Failure("IndexError: list index out of range")
    else Success(Some(xs.value[0]))
  }

  /** One hit's record: a hit without `_source` raises `KeyError`, and so does an empty distance or sort list. */
  function RecordOfHit<V>(hit: Hit<V>): Result<HospitalRecord<V>> {
    if hit.source.None? then Failure("KeyError: '_source'")
    else
      var s := hit.source.value;
      var distance := FirstOrNone(if "es_distance_in_km" in hit.fields then Some(hit.fields["es_distance_in_km"]) else None);
      if distance.Failure? then Failure(distance.error)
      else
        var score := FirstOrNone(hit.sort);
        if score.Failure? then Failure(score.error)
        else Success(HospitalRecord(
          Get(s, "id"), Get(s, "yadmnm"), Get(s, "addr"), Get(s, "telno"), Get(s, "dgsbjt"),
          Get(s, "ypos"), Get(s, "xpos"), distance.value, Get(s, "sidocdnm"),
          Get(s, "sggucdnm"), Get(s, "emdongnm"), Get(s, "clcdnm"), Get(s, "location"), Get(s, "hospurl"),
          score.value))
  }

  /**
   * A hit with a source gives a record whose name and address are the source's `yadmnm`
   * and `addr`, whose distance is `None` exactly when the hit has no distance field and
   * whose sort score is `None` exactly when it has no sort values.
   */
  lemma RecordOfHitFields<V>(hit: Hit<V>)
    requires hit.source.Some?
    requires "es_distance_in_km" in hit.fields ==> hit.fields["es_distance_in_km"] != []
    requires hit.sort.Some? ==> hit.sort.value != []
    ensures RecordOfHit(hit).Success?
    ensures var r := RecordOfHit(hit).value;
      && (r.esDistanceInKm.None? <==> "es_distance_in_km" !in hit.fields)
      && (r.sortScore.None? <==> hit.sort.None?)
      && (r.name.Some? <==> "yadmnm" in hit.source.value)
      && (r.address.Some? <==> "addr" in hit.source.value)
      && (r.sortScore.Some? ==> r.sortScore.value == hit.sort.value[0])
  {
  }

  /** `filtering_hosp`: one record per hit, in hit order; the first hit that raises ends the loop. */
  method FilteringHosp<V>(hits: seq<Hit<V>>) returns (r: Result<seq<HospitalRecord<V>>>)
    ensures r.Success? <==> forall i :: 0 <= i < |hits| ==> RecordOfHit(hits[i]).Success?
    ensures r.Success? ==> |r.value| == |hits| && forall i :: 0 <= i < |hits| ==> r.value[i] == RecordOfHit(hits[i]).value
    ensures r.Failure? ==> exists i :: 0 <= i < |hits| && RecordOfHit(hits[i]) == Failure(r.error)
                                       && forall j :: 0 <= j < i ==> RecordOfHit(hits[j]).Success?
  {
    var filtered := [];
    for i := 0 to |hits|
      invariant |filtered| == i
      invariant forall j :: 0 <= j < i ==> RecordOfHit(hits[j]).Success? && filtered[j] == RecordOfHit(hits[j]).value
    {
      var record := RecordOfHit(hits[i]);
      if record.Failure? {
        return Failure(record.error);
      }
      filtered := filtered + [record.value];
    }
    return Success(filtered);
  }
}
