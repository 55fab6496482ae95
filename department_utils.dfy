/**
 * The department clean-up of utils/department_utils.py: a department suggested as
 * `'신경과 (Singyeonggwa, ประสาทวิทยา)'` is cut back to its Korean name, a list of them is
 * cut back element by element and joined with `", "`, and a missing department falls
 * back to internal medicine.
 */
module DepartmentUtils {
  import opened PyText
  import Ranking
  import HospitalSearch

  /** `department_input`: absent (`None`), one string, or a list of strings. */
  datatype DepartmentInput = Absent | Text(s: string) | Items(xs: seq<string>)

  /** Internal medicine, the answer when there is no department. */
  const DefaultDepartment := "내과"

  /** Python's truthiness of the input. */
  predicate Falsy(input: DepartmentInput) {
    input.Absent? || input == Text("") || input == Items([])
  }

  /** `s.split(sep)[0]` is the text before the first separator, or all of `s` when there is none. */
  lemma {:induction false} SplitHead(s: string, sep: char)
    ensures var head := Split(s, sep)[0];
      |head| <= |s| && head == s[..|head|] && (|head| < |s| ==> s[|head|] == sep)
    decreases |s|
  {
    if s != [] {
      SplitHead(s[1..], sep);
    }
  }

  /** `strip()` keeps a run of the characters it was given and strips nothing further. */
  lemma {:induction false} StripInside(s: string)
    ensures forall c :: c in Strip(s) ==> c in s
    ensures Strip(Strip(s)) == Strip(s)
  {
    var l := TrimLeft(s, IsSpace);
    var r := Strip(s);
    assert r == l[..|r|];
    assert l == s[|s| - |l|..];
    forall c | c in r ensures c in s {
      var i :| 0 <= i < |r| && r[i] == c;
      assert s[|s| - |l| + i] == c;
    }
    if r != [] {
      assert r[0] == l[0];
      StripNoop(r);
    }
  }

  /** `extract_single_department` */
  function ExtractSingleDepartment(s: string): string {
    if s == "" then DefaultDepartment
    else if '(' in s && ')' in s then Strip(Split(s, '(')[0])
    else Strip(s)
  }

  /**
   * An empty string gives internal medicine; a string with both parentheses gives the
   * text before its first `(`, stripped, which then holds no `(`; any other string comes
   * back stripped.
   */
  lemma {:induction false} ExtractSingleMeans(s: string)
    ensures s == "" ==> ExtractSingleDepartment(s) == DefaultDepartment
    ensures s != "" && '(' in s && ')' in s ==>
      exists k :: 0 <= k < |s| && s[k] == '(' && '(' !in s[..k] && ExtractSingleDepartment(s) == Strip(s[..k])
    ensures '(' in s && ')' in s ==> '(' !in ExtractSingleDepartment(s)
    ensures !('(' in s && ')' in s) && s != "" ==> ExtractSingleDepartment(s) == Strip(s)
  {
    if s != "" && '(' in s && ')' in s {
      var head := Split(s, '(')[0];
      SplitHead(s, '(');
      StripInside(head);
      assert forall j :: 0 <= j < |head| ==> s[j] == head[j];
      assert forall j :: 0 <= j < |head| ==> s[j] != '(';
    }
  }

  /** A name that opens with `(` is cut back to nothing. */
  lemma LeadingParenthesisGivesNothing(s: string)
    requires s != "" && s[0] == '(' && ')' in s
    ensures ExtractSingleDepartment(s) == ""
  {
    assert Split(s, '(') == [""] + Split(s[1..], '(');
  }

  /** A department already cut back is left as it is. */
  lemma {:induction false} ExtractSingleIdempotent(s: string)
    requires ExtractSingleDepartment(s) != ""
    ensures ExtractSingleDepartment(ExtractSingleDepartment(s)) == ExtractSingleDepartment(s)
  {
    if s == "" {
      DefaultStays();
    } else if '(' in s && ')' in s {
      ParenthesisedStays(s);
    } else {
      PlainStays(s);
    }
  }

  lemma {:induction false} ParenthesisedStays(s: string)
    requires s != "" && '(' in s && ')' in s && ExtractSingleDepartment(s) != ""
    ensures ExtractSingleDepartment(ExtractSingleDepartment(s)) == ExtractSingleDepartment(s)
  {
    ExtractSingleMeans(s);
    StripInside(Split(s, '(')[0]);
    StaysCutBack(ExtractSingleDepartment(s));
  }

  lemma {:induction false} PlainStays(s: string)
    requires s != "" && !('(' in s && ')' in s) && ExtractSingleDepartment(s) != ""
    ensures ExtractSingleDepartment(ExtractSingleDepartment(s)) == ExtractSingleDepartment(s)
  {
    var r := Strip(s);
    StripInside(s);
    assert '(' in r ==> '(' in s;
    assert ')' in r ==> ')' in s;
    StaysCutBack(r);
  }

  lemma DefaultStays()
    ensures ExtractSingleDepartment(DefaultDepartment) == DefaultDepartment
  {
    PlainNameStays(DefaultDepartment);
  }

  /** A name without parentheses or surrounding whitespace is its own cut-back form. */
  lemma PlainNameStays(d: string)
    requires d != "" && '(' !in d && !IsSpace(d[0]) && !IsSpace(d[|d| - 1])
    ensures ExtractSingleDepartment(d) == d
  {
    StripNoop(d);
  }

  lemma StaysCutBack(r: string)
    requires r != "" && Strip(r) == r && !('(' in r && ')' in r)
    ensures ExtractSingleDepartment(r) == r
  {
  }

  predicate NonEmpty(s: string) {
    s != ""
  }

  /** The list path: the non-empty cut-back names joined with `", "`, or internal medicine when none is left. */
  function KoreanDepartments(xs: seq<string>): string {
    var processed := Ranking.Filter(Ranking.Map(xs, ExtractSingleDepartment), NonEmpty);
    if processed == [] then DefaultDepartment else Join(processed, ", ")
  }

  /** `extract_korean_department` */
  function KoreanDepartment(input: DepartmentInput): string {
    if Falsy(input) then DefaultDepartment
    else match input
      case Items(xs) => KoreanDepartments(xs)
      case Text(s) => ExtractSingleDepartment(s)
      case Absent => DefaultDepartment
  }

  /** `extract_korean_department`, with its loop over the list. */
  method ExtractKoreanDepartment(input: DepartmentInput) returns (r: string)
    ensures r == KoreanDepartment(input)
  {
    if Falsy(input) {
      return DefaultDepartment;
    }
    if input.Items? {
      var xs := input.xs;
      var processedDepartments: seq<string> := [];
      for i := 0 to |xs|
        invariant processedDepartments == Ranking.Filter(Ranking.Map(xs[..i], ExtractSingleDepartment), NonEmpty)
      {
        var processedDept := ExtractSingleDepartment(xs[i]);
        ProcessedStep(xs, i);
        if processedDept != "" {
          processedDepartments := processedDepartments + [processedDept];
        }
      }
      assert xs[..|xs|] == xs;
      return if processedDepartments != [] then Join(processedDepartments, ", ") else DefaultDepartment;
    }
    return ExtractSingleDepartment(input.s);
  }

  lemma ProcessedStep(xs: seq<string>, i: nat)
    requires i < |xs|
    ensures var d := ExtractSingleDepartment(xs[i]);
      Ranking.Filter(Ranking.Map(xs[..i + 1], ExtractSingleDepartment), NonEmpty)
      == Ranking.Filter(Ranking.Map(xs[..i], ExtractSingleDepartment), NonEmpty) + (if NonEmpty(d) then [d] else [])
  {
    assert xs[..i + 1] == xs[..i] + [xs[i]];
    Ranking.MapSnoc(xs[..i], xs[i], ExtractSingleDepartment);
    Ranking.FilterSnoc(Ranking.Map(xs[..i], ExtractSingleDepartment), ExtractSingleDepartment(xs[i]), NonEmpty);
  }

  /** The list path never answers with an empty string. */
  lemma {:induction false} ListAnswerNonEmpty(xs: seq<string>)
    ensures KoreanDepartment(Items(xs)) != ""
  {
    var processed := Ranking.Filter(Ranking.Map(xs, ExtractSingleDepartment), NonEmpty);
    if processed != [] {
      assert |Join(processed, ", ")| >= |processed[0]|;
    }
  }

  /** A cut-back name that holds no comma. */
  lemma {:induction false} CutBackHasNoComma(x: string)
    requires ',' !in x
    ensures ',' !in ExtractSingleDepartment(x)
    ensures ExtractSingleDepartment(x) != "" ==> Strip(ExtractSingleDepartment(x)) == ExtractSingleDepartment(x)
  {
    if x != "" {
      if '(' in x && ')' in x {
        var head := Split(x, '(')[0];
        SplitHead(x, '(');
        StripInside(head);
        assert forall c :: c in head ==> c in x;
      } else {
        StripInside(x);
      }
    }
  }

  /**
   * A list answer, split at its commas and stripped the way the hospital search reads a
   * department, gives back exactly the non-empty cut-back names, when no name holds a comma.
   */
  lemma {:induction false} ListAnswerReadsBack(xs: seq<string>)
    requires forall i :: 0 <= i < |xs| ==> ',' !in xs[i]
    requires Ranking.Filter(Ranking.Map(xs, ExtractSingleDepartment), NonEmpty) != []
    ensures HospitalSearch.DepartmentNames(KoreanDepartment(Items(xs)))
         == Ranking.Filter(Ranking.Map(xs, ExtractSingleDepartment), NonEmpty)
  {
    var processed := Ranking.Filter(Ranking.Map(xs, ExtractSingleDepartment), NonEmpty);
    ProcessedClean(xs);
    ListAnswerJoins(xs);
    HospitalSearch.ListedNamesRoundTrip(processed);
    StripFixed(processed);
  }

  /** The names kept from a comma-free list hold no comma and are already stripped. */
  lemma {:induction false} ProcessedClean(xs: seq<string>)
    requires forall i :: 0 <= i < |xs| ==> ',' !in xs[i]
    ensures var processed := Ranking.Filter(Ranking.Map(xs, ExtractSingleDepartment), NonEmpty);
      forall i :: 0 <= i < |processed| ==> ',' !in processed[i] && Strip(processed[i]) == processed[i]
  {
    var mapped := Ranking.Map(xs, ExtractSingleDepartment);
    var processed := Ranking.Filter(mapped, NonEmpty);
    forall i | 0 <= i < |mapped| ensures ',' !in mapped[i] && (mapped[i] != "" ==> Strip(mapped[i]) == mapped[i]) {
      CutBackHasNoComma(xs[i]);
    }
    Ranking.FilterSubset(mapped, NonEmpty);
    forall i | 0 <= i < |processed| ensures ',' !in processed[i] && Strip(processed[i]) == processed[i] {
      assert processed[i] in mapped;
    }
  }

  /** A non-empty list of kept names is answered with their join. */
  lemma ListAnswerJoins(xs: seq<string>)
    requires Ranking.Filter(Ranking.Map(xs, ExtractSingleDepartment), NonEmpty) != []
    ensures KoreanDepartment(Items(xs)) == Join(Ranking.Filter(Ranking.Map(xs, ExtractSingleDepartment), NonEmpty), ", ")
  {
  }

  /** Stripping names that are already stripped changes nothing. */
  lemma StripFixed(names: seq<string>)
    requires forall i :: 0 <= i < |names| ==> Strip(names[i]) == names[i]
    ensures Ranking.Map(names, Strip) == names
  {
  }
}
