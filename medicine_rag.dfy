/**
 * The over-the-counter drug recommender (`medicineRAG.py`): a vector search proposes
 * candidate drugs for a symptom, the candidates are re-scored against the patient's
 * profile, drugs that draw a warning are moved behind the safe ones, and the best drug is
 * returned with three sentences the patient can show a pharmacist.
 *
 * The embedding call and the vector search are represented by the row numbers they return;
 * the GPT calls (context analysis, translation, symptom conversion, romanization) are
 * functions in `Services`.
 */
module MedicineRag {
  import opened Wrappers
  import opened PyText
  import Ranking

  /**
   * One row of the drug metadata. A field the record lacks is the empty string, which is
   * what `drug.get(field, '')` yields.
   */
  datatype Drug = Drug(
    itemName: string,
    itemNameEn: string,
    efcy: string,        // efcyQesitm: what the drug is for
    useMethod: string,   // useMethodQesitm
    atpn: string,        // atpnQesitm: precautions
    se: string,          // seQesitm: side effects
    intrc: string,       // intrcQesitm: interactions
    itemImage: string)

  /**
   * The patient profile. A missing key and a falsy value behave alike everywhere here, so
   * each is folded into one value: `""` for text and `0` for numbers.
   */
  datatype PatientInfo = PatientInfo(
    gender: string,
    age: int,
    height: nat,
    weight: nat,
    allergies: string,
    medications: string,  // current_medications
    history: string)      // medical_history

  /** A candidate with the score and warnings `filter_and_rank_drugs` gave it. */
  datatype ScoredDrug = ScoredDrug(drug: Drug, score: int, warnings: seq<string>)

  /** The dictionary `recommend_drug` returns; `error` is true only for the error response. */
  datatype Response = Response(
    drugName: string,
    drugPurpose: string,
    drugImageUrl: string,
    question1: string,
    question2: string,
    question3: string,
    warningMessage: string,
    error: bool)

  /** The calls into GPT, fixed for one request. */
  datatype Services = Services(
    // translate_text(text, language)
    translate: (string, string) -> string,
    // the GPT answer of convert_symptom_to_korean for a language other than Korean
    toKorean: (string, string) -> string,
    // the entry romanize_korean_names gives a name, if any
    romanize: string -> Option<string>,
    // analyze_drug_context: None when the call or its JSON fails
    context: Drug -> Option<(int, seq<string>)>)

  const NoDrugMessage: string := "적합한 약품을 찾을 수 없습니다."
  const Disclaimer: string := "해당 내용은 정보 제공의 목적으로 구현되었으며, 약 복용에 대해서는 반드시 약사와 상담하세요."
  const AllergyWarningPrefix: string := "알레르기 반응 가능성: "
  const MedicationWarning: string := "현재 복용약과 상호작용 가능성"
  const HistoryWarning: string := "과거 병력과 관련된 주의사항"
  const AskPrefix: string := "약국에서 다음과 같이 말씀해보세요! : "
  const AskMiddle: string := "에 좋은 약을 찾고 있어요."
  const AskSuffix: string := "약사님께 직접 말하시기 어려우시면, 아래 문장을 약사님께 보여주세요."
  const CanITake: string := "에 먹을 수 있는 약이 있을까요?"
  const Quote: string := "\""

  /** `language.lower() == "ko"` */
  predicate IsKorean(language: string) {
    Lower(language) == "ko"
  }

  // ---------------------------------------------------------------- keyword analysis

  function GenderText(d: Drug): string { Lower(d.itemName + " " + d.efcy) }
  function AgeText(d: Drug): string { Lower(d.itemName + " " + d.useMethod) }
  function BodyText(d: Drug): string { Lower(d.useMethod + " " + d.atpn) }
  /** The text searched for allergies and for past conditions. */
  function SafetyText(d: Drug): string { Lower(d.atpn + " " + d.se) }
  function InteractionText(d: Drug): string { Lower(d.intrc + " " + d.atpn) }

  /** +5 when a drug's name or purpose mentions the patient's sex. */
  function GenderBonus(d: Drug, p: PatientInfo): (b: int)
    ensures b == 0 || b == 5
    ensures b == 5 ==> p.gender != ""
  {
    if p.gender == "" then 0
    else
      var g := Lower(p.gender);
      if g in ["female", "여성", "여자"] then
        (if AnyIn(["여성", "여자", "생리", "월경", "임신", "수유"], GenderText(d)) then 5 else 0)
      else if g in ["male", "남성", "남자"] then
        (if AnyIn(["남성", "남자", "전립선"], GenderText(d)) then 5 else 0)
      else 0
  }

  /** Under 12: +3 for a child form, -2 for a tablet not meant for children; over 65: +2. */
  function AgeBonus(d: Drug, p: PatientInfo): (b: int)
    ensures b in {-2, 0, 2, 3}
    ensures b == 3 || b == -2 ==> p.age != 0 && p.age < 12
    ensures b == 2 ==> p.age > 65
  {
    if p.age == 0 then 0
    else if p.age < 12 then
      if AnyIn(["시럽", "츄어블", "어린이", "소아"], AgeText(d)) then 3
      else if IsSubstring("알약", AgeText(d)) && !IsSubstring("어린이", AgeText(d)) then -2
      else 0
    else if p.age > 65 then
      if AnyIn(["고령자", "노인"], AgeText(d)) then 2 else 0
    else 0
  }

  /** `weight / (height/100)**2 > 30` */
  predicate Obese(height: nat, weight: nat)
    requires height > 0
  {
    var m := height as real / 100.0;
    weight as real / (m * m) > 30.0
  }

  /** +2 when the patient's BMI is over 30 and the drug text mentions obesity or weight. */
  function BmiBonus(d: Drug, p: PatientInfo): (b: int)
    ensures b == 0 || b == 2
    ensures b == 2 ==> p.height > 0 && p.weight > 0 && Obese(p.height, p.weight)
  {
    if p.height != 0 && p.weight != 0 && Obese(p.height, p.weight)
       && (IsSubstring("비만", BodyText(d)) || IsSubstring("체중", BodyText(d)))
    then 2 else 0
  }

  /** The part of the keyword score that never comes with a warning. */
  function Adjustment(d: Drug, p: PatientInfo): (a: int)
    ensures -2 <= a <= 10
  {
    GenderBonus(d, p) + AgeBonus(d, p) + BmiBonus(d, p)
  }

  /** The comma-separated entries of a profile field, lower-cased. */
  function Entries(field: string): seq<string> {
    Split(Lower(field), ',')
  }

  /** A blank entry: one that is empty once stripped. */
  predicate Blank(entry: string) {
    Strip(entry) == ""
  }

  /** The allergy entries, each stripped. */
  function AllergyNames(allergies: string): (names: seq<string>)
    ensures |names| == |Entries(allergies)|
  {
    Ranking.Map(Entries(allergies), Strip)
  }

  /** A stripped allergy entry is reported when it is not empty and occurs in `text`. */
  predicate Reported(a: string, text: string) {
    a != "" && IsSubstring(a, text)
  }

  function ReportedIn(text: string): (f: string -> bool)
    ensures forall a :: f(a) == Reported(a, text)
  {
    (a: string) => Reported(a, text)
  }

  /** Some non-blank entry occurs, unstripped, in `text`. */
  predicate AnyEntryIn(entries: seq<string>, text: string)
    decreases |entries|
  {
    entries != [] && ((!Blank(entries[0]) && IsSubstring(entries[0], text)) || AnyEntryIn(entries[1..], text))
  }

  function FoundAllergies(d: Drug, p: PatientInfo): seq<string> {
    if p.allergies == "" then [] else Ranking.Filter(AllergyNames(p.allergies), ReportedIn(SafetyText(d)))
  }

  /** A filled-in field with some non-blank entry in `text`. */
  predicate Clash(field: string, text: string) {
    field != "" && AnyEntryIn(Entries(field), text)
  }

  predicate MedicationClash(d: Drug, p: PatientInfo) {
    Clash(p.medications, InteractionText(d))
  }

  predicate HistoryClash(d: Drug, p: PatientInfo) {
    Clash(p.history, SafetyText(d))
  }

  function AllergyWarning(a: string): string {
    AllergyWarningPrefix + a
  }

  /** `analyze_drug_keywords`, score half: -10 per allergy, -5 for an interaction, -3 for a past condition. */
  function KeywordScore(d: Drug, p: PatientInfo): int {
    Adjustment(d, p) - 10 * |FoundAllergies(d, p)|
    - (if MedicationClash(d, p) then 5 else 0)
    - (if HistoryClash(d, p) then 3 else 0)
  }

  /** `analyze_drug_keywords`, warnings half, in the order they are raised. */
  function KeywordWarnings(d: Drug, p: PatientInfo): seq<string> {
    Ranking.Map(FoundAllergies(d, p), AllergyWarning)
    + (if MedicationClash(d, p) then [MedicationWarning] else [])
    + (if HistoryClash(d, p) then [HistoryWarning] else [])
  }

  /**
   * The allergies found are exactly the stripped entries that are not empty and occur in
   * the drug's precautions or side effects; a blank entry is never reported.
   */
  lemma FoundAllergiesExact(d: Drug, p: PatientInfo)
    ensures forall a :: a in FoundAllergies(d, p) <==>
      && p.allergies != ""
      && a in AllergyNames(p.allergies)
      && a != "" && IsSubstring(a, SafetyText(d))
  {
    if p.allergies != "" {
      Ranking.FilterSubset(AllergyNames(p.allergies), ReportedIn(SafetyText(d)));
    }
  }

  /**
   * The keyword score never exceeds the profile adjustment, and equals it exactly when the
   * drug draws no keyword warning; every warning stands for one penalty.
   */
  lemma KeywordPenalties(d: Drug, p: PatientInfo)
    ensures |KeywordWarnings(d, p)| == |FoundAllergies(d, p)|
      + (if MedicationClash(d, p) then 1 else 0) + (if HistoryClash(d, p) then 1 else 0)
    ensures KeywordScore(d, p) <= Adjustment(d, p)
    ensures KeywordScore(d, p) == Adjustment(d, p) <==> KeywordWarnings(d, p) == []
  {
  }

  /**
   * Sex, age, height and weight only move the score: two profiles with the same allergies,
   * medications and history give the same warnings, and their scores differ by exactly the
   * difference of their adjustments.
   */
  lemma ProfileOnlyAdjusts(d: Drug, p: PatientInfo, q: PatientInfo)
    requires p.allergies == q.allergies && p.medications == q.medications && p.history == q.history
    ensures KeywordWarnings(d, p) == KeywordWarnings(d, q)
    ensures KeywordScore(d, p) - KeywordScore(d, q) == Adjustment(d, p) - Adjustment(d, q)
  {
  }

  /**
   * `analyze_drug_keywords`: adds up the profile bonuses, then walks the allergy entries,
   * taking 10 points and raising a warning for each one found, then checks the medications
   * and the history.
   */
  method AnalyzeDrugKeywords(d: Drug, p: PatientInfo) returns (score: int, warnings: seq<string>)
    ensures score == KeywordScore(d, p)
    ensures warnings == KeywordWarnings(d, p)
  {
    score := GenderBonus(d, p) + AgeBonus(d, p) + BmiBonus(d, p);
    warnings := [];
    var found: seq<string> := [];
    if p.allergies != "" {
      score, found, warnings := ScanAllergies(Entries(p.allergies), SafetyText(d), score);
    }
    assert found == FoundAllergies(d, p);
    assert score == Adjustment(d, p) - 10 * |found|;
    assert warnings == Ranking.Map(found, AllergyWarning);
    ghost var w0 := warnings;
    var medicationClash := MedicationClash(d, p);
    if medicationClash {
      score := score - 5;
      warnings := warnings + [MedicationWarning];
    } else {
      assert warnings == w0 + [];
    }
    ghost var w1 := warnings;
    var historyClash := HistoryClash(d, p);
    if historyClash {
      score := score - 3;
      warnings := warnings + [HistoryWarning];
    } else {
      assert warnings == w1 + [];
    }
  }

  /** The allergy loop: each entry, stripped, that occurs in `text` costs 10 points and a warning. */
  method ScanAllergies(entries: seq<string>, text: string, score0: int)
    returns (score: int, found: seq<string>, warnings: seq<string>)
    ensures found == Ranking.Filter(Ranking.Map(entries, Strip), ReportedIn(text))
    ensures score == score0 - 10 * |found|
    ensures warnings == Ranking.Map(found, AllergyWarning)
  {
    score, found, warnings := score0, [], [];
    ghost var names := Ranking.Map(entries, Strip);
    for i := 0 to |entries|
      invariant found == Ranking.Filter(names[..i], ReportedIn(text))
      invariant score == score0 - 10 * |found|
      invariant warnings == Ranking.Map(found, AllergyWarning)
    {
      var allergy := Strip(entries[i]);
      score, found, warnings := ScanEntry(names, i, allergy, text, score0, score, found, warnings);
    }
    assert names[..|entries|] == names;
  }

  /** One turn of the allergy loop: a reported allergy costs 10 points and adds its warning. */
  method ScanEntry(ghost names: seq<string>, ghost i: nat, allergy: string, text: string, ghost score0: int,
                   score: int, found: seq<string>, warnings: seq<string>)
    returns (score': int, found': seq<string>, warnings': seq<string>)
    requires i < |names| && names[i] == allergy
    requires found == Ranking.Filter(names[..i], ReportedIn(text))
    requires score == score0 - 10 * |found| && warnings == Ranking.Map(found, AllergyWarning)
    ensures found' == Ranking.Filter(names[..i + 1], ReportedIn(text))
    ensures score' == score0 - 10 * |found'| && warnings' == Ranking.Map(found', AllergyWarning)
  {
    Ranking.FilterPrefixStep(names, i, ReportedIn(text));
    if Reported(allergy, text) {
      Ranking.MapSnoc(found, allergy, AllergyWarning);
      score', found', warnings' := score - 10, found + [allergy], warnings + [AllergyWarning(allergy)];
    } else {
      score', found', warnings' := score, found, warnings;
    }
  }

  // ---------------------------------------------------------------- blank entries, as written

  function ContainedIn(text: string): (f: string -> bool)
    ensures forall a :: f(a) == IsSubstring(a, text)
  {
    (a: string) => IsSubstring(a, text)
  }

  /** The allergy loop as written: a blank entry is stripped to `""`, which is in every text. */
  function FoundAllergiesAsWritten(d: Drug, p: PatientInfo): (found: seq<string>)
    ensures forall a :: a in found ==> IsSubstring(a, SafetyText(d))
  {
    if p.allergies == "" then [] else Ranking.Filter(AllergyNames(p.allergies), ContainedIn(SafetyText(d)))
  }

  /** A word fit to be one profile entry: not empty, no comma, no capital, no outer space. */
  predicate PlainWord(w: string) {
    && w != []
    && ',' !in w
    && (forall i :: 0 <= i < |w| ==> !('A' <= w[i] <= 'Z'))
    && !IsSpace(w[0]) && !IsSpace(w[|w| - 1])
  }

  /** A plain word followed by a comma splits into the word and a blank entry. */
  lemma TrailingComma(w: string)
    requires PlainWord(w)
    ensures Entries(w + ",") == [w, ""]
    ensures AllergyNames(w + ",") == [w, ""]
  {
    assert Lower(w + ",") == w + ",";
    assert w + "," == w + [','] + "";
    SplitAfterPiece(w, "", ',');
    SplitWithoutSep(w, ',');
    StripNoop(w);
  }

  /** The medication and history checks as written: any entry, even a blank one, may match. */
  predicate ClashAsWritten(field: string, text: string) {
    field != "" && AnyIn(Entries(field), text)
  }

  /**
   * A trailing comma in the allergies (say "penicillin,") gives every drug an allergy
   * warning naming the empty string, and a trailing comma in the medications (say
   * "aspirin,") makes every drug clash. The corrected rule raises no warning at all for a
   * drug that mentions neither entry.
   */
  lemma BlankEntryMatchesEveryDrug(d: Drug, allergy: string, medication: string)
    requires PlainWord(allergy) && !IsSubstring(allergy, SafetyText(d))
    requires PlainWord(medication) && !IsSubstring(medication, InteractionText(d))
    ensures var p := PatientInfo("", 0, 0, 0, allergy + ",", medication + ",", "");
      && FoundAllergiesAsWritten(d, p) == [""]
      && ClashAsWritten(p.medications, InteractionText(d))
      && KeywordWarnings(d, p) == []
  {
    BlankAllergy(allergy, SafetyText(d));
    BlankMedication(medication, InteractionText(d));
  }

  /**
   * The history check has the same rule: a trailing comma (say "asthma,") makes every drug
   * clash with the history as written, and none that does not mention the condition under
   * the corrected rule.
   */
  lemma BlankHistoryMatchesEveryDrug(d: Drug, condition: string)
    requires PlainWord(condition) && !IsSubstring(condition, SafetyText(d))
    ensures var p := PatientInfo("", 0, 0, 0, "", "", condition + ",");
      && ClashAsWritten(p.history, SafetyText(d))
      && !HistoryClash(d, p)
  {
    BlankMedication(condition, SafetyText(d));
  }

  lemma BlankAllergy(w: string, text: string)
    requires PlainWord(w) && !IsSubstring(w, text)
    ensures Ranking.Filter(AllergyNames(w + ","), ContainedIn(text)) == [""]
    ensures Ranking.Filter(AllergyNames(w + ","), ReportedIn(text)) == []
  {
    TrailingComma(w);
    assert AllergyNames(w + ",") == [w] + [""];
    assert OccursAt("", text, 0);
    Ranking.FilterCons(w, [""], ContainedIn(text));
    Ranking.FilterCons("", [], ContainedIn(text));
    Ranking.FilterCons(w, [""], ReportedIn(text));
    Ranking.FilterCons("", [], ReportedIn(text));
    assert [""] == [""] + [];
  }

  lemma BlankMedication(w: string, text: string)
    requires PlainWord(w) && !IsSubstring(w, text)
    ensures ClashAsWritten(w + ",", text)
    ensures !Clash(w + ",", text)
  {
    TrailingComma(w);
    StripNoop(w);
    var meds := Entries(w + ",");
    assert OccursAt("", text, 0);
    assert IsSubstring(meds[1], text);
    assert meds[1..] == [""] && [""][1..] == [];
    assert Blank("");
    assert !AnyEntryIn([""], text);
  }

  // ---------------------------------------------------------------- re-ranking

  function ContextOf(context: Drug -> Option<(int, seq<string>)>, d: Drug): (int, seq<string>) {
    match context(d)
    case Some(r) => r
    case None => (0, [])
  }

  /** The base score of 10, plus the context analysis, plus the keyword analysis. */
  function ScoreDrug(d: Drug, p: PatientInfo, context: Drug -> Option<(int, seq<string>)>): ScoredDrug {
    var analysis := ContextOf(context, d);
    ScoredDrug(d, 10 + analysis.0 + KeywordScore(d, p), analysis.1 + KeywordWarnings(d, p))
  }

  function Scorer(p: PatientInfo, context: Drug -> Option<(int, seq<string>)>): (f: Drug -> ScoredDrug)
    ensures forall d :: f(d) == ScoreDrug(d, p, context)
  {
    (d: Drug) => ScoreDrug(d, p, context)
  }

  predicate IsSafe(c: ScoredDrug) { c.warnings == [] }
  predicate HasWarnings(c: ScoredDrug) { c.warnings != [] }
  function ScoreKey(c: ScoredDrug): real { c.score as real }
  function DrugOf(c: ScoredDrug): Drug { c.drug }

  /** `sort(key=score, reverse=True)`: a stable sort, highest score first. */
  function ByScore(): (le: (ScoredDrug, ScoredDrug) -> bool)
    ensures forall a, b :: le(a, b) <==> a.score >= b.score
    ensures Ranking.IsTotalPreorder(le)
  {
    Ranking.DescendingIsTotalPreorder(ScoreKey);
    Ranking.Descending(ScoreKey)
  }

  /** The scored candidates sorted by score, the safe ones first. */
  function RankScored(scored: seq<ScoredDrug>): seq<ScoredDrug> {
    var sorted := Ranking.SortBy(scored, ByScore());
    Ranking.Filter(sorted, IsSafe) + Ranking.Filter(sorted, HasWarnings)
  }

  /** `filter_and_rank_drugs`: without a profile the candidates come back untouched. */
  function FilterAndRank(candidates: seq<Drug>, info: Option<PatientInfo>,
                         context: Drug -> Option<(int, seq<string>)>): seq<Drug>
  {
    match info
    case None => candidates
    case Some(p) => Ranking.Map(RankScored(Ranking.Map(candidates, Scorer(p, context))), DrugOf)
  }

  /** Re-ranking neither drops nor adds a candidate. */
  lemma RankScoredPermutation(scored: seq<ScoredDrug>)
    ensures multiset(RankScored(scored)) == multiset(scored)
  {
    var sorted := Ranking.SortBy(scored, ByScore());
    Ranking.FilterPartition(sorted, IsSafe, HasWarnings);
  }

  /**
   * Every drug with warnings comes after every drug without, and within each of the two
   * groups the scores never increase.
   */
  lemma RankScoredOrder(scored: seq<ScoredDrug>)
    ensures var r := RankScored(scored);
      && (forall i, j :: 0 <= i < j < |r| && HasWarnings(r[i]) ==> HasWarnings(r[j]))
      && (forall i, j :: 0 <= i < j < |r| && IsSafe(r[i]) == IsSafe(r[j]) ==> r[i].score >= r[j].score)
  {
    var le := ByScore();
    var sorted := Ranking.SortBy(scored, le);
    var safe, warned := Ranking.Filter(sorted, IsSafe), Ranking.Filter(sorted, HasWarnings);
    Ranking.SortBySorted(scored, le);
    Ranking.FilterSorted(sorted, IsSafe, le);
    Ranking.FilterSorted(sorted, HasWarnings, le);
    var r := safe + warned;
    forall i, j | 0 <= i < j < |r| && IsSafe(r[i]) == IsSafe(r[j])
      ensures r[i].score >= r[j].score
    {
      if j < |safe| {
        assert le(safe[i], safe[j]);
      } else if |safe| <= i {
        assert le(warned[i - |safe|], warned[j - |safe|]);
      }
    }
  }

  /** The candidates that tie with `c`: the same score and the same safety. */
  function TiesWith(c: ScoredDrug): (p: ScoredDrug -> bool)
    ensures forall x :: p(x) <==> x.score == c.score && IsSafe(x) == IsSafe(c)
  {
    (x: ScoredDrug) => x.score == c.score && IsSafe(x) == IsSafe(c)
  }

  /** Candidates that tie keep the order the vector search gave them. */
  lemma RankScoredKeepsTies(scored: seq<ScoredDrug>, c: ScoredDrug)
    ensures Ranking.Filter(RankScored(scored), TiesWith(c)) == Ranking.Filter(scored, TiesWith(c))
  {
    var sorted := Ranking.SortBy(scored, ByScore());
    GroupsKeepTies(sorted, c);
    SortKeepsTies(scored, c);
  }

  /** Splitting into the safe and the warned group keeps the ties of either group in order. */
  lemma GroupsKeepTies(sorted: seq<ScoredDrug>, c: ScoredDrug)
    ensures var q := TiesWith(c);
      Ranking.Filter(Ranking.Filter(sorted, IsSafe) + Ranking.Filter(sorted, HasWarnings), q)
      == Ranking.Filter(sorted, q)
  {
    var q := TiesWith(c);
    Ranking.FilterAppend(Ranking.Filter(sorted, IsSafe), Ranking.Filter(sorted, HasWarnings), q);
    if IsSafe(c) {
      Ranking.FilterImplied(sorted, IsSafe, q);
      Ranking.FilterDisjoint(sorted, HasWarnings, q);
    } else {
      Ranking.FilterImplied(sorted, HasWarnings, q);
      Ranking.FilterDisjoint(sorted, IsSafe, q);
    }
  }

  /** The stable sort keeps candidates with equal scores, and so ties, in input order. */
  lemma SortKeepsTies(scored: seq<ScoredDrug>, c: ScoredDrug)
    ensures Ranking.Filter(Ranking.SortBy(scored, ByScore()), TiesWith(c)) == Ranking.Filter(scored, TiesWith(c))
  {
    var le := ByScore();
    var eq := Ranking.EquivTo(c, le);
    Ranking.SortByStable(scored, le, c);
    Ranking.FilterImplied(Ranking.SortBy(scored, le), eq, TiesWith(c));
    Ranking.FilterImplied(scored, eq, TiesWith(c));
  }

  /**
   * The first drug has the highest score among the drugs without warnings, and it has no
   * warning itself whenever some candidate has none; if every candidate has a warning, it
   * has the highest score overall.
   */
  lemma RankScoredFirst(scored: seq<ScoredDrug>)
    requires scored != []
    ensures var r := RankScored(scored);
      && r != [] && r[0] in scored
      && (forall x :: x in scored && IsSafe(x) ==> IsSafe(r[0]) && r[0].score >= x.score)
      && (forall x :: x in scored && HasWarnings(r[0]) ==> r[0].score >= x.score)
  {
    RankScoredPermutation(scored);
    RankScoredOrder(scored);
    FirstOfOrdered(RankScored(scored), scored);
  }

  /** The head of any arrangement of `scored` ordered as `RankScored` orders it. */
  lemma FirstOfOrdered(r: seq<ScoredDrug>, scored: seq<ScoredDrug>)
    requires scored != [] && multiset(r) == multiset(scored)
    requires forall i, j :: 0 <= i < j < |r| && HasWarnings(r[i]) ==> HasWarnings(r[j])
    requires forall i, j :: 0 <= i < j < |r| && IsSafe(r[i]) == IsSafe(r[j]) ==> r[i].score >= r[j].score
    ensures r != [] && r[0] in scored
    ensures forall x :: x in scored && IsSafe(x) ==> IsSafe(r[0]) && r[0].score >= x.score
    ensures forall x :: x in scored && HasWarnings(r[0]) ==> r[0].score >= x.score
  {
    assert scored[0] in multiset(r);
    assert r[0] in multiset(r);
    forall x | x in scored
      ensures IsSafe(x) ==> IsSafe(r[0]) && r[0].score >= x.score
      ensures HasWarnings(r[0]) ==> r[0].score >= x.score
    {
      assert x in multiset(r);
      var j :| 0 <= j < |r| && r[j] == x;
      if 0 < j {
        assert HasWarnings(r[0]) ==> HasWarnings(r[j]);
      }
    }
  }

  /** Re-ranking returns a permutation of the candidates, and an empty list only for no candidates. */
  lemma FilterAndRankPermutation(candidates: seq<Drug>, info: Option<PatientInfo>,
                                 context: Drug -> Option<(int, seq<string>)>)
    ensures multiset(FilterAndRank(candidates, info, context)) == multiset(candidates)
    ensures FilterAndRank(candidates, info, context) == [] <==> candidates == []
  {
    if info.Some? {
      var scored := Ranking.Map(candidates, Scorer(info.value, context));
      RankScoredPermutation(scored);
      Ranking.MapPermutation(RankScored(scored), scored, DrugOf);
      ScoredDrugs(candidates, info.value, context);
    }
    if candidates != [] {
      assert candidates[0] in multiset(candidates);
    }
  }

  /** Scoring keeps each candidate with its score. */
  lemma ScoredDrugs(candidates: seq<Drug>, p: PatientInfo, context: Drug -> Option<(int, seq<string>)>)
    ensures Ranking.Map(Ranking.Map(candidates, Scorer(p, context)), DrugOf) == candidates
  {
  }

  /**
   * `filter_and_rank_drugs`: scores each candidate (10, plus the context analysis, plus
   * the keyword analysis), sorts by score and puts the drugs with warnings last.
   */
  method FilterAndRankDrugs(candidates: seq<Drug>, info: Option<PatientInfo>,
                            context: Drug -> Option<(int, seq<string>)>) returns (ranked: seq<Drug>)
    ensures ranked == FilterAndRank(candidates, info, context)
  {
    if info.None? {
      return candidates;
    }
    var scored := ScoreCandidates(candidates, info.value, context);
    var sorted := Ranking.SortBy(scored, ByScore());
    var safe := Ranking.Filter(sorted, IsSafe);
    var warned := Ranking.Filter(sorted, HasWarnings);
    ranked := Ranking.Map(safe + warned, DrugOf);
  }

  /** The scoring loop of `filter_and_rank_drugs`: one scored entry per candidate, in order. */
  method ScoreCandidates(candidates: seq<Drug>, p: PatientInfo, context: Drug -> Option<(int, seq<string>)>)
    returns (scored: seq<ScoredDrug>)
    ensures scored == Ranking.Map(candidates, Scorer(p, context))
  {
    scored := [];
    ghost var f := Scorer(p, context);
    for i := 0 to |candidates|
      invariant scored == Ranking.Map(candidates[..i], f)
    {
      var c := ScoreOne(candidates[i], p, context);
      Ranking.MapPrefixStep(candidates, i, f, c);
      scored := scored + [c];
    }
    assert candidates[..|candidates|] == candidates;
  }

  /** The loop body: 10, plus the context analysis, plus the keyword analysis. */
  method ScoreOne(d: Drug, p: PatientInfo, context: Drug -> Option<(int, seq<string>)>) returns (c: ScoredDrug)
    ensures c == Scorer(p, context)(d)
  {
    var analysis := ContextOf(context, d);
    var keywordScore, keywordWarnings := AnalyzeDrugKeywords(d, p);
    c := ScoredDrug(d, 10 + analysis.0 + keywordScore, analysis.1 + keywordWarnings);
  }

  // ---------------------------------------------------------------- the response

  /** `create_error_response` */
  function ErrorResponse(message: string, language: string, translate: (string, string) -> string): (r: Response)
    ensures r.error
    ensures r.drugName == r.drugPurpose == r.drugImageUrl == ""
    ensures r.question1 == r.question2 == r.question3 == ""
    ensures IsKorean(language) ==> r.warningMessage == message
  {
    var m := if IsKorean(language) then message else translate(message, language);
    Response("", "", "", "", "", "", m, true)
  }

  /** `generate_warning_message`: the disclaimer, translated unless the language is Korean. */
  function WarningMessage(language: string, translate: (string, string) -> string): (m: string)
    ensures IsKorean(language) ==> m == Disclaimer
  {
    if IsKorean(language) then Disclaimer else translate(Disclaimer, language)
  }

  /** `convert_symptom_to_korean` */
  function ToKorean(symptom: string, language: string, services: Services): (k: string)
    ensures IsKorean(language) ==> k == symptom
  {
    if IsKorean(language) then symptom else services.toKorean(symptom, language)
  }

  /** "label: value" in Korean; otherwise the Korean translation with the original in parentheses. */
  function Labelled(heading: string, value: string, language: string, translate: (string, string) -> string): string {
    if IsKorean(language) then heading + value
    else heading + translate(value, "ko") + "(" + value + ")"
  }

  function HeightWeight(p: PatientInfo, language: string): string {
    if IsKorean(language) then "키 " + NatToString(p.height) + "cm, 몸무게 " + NatToString(p.weight) + "kg"
    else "height " + NatToString(p.height) + "cm, weight " + NatToString(p.weight) + "kg"
  }

  /** The parts of the patient summary, in their fixed order; each present field gives one. */
  function SummaryParts(p: PatientInfo, language: string, translate: (string, string) -> string): (parts: seq<string>)
    ensures forall i :: 0 <= i < |parts| ==> parts[i] != ""
  {
    (if p.height != 0 && p.weight != 0 then [HeightWeight(p, language)] else [])
    + (if p.allergies != "" then [Labelled("알레르기: ", p.allergies, language, translate)] else [])
    + (if p.medications != "" then [Labelled("현재 복용 중인 약: ", p.medications, language, translate)] else [])
    + (if p.history != "" then [Labelled("과거 병력: ", p.history, language, translate)] else [])
  }

  function PatientSummary(info: Option<PatientInfo>, language: string, translate: (string, string) -> string): string {
    match info
    case None => ""
    case Some(p) => Join(SummaryParts(p, language, translate), ", ")
  }

  /** The summary is empty exactly when there is no profile or no part of it is filled in. */
  lemma PatientSummaryEmpty(info: Option<PatientInfo>, language: string, translate: (string, string) -> string)
    ensures PatientSummary(info, language, translate) == "" <==>
      info.None? ||
      ((info.value.height == 0 || info.value.weight == 0) && info.value.allergies == ""
       && info.value.medications == "" && info.value.history == "")
  {
    if info.Some? {
      JoinEmpty(SummaryParts(info.value, language, translate), ", ");
    }
  }

  /** `generate_patient_summary`: appends the present parts one by one and joins them. */
  method GeneratePatientSummary(info: Option<PatientInfo>, language: string,
                                translate: (string, string) -> string) returns (summary: string)
    ensures summary == PatientSummary(info, language, translate)
  {
    if info.None? {
      return "";
    }
    var p := info.value;
    var parts: seq<string> := [];
    if p.height != 0 && p.weight != 0 {
      parts := parts + [HeightWeight(p, language)];
    }
    if p.allergies != "" {
      parts := parts + [Labelled("알레르기: ", p.allergies, language, translate)];
    }
    if p.medications != "" {
      parts := parts + [Labelled("현재 복용 중인 약: ", p.medications, language, translate)];
    }
    if p.history != "" {
      parts := parts + [Labelled("과거 병력: ", p.history, language, translate)];
    }
    assert parts == SummaryParts(p, language, translate);
    summary := Join(parts, ", ");
  }

  /** The sentence asking for a medicine good for the quoted Korean symptom, between an opening and a closing line. */
  function AskSentence(head: string, korean: string, tail: string): string {
    head + Quote + korean + AskMiddle + Quote + "\n" + tail
  }

  /** A Korean sentence, followed outside Korean by its translation in parentheses. */
  function WithTranslation(s: string, language: string, t: (string, string) -> string): string {
    if IsKorean(language) then s else s + "(" + t(s, language) + ")"
  }

  /** `generate_pharmacist_questions`: what to say, what to ask, and the patient summary. */
  function PharmacistQuestions(symptom: string, language: string, info: Option<PatientInfo>,
                               services: Services): (string, string, string)
  {
    var korean := ToKorean(symptom, language, services);
    var t := services.translate;
    var q1 :=
      if IsKorean(language) then AskSentence(AskPrefix, korean, AskSuffix)
      else AskSentence(t(AskPrefix, language), korean, t(AskSuffix, language));
    var q2 := WithTranslation(Quote + symptom + CanITake + Quote, language, t);
    var summary := PatientSummary(info, language, t);
    var q3 := if summary == "" then "" else WithTranslation(Quote + summary + Quote, language, t);
    (q1, q2, q3)
  }

  /**
   * The first sentence quotes the symptom in Korean and the second quotes it as the user
   * wrote it, in every language; the third is empty exactly when the summary is, and
   * otherwise quotes it.
   */
  lemma PharmacistQuestionsQuote(symptom: string, language: string, info: Option<PatientInfo>, services: Services)
    ensures var (q1, q2, q3) := PharmacistQuestions(symptom, language, info, services);
      var summary := PatientSummary(info, language, services.translate);
      && IsSubstring(ToKorean(symptom, language, services), q1)
      && IsSubstring(symptom, q2)
      && (q3 == "" <==> summary == "")
      && (summary != "" ==> IsSubstring(summary, q3))
  {
    var korean := ToKorean(symptom, language, services);
    var t := services.translate;
    var summary := PatientSummary(info, language, t);
    if IsKorean(language) {
      AskQuotes(AskPrefix, korean, AskSuffix);
    } else {
      AskQuotes(t(AskPrefix, language), korean, t(AskSuffix, language));
    }
    QuotedIn(Quote, symptom, CanITake, Quote, language, t);
    if summary != "" {
      QuotedIn(Quote, summary, "", Quote, language, t);
      assert Quote + summary + "" == Quote + summary;
    }
  }

  lemma AskQuotes(head: string, korean: string, tail: string)
    ensures IsSubstring(korean, AskSentence(head, korean, tail))
  {
    EndsIn(head + Quote, korean);
    Extend(korean, head + Quote + korean, AskMiddle);
    Extend(korean, head + Quote + korean + AskMiddle, Quote);
    Extend(korean, head + Quote + korean + AskMiddle + Quote, "\n");
    Extend(korean, head + Quote + korean + AskMiddle + Quote + "\n", tail);
  }

  /** A quoted part stays in the sentence, translated or not, which is never empty. */
  lemma QuotedIn(open: string, x: string, middle: string, close: string, language: string, t: (string, string) -> string)
    requires close != ""
    ensures var r := WithTranslation(open + x + middle + close, language, t);
      IsSubstring(x, r) && r != ""
  {
    var s := open + x + middle + close;
    EndsIn(open, x);
    Extend(x, open + x, middle);
    Extend(x, open + x + middle, close);
    if !IsKorean(language) {
      Extend(x, s, "(");
      Extend(x, s + "(", t(s, language));
      Extend(x, s + "(" + t(s, language), ")");
    }
  }

  /** A string occurs at the end of anything it ends. */
  lemma EndsIn(before: string, x: string)
    ensures IsSubstring(x, before + x)
  {
    var whole := before + x;
    assert whole[|before|..|before| + |x|] == x;
    assert OccursAt(x, whole, |before|);
  }

  /** A string that occurs in `s` occurs in anything `s` begins. */
  lemma Extend(x: string, s: string, y: string)
    requires IsSubstring(x, s)
    ensures IsSubstring(x, s + y)
  {
    var i :| 0 <= i <= |s| - |x| && OccursAt(x, s, i);
    assert (s + y)[i..i + |x|] == s[i..i + |x|];
    assert OccursAt(x, s + y, i);
  }

  /** `translate_drug_name`: the original name with its romanization in parentheses. */
  function TranslateDrugName(name: string, language: string, romanize: string -> Option<string>): (r: string)
    ensures IsKorean(language) ==> r == name
    ensures !IsKorean(language) ==> StartsWith(r, name) && |r| > |name|
  {
    if IsKorean(language) then name
    else name + "(" + romanize(name).GetOr(name) + ")"
  }

  /** `translate_drug_info` on one drug: the name, the purpose and the precautions. */
  function TranslateDrug(d: Drug, language: string, services: Services): (t: Drug)
    ensures t.itemNameEn == d.itemNameEn && t.itemImage == d.itemImage
    ensures d.efcy == "" ==> t.efcy == ""
  {
    d.(itemName := if d.itemName != "" then TranslateDrugName(d.itemName, language, services.romanize) else d.itemName,
       efcy := if d.efcy != "" then services.translate(d.efcy, language) else d.efcy,
       atpn := if d.atpn != "" then services.translate(d.atpn, language) else d.atpn)
  }

  /** `[meta[i] for i in I[0]]` with Python indexing: a negative index counts from the end. */
  function Candidates(ids: seq<int>, meta: seq<Drug>): (r: Result<seq<Drug>>)
    ensures r.Success? <==> forall k :: 0 <= k < |ids| ==> -|meta| <= ids[k] < |meta|
    ensures r.Success? ==>
      && |r.value| == |ids|
      && (forall k :: 0 <= k < |ids| ==> r.value[k] == meta[if ids[k] < 0 then |meta| + ids[k] else ids[k]])
  {
    if forall k :: 0 <= k < |ids| ==> -|meta| <= ids[k] < |meta| then
      Success(seq(|ids|, k requires 0 <= k < |ids| =>
        meta[if ids[k] < 0 then |meta| + ids[k] else ids[k]]))
    else Failure("IndexError: list index out of range")
  }

  /**
   * `recommend_drug`, after the search: `ids` are the row numbers the vector search
   * returned for the (Korean) symptom.
   */
  function RecommendDrug(symptom: string, ids: seq<int>, meta: seq<Drug>, language: string,
                         info: Option<PatientInfo>, services: Services): Result<Response>
  {
    match Candidates(ids, meta)
    case Failure(e) => Failure(e)
    case Success(candidates) =>
      var ranked := FilterAndRank(candidates, info, services.context);
      if ranked == [] then Success(ErrorResponse(NoDrugMessage, language, services.translate))
      else
        var best := ranked[0];
        var (q1, q2, q3) := PharmacistQuestions(symptom, language, info, services);
        var warning := WarningMessage(language, services.translate);
        var t := services.translate;
        if IsKorean(language) then
          Success(Response(best.itemName + "(" + best.itemNameEn + ")", best.efcy, best.itemImage,
                           q1, q2, q3, warning, false))
        else
          var shown := TranslateDrug(best, language, services);
          Success(Response(shown.itemName + "(" + shown.itemNameEn + ")", shown.efcy, shown.itemImage,
                           t(q1, language), t(q2, language), t(q3, language), t(warning, language), false))
  }

  /**
   * An out-of-range row number fails with an IndexError; otherwise the response is the
   * error response exactly when the search found nothing, and then it carries the
   * "no suitable drug" message.
   */
  lemma RecommendDrugOutcome(symptom: string, ids: seq<int>, meta: seq<Drug>, language: string,
                             info: Option<PatientInfo>, services: Services)
    ensures var r := RecommendDrug(symptom, ids, meta, language, info, services);
      && (r.Failure? <==> exists k :: 0 <= k < |ids| && !(-|meta| <= ids[k] < |meta|))
      && (r.Success? ==> (r.value.error <==> ids == []))
      && (r.Success? && ids == [] && IsKorean(language) ==> r.value.warningMessage == NoDrugMessage)
  {
    var c := Candidates(ids, meta);
    if c.Success? {
      FilterAndRankPermutation(c.value, info, services.context);
    }
  }

  /**
   * With a profile, the first drug after re-ranking is a candidate; when some candidate
   * draws no warning, the first drug draws none and has the highest score of all such
   * candidates.
   */
  lemma FilterAndRankFirst(candidates: seq<Drug>, p: PatientInfo, context: Drug -> Option<(int, seq<string>)>)
    requires candidates != []
    ensures var ranked := FilterAndRank(candidates, Some(p), context);
      && ranked != [] && ranked[0] in candidates
      && forall d :: d in candidates && IsSafe(ScoreDrug(d, p, context)) ==>
           && IsSafe(ScoreDrug(ranked[0], p, context))
           && ScoreDrug(ranked[0], p, context).score >= ScoreDrug(d, p, context).score
  {
    FilterAndRankPermutation(candidates, Some(p), context);
    var ranked := FilterAndRank(candidates, Some(p), context);
    assert ranked[0] in multiset(candidates);
    var scored := Ranking.Map(candidates, Scorer(p, context));
    RankScoredFirst(scored);
    var first := RankScored(scored)[0];
    assert ranked[0] == first.drug;
    var j :| 0 <= j < |scored| && scored[j] == first;
    assert first == ScoreDrug(first.drug, p, context);
    forall d | d in candidates && IsSafe(ScoreDrug(d, p, context))
      ensures IsSafe(first) && first.score >= ScoreDrug(d, p, context).score
    {
      var k :| 0 <= k < |candidates| && candidates[k] == d;
      assert scored[k] in scored;
    }
  }

  /**
   * In Korean, the response names the first drug re-ranking gives, as "name(English
   * name)", with its purpose and the disclaimer, and is not an error.
   */
  lemma RecommendDrugBest(symptom: string, ids: seq<int>, meta: seq<Drug>, language: string,
                          info: Option<PatientInfo>, services: Services)
    requires IsKorean(language)
    requires Candidates(ids, meta).Success? && ids != []
    ensures var ranked := FilterAndRank(Candidates(ids, meta).value, info, services.context);
      var r := RecommendDrug(symptom, ids, meta, language, info, services);
      && ranked != [] && r.Success? && !r.value.error
      && r.value.drugName == ranked[0].itemName + "(" + ranked[0].itemNameEn + ")"
      && r.value.drugPurpose == ranked[0].efcy
      && r.value.warningMessage == Disclaimer
  {
    FilterAndRankPermutation(Candidates(ids, meta).value, info, services.context);
  }
}
