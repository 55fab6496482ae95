/**
 * The department translation table of gpt_utils/department_mapping.py and the lookup that
 * answers with the Korean name plus the name in the user's language.
 *
 * The table is kept as its list of entries, in the order the dictionary literal lists them;
 * a dictionary lookup is the first entry with that key (the keys are distinct).
 */
module DepartmentMapping {
  import opened Wrappers

  /** One entry of `DEPARTMENT_TRANSLATIONS`: its key and the department's name in each language. */
  datatype Translation = Translation(key: string, ko: string, en: string, vi: string, zhCn: string, zhTw: string)

  /** The language codes every entry carries. */
  const Languages: set<string> := {"KO", "EN", "VI", "ZH_CN", "ZH_TW"}

  /** An entry's inner dictionary, from language code to name. */
  function Names(t: Translation): (names: map<string, string>)
    ensures names.Keys == Languages
    ensures names["KO"] == t.ko && names["EN"] == t.en && names["VI"] == t.vi
    ensures names["ZH_CN"] == t.zhCn && names["ZH_TW"] == t.zhTw
  {
    map["KO" := t.ko, "EN" := t.en, "VI" := t.vi, "ZH_CN" := t.zhCn, "ZH_TW" := t.zhTw]
  }

  /** `DEPARTMENT_TRANSLATIONS` */
  const DepartmentTranslations: seq<Translation> := [
      Translation("가정의학과", "가정의학과", "Family Medicine", "y học gia đình", "家庭医学科", "家庭醫學"),
      Translation("내과", "내과", "Internal Medicine", "khoa nội, bệnh viện nội khoa", "内科", "內科"),
      Translation("마취통증의학과", "마취통증의학과", "Anaesthesiology", "khoa chứng đau gây mê", "麻醉疼痛医学科", "麻醉痛医学科"),
      Translation("비뇨의학과", "비뇨의학과", "Urology", "khoa tiết niệu", "泌尿医学系", "泌尿学系"),
      Translation("산부인과", "산부인과", "Obstetrics and Gynecology", "khoa phụ sản, bệnh viện phụ sản", "妇产科", "婦產科"),
      Translation("성형외과", "성형외과", "Plastic & Reconstructive Surgery", "Phẫu thuật tạo hình và tái tạo", "整形及重建外科", "整形及重建外科"),
      Translation("소아청소년과", "소아청소년과", "Pediatrics", "khoa nhi", "儿童青少年科", "小儿青少年科"),
      Translation("신경과", "신경과", "Neurology", "Thần kinh học", "神经科", "神经科"),
      Translation("신경외과", "신경외과", "Neurological Surgery", "khoa ngoại thần kinh, bệnh viện ngoại khoa", "神经外科", "神经外科"),
      Translation("심장혈관흉부외과", "심장혈관흉부외과", "Thoracic Surgery", "khoa ngoại khoa tim mạch", "心血管胸外科", "心血管胸外科"),
      Translation("안과", "안과", "Ophthalmology", "nhãn khoa, bệnh viện mắt", "眼科", "眼科"),
      Translation("영상의학과", "영상의학과", "Imaging Radiology", "ngành X-quang", "影像医学科", "影像放射學"),
      Translation("예방의학과", "예방의학과", "Preventive Medicine", "Y học dự phòng", "预防医学科", "預防醫學"),
      Translation("외과", "외과", "General Surgery", "khoa ngoại, bệnh viện ngoại khoa", "外科", "一般外科"),
      Translation("이비인후과", "이비인후과", "Otolaryngology", "khoa tai mũi họng, bệnh viện tai mũi họng", "耳鼻喉科", "耳鼻喉科"),
      Translation("재활의학과", "재활의학과", "Rehabilitation Medicine", "thuốc phục hồi chức năng", "康复医学系", "康复医法系"),
      Translation("정신건강의학과", "정신건강의학과", "Psychiatry", "Tâm thần học", "心理健康医学系", "精神健康医学系"),
      Translation("정형외과", "정형외과", "Orthopedic Surgery", "khoa ngoại chỉnh hình, bệnh viện chấn thương chỉnh hình", "骨科手术", "骨科手術"),
      Translation("치의과", "치의과", "Dentistry", "nha khoa, bệnh viện nha khoa", "牙科", "牙科"),
      Translation("피부과", "피부과", "Dermatology", "khoa da liễu, bệnh viện da liễu", "皮肤科", "皮膚科"),
      Translation("한방과", "한방과", "Oriental Medicine", "đông y", "东方医学", "東方醫學")
    ]

  /** The 21 departments the symptom prompt lets the model choose from (gpt_utils/prompting_gpt.py). */
  const OfferedDepartments: seq<string> := [
      "가정의학과",
      "내과",
      "마취통증의학과",
      "비뇨의학과",
      "산부인과",
      "성형외과",
      "소아청소년과",
      "신경과",
      "신경외과",
      "심장혈관흉부외과",
      "안과",
      "영상의학과",
      "예방의학과",
      "외과",
      "이비인후과",
      "재활의학과",
      "정신건강의학과",
      "정형외과",
      "치의과",
      "피부과",
      "한방과"
    ]

  /**
   * The table lists exactly the departments the prompt offers, in the same order, and each
   * entry's Korean name is its own key.
   */
  lemma TableCoversOfferedDepartments()
    ensures |DepartmentTranslations| == |OfferedDepartments| == 21
    ensures forall i :: 0 <= i < |DepartmentTranslations| ==>
      DepartmentTranslations[i].key == OfferedDepartments[i] && DepartmentTranslations[i].ko == DepartmentTranslations[i].key
  {
  }

  /** `DEPARTMENT_TRANSLATIONS.get(dept)`: the first entry with that key. */
  function Lookup(table: seq<Translation>, dept: string): (r: Option<Translation>)
    ensures r.None? <==> forall i :: 0 <= i < |table| ==> table[i].key != dept
    ensures r.Some? ==> r.value in table && r.value.key == dept
  {
    if table == [] then None
    else if table[0].key == dept then Some(table[0])
    else Lookup(table[1..], dept)
  }

  /**
   * `get_department_translation` over a given table. A found entry is never an empty
   * dictionary, so `not translations` holds exactly when the department is missing.
   */
  function Translate(table: seq<Translation>, deptKo: string, language: string): map<string, string> {
    var found := Lookup(table, deptKo);
    if found.None? then map["KO" := deptKo]
    else
      var translations := Names(found.value);
      if language == "KO" then map["KO" := translations["KO"]]
      else map["KO" := translations["KO"], language := if language in translations then translations[language] else ""]
  }

  /** `get_department_translation` */
  function GetDepartmentTranslation(deptKo: string, language: string): map<string, string> {
    Translate(DepartmentTranslations, deptKo, language)
  }

  /** Every entry's Korean name is its own key. */
  predicate KeyedByKorean(table: seq<Translation>) {
    forall i :: 0 <= i < |table| ==> table[i].ko == table[i].key
  }

  /** The lookup answers for any table keyed by the Korean name. */
  lemma TranslateKeys(table: seq<Translation>, deptKo: string, language: string)
    requires KeyedByKorean(table)
    ensures var r := Translate(table, deptKo, language);
      "KO" in r && r["KO"] == deptKo
    ensures Lookup(table, deptKo).None? ==> Translate(table, deptKo, language) == map["KO" := deptKo]
    ensures language == "KO" ==> Translate(table, deptKo, language).Keys == {"KO"}
    ensures language != "KO" && Lookup(table, deptKo).Some? ==>
      var r := Translate(table, deptKo, language);
      && r.Keys == {"KO", language}
      && r[language] == (if language in Languages then Names(Lookup(table, deptKo).value)[language] else "")
  {
  }

  /** The table has an entry for a department iff the prompt offers it. */
  lemma KnownIffOffered(deptKo: string)
    ensures Lookup(DepartmentTranslations, deptKo).Some? <==>
      exists i :: 0 <= i < |OfferedDepartments| && OfferedDepartments[i] == deptKo
  {
    TableCoversOfferedDepartments();
  }

  /**
   * An unknown department comes back alone under `KO`; `KO` asks for the Korean name only;
   * any other language gives exactly `KO` and that language, `""` for a language the table
   * lacks. In every case `KO` holds the department asked about.
   */
  lemma TranslationKeys(deptKo: string, language: string)
    ensures var r := GetDepartmentTranslation(deptKo, language);
      "KO" in r && r["KO"] == deptKo
    ensures Lookup(DepartmentTranslations, deptKo).None? ==> GetDepartmentTranslation(deptKo, language) == map["KO" := deptKo]
    ensures language == "KO" ==> GetDepartmentTranslation(deptKo, language).Keys == {"KO"}
    ensures language != "KO" && Lookup(DepartmentTranslations, deptKo).Some? ==>
      var r := GetDepartmentTranslation(deptKo, language);
      && r.Keys == {"KO", language}
      && r[language] == (if language in Languages then Names(Lookup(DepartmentTranslations, deptKo).value)[language] else "")
  {
    TableCoversOfferedDepartments();
    TranslateKeys(DepartmentTranslations, deptKo, language);
  }
}
