/**
 * JobConditionGuide: turns one free-text job query into a condition record
 * (job title, salary, regions, industries, experience level, work type,
 * company types) and lists the important fields that are still missing.
 */
module ConditionGuide {
  import opened Wrappers
  import opened Text
  import opened Patterns

  /** A keyword table: category name and its synonyms, in the table's own order. */
  type Table = seq<(string, seq<string>)>

  const LocationTable: Table := [
    ("台北", ["台北", "信義", "大安", "中山", "松山", "內湖", "南港", "士林", "北投"]),
    ("新北", ["新北", "板橋", "新莊", "中和", "永和", "土城", "三重", "蘆洲", "汐止"]),
    ("桃園", ["桃園", "中壢", "平鎮", "八德", "楊梅", "龜山"]),
    ("新竹", ["新竹", "竹北", "湖口", "關埔", "科學園區"]),
    ("台中", ["台中", "西屯", "南屯", "北屯", "大里", "太平", "烏日"]),
    ("台南", ["台南", "永康", "仁德", "歸仁", "關廟"]),
    ("高雄", ["高雄", "鳳山", "三民", "左營", "楠梓", "岡山"]),
    ("遠端", ["遠端", "remote", "在家", "居家", "wfh", "彈性"])
  ]

  const IndustryTable: Table := [
    ("科技業", ["軟體", "科技", "IT", "資訊", "網路", "電商", "遊戲", "AI", "人工智慧"]),
    ("金融業", ["銀行", "金融", "保險", "證券", "投資", "理財", "fintech"]),
    ("製造業", ["製造", "工廠", "生產", "品管", "工程", "機械"]),
    ("服務業", ["服務", "餐飲", "零售", "旅遊", "物流", "客服"]),
    ("醫療業", ["醫療", "醫院", "診所", "護理", "藥局", "生技"]),
    ("教育業", ["教育", "學校", "補習", "培訓", "講師"]),
    ("媒體業", ["媒體", "廣告", "行銷", "公關", "新聞", "出版"]),
    ("新創", ["新創", "startup", "創業", "團隊"])
  ]

  const ExperienceTable: Table := [
    ("新鮮人", ["新鮮人", "應屆", "無經驗", "0年", "實習"]),
    ("1-3年", ["1年", "2年", "3年", "初級", "junior"]),
    ("3-5年", ["3年", "4年", "5年", "中級", "mid"]),
    ("5年以上", ["5年以上", "資深", "senior", "主管", "經理"])
  ]

  const CompanyTypeTable: Table := [
    ("外商", ["外商", "外資", "foreign", "international"]),
    ("新創", ["新創", "startup", "創業"]),
    ("上市", ["上市", "上櫃", "大公司", "知名企業"]),
    ("傳統產業", ["傳統", "老牌", "歷史悠久"])
  ]

  const RemoteWords: seq<string> := ["遠端", "remote", "在家", "居家", "wfh"]
  const OnsiteWords: seq<string> := ["現場", "辦公室", "office"]
  const HybridWords: seq<string> := ["混合", "hybrid", "彈性"]

  /**
   * Job-title phrases (already lower case) and the title each one stands for, in
   * table order, grouped as in the source.
   */
  const DirectJobMapping: seq<(string, string)> :=
    BusinessTitles + DesignTitles + EngineerTitles + DataTitles + OperationsTitles + FinanceTitles
    + HumanResourcesTitles + ProfessionalTitles + SupportTitles + SalesTitles + EntryTitles

  // 商務管理類 (business and management)
  const BusinessTitles: seq<(string, string)> := [
    ("產品經理", "產品經理"),
    ("專案經理", "專案經理"),
    ("產品manager", "產品經理"),
    ("pm", "產品經理"),
    ("product manager", "產品經理"),
    ("project manager", "專案經理")
  ]

  // 設計類 (design)
  const DesignTitles: seq<(string, string)> := [
    ("ui設計師", "UI設計師"),
    ("ux設計師", "UX設計師"),
    ("ui/ux", "UI/UX設計師"),
    ("視覺設計師", "視覺設計師"),
    ("平面設計師", "平面設計師"),
    ("網頁設計師", "網頁設計師")
  ]

  // 工程師類 (engineering)
  const EngineerTitles: seq<(string, string)> := [
    ("軟體工程師", "軟體工程師"),
    ("前端工程師", "前端工程師"),
    ("後端工程師", "後端工程師"),
    ("全端工程師", "全端工程師"),
    ("python工程師", "Python工程師"),
    ("java工程師", "Java工程師"),
    ("javascript工程師", "JavaScript工程師")
  ]

  // 數據類 (data)
  const DataTitles: seq<(string, string)> := [
    ("數據分析師", "數據分析師"),
    ("資料分析師", "數據分析師"),
    ("資料科學家", "資料科學家"),
    ("data analyst", "數據分析師"),
    ("data scientist", "資料科學家")
  ]

  // 營運類 (operations)
  const OperationsTitles: seq<(string, string)> := [
    ("營運專員", "營運專員"),
    ("行銷專員", "行銷專員"),
    ("業務代表", "業務代表"),
    ("客服專員", "客服專員")
  ]

  // 財務會計類 (finance and accounting)
  const FinanceTitles: seq<(string, string)> := [
    ("會計師", "會計師"),
    ("財務專員", "財務專員"),
    ("稽核", "稽核")
  ]

  // 人力資源類 (human resources)
  const HumanResourcesTitles: seq<(string, string)> := [
    ("人資專員", "人資專員"),
    ("人力資源", "人資專員"),
    ("hr", "人資專員")
  ]

  // 其他專業類 (other professions)
  const ProfessionalTitles: seq<(string, string)> := [
    ("法務", "法務專員"),
    ("律師", "律師"),
    ("護理師", "護理師"),
    ("醫師", "醫師"),
    ("老師", "老師"),
    ("講師", "講師"),
    ("翻譯", "翻譯"),
    ("編輯", "編輯"),
    ("記者", "記者")
  ]

  // 技術支援類 (technical support)
  const SupportTitles: seq<(string, string)> := [
    ("系統管理員", "系統管理員"),
    ("devops", "DevOps工程師"),
    ("測試工程師", "測試工程師"),
    ("品質保證", "QA工程師"),
    ("資安工程師", "資安工程師")
  ]

  // 銷售類 (sales)
  const SalesTitles: seq<(string, string)> := [
    ("銷售", "業務代表"),
    ("業務", "業務代表"),
    ("sales", "業務代表")
  ]

  // 實習/新鮮人 (interns and graduates)
  const EntryTitles: seq<(string, string)> := [
    ("實習生", "實習生"),
    ("新鮮人", "新鮮人職缺"),
    ("應屆畢業生", "新鮮人職缺")
  ]

  /** Words that describe conditions rather than a job, dropped when looking for a title. */
  const ConditionWords: seq<string> := [
    "薪資", "薪水", "月薪", "年薪", "地點", "台北", "新竹", "台中", "台南", "高雄", "桃園", "新北",
    "遠端", "年經驗", "經驗", "新鮮人", "萬", "以上", "以下", "左右", "大約", "希望", "想要",
    "找", "工作", "職缺", "的", "我", "想", "要", "有", "年", "以上", "外商", "新創"
  ]

  /** Words that mark a segment as a position, tried in this order. */
  const PositionKeywords: seq<string> := ["經理", "工程師", "設計師", "分析師", "專員", "主管", "總監", "助理", "實習"]

  /** The important fields, in the order they are reported missing. */
  const MissingFields: seq<string> := ["職位名稱", "期望薪資", "工作地點", "工作年限"]

  datatype SalaryKind = Monthly | Yearly | Hourly

  /** The salary part of a condition record; None is Python's None. */
  datatype Salary = Salary(min: Option<int>, max: Option<int>, kind: SalaryKind)

  /** The condition record built from one query. */
  datatype Conditions = Conditions(
    jobTitle: string,
    salary: Salary,
    location: seq<string>,
    industry: seq<string>,
    experience: string,
    workType: string,
    companyType: seq<string>,
    originalText: string,
    missingInfo: seq<string>)

  /** The record handed to the job search. */
  datatype SearchConditions = SearchConditions(
    keyword: string,
    location: string,
    salaryMin: Option<int>,
    salaryMax: Option<int>,
    experience: string,
    industry: seq<string>,
    workType: string,
    companyType: seq<string>)

  /** Python truthiness of an optional amount: None and 0 are both false. */
  predicate Truthy(v: Option<int>) {
    v.Some? && v.value != 0
  }

  // ---------------------------------------------------------------- salary

  /**
   * _normalize_salary: the amount in dollars. An explicit unit scales it; with no
   * unit a small number is read as 萬 (below 100) or 千 (below 1000). The value
   * is read exactly when it is a run of ASCII digits, which every `(\d+)` group
   * passed in is; None stands for the ValueError branch.
   */
  function NormalizeSalary(value: string, unit: string): (r: Option<int>)
    ensures r.Some? <==> IsDigits(value)
    ensures r.Some? && (unit == "k" || unit == "K" || unit == "千") ==> r.value == DigitsValue(value) * 1000
    ensures r.Some? && unit == "萬" ==> r.value == DigitsValue(value) * 10000
    ensures r.Some? && unit !in ["k", "K", "千", "萬"] ==>
      (DigitsValue(value) < 100 ==> r.value == DigitsValue(value) * 10000)
      && (100 <= DigitsValue(value) < 1000 ==> r.value == DigitsValue(value) * 1000)
      && (DigitsValue(value) >= 1000 ==> r.value == DigitsValue(value))
    ensures r.Some? ==> r.value == 0 || r.value >= 1000
  {
    if !IsDigits(value) then None
    else
      var v := DigitsValue(value);
      if unit == "k" || unit == "K" then Some(v * 1000)
      else if unit == "千" then Some(v * 1000)
      else if unit == "萬" then Some(v * 10000)
      else if v < 100 then Some(v * 10000)
      else if v < 1000 then Some(v * 1000)
      else Some(v)
  }

  /** The salary type: yearly when 年薪 or 年收 is in the text, else hourly on 時薪, else monthly. */
  function KindOf(text: string): (r: SalaryKind)
    ensures r == Yearly <==> Contains(text, "年薪") || Contains(text, "年收")
    ensures r == Hourly <==> !Contains(text, "年薪") && !Contains(text, "年收") && Contains(text, "時薪")
    ensures r == Monthly <==> !Contains(text, "年薪") && !Contains(text, "年收") && !Contains(text, "時薪")
  {
    if Contains(text, "年薪") || Contains(text, "年收") then Yearly
    else if Contains(text, "時薪") then Hourly
    else Monthly
  }

  const RangePatterns: seq<Pattern> := [GuideRange, GuideLabelledRange]
  const SinglePatterns: seq<Pattern> := [GuideAbove, GuideAtLeast, GuideFrom]

  /** The first pattern of the list that re.search finds in the text, and its match. */
  function FirstSearch(pats: seq<Pattern>, text: string): (r: Option<Match>)
    ensures r.Some? ==> exists k :: 0 <= k < |pats| && Search(pats[k], text, 0) == r
    ensures r.Some? ==> |r.value.groups| >= 2 && IsDigits(r.value.groups[0])
    ensures r.None? <==> forall k :: 0 <= k < |pats| ==> Search(pats[k], text, 0).None?
  {
    if pats == [] then None
    else
      var m := Search(pats[0], text, 0);
      if m.Some? then m
      else
        var rest := FirstSearch(pats[1..], text);
        assert forall k :: 1 <= k < |pats| ==> pats[1..][k - 1] == pats[k];
        rest
  }

  /**
   * _extract_salary: the first range pattern found sets min, max and the type;
   * the single-sided patterns are tried only while min is still falsy, and set min.
   */
  function SalaryOf(text: string): (r: Salary)
    ensures r.max.Some? <==> Search(GuideRange, text, 0).Some?
    ensures r.min.None? <==> Search(GuideRange, text, 0).None? && FirstSearch(SinglePatterns, text).None?
    ensures r.min.Some? ==> r.min.value == 0 || r.min.value >= 1000
    ensures r.max.Some? ==> r.max.value == 0 || r.max.value >= 1000
  {
    RangeSearchIsPlainRange(text);
    var ranged :=
      match FirstSearch(RangePatterns, text)
      case None => Salary(None, None, Monthly)
      case Some(m) =>
        if |m.groups| == 4 then
          Salary(NormalizeSalary(m.groups[0], m.groups[1]), NormalizeSalary(m.groups[2], m.groups[3]), KindOf(text))
        else Salary(None, None, Monthly);
    if Truthy(ranged.min) then ranged
    else
      match FirstSearch(SinglePatterns, text)
      case None => ranged
      case Some(m) => ranged.(min := NormalizeSalary(m.groups[0], m.groups[1]))
  }

  /** One loop of _extract_salary: re.search with each pattern in turn, stopping at the first match. */
  method SearchPatterns(pats: seq<Pattern>, text: string) returns (r: Option<Match>)
    ensures r == FirstSearch(pats, text)
  {
    var k := 0;
    while k < |pats|
      invariant 0 <= k <= |pats|
      invariant FirstSearch(pats, text) == FirstSearch(pats[k..], text)
    {
      var m := Search(pats[k], text, 0);
      if m.Some? {
        return m;
      }
      assert pats[k..][1..] == pats[k + 1..];
      k := k + 1;
    }
    return None;
  }

  /** _extract_salary as the source writes it: two loops over the patterns, each left at the first match. */
  method ExtractSalary(text: string) returns (salary: Salary)
    ensures salary == SalaryOf(text)
  {
    salary := Salary(None, None, Monthly);
    var m := SearchPatterns(RangePatterns, text);
    if m.Some? && |m.value.groups| == 4 {
      var g := m.value.groups;
      var kind := Monthly;
      if Contains(text, "年薪") || Contains(text, "年收") {
        kind := Yearly;
      } else if Contains(text, "時薪") {
        kind := Hourly;
      }
      salary := Salary(NormalizeSalary(g[0], g[1]), NormalizeSalary(g[2], g[3]), kind);
    }
    if !Truthy(salary.min) {
      var single := SearchPatterns(SinglePatterns, text);
      if single.Some? {
        salary := salary.(min := NormalizeSalary(single.value.groups[0], single.value.groups[1]));
      }
    }
  }

  /** The labelled range pattern never decides anything: the plain range pattern is always found first. */
  lemma RangeSearchIsPlainRange(text: string)
    ensures FirstSearch(RangePatterns, text) == Search(GuideRange, text, 0)
  {
    if Search(GuideRange, text, 0).None? {
      LabelledRangeNeverAfterNoRange(text);
    }
  }

  /** A range match sets both ends; min may afterwards be replaced only if it normalised to 0. */
  lemma RangeSetsBoth(text: string)
    requires Search(GuideRange, text, 0).Some?
    ensures var m := Search(GuideRange, text, 0).value;
      SalaryOf(text).max == NormalizeSalary(m.groups[2], m.groups[3]) && SalaryOf(text).max.Some?
      && SalaryOf(text).min.Some?
      && (Truthy(NormalizeSalary(m.groups[0], m.groups[1])) ==> SalaryOf(text).min == NormalizeSalary(m.groups[0], m.groups[1]))
    ensures var m := Search(GuideRange, text, 0).value; var single := FirstSearch(SinglePatterns, text);
      !Truthy(NormalizeSalary(m.groups[0], m.groups[1])) ==>
        SalaryOf(text).min == (if single.Some? then NormalizeSalary(single.value.groups[0], single.value.groups[1])
                               else NormalizeSalary(m.groups[0], m.groups[1]))
  {
    RangeSearchIsPlainRange(text);
  }

  /** With no range in the text there is no maximum, and only a single-sided pattern can give a minimum. */
  lemma NoRangeNoMax(text: string)
    requires Search(GuideRange, text, 0).None?
    ensures SalaryOf(text).max.None?
    ensures SalaryOf(text).min.Some? <==> FirstSearch(SinglePatterns, text).Some?
    ensures var single := FirstSearch(SinglePatterns, text);
      single.Some? ==> SalaryOf(text).min == NormalizeSalary(single.value.groups[0], single.value.groups[1])
  {
    RangeSearchIsPlainRange(text);
  }

  /** The type leaves monthly only through the range branch: yearly or hourly needs a range in the text. */
  lemma KindOnlyFromRange(text: string)
    ensures SalaryOf(text).kind == Yearly <==>
      Search(GuideRange, text, 0).Some? && (Contains(text, "年薪") || Contains(text, "年收"))
    ensures SalaryOf(text).kind == Hourly <==>
      Search(GuideRange, text, 0).Some? && !Contains(text, "年薪") && !Contains(text, "年收") && Contains(text, "時薪")
  {
    RangeSearchIsPlainRange(text);
  }

  /** The magnitude rule is not monotone: 99 with no unit is worth more than 100 with no unit. */
  lemma NormalizeSalaryNotMonotone()
    ensures NormalizeSalary("99", "") == Some(990000)
    ensures NormalizeSalary("100", "") == Some(100000)
  {
    assert DigitsValue("99") == 99 by {
      assert "99"[..1] == "9";
      assert DigitsValue("9") == 9 by { assert "9"[..0] == ""; }
    }
    assert DigitsValue("100") == 100 by {
      assert "100"[..2] == "10";
      assert "10"[..1] == "1";
      assert DigitsValue("1") == 1 by { assert "1"[..0] == ""; }
    }
  }

  // ------------------------------------------------------------ categories

  /** Category names of a table never repeat. */
  predicate DistinctKeys(table: Table) {
    forall i, j :: 0 <= i < j < |table| ==> table[i].0 != table[j].0
  }

  /**
   * _extract_locations / _extract_industries / _extract_company_type: each
   * category with a synonym in the text, added once, in table order.
   */
  function TableHits(table: Table, text: string): (r: seq<string>)
    ensures NoDup(r)
    decreases |table|
  {
    if table == [] then []
    else
      var prev := TableHits(table[..|table| - 1], text);
      var last := table[|table| - 1];
      if AnyIn(last.1, text) && last.0 !in prev then prev + [last.0] else prev
  }

  /** Reference definition: the names of the categories that have a synonym in the text, in table order. */
  function HitKeys(table: Table, text: string): seq<string>
    decreases |table|
  {
    if table == [] then []
    else (if AnyIn(table[0].1, text) then [table[0].0] else []) + HitKeys(table[1..], text)
  }

  /** The category loop, with the inner synonym loop left at its first hit. */
  method CollectCategories(table: Table, text: string) returns (found: seq<string>)
    ensures found == TableHits(table, text)
  {
    found := [];
    for k := 0 to |table|
      invariant found == TableHits(table[..k], text)
    {
      var synonyms := table[k].1;
      var j := 0;
      while j < |synonyms| && !Contains(text, synonyms[j])
        invariant 0 <= j <= |synonyms|
        invariant forall i :: 0 <= i < j ==> !Contains(text, synonyms[i])
      {
        j := j + 1;
      }
      assert table[..k + 1][..k] == table[..k];
      if j < |synonyms| && table[k].0 !in found {
        found := found + [table[k].0];
      }
    }
    assert table[..|table|] == table;
  }

  /** A category is reported iff one of its synonyms is a substring of the text. */
  lemma {:induction false} TableHitsMembers(table: Table, text: string)
    ensures forall x :: x in TableHits(table, text) <==>
      exists k :: 0 <= k < |table| && table[k].0 == x && AnyIn(table[k].1, text)
    decreases |table|
  {
    if table != [] {
      var n := |table| - 1;
      var pre := table[..n];
      TableHitsMembers(pre, text);
      forall x ensures x in TableHits(table, text) <==>
        exists k :: 0 <= k < |table| && table[k].0 == x && AnyIn(table[k].1, text)
      {
        if x in TableHits(pre, text) {
          var k :| 0 <= k < |pre| && pre[k].0 == x && AnyIn(pre[k].1, text);
          assert pre[k] == table[k];
        }
        if exists k :: 0 <= k < |table| && table[k].0 == x && AnyIn(table[k].1, text) {
          var k :| 0 <= k < |table| && table[k].0 == x && AnyIn(table[k].1, text);
          if k < n {
            assert pre[k] == table[k];
          }
        }
      }
    }
  }

  lemma {:induction false} HitKeysSnoc(table: Table, e: (string, seq<string>), text: string)
    ensures HitKeys(table + [e], text) == HitKeys(table, text) + (if AnyIn(e.1, text) then [e.0] else [])
    decreases |table|
  {
    if table != [] {
      assert (table + [e])[1..] == table[1..] + [e];
      HitKeysSnoc(table[1..], e, text);
    }
  }

  /** When the names are distinct, the loop's result is exactly the reference list, in table order. */
  lemma {:induction false} TableHitsInTableOrder(table: Table, text: string)
    requires DistinctKeys(table)
    ensures TableHits(table, text) == HitKeys(table, text)
    decreases |table|
  {
    if table != [] {
      var n := |table| - 1;
      var pre := table[..n];
      assert DistinctKeys(pre) by {
        forall i, j | 0 <= i < j < |pre| ensures pre[i].0 != pre[j].0 {
          assert pre[i] == table[i] && pre[j] == table[j];
        }
      }
      TableHitsInTableOrder(pre, text);
      TableHitsMembers(pre, text);
      assert table == pre + [table[n]];
      HitKeysSnoc(pre, table[n], text);
    }
  }

  lemma TablesHaveDistinctKeys()
    ensures DistinctKeys(LocationTable) && DistinctKeys(IndustryTable)
    ensures DistinctKeys(ExperienceTable) && DistinctKeys(CompanyTypeTable)
  {
    LocationKeysDistinct();
    IndustryKeysDistinct();
    ExperienceKeysDistinct();
    CompanyTypeKeysDistinct();
  }

  lemma LocationKeysDistinct()
    ensures DistinctKeys(LocationTable)
  {
  }

  lemma IndustryKeysDistinct()
    ensures DistinctKeys(IndustryTable)
  {
  }

  lemma ExperienceKeysDistinct()
    ensures DistinctKeys(ExperienceTable)
  {
  }

  lemma CompanyTypeKeysDistinct()
    ensures DistinctKeys(CompanyTypeTable)
  {
  }

  /** Lower-casing removes every capital, so the synonyms IT and AI of 科技業 can never match. */
  lemma CapitalSynonymsNeverMatch(s: string)
    ensures !Contains(Lower(s), "IT") && !Contains(Lower(s), "AI")
  {
    var t := Lower(s);
    forall i | 0 <= i <= |t|
      ensures !OccursAt(t, "IT", i) && !OccursAt(t, "AI", i)
    {
      if i + 2 <= |t| {
        assert t[i..i + 2][0] == t[i] == LowerChar(s[i]);
      }
    }
  }

  // ------------------------------------------------------------ experience

  /** Index of the first category of the table with a synonym in the text. */
  function FirstHitIndex(table: Table, text: string): (r: Option<nat>)
    ensures r.Some? ==> r.value < |table| && AnyIn(table[r.value].1, text)
    ensures forall k :: 0 <= k < |table| && (r.Some? ==> k < r.value) ==> !AnyIn(table[k].1, text)
    decreases |table|
  {
    if table == [] then None
    else if AnyIn(table[0].1, text) then Some(0)
    else
      match FirstHitIndex(table[1..], text)
      case None => None
      case Some(k) => Some(k + 1)
  }

  /** _extract_experience: the first level, in table order, with a keyword in the text, or "". */
  function ExperienceOf(text: string): (r: string)
    ensures r == "" <==> forall k :: 0 <= k < |ExperienceTable| ==> !AnyIn(ExperienceTable[k].1, text)
    ensures r != "" ==>
      exists k :: 0 <= k < |ExperienceTable| && r == ExperienceTable[k].0 && AnyIn(ExperienceTable[k].1, text)
        && (forall j :: 0 <= j < k ==> !AnyIn(ExperienceTable[j].1, text))
  {
    match FirstHitIndex(ExperienceTable, text)
    case None => ""
    case Some(k) => ExperienceTable[k].0
  }

  /** The experience loop, returning at the first keyword found. */
  method ExtractExperience(text: string) returns (level: string)
    ensures level == ExperienceOf(text)
  {
    for k := 0 to |ExperienceTable|
      invariant forall i :: 0 <= i < k ==> !AnyIn(ExperienceTable[i].1, text)
    {
      var keywords := ExperienceTable[k].1;
      for j := 0 to |keywords|
        invariant forall i :: 0 <= i < j ==> !Contains(text, keywords[i])
      {
        if Contains(text, keywords[j]) {
          assert AnyIn(keywords, text);
          return ExperienceTable[k].0;
        }
      }
    }
    return "";
  }

  /** '3年' is a keyword of both 1-3年 and 3-5年; the earlier level always wins. */
  lemma ThreeYearsIsJunior(text: string)
    requires Contains(text, "3年")
    ensures ExperienceOf(text) == "新鮮人" || ExperienceOf(text) == "1-3年"
  {
    assert ExperienceTable[1].1[2] == "3年";
    assert AnyIn(ExperienceTable[1].1, text);
  }

  /** The keyword '5年以上' is shadowed by '5年' of 3-5年: the top level is reached only through its other keywords. */
  lemma SeniorNeverFromFiveYears(text: string)
    requires ExperienceOf(text) == "5年以上"
    ensures !Contains(text, "5年")
  {
    FiveYearsIsMid(text);
  }

  lemma FiveYearsIsMid(text: string)
    ensures Contains(text, "5年") ==> AnyIn(ExperienceTable[2].1, text)
  {
    assert ExperienceTable[2].1[2] == "5年";
  }

  // ------------------------------------------------------------- work type

  /** _extract_work_type: 遠端 before 現場 before 混合, or "". */
  function WorkTypeOf(text: string): (r: string)
    ensures r == "遠端" <==> AnyIn(RemoteWords, text)
    ensures r == "現場" <==> !AnyIn(RemoteWords, text) && AnyIn(OnsiteWords, text)
    ensures r == "混合" <==> !AnyIn(RemoteWords, text) && !AnyIn(OnsiteWords, text) && AnyIn(HybridWords, text)
    ensures r == "" <==> !AnyIn(RemoteWords, text) && !AnyIn(OnsiteWords, text) && !AnyIn(HybridWords, text)
  {
    if AnyIn(RemoteWords, text) then "遠端"
    else if AnyIn(OnsiteWords, text) then "現場"
    else if AnyIn(HybridWords, text) then "混合"
    else ""
  }

  /** A remote work type always comes with the 遠端 region, since every remote word is one of its synonyms. */
  lemma RemoteWorkHasRemoteRegion(text: string)
    requires WorkTypeOf(text) == "遠端"
    ensures "遠端" in TableHits(LocationTable, text)
  {
    var k :| 0 <= k < |RemoteWords| && Contains(text, RemoteWords[k]);
    assert RemoteWords[k] == LocationTable[7].1[k];
    assert AnyIn(LocationTable[7].1, text);
    TableHitsMembers(LocationTable, text);
  }

  /** '彈性' alone puts the query in the 遠端 region but gives the hybrid work type. */
  lemma FlexibleIsRemoteRegionButHybrid(text: string)
    requires Contains(text, "彈性")
    requires !AnyIn(RemoteWords, text) && !AnyIn(OnsiteWords, text)
    ensures WorkTypeOf(text) == "混合"
    ensures "遠端" in TableHits(LocationTable, text)
  {
    assert HybridWords[2] == "彈性";
    assert LocationTable[7].1[5] == "彈性";
    assert AnyIn(LocationTable[7].1, text);
    TableHitsMembers(LocationTable, text);
  }

  /** Every query naming 工程師 is placed in 製造業, through its synonym 工程. */
  lemma EngineerIsManufacturing(text: string)
    requires Contains(text, "工程師")
    ensures "製造業" in TableHits(IndustryTable, text)
  {
    var i :| 0 <= i <= |text| && OccursAt(text, "工程師", i);
    assert text[i..i + 2] == "工程" by {
      assert text[i..i + 2] == text[i..i + 3][..2];
    }
    assert OccursAt(text, "工程", i);
    assert IndustryTable[2].1[4] == "工程";
    assert AnyIn(IndustryTable[2].1, text);
    TableHitsMembers(IndustryTable, text);
  }

  // ------------------------------------------------------------- job title

  /** Index of the first phrase of the direct mapping that occurs in the text. */
  function FirstPhraseIndex(mapping: seq<(string, string)>, text: string): (r: Option<nat>)
    ensures r.Some? ==> r.value < |mapping| && Contains(text, mapping[r.value].0)
    ensures forall k :: 0 <= k < |mapping| && (r.Some? ==> k < r.value) ==> !Contains(text, mapping[k].0)
    decreases |mapping|
  {
    if mapping == [] then None
    else if Contains(text, mapping[0].0) then Some(0)
    else
      match FirstPhraseIndex(mapping[1..], text)
      case None => None
      case Some(k) => Some(k + 1)
  }

  /** A stripped segment that may be a title: two characters or more, not a condition word, not a number, no amount unit. */
  predicate IsCandidate(w: string) {
    |w| > 1 && w !in ConditionWords && !IsDigits(w) && 'k' !in w && 'K' !in w && '萬' !in w && '千' !in w
  }

  /** The stripped segments that may be a title, in segment order. */
  function Candidates(words: seq<string>): (r: seq<string>)
    ensures forall k :: 0 <= k < |r| ==> IsCandidate(r[k])
    decreases |words|
  {
    if words == [] then []
    else
      var w := Strip(words[|words| - 1]);
      Candidates(words[..|words| - 1]) + (if IsCandidate(w) then [w] else [])
  }

  /** cands[i] contains the keyword, and no candidate before it does. */
  predicate FirstWith(cands: seq<string>, keyword: string, i: int) {
    0 <= i < |cands| && Contains(cands[i], keyword) && forall j :: 0 <= j < i ==> !Contains(cands[j], keyword)
  }

  /** The first candidate that contains the keyword. */
  function FirstContaining(cands: seq<string>, keyword: string): (r: Option<string>)
    ensures r.Some? ==> r.value in cands && Contains(r.value, keyword)
    ensures r.None? ==> forall k :: 0 <= k < |cands| ==> !Contains(cands[k], keyword)
    ensures forall i :: FirstWith(cands, keyword, i) ==> r == Some(cands[i])
    decreases |cands|
  {
    if cands == [] then None
    else if Contains(cands[0], keyword) then Some(cands[0])
    else
      assert forall i :: FirstWith(cands, keyword, i) ==> i > 0 && FirstWith(cands[1..], keyword, i - 1);
      FirstContaining(cands[1..], keyword)
  }

  /** keywords[k] is the first keyword that some candidate contains. */
  predicate FirstKeywordWith(keywords: seq<string>, cands: seq<string>, k: int) {
    0 <= k < |keywords| && FirstContaining(cands, keywords[k]).Some?
    && forall j :: 0 <= j < k ==> FirstContaining(cands, keywords[j]).None?
  }

  /**
   * Keyword by keyword, in list order: the first candidate containing the first
   * keyword that any candidate contains.
   */
  function PickByKeyword(keywords: seq<string>, cands: seq<string>): (r: Option<string>)
    ensures r.Some? ==> r.value in cands
    ensures r.None? ==> forall k, i :: 0 <= k < |keywords| && 0 <= i < |cands| ==> !Contains(cands[i], keywords[k])
    ensures forall k :: FirstKeywordWith(keywords, cands, k) ==> r == FirstContaining(cands, keywords[k])
    decreases |keywords|
  {
    if keywords == [] then None
    else
      match FirstContaining(cands, keywords[0])
      case Some(c) => Some(c)
      case None =>
        var r := PickByKeyword(keywords[1..], cands);
        assert forall k :: 1 <= k < |keywords| ==> keywords[1..][k - 1] == keywords[k];
        assert forall k :: FirstKeywordWith(keywords, cands, k) ==> k > 0 && FirstKeywordWith(keywords[1..], cands, k - 1);
        r
  }

  /** The first candidate of at least two characters. */
  function FirstOfTwo(cands: seq<string>): (r: Option<string>)
    ensures r.Some? ==> r.value in cands
    ensures r.None? <==> forall k :: 0 <= k < |cands| ==> |cands[k]| < 2
    ensures forall i :: FirstTwoLong(cands, i) ==> r == Some(cands[i])
    decreases |cands|
  {
    if cands == [] then None
    else if |cands[0]| >= 2 then Some(cands[0])
    else
      assert forall i :: FirstTwoLong(cands, i) ==> i > 0 && FirstTwoLong(cands[1..], i - 1);
      FirstOfTwo(cands[1..])
  }

  /** cands[i] has two characters or more, and no candidate before it has. */
  predicate FirstTwoLong(cands: seq<string>, i: int) {
    0 <= i < |cands| && |cands[i]| >= 2 && forall j :: 0 <= j < i ==> |cands[j]| < 2
  }

  /**
   * The text with each word of the list, in list order, replaced everywhere by a
   * space; a text holding none of the (non-empty) words is left as it is.
   */
  function RemoveWords(text: string, words: seq<string>): (r: string)
    ensures (forall k :: 0 <= k < |words| ==> words[k] != [] && !Contains(text, words[k])) ==> r == text
    decreases |words|
  {
    if words == [] then text
    else Replace(RemoveWords(text, words[..|words| - 1]), words[|words| - 1], " ")
  }

  /** Once the words (non-empty, without spaces) are replaced in turn, none of them is left. */
  lemma {:induction false} RemoveWordsClears(text: string, words: seq<string>)
    requires forall k :: 0 <= k < |words| ==> words[k] != [] && ' ' !in words[k]
    ensures forall k :: 0 <= k < |words| ==> !Contains(RemoveWords(text, words), words[k])
    decreases |words|
  {
    if words != [] {
      var n := |words| - 1;
      var before := RemoveWords(text, words[..n]);
      RemoveWordsClears(text, words[..n]);
      assert forall k :: 0 <= k < n ==> words[..n][k] == words[k];
      forall k | 0 <= k < |words| ensures !Contains(Replace(before, words[n], " "), words[k]) {
        if k < n {
          ReplaceKeepsAbsent(before, words[n], words[k]);
        } else {
          ReplaceRemoves(before, words[n]);
        }
      }
    }
  }

  /** The condition words are non-empty and hold no space. */
  lemma ConditionWordsAreWords()
    ensures forall k :: 0 <= k < |ConditionWords| ==> ConditionWords[k] != [] && ' ' !in ConditionWords[k]
  {
  }

  /** A word longer than one character that is not a number. */
  predicate IsLong(w: string) {
    |w| > 1 && !IsDigits(w)
  }

  /** words[i] is long, and no word before it is. */
  predicate FirstLong(words: seq<string>, i: int) {
    0 <= i < |words| && IsLong(words[i]) && forall j :: 0 <= j < i ==> !IsLong(words[j])
  }

  /** The words longer than one character that are not numbers, in order. */
  function LongWords(words: seq<string>): (r: seq<string>)
    ensures forall k :: 0 <= k < |r| ==> IsLong(r[k]) && r[k] in words
    ensures r == [] <==> forall k :: 0 <= k < |words| ==> !IsLong(words[k])
    ensures forall i :: FirstLong(words, i) ==> r != [] && r[0] == words[i]
    decreases |words|
  {
    if words == [] then []
    else
      assert forall k :: 1 <= k < |words| ==> words[1..][k - 1] == words[k];
      assert forall i :: FirstLong(words, i) && i > 0 ==> FirstLong(words[1..], i - 1);
      (if IsLong(words[0]) then [words[0]] else []) + LongWords(words[1..])
  }

  /** Step 1: the title mapped from the first phrase of the direct mapping found in the lowered, stripped text. */
  function DirectTitle(lower: string): (r: Option<string>)
    ensures r.Some? <==> exists k :: 0 <= k < |DirectJobMapping| && Contains(lower, DirectJobMapping[k].0)
    ensures r.Some? ==> |r.value| >= 2
  {
    match FirstPhraseIndex(DirectJobMapping, lower)
    case None => None
    case Some(k) =>
      DirectTitlesAreLong();
      Some(DirectJobMapping[k].1)
  }

  /**
   * Step 3: the candidate picked by the position keywords, which comes first;
   * else the first candidate of two characters, which for candidates is the
   * first one.
   */
  function SegmentTitle(cands: seq<string>): (r: Option<string>)
    ensures r.Some? ==> r.value in cands
    ensures r.None? <==> cands == [] || (PickByKeyword(PositionKeywords, cands).None? && forall k :: 0 <= k < |cands| ==> |cands[k]| < 2)
    ensures PickByKeyword(PositionKeywords, cands).Some? ==> r == PickByKeyword(PositionKeywords, cands)
    ensures (forall k :: 0 <= k < |cands| ==> IsCandidate(cands[k])) && cands != [] && PickByKeyword(PositionKeywords, cands).None? ==>
      r == Some(cands[0])
  {
    if cands == [] then None
    else if PickByKeyword(PositionKeywords, cands).Some? then PickByKeyword(PositionKeywords, cands)
    else FirstOfTwo(cands)
  }

  /**
   * Step 4: the first long word left once every condition word is replaced by a
   * space, or "": a word of two characters or more, not a number, holding no
   * condition word.
   */
  function LeftoverTitle(lower: string): (r: string)
    ensures r == "" || (IsWord(r) && |r| > 1 && !IsDigits(r))
    ensures NoConditionWord(r)
    ensures var ps := Split(RemoveWords(lower, ConditionWords));
      (r == "" <==> forall k :: 0 <= k < |ps| ==> !IsLong(ps[k]))
      && forall i :: FirstLong(ps, i) ==> r == ps[i]
  {
    var ps := Split(RemoveWords(lower, ConditionWords));
    var w := FirstLongWord(ps);
    LeftoverChosen(lower, ps, w);
    w
  }

  /** The word chosen from the words left is "" or a long word holding no condition word. */
  lemma LeftoverChosen(lower: string, ps: seq<string>, w: string)
    requires ps == Split(RemoveWords(lower, ConditionWords)) && w == FirstLongWord(ps)
    ensures w == "" || (IsWord(w) && |w| > 1 && !IsDigits(w))
    ensures NoConditionWord(w)
  {
    if w != "" {
      LeftoverWordClean(lower, w);
    } else {
      EmptyHasNoConditionWord();
    }
  }

  /** The empty text holds no condition word, none of them being empty. */
  lemma EmptyHasNoConditionWord()
    ensures NoConditionWord("")
  {
    ConditionWordsAreWords();
    forall k | 0 <= k < |ConditionWords| ensures !Contains("", ConditionWords[k]) {
      var cw := ConditionWords[k];
      assert forall i :: 0 <= i <= 0 ==> !OccursAt("", cw, i);
    }
  }

  /** The first long word of the list, or "" when it has none. */
  function FirstLongWord(words: seq<string>): (r: string)
    ensures r != "" ==> r in words && IsLong(r)
    ensures r == "" <==> forall k :: 0 <= k < |words| ==> !IsLong(words[k])
    ensures forall i :: FirstLong(words, i) ==> r == words[i]
  {
    var kept := LongWords(words);
    if kept != [] then kept[0] else ""
  }

  /** The word holds none of the condition words. */
  predicate NoConditionWord(w: string) {
    forall k :: 0 <= k < |ConditionWords| ==> !Contains(w, ConditionWords[k])
  }

  /** No word left once the condition words are replaced holds a condition word. */
  lemma LeftoverWordClean(lower: string, w: string)
    requires w in Split(RemoveWords(lower, ConditionWords))
    ensures NoConditionWord(w)
  {
    var rest := RemoveWords(lower, ConditionWords);
    ConditionWordsAreWords();
    RemoveWordsClears(lower, ConditionWords);
    SplitPiecesOccur(rest);
    forall k | 0 <= k < |ConditionWords| ensures !Contains(w, ConditionWords[k]) {
      ContainsTransitive(rest, w, ConditionWords[k]);
    }
  }

  /**
   * _extract_job_title: a direct phrase, then a segment, then a leftover word,
   * then ""; whatever it returns is "" or has two characters or more.
   */
  function JobTitleOf(text: string, seg: string -> seq<string>): (r: string)
    ensures DirectTitle(Strip(Lower(text))).Some? ==> r == DirectTitle(Strip(Lower(text))).value
    ensures DirectTitle(Strip(Lower(text))).None? && Candidates(seg(text)) != [] ==> r in Candidates(seg(text))
    ensures DirectTitle(Strip(Lower(text))).None? && PickByKeyword(PositionKeywords, Candidates(seg(text))).Some? ==>
      r == PickByKeyword(PositionKeywords, Candidates(seg(text))).value
    ensures DirectTitle(Strip(Lower(text))).None? && Candidates(seg(text)) != [] && PickByKeyword(PositionKeywords, Candidates(seg(text))).None? ==>
      r == Candidates(seg(text))[0]
    ensures DirectTitle(Strip(Lower(text))).None? && Candidates(seg(text)) == [] ==> r == LeftoverTitle(Strip(Lower(text)))
    ensures r == "" || |r| >= 2
  {
    FirstOfTwoIsFirst(Candidates(seg(text)));
    var lower := Strip(Lower(text));
    match DirectTitle(lower)
    case Some(t) => t
    case None =>
      match SegmentTitle(Candidates(seg(text)))
      case Some(t) => t
      case None => LeftoverTitle(lower)
  }

  /** The direct-mapping loop, returning the value of the first phrase found. */
  method FindMappedTitle(mapping: seq<(string, string)>, lower: string) returns (r: Option<string>)
    ensures r.Some? <==> FirstPhraseIndex(mapping, lower).Some?
    ensures r.Some? ==> r.value == mapping[FirstPhraseIndex(mapping, lower).value].1
  {
    for k := 0 to |mapping|
      invariant forall i :: 0 <= i < k ==> !Contains(lower, mapping[i].0)
    {
      if Contains(lower, mapping[k].0) {
        return Some(mapping[k].1);
      }
    }
    return None;
  }

  /** Every title of the direct mapping has at least two characters. */
  lemma DirectTitlesAreLong()
    ensures forall k :: 0 <= k < |DirectJobMapping| ==> |DirectJobMapping[k].1| >= 2
  {
  }

  /** The candidate loop: strip each segment and keep the ones that may be a title. */
  method CollectCandidates(words: seq<string>) returns (cands: seq<string>)
    ensures cands == Candidates(words)
  {
    cands := [];
    for i := 0 to |words|
      invariant cands == Candidates(words[..i])
    {
      assert words[..i + 1][..i] == words[..i];
      var w := Strip(words[i]);
      if |w| > 1 && w !in ConditionWords && !IsDigits(w) && 'k' !in w && 'K' !in w && '萬' !in w && '千' !in w {
        cands := cands + [w];
      }
    }
    assert words[..|words|] == words;
  }

  /** The nested position-keyword loops, then the first-candidate loop, each returning at a hit. */
  method PickSegmentTitle(cands: seq<string>) returns (r: Option<string>)
    ensures r == SegmentTitle(cands)
  {
    if cands == [] {
      return None;
    }
    r := PickKeywordLoop(PositionKeywords, cands);
    if r.Some? {
      return;
    }
    for ci := 0 to |cands|
      invariant FirstOfTwo(cands) == FirstOfTwo(cands[ci..])
    {
      if |cands[ci]| >= 2 {
        return Some(cands[ci]);
      }
      assert cands[ci..][1..] == cands[ci + 1..];
    }
    return None;
  }

  /** The nested position-keyword loops: for each keyword in turn, the first candidate containing it. */
  method PickKeywordLoop(keywords: seq<string>, cands: seq<string>) returns (r: Option<string>)
    ensures r == PickByKeyword(keywords, cands)
  {
    for ki := 0 to |keywords|
      invariant PickByKeyword(keywords, cands) == PickByKeyword(keywords[ki..], cands)
    {
      var keyword := keywords[ki];
      for ci := 0 to |cands|
        invariant FirstContaining(cands, keyword) == FirstContaining(cands[ci..], keyword)
      {
        if Contains(cands[ci], keyword) {
          return Some(cands[ci]);
        }
        assert cands[ci..][1..] == cands[ci + 1..];
      }
      assert keywords[ki..][1..] == keywords[ki + 1..];
    }
    return None;
  }

  /** The replace loop: each word of the list, in order, replaced by a space. */
  method ReplaceAll(text: string, words: seq<string>) returns (remaining: string)
    ensures remaining == RemoveWords(text, words)
  {
    remaining := text;
    for k := 0 to |words|
      invariant remaining == RemoveWords(text, words[..k])
    {
      assert words[..k + 1][..k] == words[..k];
      remaining := Replace(remaining, words[k], " ");
    }
    assert words[..|words|] == words;
  }

  /** _extract_job_title, step by step as the source orders it. */
  method ExtractJobTitle(text: string, seg: string -> seq<string>) returns (title: string)
    ensures title == JobTitleOf(text, seg)
  {
    var lower := Strip(Lower(text));
    var direct := FindMappedTitle(DirectJobMapping, lower);
    if direct.Some? {
      return direct.value;
    }
    var cands := CollectCandidates(seg(text));
    var picked := PickSegmentTitle(cands);
    if picked.Some? {
      return picked.value;
    }
    var remaining := ReplaceAll(lower, ConditionWords);
    var kept := LongWords(Split(remaining));
    if kept != [] {
      return kept[0];
    }
    return "";
  }

  /** The direct mapping is searched in table order and the first phrase found decides, whatever comes later. */
  lemma DirectTitleIsFirstHit(text: string, seg: string -> seq<string>, k: nat)
    requires k < |DirectJobMapping| && Contains(Strip(Lower(text)), DirectJobMapping[k].0)
    ensures exists j :: (0 <= j <= k && JobTitleOf(text, seg) == DirectJobMapping[j].1
      && Contains(Strip(Lower(text)), DirectJobMapping[j].0)
      && (forall i :: 0 <= i < j ==> !Contains(Strip(Lower(text)), DirectJobMapping[i].0)))
  {
    var j := FirstPhraseIndex(DirectJobMapping, Strip(Lower(text))).value;
    assert JobTitleOf(text, seg) == DirectJobMapping[j].1;
  }

  lemma SampleIsLower()
    ensures Lower("軟體工程師pm") == "軟體工程師pm"
  {
  }

  lemma SampleIsStripped()
    ensures StripLeft("軟體工程師pm") == "軟體工程師pm" && StripRight("軟體工程師pm") == "軟體工程師pm"
  {
  }

  lemma SampleFirstPhrase()
    ensures FirstPhraseIndex(DirectJobMapping, "軟體工程師pm") == Some(3)
  {
    var text := "軟體工程師pm";
    var m := DirectJobMapping;
    assert OccursAt(text, "pm", 5);
    NotContainsWithoutFirst(text, m[0].0);
    NotContainsWithoutFirst(text, m[1].0);
    NotContainsWithoutFirst(text, m[2].0);
    assert m[3..][0] == m[3] && FirstPhraseIndex(m[3..], text) == Some(0);
    assert m[2..][1..] == m[3..] && m[2..][0] == m[2];
    assert FirstPhraseIndex(m[2..], text) == Some(1);
    assert m[1..][1..] == m[2..] && m[1..][0] == m[1];
    assert FirstPhraseIndex(m[1..], text) == Some(2);
  }

  /**
   * The first phrase in table order wins, not the longest: in 軟體工程師pm the
   * short phrase pm (fourth in the table) beats 軟體工程師 (thirteenth).
   */
  lemma FirstHitNotLongest(seg: string -> seq<string>)
    ensures Contains("軟體工程師pm", DirectJobMapping[12].0) && DirectJobMapping[12].1 == "軟體工程師"
    ensures |DirectJobMapping[12].0| > |DirectJobMapping[3].0|
    ensures JobTitleOf("軟體工程師pm", seg) == "產品經理"
  {
    assert OccursAt("軟體工程師pm", DirectJobMapping[12].0, 0);
    SampleIsLower();
    SampleIsStripped();
    SampleFirstPhrase();
  }

  /** Every candidate has two characters or more, so the "first meaningful word" loop always takes the first candidate. */
  lemma FirstOfTwoIsFirst(cands: seq<string>)
    requires forall k :: 0 <= k < |cands| ==> IsCandidate(cands[k])
    ensures cands != [] ==> FirstOfTwo(cands) == Some(cands[0])
    ensures cands == [] ==> FirstOfTwo(cands).None?
  {
  }

  /** Without a direct phrase, a title found among the segments is one of the candidates, the first one when no position keyword occurs. */
  lemma TitleFromSegments(text: string, seg: string -> seq<string>)
    requires DirectTitle(Strip(Lower(text))).None?
    requires Candidates(seg(text)) != []
    ensures JobTitleOf(text, seg) in Candidates(seg(text))
    ensures PickByKeyword(PositionKeywords, Candidates(seg(text))).None? ==> JobTitleOf(text, seg) == Candidates(seg(text))[0]
  {
    FirstOfTwoIsFirst(Candidates(seg(text)));
  }

  /** A title is empty or has at least two characters. */
  lemma JobTitleShape(text: string, seg: string -> seq<string>)
    ensures JobTitleOf(text, seg) == "" || |JobTitleOf(text, seg)| >= 2
  {
    var lower := Strip(Lower(text));
    var cands := Candidates(seg(text));
    if DirectTitle(lower).Some? {
      var k := FirstPhraseIndex(DirectJobMapping, lower).value;
      DirectTitlesAreLong();
      assert JobTitleOf(text, seg) == DirectJobMapping[k].1;
    } else if cands != [] {
      FirstOfTwoIsFirst(cands);
      var t := SegmentTitle(cands).value;
      assert JobTitleOf(text, seg) == t && IsCandidate(t);
    } else {
      assert JobTitleOf(text, seg) == LeftoverTitle(lower);
    }
  }

  /** The title is empty exactly when no phrase, no candidate segment and no leftover word is found. */
  lemma JobTitleEmpty(text: string, seg: string -> seq<string>)
    ensures JobTitleOf(text, seg) == "" <==>
      (DirectTitle(Strip(Lower(text))).None? && Candidates(seg(text)) == []
       && LongWords(Split(RemoveWords(Strip(Lower(text)), ConditionWords))) == [])
  {
    var lower := Strip(Lower(text));
    var cands := Candidates(seg(text));
    if DirectTitle(lower).Some? {
      var k := FirstPhraseIndex(DirectJobMapping, lower).value;
      DirectTitlesAreLong();
      assert JobTitleOf(text, seg) == DirectJobMapping[k].1;
    } else if cands != [] {
      FirstOfTwoIsFirst(cands);
      var t := SegmentTitle(cands).value;
      assert JobTitleOf(text, seg) == t && IsCandidate(t);
    } else {
      assert JobTitleOf(text, seg) == LeftoverTitle(lower);
    }
  }

  // ---------------------------------------------------------- missing info

  /**
   * _check_missing_info: the applicable field names, in the fixed order, with
   * Python's falsy tests; none of them applies exactly when the record is complete.
   */
  function MissingInfo(c: Conditions): (r: seq<string>)
    ensures |r| <= 4
    ensures r == [] <==> c.jobTitle != "" && (Truthy(c.salary.min) || Truthy(c.salary.max)) && c.location != [] && c.experience != ""
  {
    (if c.jobTitle == "" then [MissingFields[0]] else [])
    + (if !Truthy(c.salary.min) && !Truthy(c.salary.max) then [MissingFields[1]] else [])
    + (if c.location == [] then [MissingFields[2]] else [])
    + (if c.experience == "" then [MissingFields[3]] else [])
  }

  /** The missing-info list built by appends. */
  method CheckMissingInfo(c: Conditions) returns (missing: seq<string>)
    ensures missing == MissingInfo(c)
  {
    missing := [];
    if c.jobTitle == "" {
      missing := missing + ["職位名稱"];
    }
    if !Truthy(c.salary.min) && !Truthy(c.salary.max) {
      missing := missing + ["期望薪資"];
    }
    if c.location == [] {
      missing := missing + ["工作地點"];
    }
    if c.experience == "" {
      missing := missing + ["工作年限"];
    }
  }

  /** Position of a field name in the fixed order. */
  function FieldRank(f: string): nat {
    if f == MissingFields[0] then 0
    else if f == MissingFields[1] then 1
    else if f == MissingFields[2] then 2
    else if f == MissingFields[3] then 3
    else 4
  }

  /** Each field is listed iff its test fails, and nothing else is listed. */
  lemma MissingInfoMeaning(c: Conditions)
    ensures "職位名稱" in MissingInfo(c) <==> c.jobTitle == ""
    ensures "期望薪資" in MissingInfo(c) <==> !Truthy(c.salary.min) && !Truthy(c.salary.max)
    ensures "工作地點" in MissingInfo(c) <==> c.location == []
    ensures "工作年限" in MissingInfo(c) <==> c.experience == ""
    ensures forall i :: 0 <= i < |MissingInfo(c)| ==> MissingInfo(c)[i] in MissingFields
  {
    var p0 := if c.jobTitle == "" then [MissingFields[0]] else [];
    var p1 := if !Truthy(c.salary.min) && !Truthy(c.salary.max) then [MissingFields[1]] else [];
    var p2 := if c.location == [] then [MissingFields[2]] else [];
    var p3 := if c.experience == "" then [MissingFields[3]] else [];
    assert MissingInfo(c) == p0 + p1 + p2 + p3;
    MissingFieldsDistinct();
    InFour(MissingFields[0], p0, p1, p2, p3);
    InFour(MissingFields[1], p0, p1, p2, p3);
    InFour(MissingFields[2], p0, p1, p2, p3);
    InFour(MissingFields[3], p0, p1, p2, p3);
    forall i | 0 <= i < |MissingInfo(c)| ensures MissingInfo(c)[i] in MissingFields {
      InFour(MissingInfo(c)[i], p0, p1, p2, p3);
    }
  }

  lemma MissingFieldsDistinct()
    ensures forall i, j :: 0 <= i < j < |MissingFields| ==> MissingFields[i] != MissingFields[j]
  {
    assert MissingFields[0][0] != MissingFields[1][0] && MissingFields[0][0] != MissingFields[2][0];
    assert MissingFields[0][0] != MissingFields[3][0] && MissingFields[1][0] != MissingFields[2][0];
    assert MissingFields[1][0] != MissingFields[3][0] && MissingFields[2][2] != MissingFields[3][2];
  }

  lemma InFour<T>(x: T, p0: seq<T>, p1: seq<T>, p2: seq<T>, p3: seq<T>)
    ensures x in p0 + p1 + p2 + p3 <==> x in p0 || x in p1 || x in p2 || x in p3
  {
  }

  /** The fields are listed once each, in the fixed order. */
  lemma MissingInfoOrdered(c: Conditions)
    ensures forall i, j :: 0 <= i < j < |MissingInfo(c)| ==> FieldRank(MissingInfo(c)[i]) < FieldRank(MissingInfo(c)[j])
  {
    assert FieldRank(MissingFields[0]) == 0 && FieldRank(MissingFields[1]) == 1;
    assert FieldRank(MissingFields[2]) == 2 && FieldRank(MissingFields[3]) == 3;
  }

  /** is_complete_conditions: on a record whose list is up to date, every required field is there. */
  predicate IsComplete(c: Conditions): (b: bool)
    ensures c.missingInfo == MissingInfo(c) ==>
      (b <==> c.jobTitle != "" && (Truthy(c.salary.min) || Truthy(c.salary.max)) && c.location != [] && c.experience != "")
  {
    |c.missingInfo| == 0
  }

  /** format_search_conditions: the record for the search, with the first region or "". */
  function FormatSearchConditions(c: Conditions): (r: SearchConditions)
    ensures c.location != [] ==> r.location == c.location[0]
    ensures c.location == [] ==> r.location == ""
    ensures r.keyword == c.jobTitle && r.salaryMin == c.salary.min && r.salaryMax == c.salary.max
    ensures r.experience == c.experience && r.industry == c.industry
    ensures r.workType == c.workType && r.companyType == c.companyType
  {
    SearchConditions(c.jobTitle, if c.location != [] then c.location[0] else "", c.salary.min, c.salary.max,
      c.experience, c.industry, c.workType, c.companyType)
  }

  // ----------------------------------------------------------------- parse

  /** parse_natural_language_conditions: the whole record for one query. */
  function ParseOf(text: string, seg: string -> seq<string>): (r: Conditions)
    ensures r.missingInfo == MissingInfo(r) && r.originalText == text
  {
    var lower := Lower(text);
    var c := Conditions(JobTitleOf(text, seg), SalaryOf(text), TableHits(LocationTable, lower),
      TableHits(IndustryTable, lower), ExperienceOf(lower), WorkTypeOf(lower),
      TableHits(CompanyTypeTable, lower), text, []);
    MissingInfoIgnoresList(c, MissingInfo(c));
    c.(missingInfo := MissingInfo(c))
  }

  /** The missing-info list does not depend on the list the record already holds. */
  lemma MissingInfoIgnoresList(c: Conditions, l: seq<string>)
    ensures MissingInfo(c.(missingInfo := l)) == MissingInfo(c)
  {
  }

  /** The parser as the source sequences it: one extractor after the other, then the missing-info check. */
  method ParseConditions(text: string, seg: string -> seq<string>) returns (c: Conditions)
    ensures c == ParseOf(text, seg)
  {
    var lower := Lower(text);
    var title := ExtractJobTitle(text, seg);
    var salary := ExtractSalary(text);
    var locations := CollectCategories(LocationTable, lower);
    var industries := CollectCategories(IndustryTable, lower);
    var experience := ExtractExperience(lower);
    var companyTypes := CollectCategories(CompanyTypeTable, lower);
    c := Conditions(title, salary, locations, industries, experience, WorkTypeOf(lower), companyTypes, text, []);
    var missing := CheckMissingInfo(c);
    c := c.(missingInfo := missing);
  }

  /** A parsed query is complete iff it has a title, a truthy salary end, a region and an experience level. */
  lemma CompleteIff(text: string, seg: string -> seq<string>)
    ensures var c := ParseOf(text, seg);
      IsComplete(c) <==> (c.jobTitle != "" && (Truthy(c.salary.min) || Truthy(c.salary.max))
        && c.location != [] && c.experience != "")
  {
  }

  /** The region handed to the search is "" or one of the eight region names. */
  lemma FormattedLocationIsRegion(text: string, seg: string -> seq<string>)
    ensures var f := FormatSearchConditions(ParseOf(text, seg));
      f.location == "" || exists k :: 0 <= k < |LocationTable| && LocationTable[k].0 == f.location
  {
    var hits := TableHits(LocationTable, Lower(text));
    assert ParseOf(text, seg).location == hits;
    TableHitsMembers(LocationTable, Lower(text));
    if hits != [] {
      assert hits[0] in hits;
    }
  }
}
