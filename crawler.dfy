/**
 * The template job generator: it picks a job category for the search keyword
 * and fills `limit` job records from that category's lists. Categories are
 * tried in table order: first the one named exactly like the lowered keyword,
 * then the first one that matches in part, and then a generic template built
 * from the keyword.
 *
 * random.choice is a choice of any element of the list. The logo colour (a
 * hash of the company) is a choice of any colour of the palette. The clock
 * reading in the id and the creation time are parameters.
 */
module Crawler {
  import opened Wrappers
  import opened Text
  import opened UrlQuote

  /** The lists one category draws its jobs from. */
  datatype Category = Category(titles: seq<string>, companies: seq<string>, salaries: seq<string>,
                               locations: seq<string>, descriptions: seq<string>)

  /** Every list has something to choose from. */
  predicate Complete(c: Category) {
    c.titles != [] && c.companies != [] && c.salaries != [] && c.locations != [] && c.descriptions != []
  }

  // ------------------------------------------------------------ job_database

  /** The "產品經理" entry. */
  const ProductManagement := Category(
    ["產品經理", "資深產品經理", "產品總監", "產品企劃專員", "產品營運經理", "數位產品經理", "產品策略經理", "產品開發經理"],
    ["科技新創公司", "AI科技公司", "電商平台", "金融科技公司", "軟體開發公司", "數位行銷公司", "遊戲開發公司", "雲端服務商"],
    ["60,000-90,000", "80,000-120,000", "100,000-150,000", "120,000-180,000", "面議", "年薪 150-250萬",
     "年薪 200-350萬"],
    ["台北市", "新北市", "桃園市", "新竹市", "台中市", "遠端工作"],
    ["負責產品策略規劃與執行，與工程團隊協作開發創新產品", "分析市場趨勢，制定產品發展方向，提升用戶體驗與滿意度", "跨部門溝通協調，推動產品從概念到上市的完整開發流程",
     "數據驅動產品決策，持續優化產品功能與商業模式", "管理產品生命週期，確保產品目標與公司策略一致"])

  /** The "軟體工程師" entry. */
  const SoftwareEngineering := Category(
    ["軟體工程師", "前端工程師", "後端工程師", "全端工程師", "資深軟體工程師", "Python工程師", "Java工程師", "JavaScript工程師"],
    ["軟體開發公司", "科技新創", "系統整合商", "遊戲公司", "雲端服務商", "AI科技公司", "金融科技", "電商平台"],
    ["50,000-80,000", "70,000-110,000", "90,000-140,000", "110,000-160,000", "面議", "年薪 120-280萬",
     "年薪 150-350萬"],
    ["台北市", "新北市", "桃園市", "新竹市", "台中市", "遠端工作"],
    ["參與系統架構設計，開發高效能、可擴展的應用程式", "使用現代技術棧進行開發，重視程式碼品質與系統效能", "與產品團隊密切合作，實現創新功能與優質用戶體驗",
     "負責系統維護與優化，確保服務穩定性與可靠性", "參與技術選型與架構決策，推動技術創新與團隊成長"])

  /** The "設計師" entry. */
  const Design := Category(
    ["UI設計師", "UX設計師", "視覺設計師", "產品設計師", "網頁設計師", "平面設計師", "品牌設計師", "互動設計師"],
    ["設計公司", "廣告代理商", "品牌顧問公司", "電商平台", "媒體公司", "科技公司", "遊戲公司", "新創企業"],
    ["45,000-70,000", "60,000-95,000", "75,000-120,000", "90,000-140,000", "面議", "年薪 80-200萬",
     "年薪 120-250萬"],
    ["台北市", "新北市", "桃園市", "新竹市", "台中市", "遠端工作"],
    ["設計直觀易用的使用者介面，提升產品的視覺效果與互動體驗", "進行使用者研究與測試，設計符合用戶需求的產品介面", "與產品經理和工程師協作，確保設計理念完美實現",
     "建立設計系統與規範，維持品牌視覺的一致性", "關注設計趨勢與技術發展，持續提升設計專業能力"])

  /** The "數據分析師" entry. */
  const DataAnalysis := Category(
    ["數據分析師", "商業分析師", "資料科學家", "市場分析師", "營運分析師", "財務分析師", "數據科學家", "BI分析師"],
    ["顧問公司", "金融機構", "電商平台", "科技公司", "市場研究公司", "新創企業", "製造業", "零售業"],
    ["55,000-85,000", "70,000-110,000", "90,000-140,000", "110,000-160,000", "面議", "年薪 120-250萬",
     "年薪 150-300萬"],
    ["台北市", "新北市", "桃園市", "新竹市", "台中市", "遠端工作"],
    ["分析業務數據，提供深入洞察和決策建議", "建立數據模型和儀表板，預測市場趨勢和用戶行為", "製作數據報告，協助管理層制定策略方向", "設計實驗與A/B測試，評估產品功能效果",
     "跨部門合作，推動數據驅動的商業決策"])

  /** The "業務" entry. */
  const Sales := Category(
    ["業務代表", "業務經理", "銷售專員", "客戶經理", "商務開發", "大客戶經理", "通路業務", "海外業務"],
    ["科技公司", "製造業", "服務業", "貿易公司", "金融機構", "保險公司", "房地產", "軟體公司"],
    ["35,000-60,000", "50,000-80,000", "70,000-120,000", "底薪+獎金", "無上限", "年薪 80-300萬",
     "年薪 120-500萬"],
    ["台北市", "新北市", "桃園市", "新竹市", "台中市", "高雄市"],
    ["開發新客戶，維護既有客戶關係，達成銷售目標", "了解客戶需求，提供專業的產品解決方案", "建立長期合作關係，創造雙贏的商業價值", "參與商務談判，協助合約簽署與執行",
     "分析市場競爭情況，制定有效的銷售策略"])

  /** The "會計" entry. */
  const Accounting := Category(
    ["會計師", "財務專員", "稽核員", "成本會計", "財務分析師", "會計主管", "財務經理", "稅務專員"],
    ["會計事務所", "金融機構", "製造業", "上市公司", "貿易公司", "服務業", "建設公司", "投資公司"],
    ["38,000-58,000", "50,000-75,000", "65,000-100,000", "80,000-120,000", "面議", "年薪 60-150萬",
     "年薪 100-200萬"],
    ["台北市", "新北市", "桃園市", "新竹市", "台中市", "高雄市"],
    ["處理日常會計作業，編製財務報表和稅務申報", "進行財務分析，協助管理層制定財務決策", "確保財務作業符合法規，維護公司財務健全", "成本控制與預算編製，提升營運效率",
     "參與投資評估與財務規劃，支援業務發展"])

  /** The "人資" entry. */
  const HumanResources := Category(
    ["人資專員", "招募專員", "薪酬福利專員", "教育訓練專員", "人資經理", "組織發展專員", "績效管理專員", "勞資關係專員"],
    ["各行各業", "人力資源公司", "獵頭公司", "大型企業", "跨國公司", "製造業", "服務業", "科技公司"],
    ["40,000-65,000", "55,000-80,000", "70,000-105,000", "85,000-130,000", "面議", "年薪 70-180萬",
     "年薪 100-250萬"],
    ["台北市", "新北市", "桃園市", "新竹市", "台中市", "高雄市"],
    ["負責人才招募，建立有效的人力資源管理制度", "規劃員工訓練發展，提升組織整體競爭力", "處理勞資關係，確保企業人力資源政策執行", "設計薪酬福利制度，提升員工滿意度與留任率",
     "推動組織變革與文化建設，打造優質工作環境"])

  /** The "行銷" entry. */
  const Marketing := Category(
    ["行銷專員", "數位行銷", "品牌行銷", "內容行銷", "成長行銷", "行銷經理", "社群經營", "廣告投放專員"],
    ["行銷公司", "品牌企業", "媒體公司", "廣告代理商", "電商平台", "新創企業", "零售業", "服務業"],
    ["42,000-68,000", "58,000-90,000", "75,000-120,000", "90,000-140,000", "面議", "年薪 80-200萬",
     "年薪 120-250萬"],
    ["台北市", "新北市", "桃園市", "新竹市", "台中市", "遠端工作"],
    ["規劃執行行銷活動，提升品牌知名度和市場佔有率", "管理社群媒體和數位廣告，優化行銷投資報酬率", "分析市場數據和消費者行為，制定精準的行銷策略",
     "創作優質內容，建立品牌形象與用戶連結", "跨部門合作，推動整合行銷傳播策略"])

  /** The "營運" entry. */
  const Operations := Category(
    ["營運專員", "營運經理", "業務營運", "平台營運", "電商營運", "供應鏈管理", "物流營運", "客戶成功經理"],
    ["電商平台", "零售連鎖", "物流公司", "服務業", "新創企業", "製造業", "餐飲業", "金融業"],
    ["40,000-65,000", "55,000-85,000", "70,000-110,000", "85,000-130,000", "面議", "年薪 70-180萬",
     "年薪 100-220萬"],
    ["台北市", "新北市", "桃園市", "新竹市", "台中市", "高雄市"],
    ["優化營運流程，提升營運效率和客戶滿意度", "監控關鍵指標，制定改善策略和執行計畫", "跨部門協調，確保業務目標順利達成", "管理供應商關係，確保服務品質與成本控制",
     "推動數位轉型，提升營運自動化程度"])

  const JobDatabase: seq<(string, Category)> := [
    ("產品經理", ProductManagement),
    ("軟體工程師", SoftwareEngineering),
    ("設計師", Design),
    ("數據分析師", DataAnalysis),
    ("業務", Sales),
    ("會計", Accounting),
    ("人資", HumanResources),
    ("行銷", Marketing),
    ("營運", Operations)
  ]


  /** Every category of the table can be drawn from. */
  lemma DatabaseComplete()
    ensures forall i :: 0 <= i < |JobDatabase| ==> Complete(JobDatabase[i].1)
  {
  }

  /** The template used when no category matches. */
  function GenericCategory(keyword: string): (c: Category)
    ensures Complete(c)
    ensures forall i :: 0 <= i < |c.titles| ==> Contains(c.titles[i], keyword)
  {
    var titles := [keyword + "專員", keyword + "經理", "資深" + keyword, keyword + "主管", keyword + "顧問"];
    assert OccursAt(titles[0], keyword, 0) && OccursAt(titles[1], keyword, 0) && OccursAt(titles[2], keyword, 2)
      && OccursAt(titles[3], keyword, 0) && OccursAt(titles[4], keyword, 0);
    Category(titles,
      ["成長企業", "專業機構", "領導品牌", "創新公司", "優質團隊"],
      ["35,000-60,000", "50,000-80,000", "65,000-100,000", "面議", "具競爭力薪資"],
      ["台北市", "新北市", "新竹市", "台中市", "高雄市"],
      ["負責" + keyword + "相關業務，歡迎有經驗或有興趣學習的人才加入"])
  }

  // ------------------------------------------------------- category matching

  /** `keyword_lower in title.lower()` for some title. */
  predicate InSomeTitle(titles: seq<string>, kw: string) {
    exists t :: 0 <= t < |titles| && Contains(Lower(titles[t]), kw)
  }

  /** `title.lower() in keyword_lower` for some title. */
  predicate SomeTitleIn(titles: seq<string>, kw: string) {
    exists t :: 0 <= t < |titles| && Contains(kw, Lower(titles[t]))
  }

  /** The partial-match test between a category and the lowered keyword. */
  predicate PartialMatch(name: string, data: Category, kw: string) {
    Contains(kw, name) || Contains(name, kw) || InSomeTitle(data.titles, kw) || SomeTitleIn(data.titles, kw)
  }

  /** The first category of the table named kw. */
  function ExactCategory(db: seq<(string, Category)>, kw: string): (r: Option<nat>)
    ensures r.None? <==> forall i :: 0 <= i < |db| ==> db[i].0 != kw
    ensures r.Some? ==> r.value < |db| && db[r.value].0 == kw && forall i :: 0 <= i < r.value ==> db[i].0 != kw
    decreases |db|
  {
    if db == [] then None
    else if db[0].0 == kw then Some(0)
    else
      var r := ExactCategory(db[1..], kw);
      assert forall i :: 1 <= i < |db| ==> db[i] == db[1..][i - 1];
      if r.None? then None else Some(r.value + 1)
  }

  /** The first category of the table that matches kw in part. */
  function PartialCategory(db: seq<(string, Category)>, kw: string): (r: Option<nat>)
    ensures r.None? <==> forall i :: 0 <= i < |db| ==> !PartialMatch(db[i].0, db[i].1, kw)
    ensures r.Some? ==> r.value < |db| && PartialMatch(db[r.value].0, db[r.value].1, kw)
                          && forall i :: 0 <= i < r.value ==> !PartialMatch(db[i].0, db[i].1, kw)
    decreases |db|
  {
    if db == [] then None
    else if PartialMatch(db[0].0, db[0].1, kw) then Some(0)
    else
      var r := PartialCategory(db[1..], kw);
      assert forall i :: 1 <= i < |db| ==> db[i] == db[1..][i - 1];
      if r.None? then None else Some(r.value + 1)
  }

  /** The category the jobs for this keyword are drawn from. */
  function MatchedCategory(keyword: string): (c: Category)
    ensures Complete(c)
  {
    var kw := Lower(keyword);
    DatabaseComplete();
    match ExactCategory(JobDatabase, kw)
    case Some(i) => JobDatabase[i].1
    case None =>
      match PartialCategory(JobDatabase, kw)
      case Some(i) => JobDatabase[i].1
      case None => GenericCategory(keyword)
  }

  /** A category named like the lowered keyword is the one chosen (the table's names differ). */
  lemma ExactMatchChosen(keyword: string, i: nat)
    requires i < |JobDatabase| && JobDatabase[i].0 == Lower(keyword)
    ensures MatchedCategory(keyword) == JobDatabase[i].1
  {
    DatabaseNamesDistinct();
    ExactUnique(JobDatabase, Lower(keyword), i);
  }

  /** No two categories of the table share a name. */
  lemma DatabaseNamesDistinct()
    ensures NoDup(Names(JobDatabase))
  {
  }

  /** In a table without repeated names, the entry of that name is the one found. */
  lemma ExactUnique(db: seq<(string, Category)>, kw: string, i: nat)
    requires NoDup(Names(db)) && i < |db| && db[i].0 == kw
    ensures ExactCategory(db, kw) == Some(i)
  {
    var r := ExactCategory(db, kw);
    assert r.Some? && Names(db)[r.value] == Names(db)[i];
  }

  /** Without a category of that name, the first category that matches in part is chosen. */
  lemma PartialMatchChosen(keyword: string, i: nat)
    requires forall j :: 0 <= j < |JobDatabase| ==> JobDatabase[j].0 != Lower(keyword)
    requires i < |JobDatabase| && PartialMatch(JobDatabase[i].0, JobDatabase[i].1, Lower(keyword))
    requires forall j :: 0 <= j < i ==> !PartialMatch(JobDatabase[j].0, JobDatabase[j].1, Lower(keyword))
    ensures MatchedCategory(keyword) == JobDatabase[i].1
  {
    PartialFirst(JobDatabase, Lower(keyword), i);
  }

  /** The first entry of a table that matches in part is the one found. */
  lemma PartialFirst(db: seq<(string, Category)>, kw: string, i: nat)
    requires i < |db| && PartialMatch(db[i].0, db[i].1, kw)
    requires forall j :: 0 <= j < i ==> !PartialMatch(db[j].0, db[j].1, kw)
    ensures PartialCategory(db, kw) == Some(i)
  {
    var r := PartialCategory(db, kw);
    assert r.Some?;
    assert !(r.value < i) && !(i < r.value);
  }

  /** When no category matches at all, the generic template is used. */
  lemma GenericChosen(keyword: string)
    requires forall j :: 0 <= j < |JobDatabase| ==> JobDatabase[j].0 != Lower(keyword)
    requires forall j :: 0 <= j < |JobDatabase| ==> !PartialMatch(JobDatabase[j].0, JobDatabase[j].1, Lower(keyword))
    ensures MatchedCategory(keyword) == GenericCategory(keyword)
  {
  }

  /** The names of a table, in order. */
  function Names(db: seq<(string, Category)>): (r: seq<string>)
    ensures |r| == |db| && forall i :: 0 <= i < |db| ==> r[i] == db[i].0
  {
    seq(|db|, i requires 0 <= i < |db| => db[i].0)
  }

  /** The product-manager keyword picks its own category. */
  lemma ProductManagerKeyword()
    ensures MatchedCategory("產品經理") == ProductManagement
  {
    assert Lower("產品經理") == "產品經理";
    ExactMatchChosen("產品經理", 0);
  }

  /** A category fails the partial test when no first character of one side occurs in the other. */
  lemma NoPartialMatch(name: string, data: Category, kw: string)
    requires kw != [] && name != [] && kw[0] !in name && name[0] !in kw
    requires forall t :: 0 <= t < |data.titles| ==>
      data.titles[t] != [] && kw[0] !in Lower(data.titles[t]) && Lower(data.titles[t])[0] !in kw
    ensures !PartialMatch(name, data, kw)
  {
    NotContainsWithoutFirst(kw, name);
    NotContainsWithoutFirst(name, kw);
    forall t | 0 <= t < |data.titles| ensures !Contains(Lower(data.titles[t]), kw) && !Contains(kw, Lower(data.titles[t])) {
      NotContainsWithoutFirst(Lower(data.titles[t]), kw);
      NotContainsWithoutFirst(kw, Lower(data.titles[t]));
    }
  }

  lemma FinancialAnalystLower()
    ensures Lower("財務分析師") == "財務分析師"
  {
  }

  lemma FinancialAnalystNoName()
    ensures forall j :: 0 <= j < |JobDatabase| ==> JobDatabase[j].0 != "財務分析師"
  {
  }

  lemma FinancialAnalystIsDataTitle()
    ensures PartialMatch(JobDatabase[3].0, JobDatabase[3].1, "財務分析師")
  {
    assert OccursAt(Lower(DataAnalysis.titles[5]), "財務分析師", 0);
  }

  lemma FinancialAnalystNotProduct()
    ensures !PartialMatch(JobDatabase[0].0, JobDatabase[0].1, "財務分析師")
  {
    NoPartialMatch("產品經理", ProductManagement, "財務分析師");
  }

  lemma FinancialAnalystNotSoftware()
    ensures !PartialMatch(JobDatabase[1].0, JobDatabase[1].1, "財務分析師")
  {
    NoPartialMatch("軟體工程師", SoftwareEngineering, "財務分析師");
  }

  lemma FinancialAnalystNotDesign()
    ensures !PartialMatch(JobDatabase[2].0, JobDatabase[2].1, "財務分析師")
  {
    NoPartialMatch("設計師", Design, "財務分析師");
  }

  /**
   * A title listed under two categories selects the earlier one: "財務分析師" is
   * a title of both the data-analyst and the accounting entries.
   */
  lemma FinancialAnalystKeyword()
    ensures MatchedCategory("財務分析師") == DataAnalysis
  {
    var kw := "財務分析師";
    FinancialAnalystLower();
    FinancialAnalystIsDataTitle();
    FinancialAnalystNoName();
    FinancialAnalystNotProduct();
    FinancialAnalystNotSoftware();
    FinancialAnalystNotDesign();
    PartialFirst(JobDatabase, kw, 3);
  }

  /** The exact-match loop over a table. */
  method FindExact(db: seq<(string, Category)>, kw: string) returns (r: Option<nat>)
    ensures r == ExactCategory(db, kw)
  {
    r := None;
    for k := 0 to |db|
      invariant r.None?
      invariant forall j :: 0 <= j < k ==> db[j].0 != kw
    {
      if kw == db[k].0 {
        r := Some(k);
        assert ExactCategory(db, kw) == Some(k);
        break;
      }
    }
  }

  /** The partial-match loop over a table. */
  method FindPartial(db: seq<(string, Category)>, kw: string) returns (r: Option<nat>)
    ensures r == PartialCategory(db, kw)
  {
    r := None;
    for k := 0 to |db|
      invariant r.None?
      invariant forall j :: 0 <= j < k ==> !PartialMatch(db[j].0, db[j].1, kw)
    {
      if PartialMatch(db[k].0, db[k].1, kw) {
        r := Some(k);
        assert PartialCategory(db, kw) == Some(k);
        break;
      }
    }
  }

  /** The category search of generate_jobs_by_keyword: exact match, partial match, template. */
  method MatchCategory(keyword: string) returns (c: Category)
    ensures c == MatchedCategory(keyword)
  {
    var kw := Lower(keyword);
    var exact := FindExact(JobDatabase, kw);
    if exact.Some? {
      return JobDatabase[exact.value].1;
    }
    var partial := FindPartial(JobDatabase, kw);
    if partial.Some? {
      return JobDatabase[partial.value].1;
    }
    c := GenericCategory(keyword);
  }

  // -------------------------------------------------------------- generation

  const Platforms: seq<string> := ["104人力銀行", "CakeResume", "Yourator"]

  /** The logo colour palette. */
  const Colors: seq<string> := ["4285F4", "EA4335", "FBBC04", "34A853", "FF6D01", "9C27B0", "795548", "607D8B"]

  const Requirements: seq<string> := ["相關工作經驗", "良好溝通能力", "團隊合作精神", "學習能力強"]

  /** The search page of each platform, before the quoted keyword. */
  function SearchPrefix(platform: string): (r: string)
    ensures |r| > 8 && r[..8] == "https://" && r[|r| - 1] == '='
  {
    var host := if platform == "104人力銀行" then "www.104.com.tw/jobs/search/?keyword"
      else if platform == "CakeResume" then "www.cakeresume.com/jobs?q"
      else "www.yourator.co/jobs?q";
    var r := "https://" + host + "=";
    assert r[..8] == "https://";
    r
  }

  /** The three platforms search on three different pages. */
  lemma SearchPrefixesDistinct()
    ensures forall i, j :: 0 <= i < j < |Platforms| ==> SearchPrefix(Platforms[i]) != SearchPrefix(Platforms[j])
  {
    var p0, p1, p2 := SearchPrefix(Platforms[0]), SearchPrefix(Platforms[1]), SearchPrefix(Platforms[2]);
    assert p0[12] == '1' && p1[12] == 'c' && p2[12] == 'y';
  }

  /** The link of a generated job: the platform's search page for the quoted keyword. */
  function SearchUrl(platform: string, keyword: string): (url: string)
    ensures |SearchPrefix(platform)| <= |url| && url[..|SearchPrefix(platform)|] == SearchPrefix(platform)
    ensures Unquote(url[|SearchPrefix(platform)|..]) == Utf8(keyword)
  {
    var p := SearchPrefix(platform);
    var url := p + Quote(keyword);
    assert url[|p|..] == Quote(keyword);
    UnquoteQuote(keyword);
    url
  }

  /** The placeholder logo: the colour and the company's first character, or "C" for no company. */
  function LogoUrl(color: string, company: string): (r: string)
    ensures |r| > |LogoPrefix| + |color| && r[..|LogoPrefix|] == LogoPrefix && r[|LogoPrefix|..|LogoPrefix| + |color|] == color
    ensures r[|r| - 1] == if company != "" then company[0] else 'C'
  {
    var r := LogoPrefix + color + "/FFFFFF?text=" + (if company != "" then [company[0]] else "C");
    assert r[..|LogoPrefix|] == LogoPrefix;
    assert r[|LogoPrefix|..|LogoPrefix| + |color|] == color;
    r
  }

  const LogoPrefix := "https://via.placeholder.com/80x80/"

  /** The id of job i generated at the given second. */
  function JobId(seconds: nat, i: nat): (r: string)
    ensures |r| > 9 && r[..9] == "zero_dep_"
  {
    var r := "zero_dep_" + NatToString(seconds) + "_" + NatToString(i);
    assert r[..9] == "zero_dep_";
    r
  }

  /** Jobs generated in the same second have different ids. */
  lemma JobIdInjective(seconds: nat, i: nat, j: nat)
    requires JobId(seconds, i) == JobId(seconds, j)
    ensures i == j
  {
    var p := "zero_dep_" + NatToString(seconds) + "_";
    assert JobId(seconds, i) == p + NatToString(i) && JobId(seconds, j) == p + NatToString(j);
    assert NatToString(i) == JobId(seconds, i)[|p|..];
  }

  /** A job record, with the keys shared by the template generator and the sample crawler. */
  datatype JobRecord = JobRecord(id: string, title: string, company: string, salary: string,
                                       location: string, url: string, platform: string, logoUrl: string,
                                       description: string, requirements: seq<string>, tags: seq<string>,
                                       createdAt: string)

  /** What job i of a generation from category c looks like. */
  /** Job j of the list is job j of a generation, for every j. */
  ghost predicate AllGenerated(jobs: seq<JobRecord>, keyword: string, location: string, c: Category, seconds: nat, now: string) {
    forall j :: 0 <= j < |jobs| ==> Generated(jobs[j], j, keyword, location, c, seconds, now)
  }

  lemma AllGeneratedAppend(jobs: seq<JobRecord>, job: JobRecord, keyword: string, location: string, c: Category,
                           seconds: nat, now: string)
    requires AllGenerated(jobs, keyword, location, c, seconds, now)
    requires Generated(job, |jobs|, keyword, location, c, seconds, now)
    ensures AllGenerated(jobs + [job], keyword, location, c, seconds, now)
  {
    var all := jobs + [job];
    forall j | 0 <= j < |all| ensures Generated(all[j], j, keyword, location, c, seconds, now) {
      if j < |jobs| {
        assert all[j] == jobs[j];
      }
    }
  }

  ghost predicate Generated(job: JobRecord, i: nat, keyword: string, location: string, c: Category,
                            seconds: nat, now: string) {
    job.title in c.titles && job.company in c.companies && job.salary in c.salaries
    && job.description in c.descriptions
    && job.platform == Platforms[i % 3]
    && (if location != "" then job.location == location else job.location in c.locations)
    && job.url == SearchUrl(job.platform, keyword)
    && (exists color :: color in Colors && job.logoUrl == LogoUrl(color, job.company))
    && job.id == JobId(seconds, i)
    && job.requirements == Requirements
    && job.tags == [Lower(keyword), "零依賴生成"]
    && job.createdAt == now
  }

  /**
   * generate_jobs_by_keyword: `limit` jobs (none for a limit below one), job i
   * drawn from the matched category and listed on platform i mod 3.
   */
  method GenerateJobsByKeyword(keyword: string, location: string, limit: int, seconds: nat, now: string)
    returns (jobs: seq<JobRecord>)
    ensures |jobs| == if limit > 0 then limit else 0
    ensures forall i :: 0 <= i < |jobs| ==> Generated(jobs[i], i, keyword, location, MatchedCategory(keyword), seconds, now)
  {
    var c := MatchCategory(keyword);
    jobs := GenerateFrom(c, keyword, location, limit, seconds, now);
  }

  /** The generation loop over the chosen category. */
  method GenerateFrom(c: Category, keyword: string, location: string, limit: int, seconds: nat, now: string)
    returns (jobs: seq<JobRecord>)
    requires Complete(c)
    ensures |jobs| == if limit > 0 then limit else 0
    ensures forall i :: 0 <= i < |jobs| ==> Generated(jobs[i], i, keyword, location, c, seconds, now)
  {
    jobs := [];
    var i := 0;
    while i < limit
      invariant |jobs| == i && (i <= limit || i == 0)
      invariant AllGenerated(jobs, keyword, location, c, seconds, now)
    {
      var job := GenerateJob(c, keyword, location, i, seconds, now);
      AllGeneratedAppend(jobs, job, keyword, location, c, seconds, now);
      jobs := jobs + [job];
      i := i + 1;
    }
  }

  /** One pass of the generation loop: job i, its choices drawn from c. */
  method GenerateJob(c: Category, keyword: string, location: string, i: nat, seconds: nat, now: string)
    returns (job: JobRecord)
    requires Complete(c)
    ensures Generated(job, i, keyword, location, c, seconds, now)
  {
    assert c.titles[0] in c.titles && c.companies[0] in c.companies && c.salaries[0] in c.salaries
      && c.descriptions[0] in c.descriptions && c.locations[0] in c.locations && Colors[0] in Colors;
    var title :| title in c.titles;
    var company :| company in c.companies;
    var salary :| salary in c.salaries;
    var description :| description in c.descriptions;
    var platform := Platforms[i % 3];
    var jobLocation := location;
    if location == "" {
      jobLocation :| jobLocation in c.locations;
    }
    var url := SearchUrl(platform, keyword);
    var color :| color in Colors;
    job := JobRecord(JobId(seconds, i), title, company, salary, jobLocation, url, platform,
                    LogoUrl(color, company), description, Requirements, [Lower(keyword), "零依賴生成"], now);
  }

  /** Different jobs of one generation have different ids. */
  lemma GeneratedIdsDistinct(jobs: seq<JobRecord>, keyword: string, location: string, c: Category,
                             seconds: nat, now: string)
    requires forall i :: 0 <= i < |jobs| ==> Generated(jobs[i], i, keyword, location, c, seconds, now)
    ensures forall i, j :: 0 <= i < j < |jobs| ==> jobs[i].id != jobs[j].id
  {
    forall i, j | 0 <= i < j < |jobs| ensures jobs[i].id != jobs[j].id {
      if jobs[i].id == jobs[j].id {
        JobIdInjective(seconds, i, j);
      }
    }
  }

  /**
   * search_all_platforms: three jobs per platform and limit; the location and
   * salary bounds other than the location are not used.
   */
  method SearchAllPlatforms(keyword: string, location: string, salaryMin: string, salaryMax: string,
                            limitPerPlatform: int, seconds: nat, now: string)
    returns (jobs: seq<JobRecord>)
    ensures |jobs| == if limitPerPlatform > 0 then 3 * limitPerPlatform else 0
    ensures forall i :: 0 <= i < |jobs| ==> Generated(jobs[i], i, keyword, location, MatchedCategory(keyword), seconds, now)
  {
    jobs := GenerateJobsByKeyword(keyword, location, limitPerPlatform * 3, seconds, now);
  }
}
