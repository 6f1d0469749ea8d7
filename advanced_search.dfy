/**
 * AdvancedJobSearch: parses a free-text search query into typed conditions,
 * scores jobs against them, filters and ranks the jobs by that score, and
 * suggests related searches from the skills the results mention.
 */
module AdvancedSearch {
  import opened Wrappers
  import opened Text
  import opened Patterns
  import opened Sorting
  import opened Dicts
  import ConditionGuide

  // ---------------------------------------------------------------- tables

  // The skill dictionary, category by category; the parser and the suggestions
  // walk the categories in this order and each category's skills in order,
  // which is the order of SkillKeywords.
  const ProgrammingSkills: seq<string> :=
    ["python", "java", "javascript", "react", "vue", "angular", "node.js", "php", "c++", "c#", "go", "rust"]
  const DataSkills: seq<string> :=
    ["sql", "mysql", "postgresql", "mongodb", "redis", "elasticsearch", "pandas", "numpy", "tensorflow", "pytorch"]
  const DesignSkills: seq<string> :=
    ["photoshop", "illustrator", "figma", "sketch", "ui", "ux", "wireframe", "prototype"]
  const MarketingSkills: seq<string> :=
    ["google analytics", "facebook ads", "seo", "sem", "content marketing", "social media"]
  const ManagementSkills: seq<string> :=
    ["project management", "agile", "scrum", "leadership", "team management"]
  const SkillKeywords: seq<string> :=
    ProgrammingSkills + DataSkills + DesignSkills + MarketingSkills + ManagementSkills

  const LocationKeywords: seq<string> :=
    ["台北", "新北", "桃園", "台中", "台南", "高雄", "新竹", "遠端", "remote", "在家工作"]
  const CompanyTypeKeywords: seq<string> :=
    ["外商", "新創", "上市", "傳統產業", "科技業", "金融業", "製造業"]

  const EntryWords: seq<string> := ["新鮮人", "應屆", "無經驗"]
  const SeniorWords: seq<string> := ["資深", "senior", "主管", "經理"]
  const MidWords: seq<string> := ["中級", "2-5年", "有經驗"]
  const RemoteWords: seq<string> := ["遠端", "remote", "在家", "居家"]
  const OnsiteWords: seq<string> := ["現場", "辦公室", "on-site"]
  const HybridWords: seq<string> := ["混合", "hybrid", "彈性"]

  /** Fixed suggestions: locations appended to the query, levels put before it. */
  const SuggestedLocations: seq<string> := ["台北", "新竹", "台中", "遠端工作"]
  const SuggestedLevels: seq<string> := ["新鮮人", "資深", "主管"]

  // ----------------------------------------------------------------- types

  datatype SalaryRange = SalaryRange(min: int, max: int)
  datatype Level = EntryLevel | SeniorLevel | MidLevel
  datatype WorkMode = Remote | Onsite | Hybrid

  /** The parsed query; None stands for the source's None values. */
  datatype Query = Query(
    originalQuery: string,
    mainKeywords: seq<string>,
    skills: seq<string>,
    salaryRange: Option<SalaryRange>,
    locations: seq<string>,
    companyTypes: seq<string>,
    experienceLevel: Option<Level>,
    workType: Option<WorkMode>)

  /** The job fields the search reads; a missing field reads as "". */
  datatype Job = Job(title: string, description: string, company: string, location: string, salary: string)

  /** A job copy carrying its relevance score. */
  datatype ScoredJob = ScoredJob(job: Job, relevanceScore: real)

  // ---------------------------------------------------------- word lookups

  /** The words of the list that occur in the text, in list order. */
  function Hits(words: seq<string>, text: string): (r: seq<string>)
    ensures |r| <= |words|
    ensures forall k :: 0 <= k < |r| ==> Contains(text, r[k])
    decreases |words|
  {
    if words == [] then []
    else
      var prev := Hits(words[..|words| - 1], text);
      if Contains(text, words[|words| - 1]) then prev + [words[|words| - 1]] else prev
  }

  /** A word is found iff it is in the list and occurs in the text. */
  lemma {:induction false} HitsMembers(words: seq<string>, text: string)
    ensures forall x :: x in Hits(words, text) <==> x in words && Contains(text, x)
    decreases |words|
  {
    if words != [] {
      var pre := words[..|words| - 1];
      HitsMembers(pre, text);
      assert words == pre + [words[|words| - 1]];
    }
  }

  /** A list without repeats gives found words without repeats. */
  lemma {:induction false} HitsDistinct(words: seq<string>, text: string)
    requires NoDup(words)
    ensures NoDup(Hits(words, text))
    decreases |words|
  {
    if words != [] {
      var pre := words[..|words| - 1];
      var w := words[|words| - 1];
      assert NoDup(pre) by {
        forall i, j | 0 <= i < j < |pre| ensures pre[i] != pre[j] {
          assert pre[i] == words[i] && pre[j] == words[j];
        }
      }
      HitsDistinct(pre, text);
      HitsMembers(pre, text);
      if Contains(text, w) {
        assert w !in pre by {
          forall i | 0 <= i < |pre| ensures pre[i] != w {
            assert pre[i] == words[i];
          }
        }
        var prev := Hits(pre, text);
        forall i, j | 0 <= i < j < |prev + [w]| ensures (prev + [w])[i] != (prev + [w])[j] {
          if j == |prev| {
            assert (prev + [w])[i] == prev[i] && prev[i] in prev;
          } else {
            assert (prev + [w])[i] == prev[i] && (prev + [w])[j] == prev[j];
          }
        }
      }
    }
  }

  lemma SkillGroupsDistinct()
    ensures NoDup(ProgrammingSkills) && NoDup(DataSkills) && NoDup(DesignSkills)
    ensures NoDup(MarketingSkills) && NoDup(ManagementSkills)
  {
  }

  lemma ProgrammingSkillsApart()
    ensures Disjoint(ProgrammingSkills, DataSkills) && Disjoint(ProgrammingSkills, DesignSkills)
    ensures Disjoint(ProgrammingSkills, MarketingSkills) && Disjoint(ProgrammingSkills, ManagementSkills)
  {
  }

  lemma OtherSkillsApart()
    ensures Disjoint(DataSkills, DesignSkills) && Disjoint(DataSkills, MarketingSkills)
    ensures Disjoint(DataSkills, ManagementSkills) && Disjoint(DesignSkills, MarketingSkills)
    ensures Disjoint(DesignSkills, ManagementSkills) && Disjoint(MarketingSkills, ManagementSkills)
  {
  }

  /** No skill is listed twice, in one category or across two. */
  lemma SkillKeywordsDistinct()
    ensures NoDup(SkillKeywords)
  {
    SkillGroupsDistinct();
    ProgrammingSkillsApart();
    OtherSkillsApart();
    var a := ProgrammingSkills;
    var ab := a + DataSkills;
    var abc := ab + DesignSkills;
    var abcd := abc + MarketingSkills;
    NoDupConcat(a, DataSkills);
    DisjointConcat(a, DataSkills, DesignSkills);
    NoDupConcat(ab, DesignSkills);
    DisjointConcat(a, DataSkills, MarketingSkills);
    DisjointConcat(ab, DesignSkills, MarketingSkills);
    NoDupConcat(abc, MarketingSkills);
    DisjointConcat(a, DataSkills, ManagementSkills);
    DisjointConcat(ab, DesignSkills, ManagementSkills);
    DisjointConcat(abc, MarketingSkills, ManagementSkills);
    NoDupConcat(abcd, ManagementSkills);
  }

  /**
   * The text with each word of the list, in turn, deleted everywhere: never longer than
   * the text, and the text itself when none of the (non-empty) words occurs.
   */
  function DeleteAll(text: string, words: seq<string>): (r: string)
    ensures (forall k :: 0 <= k < |words| ==> words[k] != []) ==> |r| <= |text|
    ensures (forall k :: 0 <= k < |words| ==> words[k] != [] && !Contains(text, words[k])) ==> r == text
    decreases |words|
  {
    if words == [] then text
    else Replace(DeleteAll(text, words[..|words| - 1]), words[|words| - 1], "")
  }

  // ------------------------------------------------------------------ salary

  /**
   * _normalize_salary: int(amount), times 1000 for a k or K unit and times 10000
   * for 萬; any other unit leaves the amount as it is.
   */
  function NormalizeAmount(amount: string, unit: string): (r: nat)
    requires IsDigits(amount)
    ensures unit == "k" || unit == "K" ==> r == DigitsValue(amount) * 1000
    ensures unit == "萬" ==> r == DigitsValue(amount) * 10000
    ensures unit !in ["k", "K", "萬"] ==> r == DigitsValue(amount)
  {
    var v := DigitsValue(amount);
    if unit == "k" || unit == "K" then v * 1000
    else if unit == "萬" then v * 10000
    else v
  }

  /**
   * The condition guide normalizes the same text differently: it agrees with
   * this normalization exactly when the unit is k, K or 萬, or the amount is 0,
   * or there is no 千 unit and the amount is at least 1000 (the guide reads a
   * smaller bare amount as 萬 or 千).
   */
  lemma NormalizeAmountAgainstGuide(amount: string, unit: string)
    requires IsDigits(amount)
    ensures ConditionGuide.NormalizeSalary(amount, unit) == Some(NormalizeAmount(amount, unit)) <==>
      unit == "k" || unit == "K" || unit == "萬" || DigitsValue(amount) == 0
      || (unit != "千" && DigitsValue(amount) >= 1000)
  {
  }

  /** The four groups of a salary-range match: two amounts, each with its unit. */
  predicate RangeGroups(m: Match) {
    |m.groups| == 4 && IsDigits(m.groups[0]) && IsDigits(m.groups[2])
  }

  lemma QueryRangeMatchesHaveGroups(s: string)
    ensures forall k :: 0 <= k < |FindAll(QueryRange, s, 0)| ==> RangeGroups(FindAll(QueryRange, s, 0)[k])
  {
    var ms := FindAll(QueryRange, s, 0);
    forall k | 0 <= k < |ms| ensures RangeGroups(ms[k]) {
      assert MatchAt(QueryRange, s, ms[k].start) == Some(ms[k]);
    }
  }

  /**
   * The salary range a match stands for: without units the two amounts as
   * written, and with the same unit on both ends their order is kept.
   */
  function RangeOf(m: Match): (r: SalaryRange)
    requires RangeGroups(m)
    ensures m.groups[1] == "" && m.groups[3] == "" ==> r == SalaryRange(DigitsValue(m.groups[0]), DigitsValue(m.groups[2]))
    ensures m.groups[1] == m.groups[3] ==> (r.min <= r.max <==> DigitsValue(m.groups[0]) <= DigitsValue(m.groups[2]))
  {
    SalaryRange(NormalizeAmount(m.groups[0], m.groups[1]), NormalizeAmount(m.groups[2], m.groups[3]))
  }

  /** Every match overwrites the range, so the last one found is what is kept. */
  function LastRange(ms: seq<Match>): (r: Option<SalaryRange>)
    requires forall k :: 0 <= k < |ms| ==> RangeGroups(ms[k])
    ensures r.None? <==> ms == []
  {
    if ms == [] then None else Some(RangeOf(ms[|ms| - 1]))
  }

  /** The text with the literal of each match, in turn, deleted wherever it occurs; never longer than the text. */
  function SalaryDeleted(text: string, ms: seq<Match>): (r: string)
    requires forall k :: 0 <= k < |ms| ==> RangeGroups(ms[k])
    ensures |r| <= |text|
    ensures ms == [] ==> r == text
    decreases |ms|
  {
    if ms == [] then text
    else
      var m := ms[|ms| - 1];
      assert RangeGroups(m);
      DeleteMatches(SalaryDeleted(text, ms[..|ms| - 1]), 0,
        RangeLiteral(m.groups[0], m.groups[1], m.groups[2], m.groups[3]))
  }

  /** Deleting a location or company type that occurs once, with no overlap, joins the text around it. */
  lemma DeleteAllCutsOut(a: string, w: string, b: string)
    requires w != [] && BorderFree(w) && !Contains(a, w) && !Contains(b, w)
    ensures DeleteAll(a + w + b, [w]) == a + b
  {
    DeleteAllAround(a, w, b);
    assert DeleteAll(a, [w]) == a && DeleteAll(b, [w]) == b;
  }

  /** Each occurrence of a border-free word is deleted, and the text on either side is treated on its own. */
  lemma DeleteAllAround(a: string, w: string, b: string)
    requires w != [] && BorderFree(w)
    ensures DeleteAll(a + w + b, [w]) == DeleteAll(a, [w]) + DeleteAll(b, [w])
  {
    DeleteAllOne(a + w + b, w);
    DeleteAllOne(a, w);
    DeleteAllOne(b, w);
    ReplaceAround(a, w, b, "");
    JoinAroundNothing(DeleteAll(a + w + b, [w]), DeleteAll(a, [w]), DeleteAll(b, [w]));
  }

  lemma JoinAroundNothing(r: string, x: string, y: string)
    requires r == x + "" + y
    ensures r == x + y
  {
  }

  /** Deleting a list of one word replaces that word by nothing. */
  lemma DeleteAllOne(text: string, w: string)
    ensures DeleteAll(text, [w]) == Replace(text, w, "")
  {
    assert [w][..0] == [];
  }

  /**
   * A range literal low-unit, separator, high-unit that the text holds once, from i
   * to j, is cut out and the text on both sides is kept.
   */
  lemma SalaryDeletedCutsOut(text: string, m: Match, i: nat, j: nat)
    requires RangeGroups(m) && i < j <= |text|
    requires var d := RangeLiteral(m.groups[0], m.groups[1], m.groups[2], m.groups[3]);
      MatchLength(d, text, i) == j - i
      && (forall k :: 0 <= k < i ==> MatchLength(d, text, k) == 0)
      && (forall k :: j <= k <= |text| ==> MatchLength(d, text, k) == 0)
    ensures SalaryDeleted(text, [m]) == text[..i] + text[j..]
    ensures j - i == |m.groups[0]| + |m.groups[1]| + 1 + |m.groups[2]| + |m.groups[3]|
  {
    var d := RangeLiteral(m.groups[0], m.groups[1], m.groups[2], m.groups[3]);
    DeleteCutsOut(text, i, j, d);
    SalaryDeletedOne(text, m, text[..i] + text[j..]);
    RangeLiteralLength(text, i, m.groups[0], m.groups[1], m.groups[2], m.groups[3]);
  }

  /** Deleting one salary range removes that range's literal and nothing else. */
  lemma SalaryDeletedOne(text: string, m: Match, rest: string)
    requires RangeGroups(m)
    requires DeleteMatches(text, 0, RangeLiteral(m.groups[0], m.groups[1], m.groups[2], m.groups[3])) == rest
    ensures SalaryDeleted(text, [m]) == rest
  {
    assert [m][..0] == [];
  }

  /** A range literal matches its low part, one separator and its high part. */
  lemma RangeLiteralLength(s: string, i: nat, low: string, lowUnit: string, high: string, highUnit: string)
    requires i <= |s| && MatchLength(RangeLiteral(low, lowUnit, high, highUnit), s, i) > 0
    ensures MatchLength(RangeLiteral(low, lowUnit, high, highUnit), s, i) == |low| + |lowUnit| + 1 + |high| + |highUnit|
  {
  }

  // ------------------------------------------------------------ the parser

  /** The experience level: the entry words first, then the senior words, then the mid-level words. */
  function LevelOf(lower: string): (r: Option<Level>)
    ensures r == Some(EntryLevel) <==> AnyIn(EntryWords, lower)
    ensures r == Some(SeniorLevel) <==> !AnyIn(EntryWords, lower) && AnyIn(SeniorWords, lower)
    ensures r == Some(MidLevel) <==> !AnyIn(EntryWords, lower) && !AnyIn(SeniorWords, lower) && AnyIn(MidWords, lower)
    ensures r.None? <==> !AnyIn(EntryWords, lower) && !AnyIn(SeniorWords, lower) && !AnyIn(MidWords, lower)
  {
    if AnyIn(EntryWords, lower) then Some(EntryLevel)
    else if AnyIn(SeniorWords, lower) then Some(SeniorLevel)
    else if AnyIn(MidWords, lower) then Some(MidLevel)
    else None
  }

  /** The work type: the remote words first, then on-site, then hybrid. */
  function ModeOf(lower: string): (r: Option<WorkMode>)
    ensures r == Some(Remote) <==> AnyIn(RemoteWords, lower)
    ensures r == Some(Onsite) <==> !AnyIn(RemoteWords, lower) && AnyIn(OnsiteWords, lower)
    ensures r == Some(Hybrid) <==> !AnyIn(RemoteWords, lower) && !AnyIn(OnsiteWords, lower) && AnyIn(HybridWords, lower)
    ensures r.None? <==> !AnyIn(RemoteWords, lower) && !AnyIn(OnsiteWords, lower) && !AnyIn(HybridWords, lower)
  {
    if AnyIn(RemoteWords, lower) then Some(Remote)
    else if AnyIn(OnsiteWords, lower) then Some(Onsite)
    else if AnyIn(HybridWords, lower) then Some(Hybrid)
    else None
  }

  /** A main keyword: longer than one character, with no whitespace at either end. */
  predicate IsKeyword(w: string) {
    |w| > 1 && !IsSpace(w[0]) && !IsSpace(w[|w| - 1])
  }

  /** The stripped segments longer than one character, in order. */
  function KeptSegments(words: seq<string>): (r: seq<string>)
    ensures |r| <= |words|
    ensures forall k :: 0 <= k < |r| ==> IsKeyword(r[k])
    decreases |words|
  {
    if words == [] then []
    else
      var w := Strip(words[0]);
      var rest := KeptSegments(words[1..]);
      if |w| > 1 then [w] + rest else rest
  }

  /**
   * The main query once its whitespace is collapsed and 工程師 and 設計師 are
   * removed: never longer, with no whitespace at either end.
   */
  function Cleaned(main: string): (r: string)
    ensures |r| <= |main|
    ensures r != [] ==> !IsSpace(r[0]) && !IsSpace(r[|r| - 1])
  {
    Strip(Replace(Replace(CollapseSpaces(Strip(main)), "工程師", ""), "設計師", ""))
  }

  /** A word whose stripped form is longer than one character is kept, stripped. */
  lemma {:induction false} KeptSegmentsHas(words: seq<string>, k: nat)
    requires k < |words| && |Strip(words[k])| > 1
    ensures Strip(words[k]) in KeptSegments(words)
    decreases k
  {
    KeptSegmentsStep(words);
    if k > 0 {
      assert words[1..][k - 1] == words[k];
      KeptSegmentsHas(words[1..], k - 1);
    }
  }

  /** One step of KeptSegments: the first word's contribution, then the rest's. */
  lemma KeptSegmentsStep(words: seq<string>)
    requires words != []
    ensures KeptSegments(words) == (if |Strip(words[0])| > 1 then [Strip(words[0])] else []) + KeptSegments(words[1..])
  {
  }

  /** Every kept segment is the stripped form of one of the words. */
  lemma {:induction false} KeptSegmentsFrom(words: seq<string>, w: string) returns (k: nat)
    requires w in KeptSegments(words)
    ensures k < |words| && w == Strip(words[k]) && |w| > 1
    decreases |words|
  {
    if w == Strip(words[0]) && |w| > 1 {
      k := 0;
    } else {
      var j := KeptSegmentsFrom(words[1..], w);
      assert words[1..][j] == words[j + 1];
      k := j + 1;
    }
  }

  /** What a word contributes to KeptSegments: its stripped form, if longer than one character. */
  lemma KeptSegmentsMembers(words: seq<string>)
    ensures forall w :: w in KeptSegments(words) <==> exists k :: 0 <= k < |words| && w == Strip(words[k]) && |w| > 1
  {
    forall w ensures w in KeptSegments(words) <==> exists k :: 0 <= k < |words| && w == Strip(words[k]) && |w| > 1 {
      if w in KeptSegments(words) {
        var k := KeptSegmentsFrom(words, w);
      }
      if exists k :: 0 <= k < |words| && w == Strip(words[k]) && |w| > 1 {
        var k :| 0 <= k < |words| && w == Strip(words[k]) && |w| > 1;
        KeptSegmentsHas(words, k);
      }
    }
  }

  /** The segments are kept in order: keeping from a concatenation concatenates what is kept. */
  lemma {:induction false} KeptSegmentsConcat(a: seq<string>, b: seq<string>)
    ensures KeptSegments(a + b) == KeptSegments(a) + KeptSegments(b)
    decreases |a|
  {
    if a != [] {
      assert (a + b)[0] == a[0] && (a + b)[1..] == a[1..] + b;
      KeptSegmentsConcat(a[1..], b);
    } else {
      assert a + b == b;
    }
  }

  /** The two job-title words the cleaning removes have no overlapping occurrences. */
  lemma TitleWordsBorderFree()
    ensures BorderFree("工程師") && BorderFree("設計師")
    ensures !Contains("設計師", "工程師")
  {
    BorderFreeOfThree("工程師");
    BorderFreeOfThree("設計師");
    assert !OccursAt("設計師", "工程師", 0);
  }

  /** A three-character word whose first character occurs nowhere after it has no border. */
  lemma BorderFreeOfThree(pat: string)
    requires |pat| == 3 && pat[0] != pat[1] && pat[0] != pat[2]
    ensures BorderFree(pat)
  {
    forall j | 0 < j < |pat| ensures pat[..j] != pat[|pat| - j..] {
      assert pat[..j][0] == pat[0] && pat[|pat| - j..][0] == pat[|pat| - j];
    }
  }

  /** A clean text followed by a space, with neither title word: its title words are absent. */
  lemma NoTitleWordBeforeSpace(x: string)
    requires !Contains(x, "工程師") && !Contains(x, "設計師")
    ensures Replace(x + " ", "工程師", "") == x + " " && Replace(x + " ", "設計師", "") == x + " "
  {
    ContainsAcrossSpace(x, "", "工程師");
    ContainsAcrossSpace(x, "", "設計師");
    assert x + " " + "" == x + " ";
  }

  /** A text with no whitespace at either end keeps its non-empty core under a trailing space. */
  lemma StripTrailingSpace(x: string)
    requires x != [] && !IsSpace(x[0]) && !IsSpace(x[|x| - 1])
    ensures Strip(x + " ") == x
  {
    assert StripLeft(x + " ") == x + " ";
    StripRightSpaces(x, " ");
    assert StripRight(x) == x;
  }

  /** A clean text, a space and a word without whitespace is single-spaced with clean ends. */
  lemma SpacedPairClean(x: string, w: string)
    requires x != [] && !IsSpace(x[0]) && !IsSpace(x[|x| - 1]) && SingleSpaced(x)
    requires w != [] && forall j :: 0 <= j < |w| ==> !IsSpace(w[j])
    ensures var s := x + " " + w; SingleSpaced(s) && !IsSpace(s[0]) && !IsSpace(s[|s| - 1])
  {
    var s := x + " " + w;
    forall i | 0 <= i < |s| && IsSpace(s[i]) ensures s[i] == ' ' && (i + 1 < |s| ==> !IsSpace(s[i + 1])) {
      if i < |x| {
        assert s[i] == x[i];
        if i + 1 < |x| {
          assert s[i + 1] == x[i + 1];
        }
      } else if i == |x| {
        assert s[i + 1] == w[0];
      }
    }
    assert s[|s| - 1] == w[|w| - 1];
  }

  /** A clean text that holds neither 工程師 nor 設計師 is left as it is. */
  lemma CleanedKeepsClean(x: string)
    requires x != [] ==> !IsSpace(x[0]) && !IsSpace(x[|x| - 1])
    requires SingleSpaced(x)
    requires !Contains(x, "工程師") && !Contains(x, "設計師")
    ensures Cleaned(x) == x
  {
    StripTrimmed(x);
    CollapseSpacesFixpoint(x);
    StripTrimmed(x);
  }

  /** Of a clean text, the cleaning only removes the two title words and strips. */
  lemma CleanedOfClean(s: string)
    requires s != [] && !IsSpace(s[0]) && !IsSpace(s[|s| - 1]) && SingleSpaced(s)
    ensures Cleaned(s) == Strip(Replace(Replace(s, "工程師", ""), "設計師", ""))
  {
    StripTrimmed(s);
    CollapseSpacesFixpoint(s);
  }

  /** A title word at the end, after a space, of a text without it is deleted. */
  lemma WordAtEnd(x: string, w: string)
    requires w == "工程師" || w == "設計師"
    requires !Contains(x, w)
    ensures Replace(x + " " + w, w, "") == x + " "
  {
    TitleWordsBorderFree();
    ContainsAcrossSpace(x, "", w);
    assert x + " " + "" == x + " ";
    ReplaceAround(x + " ", w, "", "");
    assert x + " " + w + "" == x + " " + w;
    assert Replace("", w, "") == "";
  }

  /** The clean text followed by 工程師, after a space, loses the word and the space. */
  lemma CleanedDropsEngineer(x: string)
    requires x != [] && !IsSpace(x[0]) && !IsSpace(x[|x| - 1]) && SingleSpaced(x)
    requires !Contains(x, "工程師") && !Contains(x, "設計師")
    ensures Cleaned(x + " " + "工程師") == x
  {
    var s := x + " " + "工程師";
    SpacedPairClean(x, "工程師");
    CleanedOfClean(s);
    WordAtEnd(x, "工程師");
    NoTitleWordBeforeSpace(x);
    StripTrailingSpace(x);
    CleanedChain(s, x + " ", x + " ", x);
  }

  /** The clean text followed by 設計師, after a space, loses the word and the space. */
  lemma CleanedDropsDesigner(x: string)
    requires x != [] && !IsSpace(x[0]) && !IsSpace(x[|x| - 1]) && SingleSpaced(x)
    requires !Contains(x, "工程師") && !Contains(x, "設計師")
    ensures Cleaned(x + " " + "設計師") == x
  {
    var s := x + " " + "設計師";
    SpacedPairClean(x, "設計師");
    CleanedOfClean(s);
    TitleWordsBorderFree();
    ContainsAcrossSpace(x, "設計師", "工程師");
    ReplaceAbsent(s, "工程師", "");
    WordAtEnd(x, "設計師");
    StripTrailingSpace(x);
    CleanedChain(s, s, x + " ", x);
  }

  /** Cleaning a clean text: the two deletions, then the strip. */
  lemma CleanedChain(s: string, t: string, u: string, x: string)
    requires Cleaned(s) == Strip(Replace(Replace(s, "工程師", ""), "設計師", ""))
    requires Replace(s, "工程師", "") == t && Replace(t, "設計師", "") == u && Strip(u) == x
    ensures Cleaned(s) == x
  {
  }

  /**
   * parse_search_query. The salary ranges are found in the lowered query but
   * deleted from the query as typed; locations and company types are looked up
   * in the query as typed and skills in the lowered one. `seg` is the word
   * segmenter.
   */
  function ParseQueryOf(query: string, seg: string -> seq<string>): (q: Query)
    ensures q.originalQuery == Strip(query)
    ensures forall k :: 0 <= k < |q.mainKeywords| ==> IsKeyword(q.mainKeywords[k])
    ensures q.experienceLevel == Some(EntryLevel) <==> AnyIn(EntryWords, Lower(Strip(query)))
    ensures q.experienceLevel == Some(SeniorLevel) <==>
      !AnyIn(EntryWords, Lower(Strip(query))) && AnyIn(SeniorWords, Lower(Strip(query)))
    ensures q.experienceLevel == Some(MidLevel) <==>
      !AnyIn(EntryWords, Lower(Strip(query))) && !AnyIn(SeniorWords, Lower(Strip(query))) && AnyIn(MidWords, Lower(Strip(query)))
    ensures q.workType == Some(Remote) <==> AnyIn(RemoteWords, Lower(Strip(query)))
    ensures q.workType == Some(Onsite) <==>
      !AnyIn(RemoteWords, Lower(Strip(query))) && AnyIn(OnsiteWords, Lower(Strip(query)))
    ensures q.workType == Some(Hybrid) <==>
      !AnyIn(RemoteWords, Lower(Strip(query))) && !AnyIn(OnsiteWords, Lower(Strip(query))) && AnyIn(HybridWords, Lower(Strip(query)))
    ensures q.salaryRange.None? <==> Search(QueryRange, Lower(Strip(query)), 0).None?
  {
    var original := Strip(query);
    var lower := Lower(original);
    var ms := FindAll(QueryRange, lower, 0);
    QueryRangeMatchesHaveGroups(lower);
    var locations := Hits(LocationKeywords, original);
    var companyTypes := Hits(CompanyTypeKeywords, original);
    var main := Cleaned(DeleteAll(DeleteAll(SalaryDeleted(original, ms), locations), companyTypes));
    Query(original, if main == [] then [] else KeptSegments(seg(main)), Hits(SkillKeywords, lower),
      LastRange(ms), locations, companyTypes, LevelOf(lower), ModeOf(lower))
  }

  /**
   * The locations and company types found are the listed ones that occur in the
   * query as typed; the skills, the listed ones that occur in the lowered query;
   * none of the three lists repeats an entry.
   */
  lemma ParsedListsMeaning(query: string, seg: string -> seq<string>)
    ensures forall x :: x in ParseQueryOf(query, seg).locations <==> x in LocationKeywords && Contains(Strip(query), x)
    ensures forall x :: x in ParseQueryOf(query, seg).companyTypes <==> x in CompanyTypeKeywords && Contains(Strip(query), x)
    ensures forall x :: x in ParseQueryOf(query, seg).skills <==> x in SkillKeywords && Contains(Lower(Strip(query)), x)
    ensures NoDup(ParseQueryOf(query, seg).skills)
  {
    var original := Strip(query);
    HitsMembers(LocationKeywords, original);
    HitsMembers(CompanyTypeKeywords, original);
    HitsMembers(SkillKeywords, Lower(original));
    SkillKeywordsDistinct();
    HitsDistinct(SkillKeywords, Lower(original));
  }

  /**
   * With no salary range, location or company type in the query, the main keywords
   * are the segments of the cleaned query alone.
   */
  lemma ParsedMainPlain(query: string, seg: string -> seq<string>)
    requires Search(QueryRange, Lower(Strip(query)), 0).None?
    requires !AnyIn(LocationKeywords, Strip(query)) && !AnyIn(CompanyTypeKeywords, Strip(query))
    ensures var main := Cleaned(Strip(query));
      ParseQueryOf(query, seg).mainKeywords == if main == [] then [] else KeptSegments(seg(main))
  {
    var original := Strip(query);
    NoHits(LocationKeywords, original);
    NoHits(CompanyTypeKeywords, original);
  }

  /**
   * With no salary range or company type, and one location that occurs once, the
   * location is cut out of the query before it is cleaned and segmented.
   */
  lemma ParsedMainDropsLocation(query: string, seg: string -> seq<string>, a: string, w: string, b: string)
    requires Strip(query) == a + w + b
    requires Search(QueryRange, Lower(Strip(query)), 0).None?
    requires Hits(LocationKeywords, Strip(query)) == [w] && !AnyIn(CompanyTypeKeywords, Strip(query))
    requires w != [] && BorderFree(w) && !Contains(a, w) && !Contains(b, w)
    ensures var main := Cleaned(a + b);
      ParseQueryOf(query, seg).mainKeywords == if main == [] then [] else KeptSegments(seg(main))
  {
    var original := Strip(query);
    assert FindAll(QueryRange, Lower(original), 0) == [];
    NoHits(CompanyTypeKeywords, original);
    DeleteAllCutsOut(a, w, b);
    assert DeleteAll(DeleteAll(SalaryDeleted(original, []), [w]), []) == a + b;
  }

  /** No word of the list occurs in the text: none is found. */
  lemma NoHits(words: seq<string>, text: string)
    requires !AnyIn(words, text)
    ensures Hits(words, text) == []
  {
    HitsMembers(words, text);
  }

  lemma SpanFindsOneRange()
    ensures FindAll(QueryRange, "2-5年", 0) == [Match(0, 3, ["2", "", "5", ""])]
  {
    var t := "2-5年";
    assert DigitRunEnd(t, 1) == 1 && DigitRunEnd(t, 0) == 1;
    assert UnitEnd(t, 1, QueryUnits) == 1;
    assert t[0..1] == "2" && t[1..1] == "";
    assert AmountAt(t, 0, QueryUnits) == Some((1, ["2", ""]));
    assert SpaceRunEnd(t, 1) == 1 && SpaceRunEnd(t, 2) == 2;
    assert DigitRunEnd(t, 3) == 3 && DigitRunEnd(t, 2) == 3;
    assert UnitEnd(t, 3, QueryUnits) == 3;
    assert t[2..3] == "5" && t[3..3] == "";
    assert AmountAt(t, 2, QueryUnits) == Some((3, ["5", ""]));
    assert t[1] == '-' && '-' in QuerySeparators;
    assert ["2", ""] + ["5", ""] == ["2", "", "5", ""];
    assert RangeAt(t, 0, QueryUnits, QuerySeparators) == Some((3, ["2", "", "5", ""]));
    assert MatchAt(QueryRange, t, 0) == Some(Match(0, 3, ["2", "", "5", ""]));
    assert MatchAt(QueryRange, t, 3).None?;
    assert MatchAt(QueryRange, t, 4).None?;
    assert Search(QueryRange, t, 3).None?;
  }

  lemma SpanIsMidLevel()
    ensures LevelOf("2-5年") == Some(MidLevel)
  {
    var t := "2-5年";
    forall w | w in EntryWords + SeniorWords ensures !Contains(t, w) {
      NotContainsWithoutFirst(t, w);
    }
    assert OccursAt(t, MidWords[1], 0);
  }

  /**
   * The mid-level phrase 2-5年 is also a salary range: the query "2-5年" asks for
   * a salary from 2 to 5 as well as for mid-level experience.
   */
  lemma ExperienceSpanIsSalaryRange(seg: string -> seq<string>)
    ensures ParseQueryOf("2-5年", seg).salaryRange == Some(SalaryRange(2, 5))
    ensures ParseQueryOf("2-5年", seg).experienceLevel == Some(MidLevel)
  {
    var t := "2-5年";
    SpanTrimmed();
    SpanNoCapital();
    ParsedRangeIsLast(t, seg);
    SpanFindsOneRange();
    SpanIsMidLevel();
    SpanRange();
  }

  lemma ParsedRangeIsLast(query: string, seg: string -> seq<string>)
    ensures forall k :: 0 <= k < |FindAll(QueryRange, Lower(Strip(query)), 0)| ==>
      RangeGroups(FindAll(QueryRange, Lower(Strip(query)), 0)[k])
    ensures ParseQueryOf(query, seg).salaryRange == LastRange(FindAll(QueryRange, Lower(Strip(query)), 0))
  {
    QueryRangeMatchesHaveGroups(Lower(Strip(query)));
  }

  /**
   * Every salary match overwrites the range: the range kept is the one of a
   * match after which re.search finds no further salary range.
   */
  lemma ParsedSalaryRange(query: string, seg: string -> seq<string>)
    ensures var lower := Lower(Strip(query));
      ParseQueryOf(query, seg).salaryRange.Some? ==>
        exists m: Match :: m.start <= m.end <= |lower| && MatchAt(QueryRange, lower, m.start) == Some(m) && RangeGroups(m)
          && Search(QueryRange, lower, m.end).None? && ParseQueryOf(query, seg).salaryRange == Some(RangeOf(m))
  {
    var lower := Lower(Strip(query));
    var ms := FindAll(QueryRange, lower, 0);
    ParsedRangeIsLast(query, seg);
    LastQueryRangeEndsSearch(lower);
    if ms != [] {
      var m := ms[|ms| - 1];
      assert ParseQueryOf(query, seg).salaryRange == Some(RangeOf(m));
    }
  }

  /** The last salary match re.findall returns leaves no further salary range after it. */
  lemma LastQueryRangeEndsSearch(s: string)
    ensures var ms := FindAll(QueryRange, s, 0);
      ms != [] ==>
        var m := ms[|ms| - 1];
        m.end <= |s| && MatchAt(QueryRange, s, m.start) == Some(m) && RangeGroups(m) && Search(QueryRange, s, m.end).None?
  {
    FindAllLast(QueryRange, s, 0);
    QueryRangeMatchesHaveGroups(s);
  }

  lemma SpanTrimmed()
    ensures Strip("2-5年") == "2-5年"
  {
    var t := "2-5年";
    assert t[0] == '2' && t[3] == '年';
    StripTrimmed(t);
  }

  lemma SpanNoCapital()
    ensures Lower("2-5年") == "2-5年"
  {
    LowerNoCapital("2-5年");
  }

  lemma SpanRange()
    ensures LastRange([Match(0, 3, ["2", "", "5", ""])]) == Some(SalaryRange(2, 5))
  {
    assert DigitsValue("2") == 2 && DigitsValue("5") == 5;
  }

  /** The loop over the salary matches: each sets the range and deletes its literal. */
  method ApplySalaryMatches(ms: seq<Match>, text: string) returns (range: Option<SalaryRange>, rest: string)
    requires forall k :: 0 <= k < |ms| ==> RangeGroups(ms[k])
    ensures range == LastRange(ms)
    ensures rest == SalaryDeleted(text, ms)
  {
    range := None;
    rest := text;
    for k := 0 to |ms|
      invariant range == LastRange(ms[..k])
      invariant rest == SalaryDeleted(text, ms[..k])
    {
      var g := ms[k].groups;
      range := Some(SalaryRange(NormalizeAmount(g[0], g[1]), NormalizeAmount(g[2], g[3])));
      assert ms[..k + 1][..k] == ms[..k];
      rest := DeleteMatches(rest, 0, RangeLiteral(g[0], g[1], g[2], g[3]));
    }
    assert ms[..|ms|] == ms;
  }

  /** A keyword loop that records each word found in `text` and deletes it from `main`. */
  method TakeOutWords(words: seq<string>, text: string, main: string) returns (found: seq<string>, rest: string)
    ensures found == Hits(words, text)
    ensures rest == DeleteAll(main, found)
  {
    found := [];
    rest := main;
    for k := 0 to |words|
      invariant found == Hits(words[..k], text)
      invariant rest == DeleteAll(main, found)
    {
      assert words[..k + 1][..k] == words[..k];
      if Contains(text, words[k]) {
        found := found + [words[k]];
        assert found[..|found| - 1] == Hits(words[..k], text);
        rest := Replace(rest, words[k], "");
      }
    }
    assert words[..|words|] == words;
  }

  /** A keyword loop that only records the words found. */
  method FindWords(words: seq<string>, text: string) returns (found: seq<string>)
    ensures found == Hits(words, text)
  {
    found := [];
    for k := 0 to |words|
      invariant found == Hits(words[..k], text)
    {
      assert words[..k + 1][..k] == words[..k];
      if Contains(text, words[k]) {
        found := found + [words[k]];
      }
    }
    assert words[..|words|] == words;
  }

  /** The keyword-extraction comprehension, as a loop. */
  method KeepSegments(words: seq<string>) returns (kept: seq<string>)
    ensures kept == KeptSegments(words)
  {
    kept := [];
    var k := |words|;
    while k > 0
      invariant 0 <= k <= |words|
      invariant kept == KeptSegments(words[k..])
    {
      k := k - 1;
      assert words[k..][1..] == words[k + 1..];
      var w := Strip(words[k]);
      if |w| > 1 {
        kept := [w] + kept;
      }
    }
  }

  /** parse_search_query, step by step as the source orders it. */
  method ParseSearchQuery(query: string, seg: string -> seq<string>) returns (q: Query)
    ensures q == ParseQueryOf(query, seg)
  {
    var original := Strip(query);
    var lower := Lower(original);
    var ms := FindAll(QueryRange, lower, 0);
    QueryRangeMatchesHaveGroups(lower);
    var range, main := ApplySalaryMatches(ms, original);
    var locations, companyTypes;
    locations, main := TakeOutWords(LocationKeywords, original, main);
    companyTypes, main := TakeOutWords(CompanyTypeKeywords, original, main);
    var skills := FindWords(SkillKeywords, lower);
    var level := LevelOf(lower);
    var mode := ModeOf(lower);
    main := Cleaned(main);
    var keywords := [];
    if main != [] {
      keywords := KeepSegments(seg(main));
    }
    q := Query(original, keywords, skills, range, locations, companyTypes, level, mode);
  }
  // --------------------------------------------------------------- scoring

  /** Title hit 40 points, else a hit in the description or the company 20, ignoring case. */
  function KeywordPoints(keyword: string, job: Job): (p: nat)
    ensures p == 40 <==> Contains(Lower(job.title), Lower(keyword))
    ensures p == 20 <==>
      !Contains(Lower(job.title), Lower(keyword))
      && (Contains(Lower(job.description), Lower(keyword)) || Contains(Lower(job.company), Lower(keyword)))
    ensures p == 0 || p == 20 || p == 40
  {
    var k := Lower(keyword);
    if Contains(Lower(job.title), k) then 40
    else if Contains(Lower(job.description), k) || Contains(Lower(job.company), k) then 20
    else 0
  }

  /** A skill in the description or the title, ignoring case, scores 30. */
  function SkillPoints(skill: string, job: Job): (p: nat)
    ensures p == 30 <==> Contains(Lower(job.description + " " + job.title), Lower(skill))
    ensures p == 0 || p == 30
  {
    if Contains(Lower(job.description + " " + job.title), Lower(skill)) then 30 else 0
  }

  /** A location in the job's location, ignoring case, scores 15. */
  function LocationPoints(location: string, job: Job): (p: nat)
    ensures p == 15 <==> Contains(Lower(job.location), Lower(location))
    ensures p == 0 || p == 15
  {
    if Contains(Lower(job.location), Lower(location)) then 15 else 0
  }

  /** A company type in the lowered company and description scores 5; the type itself is not lowered. */
  function CompanyTypePoints(companyType: string, job: Job): (p: nat)
    ensures p == 5 <==> Contains(Lower(job.company + " " + job.description), companyType)
    ensures p == 0 || p == 5
  {
    if Contains(Lower(job.company + " " + job.description), companyType) then 5 else 0
  }

  /** The points a list of conditions collects, one `points` award per condition. */
  function Total(items: seq<string>, job: Job, points: (string, Job) -> nat): nat
    decreases |items|
  {
    if items == [] then 0 else Total(items[..|items| - 1], job, points) + points(items[|items| - 1], job)
  }

  /** Awards of at most `cap` each sum to at most cap times the number of conditions. */
  lemma {:induction false} TotalAtMost(items: seq<string>, job: Job, points: (string, Job) -> nat, cap: nat)
    requires forall x :: points(x, job) <= cap
    ensures Total(items, job, points) <= cap * |items|
    decreases |items|
  {
    if items != [] {
      TotalAtMost(items[..|items| - 1], job, points, cap);
    }
  }

  /**
   * _extract_salary_from_job: None for an empty or 面議 salary, else the first run
   * of digits, times 10000 when 萬 appears and otherwise times 1000 when k or K
   * appears; None when the text has no digit.
   */
  function ExtractSalaryFromJob(salaryText: string): (r: Option<nat>)
    ensures r.Some? ==> salaryText != "" && salaryText != "面議" && HasDigit(salaryText)
    ensures salaryText != "" && salaryText != "面議" && HasDigit(salaryText) ==> r.Some?
    ensures r.Some? ==> exists p, w :: FirstDigitRun(salaryText, p, w) && r.value == JobSalaryScaled(salaryText, DigitsValue(w))
  {
    if salaryText == "" || salaryText == "面議" then None
    else
      match FirstNumber(salaryText)
      case None => None
      case Some(n) =>
        var v := DigitsValue(n);
        if Contains(salaryText, "萬") then Some(v * 10000)
        else if Contains(Lower(salaryText), "k") then Some(v * 1000)
        else Some(v)
  }

  /** The amount read from a job's salary text, scaled by the unit the text mentions. */
  function JobSalaryScaled(salaryText: string, v: nat): nat {
    if Contains(salaryText, "萬") then v * 10000
    else if Contains(Lower(salaryText), "k") then v * 1000
    else v
  }

  /** Conversely, a salary text with digits is read as its first run of digits, scaled. */
  lemma JobSalaryFromFirstRun(salaryText: string, p: nat, w: string)
    requires salaryText != "" && salaryText != "面議" && FirstDigitRun(salaryText, p, w)
    ensures ExtractSalaryFromJob(salaryText) == Some(JobSalaryScaled(salaryText, DigitsValue(w)))
  {
    FirstNumberFindsRun(salaryText, p, w);
  }

  /** Thousands separators split the number: "60,000-90,000" reads as 60. */
  lemma SeparatedSalaryReadsFirstGroup()
    ensures ExtractSalaryFromJob("60,000-90,000") == Some(60)
  {
    var t := "60,000-90,000";
    assert FirstDigitFrom(t, 0) == Some(0);
    assert DigitRunEnd(t, 2) == 2;
    assert DigitRunEnd(t, 1) == 2;
    assert DigitRunEnd(t, 0) == 2;
    assert t[0..2] == "60";
    assert FirstNumber(t) == Some("60");
    assert DigitsValue("6") == 6;
    assert DigitsValue("60") == 60;
    NotContainsWithoutFirst(t, "萬");
    NotContainsWithoutFirst(Lower(t), "k");
  }

  /**
   * _salary_in_range: false for a falsy salary (0) or no range, else whether the
   * salary lies between min and max, both included.
   */
  predicate SalaryInRange(jobSalary: int, range: Option<SalaryRange>) {
    jobSalary != 0 && range.Some? && range.value.min <= jobSalary <= range.value.max
  }

  /** With a salary range asked for, a job whose salary is in it scores 10. */
  function SalaryPoints(range: Option<SalaryRange>, job: Job): (p: nat)
    ensures p == 10 <==>
      range.Some? && ExtractSalaryFromJob(job.salary).Some? && ExtractSalaryFromJob(job.salary).value != 0
      && range.value.min <= ExtractSalaryFromJob(job.salary).value <= range.value.max
    ensures p == 0 || p == 10
  {
    match ExtractSalaryFromJob(job.salary)
    case Some(v) => if SalaryInRange(v, range) then 10 else 0
    case None => 0
  }

  /** The points the job collects, never more than the points on offer. */
  function Points(job: Job, q: Query): (p: nat)
    ensures p <= MaxPoints(q)
  {
    TotalAtMost(q.mainKeywords, job, KeywordPoints, 40);
    TotalAtMost(q.skills, job, SkillPoints, 30);
    TotalAtMost(q.locations, job, LocationPoints, 15);
    TotalAtMost(q.companyTypes, job, CompanyTypePoints, 5);
    Total(q.mainKeywords, job, KeywordPoints) + Total(q.skills, job, SkillPoints)
    + Total(q.locations, job, LocationPoints) + SalaryPoints(q.salaryRange, job)
    + Total(q.companyTypes, job, CompanyTypePoints)
  }

  /** The points on offer: 40 per keyword, 30 per skill, 15 per location, 10 for a salary range, 5 per company type. */
  function MaxPoints(q: Query): (m: nat)
    ensures m == 0 <==> q.mainKeywords == [] && q.skills == [] && q.locations == [] && q.salaryRange.None? && q.companyTypes == []
  {
    40 * |q.mainKeywords| + 30 * |q.skills| + 15 * |q.locations|
    + (if q.salaryRange.Some? then 10 else 0) + 5 * |q.companyTypes|
  }

  /** The points collected as a percentage of the points on offer. */
  function Share(p: nat, m: nat): real
    requires m > 0
  {
    (p as real / m as real) * 100.0
  }

  lemma ShareTimesMax(p: nat, m: nat)
    requires m > 0
    ensures Share(p, m) * (m as real) == 100.0 * (p as real)
  {
  }

  /** The percentage reaches t exactly when 100 p reaches t m. */
  lemma ShareAtLeast(p: nat, m: nat, t: real)
    requires m > 0
    ensures Share(p, m) >= t <==> 100.0 * (p as real) >= t * (m as real)
  {
    ShareTimesMax(p, m);
    var r := Share(p, m);
    if r >= t {
      assert (r - t) * (m as real) >= 0.0;
    } else {
      assert (t - r) * (m as real) > 0.0;
    }
  }

  /** The percentage stays within t exactly when 100 p stays within t m. */
  lemma ShareAtMost(p: nat, m: nat, t: real)
    requires m > 0
    ensures Share(p, m) <= t <==> 100.0 * (p as real) <= t * (m as real)
  {
    ShareTimesMax(p, m);
    var r := Share(p, m);
    if r <= t {
      assert (t - r) * (m as real) >= 0.0;
    } else {
      assert (r - t) * (m as real) > 0.0;
    }
  }

  /**
   * _calculate_job_score's last step, from the points collected and the points
   * on offer: 50 when nothing is on offer; otherwise the percentage, or 0 when it
   * is below 30. (Exact arithmetic stands for the source's floating-point division.)
   */
  function ScoreFrom(p: nat, m: nat): (r: real)
    ensures m == 0 ==> r == 50.0
    ensures m > 0 ==> (r == 0.0 <==> 100 * p < 30 * m)
    ensures m > 0 && p <= m ==> r == 0.0 || 30.0 <= r <= 100.0
    ensures m > 0 && 100 * p >= 30 * m ==> r == Share(p, m)
  {
    if m == 0 then 50.0
    else
      var r := Share(p, m);
      ShareAtLeast(p, m, 30.0);
      ShareAtMost(p, m, 100.0);
      if r >= 30.0 then r else 0.0
  }

  /**
   * _calculate_job_score: 50 with nothing on offer; otherwise 0 below 30 percent
   * of the points on offer, and that percentage from 30 up to 100.
   */
  function Score(job: Job, q: Query): (r: real)
    ensures MaxPoints(q) == 0 ==> r == 50.0
    ensures MaxPoints(q) > 0 ==> r == 0.0 || 30.0 <= r <= 100.0
    ensures MaxPoints(q) > 0 && 100 * Points(job, q) >= 30 * MaxPoints(q) ==> r == Share(Points(job, q), MaxPoints(q))
  {
    ScoreFrom(Points(job, q), MaxPoints(q))
  }

  /** A job never collects more than the points on offer. */
  lemma PointsAtMostMax(job: Job, q: Query)
    ensures Points(job, q) <= MaxPoints(q)
  {
    TotalAtMost(q.mainKeywords, job, KeywordPoints, 40);
    TotalAtMost(q.skills, job, SkillPoints, 30);
    TotalAtMost(q.locations, job, LocationPoints, 15);
    TotalAtMost(q.companyTypes, job, CompanyTypePoints, 5);
  }

  /**
   * The score is 50 for a query without conditions; otherwise it is 0 or a
   * percentage from 30 to 100, and it is 0 exactly when the job collects less
   * than 30 percent of the points on offer.
   */
  lemma ScoreRange(job: Job, q: Query)
    ensures MaxPoints(q) == 0 ==> Score(job, q) == 50.0
    ensures MaxPoints(q) > 0 ==> Score(job, q) == 0.0 || 30.0 <= Score(job, q) <= 100.0
    ensures MaxPoints(q) > 0 ==> (Score(job, q) == 0.0 <==> 100 * Points(job, q) < 30 * MaxPoints(q))
    ensures MaxPoints(q) > 0 && 100 * Points(job, q) >= 30 * MaxPoints(q) ==>
      Score(job, q) == Share(Points(job, q), MaxPoints(q))
  {
    var p := Points(job, q);
    var m := MaxPoints(q);
    PointsAtMostMax(job, q);
    if m > 0 {
      ShareAtLeast(p, m, 30.0);
      ShareAtMost(p, m, 100.0);
      assert Score(job, q) == ScoreFrom(p, m);
    }
  }

  /** A job meeting every condition scores 100. */
  lemma FullMatchScoresHundred(job: Job, q: Query)
    requires MaxPoints(q) > 0 && Points(job, q) == MaxPoints(q)
    ensures Score(job, q) == 100.0
  {
    var m := MaxPoints(q);
    ShareAtLeast(m, m, 100.0);
    ShareAtMost(m, m, 100.0);
    assert Score(job, q) == ScoreFrom(m, m);
  }

  /** One more condition met and on offer never lowers the score. */
  lemma ScoreFromGrows(p: nat, m: nat)
    requires p <= m
    ensures ScoreFrom(p + 30, m + 30) >= ScoreFrom(p, m)
  {
    if m == 0 {
      ShareAtLeast(30, 30, 100.0);
    } else {
      var r := Share(p, m);
      ShareTimesMax(p, m);
      ShareAtMost(p, m, 100.0);
      ShareAtLeast(p + 30, m + 30, r);
      ShareAtLeast(p + 30, m + 30, 0.0);
    }
  }

  /**
   * Asking for one more skill that the job's description or title mentions never
   * lowers the job's score.
   */
  lemma MatchingSkillNeverLowersScore(job: Job, q: Query, skill: string)
    requires Contains(Lower(job.description + " " + job.title), Lower(skill))
    ensures Score(job, q.(skills := q.skills + [skill])) >= Score(job, q)
  {
    var q2 := q.(skills := q.skills + [skill]);
    MatchingSkillAddsPoints(job, q, skill);
    assert Score(job, q2) == ScoreFrom(Points(job, q) + 30, MaxPoints(q) + 30);
    PointsAtMostMax(job, q);
    ScoreFromGrows(Points(job, q), MaxPoints(q));
  }

  /** A matching skill adds its 30 points both to the job's points and to the points on offer. */
  lemma MatchingSkillAddsPoints(job: Job, q: Query, skill: string)
    requires Contains(Lower(job.description + " " + job.title), Lower(skill))
    ensures Points(job, q.(skills := q.skills + [skill])) == Points(job, q) + 30
    ensures MaxPoints(q.(skills := q.skills + [skill])) == MaxPoints(q) + 30
  {
    var q2 := q.(skills := q.skills + [skill]);
    assert (q.skills + [skill])[..|q.skills|] == q.skills;
    assert Total(q2.skills, job, SkillPoints) == Total(q.skills, job, SkillPoints) + 30;
  }

  /** The keyword loop of _calculate_job_score: the title first, then the description or the company. */
  method ScoreKeywords(keywords: seq<string>, job: Job) returns (points: nat)
    ensures points == Total(keywords, job, KeywordPoints)
  {
    points := 0;
    var title := Lower(job.title);
    for k := 0 to |keywords|
      invariant points == Total(keywords[..k], job, KeywordPoints)
    {
      var keyword := Lower(keywords[k]);
      assert keywords[..k + 1][..k] == keywords[..k];
      if Contains(title, keyword) {
        points := points + 40;
      } else if Contains(Lower(job.description), keyword) || Contains(Lower(job.company), keyword) {
        points := points + 20;
      }
    }
    assert keywords[..|keywords|] == keywords;
  }

  /** A loop of _calculate_job_score that awards `weight` points whenever `text` contains the condition (lowered when `lowerItems`). */
  method ScoreMentions(items: seq<string>, job: Job, points: (string, Job) -> nat, text: string, lowerItems: bool, weight: nat)
    returns (total: nat)
    requires forall x :: points(x, job) == if Contains(text, if lowerItems then Lower(x) else x) then weight else 0
    ensures total == Total(items, job, points)
  {
    total := 0;
    for k := 0 to |items|
      invariant total == Total(items[..k], job, points)
    {
      assert items[..k + 1][..k] == items[..k];
      var item := if lowerItems then Lower(items[k]) else items[k];
      if Contains(text, item) {
        total := total + weight;
      }
    }
    assert items[..|items|] == items;
  }

  /** _calculate_job_score as the source writes it: one loop per kind of condition. */
  method CalculateJobScore(job: Job, q: Query) returns (score: real)
    ensures score == Score(job, q)
  {
    var maxPoints: nat := 40 * |q.mainKeywords|;
    var points := ScoreKeywords(q.mainKeywords, job);
    maxPoints := maxPoints + 30 * |q.skills|;
    var skillPoints := ScoreMentions(q.skills, job, SkillPoints, Lower(job.description + " " + job.title), true, 30);
    points := points + skillPoints;
    maxPoints := maxPoints + 15 * |q.locations|;
    var locationPoints := ScoreMentions(q.locations, job, LocationPoints, Lower(job.location), true, 15);
    points := points + locationPoints;
    if q.salaryRange.Some? {
      maxPoints := maxPoints + 10;
      var jobSalary := ExtractSalaryFromJob(job.salary);
      if jobSalary.Some? && SalaryInRange(jobSalary.value, q.salaryRange) {
        points := points + 10;
      }
    }
    maxPoints := maxPoints + 5 * |q.companyTypes|;
    var companyPoints := ScoreMentions(q.companyTypes, job, CompanyTypePoints, Lower(job.company + " " + job.description), false, 5);
    points := points + companyPoints;
    assert points == Points(job, q);
    assert maxPoints == MaxPoints(q);
    if maxPoints == 0 {
      return 50.0;
    }
    var relative := (points as real / maxPoints as real) * 100.0;
    score := if relative >= 30.0 then relative else 0.0;
    assert relative == Share(points, maxPoints);
    assert score == ScoreFrom(points, maxPoints);
  }

  // ------------------------------------------------------------- filtering

  /** The sort key of a scored job. */
  function Relevance(s: ScoredJob): real {
    s.relevanceScore
  }

  /** The jobs with a positive score, each with its score, in input order. */
  function Kept(jobs: seq<Job>, q: Query): (r: seq<ScoredJob>)
    ensures |r| <= |jobs|
    ensures forall k :: 0 <= k < |r| ==> r[k].job in jobs && r[k].relevanceScore == Score(r[k].job, q) && r[k].relevanceScore > 0.0
    decreases |jobs|
  {
    if jobs == [] then []
    else
      var prev := Kept(jobs[..|jobs| - 1], q);
      var job := jobs[|jobs| - 1];
      if Score(job, q) > 0.0 then prev + [ScoredJob(job, Score(job, q))] else prev
  }

  /** filter_jobs: the kept jobs, sorted by falling relevance; the sort is stable. */
  function FilterJobsOf(jobs: seq<Job>, q: Query): (r: seq<ScoredJob>)
    ensures SortedDesc(r, Relevance) && multiset(r) == multiset(Kept(jobs, q))
  {
    SortDescSorted(Kept(jobs, q), Relevance);
    SortDescPermutation(Kept(jobs, q), Relevance);
    SortDesc(Kept(jobs, q), Relevance)
  }

  /** A scored job is kept iff it is one of the jobs, with its score, and that score is positive. */
  lemma {:induction false} KeptMembers(jobs: seq<Job>, q: Query)
    ensures forall s :: s in Kept(jobs, q) <==> s.job in jobs && s.relevanceScore == Score(s.job, q) && s.relevanceScore > 0.0
    decreases |jobs|
  {
    if jobs != [] {
      var pre := jobs[..|jobs| - 1];
      var last := jobs[|jobs| - 1];
      KeptMembers(pre, q);
      assert jobs == pre + [last];
      var prev := Kept(pre, q);
      assert Kept(jobs, q) == if Score(last, q) > 0.0 then prev + [ScoredJob(last, Score(last, q))] else prev;
      forall s ensures s in Kept(jobs, q) <==> s.job in jobs && s.relevanceScore == Score(s.job, q) && s.relevanceScore > 0.0 {
        assert s.job in jobs <==> s.job in pre || s.job == last;
      }
    }
  }

  /**
   * The filtered list is sorted by falling relevance, holds exactly the kept jobs
   * (as often as they occur), and keeps the input order among jobs of equal score.
   */
  lemma FilterJobsMeaning(jobs: seq<Job>, q: Query, v: real)
    ensures SortedDesc(FilterJobsOf(jobs, q), Relevance)
    ensures multiset(FilterJobsOf(jobs, q)) == multiset(Kept(jobs, q))
    ensures WithKey(FilterJobsOf(jobs, q), Relevance, v) == WithKey(Kept(jobs, q), Relevance, v)
    ensures forall s :: s in FilterJobsOf(jobs, q) <==>
      s.job in jobs && s.relevanceScore == Score(s.job, q) && s.relevanceScore > 0.0
  {
    SortDescSorted(Kept(jobs, q), Relevance);
    SortDescPermutation(Kept(jobs, q), Relevance);
    SortDescStable(Kept(jobs, q), Relevance, v);
    KeptMembers(jobs, q);
    forall s ensures s in FilterJobsOf(jobs, q) <==> s in Kept(jobs, q) {
      assert s in FilterJobsOf(jobs, q) <==> s in multiset(FilterJobsOf(jobs, q));
    }
  }

  /** filter_jobs: score each job, keep the positive ones, then sort by relevance. */
  method FilterJobs(jobs: seq<Job>, q: Query) returns (filtered: seq<ScoredJob>)
    ensures filtered == FilterJobsOf(jobs, q)
  {
    filtered := [];
    for k := 0 to |jobs|
      invariant filtered == Kept(jobs[..k], q)
    {
      assert jobs[..k + 1][..k] == jobs[..k];
      var score := CalculateJobScore(jobs[k], q);
      if score > 0.0 {
        filtered := filtered + [ScoredJob(jobs[k], score)];
      }
    }
    assert jobs[..|jobs|] == jobs;
    filtered := SortDesc(filtered, Relevance);
  }

  // ----------------------------------------------------------- suggestions

  /** The text of the jobs: title, space, description, space, for each; so it holds every job's title and description. */
  function AllText(jobs: seq<Job>): (r: string)
    ensures forall k :: 0 <= k < |jobs| ==> Contains(r, jobs[k].title + " " + jobs[k].description)
    decreases |jobs|
  {
    if jobs == [] then ""
    else
      var pre := jobs[..|jobs| - 1];
      var last := jobs[|jobs| - 1];
      var prev := AllText(pre);
      var piece := last.title + " " + last.description;
      var r := prev + last.title + " " + last.description + " ";
      assert r == prev + piece + " ";
      assert OccursAt(r, piece, |prev|);
      forall k | 0 <= k < |pre| ensures Contains(r, jobs[k].title + " " + jobs[k].description) {
        assert jobs[k] == pre[k];
        ContainsInLonger(prev, piece + " ", jobs[k].title + " " + jobs[k].description);
        assert prev + (piece + " ") == r;
      }
      r
  }

  /** What occurs in a text occurs in any longer text starting with it. */
  lemma ContainsInLonger(a: string, b: string, w: string)
    ensures Contains(a, w) ==> Contains(a + b, w)
  {
    if Contains(a, w) {
      var i :| 0 <= i <= |a| && OccursAt(a, w, i);
      assert (a + b)[i..i + |w|] == a[i..i + |w|];
      assert OccursAt(a + b, w, i);
    }
  }

  /** query + " " + w for each w. */
  function Appended(query: string, words: seq<string>): (r: seq<string>)
    ensures |r| == |words| && forall k :: 0 <= k < |r| ==> r[k] == query + " " + words[k]
  {
    seq(|words|, k requires 0 <= k < |words| => query + " " + words[k])
  }

  /** w + " " + query for each w. */
  function Prepended(query: string, words: seq<string>): (r: seq<string>)
    ensures |r| == |words| && forall k :: 0 <= k < |r| ==> r[k] == words[k] + " " + query
  {
    seq(|words|, k requires 0 <= k < |words| => words[k] + " " + query)
  }

  /**
   * suggest_related_searches: the query with each of the three most common skill
   * suggestions, then with the first two suggested locations, then the first two
   * suggested levels before the query; at most six in all.
   */
  function SuggestionsOf(query: string, jobs: seq<Job>): (r: seq<string>)
    ensures 4 <= |r| <= 6
    ensures forall k :: 0 <= k < |r| ==> exists w :: r[k] == query + " " + w || r[k] == w + " " + query
  {
    SuggestionsFrom(query, TopOf(SkillsIn(jobs)))
  }

  /** The query with the top skills and the first two locations, then the first two levels before it; at most six. */
  function SuggestionsFrom(query: string, top: seq<string>): (r: seq<string>)
    ensures 4 <= |r| <= 6
    ensures forall k :: 0 <= k < |r| ==> exists w :: r[k] == query + " " + w || r[k] == w + " " + query
  {
    Take(Suggested(query, top, SuggestedLocations[..2], SuggestedLevels[..2]), 6)
  }

  /** The skills mentioned in the first ten results, in the order of the skill list, each once. */
  function SkillsIn(jobs: seq<Job>): (r: seq<string>)
    ensures NoDup(r)
  {
    SkillKeywordsDistinct();
    HitsDistinct(SkillKeywords, Lower(AllText(Take(jobs, 10))));
    Hits(SkillKeywords, Lower(AllText(Take(jobs, 10))))
  }

  /** The three most common skills; skills found once each keep their order. */
  function TopOf(skills: seq<string>): (r: seq<string>)
    ensures |r| <= 3
    ensures NoDup(skills) ==> r == Take(skills, 3)
  {
    if skills == [] then []
    else
      var r := Keys(MostCommon(skills, 3));
      assert NoDup(skills) ==> r == Take(skills, 3) by {
        if NoDup(skills) {
          MostCommonOfDistinct(skills, 3);
        }
      }
      r
  }

  /** The query after each skill and location, then each level before the query. */
  function Suggested(query: string, top: seq<string>, locations: seq<string>, levels: seq<string>): (r: seq<string>)
    ensures |r| == |top| + |locations| + |levels|
    ensures forall k :: 0 <= k < |r| ==> exists w :: r[k] == query + " " + w || r[k] == w + " " + query
  {
    var all := Appended(query, top) + Appended(query, locations) + Prepended(query, levels);
    forall k | 0 <= k < |all| ensures exists w :: all[k] == query + " " + w || all[k] == w + " " + query {
      if k < |top| {
        assert all[k] == query + " " + top[k];
      } else if k < |top| + |locations| {
        assert all[k] == query + " " + locations[k - |top|];
      } else {
        assert all[k] == levels[k - |top| - |locations|] + " " + query;
      }
    }
    all
  }

  /** No ASCII capital letter. */
  predicate IsLowerCase(w: string) {
    forall i :: 0 <= i < |w| ==> !('A' <= w[i] <= 'Z')
  }

  predicate AllLowerCase(words: seq<string>) {
    forall k :: 0 <= k < |words| ==> IsLowerCase(words[k])
  }

  lemma ProgrammingSkillsLowerCase() ensures AllLowerCase(ProgrammingSkills) {}
  lemma DataSkillsLowerCase() ensures AllLowerCase(DataSkills) {}
  lemma DesignSkillsLowerCase() ensures AllLowerCase(DesignSkills) {}
  lemma MarketingSkillsLowerCase() ensures AllLowerCase(MarketingSkills) {}
  lemma ManagementSkillsLowerCase() ensures AllLowerCase(ManagementSkills) {}

  /** Every skill is written in lower case. */
  lemma SkillKeywordsLowerCase()
    ensures AllLowerCase(SkillKeywords)
  {
    ProgrammingSkillsLowerCase();
    DataSkillsLowerCase();
    DesignSkillsLowerCase();
    MarketingSkillsLowerCase();
    ManagementSkillsLowerCase();
  }

  /** The text of the first ten jobs, built by the source's loop. */
  method CollectText(jobs: seq<Job>) returns (allText: string)
    ensures allText == AllText(jobs)
  {
    allText := "";
    for k := 0 to |jobs|
      invariant allText == AllText(jobs[..k])
    {
      assert jobs[..k + 1][..k] == jobs[..k];
      allText := allText + jobs[k].title + " " + jobs[k].description + " ";
    }
    assert jobs[..|jobs|] == jobs;
  }

  /** The skill loop of the suggestions: each skill whose lowered form is in the lowered text. */
  method FindSkills(lowered: string) returns (found: seq<string>)
    ensures found == Hits(SkillKeywords, lowered)
  {
    SkillKeywordsLowerCase();
    found := [];
    for k := 0 to |SkillKeywords|
      invariant found == Hits(SkillKeywords[..k], lowered)
    {
      assert SkillKeywords[..k + 1][..k] == SkillKeywords[..k];
      assert IsLowerCase(SkillKeywords[k]);
      assert Lower(SkillKeywords[k]) == SkillKeywords[k];
      if Contains(lowered, Lower(SkillKeywords[k])) {
        found := found + [SkillKeywords[k]];
      }
    }
    assert SkillKeywords[..|SkillKeywords|] == SkillKeywords;
  }

  /** suggest_related_searches. */
  method SuggestRelatedSearches(query: string, jobs: seq<Job>) returns (suggestions: seq<string>)
    ensures suggestions == SuggestionsOf(query, jobs)
  {
    var allText := CollectText(Take(jobs, 10));
    var skillSuggestions := FindSkills(Lower(allText));
    var top: seq<string> := [];
    if skillSuggestions != [] {
      top := Keys(MostCommon(skillSuggestions, 3));
    }
    suggestions := Appended(query, top);
    suggestions := suggestions + Appended(query, SuggestedLocations[..2]);
    suggestions := suggestions + Prepended(query, SuggestedLevels[..2]);
    suggestions := Take(suggestions, 6);
  }

  /**
   * At most six suggestions; when the results mention no skill they are the
   * query with 台北 and with 新竹, then 新鮮人 and 資深 before the query.
   */
  lemma SuggestionsShape(query: string, jobs: seq<Job>)
    ensures |SuggestionsOf(query, jobs)| <= 6
    ensures Hits(SkillKeywords, Lower(AllText(Take(jobs, 10)))) == [] ==>
      SuggestionsOf(query, jobs) == [query + " 台北", query + " 新竹", "新鮮人 " + query, "資深 " + query]
  {
    assert SuggestedLocations[..2] == ["台北", "新竹"];
    assert SuggestedLevels[..2] == ["新鮮人", "資深"];
    var a := Appended(query, ["台北", "新竹"]);
    assert a == [a[0], a[1]];
    var b := Prepended(query, ["新鮮人", "資深"]);
    assert b == [b[0], b[1]];
    if Hits(SkillKeywords, Lower(AllText(Take(jobs, 10)))) == [] {
      var all := Appended(query, []) + a + b;
      assert Appended(query, []) == [];
      assert all == [a[0], a[1], b[0], b[1]];
      assert SuggestionsOf(query, jobs) == Take(all, 6);
      assert a[0] == query + " 台北" && a[1] == query + " 新竹";
      assert b[0] == "新鮮人 " + query && b[1] == "資深 " + query;
    }
  }

  /**
   * Every skill is found at most once, so the most common three are the first
   * three found, in skill-table order, and they lead the suggestions.
   */
  lemma TopSkillsLeadSuggestions(query: string, jobs: seq<Job>, k: nat)
    requires k < 3 && k < |Hits(SkillKeywords, Lower(AllText(Take(jobs, 10))))|
    ensures SuggestionsOf(query, jobs)[k] == query + " " + Hits(SkillKeywords, Lower(AllText(Take(jobs, 10))))[k]
  {
    var skills := SkillsIn(jobs);
    var top := TopOf(skills);
    assert top[k] == skills[k];
    SuggestedAt(query, top, SuggestedLocations[..2], SuggestedLevels[..2], k);
    assert SuggestionsOf(query, jobs) == Take(Suggested(query, top, SuggestedLocations[..2], SuggestedLevels[..2]), 6);
  }

  /** The k-th suggestion, for k among the skills, is the query and that skill. */
  lemma SuggestedAt(query: string, top: seq<string>, locations: seq<string>, levels: seq<string>, k: nat)
    requires k < |top| && k < 6
    ensures Take(Suggested(query, top, locations, levels), 6)[k] == query + " " + top[k]
  {
  }

}
