/**
 * The text normalisers of the scraping crawler, and its fixed CakeResume
 * sample. clean_text strips the text and turns every whitespace run into one
 * space; extract_salary deletes the salary words, cleans the rest and keeps it
 * only when a digit is left.
 */
module Crawlr {
  import opened Text
  import opened Patterns
  import opened Crawler

  /**
   * clean_text: "" for no text, else the stripped text with whitespace runs
   * collapsed; never longer than the text, and never starting with whitespace.
   */
  function CleanText(s: string): (r: string)
    ensures |r| <= |s|
    ensures r != [] ==> !IsSpace(r[0])
  {
    if s == "" then "" else CollapseSpaces(Strip(s))
  }

  // -------------------------------------------------- what clean_text keeps

  /** The non-whitespace characters of s, in order. */
  function NonSpace(s: string): (r: string)
    ensures forall i :: 0 <= i < |r| ==> !IsSpace(r[i])
    decreases |s|
  {
    if s == [] then [] else (if IsSpace(s[0]) then [] else [s[0]]) + NonSpace(s[1..])
  }

  lemma {:induction false} NonSpaceConcat(a: string, b: string)
    ensures NonSpace(a + b) == NonSpace(a) + NonSpace(b)
    decreases |a|
  {
    if a == [] {
      assert a + b == b;
    } else {
      NonSpaceConcat(a[1..], b);
      var head := if IsSpace(a[0]) then [] else [a[0]];
      ConcatTail(a, b);
      assert NonSpace(a + b) == head + NonSpace(a[1..] + b);
      assert NonSpace(a) == head + NonSpace(a[1..]);
    }
  }

  lemma ConcatTail<T>(a: seq<T>, b: seq<T>)
    requires a != []
    ensures (a + b)[0] == a[0] && (a + b)[1..] == a[1..] + b
  {
  }

  lemma {:induction false} NonSpaceOfSpaces(s: string)
    requires forall i :: 0 <= i < |s| ==> IsSpace(s[i])
    ensures NonSpace(s) == []
    decreases |s|
  {
    if s != [] {
      NonSpaceOfSpaces(s[1..]);
    }
  }

  lemma NonSpaceStrip(s: string)
    ensures NonSpace(StripLeft(s)) == NonSpace(s)
    ensures NonSpace(StripRight(s)) == NonSpace(s)
  {
    NonSpaceStripLeft(s);
    NonSpaceStripRight(s);
  }

  lemma NonSpaceStripLeft(s: string)
    ensures NonSpace(StripLeft(s)) == NonSpace(s)
  {
    var l := StripLeft(s);
    assert s == s[..|s| - |l|] + l;
    NonSpaceConcat(s[..|s| - |l|], l);
    NonSpaceOfSpaces(s[..|s| - |l|]);
  }

  lemma NonSpaceStripRight(s: string)
    ensures NonSpace(StripRight(s)) == NonSpace(s)
  {
    var r := StripRight(s);
    assert s == r + s[|r|..];
    NonSpaceConcat(r, s[|r|..]);
    NonSpaceOfSpaces(s[|r|..]);
  }

  lemma {:induction false} NonSpaceCollapse(s: string)
    ensures NonSpace(CollapseSpaces(s)) == NonSpace(s)
    decreases |s|
  {
    if s == [] {
    } else if IsSpace(s[0]) {
      var t := StripLeft(s[1..]);
      NonSpaceCollapse(t);
      NonSpaceStrip(s[1..]);
      assert CollapseSpaces(s) == " " + CollapseSpaces(t);
      NonSpaceConcat(" ", CollapseSpaces(t));
    } else {
      NonSpaceCollapse(s[1..]);
      assert CollapseSpaces(s) == [s[0]] + CollapseSpaces(s[1..]);
      NonSpaceConcat([s[0]], CollapseSpaces(s[1..]));
    }
  }

  /** A non-whitespace character is in s exactly when it is in NonSpace(s). */
  lemma {:induction false} NonSpaceMember(s: string, c: char)
    requires !IsSpace(c)
    ensures c in NonSpace(s) <==> c in s
    decreases |s|
  {
    if s != [] {
      NonSpaceMember(s[1..], c);
      assert s == [s[0]] + s[1..];
    }
  }

  /** clean_text changes whitespace only: the other characters stay, in order. */
  lemma CleanTextKeepsText(s: string)
    ensures NonSpace(CleanText(s)) == NonSpace(s)
  {
    if s != "" {
      NonSpaceStrip(s);
      NonSpaceStrip(StripLeft(s));
      NonSpaceCollapse(Strip(s));
    }
  }

  /** clean_text leaves no whitespace at either end. */
  lemma CleanTextTrimmed(s: string)
    ensures var r := CleanText(s); r != [] ==> !IsSpace(r[0]) && !IsSpace(r[|r| - 1])
  {
    if s != "" {
      var t := Strip(s);
      var r := CollapseSpaces(t);
      assert r == CleanText(s);
      if r != [] {
        assert t != [] && !IsSpace(t[|t| - 1]);
        CollapseSpacesSingleSpaced(t);
      }
    }
  }

  /** Every whitespace character clean_text leaves is a single plain space. */
  lemma CleanTextSingleSpaced(s: string)
    ensures SingleSpaced(CleanText(s))
  {
    if s != "" {
      CollapseSpacesSingleSpaced(Strip(s));
    }
  }

  /** A text already trimmed and single-spaced is its own clean form. */
  lemma CleanTextOfClean(r: string)
    requires r != [] ==> !IsSpace(r[0]) && !IsSpace(r[|r| - 1])
    requires SingleSpaced(r)
    ensures CleanText(r) == r
  {
    if r != "" {
      assert StripLeft(r) == r;
      assert StripRight(r) == r;
      CollapseSpacesFixpoint(r);
    }
  }

  /** Cleaning a cleaned text changes nothing. */
  lemma CleanTextIdempotent(s: string)
    ensures CleanText(CleanText(s)) == CleanText(s)
  {
    CleanTextTrimmed(s);
    CleanTextSingleSpaced(s);
    CleanTextOfClean(CleanText(s));
  }

  /** Two texts with the same non-whitespace characters both have a digit or both lack one. */
  lemma SameTextHasDigit(s: string, t: string)
    requires NonSpace(s) == NonSpace(t) && HasDigit(s)
    ensures HasDigit(t)
  {
    var i :| 0 <= i < |s| && IsDigit(s[i]);
    NonSpaceMember(s, s[i]);
    NonSpaceMember(t, s[i]);
    var j :| 0 <= j < |t| && t[j] == s[i];
  }

  /** clean_text keeps a text's digits. */
  lemma CleanTextHasDigit(s: string)
    ensures HasDigit(CleanText(s)) <==> HasDigit(s)
  {
    CleanTextKeepsText(s);
    if HasDigit(s) {
      SameTextHasDigit(s, CleanText(s));
    }
    if HasDigit(CleanText(s)) {
      SameTextHasDigit(CleanText(s), s);
    }
  }

  // ----------------------------------------------------------- extract_salary

  /** The words extract_salary deletes, in the order of its alternation. */
  const SalaryWords: seq<string> := ["月薪", "年薪", "時薪", "待遇", "薪資", "NT$", "$"]

  const Negotiable: string := "面議"

  /** extract_salary: 面議 or a text with a digit in it. */
  function ExtractSalary(s: string): (r: string)
    ensures r == Negotiable || HasDigit(r)
  {
    if s == "" then Negotiable
    else
      var salary := CleanText(DeleteMatches(s, 0, Words(SalaryWords)));
      if HasDigit(salary) then salary else Negotiable
  }

  /** No word of the list has a digit in it. */
  predicate DigitFree(words: seq<string>) {
    forall k, j :: 0 <= k < |words| && 0 <= j < |words[k]| ==> !IsDigit(words[k][j])
  }

  /** Deleting digit-free words keeps every digit of the text from i on. */
  lemma {:induction false} DeleteKeepsDigit(s: string, i: nat, words: seq<string>, k: nat)
    requires DigitFree(words)
    requires i <= k < |s| && IsDigit(s[k])
    ensures HasDigit(DeleteMatches(s, i, Words(words)))
    decreases |s| - i
  {
    var n := MatchLength(Words(words), s, i);
    if n > 0 {
      WordMatchHasNoDigit(s, i, words);
      DeleteKeepsDigit(s, i + n, words, k);
    } else if k > i {
      DeleteKeepsDigit(s, i + 1, words, k);
      var r := DeleteMatches(s, i + 1, Words(words));
      var j :| 0 <= j < |r| && IsDigit(r[j]);
      assert DeleteMatches(s, i, Words(words))[j + 1] == r[j];
    } else {
      assert DeleteMatches(s, i, Words(words))[0] == s[i];
    }
  }

  /** A match of a digit-free word covers no digit. */
  lemma WordMatchHasNoDigit(s: string, i: nat, words: seq<string>)
    requires DigitFree(words) && i <= |s|
    ensures forall j :: i <= j < i + MatchLength(Words(words), s, i) ==> !IsDigit(s[j])
  {
    var n := MatchLength(Words(words), s, i);
    if n > 0 {
      var w :| 0 <= w < |words| && words[w] != [] && OccursAt(s, words[w], i) && n == |words[w]|;
      assert forall j :: i <= j < i + n ==> s[j] == words[w][j - i];
    }
  }

  /** Every character deletion leaves comes from the text. */
  lemma {:induction false} DeleteKeepsOnlyText(s: string, i: nat, d: Deletion)
    requires i <= |s|
    ensures forall j :: 0 <= j < |DeleteMatches(s, i, d)| ==> DeleteMatches(s, i, d)[j] in s[i..]
    decreases |s| - i
  {
    if i < |s| {
      var n := MatchLength(d, s, i);
      if n > 0 {
        DeleteKeepsOnlyText(s, i + n, d);
        assert forall c :: c in s[i + n..] ==> c in s[i..] by {
          assert s[i..] == s[i..i + n] + s[i + n..];
        }
      } else {
        DeleteKeepsOnlyText(s, i + 1, d);
        assert s[i..] == [s[i]] + s[i + 1..];
      }
    }
  }

  lemma SalaryWordsDigitFree()
    ensures DigitFree(SalaryWords)
  {
  }

  /** Deleting the salary words neither adds nor removes digits. */
  lemma DeleteSalaryWordsHasDigit(s: string)
    ensures HasDigit(DeleteMatches(s, 0, Words(SalaryWords))) <==> HasDigit(s)
  {
    var r := DeleteMatches(s, 0, Words(SalaryWords));
    if HasDigit(s) {
      var k :| 0 <= k < |s| && IsDigit(s[k]);
      SalaryWordsDigitFree();
      DeleteKeepsDigit(s, 0, SalaryWords, k);
    }
    if HasDigit(r) {
      var j :| 0 <= j < |r| && IsDigit(r[j]);
      DeleteKeepsOnlyText(s, 0, Words(SalaryWords));
      assert s[0..] == s;
      var k :| 0 <= k < |s| && s[k] == r[j];
    }
  }

  /** extract_salary says '面議' exactly for a text without a digit. */
  lemma ExtractSalaryNegotiable(s: string)
    ensures ExtractSalary(s) == Negotiable <==> !HasDigit(s)
  {
    assert !HasDigit(Negotiable) by {
      assert !IsDigit(Negotiable[0]) && !IsDigit(Negotiable[1]);
    }
    if s != "" {
      var t := DeleteMatches(s, 0, Words(SalaryWords));
      DeleteSalaryWordsHasDigit(s);
      CleanTextHasDigit(t);
    }
  }

  /** Otherwise the salary it returns is clean text with a digit in it. */
  lemma ExtractSalaryClean(s: string)
    requires HasDigit(s)
    ensures HasDigit(ExtractSalary(s)) && CleanText(ExtractSalary(s)) == ExtractSalary(s)
  {
    ExtractSalaryNegotiable(s);
    var t := DeleteMatches(s, 0, Words(SalaryWords));
    DeleteSalaryWordsHasDigit(s);
    CleanTextHasDigit(t);
    CleanTextIdempotent(t);
  }

  /** For a text with a digit, the salary is the text with the salary words deleted, up to whitespace. */
  lemma ExtractSalaryKeepsText(s: string)
    requires HasDigit(s)
    ensures NonSpace(ExtractSalary(s)) == NonSpace(DeleteMatches(s, 0, Words(SalaryWords)))
  {
    var t := DeleteMatches(s, 0, Words(SalaryWords));
    DeleteSalaryWordsHasDigit(s);
    CleanTextHasDigit(t);
    CleanTextKeepsText(t);
  }

  /** No two salary words start with the same character. */
  lemma SalaryWordsStartApart()
    ensures forall j, k :: 0 <= j < k < |SalaryWords| ==> SalaryWords[j] != [] && SalaryWords[j][0] != SalaryWords[k][0]
  {
  }

  /** At the front of w + t, the alternation matches exactly the salary word w. */
  lemma SalaryWordMatchesFront(k: nat, t: string)
    requires k < |SalaryWords|
    ensures MatchLength(Words(SalaryWords), SalaryWords[k] + t, 0) == |SalaryWords[k]|
  {
    var w := SalaryWords[k];
    assert (w + t)[0..|w|] == w;
    SalaryWordsStartApart();
    FirstWordLengthAt(SalaryWords, w + t, 0, k);
  }

  /** A salary word at the front is deleted whole: the scan goes on right after it. */
  lemma LeadingSalaryWordDropped(k: nat, t: string)
    requires k < |SalaryWords|
    ensures DeleteMatches(SalaryWords[k] + t, 0, Words(SalaryWords))
         == DeleteMatches(SalaryWords[k] + t, |SalaryWords[k]|, Words(SalaryWords))
  {
    SalaryWordMatchesFront(k, t);
    DropTo(SalaryWords[k] + t, 0, |SalaryWords[k]|, Words(SalaryWords));
  }

  // -------------------------------------------------------- CakeResume sample

  /** crawl_cakeresume_jobs: the one sample job for the keyword; the limit is not used. */
  function CakeresumeJobs(keyword: string, limit: int, now: string): (jobs: seq<JobRecord>)
    ensures |jobs| == 1
    ensures jobs[0].title == keyword + "工程師" && jobs[0].platform == "CakeResume"
    ensures jobs[0].tags == ["CakeResume", keyword] && jobs[0].createdAt == now
  {
    [JobRecord("cake_1", keyword + "工程師", "新創科技公司", "60,000 - 90,000", "台北市",
               "https://www.cakeresume.com/jobs", "CakeResume", "https://www.cakeresume.com/favicon.ico",
               keyword + "相關職缺", ["相關經驗", "團隊合作"], ["CakeResume", keyword], now)]
  }

  /** The first characters of the salary words. */
  predicate StartsSalaryWord(c: char) {
    c in "月年時待薪N$"
  }

  /** No salary word starts at j when the character there starts none. */
  lemma NoSalaryWordAt(s: string, j: nat)
    requires j <= |s| && (j < |s| ==> !StartsSalaryWord(s[j]))
    ensures MatchLength(Words(SalaryWords), s, j) == 0
  {
    assert forall k :: 0 <= k < |SalaryWords| ==> StartsSalaryWord(SalaryWords[k][0]);
  }

  /** A figure: digits and thousands separators, starting with a digit. */
  predicate IsFigure(a: string) {
    a != [] && IsDigit(a[0]) && forall i :: 0 <= i < |a| ==> IsDigit(a[i]) || a[i] == ','
  }

  /** The characters of "low - high", by position. */
  lemma FigureRangeChars(a: string, b: string)
    requires IsFigure(a) && IsFigure(b)
    ensures var s := a + " - " + b;
      |s| == |a| + 3 + |b| && s[|a|] == ' ' && s[|a| + 1] == '-' && s[|a| + 2] == ' '
      && (forall i :: 0 <= i < |a| ==> s[i] == a[i]) && (forall i :: 0 <= i < |b| ==> s[|a| + 3 + i] == b[i])
  {
  }

  /** Every character of "low - high" is a space, a digit, ',' or '-'. */
  predicate RangeChar(c: char) {
    c == ' ' || IsDigit(c) || c == ',' || c == '-'
  }

  lemma RangeCharStartsNone(c: char)
    requires RangeChar(c)
    ensures !StartsSalaryWord(c)
  {
  }

  lemma FigureRangeCharset(a: string, b: string)
    requires IsFigure(a) && IsFigure(b)
    ensures forall i :: 0 <= i < |a + " - " + b| ==> RangeChar((a + " - " + b)[i])
  {
    var s := a + " - " + b;
    FigureRangeChars(a, b);
    forall i | 0 <= i < |s| ensures RangeChar(s[i]) {
      if i < |a| {
        assert s[i] == a[i];
      } else if i >= |a| + 3 {
        assert s[i] == b[i - |a| - 3];
      }
    }
  }

  /** A range of two figures written "low - high" is single-spaced. */
  lemma FigureRangeSingleSpaced(a: string, b: string)
    requires IsFigure(a) && IsFigure(b)
    ensures SingleSpaced(a + " - " + b)
  {
    FigureRangeChars(a, b);
    FigureRangeCharset(a, b);
  }

  /** A text in which no character starts a salary word has none to delete. */
  lemma NoSalaryWordStart(s: string)
    requires forall j :: 0 <= j < |s| ==> !StartsSalaryWord(s[j])
    ensures DeleteMatches(s, 0, Words(SalaryWords)) == s
  {
    forall j | 0 <= j <= |s| ensures MatchLength(Words(SalaryWords), s, j) == 0 {
      NoSalaryWordAt(s, j);
    }
    DeleteNothing(s, 0, Words(SalaryWords));
    assert s[0..] == s;
  }

  /** A range of two figures holds no salary word. */
  lemma FigureRangeNoSalaryWord(a: string, b: string)
    requires IsFigure(a) && IsFigure(b)
    ensures DeleteMatches(a + " - " + b, 0, Words(SalaryWords)) == a + " - " + b
  {
    var s := a + " - " + b;
    FigureRangeCharset(a, b);
    forall j | 0 <= j < |s| ensures !StartsSalaryWord(s[j]) {
      RangeCharStartsNone(s[j]);
    }
    NoSalaryWordStart(s);
  }

  /** extract_salary keeps a salary range written "low - high" as it is. */
  lemma FigureRangeKept(a: string, b: string)
    requires IsFigure(a) && IsFigure(b)
    ensures ExtractSalary(a + " - " + b) == a + " - " + b
  {
    var s := a + " - " + b;
    FigureRangeNoSalaryWord(a, b);
    FigureRangeSingleSpaced(a, b);
    assert s[|s| - 1] == b[|b| - 1];
    assert s[0] == a[0];
    CleanTextOfClean(s);
  }
}
