/**
 * Hand-written matchers for the fixed regular expressions the core uses, with
 * the leftmost-first search of Python's re.search / re.findall / re.sub.
 *
 * Each pattern is a chain of greedy pieces whose character classes are disjoint
 * from whatever the next piece needs (a digit run is followed by a unit, a space
 * or a separator, never by another digit, and so on). Giving back a character
 * from any greedy piece therefore always makes the next piece fail, so at a given
 * start position the backtracking engine finds at most one match, the greedy one;
 * the matchers below compute exactly that match.
 */
module Patterns {
  import opened Wrappers
  import opened Text

  /** A match: where it starts and ends, and the text of its capture groups. */
  datatype Match = Match(start: nat, end: nat, groups: seq<string>)

  /** The salary patterns of the condition guide and the query parser. */
  datatype Pattern =
    | GuideRange          // (\d+)([k千萬]?)\s*[-~到]\s*(\d+)([k千萬]?)
    | GuideLabelledRange  // 薪資?\s*(\d+)([k千萬]?)\s*[-~到]\s*(\d+)([k千萬]?)
    | GuideAbove          // (\d+)([k千萬]?)\s*以上
    | GuideAtLeast        // 至少\s*(\d+)([k千萬]?)
    | GuideFrom           // 薪資?\s*(\d+)([k千萬]?)\s*起
    | QueryRange          // (\d+)([k萬]?)\s*[-~]\s*(\d+)([k萬]?)

  /** Number of capture groups: amount and unit, once or twice. */
  function Arity(p: Pattern): nat {
    match p
    case GuideRange | GuideLabelledRange | QueryRange => 4
    case GuideAbove | GuideAtLeast | GuideFrom => 2
  }

  const GuideUnits: seq<char> := ['k', '千', '萬']
  const QueryUnits: seq<char> := ['k', '萬']
  const GuideSeparators: seq<char> := ['-', '~', '到']
  const QuerySeparators: seq<char> := ['-', '~']

  /** Where a greedy `\d*` starting at i stops. */
  function DigitRunEnd(s: string, i: nat): (j: nat)
    requires i <= |s|
    ensures i <= j <= |s|
    ensures forall k :: i <= k < j ==> IsDigit(s[k])
    ensures j == |s| || !IsDigit(s[j])
    decreases |s| - i
  {
    if i < |s| && IsDigit(s[i]) then DigitRunEnd(s, i + 1) else i
  }

  /** Where a greedy `\s*` starting at i stops. */
  function SpaceRunEnd(s: string, i: nat): (j: nat)
    requires i <= |s|
    ensures i <= j <= |s|
    ensures forall k :: i <= k < j ==> IsSpace(s[k])
    ensures j == |s| || !IsSpace(s[j])
    decreases |s| - i
  {
    if i < |s| && IsSpace(s[i]) then SpaceRunEnd(s, i + 1) else i
  }

  /** Where a greedy optional unit `[units]?` at i stops. */
  function UnitEnd(s: string, i: nat, units: seq<char>): (j: nat)
    requires i <= |s|
    ensures j == i || (i < |s| && j == i + 1 && s[i] in units)
    ensures j == i ==> i == |s| || s[i] !in units
  {
    if i < |s| && s[i] in units then i + 1 else i
  }

  /** Where the literal `lit` at i ends, if it is there. */
  function LiteralEnd(s: string, i: nat, lit: string): (r: Option<nat>)
    requires i <= |s|
    ensures r.Some? ==> r.value == i + |lit| <= |s|
  {
    if i + |lit| <= |s| && s[i..i + |lit|] == lit then Some(i + |lit|) else None
  }

  /** `(\d+)([units]?)` at p: where it ends, and the amount and unit groups. */
  function AmountAt(s: string, p: nat, units: seq<char>): (r: Option<(nat, seq<string>)>)
    requires p <= |s|
    ensures r.Some? ==> p < r.value.0 <= |s| && |r.value.1| == 2 && IsDigits(r.value.1[0])
  {
    if p < |s| && IsDigit(s[p]) then
      var a := DigitRunEnd(s, p);
      var b := UnitEnd(s, a, units);
      Some((b, [s[p..a], s[a..b]]))
    else None
  }

  /** `(\d+)([units]?)\s*[seps]\s*(\d+)([units]?)` at p. */
  function RangeAt(s: string, p: nat, units: seq<char>, seps: seq<char>): (r: Option<(nat, seq<string>)>)
    requires p <= |s|
    ensures r.Some? ==> p < r.value.0 <= |s| && |r.value.1| == 4
    ensures r.Some? ==> IsDigits(r.value.1[0]) && IsDigits(r.value.1[2])
  {
    match AmountAt(s, p, units)
    case None => None
    case Some(low) =>
      var c := SpaceRunEnd(s, low.0);
      if c < |s| && s[c] in seps then
        match AmountAt(s, SpaceRunEnd(s, c + 1), units)
        case None => None
        case Some(high) => Some((high.0, low.1 + high.1))
      else None
  }

  /** `薪資?\s*` at p: where the label and the spaces after it end. */
  function LabelEnd(s: string, p: nat): (r: Option<nat>)
    requires p <= |s|
    ensures r.Some? ==> p < r.value <= |s|
  {
    if p < |s| && s[p] == '薪' then
      Some(SpaceRunEnd(s, if p + 1 < |s| && s[p + 1] == '資' then p + 2 else p + 1))
    else None
  }

  /** An amount followed by optional spaces and the literal `lit`. */
  function AmountThen(s: string, p: nat, lit: string): (r: Option<(nat, seq<string>)>)
    requires p <= |s|
    ensures r.Some? ==> p < r.value.0 <= |s| && |r.value.1| == 2 && IsDigits(r.value.1[0])
  {
    match AmountAt(s, p, GuideUnits)
    case None => None
    case Some(amount) =>
      match LiteralEnd(s, SpaceRunEnd(s, amount.0), lit)
      case None => None
      case Some(e) => Some((e, amount.1))
  }

  /** The match of pattern `pat` that starts exactly at index i, if any. */
  function MatchAt(pat: Pattern, s: string, i: nat): (r: Option<Match>)
    requires i <= |s|
    ensures r.Some? ==> r.value.start == i && i < r.value.end <= |s| && |r.value.groups| == Arity(pat)
    ensures r.Some? ==> IsDigits(r.value.groups[0]) && (Arity(pat) == 4 ==> IsDigits(r.value.groups[2]))
  {
    var body: Option<(nat, seq<string>)> :=
      match pat
      case GuideRange => RangeAt(s, i, GuideUnits, GuideSeparators)
      case QueryRange => RangeAt(s, i, QueryUnits, QuerySeparators)
      case GuideLabelledRange =>
        (match LabelEnd(s, i)
         case None => None
         case Some(p) => RangeAt(s, p, GuideUnits, GuideSeparators))
      case GuideAbove => AmountThen(s, i, "以上")
      case GuideAtLeast =>
        (match LiteralEnd(s, i, "至少")
         case None => None
         case Some(p) => AmountAt(s, SpaceRunEnd(s, p), GuideUnits))
      case GuideFrom =>
        (match LabelEnd(s, i)
         case None => None
         case Some(p) => AmountThen(s, p, "起"));
    match body
    case None => None
    case Some(b) => Some(Match(i, b.0, b.1))
  }

  /** re.search from index `from`: the match at the smallest start position. */
  function Search(pat: Pattern, s: string, from: nat): (r: Option<Match>)
    requires from <= |s|
    ensures r.Some? ==> from <= r.value.start <= |s| && MatchAt(pat, s, r.value.start) == r
    ensures forall i :: from <= i <= |s| && (r.Some? ==> i < r.value.start) ==> MatchAt(pat, s, i).None?
    decreases |s| - from
  {
    var m := MatchAt(pat, s, from);
    if m.Some? then m
    else if from == |s| then None
    else Search(pat, s, from + 1)
  }

  /**
   * re.findall from index `from`: successive non-overlapping matches, the first
   * of them what re.search finds from `from` (FindAllChain: each later one is
   * what it finds from the end of the one before, and none is skipped).
   */
  function FindAll(pat: Pattern, s: string, from: nat): (r: seq<Match>)
    requires from <= |s|
    ensures forall k :: 0 <= k < |r| ==> from <= r[k].start < r[k].end <= |s| && MatchAt(pat, s, r[k].start) == Some(r[k])
    ensures r == [] <==> Search(pat, s, from).None?
    ensures r != [] ==> Search(pat, s, from) == Some(r[0])
    decreases |s| - from
  {
    match Search(pat, s, from)
    case None => []
    case Some(m) =>
      var rest := FindAll(pat, s, m.end);
      ConsIndex(m, rest);
      [m] + rest
  }

  /**
   * Each match after the first is what re.search finds from the end of the one
   * before, and after the last one it finds nothing: no match is skipped.
   */
  lemma {:induction false} FindAllChain(pat: Pattern, s: string, from: nat)
    requires from <= |s|
    ensures Chained(pat, s, FindAll(pat, s, from))
    decreases |s| - from, 1
  {
    if FindAll(pat, s, from) != [] {
      FindAllChainCons(pat, s, from);
    }
  }

  /** After the last match re.findall returns, re.search finds nothing more. */
  lemma FindAllLast(pat: Pattern, s: string, from: nat)
    requires from <= |s|
    ensures var r := FindAll(pat, s, from);
      r != [] ==> Search(pat, s, r[|r| - 1].end).None?
  {
    FindAllChain(pat, s, from);
  }

  /** FindAllChain for a non-empty FindAll: the first match followed by the rest's chain. */
  lemma {:induction false} FindAllChainCons(pat: Pattern, s: string, from: nat)
    requires from <= |s| && FindAll(pat, s, from) != []
    ensures Chained(pat, s, FindAll(pat, s, from))
    decreases |s| - from, 0
  {
    var r := FindAll(pat, s, from);
    var m := r[0];
    assert Search(pat, s, from) == Some(m);
    var rest := FindAll(pat, s, m.end);
    assert r == [m] + rest;
    FindAllChain(pat, s, m.end);
    ChainedCons(pat, s, m, rest);
  }

  /** A match followed by a chain that starts with what re.search finds after it is a chain. */
  lemma ChainedCons(pat: Pattern, s: string, m: Match, rest: seq<Match>)
    requires m.end <= |s| && forall k :: 0 <= k < |rest| ==> m.end <= rest[k].start && rest[k].end <= |s|
    requires rest == [] <==> Search(pat, s, m.end).None?
    requires rest != [] ==> Search(pat, s, m.end) == Some(rest[0])
    requires Chained(pat, s, rest)
    ensures Chained(pat, s, [m] + rest)
  {
    var r := [m] + rest;
    forall k | 0 < k < |r|
      ensures r[k - 1].end <= r[k].start && Search(pat, s, r[k - 1].end) == Some(r[k])
    {
      assert r[k] == rest[k - 1];
      if k > 1 {
        assert r[k - 1] == rest[k - 2];
      }
    }
    if rest != [] {
      assert r[|r| - 1] == rest[|rest| - 1];
    }
  }

  /**
   * Matches in a row, each what re.search finds from where the one before
   * ends, with nothing more to find after the last one.
   */
  predicate Chained(pat: Pattern, s: string, r: seq<Match>)
    requires forall k :: 0 <= k < |r| ==> r[k].end <= |s|
  {
    (forall k :: 0 < k < |r| ==> r[k - 1].end <= r[k].start && Search(pat, s, r[k - 1].end) == Some(r[k]))
    && (r != [] ==> Search(pat, s, r[|r| - 1].end).None?)
  }

  lemma SliceCons<T>(s: seq<T>, i: nat, j: nat)
    requires i < j <= |s|
    ensures s[i..j] == [s[i]] + s[i + 1..j]
  {
  }

  lemma ConsIndex<T>(x: T, s: seq<T>)
    ensures ([x] + s)[0] == x && forall k :: 1 <= k < |[x] + s| ==> ([x] + s)[k] == s[k - 1]
  {
  }

  /**
   * The second range pattern can only match where the first one matches too:
   * its match contains a match of the first pattern right after the label.
   */
  lemma LabelledRangeContainsRange(s: string, i: nat) returns (p: nat)
    requires i <= |s| && MatchAt(GuideLabelledRange, s, i).Some?
    ensures i < p <= |s| && MatchAt(GuideRange, s, p).Some?
    ensures MatchAt(GuideRange, s, p).value.groups == MatchAt(GuideLabelledRange, s, i).value.groups
  {
    p := LabelEnd(s, i).value;
  }

  /** So whenever re.search finds no range, it finds no labelled range either. */
  lemma {:induction false} LabelledRangeNeverAfterNoRange(s: string)
    requires Search(GuideRange, s, 0).None?
    ensures Search(GuideLabelledRange, s, 0).None?
  {
    if Search(GuideLabelledRange, s, 0).Some? {
      var p := LabelledRangeContainsRange(s, Search(GuideLabelledRange, s, 0).value.start);
    }
  }

  /** ASCII case-insensitive equality of characters (re.IGNORECASE). */
  predicate SameIgnoringCase(a: char, b: char) {
    LowerChar(a) == LowerChar(b)
  }

  /** The literal `lit` at i, compared ignoring case. */
  predicate LiteralAtIgnoringCase(s: string, i: nat, lit: string) {
    i + |lit| <= |s| && forall k :: 0 <= k < |lit| ==> SameIgnoringCase(s[i + k], lit[k])
  }

  /**
   * A pattern whose matches re.sub deletes:
   *  - RangeLiteral: the pattern f'{low}{lowUnit}[-~]{high}{highUnit}' built from a
   *    salary range found earlier, compiled with re.IGNORECASE (its parts are digits
   *    and units, none of them a regex metacharacter);
   *  - Words: the alternation `(w1|w2|...)` of literal words, tried in order.
   */
  datatype Deletion =
    | RangeLiteral(low: string, lowUnit: string, high: string, highUnit: string)
    | Words(words: seq<string>)

  /** Length of the first word of `words` that occurs at i, or 0. */
  function FirstWordLength(words: seq<string>, s: string, i: nat): (n: nat)
    requires i <= |s|
    ensures n <= |s| - i
    ensures n > 0 ==> exists k :: 0 <= k < |words| && words[k] != [] && OccursAt(s, words[k], i) && n == |words[k]|
    ensures n == 0 ==> forall k :: 0 <= k < |words| && words[k] != [] ==> !OccursAt(s, words[k], i)
    decreases |words|
  {
    if words == [] then 0
    else if words[0] != [] && OccursAt(s, words[0], i) then |words[0]|
    else
      var n := FirstWordLength(words[1..], s, i);
      assert forall k :: 1 <= k < |words| ==> words[k] == words[1..][k - 1];
      n
  }

  /**
   * Length of the match of d at i, or 0 for none. (An empty word would match the
   * empty string, which re.sub replaces by '' and so changes nothing: counting it
   * as no match deletes the same text.)
   */
  function MatchLength(d: Deletion, s: string, i: nat): (n: nat)
    requires i <= |s|
    ensures n <= |s| - i
  {
    match d
    case RangeLiteral(low, lowUnit, high, highUnit) =>
      var a := i + |low| + |lowUnit|;
      if LiteralAtIgnoringCase(s, i, low + lowUnit) && a < |s| && s[a] in QuerySeparators
         && LiteralAtIgnoringCase(s, a + 1, high + highUnit)
      then |low| + |lowUnit| + 1 + |high| + |highUnit|
      else 0
    case Words(words) => FirstWordLength(words, s, i)
  }

  /**
   * re.sub(pattern, '', s) from index i: the matches, found left to right without
   * overlapping, are deleted and everything between them is kept.
   */
  function DeleteMatches(s: string, i: nat, d: Deletion): (r: string)
    requires i <= |s|
    ensures |r| <= |s| - i
    decreases |s| - i
  {
    if i == |s| then []
    else
      var n := MatchLength(d, s, i);
      if n > 0 then DeleteMatches(s, i + n, d)
      else [s[i]] + DeleteMatches(s, i + 1, d)
  }

  /** A character where the pattern does not match is kept, and the scan goes on after it. */
  lemma DeleteKeepsOne(s: string, i: nat, d: Deletion)
    requires i < |s| && MatchLength(d, s, i) == 0
    ensures DeleteMatches(s, i, d) == [s[i]] + DeleteMatches(s, i + 1, d)
  {
  }

  /** A stretch where the pattern matches nowhere is kept as it is. */
  lemma {:induction false} DeleteKeepsGap(s: string, i: nat, j: nat, d: Deletion)
    requires i <= j <= |s|
    requires forall k :: i <= k < j ==> MatchLength(d, s, k) == 0
    ensures DeleteMatches(s, i, d) == s[i..j] + DeleteMatches(s, j, d)
    decreases j - i
  {
    if i < j {
      DeleteKeepsGap(s, i + 1, j, d);
      DeleteKeepsOne(s, i, d);
      ConcatAssoc([s[i]], s[i + 1..j], DeleteMatches(s, j, d));
      SliceCons(s, i, j);
    }
  }

  /** A match is dropped whole, and the scan goes on right after it. */
  lemma DeleteDropsMatch(s: string, i: nat, d: Deletion)
    requires i < |s| && MatchLength(d, s, i) > 0
    ensures DeleteMatches(s, i, d) == DeleteMatches(s, i + MatchLength(d, s, i), d)
  {
  }

  /** Where the pattern matches nowhere, nothing is deleted. */
  lemma DeleteNothing(s: string, i: nat, d: Deletion)
    requires i <= |s|
    requires forall j :: i <= j <= |s| ==> MatchLength(d, s, j) == 0
    ensures DeleteMatches(s, i, d) == s[i..]
  {
    DeleteKeepsGap(s, i, |s|, d);
  }

  /** A text with one match only, from i to j: the match is cut out and the rest is kept on both sides. */
  lemma DeleteCutsOut(s: string, i: nat, j: nat, d: Deletion)
    requires i < j <= |s| && MatchLength(d, s, i) == j - i
    requires forall k :: 0 <= k < i ==> MatchLength(d, s, k) == 0
    requires forall k :: j <= k <= |s| ==> MatchLength(d, s, k) == 0
    ensures DeleteMatches(s, 0, d) == s[..i] + s[j..]
  {
    DeleteKeepsGap(s, 0, i, d);
    DropTo(s, i, j, d);
    DeleteNothing(s, j, d);
    assert s[0..i] == s[..i];
  }


  /**
   * The first word of the list that occurs at i is words[k] when no earlier word
   * shares its first character.
   */
  lemma {:induction false} FirstWordLengthAt(words: seq<string>, s: string, i: nat, k: nat)
    requires i <= |s| && k < |words| && words[k] != [] && OccursAt(s, words[k], i)
    requires forall j :: 0 <= j < k ==> words[j] != [] && words[j][0] != words[k][0]
    ensures FirstWordLength(words, s, i) == |words[k]|
    decreases k
  {
    if k > 0 {
      assert s[i..i + |words[k]|][0] == s[i];
      FirstWordLengthAt(words[1..], s, i, k - 1);
    }
  }

  /** A match from i to i2 is dropped: the scan resumes at i2. */
  lemma DropTo(s: string, i: nat, i2: nat, d: Deletion)
    requires i < i2 <= |s| && MatchLength(d, s, i) == i2 - i
    ensures DeleteMatches(s, i, d) == DeleteMatches(s, i2, d)
  {
  }

  /** `re.search(r'\d', s)` succeeds. */
  predicate HasDigit(s: string) {
    exists i :: 0 <= i < |s| && IsDigit(s[i])
  }

  /** Index of the first digit of s at or after i, if any. */
  function FirstDigitFrom(s: string, i: nat): (r: Option<nat>)
    requires i <= |s|
    ensures r.Some? ==> i <= r.value < |s| && IsDigit(s[r.value])
    ensures forall k :: i <= k < |s| && (r.Some? ==> k < r.value) ==> !IsDigit(s[k])
    decreases |s| - i
  {
    if i == |s| then None
    else if IsDigit(s[i]) then Some(i)
    else FirstDigitFrom(s, i + 1)
  }

  /**
   * w is the first maximal run of digits of s, at p: no digit comes before it,
   * and it is not followed by one.
   */
  predicate FirstDigitRun(s: string, p: nat, w: string) {
    IsDigits(w) && p + |w| <= |s| && s[p..p + |w|] == w
    && (forall k :: 0 <= k < p ==> !IsDigit(s[k]))
    && (p + |w| == |s| || !IsDigit(s[p + |w|]))
  }

  /** A first maximal run of digits starts at the first digit and ends where `\d*` stops. */
  lemma FirstDigitRunIsFound(s: string, p: nat, w: string)
    requires FirstDigitRun(s, p, w)
    ensures FirstDigitFrom(s, 0) == Some(p) && p + |w| == DigitRunEnd(s, p)
  {
    assert s[p..p + |w|][0] == s[p];
    assert forall k :: p <= k < p + |w| ==> IsDigit(s[k]) by {
      assert forall k :: p <= k < p + |w| ==> s[k] == s[p..p + |w|][k - p];
    }
  }

  /** `re.findall(r'(\d+)', s)[0]`: the first maximal run of digits, if there is one. */
  function FirstNumber(s: string): (r: Option<string>)
    ensures r.None? <==> !HasDigit(s)
    ensures r.Some? ==> exists p :: FirstDigitRun(s, p, r.value)
  {
    match FirstDigitFrom(s, 0)
    case None => None
    case Some(p) =>
      var w := s[p..DigitRunEnd(s, p)];
      assert FirstDigitRun(s, p, w);
      Some(w)
  }

  /** Conversely, the first maximal run of digits is what FirstNumber returns. */
  lemma FirstNumberFindsRun(s: string, p: nat, w: string)
    requires FirstDigitRun(s, p, w)
    ensures FirstNumber(s) == Some(w)
  {
    FirstDigitRunIsFound(s, p, w);
  }
}
