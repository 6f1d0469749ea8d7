/**
 * The Python string operations the core relies on, written out over `string`
 * (a sequence of Unicode scalar values, so lengths count code points as
 * Python's len does).
 */
module Text {

  /** Python's str.isspace(); `\s` in a str pattern matches the same characters. */
  predicate IsSpace(c: char) {
    c == ' ' || '\t' <= c <= '\r' || '\U{1C}' <= c <= '\U{1F}' || c == '\U{85}' || c == '\U{A0}'
    || c == '\U{1680}' || '\U{2000}' <= c <= '\U{200A}' || c == '\U{2028}' || c == '\U{2029}'
    || c == '\U{202F}' || c == '\U{205F}' || c == '\U{3000}'
  }

  /** A decimal digit (`\d`, str.isdigit), ASCII only. */
  predicate IsDigit(c: char) {
    '0' <= c <= '9'
  }

  /** Python's str.isdigit(): at least one character, and all of them digits. */
  predicate IsDigits(s: string) {
    |s| > 0 && forall i :: 0 <= i < |s| ==> IsDigit(s[i])
  }

  function LowerChar(c: char): char {
    if 'A' <= c <= 'Z' then (c as int + 32) as char else c
  }

  /** str.lower() on ASCII letters; every other character is kept as it is. */
  function Lower(s: string): (r: string)
    ensures |r| == |s|
    ensures forall i :: 0 <= i < |s| ==> r[i] == LowerChar(s[i])
  {
    seq(|s|, i requires 0 <= i < |s| => LowerChar(s[i]))
  }

  /** `sub` occurs in `s` starting at index i. */
  predicate OccursAt(s: string, sub: string, i: int) {
    0 <= i && i + |sub| <= |s| && s[i..i + |sub|] == sub
  }

  /** Python's `sub in s`; the empty string is in every string. */
  predicate Contains(s: string, sub: string) {
    exists i :: 0 <= i <= |s| && OccursAt(s, sub, i)
  }

  /** A word whose first character is not in s does not occur in s. */
  lemma NotContainsWithoutFirst(s: string, w: string)
    requires w != [] && w[0] !in s
    ensures !Contains(s, w)
  {
    forall i | 0 <= i <= |s| ensures !OccursAt(s, w, i) {
      if i + |w| <= |s| {
        assert s[i..i + |w|][0] == s[i];
      }
    }
  }

  /** Some word of the list occurs in s. */
  predicate AnyIn(words: seq<string>, s: string) {
    exists k :: 0 <= k < |words| && Contains(s, words[k])
  }

  /** No element occurs twice. */
  predicate NoDup<T(==)>(s: seq<T>) {
    forall i, j :: 0 <= i < j < |s| ==> s[i] != s[j]
  }

  /** No element of a is an element of b. */
  predicate Disjoint<T(==)>(a: seq<T>, b: seq<T>) {
    forall i, j :: 0 <= i < |a| && 0 <= j < |b| ==> a[i] != b[j]
  }

  /** Two lists without repeats and without common elements make a list without repeats. */
  lemma NoDupConcat<T>(a: seq<T>, b: seq<T>)
    requires NoDup(a) && NoDup(b) && Disjoint(a, b)
    ensures NoDup(a + b)
  {
    var c := a + b;
    forall i, j | 0 <= i < j < |c| ensures c[i] != c[j] {
      if j < |a| {
        assert c[i] == a[i] && c[j] == a[j];
      } else if i < |a| {
        assert c[i] == a[i] && c[j] == b[j - |a|];
      } else {
        assert c[i] == b[i - |a|] && c[j] == b[j - |a|];
      }
    }
  }

  lemma DisjointConcat<T>(a: seq<T>, b: seq<T>, c: seq<T>)
    requires Disjoint(a, c) && Disjoint(b, c)
    ensures Disjoint(a + b, c)
  {
    var ab := a + b;
    forall i, j | 0 <= i < |ab| && 0 <= j < |c| ensures ab[i] != c[j] {
      if i < |a| {
        assert ab[i] == a[i];
      } else {
        assert ab[i] == b[i - |a|];
      }
    }
  }

  /** What is left of s once its leading whitespace is removed (str.lstrip()). */
  function StripLeft(s: string): (r: string)
    ensures |r| <= |s| && r == s[|s| - |r|..]
    ensures r != [] ==> !IsSpace(r[0])
    ensures forall i :: 0 <= i < |s| - |r| ==> IsSpace(s[i])
    decreases |s|
  {
    if s != [] && IsSpace(s[0]) then StripLeft(s[1..]) else s
  }

  /** What is left of s once its trailing whitespace is removed (str.rstrip()). */
  function StripRight(s: string): (r: string)
    ensures |r| <= |s| && r == s[..|r|]
    ensures r != [] ==> !IsSpace(r[|r| - 1])
    ensures forall i :: |r| <= i < |s| ==> IsSpace(s[i])
    decreases |s|
  {
    if s != [] && IsSpace(s[|s| - 1]) then StripRight(s[..|s| - 1]) else s
  }

  /** str.strip() with no argument. */
  function Strip(s: string): (r: string)
    ensures |r| <= |s|
    ensures r != [] ==> !IsSpace(r[0]) && !IsSpace(r[|r| - 1])
  {
    StripRight(StripLeft(s))
  }

  /** A string with no whitespace at either end is its own strip. */
  lemma StripTrimmed(s: string)
    requires s != [] ==> !IsSpace(s[0]) && !IsSpace(s[|s| - 1])
    ensures Strip(s) == s
  {
  }

  /** A string with no ASCII capital is its own lower(). */
  lemma LowerNoCapital(s: string)
    requires forall i :: 0 <= i < |s| ==> !('A' <= s[i] <= 'Z')
    ensures Lower(s) == s
  {
  }

  /** Length of the run of non-whitespace characters at the front of s. */
  function WordLength(s: string): (n: nat)
    ensures n <= |s|
    ensures forall i :: 0 <= i < n ==> !IsSpace(s[i])
    ensures n == |s| || IsSpace(s[n])
    decreases |s|
  {
    if s != [] && !IsSpace(s[0]) then 1 + WordLength(s[1..]) else 0
  }

  /** A non-empty run of non-whitespace characters. */
  predicate IsWord(w: string) {
    w != [] && forall i :: 0 <= i < |w| ==> !IsSpace(w[i])
  }

  /** A text made of whitespace only (the empty text included). */
  predicate AllSpace(s: string) {
    forall i :: 0 <= i < |s| ==> IsSpace(s[i])
  }

  /**
   * str.split() with no argument: the maximal runs of non-whitespace characters,
   * in order. SplitJoin and SplitUnique pin the pieces down completely.
   */
  function Split(s: string): (r: seq<string>)
    ensures forall k :: 0 <= k < |r| ==> IsWord(r[k])
    ensures r == [] <==> AllSpace(s)
    decreases |s|
  {
    if s == [] then []
    else if IsSpace(s[0]) then
      assert forall i :: 1 <= i < |s| ==> s[i] == s[1..][i - 1];
      Split(s[1..])
    else
      var n := WordLength(s);
      [s[..n]] + Split(s[n..])
  }

  /** ' '.join(words). */
  function JoinSpaced(words: seq<string>): string
    decreases |words|
  {
    if words == [] then ""
    else if |words| == 1 then words[0]
    else words[0] + " " + JoinSpaced(words[1..])
  }

  /** Every piece of str.split() occurs in the text. */
  lemma {:induction false} SplitPiecesOccur(s: string)
    ensures forall k :: 0 <= k < |Split(s)| ==> Contains(s, Split(s)[k])
    decreases |s|
  {
    if s != [] {
      var n := if IsSpace(s[0]) then 1 else WordLength(s);
      var rest := Split(s[n..]);
      SplitPiecesOccur(s[n..]);
      forall k | 0 <= k < |rest| ensures Contains(s, rest[k]) {
        SuffixContains(s, n, rest[k]);
      }
      if !IsSpace(s[0]) {
        assert Split(s) == [s[..n]] + rest;
        assert OccursAt(s, s[..n], 0);
        assert forall k :: 1 <= k < |Split(s)| ==> Split(s)[k] == rest[k - 1];
      }
    }
  }

  /** A substring of a substring is a substring. */
  lemma ContainsTransitive(a: string, b: string, c: string)
    ensures Contains(a, b) && Contains(b, c) ==> Contains(a, c)
  {
    if Contains(a, b) && Contains(b, c) {
      var i :| 0 <= i <= |a| && OccursAt(a, b, i);
      var j :| 0 <= j <= |b| && OccursAt(b, c, j);
      SliceOfSlice(a, i, |b|, j, |c|);
      assert OccursAt(a, c, i + j);
    }
  }

  lemma SliceOfSlice<T>(s: seq<T>, i: nat, n: nat, j: nat, m: nat)
    requires i + n <= |s| && j + m <= n
    ensures s[i..i + n][j..j + m] == s[i + j..i + j + m]
  {
    var x, y := s[i..i + n][j..j + m], s[i + j..i + j + m];
    assert forall t :: 0 <= t < m ==> x[t] == y[t];
  }

  lemma {:induction false} SplitStripLeft(s: string)
    ensures Split(StripLeft(s)) == Split(s)
    decreases |s|
  {
    if s != [] && IsSpace(s[0]) {
      SplitStripLeft(s[1..]);
    }
  }

  // Sequence identities, proved apart from any string context (where the
  // solver would otherwise drown in the character predicates).

  lemma ConcatAssoc<T>(a: seq<T>, b: seq<T>, c: seq<T>)
    ensures a + (b + c) == (a + b) + c
  {
  }

  lemma ConsPrefix<T>(s: seq<T>, n: nat)
    requires 0 < n <= |s|
    ensures [s[0]] + s[1..][..n - 1] == s[..n] && s[1..][n - 1..] == s[n..]
  {
  }

  lemma DropLast<T>(a: seq<T>, b: seq<T>)
    requires b != []
    ensures (a + b)[..|a + b| - 1] == a + b[..|b| - 1] && (a + b)[|a + b| - 1] == b[|b| - 1]
  {
  }

  lemma TakeDrop<T>(s: seq<T>, n: nat)
    requires n <= |s|
    ensures s == s[..n] + s[n..]
  {
  }

  lemma ConsTail<T>(x: T, s: seq<T>)
    ensures ([x] + s)[1..] == s && ([x] + s)[0] == x
  {
  }

  lemma AppendEmpty<T>(a: seq<T>)
    ensures a + [] == a
  {
  }

  /** Collapsing passes a leading word through unchanged. */
  lemma {:induction false} CollapseWord(s: string)
    ensures CollapseSpaces(s) == s[..WordLength(s)] + CollapseSpaces(s[WordLength(s)..])
    decreases |s|
  {
    var n := WordLength(s);
    if n == 0 {
      assert s[..n] == [] && s[n..] == s;
    } else {
      var t := s[1..];
      CollapseFirstOfWord(s);
      CollapseWord(t);
      ConsJoin(s, n, CollapseSpaces(t[n - 1..]));
    }
  }

  /** A text that starts with a word: its first character is copied and the word goes on in the tail. */
  lemma CollapseFirstOfWord(s: string)
    requires WordLength(s) > 0
    ensures WordLength(s[1..]) == WordLength(s) - 1
    ensures CollapseSpaces(s) == [s[0]] + CollapseSpaces(s[1..])
  {
  }

  lemma ConsJoin<T>(s: seq<T>, n: nat, x: seq<T>)
    requires 0 < n <= |s|
    ensures [s[0]] + (s[1..][..n - 1] + x) == s[..n] + x && s[1..][n - 1..] == s[n..]
  {
    ConsPrefix(s, n);
    ConcatAssoc([s[0]], s[1..][..n - 1], x);
  }

  /** rstrip ignores whitespace appended to a text. */
  lemma {:induction false} StripRightSpaces(a: string, b: string)
    requires AllSpace(b)
    ensures StripRight(a + b) == StripRight(a)
    decreases |b|
  {
    if b != [] {
      var b' := b[..|b| - 1];
      DropLast(a, b);
      assert StripRight(a + b) == StripRight(a + b');
      assert AllSpace(b') by {
        forall i | 0 <= i < |b'| ensures IsSpace(b'[i]) {
          assert b'[i] == b[i];
        }
      }
      StripRightSpaces(a, b');
    } else {
      AppendEmpty(a);
    }
  }

  /** rstrip of a text whose tail starts with a non-whitespace character only touches that tail. */
  lemma {:induction false} StripRightConcat(a: string, b: string)
    requires b != [] && !IsSpace(b[0])
    ensures StripRight(a + b) == a + StripRight(b)
    decreases |b|
  {
    DropLast(a, b);
    if IsSpace(b[|b| - 1]) {
      var b' := b[..|b| - 1];
      assert StripRight(a + b) == StripRight(a + b');
      assert StripRight(b) == StripRight(b');
      StripRightConcat(a, b');
    }
  }

  /** A word followed by nothing but whitespace: collapsing and rstrip leave the word alone. */
  lemma LastWord(t: string, w: string, rest: string)
    requires IsWord(w) && AllSpace(rest)
    requires CollapseSpaces(t) == w + CollapseSpaces(rest)
    ensures StripRight(CollapseSpaces(t)) == w
  {
    AppendEmpty(w);
    if rest != [] {
      assert StripLeft(rest[1..]) == [];
      assert CollapseSpaces(rest) == " " + CollapseSpaces([]);
      StripRightSpaces(w, " ");
    }
    assert StripRight(w) == w;
  }

  /** A word, whitespace, and then more text u that starts with a non-whitespace character. */
  lemma InnerWord(t: string, w: string, rest: string, u: string)
    requires IsWord(w) && rest != [] && IsSpace(rest[0]) && u == StripLeft(rest[1..]) && u != []
    requires CollapseSpaces(t) == w + CollapseSpaces(rest)
    requires JoinSpaced(Split(u)) == StripRight(CollapseSpaces(u))
    requires Split(t) == [w] + Split(u)
    ensures JoinSpaced(Split(t)) == StripRight(CollapseSpaces(t))
  {
    assert Split(u) != [];
    ConsTail(w, Split(u));
    assert JoinSpaced(Split(t)) == w + " " + JoinSpaced(Split(u));
    assert CollapseSpaces(rest) == " " + CollapseSpaces(u);
    ConcatAssoc(w, " ", CollapseSpaces(u));
    StripRightConcat(w + " ", CollapseSpaces(u));
  }

  /** For a text that does not start with whitespace, the pieces joined by single spaces are the collapsed text without its trailing space. */
  lemma {:induction false} SplitJoinTrimmed(t: string)
    requires t == [] || !IsSpace(t[0])
    ensures JoinSpaced(Split(t)) == StripRight(CollapseSpaces(t))
    decreases |t|
  {
    if t != [] {
      var n := WordLength(t);
      var w := t[..n];
      var rest := t[n..];
      LeadingWord(t);
      CollapseWord(t);
      SplitStripLeft(rest);
      var u := StripLeft(rest);
      if u == [] {
        LastWord(t, w, rest);
      } else {
        SplitJoinTrimmed(u);
        InnerWord(t, w, rest, u);
      }
    }
  }

  /** The first piece of a text that starts with a non-whitespace character. */
  lemma LeadingWord(t: string)
    requires t != [] && !IsSpace(t[0])
    ensures IsWord(t[..WordLength(t)]) && Split(t) == [t[..WordLength(t)]] + Split(t[WordLength(t)..])
    ensures t[WordLength(t)..] == [] || IsSpace(t[WordLength(t)..][0])
    ensures StripLeft(t[WordLength(t)..]) == [] ==> AllSpace(t[WordLength(t)..])
    ensures StripLeft(t[WordLength(t)..]) != [] ==>
      t[WordLength(t)..] != [] && StripLeft(t[WordLength(t)..]) == StripLeft(t[WordLength(t)..][1..])
  {
    var n := WordLength(t);
    var w := t[..n];
    assert IsWord(w) by {
      forall i | 0 <= i < |w| ensures !IsSpace(w[i]) {
        assert w[i] == t[i];
      }
    }
  }

  /** str.split() followed by ' '.join gives the text with its whitespace collapsed and stripped. */
  lemma SplitJoin(s: string)
    ensures JoinSpaced(Split(s)) == Strip(CollapseSpaces(s))
  {
    SplitStripLeft(s);
    SplitJoinTrimmed(StripLeft(s));
    if s != [] && IsSpace(s[0]) {
      var c := CollapseSpaces(StripLeft(s[1..]));
      assert CollapseSpaces(s) == " " + c;
      assert StripLeft(" " + c) == StripLeft(c);
      assert StripLeft(s) == StripLeft(s[1..]);
    }
  }

  /** The first word and the rest of a joined list of words. */
  lemma JoinSpacedParts(words: seq<string>)
    requires words != [] && IsWord(words[0])
    ensures WordLength(JoinSpaced(words)) == |words[0]|
    ensures JoinSpaced(words)[..|words[0]|] == words[0]
    ensures |words| == 1 <==> |JoinSpaced(words)| == |words[0]|
    ensures |words| > 1 ==> JoinSpaced(words)[|words[0]| + 1..] == JoinSpaced(words[1..])
  {
    var j := JoinSpaced(words);
    var w := words[0];
    WordPrefixLength(w, j[|w|..]);
    if |words| > 1 {
      assert j == w + (" " + JoinSpaced(words[1..]));
      assert j[|w| + 1..] == JoinSpaced(words[1..]);
    } else {
      assert j == w + [];
    }
  }

  /** A word followed by an empty text or whitespace has the word length. */
  lemma {:induction false} WordPrefixLength(w: string, rest: string)
    requires IsWord(w) && (rest == [] || IsSpace(rest[0]))
    ensures WordLength(w + rest) == |w|
    decreases |w|
  {
    if |w| > 1 {
      assert (w + rest)[1..] == w[1..] + rest;
      WordPrefixLength(w[1..], rest);
    } else {
      assert (w + rest)[1..] == rest;
    }
  }

  /** Lists of words joined by single spaces are equal only if the lists are. */
  lemma {:induction false} JoinSpacedInjective(a: seq<string>, b: seq<string>)
    requires forall k :: 0 <= k < |a| ==> IsWord(a[k])
    requires forall k :: 0 <= k < |b| ==> IsWord(b[k])
    requires JoinSpaced(a) == JoinSpaced(b)
    ensures a == b
    decreases |a|
  {
    if a != [] && b != [] {
      JoinSpacedParts(a);
      JoinSpacedParts(b);
      assert a[0] == b[0];
      if |a| > 1 {
        JoinSpacedInjective(a[1..], b[1..]);
        assert a == [a[0]] + a[1..] && b == [b[0]] + b[1..];
      }
    } else if a != [] {
      JoinSpacedParts(a);
      assert false;
    } else if b != [] {
      JoinSpacedParts(b);
      assert false;
    }
  }

  /** Any list of words that joins to the collapsed, stripped text is what str.split() returns. */
  lemma SplitUnique(s: string, words: seq<string>)
    requires forall k :: 0 <= k < |words| ==> IsWord(words[k])
    requires JoinSpaced(words) == Strip(CollapseSpaces(s))
    ensures words == Split(s)
  {
    SplitJoin(s);
    var pieces := Split(s);
    assert forall k :: 0 <= k < |pieces| ==> IsWord(pieces[k]);
    assert JoinSpaced(words) == JoinSpaced(pieces);
    JoinSpacedInjective(words, pieces);
  }

  /**
   * str.replace(pat, repl): every non-overlapping occurrence of pat, found left
   * to right; an empty pat occurs before every character and at the end.
   */
  function Replace(s: string, pat: string, repl: string): (r: string)
    ensures pat != [] && !Contains(s, pat) ==> r == s
    ensures pat != [] && |repl| <= |pat| ==> |r| <= |s|
    decreases |s|
  {
    if pat == [] then repl + (if s == [] then [] else [s[0]] + Replace(s[1..], pat, repl))
    else if |s| < |pat| then s
    else if s[..|pat|] == pat then
      PrefixContains(s, pat);
      repl + Replace(s[|pat|..], pat, repl)
    else
      var rest := Replace(s[1..], pat, repl);
      CopyKeepsAbsent(s, pat, rest);
      [s[0]] + rest
  }

  /** A text that starts with the word contains it. */
  lemma PrefixContains(s: string, pat: string)
    requires |pat| <= |s| && s[..|pat|] == pat
    ensures Contains(s, pat)
  {
    assert OccursAt(s, pat, 0);
  }

  /** If the tail is kept whenever it lacks the word, the whole text is kept whenever it lacks the word. */
  lemma CopyKeepsAbsent(s: string, pat: string, rest: string)
    requires s != [] && (!Contains(s[1..], pat) ==> rest == s[1..])
    ensures !Contains(s, pat) ==> [s[0]] + rest == s
  {
    SuffixContains(s, 1, pat);
    if !Contains(s, pat) {
      assert [s[0]] + s[1..] == s;
    }
  }

  /** One step of Replace for a non-empty pattern, where it copies a character. */
  lemma ReplaceCopyStep(s: string, pat: string, repl: string)
    requires pat != [] && |s| >= |pat| && s[..|pat|] != pat
    ensures Replace(s, pat, repl) == [s[0]] + Replace(s[1..], pat, repl)
  {
  }

  /** One step of Replace for a non-empty pattern, where it replaces an occurrence. */
  lemma ReplaceMatchStep(s: string, pat: string, repl: string)
    requires pat != [] && |s| >= |pat| && s[..|pat|] == pat
    ensures Replace(s, pat, repl) == repl + Replace(s[|pat|..], pat, repl)
  {
  }

  /** No proper prefix of the word is also a suffix of it, so two occurrences never overlap. */
  predicate BorderFree(pat: string) {
    forall j :: 0 < j < |pat| ==> pat[..j] != pat[|pat| - j..]
  }

  /** A border-free word in front of a shorter text never occurs at its start. */
  lemma ShortFrontMisses(a: string, pat: string, b: string)
    requires BorderFree(pat) && 0 < |a| < |pat|
    ensures (a + pat + b)[..|pat|] != pat
  {
    var t := a + pat + b;
    var j := |pat| - |a|;
    assert t[|a|..|pat|] == pat[..j];
  }

  /** Replace copies a text shorter than the word. */
  lemma ReplaceShort(s: string, pat: string, repl: string)
    requires |s| < |pat|
    ensures Replace(s, pat, repl) == s
  {
  }

  /** Where a + pat + b starts, and what follows its first character. */
  lemma FrontSlices(a: string, pat: string, b: string)
    requires a != []
    ensures (a + pat + b)[1..] == a[1..] + pat + b
    ensures |pat| <= |a| ==> (a + pat + b)[..|pat|] == a[..|pat|]
  {
  }

  /** Where pat + b starts, and what follows pat. */
  lemma MatchSlices(a: string, pat: string, b: string)
    requires |pat| <= |a| && a[..|pat|] == pat
    ensures (a + pat + b)[..|pat|] == pat && (a + pat + b)[|pat|..] == a[|pat|..] + pat + b
  {
  }

  /** The step of ReplaceAround where a is shorter than the word. */
  lemma ReplaceAroundShort(a: string, pat: string, b: string, repl: string)
    requires BorderFree(pat) && 0 < |a| < |pat|
    requires Replace(a[1..] + pat + b, pat, repl) == a[1..] + repl + Replace(b, pat, repl)
    ensures Replace(a + pat + b, pat, repl) == a + repl + Replace(b, pat, repl)
  {
    ShortFrontMisses(a, pat, b);
    FrontSlices(a, pat, b);
    ReplaceCopyStep(a + pat + b, pat, repl);
    ConcatAssoc4([a[0]], a[1..], repl, Replace(b, pat, repl));
    ConsTail(a[0], a[1..]);
    assert a == [a[0]] + a[1..];
  }

  /** The step of ReplaceAround where a starts with the word. */
  lemma ReplaceAroundMatch(a: string, pat: string, b: string, repl: string)
    requires pat != [] && |a| >= |pat| && a[..|pat|] == pat
    requires Replace(a[|pat|..] + pat + b, pat, repl) == Replace(a[|pat|..], pat, repl) + repl + Replace(b, pat, repl)
    ensures Replace(a + pat + b, pat, repl) == Replace(a, pat, repl) + repl + Replace(b, pat, repl)
  {
    MatchSlices(a, pat, b);
    ReplaceMatchStep(a + pat + b, pat, repl);
    ReplaceMatchStep(a, pat, repl);
    ConcatAssoc4(repl, Replace(a[|pat|..], pat, repl), repl, Replace(b, pat, repl));
  }

  /** The step of ReplaceAround where a does not start with the word. */
  lemma ReplaceAroundCopy(a: string, pat: string, b: string, repl: string)
    requires pat != [] && |a| >= |pat| && a[..|pat|] != pat
    requires Replace(a[1..] + pat + b, pat, repl) == Replace(a[1..], pat, repl) + repl + Replace(b, pat, repl)
    ensures Replace(a + pat + b, pat, repl) == Replace(a, pat, repl) + repl + Replace(b, pat, repl)
  {
    FrontSlices(a, pat, b);
    ReplaceCopyStep(a + pat + b, pat, repl);
    ReplaceCopyStep(a, pat, repl);
    ConcatAssoc4([a[0]], Replace(a[1..], pat, repl), repl, Replace(b, pat, repl));
  }

  lemma ConcatAssoc4<T>(p: seq<T>, q: seq<T>, r: seq<T>, u: seq<T>)
    ensures p + (q + r + u) == (p + q) + r + u
  {
  }

  /**
   * An occurrence of a border-free word is replaced, and the text on either side
   * is treated as if on its own.
   */
  lemma {:induction false} ReplaceAround(a: string, pat: string, b: string, repl: string)
    requires pat != [] && BorderFree(pat)
    ensures Replace(a + pat + b, pat, repl) == Replace(a, pat, repl) + repl + Replace(b, pat, repl)
    decreases |a|
  {
    if a == [] {
      var t := a + pat + b;
      assert t[..|pat|] == pat && t[|pat|..] == b;
      ReplaceMatchStep(t, pat, repl);
    } else if |a| < |pat| {
      ReplaceAround(a[1..], pat, b, repl);
      ReplaceShort(a[1..], pat, repl);
      ReplaceAroundShort(a, pat, b, repl);
      ReplaceShort(a, pat, repl);
    } else if a[..|pat|] == pat {
      ReplaceAround(a[|pat|..], pat, b, repl);
      ReplaceAroundMatch(a, pat, b, repl);
    } else {
      ReplaceAround(a[1..], pat, b, repl);
      ReplaceAroundCopy(a, pat, b, repl);
    }
  }

  /** A text without the word is left as it is. */
  lemma ReplaceAbsent(s: string, pat: string, repl: string)
    requires pat != [] && !Contains(s, pat)
    ensures Replace(s, pat, repl) == s
  {
  }

  /** A word without a space that occurs in a + " " + b occurs in a or in b. */
  lemma ContainsAcrossSpace(a: string, b: string, pat: string)
    requires pat != [] && ' ' !in pat
    ensures Contains(a + " " + b, pat) ==> Contains(a, pat) || Contains(b, pat)
  {
    var t := a + " " + b;
    assert t[|a|] == ' ';
    if Contains(t, pat) {
      var i :| 0 <= i <= |t| && OccursAt(t, pat, i);
      if i + |pat| <= |a| {
        assert t[..|a|] == a;
        assert t[i..i + |pat|] == t[..|a|][i..i + |pat|];
        assert OccursAt(a, pat, i);
      } else if i > |a| {
        var j := i - |a| - 1;
        assert t[|a| + 1..] == b;
        assert t[i..i + |pat|] == t[|a| + 1..][j..j + |pat|];
        assert OccursAt(b, pat, j);
      }
    }
  }

  /** What occurs in a suffix occurs in the text. */
  lemma SuffixContains(s: string, n: nat, w: string)
    requires n <= |s|
    ensures Contains(s[n..], w) ==> Contains(s, w)
  {
    if Contains(s[n..], w) {
      var i :| 0 <= i <= |s[n..]| && OccursAt(s[n..], w, i);
      assert s[n..][i..i + |w|] == s[n + i..n + i + |w|];
      assert OccursAt(s, w, n + i);
    }
  }

  /** An occurrence in c + x either starts at the front or lies in x. */
  lemma ConsOccurs(c: char, x: string, w: string, i: nat)
    ensures w != [] && i > 0 && OccursAt([c] + x, w, i) ==> OccursAt(x, w, i - 1)
    ensures w != [] && OccursAt([c] + x, w, 0) ==> w[0] == c && x[..|w| - 1] == w[1..]
  {
    var t := [c] + x;
    if w != [] && i > 0 && OccursAt(t, w, i) {
      assert t[i..i + |w|] == x[i - 1..i - 1 + |w|];
    }
    if w != [] && OccursAt(t, w, 0) {
      assert t[..|w|][0] == t[0];
      assert x[..|w| - 1] == t[1..|w|] == w[1..];
    }
  }

  lemma InTail<T>(x: T, s: seq<T>)
    ensures s != [] && x in s[1..] ==> x in s
  {
  }

  /**
   * Replacing by a space: a stretch at the front of the result that holds no
   * space was copied from the text unchanged.
   */
  lemma {:induction false} ReplacePrefix(t: string, pat: string, m: nat)
    ensures pat != [] && m <= |Replace(t, pat, " ")| && ' ' !in Replace(t, pat, " ")[..m] ==>
      m <= |t| && Replace(t, pat, " ")[..m] == t[..m]
    decreases |t|
  {
    if pat != [] && m > 0 && |t| >= |pat| && m <= |Replace(t, pat, " ")| {
      var r := Replace(t, pat, " ");
      if t[..|pat|] == pat {
        ReplaceMatchStep(t, pat, " ");
        SpaceFirst(Replace(t[|pat|..], pat, " "), m);
      } else {
        var r1 := Replace(t[1..], pat, " ");
        ReplaceCopyStep(t, pat, " ");
        ReplacePrefix(t[1..], pat, m - 1);
        CopiedPrefix(t, r1, m);
      }
    }
  }

  /** A text that starts with a space has a space in every non-empty prefix. */
  lemma SpaceFirst(x: string, m: nat)
    requires 0 < m <= 1 + |x|
    ensures ' ' in (" " + x)[..m]
  {
    assert (" " + x)[..m][0] == ' ';
  }

  /**
   * c followed by r1, where a space-free prefix of r1 is copied from t[1..]:
   * a space-free prefix of the whole is copied from t.
   */
  lemma CopiedPrefix(t: string, r1: string, m: nat)
    requires t != [] && 0 < m <= 1 + |r1|
    requires m - 1 <= |r1| && ' ' !in r1[..m - 1] ==> m - 1 <= |t[1..]| && r1[..m - 1] == t[1..][..m - 1]
    ensures ' ' !in ([t[0]] + r1)[..m] ==> m <= |t| && ([t[0]] + r1)[..m] == t[..m]
  {
    var r := [t[0]] + r1;
    if ' ' !in r[..m] {
      assert r1[..m - 1] == r[..m][1..];
      InTail(' ', r[..m]);
      assert r[..m] == [t[0]] + r1[..m - 1];
      assert t[..m] == [t[0]] + t[1..][..m - 1];
    }
  }

  /**
   * A step of Replace(s, pat, " ") that copies the first character: an
   * occurrence of a word without spaces at the front of the result was at the
   * front of s already.
   */
  lemma ReplaceCopyFront(s: string, pat: string, q: string)
    requires pat != [] && |s| >= |pat| && s[..|pat|] != pat && q != [] && ' ' !in q
    ensures OccursAt(Replace(s, pat, " "), q, 0) ==> OccursAt(s, q, 0)
  {
    ReplaceCopyStep(s, pat, " ");
    ReplacePrefix(s[1..], pat, |q| - 1);
    CopyFront(s, Replace(s[1..], pat, " "), q);
  }

  /**
   * s[0] followed by r1, where a space-free stretch at the front of r1 is
   * copied from s[1..]: a space-free word at the front of it is at the front of s.
   */
  lemma CopyFront(s: string, r1: string, q: string)
    requires s != [] && q != [] && ' ' !in q
    requires |q| - 1 <= |r1| && ' ' !in r1[..|q| - 1] ==> |q| - 1 <= |s| - 1 && r1[..|q| - 1] == s[1..][..|q| - 1]
    ensures OccursAt([s[0]] + r1, q, 0) ==> OccursAt(s, q, 0)
  {
    var m := |q| - 1;
    if OccursAt([s[0]] + r1, q, 0) {
      ConsOccurs(s[0], r1, q, 0);
      assert q[0] == s[0] && r1[..m] == q[1..];
      InTail(' ', q);
      assert s[..|q|] == [s[0]] + s[1..][..m];
    }
  }

  /** A step of Replace(s, pat, " ") that replaces an occurrence starts the result with a space. */
  lemma ReplaceSpaceFront(s: string, pat: string, q: string)
    requires pat != [] && |s| >= |pat| && s[..|pat|] == pat && q != [] && ' ' !in q
    ensures !OccursAt(Replace(s, pat, " "), q, 0)
  {
    var r := Replace(s, pat, " ");
    ReplaceMatchStep(s, pat, " ");
    if |q| <= |r| {
      assert r[..|q|][0] == ' ';
    }
  }

  /** Replacing a word without spaces by a space leaves no occurrence of it. */
  lemma {:induction false} ReplaceRemoves(s: string, pat: string)
    requires pat != [] && ' ' !in pat
    ensures !Contains(Replace(s, pat, " "), pat)
    decreases |s|
  {
    var r := Replace(s, pat, " ");
    if |s| >= |pat| {
      var n := if s[..|pat|] == pat then |pat| else 1;
      var rest := s[n..];
      var r1 := Replace(rest, pat, " ");
      if s[..|pat|] == pat {
        ReplaceSpaceFront(s, pat, pat);
      } else {
        ReplaceCopyFront(s, pat, pat);
        assert !OccursAt(s, pat, 0);
      }
      assert r == [r[0]] + r1;
      ReplaceRemoves(rest, pat);
      forall i | 0 < i <= |r| ensures !OccursAt(r, pat, i) {
        ConsOccurs(r[0], r1, pat, i);
      }
    }
  }

  /** Replacing by a space never creates an occurrence of a word without spaces. */
  lemma {:induction false} ReplaceKeepsAbsent(s: string, pat: string, q: string)
    requires pat != [] && q != [] && ' ' !in q && !Contains(s, q)
    ensures !Contains(Replace(s, pat, " "), q)
    decreases |s|
  {
    var r := Replace(s, pat, " ");
    if |s| >= |pat| {
      var n := if s[..|pat|] == pat then |pat| else 1;
      var rest := s[n..];
      var r1 := Replace(rest, pat, " ");
      if s[..|pat|] == pat {
        ReplaceSpaceFront(s, pat, q);
      } else {
        ReplaceCopyFront(s, pat, q);
      }
      assert r == [r[0]] + r1;
      SuffixContains(s, n, q);
      ReplaceKeepsAbsent(rest, pat, q);
      forall i | 0 < i <= |r| ensures !OccursAt(r, q, i) {
        ConsOccurs(r[0], r1, q, i);
      }
    }
  }

  /** re.sub(r'\s+', ' ', s): every run of whitespace becomes a single space. */
  function CollapseSpaces(s: string): (r: string)
    ensures |r| <= |s|
    ensures s == [] <==> r == []
    ensures r != [] ==> (IsSpace(r[0]) <==> IsSpace(s[0]))
    decreases |s|
  {
    if s == [] then []
    else if IsSpace(s[0]) then " " + CollapseSpaces(StripLeft(s[1..]))
    else [s[0]] + CollapseSpaces(s[1..])
  }

  /** Every whitespace character is a plain space and no two of them are adjacent. */
  ghost predicate SingleSpaced(s: string) {
    forall i :: 0 <= i < |s| && IsSpace(s[i]) ==> s[i] == ' ' && (i + 1 < |s| ==> !IsSpace(s[i + 1]))
  }

  /** Putting a character in front keeps a string single-spaced when no two spaces meet. */
  lemma ConsSingleSpaced(c: char, s: string)
    requires SingleSpaced(s)
    requires IsSpace(c) ==> c == ' ' && (s != [] ==> !IsSpace(s[0]))
    ensures SingleSpaced([c] + s)
  {
    var t := [c] + s;
    forall i | 0 <= i < |t| && IsSpace(t[i])
      ensures t[i] == ' ' && (i + 1 < |t| ==> !IsSpace(t[i + 1]))
    {
      if i > 0 {
        assert t[i] == s[i - 1];
        assert i + 1 < |t| ==> t[i + 1] == s[i];
      }
    }
  }

  /** Collapsing leaves single plain spaces only, and keeps a final non-space character. */
  lemma {:induction false} CollapseSpacesSingleSpaced(s: string)
    ensures SingleSpaced(CollapseSpaces(s))
    ensures s != [] && !IsSpace(s[|s| - 1]) ==> !IsSpace(CollapseSpaces(s)[|CollapseSpaces(s)| - 1])
    decreases |s|
  {
    if s == [] {
    } else if IsSpace(s[0]) {
      var t := StripLeft(s[1..]);
      CollapseSpacesSingleSpaced(t);
      ConsSingleSpaced(' ', CollapseSpaces(t));
      assert CollapseSpaces(s) == [' '] + CollapseSpaces(t);
      if !IsSpace(s[|s| - 1]) {
        assert t != [] && t[|t| - 1] == s[|s| - 1];
      }
    } else {
      CollapseSpacesSingleSpaced(s[1..]);
      ConsSingleSpaced(s[0], CollapseSpaces(s[1..]));
      assert CollapseSpaces(s) == [s[0]] + CollapseSpaces(s[1..]);
      if |s| > 1 && !IsSpace(s[|s| - 1]) {
        assert s[1..][|s[1..]| - 1] == s[|s| - 1];
      }
    }
  }

  /** Dropping the first character keeps a string single-spaced. */
  lemma SingleSpacedTail(s: string)
    requires s != [] && SingleSpaced(s)
    ensures SingleSpaced(s[1..])
  {
    var t := s[1..];
    forall i | 0 <= i < |t| && IsSpace(t[i]) ensures t[i] == ' ' && (i + 1 < |t| ==> !IsSpace(t[i + 1])) {
      assert t[i] == s[i + 1];
      assert i + 1 < |t| ==> t[i + 1] == s[i + 2];
    }
  }

  /** A single-spaced string is left as it is by collapsing. */
  lemma {:induction false} CollapseSpacesFixpoint(s: string)
    requires SingleSpaced(s)
    ensures CollapseSpaces(s) == s
    decreases |s|
  {
    if s != [] {
      SingleSpacedTail(s);
      CollapseSpacesFixpoint(s[1..]);
      if IsSpace(s[0]) {
        assert s[0] == ' ' && (|s| > 1 ==> !IsSpace(s[1]));
        assert StripLeft(s[1..]) == s[1..];
        assert CollapseSpaces(s) == " " + CollapseSpaces(s[1..]);
      } else {
        assert CollapseSpaces(s) == [s[0]] + CollapseSpaces(s[1..]);
      }
      assert s == [s[0]] + s[1..];
    }
  }

  function Pow10(n: nat): (r: nat)
    ensures r >= 1
  {
    if n == 0 then 1 else 10 * Pow10(n - 1)
  }

  /** int(s) for a string of decimal digits: below 10^|s|, and zero exactly when every digit is 0. */
  function DigitsValue(s: string): (r: nat)
    requires forall i :: 0 <= i < |s| ==> IsDigit(s[i])
    ensures r < Pow10(|s|)
    ensures r == 0 <==> forall i :: 0 <= i < |s| ==> s[i] == '0'
    decreases |s|
  {
    if s == [] then 0
    else
      assert IsDigit(s[|s| - 1]);
      DigitsValue(s[..|s| - 1]) * 10 + (s[|s| - 1] as int - '0' as int)
  }

  function DigitChar(d: nat): (c: char)
    requires d < 10
    ensures IsDigit(c) && c as int - '0' as int == d
  {
    ('0' as int + d) as char
  }

  /** str(n) for a non-negative integer; reading it back with int() gives n again. */
  function NatToString(n: nat): (r: string)
    ensures IsDigits(r)
    ensures DigitsValue(r) == n
    decreases n
  {
    var r := if n < 10 then [DigitChar(n)] else NatToString(n / 10) + [DigitChar(n % 10)];
    assert n >= 10 ==> r[..|r| - 1] == NatToString(n / 10);
    assert n < 10 ==> r[..|r| - 1] == [];
    r
  }

  /** Python's s[:n] for any integer n (a negative n counts from the end). */
  function Take<T>(s: seq<T>, n: int): (r: seq<T>)
    ensures |r| <= |s| && r == s[..|r|]
    ensures n >= 0 ==> |r| == if n < |s| then n else |s|
    ensures n < 0 ==> |r| == if -n < |s| then |s| + n else 0
  {
    if n >= 0 then (if n < |s| then s[..n] else s)
    else if -n < |s| then s[..|s| + n] else []
  }
}
