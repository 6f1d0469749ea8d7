/**
 * Python dicts where their order matters: a sequence of (key, value) pairs in
 * insertion order. Assigning to an existing key keeps its position; a new key
 * goes at the end. On top of it, counting in first-encounter order (a dict of
 * counts, or collections.Counter) and most_common.
 */
module Dicts {
  import opened Wrappers
  import opened Text
  import opened Sorting

  type Dict<K, V> = seq<(K, V)>

  /** The keys, in insertion order. */
  function Keys<K, V>(d: Dict<K, V>): (r: seq<K>)
    ensures |r| == |d| && forall i {:trigger r[i]} :: 0 <= i < |d| ==> r[i] == d[i].0
    decreases |d|
  {
    if d == [] then [] else [d[0].0] + Keys(d[1..])
  }

  /** d.get(k): the value stored under k, if any. */
  function Get<K(==, !new), V>(d: Dict<K, V>, k: K): (r: Option<V>)
    ensures r.Some? <==> k in Keys(d)
    decreases |d|
  {
    if d == [] then None
    else if d[0].0 == k then Some(d[0].1)
    else
      assert Keys(d) == [d[0].0] + Keys(d[1..]);
      Get(d[1..], k)
  }

  /** d[k] = v: the value is replaced in place, or the pair is appended for a new key. */
  function Put<K(==, !new), V>(d: Dict<K, V>, k: K, v: V): (r: Dict<K, V>)
    ensures Keys(r) == if k in Keys(d) then Keys(d) else Keys(d) + [k]
    ensures Get(r, k) == Some(v)
    decreases |d|
  {
    if d == [] then [(k, v)]
    else if d[0].0 == k then
      assert Keys(d) == [k] + Keys(d[1..]);
      assert Keys([(k, v)] + d[1..]) == [k] + Keys(d[1..]);
      [(k, v)] + d[1..]
    else
      var rest := Put(d[1..], k, v);
      assert Keys(d) == [d[0].0] + Keys(d[1..]);
      assert Keys([d[0]] + rest) == [d[0].0] + Keys(rest);
      [d[0]] + rest
  }

  /** Storing under k leaves what every other key holds alone. */
  lemma {:induction false} PutOther<K(!new), V>(d: Dict<K, V>, k: K, v: V, j: K)
    requires j != k
    ensures Get(Put(d, k, v), j) == Get(d, j)
    decreases |d|
  {
    if d != [] && d[0].0 != k {
      PutOther(d[1..], k, v, j);
    }
  }

  /** Storing twice under the same key is storing the second value once. */
  lemma {:induction false} PutPut<K(!new), V>(d: Dict<K, V>, k: K, v: V, w: V)
    ensures Put(Put(d, k, v), k, w) == Put(d, k, w)
    decreases |d|
  {
    if d != [] && d[0].0 != k {
      PutPut(d[1..], k, v, w);
    }
  }

  /** Every pair of the new dict is the stored one or was already there. */
  lemma {:induction false} PutElements<K(!new), V>(d: Dict<K, V>, k: K, v: V)
    ensures forall p :: p in Put(d, k, v) ==> p == (k, v) || p in d
    decreases |d|
  {
    if d != [] && d[0].0 != k {
      PutElements(d[1..], k, v);
    }
  }

  /** A key of the dict has its value stored beside it. */
  lemma {:induction false} GetFound<K(!new), V>(d: Dict<K, V>, k: K)
    requires k in Keys(d)
    ensures Get(d, k).Some? && (k, Get(d, k).value) in d
    decreases |d|
  {
    assert Keys(d) == [d[0].0] + Keys(d[1..]);
    if d[0].0 != k {
      GetFound(d[1..], k);
    }
  }

  /** When no key repeats, a stored pair is what lookup finds. */
  lemma {:induction false} GetMember<K(!new), V>(d: Dict<K, V>, p: (K, V))
    requires NoDup(Keys(d)) && p in d
    ensures Get(d, p.0) == Some(p.1)
    decreases |d|
  {
    if d[0] != p {
      var i :| 0 <= i < |d| && d[i] == p;
      assert Keys(d)[0] != Keys(d)[i];
      var rest := d[1..];
      assert rest[i - 1] == p;
      assert NoDup(Keys(rest)) by {
        forall a, b | 0 <= a < b < |rest| ensures Keys(rest)[a] != Keys(rest)[b] {
          assert Keys(rest)[a] == Keys(d)[a + 1] && Keys(rest)[b] == Keys(d)[b + 1];
        }
      }
      GetMember(rest, p);
    }
  }

  /** The count a dict of counts holds for k; 0 when k is absent. */
  function CountOf<K(==, !new)>(d: Dict<K, nat>, k: K): nat {
    Get(d, k).GetOr(0)
  }

  /** One more count for k: k's count goes up by one, starting from 0 when k is new. */
  function Bump<K(==, !new)>(d: Dict<K, nat>, k: K): (r: Dict<K, nat>)
    ensures Keys(r) == if k in Keys(d) then Keys(d) else Keys(d) + [k]
    ensures CountOf(r, k) == CountOf(d, k) + 1
    decreases |d|
  {
    if d == [] then [(k, 1)]
    else if d[0].0 == k then
      assert Keys(d) == [k] + Keys(d[1..]);
      KeysCons((k, d[0].1 + 1), d[1..]);
      GetCons((k, d[0].1 + 1), d[1..], k);
      [(k, d[0].1 + 1)] + d[1..]
    else
      var rest := Bump(d[1..], k);
      BumpBehind(d, rest, k);
      [d[0]] + rest
  }

  /** Bumping k behind a first entry with another key keeps that entry and bumps the rest. */
  lemma BumpBehind<K(!new)>(d: Dict<K, nat>, rest: Dict<K, nat>, k: K)
    requires d != [] && d[0].0 != k
    requires Keys(rest) == if k in Keys(d[1..]) then Keys(d[1..]) else Keys(d[1..]) + [k]
    requires CountOf(rest, k) == CountOf(d[1..], k) + 1
    ensures Keys([d[0]] + rest) == if k in Keys(d) then Keys(d) else Keys(d) + [k]
    ensures CountOf([d[0]] + rest, k) == CountOf(d, k) + 1
  {
    assert Keys(d) == [d[0].0] + Keys(d[1..]);
    KeysCons(d[0], rest);
    GetCons(d[0], rest, k);
  }

  /** Looking up in a list with an entry put in front: that entry if it has the key, else the others. */
  lemma GetCons<K(!new), V>(p: (K, V), d: Dict<K, V>, k: K)
    ensures Get([p] + d, k) == if p.0 == k then Some(p.1) else Get(d, k)
  {
    assert ([p] + d)[1..] == d;
  }

  /** The keys of an entry put in front: its key, then the others' keys. */
  lemma KeysCons<K, V>(p: (K, V), d: Dict<K, V>)
    ensures Keys([p] + d) == [p.0] + Keys(d)
  {
    assert ([p] + d)[1..] == d;
  }

  /** Bumping k leaves every other count alone. */
  lemma {:induction false} BumpOther<K(!new)>(d: Dict<K, nat>, k: K, j: K)
    requires j != k
    ensures CountOf(Bump(d, k), j) == CountOf(d, j)
    decreases |d|
  {
    if d != [] && d[0].0 != k {
      BumpOther(d[1..], k, j);
    }
  }

  /** Putting the head back in front of the tail with y appended is appending y. */
  lemma ConsSnoc<T>(d: seq<T>, y: T)
    requires d != []
    ensures [d[0]] + (d[1..] + [y]) == d + [y]
  {
    assert d == [d[0]] + d[1..];
  }

  /** Bumping a new key appends it with count 1. */
  lemma {:induction false} BumpNewKey<K(!new)>(d: Dict<K, nat>, k: K)
    requires k !in Keys(d)
    ensures Bump(d, k) == d + [(k, 1)]
    decreases |d|
  {
    if d != [] {
      assert Keys(d) == [d[0].0] + Keys(d[1..]);
      assert d[0].0 != k && k !in Keys(d[1..]);
      BumpNewKey(d[1..], k);
      assert Bump(d, k) == [d[0]] + (d[1..] + [(k, 1)]);
      ConsSnoc(d, (k, 1));
    }
  }

  /**
   * The dict of counts a counting loop builds over s, bumping each element in
   * turn, which is also what Counter(s) holds: each distinct element once, in
   * first-encounter order.
   */
  function Tally<K(==, !new)>(s: seq<K>): Dict<K, nat>
    decreases |s|
  {
    if s == [] then [] else Bump(Tally(s[..|s| - 1]), s[|s| - 1])
  }

  /** Counting one more element bumps its count. */
  lemma TallySnoc<K(!new)>(s: seq<K>, x: K)
    ensures Tally(s + [x]) == Bump(Tally(s), x)
  {
    assert (s + [x])[..|s|] == s;
  }

  /** Bumping keeps the keys distinct. */
  lemma BumpKeepsKeysDistinct<K(!new)>(d: Dict<K, nat>, x: K)
    requires NoDup(Keys(d))
    ensures NoDup(Keys(Bump(d, x)))
  {
    if x !in Keys(d) {
      var ks := Keys(d);
      var after := Keys(Bump(d, x));
      assert after == ks + [x];
      forall i, j | 0 <= i < j < |after| ensures after[i] != after[j] {
        if j == |ks| {
          assert after[i] == ks[i];
        } else {
          assert after[i] == ks[i] && after[j] == ks[j];
        }
      }
    }
  }

  /** The multiset of a non-empty sequence: that of all but the last, and the last. */
  lemma MultisetSnoc<T>(s: seq<T>)
    requires s != []
    ensures multiset(s) == multiset(s[..|s| - 1]) + multiset{s[|s| - 1]}
  {
    assert s == s[..|s| - 1] + [s[|s| - 1]];
  }

  /** The tally has each element once, with the number of times it occurs. */
  lemma {:induction false} TallyCounts<K(!new)>(s: seq<K>)
    ensures NoDup(Keys(Tally(s)))
    ensures forall k :: CountOf(Tally(s), k) == multiset(s)[k]
    decreases |s|
  {
    if s != [] {
      var init := s[..|s| - 1];
      var x := s[|s| - 1];
      TallyCounts(init);
      var before := Tally(init);
      BumpKeepsKeysDistinct(before, x);
      MultisetSnoc(s);
      forall k ensures CountOf(Tally(s), k) == multiset(s)[k] {
        if k != x {
          BumpOther(before, x, k);
        }
      }
    }
  }

  /** Without repeats, dropping the last element leaves no repeats and loses that element. */
  lemma NoDupInit<T>(s: seq<T>)
    requires NoDup(s) && s != []
    ensures NoDup(s[..|s| - 1]) && s[|s| - 1] !in s[..|s| - 1]
  {
    var init := s[..|s| - 1];
    forall i, j | 0 <= i < j < |init| ensures init[i] != init[j] {
      assert init[i] == s[i] && init[j] == s[j];
    }
    forall i | 0 <= i < |init| ensures init[i] != s[|s| - 1] {
      assert init[i] == s[i];
    }
  }

  /** When no element repeats, the tally pairs each element with 1, in the input order. */
  lemma {:induction false} TallyOfDistinct<K(!new)>(s: seq<K>)
    requires NoDup(s)
    ensures |Tally(s)| == |s|
    ensures forall i :: 0 <= i < |s| ==> Tally(s)[i] == (s[i], 1)
    decreases |s|
  {
    if s != [] {
      var init := s[..|s| - 1];
      var x := s[|s| - 1];
      NoDupInit(s);
      TallyOfDistinct(init);
      OnesAppend(Tally(init), s);
    }
  }

  /** Counting a new last element after distinct ones appends it with count 1. */
  lemma OnesAppend<K(!new)>(before: Dict<K, nat>, s: seq<K>)
    requires s != [] && |before| == |s| - 1
    requires forall i :: 0 <= i < |before| ==> before[i] == (s[..|s| - 1][i], 1)
    requires s[|s| - 1] !in s[..|s| - 1]
    ensures var t := Bump(before, s[|s| - 1]); |t| == |s| && forall i :: 0 <= i < |s| ==> t[i] == (s[i], 1)
  {
    var init, x := s[..|s| - 1], s[|s| - 1];
    assert Keys(before) == init;
    BumpNewKey(before, x);
    var t := before + [(x, 1)];
    forall i | 0 <= i < |s| ensures t[i] == (s[i], 1) {
      if i < |init| {
        assert t[i] == before[i] && s[i] == init[i];
      }
    }
  }

  /** An element found at two positions is counted at least twice. */
  lemma SeenTwice<T>(s: seq<T>, i: int, j: int)
    requires 0 <= i < j < |s| && s[i] == s[j]
    ensures multiset(s)[s[i]] >= 2
  {
    assert s == s[..j] + [s[j]] + s[j + 1..];
    assert s[..j][i] == s[i];
    assert multiset(s) == multiset(s[..j]) + multiset{s[j]} + multiset(s[j + 1..]);
  }

  /** An element found at one position only is counted at most once. */
  lemma {:induction false} SeenOnce<T>(s: seq<T>, x: T)
    requires forall i, j :: 0 <= i < j < |s| && s[i] == x ==> s[j] != x
    ensures multiset(s)[x] <= 1
    decreases |s|
  {
    if s != [] {
      assert s == [s[0]] + s[1..];
      SeenOnce(s[1..], x);
      if s[0] == x {
        assert x !in s[1..] by {
          forall j | 0 <= j < |s[1..]| ensures s[1..][j] != x {
            assert s[1..][j] == s[j + 1];
          }
        }
      }
    }
  }

  /** Reordering a dict whose keys are distinct keeps them distinct. */
  lemma PermutationKeepsKeysDistinct<K(!new), V>(d: Dict<K, V>, e: Dict<K, V>)
    requires NoDup(Keys(d)) && multiset(e) == multiset(d)
    ensures NoDup(Keys(e))
  {
    forall i, j | 0 <= i < j < |e| ensures Keys(e)[i] != Keys(e)[j] {
      if e[i].0 == e[j].0 {
        assert e[i] in multiset(d) && e[j] in multiset(d);
        GetMember(d, e[i]);
        GetMember(d, e[j]);
        SeenTwice(e, i, j);
        forall a, b | 0 <= a < b < |d| && d[a] == e[i] ensures d[b] != e[i] {
          assert Keys(d)[a] != Keys(d)[b];
        }
        SeenOnce(d, e[i]);
      }
    }
  }

  /** The sort key of a (key, count) pair. */
  function Count<K>(p: (K, nat)): real {
    p.1 as real
  }

  /**
   * The counted pairs sorted stably by falling count and cut after n (Python's
   * slice rules for a negative n), which is also Counter(s).most_common(n) for
   * n >= 0: ties stay in first-encounter order.
   */
  function MostCommon<K(==, !new)>(s: seq<K>, n: int): (r: Dict<K, nat>)
    ensures |r| <= |Tally(s)| && r == SortDesc(Tally(s), Count)[..|r|]
    ensures n >= 0 ==> |r| <= n
  {
    Take(SortDesc(Tally(s), Count), n)
  }

  /** With no repeated element, the n most common are the first n elements. */
  lemma MostCommonOfDistinct<K(!new)>(s: seq<K>, n: int)
    requires NoDup(s)
    requires n >= 0
    ensures Keys(MostCommon(s, n)) == Take(s, n)
  {
    TallyOfDistinct(s);
    var t := Tally(s);
    SortDescConstant(t, Count);
    var r := MostCommon(s, n);
    assert r == Take(t, n);
    assert |Keys(r)| == |Take(s, n)|;
    forall i | 0 <= i < |r| ensures Keys(r)[i] == Take(s, n)[i] {
      assert r[i] == t[i];
    }
  }

  /** The most common pairs come by falling count, and at most n of them. */
  lemma MostCommonSorted<K(!new)>(s: seq<K>, n: int)
    ensures SortedDesc(MostCommon(s, n), Count)
    ensures n >= 0 ==> |MostCommon(s, n)| <= n
  {
    var sorted := SortDesc(Tally(s), Count);
    var r := MostCommon(s, n);
    SortDescSorted(Tally(s), Count);
    forall i, j | 0 <= i < j < |r| ensures Count(r[i]) >= Count(r[j]) {
      assert r[i] == sorted[i] && r[j] == sorted[j];
    }
  }

  /** Every key of the tally has been counted at least once. */
  lemma {:induction false} TallyPositive<K(!new)>(s: seq<K>)
    ensures forall k :: k in Keys(Tally(s)) ==> CountOf(Tally(s), k) > 0
    decreases |s|
  {
    if s != [] {
      var before := Tally(s[..|s| - 1]);
      var x := s[|s| - 1];
      TallyPositive(s[..|s| - 1]);
      forall k | k in Keys(Tally(s)) && k != x ensures CountOf(Tally(s), k) > 0 {
        BumpOther(before, x, k);
      }
    }
  }

  /** A pair of the tally holds an element with the number of times it occurs. */
  lemma TallyPair<K(!new)>(s: seq<K>, p: (K, nat))
    requires p in Tally(s)
    ensures p.1 == multiset(s)[p.0] > 0
  {
    var t := Tally(s);
    TallyCounts(s);
    TallyPositive(s);
    GetMember(t, p);
    assert CountOf(t, p.0) == p.1;
  }

  /** Every pair of the sorted tally holds a distinct element with the number of times it occurs. */
  lemma SortedTallyCounts<K(!new)>(s: seq<K>)
    ensures var sorted := SortDesc(Tally(s), Count);
      NoDup(Keys(sorted)) && forall i :: 0 <= i < |sorted| ==> sorted[i].1 == multiset(s)[sorted[i].0] > 0
  {
    var t := Tally(s);
    var sorted := SortDesc(t, Count);
    TallyCounts(s);
    SortDescPermutation(t, Count);
    PermutationKeepsKeysDistinct(t, sorted);
    forall i | 0 <= i < |sorted| ensures sorted[i].1 == multiset(s)[sorted[i].0] > 0 {
      assert sorted[i] in multiset(t);
      TallyPair(s, sorted[i]);
    }
  }

  /** The most common pairs hold distinct elements, each with the number of times it occurs. */
  lemma MostCommonCounts<K(!new)>(s: seq<K>, n: int)
    ensures var r := MostCommon(s, n);
      NoDup(Keys(r)) && forall i :: 0 <= i < |r| ==> r[i].1 == multiset(s)[r[i].0] > 0
  {
    var sorted := SortDesc(Tally(s), Count);
    var r := MostCommon(s, n);
    SortedTallyCounts(s);
    assert forall i :: 0 <= i < |r| ==> r[i] == sorted[i] && Keys(r)[i] == Keys(sorted)[i];
  }

  /** Every element occurs at some position of the sorted tally. */
  lemma InSortedTally<K(!new)>(s: seq<K>, w: K) returns (j: nat)
    requires w in multiset(s)
    ensures j < |SortDesc(Tally(s), Count)| && SortDesc(Tally(s), Count)[j].0 == w
  {
    var t := Tally(s);
    TallyCounts(s);
    assert CountOf(t, w) > 0;
    assert w in Keys(t);
    GetFound(t, w);
    var p := (w, Get(t, w).value);
    var sorted := SortDesc(t, Count);
    SortDescPermutation(t, Count);
    assert p in multiset(t);
    assert p in multiset(sorted);
    j :| 0 <= j < |sorted| && sorted[j] == p;
  }

  /** An element at position j of a list is kept by a prefix only if j falls inside it. */
  lemma OutsidePrefix<K, V>(sorted: Dict<K, V>, r: Dict<K, V>, j: nat)
    requires |r| <= |sorted| && r == sorted[..|r|] && j < |sorted| && sorted[j].0 !in Keys(r)
    ensures j >= |r|
  {
    assert forall i :: 0 <= i < |r| ==> Keys(r)[i] == sorted[i].0;
  }

  /** In a list sorted by falling count, the prefix before position j counts no less than j. */
  lemma PrefixAbove<K>(sorted: Dict<K, nat>, r: Dict<K, nat>, j: nat)
    requires SortedDesc(sorted, Count) && |r| <= j < |sorted| && r == sorted[..|r|]
    ensures forall i :: 0 <= i < |r| ==> r[i].1 >= sorted[j].1
  {
    forall i | 0 <= i < |r| ensures r[i].1 >= sorted[j].1 {
      assert r[i] == sorted[i];
      assert Count(sorted[i]) >= Count(sorted[j]);
    }
  }

  /** An element left out occurs no more often than any element kept. */
  lemma MostCommonLeftOut<K(!new)>(s: seq<K>, n: int, w: K)
    requires w in multiset(s) && w !in Keys(MostCommon(s, n))
    ensures forall i :: 0 <= i < |MostCommon(s, n)| ==> MostCommon(s, n)[i].1 >= multiset(s)[w]
  {
    var sorted := SortDesc(Tally(s), Count);
    var r := MostCommon(s, n);
    var j := InSortedTally(s, w);
    OutsidePrefix(sorted, r, j);
    SortDescSorted(Tally(s), Count);
    SortedTallyCounts(s);
    PrefixAbove(sorted, r, j);
  }

  /** With n no smaller than the number of distinct elements, every element is among the most common. */
  lemma MostCommonComplete<K(!new)>(s: seq<K>, n: int, w: K)
    requires n >= |Tally(s)| && w in multiset(s)
    ensures w in Keys(MostCommon(s, n))
  {
    var j := InSortedTally(s, w);
    assert Keys(MostCommon(s, n))[j] == w;
  }
}
