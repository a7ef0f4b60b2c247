/** Ranking and summary helpers shared by the analytics pages: `sort((a, b) => key(b) − key(a))`
    as a descending insertion sort, `slice(0, n)`, and sum / mean / maximum / minimum of a list
    of amounts. */
module Ranking {

  predicate SortedDesc<T>(s: seq<T>, key: T -> real) {
    forall i, j :: 0 <= i < j < |s| ==> key(s[i]) >= key(s[j])
  }

  /** Insert `x` into a descending list, after every element whose key is at least its own. */
  function InsertDesc<T>(x: T, s: seq<T>, key: T -> real): (r: seq<T>)
    ensures |r| == |s| + 1
    ensures multiset(r) == multiset(s) + multiset{x}
  {
    if |s| == 0 then [x]
    else
      assert s == [s[0]] + s[1..];
      if key(s[0]) >= key(x) then [s[0]] + InsertDesc(x, s[1..], key)
      else [x] + s
  }

  lemma {:induction false} InsertKeepsSorted<T>(x: T, s: seq<T>, key: T -> real)
    requires SortedDesc(s, key)
    ensures SortedDesc(InsertDesc(x, s, key), key)
  {
    if |s| > 0 && key(s[0]) >= key(x) {
      var rest := InsertDesc(x, s[1..], key);
      InsertKeepsSorted(x, s[1..], key);
      forall i | 0 <= i < |rest| ensures key(s[0]) >= key(rest[i]) {
        assert rest[i] in multiset(rest);
        if rest[i] != x {
          assert rest[i] in multiset(s[1..]);
          var k :| 0 <= k < |s[1..]| && s[1..][k] == rest[i];
          assert s[k + 1] == rest[i];
        }
      }
      var r := [s[0]] + rest;
      assert forall j :: 1 <= j < |r| ==> r[j] == rest[j - 1];
    }
  }

  /** The list sorted by non-increasing key, as a permutation of its input. */
  function SortDesc<T>(s: seq<T>, key: T -> real): (r: seq<T>)
    ensures |r| == |s|
    ensures multiset(r) == multiset(s)
    ensures SortedDesc(r, key)
  {
    if |s| == 0 then []
    else
      var init := s[..|s| - 1];
      assert s == init + [s[|s| - 1]];
      InsertKeepsSorted(s[|s| - 1], SortDesc(init, key), key);
      InsertDesc(s[|s| - 1], SortDesc(init, key), key)
  }

  /** `slice(0, n)`. */
  function Take<T>(s: seq<T>, n: nat): (r: seq<T>)
    ensures |r| <= n && |r| <= |s|
    ensures |r| == n || |r| == |s|
    ensures r == s[..|r|]
  {
    if |s| <= n then s else s[..n]
  }

  /** The first n of a descending list are a descending list, each of them at least as high as
      anything left out, and all of them drawn from the list. */
  lemma TopN<T>(s: seq<T>, n: nat, key: T -> real)
    requires SortedDesc(s, key)
    ensures SortedDesc(Take(s, n), key)
    ensures forall i, j :: 0 <= i < |Take(s, n)| <= j < |s| ==> key(Take(s, n)[i]) >= key(s[j])
    ensures multiset(Take(s, n)) <= multiset(s)
  {
    var r := Take(s, n);
    assert s == r + s[|r|..];
  }

  /** Nothing after the first n of a descending list ranks above any of them. */
  lemma TopCutoff<T>(s: seq<T>, n: nat, key: T -> real)
    requires SortedDesc(s, key)
    ensures forall i, j :: 0 <= i < |Take(s, n)| <= j < |s| ==> key(Take(s, n)[i]) >= key(s[j])
  {
    var r := Take(s, n);
    assert forall i :: 0 <= i < |r| ==> r[i] == s[i];
  }

  /** The first n of the sorted list: at most n, non-increasing, each drawn from the list, and
      none left out ranking above one kept. */
  lemma TopOfSorted<T>(s: seq<T>, n: nat, key: T -> real)
    ensures |Take(SortDesc(s, key), n)| <= n
    ensures SortedDesc(Take(SortDesc(s, key), n), key)
    ensures forall x :: x in Take(SortDesc(s, key), n) ==> x in s
    ensures var sorted := SortDesc(s, key);
              forall i, j :: 0 <= i < |Take(sorted, n)| <= j < |sorted| ==> key(Take(sorted, n)[i]) >= key(sorted[j])
  {
    var sorted := SortDesc(s, key);
    var r := Take(sorted, n);
    TopN(sorted, n, key);
    forall x | x in r ensures x in s {
      assert x in multiset(r);
      assert x in multiset(s);
    }
  }

  /** Two lists that are permutations of each other hold the same elements. */
  lemma SameMembers<T>(a: seq<T>, b: seq<T>)
    requires multiset(a) == multiset(b)
    ensures forall x :: x in a <==> x in b
  {
    forall x ensures x in a <==> x in b {
      assert x in a <==> x in multiset(a);
      assert x in b <==> x in multiset(b);
    }
  }

  // ---------------------------------------------------------------------------------------
  // Amounts

  /** `reduce((sum, x) => sum + x, 0)`. */
  function Sum(xs: seq<real>): real {
    if |xs| == 0 then 0.0 else Sum(xs[..|xs| - 1]) + xs[|xs| - 1]
  }

  /** `Math.max(...xs)`; only used on a non-empty list. */
  function Max(xs: seq<real>): (m: real)
    requires |xs| > 0
    ensures forall i :: 0 <= i < |xs| ==> xs[i] <= m
    ensures exists i :: 0 <= i < |xs| && xs[i] == m
  {
    if |xs| == 1 then xs[0]
    else
      var m := Max(xs[..|xs| - 1]);
      assert forall i :: 0 <= i < |xs| - 1 ==> xs[..|xs| - 1][i] == xs[i];
      if xs[|xs| - 1] > m then xs[|xs| - 1] else m
  }

  /** `Math.min(...xs)`; only used on a non-empty list. */
  function Min(xs: seq<real>): (m: real)
    requires |xs| > 0
    ensures forall i :: 0 <= i < |xs| ==> m <= xs[i]
    ensures exists i :: 0 <= i < |xs| && xs[i] == m
  {
    if |xs| == 1 then xs[0]
    else
      var m := Min(xs[..|xs| - 1]);
      assert forall i :: 0 <= i < |xs| - 1 ==> xs[..|xs| - 1][i] == xs[i];
      if xs[|xs| - 1] < m then xs[|xs| - 1] else m
  }

  /** `xs.length > 0 ? sum / xs.length : 0`. */
  function Mean(xs: seq<real>): real {
    if |xs| > 0 then Sum(xs) / |xs| as real else 0.0
  }

  lemma {:induction false} SumBounds(xs: seq<real>, lo: real, hi: real)
    requires forall i :: 0 <= i < |xs| ==> lo <= xs[i] <= hi
    ensures |xs| as real * lo <= Sum(xs) <= |xs| as real * hi
  {
    if |xs| > 0 {
      var init := xs[..|xs| - 1];
      assert forall i :: 0 <= i < |init| ==> init[i] == xs[i];
      SumBounds(init, lo, hi);
      assert |xs| as real * lo == |init| as real * lo + lo;
      assert |xs| as real * hi == |init| as real * hi + hi;
    }
  }

  /** The mean lies between the minimum and the maximum. */
  lemma MeanBetweenMinAndMax(xs: seq<real>)
    requires |xs| > 0
    ensures Min(xs) <= Mean(xs) <= Max(xs)
  {
    MeanWithin(xs, Min(xs), Max(xs));
  }

  lemma MeanWithin(xs: seq<real>, lo: real, hi: real)
    requires |xs| > 0
    requires forall i :: 0 <= i < |xs| ==> lo <= xs[i] <= hi
    ensures lo <= Mean(xs) <= hi
  {
    SumBounds(xs, lo, hi);
    DivideBounds(Sum(xs), |xs| as real, lo, hi);
  }

  lemma DivideBounds(s: real, n: real, lo: real, hi: real)
    requires n > 0.0 && n * lo <= s <= n * hi
    ensures lo <= s / n <= hi
  {
    assert s / n * n == s;
  }
}
