/**
 * `shuffleArray` (src/components/QuizComponent.jsx): the Durstenfeld form of the
 * Fisher–Yates shuffle, run in place on a copy of its input.
 *
 * `Math.random` is replaced by a vector of draws `c`: the step for index i (from the
 * last index down to 1) swaps the elements at i and c[i], where 0 <= c[i] <= i, the
 * range `Math.floor(Math.random() * (i + 1))` falls in. c[0] belongs to no step.
 */
module Shuffle {

  /** c holds a legal draw for every step 0..i. */
  predicate DrawsUpTo(c: seq<nat>, i: int) {
    i < |c| && forall k :: 0 <= k <= i ==> c[k] <= k
  }

  /** A full vector of draws for a list of length n. */
  predicate IsChoiceVector(c: seq<nat>, n: nat) {
    |c| == n && DrawsUpTo(c, n - 1)
  }

  /** `[s[i], s[j]] = [s[j], s[i]]` on a sequence. */
  function Swap<T>(s: seq<T>, i: nat, j: nat): (r: seq<T>)
    requires i < |s| && j < |s|
    ensures |r| == |s| && r[i] == s[j] && r[j] == s[i]
    ensures forall k :: 0 <= k < |s| && k != i && k != j ==> r[k] == s[k]
  {
    s[i := s[j]][j := s[i]]
  }

  /** A swap only reorders. */
  lemma SwapPermutes<T>(s: seq<T>, i: nat, j: nat)
    requires i < |s| && j < |s|
    ensures multiset(Swap(s, i, j)) == multiset(s)
  {
  }

  /** The loop's steps for i, i - 1, ..., 1, applied to s; each one only swaps. */
  function Steps<T>(s: seq<T>, c: seq<nat>, i: int): (r: seq<T>)
    requires i < |s| && DrawsUpTo(c, i)
    ensures |r| == |s|
    decreases i
  {
    if i <= 0 then s else Steps(Swap(s, i, c[i]), c, i - 1)
  }

  /** Each step only swaps, so the steps together permute the list. */
  lemma {:induction false} StepsPermute<T>(s: seq<T>, c: seq<nat>, i: int)
    requires i < |s| && DrawsUpTo(c, i)
    ensures multiset(Steps(s, c, i)) == multiset(s)
    decreases i
  {
    if i > 0 {
      StepsUnfold(s, c, i);
      SwapPermutes(s, i, c[i]);
      StepsPermute(Swap(s, i, c[i]), c, i - 1);
    }
  }

  /** What `shuffleArray(s)` returns for the draws c: a permutation of s. */
  function Shuffled<T>(s: seq<T>, c: seq<nat>): (r: seq<T>)
    requires IsChoiceVector(c, |s|)
    ensures |r| == |s| && multiset(r) == multiset(s)
  {
    StepsPermute(s, c, |s| - 1);
    Steps(s, c, |s| - 1)
  }

  /**
   * `shuffleArray`: copies the input array into a fresh one (`[...array]`) and swaps in
   * place from the last index down to 1. The input array is not modified and the result
   * never aliases it.
   */
  method ShuffleArray<T>(a: array<T>, c: seq<nat>) returns (shuffled: array<T>)
    requires IsChoiceVector(c, a.Length)
    ensures fresh(shuffled)
    ensures shuffled[..] == Shuffled(a[..], c)
  {
    var items := a[..];
    shuffled := new T[|items|](k requires 0 <= k < |items| => items[k]);
    assert shuffled[..] == items;
    var i := shuffled.Length - 1;
    while i > 0
      invariant -1 <= i < shuffled.Length
      invariant Steps(shuffled[..], c, i) == Shuffled(items, c)
    {
      var j := c[i];
      ghost var before := shuffled[..];
      shuffled[i], shuffled[j] := shuffled[j], shuffled[i];
      assert shuffled[..] == Swap(before, i, j);
      StepsUnfold(before, c, i);
      i := i - 1;
    }
  }

  // ---------------------------------------------------------------------------
  // What the draws can produce
  // ---------------------------------------------------------------------------

  /**
   * The list 0, 1, ..., n - 1: `[...a.keys()]` for a list a of length n, and, read as
   * draws, the ones that never move anything (c[i] == i).
   */
  function Positions(n: nat): (c: seq<nat>)
    ensures IsChoiceVector(c, n)
  {
    seq(n, k => k)
  }

  /** Steps whose draws are all j = i leave the list alone. */
  lemma {:induction false} StayStepsAreIdentity<T>(s: seq<T>, c: seq<nat>, i: int)
    requires i < |s| && DrawsUpTo(c, i)
    requires forall k :: 0 <= k <= i ==> c[k] == k
    ensures Steps(s, c, i) == s
    decreases i
  {
    if i > 0 {
      assert Swap(s, i, c[i]) == s;
      StepsUnfold(s, c, i);
      StayStepsAreIdentity(s, c, i - 1);
    }
  }

  /** Drawing j = i at every step leaves the list as it was. */
  lemma StayDrawsAreIdentity<T>(s: seq<T>)
    ensures Shuffled(s, Positions(|s|)) == s
  {
    StayStepsAreIdentity(s, Positions(|s|), |s| - 1);
  }

  /** Steps at indices below |p| never touch what follows p. */
  lemma {:induction false} StepsAppend<T>(p: seq<T>, q: seq<T>, c: seq<nat>, i: int)
    requires i < |p| && DrawsUpTo(c, i)
    ensures Steps(p + q, c, i) == Steps(p, c, i) + q
    decreases i
  {
    if i > 0 {
      var sp := Swap(p, i, c[i]);
      assert Swap(p + q, i, c[i]) == sp + q;
      StepsUnfold(p + q, c, i);
      StepsUnfold(p, c, i);
      StepsAppend(sp, q, c, i - 1);
    }
  }

  /** Steps 1..i read only the draws c[0..i]. */
  lemma {:induction false} StepsReadOnlyTheirDraws<T>(s: seq<T>, c: seq<nat>, d: seq<nat>, i: int)
    requires i < |s| && DrawsUpTo(c, i) && DrawsUpTo(d, i)
    requires forall k :: 0 <= k <= i ==> c[k] == d[k]
    ensures Steps(s, c, i) == Steps(s, d, i)
    decreases i
  {
    if i > 0 {
      StepsUnfold(s, c, i);
      StepsUnfold(s, d, i);
      StepsReadOnlyTheirDraws(Swap(s, i, c[i]), c, d, i - 1);
    }
  }

  /** One step of the loop, unfolded. */
  lemma StepsUnfold<T>(s: seq<T>, c: seq<nat>, i: int)
    requires 0 < i < |s| && DrawsUpTo(c, i)
    ensures DrawsUpTo(c, i - 1)
    ensures Steps(s, c, i) == Steps(Swap(s, i, c[i]), c, i - 1)
  {
  }

  /** The draws of a prefix are a choice vector for the shorter list. */
  lemma PrefixDraws(c: seq<nat>, n: nat)
    requires n >= 1 && IsChoiceVector(c, n)
    ensures IsChoiceVector(c[..n - 1], n - 1)
  {
  }

  /**
   * The shuffled list is the prefix left by the last step's swap, shuffled by the
   * remaining draws, followed by the element that swap drew.
   */
  lemma ShuffledSplit<T>(s: seq<T>, c: seq<nat>, p: seq<T>)
    requires |s| >= 1 && IsChoiceVector(c, |s|)
    requires p == Swap(s, |s| - 1, c[|s| - 1])[..|s| - 1]
    ensures IsChoiceVector(c[..|s| - 1], |s| - 1)
    ensures Shuffled(s, c) == Shuffled(p, c[..|s| - 1]) + [s[c[|s| - 1]]]
  {
    var n := |s|;
    var x := s[c[n - 1]];
    var swapped := Swap(s, n - 1, c[n - 1]);
    assert swapped == p + [x];
    PrefixDraws(c, n);
    if n > 1 {
      calc {
        Shuffled(s, c);
        Steps(s, c, n - 1);
        { StepsUnfold(s, c, n - 1); }
        Steps(swapped, c, n - 2);
        { StepsAppend(p, [x], c, n - 2); }
        Steps(p, c, n - 2) + [x];
        { StepsReadOnlyTheirDraws(p, c, c[..n - 1], n - 2); }
        Shuffled(p, c[..n - 1]) + [x];
      }
    }
  }

  /** Multiset union with one element cancels. */
  lemma CancelOne<T>(a: multiset<T>, b: multiset<T>, x: T)
    requires a + multiset{x} == b + multiset{x}
    ensures a == b
  {
    assert a == (a + multiset{x}) - multiset{x};
    assert b == (b + multiset{x}) - multiset{x};
  }

  /** Swapping the last element of t to the end of s leaves two prefixes that permute each other. */
  lemma PrefixesPermute<T>(s: seq<T>, t: seq<T>, j: nat, p: seq<T>)
    requires multiset(s) == multiset(t) && |s| == |t| >= 1
    requires j < |s| && s[j] == t[|t| - 1]
    requires p == Swap(s, |s| - 1, j)[..|s| - 1]
    ensures multiset(p) == multiset(t[..|t| - 1])
  {
    var n := |s|;
    var last := t[n - 1];
    var swapped := Swap(s, n - 1, j);
    SwapPermutes(s, n - 1, j);
    var front := t[..n - 1];
    assert swapped == p + [last];
    assert t == front + [last];
    assert multiset(p) + multiset{last} == multiset(swapped) == multiset(t) == multiset(front) + multiset{last};
    CancelOne(multiset(p), multiset(front), last);
  }

  /** Every ordering of s is what `shuffleArray` returns for some draws. */
  lemma {:induction false} EveryPermutationReachable<T>(s: seq<T>, t: seq<T>) returns (c: seq<nat>)
    requires multiset(s) == multiset(t)
    ensures IsChoiceVector(c, |s|) && Shuffled(s, c) == t
    decreases |s|
  {
    assert |s| == |multiset(s)| == |multiset(t)| == |t|;
    if |s| == 0 {
      return [];
    }
    var n := |s|;
    var last := t[n - 1];
    assert last in multiset(s);
    var j :| 0 <= j < n && s[j] == last;
    var p := Swap(s, n - 1, j)[..n - 1];
    var front := t[..n - 1];
    PrefixesPermute(s, t, j, p);
    var rest := EveryPermutationReachable(p, front);
    c := rest + [j];
    assert c[..n - 1] == rest;
    ShuffledSplit(s, c, p);
  }

  ghost predicate Distinct<T>(s: seq<T>) {
    forall i, j :: 0 <= i < j < |s| ==> s[i] != s[j]
  }

  /** Swapping two places of a list of distinct elements and cutting off the last keeps them distinct. */
  lemma SwapPrefixDistinct<T>(s: seq<T>, j: nat, p: seq<T>)
    requires Distinct(s) && |s| >= 1 && j < |s|
    requires p == Swap(s, |s| - 1, j)[..|s| - 1]
    ensures Distinct(p)
  {
    var n := |s|;
    forall a, b | 0 <= a < b < n - 1
      ensures p[a] != p[b]
    {
      var x := if a == j then n - 1 else a;
      var y := if b == j then n - 1 else b;
      assert p[a] == s[x] && p[b] == s[y];
    }
  }

  /**
   * On distinct elements, two draw vectors with the same result agree on the last
   * draw, and their other draws give the same result on what that swap left.
   */
  lemma LastDrawsAgree<T>(s: seq<T>, c: seq<nat>, d: seq<nat>, p: seq<T>)
    requires Distinct(s) && |s| >= 1 && IsChoiceVector(c, |s|) && IsChoiceVector(d, |s|)
    requires Shuffled(s, c) == Shuffled(s, d)
    requires p == Swap(s, |s| - 1, c[|s| - 1])[..|s| - 1]
    ensures c[|s| - 1] == d[|s| - 1]
    ensures IsChoiceVector(c[..|s| - 1], |s| - 1) && IsChoiceVector(d[..|s| - 1], |s| - 1)
    ensures Shuffled(p, c[..|s| - 1]) == Shuffled(p, d[..|s| - 1])
  {
    var n := |s|;
    var pd := Swap(s, n - 1, d[n - 1])[..n - 1];
    ShuffledSplit(s, c, p);
    ShuffledSplit(s, d, pd);
    var r := Shuffled(s, c);
    assert s[c[n - 1]] == r[n - 1] == s[d[n - 1]];
    assert r[..n - 1] == Shuffled(p, c[..n - 1]);
    assert r[..n - 1] == Shuffled(pd, d[..n - 1]);
  }

  /**
   * On a list of distinct elements, different draws give different orders; with
   * EveryPermutationReachable, the draws and the orderings correspond one to one.
   */
  lemma {:induction false} DistinctDrawsDistinctOrders<T>(s: seq<T>, c: seq<nat>, d: seq<nat>)
    requires Distinct(s) && IsChoiceVector(c, |s|) && IsChoiceVector(d, |s|)
    requires Shuffled(s, c) == Shuffled(s, d)
    ensures c == d
    decreases |s|
  {
    var n := |s|;
    if n == 0 {
      return;
    }
    var p := Swap(s, n - 1, c[n - 1])[..n - 1];
    LastDrawsAgree(s, c, d, p);
    SwapPrefixDistinct(s, c[n - 1], p);
    DistinctDrawsDistinctOrders(p, c[..n - 1], d[..n - 1]);
    assert c == c[..n - 1] + [c[n - 1]];
    assert d == d[..n - 1] + [d[n - 1]];
  }
}
