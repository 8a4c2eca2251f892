/** The Fisher-Yates shuffle of the answers (resolvers/builtin/resolver.go). The values
    drawn from the random source are a parameter: choice i is an index in [i, n). */
module Shuffle {
  import opened Sequences

  ghost predicate Choices(n: nat, r: seq<nat>) {
    |r| == n && forall i :: 0 <= i < n ==> i <= r[i] < n
  }

  function Swap<T>(s: seq<T>, i: nat, j: nat): (t: seq<T>)
    requires i < |s| && j < |s|
    ensures |t| == |s|
  {
    s[i := s[j]][j := s[i]]
  }

  /** The list after the swaps for positions from, from + 1, ..., n - 1. */
  function ShuffleFrom<T>(s: seq<T>, from: nat, r: seq<nat>): (t: seq<T>)
    requires Choices(|s|, r) && from <= |s|
    ensures |t| == |s|
    decreases |s| - from
  {
    if from == |s| then s else ShuffleFrom(Swap(s, from, r[from]), from + 1, r)
  }

  method ShuffleAnswers<T>(answers: array<T>, r: seq<nat>)
    requires Choices(answers.Length, r)
    modifies answers
    ensures answers[..] == ShuffleFrom(old(answers[..]), 0, r)
    ensures multiset(answers[..]) == multiset(old(answers[..]))
  {
    var n := answers.Length;
    for i := 0 to n
      invariant ShuffleFrom(answers[..], i, r) == ShuffleFrom(old(answers[..]), 0, r)
    {
      ghost var before := answers[..];
      answers[r[i]], answers[i] := answers[i], answers[r[i]];
      assert answers[..] == Swap(before, i, r[i]);
    }
    ShufflePermutes(old(answers[..]), 0, r);
  }

  /** Every choice sequence permutes the answers. */
  lemma {:induction false} ShufflePermutes<T>(s: seq<T>, from: nat, r: seq<nat>)
    requires Choices(|s|, r) && from <= |s|
    ensures multiset(ShuffleFrom(s, from, r)) == multiset(s)
    decreases |s| - from
  {
    if from == |s| {
    } else {
      ShufflePermutes(Swap(s, from, r[from]), from + 1, r);
    }
  }

  /** A position once decided is left alone. */
  lemma {:induction false} ShuffleKeeps<T>(s: seq<T>, from: nat, r: seq<nat>, k: nat)
    requires Choices(|s|, r) && k < from <= |s|
    ensures ShuffleFrom(s, from, r)[k] == s[k]
    decreases |s| - from
  {
    if from == |s| {
    } else {
      ShuffleKeeps(Swap(s, from, r[from]), from + 1, r, k);
    }
  }

  /** The answer at a position is the one chosen for it. */
  lemma {:induction false} ShuffleDecides<T>(s: seq<T>, from: nat, r: seq<nat>)
    requires Choices(|s|, r) && from < |s|
    ensures ShuffleFrom(s, from, r)[from] == s[r[from]]
  {
    ShuffleKeeps(Swap(s, from, r[from]), from + 1, r, from);
  }

  lemma SwapDistinct<T>(s: seq<T>, i: nat, j: nat)
    requires i < |s| && j < |s| && Distinct(s)
    ensures Distinct(Swap(s, i, j))
  {
  }

  /** Distinct choice sequences give distinct arrangements of distinct answers. */
  lemma {:induction false} ShuffleInjective<T>(s: seq<T>, from: nat, r: seq<nat>, q: seq<nat>)
    requires Choices(|s|, r) && Choices(|s|, q) && from <= |s| && Distinct(s)
    requires ShuffleFrom(s, from, r) == ShuffleFrom(s, from, q)
    ensures r[from..] == q[from..]
    decreases |s| - from
  {
    if from == |s| {
    } else {
      ShuffleDecides(s, from, r);
      ShuffleDecides(s, from, q);
      assert r[from] == q[from];
      var t := Swap(s, from, r[from]);
      assert Distinct(t) by { SwapDistinct(s, from, r[from]); }
      ShuffleInjective(t, from + 1, r, q);
      assert r[from..] == [r[from]] + r[from + 1..] && q[from..] == [q[from]] + q[from + 1..];
    }
  }

  /** Every arrangement is reached: the choice at each position is where the wanted
      answer currently is. */
  lemma {:induction false} ShuffleSurjective<T>(s: seq<T>, from: nat, target: seq<T>) returns (r: seq<nat>)
    requires from <= |s| == |target| && multiset(s) == multiset(target) && s[..from] == target[..from]
    ensures Choices(|s|, r)
    ensures ShuffleFrom(s, from, r) == target
    decreases |s| - from
  {
    if from == |s| {
      r := seq(|s|, (i: nat) => i);
      assert s == s[..from] && target == target[..from];
    } else {
      var j := Locate(s, from, target);
      var t := Swap(s, from, j);
      SwapPlaces(s, from, j, target);
      var q := ShuffleSurjective(t, from + 1, target);
      r := q[from := j];
      SameSuffixSameShuffle(t, from + 1, q, r);
    }
  }

  /** The swap puts the wanted answer in place and keeps the rest. */
  lemma SwapPlaces<T>(s: seq<T>, from: nat, j: nat, target: seq<T>)
    requires from <= j < |s| == |target| && s[..from] == target[..from] && s[j] == target[from]
    ensures multiset(Swap(s, from, j)) == multiset(s) && Swap(s, from, j)[..from + 1] == target[..from + 1]
  {
    var t := Swap(s, from, j);
    forall k | 0 <= k < from + 1 ensures t[k] == target[k] {
      if k < from { assert s[..from][k] == target[..from][k]; }
    }
  }

  /** The next wanted answer is among those not yet placed. */
  lemma {:induction false} Locate<T>(s: seq<T>, from: nat, target: seq<T>) returns (j: nat)
    requires from < |s| == |target| && multiset(s) == multiset(target) && s[..from] == target[..from]
    ensures from <= j < |s| && s[j] == target[from]
  {
    assert s == s[..from] + s[from..] && target == target[..from] + target[from..];
    assert multiset(s[from..]) == multiset(s) - multiset(s[..from]);
    assert multiset(target[from..]) == multiset(target) - multiset(target[..from]);
    assert target[from] == target[from..][0];
    assert target[from] in multiset(target[from..]);
    assert target[from] in s[from..];
    var k :| 0 <= k < |s[from..]| && s[from..][k] == target[from];
    j := from + k;
  }

  lemma {:induction false} SameSuffixSameShuffle<T>(s: seq<T>, from: nat, q: seq<nat>, r: seq<nat>)
    requires Choices(|s|, q) && Choices(|s|, r) && from <= |s| && q[from..] == r[from..]
    ensures ShuffleFrom(s, from, q) == ShuffleFrom(s, from, r)
    decreases |s| - from
  {
    if from == |s| {
    } else {
      assert q[from] == q[from..][0] == r[from];
      assert q[from + 1..] == q[from..][1..] && r[from + 1..] == r[from..][1..];
      SameSuffixSameShuffle(Swap(s, from, q[from]), from + 1, q, r);
    }
  }
}
