/** Totals over the slots of a sequence, and how they change when one slot changes. */
module Bags {

  function BagOf<T>(f: T -> multiset<nat>, s: seq<T>): multiset<nat> {
    if s == [] then multiset{} else BagOf(f, s[..|s| - 1]) + f(s[|s| - 1])
  }

  function Sum<T>(f: T -> nat, s: seq<T>): nat {
    if s == [] then 0 else Sum(f, s[..|s| - 1]) + f(s[|s| - 1])
  }

  lemma {:induction false} BagUpdate<T>(f: T -> multiset<nat>, s: seq<T>, i: nat, x: T)
    requires i < |s|
    ensures BagOf(f, s[i := x]) + f(s[i]) == BagOf(f, s) + f(x)
  {
    var n := |s| - 1;
    var t := s[i := x];
    if i < n {
      BagUpdate(f, s[..n], i, x);
      assert t[..n] == s[..n][i := x] && t[n] == s[n];
      var a, b := BagOf(f, t[..n]), BagOf(f, s[..n]);
      assert a + f(s[i]) == b + f(x);
      assert BagOf(f, t) + f(s[i]) == a + f(s[i]) + f(s[n]);
    } else {
      assert t[..n] == s[..n];
    }
  }

  lemma {:induction false} BagContains<T>(f: T -> multiset<nat>, s: seq<T>, i: nat)
    requires i < |s|
    ensures f(s[i]) <= BagOf(f, s)
  {
    if i < |s| - 1 {
      BagContains(f, s[..|s| - 1], i);
    }
  }

  lemma {:induction false} BagContainsPair<T>(f: T -> multiset<nat>, s: seq<T>, i: nat, j: nat)
    requires i < j < |s|
    ensures f(s[i]) + f(s[j]) <= BagOf(f, s)
  {
    if j < |s| - 1 {
      BagContainsPair(f, s[..|s| - 1], i, j);
    } else {
      BagContains(f, s[..|s| - 1], i);
    }
  }

  lemma {:induction false} BagWitness<T>(f: T -> multiset<nat>, s: seq<T>, j: nat) returns (i: nat)
    requires j in BagOf(f, s)
    ensures i < |s| && j in f(s[i])
  {
    if j in f(s[|s| - 1]) {
      i := |s| - 1;
    } else {
      i := BagWitness(f, s[..|s| - 1], j);
    }
  }

  lemma {:induction false} SumUpdate<T>(f: T -> nat, s: seq<T>, i: nat, x: T)
    requires i < |s|
    ensures Sum(f, s[i := x]) + f(s[i]) == Sum(f, s) + f(x)
  {
    var n := |s| - 1;
    var t := s[i := x];
    if i < n {
      SumUpdate(f, s[..n], i, x);
      assert t[..n] == s[..n][i := x];
    } else {
      assert t[..n] == s[..n];
    }
  }

  lemma {:induction false} SumCongruent<T>(f: T -> nat, g: T -> nat, s: seq<T>)
    requires forall i :: 0 <= i < |s| ==> f(s[i]) == g(s[i])
    ensures Sum(f, s) == Sum(g, s)
  {
    if s != [] {
      SumCongruent(f, g, s[..|s| - 1]);
    }
  }

  /** Two weightings that differ at one slot only. */
  lemma {:induction false} SumDiffersAt<T>(f: T -> nat, g: T -> nat, s: seq<T>, i: nat)
    requires i < |s|
    requires forall k :: 0 <= k < |s| && k != i ==> f(s[k]) == g(s[k])
    ensures Sum(f, s) + g(s[i]) == Sum(g, s) + f(s[i])
  {
    var n := |s| - 1;
    if i < n {
      SumDiffersAt(f, g, s[..n], i);
    } else {
      SumCongruent(f, g, s[..n]);
    }
  }

  lemma {:induction false} SumBounds<T>(f: T -> nat, s: seq<T>, i: nat)
    requires i < |s|
    ensures f(s[i]) <= Sum(f, s)
  {
    if i < |s| - 1 {
      SumBounds(f, s[..|s| - 1], i);
    }
  }

  lemma {:induction false} SumZero<T>(f: T -> nat, s: seq<T>)
    requires forall i :: 0 <= i < |s| ==> f(s[i]) == 0
    ensures Sum(f, s) == 0
  {
    if s != [] {
      SumZero(f, s[..|s| - 1]);
    }
  }

  lemma BagUpdateCount<T>(f: T -> multiset<nat>, s: seq<T>, i: nat, x: T, j: nat)
    requires i < |s|
    ensures BagOf(f, s[i := x])[j] + f(s[i])[j] == BagOf(f, s)[j] + f(x)[j]
  {
    BagUpdate(f, s, i, x);
    var a, b := BagOf(f, s[i := x]) + f(s[i]), BagOf(f, s) + f(x);
    assert a[j] == b[j];
  }

  lemma AppendCount(s: seq<nat>, x: nat, j: nat)
    ensures multiset(s + [x])[j] == multiset(s)[j] + if j == x then 1 else 0
  {
  }

  lemma TailCount(s: seq<nat>, j: nat)
    requires s != []
    ensures multiset(s)[j] == multiset(s[1..])[j] + if j == s[0] then 1 else 0
  {
    assert s == [s[0]] + s[1..];
  }
}
