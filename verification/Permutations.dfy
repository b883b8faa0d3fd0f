/** Permutations as sequences, and their sign. */
module Permutations {
  import opened Counting

  predicate IsPerm(p: seq<nat>) {
    && (forall i :: 0 <= i < |p| ==> p[i] < |p|)
    && (forall i, j :: 0 <= i < j < |p| ==> p[i] != p[j])
  }

  function Swap<T>(s: seq<T>, i: nat, j: nat): seq<T>
    requires i < |s| && j < |s|
  {
    s[i := s[j]][j := s[i]]
  }

  /** How many elements of `s` are less than `x`. */
  function Smaller(x: nat, s: seq<nat>): nat {
    if s == [] then 0 else (if s[0] < x then 1 else 0) + Smaller(x, s[1..])
  }

  /** How many pairs are out of order. */
  function Inversions(s: seq<nat>): nat {
    if s == [] then 0 else Smaller(s[0], s[1..]) + Inversions(s[1..])
  }

  /** The sign of a permutation: 1 if an even number of pairs is out of order, -1 if odd. */
  function Sign(s: seq<nat>): int { if Inversions(s) % 2 == 0 then 1 else -1 }

  lemma {:induction false} SmallerSwap(x: nat, s: seq<nat>, i: nat)
    requires i + 1 < |s|
    ensures Smaller(x, Swap(s, i, i + 1)) == Smaller(x, s)
  {
    var q := Swap(s, i, i + 1);
    if i == 0 {
      assert q[1..][1..] == s[1..][1..];
    } else {
      assert q[1..] == Swap(s[1..], i - 1, i);
      SmallerSwap(x, s[1..], i - 1);
    }
  }

  lemma FirstTwo(a: nat, b: nat, rest: seq<nat>)
    ensures Inversions([a, b] + rest) == (if b < a then 1 else 0) + Smaller(a, rest) + Smaller(b, rest) + Inversions(rest)
  {
    var s := [a, b] + rest;
    assert s[1..] == [b] + rest;
    assert s[1..][1..] == rest;
  }

  /** Exchanging neighbours changes the number of inversions by one. */
  lemma {:induction false} NeighbourChanges(s: seq<nat>, i: nat)
    requires i + 1 < |s| && s[i] != s[i + 1]
    ensures var q := Swap(s, i, i + 1);
            Inversions(q) == Inversions(s) + 1 || Inversions(s) == Inversions(q) + 1
  {
    var q := Swap(s, i, i + 1);
    if i == 0 {
      assert s == [s[0], s[1]] + s[2..];
      assert q == [s[1], s[0]] + s[2..];
      FirstTwo(s[0], s[1], s[2..]);
      FirstTwo(s[1], s[0], s[2..]);
    } else {
      assert q[1..] == Swap(s[1..], i - 1, i);
      SmallerSwap(s[0], s[1..], i - 1);
      NeighbourChanges(s[1..], i - 1);
    }
  }

  lemma NeighbourFlips(s: seq<nat>, i: nat)
    requires i + 1 < |s| && s[i] != s[i + 1]
    ensures Sign(Swap(s, i, i + 1)) == -Sign(s)
  {
    hide Inversions;
    NeighbourChanges(s, i);
  }

  /** Exchanging any two different elements changes the sign. */
  lemma {:induction false} SwapFlips(s: seq<nat>, i: nat, j: nat)
    requires i < j < |s| && forall k, l :: 0 <= k < l < |s| ==> s[k] != s[l]
    ensures Sign(Swap(s, i, j)) == -Sign(s)
    decreases j - i
  {
    if j == i + 1 {
      NeighbourFlips(s, i);
    } else {
      var q1 := Swap(s, i, i + 1);
      var q2 := Swap(q1, i + 1, j);
      NeighbourFlips(s, i);
      SwapFlips(q1, i + 1, j);
      NeighbourFlips(q2, i);
      assert Swap(q2, i, i + 1) == Swap(s, i, j);
    }
  }

  lemma SwapKeepsPerm(p: seq<nat>, i: nat, j: nat)
    requires IsPerm(p) && i < |p| && j < |p|
    ensures IsPerm(Swap(p, i, j))
  {
  }

  function Range(n: nat): seq<nat> { seq(n, (i: nat) => i) }

  lemma {:induction false} NoneSmaller(x: nat, s: seq<nat>)
    requires forall i :: 0 <= i < |s| ==> x <= s[i]
    ensures Smaller(x, s) == 0
  {
    if s != [] { NoneSmaller(x, s[1..]); }
  }

  lemma {:induction false} SortedIsEven(s: seq<nat>)
    requires forall i, j :: 0 <= i < j < |s| ==> s[i] <= s[j]
    ensures Inversions(s) == 0
  {
    if s != [] {
      NoneSmaller(s[0], s[1..]);
      SortedIsEven(s[1..]);
    }
  }

  /** Every number below the length is reached. */
  lemma Reaches(p: seq<nat>, r: nat) returns (i: nat)
    requires IsPerm(p) && r < |p|
    ensures i < |p| && p[i] == r
  {
    if forall i :: 0 <= i < |p| ==> p[i] != r {
      var members := set x | x in p;
      DistinctCard(p, members);
      var others := Below(|p|) - {r};
      BelowCard(|p|);
      assert members <= others;
      SubsetCard(members, others);
      assert false;
    }
    i :| i < |p| && p[i] == r;
  }

  function Below(n: nat): set<nat> { if n == 0 then {} else Below(n - 1) + {n - 1} }

  lemma {:induction false} BelowCard(n: nat)
    ensures |Below(n)| == n && forall x: nat :: x in Below(n) <==> x < n
  {
    if n > 0 { BelowCard(n - 1); }
  }

  lemma {:induction false} DistinctCard(s: seq<nat>, members: set<nat>)
    requires forall i, j :: 0 <= i < j < |s| ==> s[i] != s[j]
    requires members == set x | x in s
    ensures |members| == |s|
  {
    if s != [] {
      var rest := set x | x in s[1..];
      DistinctCard(s[1..], rest);
      assert members == rest + {s[0]};
    }
  }
}
