/** Sums over sequences, and the pouring of an amount into a row of capacities. */
module Sequences {

  function Sum(s: seq<int>): int {
    if |s| == 0 then 0 else Sum(s[..|s| - 1]) + s[|s| - 1]
  }

  lemma SumSnoc(s: seq<int>, x: int)
    ensures Sum(s + [x]) == Sum(s) + x
  {
    assert (s + [x])[..|s|] == s;
  }

  lemma SumOfOne(x: int)
    ensures Sum([x]) == x
  {
    assert [x][..0] == [];
  }

  lemma {:induction false} SumConcat(s: seq<int>, t: seq<int>)
    ensures Sum(s + t) == Sum(s) + Sum(t)
  {
    if |t| == 0 {
      assert s + t == s;
    } else {
      assert (s + t)[..|s + t| - 1] == s + t[..|t| - 1];
      SumConcat(s, t[..|t| - 1]);
    }
  }

  lemma SumCons(s: seq<int>)
    requires |s| > 0
    ensures Sum(s) == s[0] + Sum(s[1..])
  {
    assert s == [s[0]] + s[1..];
    SumConcat([s[0]], s[1..]);
    SumOfOne(s[0]);
  }

  /** Extending a prefix by one element adds that element. */
  lemma SumPrefix(s: seq<int>, k: nat)
    requires k < |s|
    ensures Sum(s[..k + 1]) == Sum(s[..k]) + s[k]
  {
    assert s[..k + 1] == s[..k] + [s[k]];
    SumSnoc(s[..k], s[k]);
  }

  predicate AllPositive(s: seq<int>) {
    forall i :: 0 <= i < |s| ==> s[i] > 0
  }

  ghost predicate NonNegative(s: seq<int>) {
    forall i :: 0 <= i < |s| ==> s[i] >= 0
  }

  lemma {:induction false} SumNonNegative(s: seq<int>)
    requires NonNegative(s)
    ensures Sum(s) >= 0
    ensures forall i :: 0 <= i < |s| ==> s[i] <= Sum(s)
  {
    if |s| > 0 {
      SumNonNegative(s[..|s| - 1]);
      forall i | 0 <= i < |s| ensures s[i] <= Sum(s) {
        if i < |s| - 1 { assert s[..|s| - 1][i] == s[i]; }
      }
    }
  }

  lemma {:induction false} SumOfZeros(s: seq<int>)
    requires forall i :: 0 <= i < |s| ==> s[i] == 0
    ensures Sum(s) == 0
  {
    if |s| > 0 {
      SumOfZeros(s[..|s| - 1]);
    }
  }

  /** Prefix sums of non-negative elements never decrease. */
  lemma SumPrefixMonotone(s: seq<int>, j: nat, k: nat)
    requires NonNegative(s)
    requires j <= k <= |s|
    ensures 0 <= Sum(s[..j]) <= Sum(s[..k])
    decreases k - j
  {
    SumNonNegative(s[..j]);
    if j < k {
      SumPrefixMonotone(s, j, k - 1);
      SumPrefix(s, k - 1);
    }
  }

  lemma SumWhole(s: seq<int>)
    ensures Sum(s[..|s|]) == Sum(s)
  {
    assert s[..|s|] == s;
  }

  /** Element-wise difference. */
  function Minus(s: seq<int>, t: seq<int>): (d: seq<int>)
    requires |s| == |t|
    ensures |d| == |s|
  {
    seq(|s|, i requires 0 <= i < |s| => s[i] - t[i])
  }

  lemma {:induction false} SumMinus(s: seq<int>, t: seq<int>)
    requires |s| == |t|
    ensures Sum(Minus(s, t)) == Sum(s) - Sum(t)
  {
    if |s| > 0 {
      SumMinus(s[..|s| - 1], t[..|t| - 1]);
      assert Minus(s, t)[..|s| - 1] == Minus(s[..|s| - 1], t[..|t| - 1]);
    }
  }
}
