/** The best value of items within a capacity, by a table. */
module Knapsack {

  /** Which of the first items are taken. */
  type Choice = seq<bool>

  function Weight(wt: seq<int>, take: Choice): int
    requires |take| <= |wt|
  {
    if take == [] then 0
    else Weight(wt, take[..|take| - 1]) + if take[|take| - 1] then wt[|take| - 1] else 0
  }

  function Worth(val: seq<int>, take: Choice): int
    requires |take| <= |val|
  {
    if take == [] then 0
    else Worth(val, take[..|take| - 1]) + if take[|take| - 1] then val[|take| - 1] else 0
  }

  ghost predicate Fits(wt: seq<int>, n: nat, w: int, take: Choice)
    requires n <= |wt|
  {
    |take| == n && Weight(wt, take) <= w
  }

  /** No index of the table is negative. */
  predicate Weights(wt: seq<int>) {
    forall k :: 0 <= k < |wt| ==> wt[k] >= 0
  }

  predicate Positive(wt: seq<int>) {
    forall k :: 0 <= k < |wt| ==> wt[k] >= 1
  }

  /** The entry of the table for the first `i` items and capacity `j`. */
  function Best(wt: seq<int>, val: seq<int>, i: nat, j: nat): int
    requires i <= |wt| == |val| && Weights(wt)
  {
    if i == 0 || j == 0 then 0
    else if wt[i - 1] <= j then
      var a := val[i - 1] + Best(wt, val, i - 1, j - wt[i - 1]);
      var b := Best(wt, val, i - 1, j);
      if a > b then a else b
    else Best(wt, val, i - 1, j)
  }

  lemma {:induction false} WeightPositive(wt: seq<int>, take: Choice)
    requires |take| <= |wt| && Weights(wt)
    ensures Weight(wt, take) >= 0
    ensures Positive(wt) && Weight(wt, take) == 0 ==> forall k :: 0 <= k < |take| ==> !take[k]
  {
    if take != [] {
      WeightPositive(wt, take[..|take| - 1]);
      assert forall k :: 0 <= k < |take| - 1 ==> take[k] == take[..|take| - 1][k];
    }
  }

  lemma {:induction false} NothingTaken(val: seq<int>, take: Choice)
    requires |take| <= |val| && forall k :: 0 <= k < |take| ==> !take[k]
    ensures Worth(val, take) == 0
  {
    if take != [] {
      NothingTaken(val, take[..|take| - 1]);
    }
  }

  /** With positive weights no choice that fits is worth more than the entry. */
  lemma {:induction false} NoneBetter(wt: seq<int>, val: seq<int>, i: nat, j: nat, take: Choice)
    requires i <= |wt| == |val| && Positive(wt)
    requires Fits(wt, i, j, take)
    ensures Worth(val, take) <= Best(wt, val, i, j)
    decreases i
  {
    WeightPositive(wt, take);
    if i == 0 {
    } else if j == 0 {
      NothingTaken(val, take);
    } else {
      var rest := take[..i - 1];
      WeightPositive(wt, rest);
      if take[i - 1] {
        NoneBetter(wt, val, i - 1, j - wt[i - 1], rest);
      } else {
        NoneBetter(wt, val, i - 1, j, rest);
      }
    }
  }

  lemma {:induction false} TakeNothing(wt: seq<int>, val: seq<int>, i: nat)
    requires i <= |wt| == |val|
    ensures var t := seq(i, _ => false); Weight(wt, t) == 0 && Worth(val, t) == 0
  {
    if i > 0 {
      TakeNothing(wt, val, i - 1);
      assert seq(i, _ => false)[..i - 1] == seq(i - 1, _ => false);
    }
  }

  /** One is worth as much. */
  lemma {:induction false} OneAsGood(wt: seq<int>, val: seq<int>, i: nat, j: nat) returns (take: Choice)
    requires i <= |wt| == |val| && Weights(wt)
    ensures Fits(wt, i, j, take) && Worth(val, take) == Best(wt, val, i, j)
    decreases i
  {
    if i == 0 || j == 0 {
      take := seq(i, _ => false);
      TakeNothing(wt, val, i);
    } else {
      var b := wt[i - 1] <= j && val[i - 1] + Best(wt, val, i - 1, j - wt[i - 1]) > Best(wt, val, i - 1, j);
      var rest := OneAsGood(wt, val, i - 1, if b then j - wt[i - 1] else j);
      take := rest + [b];
      assert take[..i - 1] == rest;
    }
  }

  // ---------------------------------------------------------------- Items of weight 0

  /** The entry is the greatest worth of any choice that fits, for every capacity and all values. */
  ghost predicate Optimal(wt: seq<int>)
    requires Weights(wt)
  {
    forall w: nat, val: seq<int>, take :: |val| == |wt| && Fits(wt, |wt|, w, take) ==>
      Worth(val, take) <= Best(wt, val, |wt|, w)
  }

  /** Items worth nothing but for number `k`, worth one. */
  function OnlyItem(n: nat, k: nat): seq<int> {
    seq(n, i => if i == k then 1 else 0)
  }

  lemma {:induction false} OnlyItemTaken(wt: seq<int>, k: nat, i: nat)
    requires k < |wt| && wt[k] == 0 && i <= |wt|
    ensures var take := seq(i, j => j == k);
            Weight(wt, take) == 0 && Worth(OnlyItem(|wt|, k), take) == if k < i then 1 else 0
  {
    if i > 0 {
      OnlyItemTaken(wt, k, i - 1);
      assert seq(i, j => j == k)[..i - 1] == seq(i - 1, j => j == k);
    }
  }

  /** The column of capacity 0 is never filled, so an item of weight 0 is missed there. */
  lemma WeightZeroMissed(wt: seq<int>, k: nat)
    requires Weights(wt) && k < |wt| && wt[k] == 0
    ensures Best(wt, OnlyItem(|wt|, k), |wt|, 0) == 0
    ensures exists take :: Fits(wt, |wt|, 0, take) && Worth(OnlyItem(|wt|, k), take) == 1
  {
    OnlyItemTaken(wt, k, |wt|);
    assert Fits(wt, |wt|, 0, seq(|wt|, j => j == k));
  }

  /** The same where there is capacity, once it is used up: 7 for a capacity of 1, where 12 is possible. */
  lemma WeightZeroMissedLater()
    ensures Best([0, 1], [5, 7], 2, 1) == 7
    ensures Fits([0, 1], 2, 1, [true, true]) && Worth([5, 7], [true, true]) == 12
  {
    assert [true, true][..1] == [true] && [true][..0] == [];
    assert Weight([0, 1], [true]) == 0 && Worth([5, 7], [true]) == 5;
    assert Best([0, 1], [5, 7], 1, 0) == 0 && Best([0, 1], [5, 7], 1, 1) == 5;
  }

  /** The table is optimal for every capacity and all values exactly if no item has weight 0. */
  lemma OptimalExactly(wt: seq<int>)
    requires Weights(wt)
    ensures Optimal(wt) <==> Positive(wt)
  {
    if Positive(wt) {
      forall w: nat, val: seq<int>, take | |val| == |wt| && Fits(wt, |wt|, w, take)
        ensures Worth(val, take) <= Best(wt, val, |wt|, w)
      {
        NoneBetter(wt, val, |wt|, w, take);
      }
    } else {
      var k :| 0 <= k < |wt| && wt[k] < 1;
      WeightZeroMissed(wt, k);
    }
  }

  /**
   * Fills the table.  The result is the worth of a choice within the capacity, and with positive
   * weights the greatest.
   */
  method BestWorth(w: nat, wt: seq<int>, val: seq<int>) returns (r: int)
    requires |wt| == |val| && Weights(wt)
    ensures r == Best(wt, val, |wt|, w)
    ensures exists take :: Fits(wt, |wt|, w, take) && Worth(val, take) == r
    ensures Positive(wt) ==> forall take :: Fits(wt, |wt|, w, take) ==> Worth(val, take) <= r
  {
    var n := |wt|;
    var dp := new int[n + 1, w + 1];
    for i := 0 to n + 1
      invariant forall k, l {:trigger dp[k, l]} :: 0 <= k < i && 0 <= l <= w ==> dp[k, l] == 0
    {
      for j := 0 to w + 1
        invariant forall k, l {:trigger dp[k, l]} :: 0 <= k < i && 0 <= l <= w ==> dp[k, l] == 0
        invariant forall l {:trigger dp[i, l]} :: 0 <= l < j ==> dp[i, l] == 0
      {
        dp[i, j] := 0;
      }
    }
    for i := 1 to n + 1
      invariant forall k, l {:trigger dp[k, l]} :: 0 <= k < i && 0 <= l <= w ==> dp[k, l] == Best(wt, val, k, l)
      invariant forall k, l {:trigger dp[k, l]} :: i <= k <= n && 0 <= l <= w ==> dp[k, l] == 0
    {
      for j := 1 to w + 1
        invariant forall k, l {:trigger dp[k, l]} :: 0 <= k < i && 0 <= l <= w ==> dp[k, l] == Best(wt, val, k, l)
        invariant forall l {:trigger dp[i, l]} :: 0 <= l < j ==> dp[i, l] == Best(wt, val, i, l)
        invariant forall k, l {:trigger dp[k, l]} :: i < k <= n && 0 <= l <= w ==> dp[k, l] == 0
      {
        if wt[i - 1] <= j {
          var a := val[i - 1] + dp[i - 1, j - wt[i - 1]];
          var b := dp[i - 1, j];
          dp[i, j] := if a > b then a else b;
        } else {
          dp[i, j] := dp[i - 1, j];
        }
      }
    }
    r := dp[n, w];
    ghost var best := OneAsGood(wt, val, n, w);
    if Positive(wt) {
      forall take | Fits(wt, n, w, take) ensures Worth(val, take) <= r {
        NoneBetter(wt, val, n, w, take);
      }
    }
  }
}
