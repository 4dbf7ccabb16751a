/** The longest common subsequence by a table. */
module Lcs {

  /** `z` is `x` at the increasing positions `at`. */
  predicate Picks(at: seq<nat>, z: string, x: string) {
    && |at| == |z|
    && (forall k :: 0 <= k < |at| ==> at[k] < |x| && x[at[k]] == z[k])
    && (forall k, l :: 0 <= k < l < |at| ==> at[k] < at[l])
  }

  ghost predicate Subsequence(z: string, x: string) {
    exists at :: Picks(at, z, x)
  }

  ghost predicate Common(z: string, x: string, y: string) {
    Subsequence(z, x) && Subsequence(z, y)
  }

  /** The entry of the table for the first `i` and `j` characters. */
  function Length(x: string, y: string, i: nat, j: nat): nat
    requires i <= |x| && j <= |y|
    decreases i + j
  {
    if i == 0 || j == 0 then 0
    else if x[i - 1] == y[j - 1] then Length(x, y, i - 1, j - 1) + 1
    else Max(Length(x, y, i - 1, j), Length(x, y, i, j - 1))
  }

  function Max(a: int, b: int): int {
    if a > b then a else b
  }

  lemma Entry(x: string, y: string, i: nat, j: nat)
    requires i <= |x| && j <= |y|
    ensures i == 0 || j == 0 ==> Length(x, y, i, j) == 0
    ensures i > 0 && j > 0 && x[i - 1] == y[j - 1] ==> Length(x, y, i, j) == Length(x, y, i - 1, j - 1) + 1
    ensures i > 0 && j > 0 && x[i - 1] != y[j - 1] ==>
      Length(x, y, i, j) == Max(Length(x, y, i - 1, j), Length(x, y, i, j - 1))
  {
  }

  /** A subsequence of `x` whose last position is not the last of `x` is one of the rest. */
  lemma Shorter(z: string, x: string, at: seq<nat>)
    requires x != [] && Picks(at, z, x) && (at == [] || at[|at| - 1] < |x| - 1)
    ensures Picks(at, z, x[..|x| - 1])
  {
    forall k | 0 <= k < |at| ensures at[k] < |x| - 1 {
      assert at[k] <= at[|at| - 1];
    }
  }

  /** Without its last character it is a subsequence of `x` without the last. */
  lemma WithoutLast(z: string, x: string, at: seq<nat>)
    requires z != [] && Picks(at, z, x)
    ensures x != [] && Picks(at[..|at| - 1], z[..|z| - 1], x[..|x| - 1])
  {
    assert at[|at| - 1] < |x|;
    forall k | 0 <= k < |at| - 1 ensures at[k] < |x| - 1 {
      assert at[k] < at[|at| - 1];
    }
  }

  lemma Longer(z: string, x: string, i: nat)
    requires i < |x| && Subsequence(z, x[..i])
    ensures Subsequence(z, x[..i + 1]) && Subsequence(z + [x[i]], x[..i + 1])
  {
    var at :| Picks(at, z, x[..i]);
    assert Picks(at, z, x[..i + 1]);
    assert Picks(at + [i], z + [x[i]], x[..i + 1]);
  }

  /** No common subsequence is longer than the entry. */
  lemma {:induction false} NoneLonger(x: string, y: string, i: nat, j: nat, z: string)
    requires i <= |x| && j <= |y| && Common(z, x[..i], y[..j])
    ensures |z| <= Length(x, y, i, j)
    decreases i + j
  {
    var a :| Picks(a, z, x[..i]);
    var b :| Picks(b, z, y[..j]);
    if z != [] {
      WithoutLast(z, x[..i], a);
      WithoutLast(z, y[..j], b);
      assert x[..i][..i - 1] == x[..i - 1] && y[..j][..j - 1] == y[..j - 1];
      if x[i - 1] == y[j - 1] {
        NoneLonger(x, y, i - 1, j - 1, z[..|z| - 1]);
      } else if a[|a| - 1] < i - 1 {
        Shorter(z, x[..i], a);
        NoneLonger(x, y, i - 1, j, z);
      } else {
        assert a[|a| - 1] == i - 1 && b[|b| - 1] != j - 1;
        Shorter(z, y[..j], b);
        NoneLonger(x, y, i, j - 1, z);
      }
    }
  }

  /** One is as long. */
  lemma {:induction false} OneAsLong(x: string, y: string, i: nat, j: nat) returns (z: string)
    requires i <= |x| && j <= |y|
    ensures Common(z, x[..i], y[..j]) && |z| == Length(x, y, i, j)
    decreases i + j
  {
    if i == 0 || j == 0 {
      z := [];
      assert Picks([], z, x[..i]) && Picks([], z, y[..j]);
    } else if x[i - 1] == y[j - 1] {
      var w := OneAsLong(x, y, i - 1, j - 1);
      Longer(w, x, i - 1);
      Longer(w, y, j - 1);
      z := w + [x[i - 1]];
    } else if Length(x, y, i - 1, j) > Length(x, y, i, j - 1) {
      z := OneAsLong(x, y, i - 1, j);
      Longer(z, x, i - 1);
    } else {
      z := OneAsLong(x, y, i, j - 1);
      Longer(z, y, j - 1);
    }
  }

  /** Fills the table row by row. */
  method Fill(x: string, y: string) returns (r: nat)
    ensures r == Length(x, y, |x|, |y|)
  {
    hide Length;
    var m, n := |x|, |y|;
    var table := new nat[m + 1, n + 1];
    for i := 0 to m + 1
      invariant forall k, l {:trigger table[k, l]} :: 0 <= k < i && 0 <= l <= n ==> table[k, l] == Length(x, y, k, l)
    {
      for j := 0 to n + 1
        invariant forall k, l {:trigger table[k, l]} :: 0 <= k < i && 0 <= l <= n ==> table[k, l] == Length(x, y, k, l)
        invariant forall l {:trigger table[i, l]} :: 0 <= l < j ==> table[i, l] == Length(x, y, i, l)
      {
        Entry(x, y, i, j);
        if i == 0 || j == 0 {
          table[i, j] := 0;
        } else if x[i - 1] == y[j - 1] {
          table[i, j] := table[i - 1, j - 1] + 1;
        } else {
          table[i, j] := Max(table[i - 1, j], table[i, j - 1]);
        }
      }
    }
    return table[m, n];
  }

  /** The length of a longest common subsequence. */
  method LongestCommon(x: string, y: string) returns (r: nat)
    ensures exists z :: Common(z, x, y) && |z| == r
    ensures forall z :: Common(z, x, y) ==> |z| <= r
  {
    hide Length, Common;
    r := Fill(x, y);
    assert x[..|x|] == x && y[..|y|] == y;
    ghost var w := OneAsLong(x, y, |x|, |y|);
    forall z | Common(z, x, y) ensures |z| <= r {
      NoneLonger(x, y, |x|, |y|, z);
    }
  }
}
