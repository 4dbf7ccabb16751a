/**
 * DES as FIPS PUB 46-2 has it, on strings of bits, for any eight substitution tables.  The standard
 * counts bits from 1 at the left, this module from 0; tables that follow no rule are as printed there.
 */
module DesStandard {
  import opened ByteBits

  type Bits32 = b: seq<bool> | |b| == 32 witness seq(32, _ => false)
  type Bits48 = b: seq<bool> | |b| == 48 witness seq(48, _ => false)
  type Bits56 = b: seq<bool> | |b| == 56 witness seq(56, _ => false)
  type Bits64 = b: seq<bool> | |b| == 64 witness seq(64, _ => false)

  /** The substitution tables, by number and six-bit entry. */
  type Boxes = (nat, nat) -> Nibble

  // Positions.

  /** The initial permutation: bit `i` of its result is this bit of the block. */
  function InitialFrom(i: nat): (p: nat)
    requires i < 64
    ensures p < 64
  {
    8 * (7 - i % 8) + if i < 32 then 2 * (i / 8) + 1 else 2 * (i / 8) - 8
  }

  /** Its inverse. */
  function FinalFrom(i: nat): (p: nat)
    requires i < 64
    ensures p < 64
  {
    8 * (i % 8 / 2 + if i % 2 == 0 then 4 else 0) + 7 - i / 8
  }

  lemma InitialOfFinal(i: nat)
    requires i < 64
    ensures InitialFrom(FinalFrom(i)) == i
  {
    var p := FinalFrom(i);
    assert p / 8 == i % 8 / 2 + (if i % 2 == 0 then 4 else 0) && p % 8 == 7 - i / 8;
  }

  lemma FinalOfInitial(i: nat)
    requires i < 64
    ensures FinalFrom(InitialFrom(i)) == i
  {
    var p := InitialFrom(i);
    assert p / 8 == 7 - i % 8 && p % 8 == if i < 32 then 2 * (i / 8) + 1 else 2 * (i / 8) - 8;
  }

  /** The expansion: six bits for each table, of which the outer two belong to its neighbours too. */
  function ExpandedFrom(g: nat, j: nat): (p: nat)
    requires g < 8 && j < 6
    ensures p < 32
  {
    (4 * g + j + 31) % 32
  }

  /** The permutation after the tables. */
  const P: seq<seq<nat>> := [
    [16, 7, 20, 21], [29, 12, 28, 17], [1, 15, 23, 26], [5, 18, 31, 10],
    [2, 8, 24, 14], [32, 27, 3, 9], [19, 13, 30, 6], [22, 11, 4, 25]
  ]

  function MixedFrom(i: nat): (p: nat)
    requires i < 32
    ensures p < 32
  {
    P[i / 4][i % 4] - 1
  }

  /** Permuted choice 1 of a key of 64 bits, every eighth of which is for parity. */
  function KeyFrom(i: nat): (p: nat)
    requires i < 56
    ensures p < 64
  {
    if i < 28 then 8 * (7 - i % 8) + i / 8
    else if i < 52 then 8 * (7 - (i - 28) % 8) + 6 - (i - 28) / 8
    else 8 * (55 - i) + 3
  }

  /** Permuted choice 2, six bits for each table. */
  const CHOICE2: seq<seq<nat>> := [
    [14, 17, 11, 24, 1, 5], [3, 28, 15, 6, 21, 10], [23, 19, 12, 4, 26, 8], [16, 7, 27, 20, 13, 2],
    [41, 52, 31, 37, 47, 55], [30, 40, 51, 45, 33, 48], [44, 49, 39, 56, 34, 53], [46, 42, 50, 36, 29, 32]
  ]

  function ChosenFrom(i: nat): (p: nat)
    requires i < 48
    ensures p < 56
  {
    CHOICE2[i / 6][i % 6] - 1
  }

  // The key schedule.

  function PermutedChoice1(key: Bits64): Bits56 {
    seq(56, i requires 0 <= i < 56 => key[KeyFrom(i)])
  }

  /** Both halves one place to the left. */
  function LeftShift(k: Bits56): Bits56 {
    k[1..28] + [k[0]] + k[29..] + [k[28]]
  }

  /** The halves after the left shifts of `n` rounds: one in rounds 1, 2, 9 and 16, two in the others. */
  function KeyAfter(k: Bits56, n: nat): Bits56 {
    if n == 0 then k
    else
      var once := LeftShift(KeyAfter(k, n - 1));
      if n in {1, 2, 9, 16} then once else LeftShift(once)
  }

  function PermutedChoice2(k: Bits56): Bits48 {
    seq(48, i requires 0 <= i < 48 => k[ChosenFrom(i)])
  }

  /** The keys of the sixteen rounds. */
  function RoundKeys(key: Bits64): (ks: seq<Bits48>)
    ensures |ks| == 16
  {
    seq(16, i requires 0 <= i < 16 => PermutedChoice2(KeyAfter(PermutedChoice1(key), i + 1)))
  }

  function Reversed(ks: seq<Bits48>): (r: seq<Bits48>)
    ensures |r| == |ks|
  {
    seq(|ks|, i requires 0 <= i < |ks| => ks[|ks| - 1 - i])
  }

  // The cipher.

  /** The six bits that table `g` is asked for. */
  function Six(r: Bits32, k: Bits48, g: nat): (b: seq<bool>)
    requires g < 8
    ensures |b| == 6
  {
    seq(6, j requires 0 <= j < 6 => r[ExpandedFrom(g, j)] != k[6 * g + j])
  }

  /** The function f of the standard: bit `i` of its result comes from one of the four bits of one table. */
  function F(s: Boxes, r: Bits32, k: Bits48): Bits32 {
    seq(32, i requires 0 <= i < 32 =>
      var p := MixedFrom(i); GetBit(s(p / 4, Number(Six(r, k, p / 4))), 4 + p % 4))
  }

  /** L' = R and R' = L xor f(R, K). */
  function Round(s: Boxes, k: Bits48, b: Bits64): Bits64 {
    var f := F(s, b[32..], k);
    b[32..] + seq(32, i requires 0 <= i < 32 => b[i] != f[i])
  }

  function Rounds(s: Boxes, ks: seq<Bits48>, b: Bits64): Bits64 {
    if ks == [] then b else Round(s, ks[|ks| - 1], Rounds(s, ks[..|ks| - 1], b))
  }

  function Initial(b: Bits64): Bits64 {
    seq(64, i requires 0 <= i < 64 => b[InitialFrom(i)])
  }

  function Final(b: Bits64): Bits64 {
    seq(64, i requires 0 <= i < 64 => b[FinalFrom(i)])
  }

  /** The halves change places before the last permutation. */
  function Crypt(s: Boxes, ks: seq<Bits48>, b: Bits64): Bits64 {
    var r := Rounds(s, ks, Initial(b));
    Final(r[32..] + r[..32])
  }

  function Enciphered(s: Boxes, key: Bits64, b: Bits64): Bits64 {
    Crypt(s, RoundKeys(key), b)
  }

  function Deciphered(s: Boxes, key: Bits64, b: Bits64): Bits64 {
    Crypt(s, Reversed(RoundKeys(key)), b)
  }
}
