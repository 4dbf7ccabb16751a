/** The one-way DES of the SMB hashes: byte arrays read as strings of bits. */
module DesHash {
  import opened ByteBits

  type Half = b: seq<bool> | |b| == 32 witness seq(32, _ => false)
  type Block = b: seq<bool> | |b| == 64 witness seq(64, _ => false)
  type Key = b: seq<bool> | |b| == 56 witness seq(56, _ => false)
  type Subkey = b: seq<bool> | |b| == 48 witness seq(48, _ => false)

  /** The substitution boxes, by number and six-bit index; nothing below depends on their contents. */
  type Boxes = (nat, nat) -> Nibble

  // Bit maps, one row for each byte of the destination.

  type Row = r: seq<nat> | |r| == 8 witness [0, 0, 0, 0, 0, 0, 0, 0]

  function Entry(t: seq<Row>, i: nat): nat
    requires i < 8 * |t|
  {
    t[i / 8][i % 8]
  }

  ghost predicate Into(t: seq<Row>, n: nat) {
    forall i: nat | i < 8 * |t| :: Entry(t, i) < n
  }

  const InitialPermuteMap: seq<Row> := [
    [57, 49, 41, 33, 25, 17, 9, 1],
    [59, 51, 43, 35, 27, 19, 11, 3],
    [61, 53, 45, 37, 29, 21, 13, 5],
    [63, 55, 47, 39, 31, 23, 15, 7],
    [56, 48, 40, 32, 24, 16, 8, 0],
    [58, 50, 42, 34, 26, 18, 10, 2],
    [60, 52, 44, 36, 28, 20, 12, 4],
    [62, 54, 46, 38, 30, 22, 14, 6]
  ]

  const KeyPermuteMap: seq<Row> := [
    [49, 42, 35, 28, 21, 14, 7, 0],
    [50, 43, 36, 29, 22, 15, 8, 1],
    [51, 44, 37, 30, 23, 16, 9, 2],
    [52, 45, 38, 31, 55, 48, 41, 34],
    [27, 20, 13, 6, 54, 47, 40, 33],
    [26, 19, 12, 5, 53, 46, 39, 32],
    [25, 18, 11, 4, 24, 17, 10, 3]
  ]

  /** The bits of a key of eight bytes that are not for parity. */
  const Map8to7: seq<Row> := [
    [0, 1, 2, 3, 4, 5, 6, 8],
    [9, 10, 11, 12, 13, 14, 16, 17],
    [18, 19, 20, 21, 22, 24, 25, 26],
    [27, 28, 29, 30, 32, 33, 34, 35],
    [36, 37, 38, 40, 41, 42, 43, 44],
    [45, 46, 48, 49, 50, 51, 52, 53],
    [54, 56, 57, 58, 59, 60, 61, 62]
  ]

  const KeyCompression: seq<Row> := [
    [13, 16, 10, 23, 0, 4, 2, 27],
    [14, 5, 20, 9, 22, 18, 11, 3],
    [25, 7, 15, 6, 26, 19, 12, 1],
    [40, 51, 30, 36, 46, 54, 29, 39],
    [50, 44, 32, 47, 43, 48, 38, 55],
    [33, 52, 45, 41, 49, 35, 28, 31]
  ]

  const DataExpansion: seq<Row> := [
    [31, 0, 1, 2, 3, 4, 3, 4],
    [5, 6, 7, 8, 7, 8, 9, 10],
    [11, 12, 11, 12, 13, 14, 15, 16],
    [15, 16, 17, 18, 19, 20, 19, 20],
    [21, 22, 23, 24, 23, 24, 25, 26],
    [27, 28, 27, 28, 29, 30, 31, 0]
  ]

  const PBox: seq<Row> := [
    [15, 6, 19, 20, 28, 11, 27, 16],
    [0, 14, 22, 25, 4, 17, 30, 9],
    [1, 7, 23, 13, 31, 26, 2, 8],
    [18, 12, 29, 5, 21, 10, 3, 24]
  ]

  const FinalPermuteMap: seq<Row> := [
    [7, 39, 15, 47, 23, 55, 31, 63],
    [6, 38, 14, 46, 22, 54, 30, 62],
    [5, 37, 13, 45, 21, 53, 29, 61],
    [4, 36, 12, 44, 20, 52, 28, 60],
    [3, 35, 11, 43, 19, 51, 27, 59],
    [2, 34, 10, 42, 18, 50, 26, 58],
    [1, 33, 9, 41, 17, 49, 25, 57],
    [0, 32, 8, 40, 16, 48, 24, 56]
  ]

  const KeyRotation: seq<Row> := [
    [1, 1, 2, 2, 2, 2, 2, 2],
    [1, 2, 2, 2, 2, 2, 2, 1]
  ]

  lemma InitialPermuteMapInto()
    ensures |InitialPermuteMap| == 8 && Into(InitialPermuteMap, 64)
  {
  }

  lemma KeyPermuteMapInto()
    ensures |KeyPermuteMap| == 7 && Into(KeyPermuteMap, 56)
  {
  }

  lemma Map8to7Into()
    ensures |Map8to7| == 7 && Into(Map8to7, 64)
  {
  }

  lemma KeyCompressionInto()
    ensures |KeyCompression| == 6 && Into(KeyCompression, 56)
  {
  }

  lemma DataExpansionInto()
    ensures |DataExpansion| == 6 && Into(DataExpansion, 32)
  {
  }

  lemma PBoxInto()
    ensures |PBox| == 4 && Into(PBox, 32)
  {
  }

  lemma FinalPermuteMapInto()
    ensures |FinalPermuteMap| == 8 && Into(FinalPermuteMap, 64)
  {
  }

  /** The position a half-swap takes a bit from. */
  function Across(i: nat): nat
    requires i < 64
  {
    (i + 32) % 64
  }

  /** The final map takes each bit back to where the initial one had it before the half-swap. */
  lemma FinalAfterInitial(i: nat)
    requires i < 64
    ensures |InitialPermuteMap| == |FinalPermuteMap| == 8 && Entry(FinalPermuteMap, i) < 64
    ensures Entry(InitialPermuteMap, Across(Entry(FinalPermuteMap, i))) == i
  {
  }

  lemma InitialAfterFinalLeft(i: nat)
    requires i < 32
    ensures |InitialPermuteMap| == |FinalPermuteMap| == 8 && Entry(InitialPermuteMap, i) < 64
    ensures Entry(FinalPermuteMap, Entry(InitialPermuteMap, i)) == Across(i)
  {
  }

  lemma InitialAfterFinalRight(i: nat)
    requires 32 <= i < 64
    ensures |InitialPermuteMap| == |FinalPermuteMap| == 8 && Entry(InitialPermuteMap, i) < 64
    ensures Entry(FinalPermuteMap, Entry(InitialPermuteMap, i)) == Across(i)
  {
  }

  lemma InitialAfterFinal(i: nat)
    requires i < 64
    ensures |InitialPermuteMap| == |FinalPermuteMap| == 8 && Entry(InitialPermuteMap, i) < 64
    ensures Entry(FinalPermuteMap, Entry(InitialPermuteMap, i)) == Across(i)
  {
    hide InitialPermuteMap, FinalPermuteMap, Entry;
    if i < 32 {
      InitialAfterFinalLeft(i);
    } else {
      InitialAfterFinalRight(i);
    }
  }

  // Permutations of bits.

  function Picked(b: seq<bool>, t: seq<Row>): (r: seq<bool>)
    requires Into(t, |b|)
    ensures |r| == 8 * |t|
  {
    seq(8 * |t|, i requires 0 <= i < 8 * |t| => b[Entry(t, i)])
  }

  function Initial(b: Block): Block {
    InitialPermuteMapInto();
    Picked(b, InitialPermuteMap)
  }

  function Final(b: Block): Block {
    FinalPermuteMapInto();
    Picked(b, FinalPermuteMap)
  }

  function Swapped(b: Block): Block {
    b[32..] + b[..32]
  }

  /** The final map undoes the half-swap after the initial one, and the other way round. */
  lemma FinalUndoes(b: Block)
    ensures Final(Swapped(Initial(b))) == b
    ensures Swapped(Initial(Final(b))) == b
  {
    hide InitialPermuteMap, FinalPermuteMap, Entry, Into;
    forall i: nat | i < 64
      ensures Final(Swapped(Initial(b)))[i] == b[i] && Initial(Final(b))[i] == Swapped(b)[i]
    {
      FinalAfterInitial(i);
      InitialAfterFinal(i);
    }
    assert Swapped(Swapped(b)) == b;
    assert Initial(Final(b)) == Swapped(b);
  }

  // The key.

  function Turned(h: seq<bool>, n: nat): (r: seq<bool>)
    requires h != []
    ensures |r| == |h|
  {
    seq(|h|, i requires 0 <= i < |h| => h[(i + n) % |h|])
  }

  /** Both 28-bit halves of a key, rotated left. */
  function Rotated(k: Key, n: nat): Key {
    Turned(k[..28], n) + Turned(k[28..], n)
  }

  function ShiftedOnce(k: Key, bit: bool): Key {
    k[1..28] + [bit] + k[29..] + [k[28]]
  }

  lemma ShiftedOnceAt(k: Key, bit: bool, p: nat)
    requires p < 56
    ensures ShiftedOnce(k, bit)[p] == if p == 27 then bit else if p == 55 then k[28] else k[p + 1]
  {
  }

  /** The key after `n` shifts, where only a byte of the first half was set aside before them. */
  function Shifted(k: Key, n: nat): Key {
    if n == 0 then k else ShiftedOnce(Shifted(k, n - 1), n - 1 < 8 && k[n - 1])
  }

  lemma {:induction false} ShiftedAt(k: Key, n: nat, i: nat)
    requires i < 56
    ensures Shifted(k, n)[i] ==
            if i >= 28 then k[28 + (i - 28 + n) % 28]
            else if i + n < 28 then k[i + n]
            else i + n < 36 && k[i + n - 28]
  {
    if n > 0 {
      var j := if i == 27 then 28 else if i == 55 then 28 else i + 1;
      ShiftedAt(k, n - 1, j);
    }
  }

  /** The bit the rotation brings to place `i` had not been set aside, and is one. */
  predicate Lost(k: Key, n: nat, i: nat)
    requires i < 28
  {
    i + n >= 36 && k[(i + n) % 28]
  }

  /** The shift is a rotation of both halves just when it loses no bit. */
  lemma ShiftRotatesExactly(k: Key, n: nat)
    ensures Shifted(k, n) == Rotated(k, n) <==> forall i: nat | i < 28 :: !Lost(k, n, i)
  {
    hide Shifted;
    forall i: nat | i < 56
      ensures Shifted(k, n)[i] == Rotated(k, n)[i] <==> i < 28 ==> !Lost(k, n, i)
    {
      ShiftedAt(k, n, i);
    }
    if i: nat :| i < 28 && Lost(k, n, i) {
      assert Shifted(k, n)[i] != Rotated(k, n)[i];
    }
  }

  /** Nine places are too many for a key whose ninth bit is one. */
  lemma NinthBitLost(k: Key)
    requires k[8]
    ensures Shifted(k, 9) != Rotated(k, 9)
  {
    hide Shifted, Rotated;
    ShiftRotatesExactly(k, 9);
    assert Lost(k, 9, 27);
  }

  lemma ShiftRotates(k: Key, n: nat)
    requires n <= 8
    ensures Shifted(k, n) == Rotated(k, n)
  {
    hide Shifted, Rotated;
    ShiftRotatesExactly(k, n);
  }

  lemma TwoTurns(i: nat, m: nat, n: nat)
    ensures ((i + n) % 28 + m) % 28 == (i + (m + n)) % 28
  {
  }

  lemma TurnedTwice(h: seq<bool>, m: nat, n: nat)
    requires |h| == 28
    ensures Turned(Turned(h, m), n) == Turned(h, m + n)
  {
    forall i | 0 <= i < 28 ensures Turned(Turned(h, m), n)[i] == Turned(h, m + n)[i] {
      TwoTurns(i, m, n);
    }
  }

  lemma RotatedTwice(k: Key, m: nat, n: nat)
    ensures Rotated(Rotated(k, m), n) == Rotated(k, m + n)
  {
    hide Turned;
    TurnedTwice(k[..28], m, n);
    TurnedTwice(k[28..], m, n);
    assert Rotated(k, m)[..28] == Turned(k[..28], m) && Rotated(k, m)[28..] == Turned(k[28..], m);
  }

  /** How far the key has been turned after `n` rounds. */
  function Turns(n: nat): nat
    requires n <= 16
  {
    if n == 0 then 0 else Turns(n - 1) + Entry(KeyRotation, n - 1)
  }

  lemma TurnsAre()
    ensures Turns(8) == 14 && Turns(16) == 28
  {
    assert Turns(4) == 6;
    assert Turns(8) == 14;
    assert Turns(12) == 21;
  }

  lemma FullTurn(k: Key)
    ensures Rotated(k, 28) == k
  {
  }

  /** The rotations of the sixteen rounds bring the key back to where it was. */
  lemma KeyReturns(k: Key)
    ensures Turns(16) == 28
    ensures Rotated(k, Turns(16)) == k
  {
    hide Rotated, Turns;
    TurnsAre();
    FullTurn(k);
  }

  // The cipher.

  function Xored(a: seq<bool>, b: seq<bool>): (r: seq<bool>)
    requires |a| == |b|
    ensures |r| == |a|
  {
    seq(|a|, i requires 0 <= i < |a| => a[i] != b[i])
  }

  /** Each six bits replaced by the four bits of the entry they number. */
  function Substituted(s: Boxes, b: Subkey): Half {
    seq(32, p requires 0 <= p < 32 => GetBit(s(p / 4, Number(b[p / 4 * 6..p / 4 * 6 + 6])), 4 + p % 4))
  }

  function Mix(s: Boxes, from: Half, k: Subkey): Half {
    DataExpansionInto();
    PBoxInto();
    Picked(Substituted(s, Xored(Picked(from, DataExpansion), k)), PBox)
  }

  function Round(s: Boxes, k: Subkey, b: Block): Block {
    b[32..] + Xored(b[..32], Mix(s, b[32..], k))
  }

  function Rounds(s: Boxes, ks: seq<Subkey>, b: Block): Block {
    if ks == [] then b else Round(s, ks[|ks| - 1], Rounds(s, ks[..|ks| - 1], b))
  }

  function Reversed(ks: seq<Subkey>): (r: seq<Subkey>)
    ensures |r| == |ks|
  {
    seq(|ks|, i requires 0 <= i < |ks| => ks[|ks| - 1 - i])
  }

  function Crypt(s: Boxes, ks: seq<Subkey>, b: Block): Block {
    Final(Rounds(s, ks, Initial(b)))
  }

  function SubkeyAfter(k: Key, n: nat): Subkey
    requires n <= 16
  {
    KeyCompressionInto();
    Picked(Rotated(k, Turns(n)), KeyCompression)
  }

  function Start(k: Key): Key {
    KeyPermuteMapInto();
    Picked(k, KeyPermuteMap)
  }

  /** The subkeys of the sixteen rounds: each follows the rotation of its round. */
  function Subkeys(k: Key): (ks: seq<Subkey>)
    ensures |ks| == 16
  {
    seq(16, i requires 0 <= i < 16 => SubkeyAfter(Start(k), i + 1))
  }

  lemma XoredTwice(a: Half, b: Half)
    ensures Xored(Xored(a, b), b) == a
  {
  }

  lemma RoundUndoes(s: Boxes, k: Subkey, b: Block)
    ensures Round(s, k, Swapped(Round(s, k, b))) == Swapped(b)
  {
    hide Mix, Xored;
    XoredTwice(b[..32], Mix(s, b[32..], k));
  }

  lemma {:induction false} RoundsOf(s: Boxes, k: Subkey, ks: seq<Subkey>, b: Block)
    ensures Rounds(s, [k] + ks, b) == Rounds(s, ks, Round(s, k, b))
  {
    hide Round;
    var n := |ks|;
    if ks == [] {
      assert ([k] + ks)[..n] == [];
    } else {
      assert ([k] + ks)[..n] == [k] + ks[..n - 1];
      RoundsOf(s, k, ks[..n - 1], b);
    }
  }

  /** Running the rounds again on the swapped halves, subkeys reversed, undoes them. */
  lemma {:induction false} RoundsUndo(s: Boxes, ks: seq<Subkey>, b: Block)
    ensures Rounds(s, Reversed(ks), Swapped(Rounds(s, ks, b))) == Swapped(b)
  {
    hide Round, Swapped;
    if ks != [] {
      var k, rest := ks[|ks| - 1], ks[..|ks| - 1];
      assert Reversed(ks) == [k] + Reversed(rest);
      RoundsOf(s, k, Reversed(rest), Swapped(Rounds(s, ks, b)));
      RoundUndoes(s, k, Rounds(s, rest, b));
      RoundsUndo(s, rest, b);
    }
  }

  lemma CryptUndoes(s: Boxes, ks: seq<Subkey>, b: Block)
    ensures Crypt(s, Reversed(ks), Crypt(s, ks, b)) == b
  {
    hide Rounds, Initial, Final, Swapped;
    var r := Rounds(s, ks, Initial(b));
    FinalUndoes(r);
    assert Initial(Final(r)) == Swapped(r) by {
      SwappedTwice(Initial(Final(r)));
    }
    RoundsUndo(s, ks, Initial(b));
    FinalUndoes(b);
  }

  lemma SwappedTwice(b: Block)
    ensures Swapped(Swapped(b)) == b
  {
  }

  // Blocks and keys as bytes.

  type Byte7 = k: seq<bv8> | |k| == 7 witness [0, 0, 0, 0, 0, 0, 0]
  type Byte8 = k: seq<bv8> | |k| == 8 witness [0, 0, 0, 0, 0, 0, 0, 0]

  /** A key of eight bytes as one of seven. */
  function Narrowed(key: Byte8): Byte7 {
    Map8to7Into();
    Octets(Picked(Bits(key), Map8to7))
  }

  function Hash(s: Boxes, key: Byte7, data: Byte8): Byte8 {
    Octets(Crypt(s, Subkeys(Bits(key)), Bits(data)))
  }

  /** The inverse of the hash, which the program does not have: the same rounds, subkeys reversed. */
  function Unhash(s: Boxes, key: Byte7, data: Byte8): Byte8 {
    Octets(Crypt(s, Reversed(Subkeys(Bits(key))), Bits(data)))
  }

  /** For every key the hash is a bijection of eight-byte blocks. */
  lemma HashBijection(s: Boxes, key: Byte7, data: Byte8)
    ensures Unhash(s, key, Hash(s, key, data)) == data
    ensures Hash(s, key, Unhash(s, key, data)) == data
  {
    hide Octets, Bits, Crypt, Subkeys;
    var ks, b := Subkeys(Bits(key)), Bits(data);
    assert Reversed(Reversed(ks)) == ks;
    BitsOfOctets(Crypt(s, ks, b));
    BitsOfOctets(Crypt(s, Reversed(ks), b));
    CryptUndoes(s, ks, b);
    CryptUndoes(s, Reversed(ks), b);
    OctetsOfBits(data);
  }
}
