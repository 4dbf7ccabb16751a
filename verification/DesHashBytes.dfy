/** The one-way DES on byte arrays, in place. */
module DesHashBytes {
  import opened ByteBits
  import opened DesHash

  predicate BitOf(a: array<bv8>, p: nat)
    requires p < 8 * a.Length
    reads a
  {
    GetBit(a[p / 8], p % 8)
  }

  method Set(a: array<bv8>, p: nat)
    requires p < 8 * a.Length
    modifies a
    ensures forall q: nat | q < 8 * a.Length :: BitOf(a, q) == (q == p || old(BitOf(a, q)))
    ensures forall i | 0 <= i < a.Length && i != p / 8 :: a[i] == old(a[i])
  {
    hide GetBit, SetBit;
    a[p / 8] := SetBit(a[p / 8], p % 8);
    forall q: nat | q < 8 * a.Length
      ensures BitOf(a, q) == (q == p || old(BitOf(a, q)))
    {
      if q / 8 == p / 8 {
        SetBitAt(old(a[p / 8]), p % 8, q % 8);
      }
    }
  }

  method Clear(a: array<bv8>, p: nat)
    requires p < 8 * a.Length
    modifies a
    ensures forall q: nat | q < 8 * a.Length :: BitOf(a, q) == (q != p && old(BitOf(a, q)))
    ensures forall i | 0 <= i < a.Length && i != p / 8 :: a[i] == old(a[i])
  {
    hide GetBit, ClearBit;
    a[p / 8] := ClearBit(a[p / 8], p % 8);
    forall q: nat | q < 8 * a.Length
      ensures BitOf(a, q) == (q != p && old(BitOf(a, q)))
    {
      if q / 8 == p / 8 {
        ClearBitAt(old(a[p / 8]), p % 8, q % 8);
      }
    }
  }

  /** The bits of the `n` bytes of `src` from `from` on, picked by the map. */
  method Permute(dst: array<bv8>, src: array<bv8>, from: nat, ghost n: nat, t: seq<Row>)
    requires dst != src && |t| <= dst.Length && from + n <= src.Length
    requires Into(t, 8 * n)
    modifies dst
    ensures Bits(dst[..|t|]) == Picked(Bits(src[from..from + n]), t)
    ensures dst[|t|..] == old(dst[|t|..])
  {
    hide GetBit;
    for i := 0 to |t|
      invariant forall j | 0 <= j < i :: dst[j] == 0
      invariant forall j | i <= j < dst.Length :: dst[j] == old(dst[j])
    {
      dst[i] := 0;
    }
    ghost var want := Picked(Bits(src[from..from + n]), t);
    forall p: nat | p < 8 * |t| ensures !BitOf(dst, p) {
      ZeroAt(p % 8);
    }
    for i := 0 to 8 * |t|
      invariant forall p: nat | p < 8 * |t| :: BitOf(dst, p) == (p < i && want[p])
      invariant forall j | |t| <= j < dst.Length :: dst[j] == old(dst[j])
    {
      var e := Entry(t, i);
      if GetBit(src[from + e / 8], e % 8) {
        Set(dst, i);
      }
    }
    assert forall p: nat | p < 8 * |t| :: Bits(dst[..|t|])[p] == BitOf(dst, p);
  }

  /** One step of the byte-by-byte shift: the top bit of byte `j` moves into the byte before it. */
  method ShiftByte(key: array<bv8>, j: nat)
    requires j < key.Length
    modifies key
    ensures forall m | 0 <= m < key.Length && m != j && m != j - 1 :: key[m] == old(key[m])
    ensures j > 0 ==> key[j - 1] == if GetBit(old(key[j]), 0) then SetBit(old(key[j - 1]), 7) else old(key[j - 1])
    ensures key[j] == Doubled(old(key[j]))
  {
    hide GetBit, SetBit;
    EndBits(key[j]);
    if j != 0 && key[j] & 0x80 != 0 {
      EndBits(key[j - 1]);
      key[j - 1] := key[j - 1] | 0x01;
    }
    key[j] := key[j] << 1;
  }

  /** The byte-by-byte shift of the whole key by one bit. */
  method ShiftBytes(key: array<bv8>)
    requires key.Length == 7
    modifies key
    ensures forall p: nat | p < 55 :: BitOf(key, p) == old(BitOf(key, p + 1))
    ensures !BitOf(key, 55)
  {
    hide GetBit, SetBit, Doubled;
    for j := 0 to 7
      invariant forall p: nat | p < 8 * j - 1 :: BitOf(key, p) == old(BitOf(key, p + 1))
      invariant j > 0 ==> !BitOf(key, 8 * j - 1)
      invariant forall m | j <= m < 7 :: key[m] == old(key[m])
    {
      label Before:
      assert key[j] == old(key[j]);
      ShiftByte(key, j);
      forall p: nat | p < 8 * j + 8
        ensures BitOf(key, p) == (p != 8 * j + 7 && old(BitOf(key, p + 1)))
      {
        if p >= 8 * j {
          DoubledAt(old(key[j]), p % 8);
        } else if p >= 8 * j - 8 {
          SetBitAt(old@Before(key[j - 1]), 7, p % 8);
          assert BitOf(key, p) == (old@Before(BitOf(key, p)) || (p == 8 * j - 1 && old(BitOf(key, p + 1))));
        } else {
          assert BitOf(key, p) == old@Before(BitOf(key, p));
        }
      }
    }
  }

  /** One shift of both halves, the bit that comes round in the first half given. */
  method ShiftOnce(key: array<bv8>, bit: bool)
    requires key.Length == 7
    modifies key
    ensures Bits(key[..]) == ShiftedOnce(old(Bits(key[..])), bit)
  {
    hide BitOf, Bits, ShiftedOnce;
    ghost var was := Bits(key[..]);
    AllBits(key);
    ShiftBytes(key);
    if BitOf(key, 27) {
      Clear(key, 27);
      Set(key, 55);
    }
    if bit {
      Set(key, 27);
    }
    AllBits(key);
    forall p: nat | p < 56 ensures Bits(key[..])[p] == ShiftedOnce(was, bit)[p] {
      ShiftedOnceAt(was, bit, p);
    }
  }

  lemma AllBits(a: array<bv8>)
    ensures forall p: nat | p < 8 * a.Length :: Bits(a[..])[p] == BitOf(a, p)
  {
    hide GetBit;
  }

  /** The split shift of the key, which sets only its first byte aside. */
  method KeyShift(key: array<bv8>, numbits: nat)
    requires key.Length == 7
    modifies key
    ensures Bits(key[..]) == Shifted(old(Bits(key[..])), numbits)
  {
    hide GetBit, Doubled, ShiftedOnce;
    var keep := key[0];
    ghost var k := Bits(key[..]);
    for i := 0 to numbits
      invariant Bits(key[..]) == Shifted(k, i)
      invariant forall j: nat | j < 8 :: GetBit(keep, j) == (i + j < 8 && k[i + j])
    {
      EndBits(keep);
      ShiftOnce(key, keep & 0x80 != 0);
      forall j: nat | j < 8 ensures GetBit(Doubled(keep), j) == (j < 7 && GetBit(keep, j + 1)) {
        DoubledAt(keep, j);
      }
      keep := Doubled(keep);
    }
  }

  method Xor(dst: array<bv8>, a: array<bv8>, b: array<bv8>, count: nat)
    requires count <= dst.Length && count <= a.Length && count <= b.Length
    modifies dst
    ensures Bits(dst[..count]) == Xored(old(Bits(a[..count])), old(Bits(b[..count])))
    ensures dst[count..] == old(dst[count..])
  {
    hide GetBit;
    for i := 0 to count
      invariant forall j | 0 <= j < i :: dst[j] == old(a[j]) ^ old(b[j])
      invariant forall j | i <= j < dst.Length :: dst[j] == old(dst[j])
      invariant forall j | i <= j < a.Length :: a[j] == old(a[j])
      invariant forall j | i <= j < b.Length :: b[j] == old(b[j])
    {
      dst[i] := a[i] ^ b[i];
    }
    forall p: nat | p < 8 * count ensures BitOf(dst, p) == (old(BitOf(a, p)) != old(BitOf(b, p))) {
      XorAt(old(a[p / 8]), old(b[p / 8]), p % 8);
    }
    ghost var x, y := old(Bits(a[..count])), old(Bits(b[..count]));
    assert forall p: nat | p < 8 * count :: x[p] == old(BitOf(a, p)) && y[p] == old(BitOf(b, p));
    assert forall p: nat | p < 8 * count :: Bits(dst[..count])[p] == BitOf(dst, p);
  }

  /** The six bits of `src` from place `from` on as a number. */
  method Six(src: array<bv8>, from: nat) returns (n: nat)
    requires from + 6 <= 8 * src.Length
    ensures n == Number(Bits(src[..])[from..from + 6])
  {
    hide GetBit;
    ghost var b := Bits(src[..]);
    n := 0;
    for j := 0 to 6
      invariant n == Number(b[from..from + j])
    {
      n := 2 * n + if BitOf(src, from + j) then 1 else 0;
      assert b[from..from + j + 1][..j] == b[from..from + j];
    }
  }

  /** The first `i` entries are in their places. */
  ghost predicate FirstEntries(s: Boxes, dst: array<bv8>, b: Subkey, i: nat)
    requires dst.Length == 4
    reads dst
  {
    forall p: nat | p < 32 :: BitOf(dst, p) == (p < 4 * i && Substituted(s, b)[p])
  }

  method SubstituteOne(s: Boxes, dst: array<bv8>, src: array<bv8>, i: nat)
    requires dst != src && dst.Length == 4 && src.Length == 6 && i < 8
    requires FirstEntries(s, dst, Bits(src[..]), i)
    modifies dst
    ensures FirstEntries(s, dst, Bits(src[..]), i + 1)
  {
    hide GetBit, Substituted, Placed, Bits, Number;
    var n := Six(src, i * 6);
    ghost var was := dst[i / 2];
    ghost var b: Subkey := Bits(src[..]);
    dst[i / 2] := dst[i / 2] | Placed(s(i, n), i);
    forall p: nat | p < 32 ensures BitOf(dst, p) == (p < 4 * i + 4 && Substituted(s, b)[p]) {
      if p / 8 == i / 2 {
        NibbleAdded(s, b, was, i, p);
        assert old(BitOf(dst, p)) == GetBit(was, p % 8);
      } else {
        assert BitOf(dst, p) == old(BitOf(dst, p));
      }
    }
  }

  method Substitute(s: Boxes, dst: array<bv8>, src: array<bv8>)
    requires dst != src && dst.Length == 4 && src.Length == 6
    modifies dst
    ensures Bits(dst[..]) == Substituted(s, Bits(src[..]))
  {
    hide GetBit, Substituted;
    for i := 0 to 4
      invariant forall j | 0 <= j < i :: dst[j] == 0
    {
      dst[i] := 0;
    }
    forall p: nat | p < 32 ensures !BitOf(dst, p) {
      ZeroAt(p % 8);
    }
    for i := 0 to 8
      invariant FirstEntries(s, dst, Bits(src[..]), i)
    {
      SubstituteOne(s, dst, src, i);
    }
    assert forall p: nat | p < 32 :: Bits(dst[..])[p] == BitOf(dst, p);
  }

  /** The entry as it is or-ed into its byte: raised when its number is even. */
  function Placed(e: Nibble, i: nat): bv8 {
    var x: bv8 := e;
    if i % 2 == 0 then x << 4 else x
  }

  lemma PlacedAt(e: Nibble, i: nat, j: nat)
    requires j < 8
    ensures GetBit(Placed(e, i), j) == (j / 4 == i % 2 && GetBit(e, 4 + j % 4))
  {
    hide GetBit;
    if i % 2 == 0 {
      RaisedAt(e, j);
    } else if j < 4 {
      SmallAt(e, j);
    }
  }

  lemma NibbleOf(i: nat, p: nat)
    requires p / 8 == i / 2
    ensures p % 8 / 4 == i % 2 <==> p / 4 == i
    ensures p % 8 % 4 == p % 4
  {
  }

  lemma NibbleAdded(s: Boxes, b: Subkey, was: bv8, i: nat, p: nat)
    requires i < 8 && p < 32 && p / 8 == i / 2
    ensures GetBit(was | Placed(s(i, Number(b[i * 6..i * 6 + 6])), i), p % 8)
            == (GetBit(was, p % 8) || (p / 4 == i && Substituted(s, b)[p]))
  {
    hide GetBit, Placed, Number;
    var e := s(i, Number(b[i * 6..i * 6 + 6]));
    OrAt(was, Placed(e, i), p % 8);
    PlacedAt(e, i, p % 8);
    NibbleOf(i, p);
    if p / 4 == i {
      assert Substituted(s, b)[p] == GetBit(e, 4 + p % 4);
    }
  }

  /** The subkey of the next round from the key the last one left. */
  lemma NextKey(k: Key, i: nat)
    requires i < 16
    ensures |KeyRotation| == 2
    ensures Shifted(Rotated(Start(k), Turns(i)), Entry(KeyRotation, i)) == Rotated(Start(k), Turns(i + 1))
  {
    hide Shifted, Rotated, Start;
    RotationSmall(i);
    ShiftRotates(Rotated(Start(k), Turns(i)), Entry(KeyRotation, i));
    RotatedTwice(Start(k), Turns(i), Entry(KeyRotation, i));
  }

  lemma RotationSmall(i: nat)
    requires i < 16
    ensures Entry(KeyRotation, i) <= 2
  {
  }

  lemma BitsOfHalves(bytes: Byte8)
    ensures Bits(bytes[..4]) == Bits(bytes)[..32]
    ensures Bits(bytes[4..]) == Bits(bytes)[32..]
  {
    hide GetBit;
  }

  /** The new right half from the old block: the other half mixed in under the subkey. */
  method MixHalf(s: Boxes, subk: array<bv8>, d: array<bv8>) returns (rn: array<bv8>)
    requires subk.Length == 6 && d.Length == 8
    ensures fresh(rn) && rn.Length == 4
    ensures var b: Block := Bits(d[..]);
            Bits(rn[..]) == Xored(b[..32], Mix(s, b[32..], Bits(subk[..])))
  {
    hide GetBit, Substituted, Picked, Xored, Into, Bits, DataExpansion, PBox;
    ghost var b: Block := Bits(d[..]);
    BitsOfHalves(d[..]);
    var rexp := new bv8[6];
    rn := new bv8[4];
    DataExpansionInto();
    assert d[4..8] == d[..][4..] && d[..4] == d[..][..4];
    Permute(rexp, d, 4, 4, DataExpansion);
    assert rexp[..6] == rexp[..];
    Xor(rexp, rexp, subk, 6);
    assert rexp[..6] == rexp[..] && subk[..6] == subk[..];
    Substitute(s, rn, rexp);
    PBoxInto();
    assert rn[0..4] == rn[..];
    Permute(rexp, rn, 0, 4, PBox);
    Xor(rn, d, rexp, 4);
    assert rn[..4] == rn[..];
  }

  /** The left half becomes the old right one, and the right half the new one. */
  method Advance(d: array<bv8>, rn: array<bv8>)
    requires d.Length == 8 && rn.Length == 4 && d != rn
    modifies d
    ensures d[..] == old(d[4..]) + rn[..]
  {
    for j := 0 to 4
      invariant forall m | 0 <= m < 4 :: d[m] == if m < j then old(d[m + 4]) else old(d[m])
      invariant forall m | 0 <= m < 4 :: d[m + 4] == if m < j then rn[m] else old(d[m + 4])
    {
      d[j] := d[j + 4];
      d[j + 4] := rn[j];
    }
    forall m | 0 <= m < 8 ensures d[..][m] == (old(d[4..]) + rn[..])[m] {
      if m >= 4 {
        assert d[m - 4 + 4] == rn[m - 4];
      }
    }
  }

  lemma BitsOfSum(a: seq<bv8>, b: seq<bv8>)
    ensures Bits(a + b) == Bits(a) + Bits(b)
  {
    hide GetBit;
    forall p: nat | p < 8 * (|a| + |b|) ensures Bits(a + b)[p] == (Bits(a) + Bits(b))[p] {
      if p >= 8 * |a| {
        assert p / 8 - |a| == (p - 8 * |a|) / 8;
      }
    }
  }

  /** One round, on the key and on the block in place. */
  method HashRound(s: Boxes, k: array<bv8>, d: array<bv8>, ghost key: Key, i: nat)
    requires k.Length == 7 && d.Length == 8 && k != d && i < 16
    requires Bits(k[..]) == Rotated(Start(key), Turns(i))
    modifies k, d
    ensures Bits(k[..]) == Rotated(Start(key), Turns(i + 1))
    ensures Bits(d[..]) == Round(s, Subkeys(key)[i], old(Bits(d[..])))
  {
    hide Bits, Start, Rotated, Shifted, Turns, Mix, Xored, Picked, Entry, Into, KeyCompression, KeyRotation;
    ghost var b: Block := Bits(d[..]);
    var subk := new bv8[6];
    NextKey(key, i);
    KeyShift(k, Entry(KeyRotation, i));
    KeyCompressionInto();
    assert k[0..7] == k[..];
    Permute(subk, k, 0, 7, KeyCompression);
    assert subk[..6] == subk[..];
    assert Bits(subk[..]) == SubkeyAfter(Start(key), i + 1);
    var rn := MixHalf(s, subk, d);
    BitsOfHalves(d[..]);
    BitsOfSum(d[4..], rn[..]);
    assert d[..][4..] == d[4..];
    Advance(d, rn);
  }

  /** A key of eight bytes compressed to seven; the result may be written over the key. */
  method Key8to7(dst: array<bv8>, key: array<bv8>)
    requires dst.Length >= 7 && key.Length >= 8
    modifies dst
    ensures dst[..7] == Narrowed(old(key[..8])) && dst[7..] == old(dst[7..])
  {
    hide Bits, Picked, Into, Octets, Map8to7;
    var tmp := new bv8[7];
    assert key[0..8] == key[..8];
    Map8to7Into();
    Permute(tmp, key, 0, 8, Map8to7);
    OctetsOfBits(tmp[..7]);
    assert tmp[..7] == Narrowed(key[..8]) && tmp[..7] == tmp[..];
    for i := 0 to 7
      modifies dst
      invariant dst[..i] == tmp[..i] && dst[7..] == old(dst[7..])
    {
      dst[i] := tmp[i];
    }
  }

  lemma RotatedNone(k: Key)
    ensures Rotated(k, Turns(0)) == k
  {
  }

  /** The whole hash; the result may be written over the key or the data. */
  method HashInto(s: Boxes, dst: array<bv8>, key: array<bv8>, src: array<bv8>)
    requires dst.Length >= 8 && key.Length >= 7 && src.Length >= 8
    modifies dst
    ensures dst[..8] == Hash(s, old(key[..7]), old(src[..8]))
    ensures dst[8..] == old(dst[8..])
  {
    hide Bits, Rotated, Picked, Entry, Into, KeyPermuteMap, InitialPermuteMap, FinalPermuteMap;
    hide Round, Octets, Turned, Subkeys;
    ghost var whole: Key := Bits(key[..7]);
    ghost var ks := Subkeys(whole);
    ghost var b: Block := Bits(src[..8]);
    var k := new bv8[7];
    var d := new bv8[8];
    assert key[0..7] == key[..7] && src[0..8] == src[..8];
    KeyPermuteMapInto();
    Permute(k, key, 0, 7, KeyPermuteMap);
    InitialPermuteMapInto();
    Permute(d, src, 0, 8, InitialPermuteMap);
    assert k[..7] == k[..] && d[..8] == d[..];
    assert Bits(k[..]) == Start(whole);
    RotatedNone(Start(whole));
    assert Bits(d[..]) == Initial(b);
    for i := 0 to 16
      modifies k, d
      invariant Bits(k[..]) == Rotated(Start(whole), Turns(i))
      invariant Bits(d[..]) == Rounds(s, ks[..i], Initial(b))
    {
      HashRound(s, k, d, whole, i);
      assert ks[..i + 1][..i] == ks[..i];
    }
    FinalPermuteMapInto();
    assert ks[..16] == ks && d[0..8] == d[..];
    Permute(dst, d, 0, 8, FinalPermuteMap);
    OctetsOfBits(dst[..8]);
  }
}
