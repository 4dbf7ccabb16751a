/** The bits of byte strings, counted from the highest bit of the first byte. */
module ByteBits {

  // One byte.

  function Mask(i: nat): bv8
    requires i < 8
  {
    1 << (7 - i)
  }

  predicate GetBit(x: bv8, i: nat)
    requires i < 8
  {
    (x >> (7 - i)) & 0x01 == 1
  }

  function SetBit(x: bv8, i: nat): bv8
    requires i < 8
  {
    x | Mask(i)
  }

  function ClearBit(x: bv8, i: nat): bv8
    requires i < 8
  {
    x & !Mask(i)
  }

  function Doubled(x: bv8): bv8 {
    x << 1
  }

  /** `GetBit` with the shift spelt out for each position. */
  predicate Plain(x: bv8, i: nat)
    requires i < 8
  {
    if i == 0 then x & 0x80 != 0
    else if i == 1 then x & 0x40 != 0
    else if i == 2 then x & 0x20 != 0
    else if i == 3 then x & 0x10 != 0
    else if i == 4 then x & 0x08 != 0
    else if i == 5 then x & 0x04 != 0
    else if i == 6 then x & 0x02 != 0
    else x & 0x01 != 0
  }

  lemma GetBitIs(x: bv8, i: nat)
    requires i < 8
    ensures GetBit(x, i) == Plain(x, i)
  {
  }

  lemma MaskIs(i: nat)
    requires i < 8
    ensures Mask(i) ==
            if i == 0 then 0x80 else if i == 1 then 0x40 else if i == 2 then 0x20 else if i == 3 then 0x10
            else if i == 4 then 0x08 else if i == 5 then 0x04 else if i == 6 then 0x02 else 0x01
  {
  }

  lemma SetBitAt(x: bv8, i: nat, j: nat)
    requires i < 8 && j < 8
    ensures GetBit(SetBit(x, i), j) == (i == j || GetBit(x, j))
  {
    hide GetBit, Mask;
    MaskIs(i);
    GetBitIs(x, j);
    GetBitIs(SetBit(x, i), j);
  }

  lemma ClearBitAt(x: bv8, i: nat, j: nat)
    requires i < 8 && j < 8
    ensures GetBit(ClearBit(x, i), j) == (i != j && GetBit(x, j))
  {
    hide GetBit, Mask;
    MaskIs(i);
    GetBitIs(x, j);
    GetBitIs(ClearBit(x, i), j);
  }

  lemma DoubledAt(x: bv8, j: nat)
    requires j < 8
    ensures GetBit(Doubled(x), j) == (j < 7 && GetBit(x, j + 1))
  {
    hide GetBit;
    GetBitIs(Doubled(x), j);
    if j < 7 {
      GetBitIs(x, j + 1);
    }
  }

  lemma XorMasked(x: bv8, y: bv8, m: bv8)
    requires m == 0x80 || m == 0x40 || m == 0x20 || m == 0x10 || m == 0x08 || m == 0x04 || m == 0x02 || m == 0x01
    ensures ((x ^ y) & m != 0) == ((x & m != 0) != (y & m != 0))
  {
  }

  lemma XorAt(x: bv8, y: bv8, j: nat)
    requires j < 8
    ensures GetBit(x ^ y, j) == (GetBit(x, j) != GetBit(y, j))
  {
    hide GetBit, Mask;
    GetBitIs(x, j);
    GetBitIs(y, j);
    GetBitIs(x ^ y, j);
    MaskIs(j);
    XorMasked(x, y, Mask(j));
  }

  lemma OrMasked(x: bv8, y: bv8, m: bv8)
    requires m == 0x80 || m == 0x40 || m == 0x20 || m == 0x10 || m == 0x08 || m == 0x04 || m == 0x02 || m == 0x01
    ensures ((x | y) & m != 0) == ((x & m != 0) || (y & m != 0))
  {
  }

  lemma OrAt(x: bv8, y: bv8, j: nat)
    requires j < 8
    ensures GetBit(x | y, j) == (GetBit(x, j) || GetBit(y, j))
  {
    hide GetBit, Mask;
    GetBitIs(x, j);
    GetBitIs(y, j);
    GetBitIs(x | y, j);
    MaskIs(j);
    OrMasked(x, y, Mask(j));
  }

  lemma ZeroAt(j: nat)
    requires j < 8
    ensures !GetBit(0, j)
  {
    GetBitIs(0, j);
  }

  lemma RaisedAt(x: bv8, j: nat)
    requires j < 8
    ensures GetBit(x << 4, j) == (j < 4 && GetBit(x, j + 4))
  {
    hide GetBit;
    GetBitIs(x << 4, j);
    if j < 4 {
      GetBitIs(x, j + 4);
    }
  }

  lemma SmallAt(x: bv8, j: nat)
    requires x < 16 && j < 4
    ensures !GetBit(x, j)
  {
    hide GetBit;
    GetBitIs(x, j);
  }

  lemma EndBits(x: bv8)
    ensures x | 0x01 == SetBit(x, 7)
    ensures x & 0x80 != 0 <==> GetBit(x, 0)
  {
    hide GetBit, Mask;
    MaskIs(7);
    GetBitIs(x, 0);
  }

  /** The byte with the given bits. */
  function Octet(b: seq<bool>): bv8
    requires |b| == 8
  {
    (if b[0] then 0x80 else 0) | (if b[1] then 0x40 else 0) | (if b[2] then 0x20 else 0) | (if b[3] then 0x10 else 0)
    | (if b[4] then 0x08 else 0) | (if b[5] then 0x04 else 0) | (if b[6] then 0x02 else 0) | (if b[7] then 0x01 else 0)
  }

  lemma OctetAt(b: seq<bool>, j: nat)
    requires |b| == 8 && j < 8
    ensures GetBit(Octet(b), j) == b[j]
  {
    hide GetBit;
    GetBitIs(Octet(b), j);
  }

  lemma SameBitsSameByte(x: bv8, y: bv8)
    requires forall j | 0 <= j < 8 :: GetBit(x, j) == GetBit(y, j)
    ensures x == y
  {
    hide GetBit;
    forall j: nat | j < 8 ensures Plain(x, j) == Plain(y, j) {
      GetBitIs(x, j);
      GetBitIs(y, j);
    }
    assert Plain(x, 0) == Plain(y, 0) && Plain(x, 1) == Plain(y, 1) && Plain(x, 2) == Plain(y, 2);
    assert Plain(x, 3) == Plain(y, 3) && Plain(x, 4) == Plain(y, 4) && Plain(x, 5) == Plain(y, 5);
    assert Plain(x, 6) == Plain(y, 6) && Plain(x, 7) == Plain(y, 7);
  }

  // Strings of bytes.

  function Bits(bytes: seq<bv8>): (r: seq<bool>)
    ensures |r| == 8 * |bytes|
  {
    seq(8 * |bytes|, p requires 0 <= p < 8 * |bytes| => GetBit(bytes[p / 8], p % 8))
  }

  function Octets(b: seq<bool>): (r: seq<bv8>)
    requires |b| % 8 == 0
    ensures |r| == |b| / 8
  {
    seq(|b| / 8, k requires 0 <= k < |b| / 8 => Octet(b[8 * k..8 * k + 8]))
  }

  lemma BitsOfOctets(b: seq<bool>)
    requires |b| % 8 == 0
    ensures Bits(Octets(b)) == b
  {
    hide GetBit, Octet;
    forall p | 0 <= p < |b| ensures Bits(Octets(b))[p] == b[p] {
      var k := p / 8;
      OctetAt(b[8 * k..8 * k + 8], p % 8);
    }
  }

  lemma OctetsOfBits(bytes: seq<bv8>)
    ensures Octets(Bits(bytes)) == bytes
  {
    hide GetBit, Octet;
    forall k | 0 <= k < |bytes| ensures Octets(Bits(bytes))[k] == bytes[k] {
      var b := Bits(bytes)[8 * k..8 * k + 8];
      forall j | 0 <= j < 8 ensures GetBit(Octet(b), j) == GetBit(bytes[k], j) {
        OctetAt(b, j);
        assert (8 * k + j) / 8 == k && (8 * k + j) % 8 == j;
      }
      SameBitsSameByte(Octet(b), bytes[k]);
    }
  }

  // Numbers.

  type Nibble = x: bv8 | x < 16

  /** The number a string of bits spells, highest bit first. */
  function Number(b: seq<bool>): nat {
    if b == [] then 0 else 2 * Number(b[..|b| - 1]) + if b[|b| - 1] then 1 else 0
  }
}
