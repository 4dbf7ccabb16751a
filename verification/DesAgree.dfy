/** The two DES programs and Triple-DES against the standard. */
module DesAgree {
  import opened ByteBits
  import S = DesStandard
  import opened Des
  import opened DesKeys
  import opened DesBits
  import opened DesContext
  import opened DesWordStandard
  import H = DesHash
  import HS = DesHashStandard

  /** The gnulib cipher and the hash of the SMB code agree on every key of eight bytes and every block. */
  lemma SameCipher(s: Boxes, t: S.Boxes, key: Byte8, data: Byte8)
    requires Corresponds(s, t)
    ensures Crypt(s, Schedule(key), data) == H.Hash(t, H.Narrowed(key), data)
  {
    hide Crypt, Schedule, H.Hash, H.Narrowed, Corresponds, Bits, HS.Drops, S.Enciphered;
    DesIsStandard(s, t, key, data);
    HS.NarrowedDrops(key);
    HS.HashIsStandard(t, H.Narrowed(key), key, data);
    SameBits(Crypt(s, Schedule(key), data), H.Hash(t, H.Narrowed(key), data));
  }

  lemma SameBits(a: Byte8, b: Byte8)
    requires Bits(a) == Bits(b)
    ensures a == b
  {
    hide Bits, ByteBits.Octets;
    OctetsOfBits(a);
    OctetsOfBits(b);
  }

  /** Decryption undoes the hash. */
  lemma DecryptsHash(s: Boxes, t: S.Boxes, key: Byte8, data: Byte8)
    requires Corresponds(s, t)
    ensures Crypt(s, Reversed(Schedule(key)), H.Hash(t, H.Narrowed(key), data)) == data
  {
    hide Crypt, Schedule, H.Hash, H.Narrowed, Corresponds, Reversed;
    SameCipher(s, t, key, data);
    CryptUndoes(s, Schedule(key), data);
  }

  /** Triple-DES enciphers, deciphers and enciphers as the standard does, and the other way round. */
  lemma TripleIsStandard(s: Boxes, t: S.Boxes, k1: Byte8, k2: Byte8, k3: Byte8, data: Byte8)
    requires Corresponds(s, t)
    ensures Bits(TripleCrypt(s, Encrypting(k1, k2, k3), data))
         == S.Enciphered(t, Bits(k3), S.Deciphered(t, Bits(k2), S.Enciphered(t, Bits(k1), Bits(data))))
    ensures Bits(TripleCrypt(s, Decrypting(k1, k2, k3), data))
         == S.Deciphered(t, Bits(k1), S.Enciphered(t, Bits(k2), S.Deciphered(t, Bits(k3), Bits(data))))
  {
    hide TripleCrypt, Crypt, Schedule, Reversed, Encrypting, Decrypting, Corresponds, Bits, S.Enciphered, S.Deciphered;
    TripleIs(s, k1, k2, k3, data);
    var a := Crypt(s, Schedule(k1), data);
    DesIsStandard(s, t, k1, data);
    DesIsStandard(s, t, k2, a);
    DesIsStandard(s, t, k3, Crypt(s, Reversed(Schedule(k2)), a));
    var b := Crypt(s, Reversed(Schedule(k3)), data);
    DesIsStandard(s, t, k3, data);
    DesIsStandard(s, t, k2, b);
    DesIsStandard(s, t, k1, Crypt(s, Schedule(k2), b));
  }

  // Every table of the standard has its words.

  /** The word with the given bits. */
  function Packed(b: seq<bool>): bv32
    requires |b| == 32
  {
    Word(ByteBits.Octet(b[..8]), ByteBits.Octet(b[8..16]), ByteBits.Octet(b[16..24]), ByteBits.Octet(b[24..]))
  }

  lemma PackedAt(b: seq<bool>)
    requires |b| == 32
    ensures forall i: nat | i < 32 :: Bit(Packed(b), i) == b[i]
  {
    hide Bit, GetBit, ByteBits.Octet, Word;
    var bytes := [ByteBits.Octet(b[..8]), ByteBits.Octet(b[8..16]), ByteBits.Octet(b[16..24]), ByteBits.Octet(b[24..])];
    WordIs(bytes);
    forall i: nat | i < 32 ensures Bit(Packed(b), i) == b[i] {
      var part := if i < 8 then b[..8] else if i < 16 then b[8..16] else if i < 24 then b[16..24] else b[24..];
      OctetAt(part, i % 8);
      assert bytes[i / 8] == ByteBits.Octet(part) && part[i % 8] == b[i];
    }
  }

  /** The six low bits of a word. */
  function LowSix(v: bv32): (b: seq<bool>)
    ensures |b| == 6
  {
    [v & 0x20 != 0, v & 0x10 != 0, v & 0x08 != 0, v & 0x04 != 0, v & 0x02 != 0, v & 0x01 != 0]
  }

  lemma LowSixOf(b: seq<bool>)
    requires |b| == 6
    ensures LowSix(SixWord(b)) == b
  {
  }

  /** An entry of table `g`, permuted and rotated. */
  function WordFor(e: Nibble, g: nat): bv32 {
    Packed(seq(32, p requires 0 <= p < 32 =>
      var i := S.MixedFrom((p + 1) % 32); i / 4 == g && GetBit(e, 4 + i % 4)))
  }

  lemma WordMixes(e: Nibble, g: nat)
    ensures Mixes(WordFor(e, g), e, g)
  {
    hide Bit, GetBit, Packed, S.MixedFrom;
    var b := seq(32, p requires 0 <= p < 32 =>
      var i := S.MixedFrom((p + 1) % 32); i / 4 == g && GetBit(e, 4 + i % 4));
    PackedAt(b);
    forall i: nat | i < 32
      ensures Stored(WordFor(e, g), i) == (S.MixedFrom(i) / 4 == g && GetBit(e, 4 + S.MixedFrom(i) % 4))
    {
      assert ((i + 31) % 32 + 1) % 32 == i;
    }
  }

  /** For any tables of the standard there are tables of the gnulib program that correspond to them. */
  lemma SomeCorrespond(t: S.Boxes) returns (s: Boxes)
    ensures Corresponds(s, t)
  {
    hide Mixes, WordFor, SixWord, LowSix, Number;
    s := (n: nat, v: bv32) => if n == 0 then 0 else WordFor(t(n - 1, Number(LowSix(v))), n - 1);
    forall g: nat, six: seq<bool> | g < 8 && |six| == 6
      ensures Mixes(s(g + 1, SixWord(six)), t(g, Number(six)), g)
    {
      LowSixOf(six);
      WordMixes(t(g, Number(six)), g);
    }
  }
}
