/** DES as in FIPS PUB 46-2, with the word-level permutations of the gnulib code. */
module Des {

  type Byte8 = k: seq<bv8> | |k| == 8 witness [0, 0, 0, 0, 0, 0, 0, 0]

  /** The two 32-bit words of a block. */
  datatype Halves = Halves(left: bv32, right: bv32)

  function Flip(h: Halves): Halves {
    Halves(h.right, h.left)
  }

  /** The eight substitution tables, by number and six-bit index; nothing below depends on their contents. */
  type Boxes = (nat, bv32) -> bv32

  // Bytes and words.

  function Word(a: bv8, b: bv8, c: bv8, d: bv8): bv32 {
    ((a as bv32) << 24) | ((b as bv32) << 16) | ((c as bv32) << 8) | (d as bv32)
  }

  function Read(data: Byte8): Halves {
    Halves(Word(data[0], data[1], data[2], data[3]), Word(data[4], data[5], data[6], data[7]))
  }

  function Octet(x: bv32): bv8 {
    (x & 0xff) as bv8
  }

  function Octets(x: bv32): (o: seq<bv8>)
    ensures |o| == 4
  {
    [Octet(x >> 24), Octet(x >> 16), Octet(x >> 8), Octet(x)]
  }

  function Write(h: Halves): Byte8 {
    Octets(h.left) + Octets(h.right)
  }

  lemma OctetsOf(a: bv8, b: bv8, c: bv8, d: bv8)
    ensures Octets(Word(a, b, c, d)) == [a, b, c, d]
  {
  }

  // The macro that swaps bits across two words `a` and `b`, for each offset and mask it is used with.

  function Swap4(a: bv32, b: bv32): Halves {
    var t := ((a >> 4) ^ b) & 0x0f0f0f0f;
    Halves(a ^ (t << 4), b ^ t)
  }

  function Swap16(a: bv32, b: bv32): Halves {
    var t := ((a >> 16) ^ b) & 0x0000ffff;
    Halves(a ^ (t << 16), b ^ t)
  }

  function Swap2(a: bv32, b: bv32): Halves {
    var t := ((a >> 2) ^ b) & 0x33333333;
    Halves(a ^ (t << 2), b ^ t)
  }

  function Swap8(a: bv32, b: bv32): Halves {
    var t := ((a >> 8) ^ b) & 0x00ff00ff;
    Halves(a ^ (t << 8), b ^ t)
  }

  function Swap0(a: bv32, b: bv32): Halves {
    var t := (a ^ b) & 0x10101010;
    Halves(a ^ t, b ^ t)
  }

  /** The end of the initial permutation, which also rotates both words by one bit. */
  function SpreadOut(left: bv32, right: bv32): Halves {
    var r := (right << 1) | (right >> 31);
    var t := (left ^ r) & 0xaaaaaaaa;
    var l := left ^ t;
    Halves((l << 1) | (l >> 31), r ^ t)
  }

  function SpreadIn(left: bv32, right: bv32): Halves {
    var l := (left << 31) | (left >> 1);
    var t := (l ^ right) & 0xaaaaaaaa;
    var r := right ^ t;
    Halves(l ^ t, (r << 31) | (r >> 1))
  }

  function InitialPermutation(h: Halves): Halves {
    var a := Swap4(h.left, h.right);
    var b := Swap16(a.left, a.right);
    var c := Swap2(b.right, b.left);
    var d := Swap8(c.left, c.right);
    SpreadOut(d.right, d.left)
  }

  function FinalPermutation(h: Halves): Halves {
    var a := SpreadIn(h.left, h.right);
    var b := Swap8(a.right, a.left);
    var c := Swap2(b.left, b.right);
    var d := Swap16(c.right, c.left);
    Swap4(d.left, d.right)
  }

  lemma Swap4Undoes(h: Halves)
    ensures var c := Swap4(h.left, h.right); Swap4(c.left, c.right) == h
  {
  }

  lemma Swap16Undoes(h: Halves)
    ensures var c := Swap16(h.left, h.right); Swap16(c.left, c.right) == h
  {
  }

  lemma Swap2Undoes(h: Halves)
    ensures var c := Swap2(h.left, h.right); Swap2(c.left, c.right) == h
  {
  }

  lemma Swap8Undoes(h: Halves)
    ensures var c := Swap8(h.left, h.right); Swap8(c.left, c.right) == h
  {
  }

  lemma SpreadInUndoes(h: Halves)
    ensures var c := SpreadOut(h.left, h.right); SpreadIn(c.left, c.right) == h
  {
  }

  lemma SpreadOutUndoes(h: Halves)
    ensures var c := SpreadIn(h.left, h.right); SpreadOut(c.left, c.right) == h
  {
  }

  /** Each permutation is the inverse of the other. */
  lemma PermutationsInverse(h: Halves)
    ensures FinalPermutation(InitialPermutation(h)) == h
    ensures InitialPermutation(FinalPermutation(h)) == h
  {
    hide Swap4, Swap16, Swap2, Swap8, SpreadOut, SpreadIn;
    var a := Swap4(h.left, h.right);
    var b := Swap16(a.left, a.right);
    var c := Swap2(b.right, b.left);
    var d := Swap8(c.left, c.right);
    Swap4Undoes(h);
    Swap16Undoes(a);
    Swap2Undoes(Flip(b));
    Swap8Undoes(c);
    SpreadInUndoes(Flip(d));
    var e := SpreadIn(h.left, h.right);
    var f := Swap8(e.right, e.left);
    var g := Swap2(f.left, f.right);
    var i := Swap16(g.right, g.left);
    SpreadOutUndoes(h);
    Swap8Undoes(Flip(e));
    Swap2Undoes(f);
    Swap16Undoes(Flip(g));
    Swap4Undoes(i);
  }

  lemma ReadWrite(h: Halves)
    ensures Read(Write(h)) == h
  {
  }

  lemma WriteRead(data: Byte8)
    ensures Write(Read(data)) == data
  {
    hide Word, Octets;
    OctetsOf(data[0], data[1], data[2], data[3]);
    OctetsOf(data[4], data[5], data[6], data[7]);
    assert data == data[..4] + data[4..];
  }

  // Rounds.

  /** The subkey words of one round. */
  datatype Subkey = Subkey(even: bv32, odd: bv32)

  // The four six-bit indices in a keyed word.

  function Index0(v: bv32): bv32 {
    v & 0x3f
  }

  function Index8(v: bv32): bv32 {
    (v >> 8) & 0x3f
  }

  function Index16(v: bv32): bv32 {
    (v >> 16) & 0x3f
  }

  function Index24(v: bv32): bv32 {
    (v >> 24) & 0x3f
  }

  function EvenBoxes(s: Boxes, v: bv32): bv32 {
    Xor(Xor(Xor(s(8, Index0(v)), s(6, Index8(v))), s(4, Index16(v))), s(2, Index24(v)))
  }

  function OddBoxes(s: Boxes, w: bv32): bv32 {
    Xor(Xor(Xor(s(7, Index0(w)), s(5, Index8(w))), s(3, Index16(w))), s(1, Index24(w)))
  }

  function Turn(x: bv32): bv32 {
    (x << 28) | (x >> 4)
  }

  function Xor(x: bv32, y: bv32): bv32 {
    x ^ y
  }

  /** What a round adds to the other word. */
  function Mix(s: Boxes, from: bv32, k: Subkey): bv32 {
    Xor(EvenBoxes(s, Xor(from, k.even)), OddBoxes(s, Xor(Turn(from), k.odd)))
  }

  /** A round of FIPS PUB 46-2, section "Enciphering": L' = R and R' = L xor f(R, K). */
  function Round(s: Boxes, k: Subkey, h: Halves): Halves {
    Halves(h.right, Xor(h.left, Mix(s, h.right, k)))
  }

  function Rounds(s: Boxes, ks: seq<Subkey>, h: Halves): Halves {
    if ks == [] then h else Rounds(s, ks[1..], Round(s, ks[0], h))
  }

  function Reversed(ks: seq<Subkey>): (r: seq<Subkey>)
    ensures |r| == |ks|
  {
    seq(|ks|, i requires 0 <= i < |ks| => ks[|ks| - 1 - i])
  }

  /** The whole cipher under one list of subkeys. */
  function Crypt(s: Boxes, ks: seq<Subkey>, data: Byte8): Byte8 {
    Write(FinalPermutation(Flip(Rounds(s, ks, InitialPermutation(Read(data))))))
  }

  /** A round on the flipped halves undoes it. */
  lemma RoundUndoes(s: Boxes, k: Subkey, h: Halves)
    ensures Round(s, k, Flip(Round(s, k, h))) == Flip(h)
  {
    hide Mix;
  }

  lemma {:induction false} RoundsOf(s: Boxes, a: seq<Subkey>, b: seq<Subkey>, h: Halves)
    ensures Rounds(s, a + b, h) == Rounds(s, b, Rounds(s, a, h))
  {
    hide Round;
    if a == [] {
      assert a + b == b;
    } else {
      assert (a + b)[1..] == a[1..] + b;
      RoundsOf(s, a[1..], b, Round(s, a[0], h));
    }
  }

  /** Running the rounds again on the flipped halves, subkeys reversed, undoes them. */
  lemma {:induction false} RoundsUndo(s: Boxes, ks: seq<Subkey>, h: Halves)
    ensures Rounds(s, Reversed(ks), Flip(Rounds(s, ks, h))) == Flip(h)
  {
    hide Round;
    if ks == [] {
    } else {
      assert Reversed(ks) == Reversed(ks[1..]) + [ks[0]];
      RoundsUndo(s, ks[1..], Round(s, ks[0], h));
      RoundsOf(s, Reversed(ks[1..]), [ks[0]], Flip(Rounds(s, ks, h)));
      assert [ks[0]][1..] == [];
      RoundUndoes(s, ks[0], h);
    }
  }

  /** Decryption is encryption with the subkeys reversed. */
  lemma CryptUndoes(s: Boxes, ks: seq<Subkey>, data: Byte8)
    ensures Crypt(s, Reversed(ks), Crypt(s, ks, data)) == data
  {
    hide Write, Read, InitialPermutation, FinalPermutation, Rounds;
    var h := InitialPermutation(Read(data));
    var g := Flip(Rounds(s, ks, h));
    ReadWrite(FinalPermutation(g));
    PermutationsInverse(g);
    RoundsUndo(s, ks, h);
    PermutationsInverse(Read(data));
    WriteRead(data);
  }

  lemma ReversedTwice(ks: seq<Subkey>)
    ensures Reversed(Reversed(ks)) == ks
  {
  }
}
