/** The DES key schedule, and what it says about parity bits, weak keys and complements. */
module DesKeys {
  import opened Des

  function LeftKeySwap(x: bv32): bv32 {
    if x == 0 then 0x00000000 else if x == 1 then 0x00000001
    else if x == 2 then 0x00000100 else if x == 3 then 0x00000101
    else if x == 4 then 0x00010000 else if x == 5 then 0x00010001
    else if x == 6 then 0x00010100 else if x == 7 then 0x00010101
    else if x == 8 then 0x01000000 else if x == 9 then 0x01000001
    else if x == 10 then 0x01000100 else if x == 11 then 0x01000101
    else if x == 12 then 0x01010000 else if x == 13 then 0x01010001
    else if x == 14 then 0x01010100 else 0x01010101
  }

  function RightKeySwap(x: bv32): bv32 {
    if x == 0 then 0x00000000 else if x == 1 then 0x01000000
    else if x == 2 then 0x00010000 else if x == 3 then 0x01010000
    else if x == 4 then 0x00000100 else if x == 5 then 0x01000100
    else if x == 6 then 0x00010100 else if x == 7 then 0x01010100
    else if x == 8 then 0x00000001 else if x == 9 then 0x01000001
    else if x == 10 then 0x00010001 else if x == 11 then 0x01010001
    else if x == 12 then 0x00000101 else if x == 13 then 0x01000101
    else if x == 14 then 0x00010101 else 0x01010101
  }

  /** The two 28-bit halves of the permuted key. */
  function KeyHalves(h: Halves): Halves {
    var a := Swap4(h.right, h.left);
    var b := Swap0(a.left, a.right);
    Halves(LeftHalf(b.right), RightHalf(b.left))
  }

  /** Eight table entries, each giving one bit to each byte, as a 28-bit half. */
  function Gather(a: bv32, b: bv32, c: bv32, d: bv32, e: bv32, f: bv32, g: bv32, h: bv32): bv32 {
    ((a << 3) | (b << 2) | (c << 1) | d | (e << 7) | (f << 6) | (g << 5) | (h << 4)) & 0x0fffffff
  }

  function LeftHalf(x: bv32): bv32 {
    Gather(LeftKeySwap(x & 0xf), LeftKeySwap((x >> 8) & 0xf),
           LeftKeySwap((x >> 16) & 0xf), LeftKeySwap((x >> 24) & 0xf),
           LeftKeySwap((x >> 5) & 0xf), LeftKeySwap((x >> 13) & 0xf),
           LeftKeySwap((x >> 21) & 0xf), LeftKeySwap((x >> 29) & 0xf))
  }

  function RightHalf(x: bv32): bv32 {
    Gather(RightKeySwap((x >> 1) & 0xf), RightKeySwap((x >> 9) & 0xf),
           RightKeySwap((x >> 17) & 0xf), RightKeySwap((x >> 25) & 0xf),
           RightKeySwap((x >> 4) & 0xf), RightKeySwap((x >> 12) & 0xf),
           RightKeySwap((x >> 20) & 0xf), RightKeySwap((x >> 28) & 0xf))
  }

  const ROTATE_TAB: seq<nat> := [1, 1, 2, 2, 2, 2, 2, 2, 1, 2, 2, 2, 2, 2, 2, 1]

  /** A 28-bit rotation by the amount the table gives. */
  function RotateBy(n: nat, x: bv32): bv32 {
    if n == 1 then ((x << 1) | (x >> 27)) & 0x0fffffff else ((x << 2) | (x >> 26)) & 0x0fffffff
  }

  function Rotate(n: nat, h: Halves): Halves {
    Halves(RotateBy(n, h.left), RotateBy(n, h.right))
  }

  /** Permuted choice 2: the first subkey word of a round. */
  function ChooseEven(h: Halves): bv32 {
    var left, right := h.left, h.right;
    ((left << 4) & 0x24000000) | ((left << 28) & 0x10000000) | ((left << 14) & 0x08000000)
      | ((left << 18) & 0x02080000) | ((left << 6) & 0x01000000) | ((left << 9) & 0x00200000)
      | ((left >> 1) & 0x00100000) | ((left << 10) & 0x00040000) | ((left << 2) & 0x00020000)
      | ((left >> 10) & 0x00010000) | ((right >> 13) & 0x00002000) | ((right >> 4) & 0x00001000)
      | ((right << 6) & 0x00000800) | ((right >> 1) & 0x00000400) | ((right >> 14) & 0x00000200)
      | (right & 0x00000100) | ((right >> 5) & 0x00000020) | ((right >> 10) & 0x00000010)
      | ((right >> 3) & 0x00000008) | ((right >> 18) & 0x00000004) | ((right >> 26) & 0x00000002)
      | ((right >> 24) & 0x00000001)
  }

  function ChooseOdd(h: Halves): bv32 {
    var left, right := h.left, h.right;
    ((left << 15) & 0x20000000) | ((left << 17) & 0x10000000) | ((left << 10) & 0x08000000)
      | ((left << 22) & 0x04000000) | ((left >> 2) & 0x02000000) | ((left << 1) & 0x01000000)
      | ((left << 16) & 0x00200000) | ((left << 11) & 0x00100000) | ((left << 3) & 0x00080000)
      | ((left >> 6) & 0x00040000) | ((left << 15) & 0x00020000) | ((left >> 4) & 0x00010000)
      | ((right >> 2) & 0x00002000) | ((right << 8) & 0x00001000) | ((right >> 14) & 0x00000808)
      | ((right >> 9) & 0x00000400) | (right & 0x00000200) | ((right << 7) & 0x00000100)
      | ((right >> 7) & 0x00000020) | ((right >> 3) & 0x00000011) | ((right << 2) & 0x00000004)
      | ((right >> 21) & 0x00000002)
  }

  function Choose(h: Halves): Subkey {
    Subkey(ChooseEven(h), ChooseOdd(h))
  }

  /** The subkeys from round `round` on, the halves being `h` before its rotation. */
  function SubkeysFrom(h: Halves, round: nat): (ks: seq<Subkey>)
    requires round <= 16
    ensures |ks| == 16 - round
    decreases 16 - round
  {
    if round == 16 then []
    else
      var g := Rotate(ROTATE_TAB[round], h);
      [Choose(g)] + SubkeysFrom(g, round + 1)
  }

  function Schedule(key: Byte8): (ks: seq<Subkey>)
    ensures |ks| == 16
  {
    SubkeysFrom(KeyHalves(Read(key)), 0)
  }

  /** The halves after `r` rotations. */
  function Turned(h: Halves, r: nat): Halves
    requires r <= 16
  {
    if r == 0 then h else Rotate(ROTATE_TAB[r - 1], Turned(h, r - 1))
  }

  lemma {:induction false} SubkeyAt(h: Halves, r: nat, i: nat)
    requires r + i < 16
    ensures SubkeysFrom(Turned(h, r), r)[i] == Choose(Turned(h, r + i + 1))
    decreases i
  {
    hide Rotate, Choose;
    assert Turned(h, r + 1) == Rotate(ROTATE_TAB[r], Turned(h, r));
    if i > 0 {
      SubkeyAt(h, r + 1, i - 1);
    }
  }

  // Halves of 28 bits.

  predicate Is28(h: Halves) {
    h.left <= 0x0fffffff && h.right <= 0x0fffffff
  }

  lemma KeyHalvesBound(h: Halves)
    ensures Is28(KeyHalves(h))
  {
    hide Swap4, Swap0, LeftKeySwap, RightKeySwap;
  }

  lemma RotateOneTwice(x: bv32)
    requires x <= 0x0fffffff
    ensures RotateBy(1, RotateBy(1, x)) == RotateBy(2, x) && RotateBy(1, x) <= 0x0fffffff
    ensures RotateBy(2, RotateBy(1, x)) == RotateBy(1, RotateBy(2, x))
  {
  }

  lemma TableTurns(r: nat)
    requires r < 16
    ensures |ROTATE_TAB| == 16 && (ROTATE_TAB[r] == 1 || ROTATE_TAB[r] == 2)
  {
  }

  // The tables spread four bits over four bytes.

  function SpreadLeft(x: bv32): bv32 {
    (x & 1) | ((x & 2) << 7) | ((x & 4) << 14) | ((x & 8) << 21)
  }

  function SpreadRight(x: bv32): bv32 {
    ((x & 1) << 24) | ((x & 2) << 15) | ((x & 4) << 6) | ((x & 8) >> 3)
  }

  lemma SwapSpreads(x: bv32)
    requires x <= 0xf
    ensures LeftKeySwap(x) == SpreadLeft(x) && RightKeySwap(x) == SpreadRight(x)
  {
  }

  function LeftBits(x: bv32): bv32 {
    Gather(SpreadLeft(x & 0xf), SpreadLeft((x >> 8) & 0xf),
           SpreadLeft((x >> 16) & 0xf), SpreadLeft((x >> 24) & 0xf),
           SpreadLeft((x >> 5) & 0xf), SpreadLeft((x >> 13) & 0xf),
           SpreadLeft((x >> 21) & 0xf), SpreadLeft((x >> 29) & 0xf))
  }

  function RightBits(x: bv32): bv32 {
    Gather(SpreadRight((x >> 1) & 0xf), SpreadRight((x >> 9) & 0xf),
           SpreadRight((x >> 17) & 0xf), SpreadRight((x >> 25) & 0xf),
           SpreadRight((x >> 4) & 0xf), SpreadRight((x >> 12) & 0xf),
           SpreadRight((x >> 20) & 0xf), SpreadRight((x >> 28) & 0xf))
  }

  lemma NibbleSpreads(x: bv32)
    ensures LeftKeySwap(x & 0xf) == SpreadLeft(x & 0xf) && RightKeySwap(x & 0xf) == SpreadRight(x & 0xf)
  {
    assert (x & 0xf) <= 0xf;
    SwapSpreads(x & 0xf);
  }

  lemma LeftHalfIs(x: bv32)
    ensures LeftHalf(x) == LeftBits(x)
  {
    hide LeftKeySwap, RightKeySwap, SpreadLeft, SpreadRight, Gather;
    NibbleSpreads(x);
    NibbleSpreads(x >> 8);
    NibbleSpreads(x >> 16);
    NibbleSpreads(x >> 24);
    NibbleSpreads(x >> 5);
    NibbleSpreads(x >> 13);
    NibbleSpreads(x >> 21);
    NibbleSpreads(x >> 29);
  }

  lemma RightHalfIs(x: bv32)
    ensures RightHalf(x) == RightBits(x)
  {
    hide LeftKeySwap, RightKeySwap, SpreadLeft, SpreadRight, Gather;
    NibbleSpreads(x >> 1);
    NibbleSpreads(x >> 9);
    NibbleSpreads(x >> 17);
    NibbleSpreads(x >> 25);
    NibbleSpreads(x >> 4);
    NibbleSpreads(x >> 12);
    NibbleSpreads(x >> 20);
    NibbleSpreads(x >> 28);
  }

  // Parity bits.

  function ClearParity(key: Byte8): Byte8 {
    seq(8, i requires 0 <= i < 8 => key[i] & 0xfe)
  }

  function ClearWord(x: bv32): bv32 {
    x & 0xfefefefe
  }

  lemma ClearsWord(a: bv8, b: bv8, c: bv8, d: bv8)
    ensures Word(a & 0xfe, b & 0xfe, c & 0xfe, d & 0xfe) == ClearWord(Word(a, b, c, d))
  {
  }

  lemma LeftUses(x: bv32, y: bv32)
    requires x & 0xefefefef == y & 0xefefefef
    ensures LeftBits(x) == LeftBits(y)
  {
  }

  lemma LeftIgnoresParity(a: bv32, b: bv32)
    ensures var c := Swap4(b, a); var d := Swap0(c.left, c.right);
            var c' := Swap4(ClearWord(b), ClearWord(a)); var d' := Swap0(c'.left, c'.right);
            d.right & 0xefefefef == d'.right & 0xefefefef
  {
  }

  lemma RightIgnoresParity(a: bv32, b: bv32)
    ensures var c := Swap4(b, a); var d := Swap0(c.left, c.right);
            var c' := Swap4(ClearWord(b), ClearWord(a)); var d' := Swap0(c'.left, c'.right);
            RightBits(d.left) == RightBits(d'.left)
  {
  }

  lemma KeyIgnoresParity(h: Halves)
    ensures KeyHalves(Halves(ClearWord(h.left), ClearWord(h.right))) == KeyHalves(h)
  {
    hide Swap4, Swap0, ClearWord, LeftHalf, RightHalf, LeftBits, RightBits;
    LeftIgnoresParity(h.left, h.right);
    RightIgnoresParity(h.left, h.right);
    var c := Swap4(h.right, h.left);
    var d := Swap0(c.left, c.right);
    var c' := Swap4(ClearWord(h.right), ClearWord(h.left));
    var d' := Swap0(c'.left, c'.right);
    LeftUses(d.right, d'.right);
    LeftHalfIs(d.right);
    LeftHalfIs(d'.right);
    RightHalfIs(d.left);
    RightHalfIs(d'.left);
  }

  /** The lowest bit of each key byte has no effect. */
  lemma ParityIgnored(key: Byte8)
    ensures Schedule(ClearParity(key)) == Schedule(key)
  {
    hide Word, ClearWord, KeyHalves;
    ClearsWord(key[0], key[1], key[2], key[3]);
    ClearsWord(key[4], key[5], key[6], key[7]);
    KeyIgnoresParity(Read(key));
  }
}
