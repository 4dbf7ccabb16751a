/** The DES of gnulib, on words, is that of the standard. */
module DesWordStandard {
  import opened ByteBits
  import S = DesStandard
  import opened Des
  import opened DesKeys
  import opened DesBits

  // Blocks.

  lemma BytesMean(w: bv32, data: seq<bv8>, i: nat)
    requires |data| == 4 && Byte0(w, data[0]) && Byte1(w, data[1]) && Byte2(w, data[2]) && Byte3(w, data[3]) && i < 32
    ensures Bit(w, i) == GetBit(data[i / 8], i % 8)
  {
    hide Bit, GetBit;
  }

  lemma WordIs(data: seq<bv8>)
    requires |data| == 4
    ensures forall i: nat | i < 32 :: Bit(Word(data[0], data[1], data[2], data[3]), i) == GetBit(data[i / 8], i % 8)
  {
    hide *;
    var w := Word(data[0], data[1], data[2], data[3]);
    WordByte0(data[0], data[1], data[2], data[3]);
    WordByte1(data[0], data[1], data[2], data[3]);
    WordByte2(data[0], data[1], data[2], data[3]);
    WordByte3(data[0], data[1], data[2], data[3]);
    forall i: nat | i < 32 ensures Bit(w, i) == GetBit(data[i / 8], i % 8) {
      BytesMean(w, data, i);
    }
  }

  lemma ReadIs(data: Byte8)
    ensures forall i: nat | i < 64 :: At(Read(data), i) == Bits(data)[i]
  {
    hide Bit, GetBit, Word;
    WordIs(data[..4]);
    WordIs(data[4..]);
  }

  lemma LeftUpper(w: bv32, h: Halves, i: nat)
    requires LeftRow0(w, h) && LeftRow1(w, h) && i < 16
    ensures Stored(w, i) == At(h, S.InitialFrom(i))
  {
    hide Bit;
  }

  lemma LeftLower(w: bv32, h: Halves, i: nat)
    requires LeftRow2(w, h) && LeftRow3(w, h) && 16 <= i < 32
    ensures Stored(w, i) == At(h, S.InitialFrom(i))
  {
    hide Bit;
  }

  lemma RightUpper(w: bv32, h: Halves, i: nat)
    requires RightRow0(w, h) && RightRow1(w, h) && i < 16
    ensures Stored(w, i) == At(h, S.InitialFrom(i + 32))
  {
    hide Bit;
  }

  lemma RightLower(w: bv32, h: Halves, i: nat)
    requires RightRow2(w, h) && RightRow3(w, h) && 16 <= i < 32
    ensures Stored(w, i) == At(h, S.InitialFrom(i + 32))
  {
    hide Bit;
  }

  lemma InitialIs(h: Halves)
    ensures forall i: nat | i < 32 :: Stored(InitialPermutation(h).left, i) == At(h, S.InitialFrom(i))
    ensures forall i: nat | i < 32 :: Stored(InitialPermutation(h).right, i) == At(h, S.InitialFrom(i + 32))
  {
    hide *;
    InitialLeft0(h);
    InitialLeft1(h);
    InitialLeft2(h);
    InitialLeft3(h);
    InitialRight0(h);
    InitialRight1(h);
    InitialRight2(h);
    InitialRight3(h);
    var l, r := InitialPermutation(h).left, InitialPermutation(h).right;
    forall i: nat | i < 32
      ensures Stored(l, i) == At(h, S.InitialFrom(i)) && Stored(r, i) == At(h, S.InitialFrom(i + 32))
    {
      if i < 16 {
        LeftUpper(l, h, i);
        RightUpper(r, h, i);
      } else {
        LeftLower(l, h, i);
        RightLower(r, h, i);
      }
    }
  }

  // The key.

  lemma KeyLeftMeans(w: bv32, h: Halves, i: nat)
    requires KeyLeftRow0(w, h) && KeyLeftRow1(w, h) && KeyLeftRow2(w, h) && KeyLeftRow3(w, h) && i < 28
    ensures Bit(w, i + 4) == At(h, S.KeyFrom(i))
  {
    hide Bit;
  }

  lemma KeyRightMeans(w: bv32, h: Halves, i: nat)
    requires KeyRightRow0(w, h) && KeyRightRow1(w, h) && KeyRightRow2(w, h) && KeyRightRow3(w, h) && i < 28
    ensures Bit(w, i + 4) == At(h, S.KeyFrom(i + 28))
  {
    hide Bit;
  }

  lemma KeyIs(h: Halves)
    ensures forall i: nat | i < 56 :: KeyAt(KeyHalves(h), i) == At(h, S.KeyFrom(i))
  {
    hide At, Bit, LeftHalf, RightHalf, LeftBits, RightBits, Swap4, Swap0, S.KeyFrom;
    hide KeyLeftRow0, KeyLeftRow1, KeyLeftRow2, KeyLeftRow3, KeyRightRow0, KeyRightRow1, KeyRightRow2, KeyRightRow3;
    KeyLeft0(h);
    KeyLeft1(h);
    KeyLeft2(h);
    KeyLeft3(h);
    KeyRight0(h);
    KeyRight1(h);
    KeyRight2(h);
    KeyRight3(h);
    LeftHalfIs(Swapped(h).right);
    RightHalfIs(Swapped(h).left);
    forall i: nat | i < 56 ensures KeyAt(KeyHalves(h), i) == At(h, S.KeyFrom(i)) {
      if i < 28 {
        KeyLeftMeans(KeyHalves(h).left, h, i);
      } else {
        KeyRightMeans(KeyHalves(h).right, h, i - 28);
      }
    }
  }

  predicate HalfAt(x: bv32, j: nat)
    requires j < 28
  {
    Bit(x, j + 4)
  }

  lemma TurnedMeans(w: bv32, x: bv32, j: nat)
    requires TurnedRow0(w, x) && TurnedRow1(w, x) && TurnedRow2(w, x) && TurnedRow3(w, x) && j < 28
    ensures HalfAt(w, j) == HalfAt(x, if j == 27 then 0 else j + 1)
  {
    hide Bit;
  }

  lemma TurnedIs(x: bv32)
    requires x <= 0x0fffffff
    ensures forall j: nat | j < 28 :: HalfAt(RotateBy(1, x), j) == HalfAt(x, if j == 27 then 0 else j + 1)
  {
    hide *;
    Turns0(x);
    Turns1(x);
    Turns2(x);
    Turns3(x);
    forall j: nat | j < 28 ensures HalfAt(RotateBy(1, x), j) == HalfAt(x, if j == 27 then 0 else j + 1) {
      TurnedMeans(RotateBy(1, x), x, j);
    }
  }

  /** Bit `i` of the 48 in the two words of a subkey: the tables of odd number ask the second word. */
  predicate ChosenAt(k: Subkey, i: nat)
    requires i < 48
  {
    var g, j := i / 6, i % 6;
    if g % 2 == 1 then Bit(k.even, 4 * g - 2 + j) else Bit(k.odd, 4 * g + 2 + j)
  }

  lemma ChosenUpper(k: Subkey, h: Halves, i: nat)
    requires ChoiceRow0(k.odd, h) && ChoiceRow1(k.even, h) && ChoiceRow2(k.odd, h) && ChoiceRow3(k.even, h) && i < 24
    ensures ChosenAt(k, i) == KeyAt(h, S.ChosenFrom(i))
  {
    hide Bit, KeyAt;
  }

  lemma ChosenLower(k: Subkey, h: Halves, i: nat)
    requires ChoiceRow4(k.odd, h) && ChoiceRow5(k.even, h) && ChoiceRow6(k.odd, h) && ChoiceRow7(k.even, h)
    requires 24 <= i < 48
    ensures ChosenAt(k, i) == KeyAt(h, S.ChosenFrom(i))
  {
    hide Bit, KeyAt;
  }

  lemma ChosenIs(h: Halves)
    ensures forall i: nat | i < 48 :: ChosenAt(Choose(h), i) == KeyAt(h, S.ChosenFrom(i))
  {
    hide *;
    Chosen0(h);
    Chosen1(h);
    Chosen2(h);
    Chosen3(h);
    Chosen4(h);
    Chosen5(h);
    Chosen6(h);
    Chosen7(h);
    assert Choose(h) == Subkey(ChooseEven(h), ChooseOdd(h)) by {
      ChooseIs(h);
    }
    forall i: nat | i < 48 ensures ChosenAt(Choose(h), i) == KeyAt(h, S.ChosenFrom(i)) {
      if i < 24 {
        ChosenUpper(Choose(h), h, i);
      } else {
        ChosenLower(Choose(h), h, i);
      }
    }
  }

  lemma ChooseIs(h: Halves)
    ensures Choose(h) == Subkey(ChooseEven(h), ChooseOdd(h))
  {
  }

  // Words and strings of bits.

  /** Two words, each kept rotated by one place, are a block. */
  ghost predicate Holds(h: Halves, b: S.Bits64) {
    forall i: nat | i < 32 :: Stored(h.left, i) == b[i] && Stored(h.right, i) == b[i + 32]
  }

  /** Two halves are a key after permuted choice 1. */
  ghost predicate KeyHolds(h: Halves, k: S.Bits56) {
    Is28(h) && forall i: nat | i < 56 :: KeyAt(h, i) == k[i]
  }

  ghost predicate SubkeyHolds(k: Subkey, b: S.Bits48) {
    forall i: nat | i < 48 :: ChosenAt(k, i) == b[i]
  }

  lemma InitialHolds(data: Byte8)
    ensures Holds(InitialPermutation(Read(data)), S.Initial(Bits(data)))
  {
    hide At, Stored, InitialPermutation, Read, Bits, S.InitialFrom;
    ReadIs(data);
    InitialIs(Read(data));
  }

  lemma KeyStarts(key: Byte8)
    ensures KeyHolds(KeyHalves(Read(key)), S.PermutedChoice1(Bits(key)))
  {
    hide At, KeyAt, KeyHalves, Read, Bits, S.KeyFrom, Is28;
    ReadIs(key);
    KeyIs(Read(key));
    KeyHalvesBound(Read(key));
  }

  lemma KeyShifts(h: Halves, k: S.Bits56)
    requires KeyHolds(h, k)
    ensures KeyHolds(Rotate(1, h), S.LeftShift(k))
  {
    hide Bit, RotateBy;
    TurnedIs(h.left);
    TurnedIs(h.right);
    RotateOneTwice(h.left);
    RotateOneTwice(h.right);
    forall i: nat | i < 56 ensures KeyAt(Rotate(1, h), i) == S.LeftShift(k)[i] {
      if i < 28 {
        assert HalfAt(RotateBy(1, h.left), i) == HalfAt(h.left, if i == 27 then 0 else i + 1);
        assert KeyAt(h, if i == 27 then 0 else i + 1) == k[if i == 27 then 0 else i + 1];
      } else {
        assert HalfAt(RotateBy(1, h.right), i - 28) == HalfAt(h.right, if i == 55 then 0 else i - 27);
        assert KeyAt(h, if i == 55 then 28 else i + 1) == k[if i == 55 then 28 else i + 1];
      }
    }
  }

  lemma TwoShifts(h: Halves)
    requires Is28(h)
    ensures Rotate(2, h) == Rotate(1, Rotate(1, h))
  {
    hide RotateBy;
    RotateOneTwice(h.left);
    RotateOneTwice(h.right);
  }

  lemma TurnTable(n: nat)
    requires 1 <= n <= 16
    ensures |ROTATE_TAB| == 16 && ROTATE_TAB[n - 1] == if n in {1, 2, 9, 16} then 1 else 2
  {
  }

  /** The halves after `n` rounds. */
  lemma {:induction false} KeyTurns(h: Halves, k: S.Bits56, n: nat)
    requires KeyHolds(h, k) && n <= 16
    ensures KeyHolds(Turned(h, n), S.KeyAfter(k, n))
  {
    hide KeyAt, Rotate, S.LeftShift, ROTATE_TAB;
    if n > 0 {
      KeyTurns(h, k, n - 1);
      TurnTable(n);
      var was, now := Turned(h, n - 1), S.KeyAfter(k, n - 1);
      KeyShifts(was, now);
      KeyShifts(Rotate(1, was), S.LeftShift(now));
      TwoShifts(was);
    }
  }

  lemma ChoiceHolds(h: Halves, k: S.Bits56)
    requires KeyHolds(h, k)
    ensures SubkeyHolds(Choose(h), S.PermutedChoice2(k))
  {
    hide KeyAt, ChosenAt, Choose, S.ChosenFrom;
    ChosenIs(h);
  }

  /** The two words of each subkey are the key of the round. */
  lemma ScheduleHolds(key: Byte8)
    ensures forall i :: 0 <= i < 16 ==> SubkeyHolds(Schedule(key)[i], S.RoundKeys(Bits(key))[i])
  {
    hide KeyHolds, SubkeyHolds, KeyHalves, Read, Choose, Turned, S.PermutedChoice1, S.PermutedChoice2, S.KeyAfter;
    hide SubkeysFrom, Bits;
    var h, k := KeyHalves(Read(key)), S.PermutedChoice1(Bits(key));
    KeyStarts(key);
    forall i | 0 <= i < 16 ensures SubkeyHolds(Schedule(key)[i], S.RoundKeys(Bits(key))[i]) {
      KeyTurns(h, k, i + 1);
      ChoiceHolds(Turned(h, i + 1), S.KeyAfter(k, i + 1));
      ScheduleAt(key, i);
    }
  }

  lemma ScheduleAt(key: Byte8, i: nat)
    requires i < 16
    ensures Schedule(key)[i] == Choose(Turned(KeyHalves(Read(key)), i + 1))
  {
    hide Choose, KeyHalves, Read, SubkeysFrom;
    SubkeyAt(KeyHalves(Read(key)), 0, i);
  }

  // The entries that the tables are asked for.

  /** A word, kept rotated by one place, is half a block. */
  ghost predicate HalfHolds(x: bv32, r: S.Bits32) {
    forall i: nat | i < 32 :: Stored(x, i) == r[i]
  }

  /** The six bits of a word that go to table `g`, and those of the subkey. */
  function Asked(x: bv32, k: Subkey, g: nat): (b: seq<bool>)
    requires g < 8
    ensures |b| == 6
  {
    seq(6, j requires 0 <= j < 6 => Stored(x, S.ExpandedFrom(g, j)) != ChosenAt(k, 6 * g + j))
  }

  lemma AskedIs(x: bv32, k: Subkey, r: S.Bits32, b: S.Bits48, g: nat)
    requires HalfHolds(x, r) && SubkeyHolds(k, b) && g < 8
    ensures Asked(x, k, g) == S.Six(r, b, g)
  {
    hide Stored, ChosenAt, S.ExpandedFrom;
  }

  function SixWord(b: seq<bool>): bv32
    requires |b| == 6
  {
    SixBits(b[0], b[1], b[2], b[3], b[4], b[5])
  }

  lemma Asks0(x: bv32, k: Subkey)
    ensures Index24(Xor(Turn(x), k.odd)) == SixWord(Asked(x, k, 0))
  {
    hide Bit, SixBits, Index24, Xor, Turn;
    Entry0(x, k.odd);
  }

  lemma Asks1(x: bv32, k: Subkey)
    ensures Index24(Xor(x, k.even)) == SixWord(Asked(x, k, 1))
  {
    hide Bit, SixBits, Index24, Xor, Turn;
    Entry1(x, k.even);
  }

  lemma Asks2(x: bv32, k: Subkey)
    ensures Index16(Xor(Turn(x), k.odd)) == SixWord(Asked(x, k, 2))
  {
    hide Bit, SixBits, Index16, Xor, Turn;
    Entry2(x, k.odd);
  }

  lemma Asks3(x: bv32, k: Subkey)
    ensures Index16(Xor(x, k.even)) == SixWord(Asked(x, k, 3))
  {
    hide Bit, SixBits, Index16, Xor, Turn;
    Entry3(x, k.even);
  }

  lemma Asks4(x: bv32, k: Subkey)
    ensures Index8(Xor(Turn(x), k.odd)) == SixWord(Asked(x, k, 4))
  {
    hide Bit, SixBits, Index8, Xor, Turn;
    Entry4(x, k.odd);
  }

  lemma Asks5(x: bv32, k: Subkey)
    ensures Index8(Xor(x, k.even)) == SixWord(Asked(x, k, 5))
  {
    hide Bit, SixBits, Index8, Xor, Turn;
    Entry5(x, k.even);
  }

  lemma Asks6(x: bv32, k: Subkey)
    ensures Index0(Xor(Turn(x), k.odd)) == SixWord(Asked(x, k, 6))
  {
    hide Bit, SixBits, Index0, Xor, Turn;
    Entry6(x, k.odd);
  }

  lemma Asks7(x: bv32, k: Subkey)
    ensures Index0(Xor(x, k.even)) == SixWord(Asked(x, k, 7))
  {
    hide Bit, SixBits, Index0, Xor, Turn;
    Entry7(x, k.even);
  }

  // The rounds.

  /** A table entry of the program holds an entry of table `g` of the standard, already permuted and rotated. */
  ghost predicate Mixes(w: bv32, e: Nibble, g: nat) {
    forall i: nat | i < 32 :: Stored(w, i) == (S.MixedFrom(i) / 4 == g && GetBit(e, 4 + S.MixedFrom(i) % 4))
  }

  /** The two programs' ways to write the same eight tables. */
  ghost predicate Corresponds(s: Boxes, t: S.Boxes) {
    forall g: nat, six: seq<bool> | g < 8 && |six| == 6 :: Mixes(s(g + 1, SixWord(six)), t(g, Number(six)), g)
  }

  lemma XorMeans(w: bv32, x: bv32, y: bv32, i: nat)
    requires XorRows(w, x, y) && i < 32
    ensures Bit(w, i) == (Bit(x, i) != Bit(y, i))
  {
    hide Bit;
  }

  lemma XorBits(x: bv32, y: bv32)
    ensures forall i: nat | i < 32 :: Bit(x ^ y, i) == (Bit(x, i) != Bit(y, i))
  {
    hide *;
    Xors(x, y);
    forall i: nat | i < 32 ensures Bit(x ^ y, i) == (Bit(x, i) != Bit(y, i)) {
      XorMeans(x ^ y, x, y, i);
    }
  }

  lemma XorStored(x: bv32, y: bv32)
    ensures forall i: nat | i < 32 :: Stored(Xor(x, y), i) == (Stored(x, i) != Stored(y, i))
  {
    hide Bit;
    XorBits(x, y);
  }

  /** The entry of table `g` in a round. */
  function EntryOf(s: Boxes, x: bv32, k: Subkey, g: nat): bv32
    requires g < 8
  {
    s(g + 1, SixWord(Asked(x, k, g)))
  }

  lemma EvenAsk(s: Boxes, x: bv32, k: Subkey)
    ensures EvenBoxes(s, Xor(x, k.even))
         == Sum(EntryOf(s, x, k, 7), EntryOf(s, x, k, 5), EntryOf(s, x, k, 3), EntryOf(s, x, k, 1))
  {
    hide Asked, SixWord, Turn, Xor, Index0, Index8, Index16, Index24;
    Asks1(x, k);
    Asks3(x, k);
    Asks5(x, k);
    Asks7(x, k);
  }

  lemma OddAsk(s: Boxes, x: bv32, k: Subkey)
    ensures OddBoxes(s, Xor(Turn(x), k.odd))
         == Sum(EntryOf(s, x, k, 6), EntryOf(s, x, k, 4), EntryOf(s, x, k, 2), EntryOf(s, x, k, 0))
  {
    hide Asked, SixWord, Turn, Xor, Index0, Index8, Index16, Index24;
    Asks0(x, k);
    Asks2(x, k);
    Asks4(x, k);
    Asks6(x, k);
  }

  lemma EntryMixes(s: Boxes, t: S.Boxes, x: bv32, k: Subkey, r: S.Bits32, b: S.Bits48, g: nat)
    requires Corresponds(s, t) && HalfHolds(x, r) && SubkeyHolds(k, b) && g < 8
    ensures Mixes(EntryOf(s, x, k, g), t(g, Number(S.Six(r, b, g))), g)
  {
    hide Mixes, Asked, SixWord, Number, HalfHolds, SubkeyHolds, S.Six;
    AskedIs(x, k, r, b, g);
  }

  function Sum(a: bv32, b: bv32, c: bv32, d: bv32): bv32 {
    Xor(Xor(Xor(a, b), c), d)
  }

  predicate Odd(a: bool, b: bool, c: bool, d: bool) {
    ((a != b) != c) != d
  }

  lemma SumStored(a: bv32, b: bv32, c: bv32, d: bv32)
    ensures forall i: nat | i < 32 ::
      Stored(Sum(a, b, c, d), i) == Odd(Stored(a, i), Stored(b, i), Stored(c, i), Stored(d, i))
  {
    hide Stored, Xor;
    XorStored(a, b);
    XorStored(Xor(a, b), c);
    XorStored(Xor(Xor(a, b), c), d);
  }

  function Entries(s: Boxes, x: bv32, k: Subkey): (e: seq<bv32>)
    ensures |e| == 8
  {
    seq(8, g requires 0 <= g < 8 => EntryOf(s, x, k, g))
  }

  lemma MixSums(s: Boxes, x: bv32, k: Subkey)
    ensures var e := Entries(s, x, k);
            Mix(s, x, k) == Xor(Sum(e[7], e[5], e[3], e[1]), Sum(e[6], e[4], e[2], e[0]))
  {
    hide EntryOf, EvenBoxes, OddBoxes, Xor, Turn;
    EvenAsk(s, x, k);
    OddAsk(s, x, k);
  }

  lemma EightStored(e: seq<bv32>)
    requires |e| == 8
    ensures forall i: nat | i < 32 ::
      Stored(Xor(Sum(e[7], e[5], e[3], e[1]), Sum(e[6], e[4], e[2], e[0])), i)
      == (Odd(Stored(e[7], i), Stored(e[5], i), Stored(e[3], i), Stored(e[1], i))
          != Odd(Stored(e[6], i), Stored(e[4], i), Stored(e[2], i), Stored(e[0], i)))
  {
    hide Stored, Xor, Sum, Odd;
    SumStored(e[7], e[5], e[3], e[1]);
    SumStored(e[6], e[4], e[2], e[0]);
    XorStored(Sum(e[7], e[5], e[3], e[1]), Sum(e[6], e[4], e[2], e[0]));
  }

  /** Of eight bits at most one of which, the one in place `g`, is set. */
  lemma OneOfEight(e: seq<bool>, g: nat, v: bool)
    requires |e| == 8 && g < 8 && forall j: nat | j < 8 :: e[j] == (j == g && v)
    ensures (Odd(e[7], e[5], e[3], e[1]) != Odd(e[6], e[4], e[2], e[0])) == v
  {
  }

  /** Of eight words at most one of which, the one in place `g`, has bit `i`. */
  lemma SumOfOne(e: seq<bv32>, i: nat, g: nat, v: bool)
    requires |e| == 8 && i < 32 && g < 8 && forall j: nat | j < 8 :: Stored(e[j], i) == (j == g && v)
    ensures Stored(Xor(Sum(e[7], e[5], e[3], e[1]), Sum(e[6], e[4], e[2], e[0])), i) == v
  {
    hide Stored, Xor, Sum, Odd;
    EightStored(e);
    OneOfEight(seq(8, j requires 0 <= j < 8 => Stored(e[j], i)), g, v);
  }

  /** What a round adds is the function f of the standard. */
  lemma MixHolds(s: Boxes, t: S.Boxes, x: bv32, k: Subkey, r: S.Bits32, b: S.Bits48)
    requires Corresponds(s, t) && HalfHolds(x, r) && SubkeyHolds(k, b)
    ensures HalfHolds(Mix(s, x, k), S.F(t, r, b))
  {
    hide Corresponds, SubkeyHolds, Stored, Mix, EntryOf, Xor, Sum, S.F, S.MixedFrom;
    MixSums(s, x, k);
    forall i: nat | i < 32 ensures Stored(Mix(s, x, k), i) == S.F(t, r, b)[i] {
      EntriesAt(s, t, x, k, r, b, i);
      SumOfOne(Entries(s, x, k), i, S.MixedFrom(i) / 4, S.F(t, r, b)[i]);
    }
  }

  lemma EntriesAt(s: Boxes, t: S.Boxes, x: bv32, k: Subkey, r: S.Bits32, b: S.Bits48, i: nat)
    requires Corresponds(s, t) && HalfHolds(x, r) && SubkeyHolds(k, b) && i < 32
    ensures forall g: nat | g < 8 ::
      Stored(Entries(s, x, k)[g], i) == (S.MixedFrom(i) / 4 == g && S.F(t, r, b)[i])
  {
    hide Corresponds, SubkeyHolds, HalfHolds, Stored, EntryOf, S.MixedFrom, S.Six, Number, GetBit;
    forall g: nat | g < 8
      ensures Stored(Entries(s, x, k)[g], i) == (S.MixedFrom(i) / 4 == g && S.F(t, r, b)[i])
    {
      EntryMixes(s, t, x, k, r, b, g);
    }
  }

  lemma RoundHolds(s: Boxes, t: S.Boxes, k: Subkey, b: S.Bits48, h: Halves, c: S.Bits64)
    requires Corresponds(s, t) && SubkeyHolds(k, b) && Holds(h, c)
    ensures Holds(Round(s, k, h), S.Round(t, b, c))
  {
    hide Corresponds, SubkeyHolds, Stored, Mix, S.F, Xor;
    MixHolds(s, t, h.right, k, c[32..], b);
    XorStored(h.left, Mix(s, h.right, k));
  }

  lemma RoundsSnoc(s: Boxes, ks: seq<Subkey>, h: Halves)
    requires ks != []
    ensures Rounds(s, ks, h) == Round(s, ks[|ks| - 1], Rounds(s, ks[..|ks| - 1], h))
  {
    hide Round;
    var n := |ks| - 1;
    assert ks == ks[..n] + [ks[n]];
    RoundsOf(s, ks[..n], [ks[n]], h);
    assert [ks[n]][1..] == [];
  }

  lemma {:induction false} RoundsHold(s: Boxes, t: S.Boxes, ks: seq<Subkey>, bs: seq<S.Bits48>, h: Halves, c: S.Bits64)
    requires Corresponds(s, t) && Holds(h, c)
    requires |ks| == |bs| && forall i :: 0 <= i < |ks| ==> SubkeyHolds(ks[i], bs[i])
    ensures Holds(Rounds(s, ks, h), S.Rounds(t, bs, c))
  {
    hide Corresponds, Holds, SubkeyHolds, Round, S.Round, Rounds;
    if ks == [] {
      RoundsNone(s, h);
    } else {
      var n := |ks| - 1;
      RoundsHold(s, t, ks[..n], bs[..n], h, c);
      RoundsSnoc(s, ks, h);
      RoundHolds(s, t, ks[n], bs[n], Rounds(s, ks[..n], h), S.Rounds(t, bs[..n], c));
    }
  }

  lemma RoundsNone(s: Boxes, h: Halves)
    ensures Rounds(s, [], h) == h
  {
  }

  // The cipher.

  lemma SameBlock(h: Halves, b: S.Bits64, c: S.Bits64)
    requires Holds(h, b) && Holds(h, c)
    ensures b == c
  {
    hide Stored;
    forall i: nat | i < 64 ensures b[i] == c[i] {
      assert Stored(h.left, i % 32) == b[i % 32] && Stored(h.right, i % 32) == b[i % 32 + 32];
    }
  }

  lemma FinalUndoes(b: S.Bits64)
    ensures S.Final(S.Initial(b)) == b
  {
    hide S.InitialFrom, S.FinalFrom;
    forall i: nat | i < 64 ensures S.Final(S.Initial(b))[i] == b[i] {
      S.InitialOfFinal(i);
    }
  }

  /** The last permutation undoes the first one, here as in the standard. */
  lemma FinalHolds(h: Halves, b: S.Bits64)
    requires Holds(h, b)
    ensures Bits(Write(FinalPermutation(h))) == S.Final(b)
  {
    hide Holds, Write, Read, Bits, InitialPermutation, FinalPermutation, S.Initial, S.Final;
    var data := Write(FinalPermutation(h));
    ReadWrite(FinalPermutation(h));
    PermutationsInverse(h);
    InitialHolds(data);
    SameBlock(h, b, S.Initial(Bits(data)));
    FinalUndoes(Bits(data));
  }

  lemma FlipHolds(h: Halves, b: S.Bits64)
    requires Holds(h, b)
    ensures Holds(Flip(h), b[32..] + b[..32])
  {
    hide Stored;
  }

  /** Under subkeys that are those of the standard the cipher is that of the standard. */
  lemma CryptIsStandard(s: Boxes, t: S.Boxes, ks: seq<Subkey>, bs: seq<S.Bits48>, data: Byte8)
    requires Corresponds(s, t)
    requires |ks| == |bs| && forall i :: 0 <= i < |ks| ==> SubkeyHolds(ks[i], bs[i])
    ensures Bits(Crypt(s, ks, data)) == S.Crypt(t, bs, Bits(data))
  {
    hide Corresponds, SubkeyHolds, Holds, Rounds, S.Rounds, S.Initial, S.Final, InitialPermutation, FinalPermutation;
    hide Read, Write, Bits, Flip;
    InitialHolds(data);
    var h, c := InitialPermutation(Read(data)), S.Initial(Bits(data));
    RoundsHold(s, t, ks, bs, h, c);
    FlipHolds(Rounds(s, ks, h), S.Rounds(t, bs, c));
    FinalHolds(Flip(Rounds(s, ks, h)), S.Rounds(t, bs, c)[32..] + S.Rounds(t, bs, c)[..32]);
  }

  /** Encryption and decryption under a key of eight bytes are those of the standard. */
  lemma DesIsStandard(s: Boxes, t: S.Boxes, key: Byte8, data: Byte8)
    requires Corresponds(s, t)
    ensures Bits(Crypt(s, Schedule(key), data)) == S.Enciphered(t, Bits(key), Bits(data))
    ensures Bits(Crypt(s, Reversed(Schedule(key)), data)) == S.Deciphered(t, Bits(key), Bits(data))
  {
    hide Corresponds, SubkeyHolds, Crypt, S.Crypt, Schedule, S.RoundKeys, Bits;
    ScheduleHolds(key);
    CryptIsStandard(s, t, Schedule(key), S.RoundKeys(Bits(key)), data);
    CryptIsStandard(s, t, Reversed(Schedule(key)), S.Reversed(S.RoundKeys(Bits(key))), data);
  }
}
