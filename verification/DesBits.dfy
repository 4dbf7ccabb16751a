/** The bits of 32-bit words, counted from the left, and where the word-level steps of DES take them. */
module DesBits {
  import opened Des
  import opened DesKeys
  import opened ByteBits

  predicate Bit(x: bv32, i: nat)
    requires i < 32
  {
    (x >> (31 - i)) & 1 == 1
  }

  /** Bit `i` of a word that is kept rotated by one place to the left. */
  predicate Stored(x: bv32, i: nat)
    requires i < 32
  {
    Bit(x, (i + 31) % 32)
  }

  /** Bit `i` of two words. */
  predicate At(h: Halves, i: nat)
    requires i < 64
  {
    if i < 32 then Bit(h.left, i) else Bit(h.right, i - 32)
  }

  /** Bit `i` of two halves of 28 bits, each in the lower part of a word. */
  predicate KeyAt(h: Halves, i: nat)
    requires i < 56
  {
    if i < 28 then Bit(h.left, i + 4) else Bit(h.right, i - 24)
  }

  // Words of bytes.

  predicate Byte0(w: bv32, x: bv8) {
    && Bit(w, 0) == GetBit(x, 0) && Bit(w, 1) == GetBit(x, 1) && Bit(w, 2) == GetBit(x, 2) && Bit(w, 3) == GetBit(x, 3)
    && Bit(w, 4) == GetBit(x, 4) && Bit(w, 5) == GetBit(x, 5) && Bit(w, 6) == GetBit(x, 6) && Bit(w, 7) == GetBit(x, 7)
  }

  lemma WordByte0(a: bv8, b: bv8, c: bv8, d: bv8)
    ensures Byte0(Word(a, b, c, d), a)
  {
  }

  predicate Byte1(w: bv32, x: bv8) {
    && Bit(w, 8) == GetBit(x, 0) && Bit(w, 9) == GetBit(x, 1) && Bit(w, 10) == GetBit(x, 2)
    && Bit(w, 11) == GetBit(x, 3) && Bit(w, 12) == GetBit(x, 4) && Bit(w, 13) == GetBit(x, 5)
    && Bit(w, 14) == GetBit(x, 6) && Bit(w, 15) == GetBit(x, 7)
  }

  lemma WordByte1(a: bv8, b: bv8, c: bv8, d: bv8)
    ensures Byte1(Word(a, b, c, d), b)
  {
  }

  predicate Byte2(w: bv32, x: bv8) {
    && Bit(w, 16) == GetBit(x, 0) && Bit(w, 17) == GetBit(x, 1) && Bit(w, 18) == GetBit(x, 2)
    && Bit(w, 19) == GetBit(x, 3) && Bit(w, 20) == GetBit(x, 4) && Bit(w, 21) == GetBit(x, 5)
    && Bit(w, 22) == GetBit(x, 6) && Bit(w, 23) == GetBit(x, 7)
  }

  lemma WordByte2(a: bv8, b: bv8, c: bv8, d: bv8)
    ensures Byte2(Word(a, b, c, d), c)
  {
  }

  predicate Byte3(w: bv32, x: bv8) {
    && Bit(w, 24) == GetBit(x, 0) && Bit(w, 25) == GetBit(x, 1) && Bit(w, 26) == GetBit(x, 2)
    && Bit(w, 27) == GetBit(x, 3) && Bit(w, 28) == GetBit(x, 4) && Bit(w, 29) == GetBit(x, 5)
    && Bit(w, 30) == GetBit(x, 6) && Bit(w, 31) == GetBit(x, 7)
  }

  lemma WordByte3(a: bv8, b: bv8, c: bv8, d: bv8)
    ensures Byte3(Word(a, b, c, d), d)
  {
  }

  // The initial permutation, eight places at a time.

  predicate LeftRow0(w: bv32, h: Halves) {
    && Bit(w, 31) == At(h, 57) && Bit(w, 0) == At(h, 49) && Bit(w, 1) == At(h, 41) && Bit(w, 2) == At(h, 33)
    && Bit(w, 3) == At(h, 25) && Bit(w, 4) == At(h, 17) && Bit(w, 5) == At(h, 9) && Bit(w, 6) == At(h, 1)
  }

  lemma InitialLeft0(h: Halves)
    ensures LeftRow0(InitialPermutation(h).left, h)
  {
  }

  predicate LeftRow1(w: bv32, h: Halves) {
    && Bit(w, 7) == At(h, 59) && Bit(w, 8) == At(h, 51) && Bit(w, 9) == At(h, 43) && Bit(w, 10) == At(h, 35)
    && Bit(w, 11) == At(h, 27) && Bit(w, 12) == At(h, 19) && Bit(w, 13) == At(h, 11) && Bit(w, 14) == At(h, 3)
  }

  lemma InitialLeft1(h: Halves)
    ensures LeftRow1(InitialPermutation(h).left, h)
  {
  }

  predicate LeftRow2(w: bv32, h: Halves) {
    && Bit(w, 15) == At(h, 61) && Bit(w, 16) == At(h, 53) && Bit(w, 17) == At(h, 45) && Bit(w, 18) == At(h, 37)
    && Bit(w, 19) == At(h, 29) && Bit(w, 20) == At(h, 21) && Bit(w, 21) == At(h, 13) && Bit(w, 22) == At(h, 5)
  }

  lemma InitialLeft2(h: Halves)
    ensures LeftRow2(InitialPermutation(h).left, h)
  {
  }

  predicate LeftRow3(w: bv32, h: Halves) {
    && Bit(w, 23) == At(h, 63) && Bit(w, 24) == At(h, 55) && Bit(w, 25) == At(h, 47) && Bit(w, 26) == At(h, 39)
    && Bit(w, 27) == At(h, 31) && Bit(w, 28) == At(h, 23) && Bit(w, 29) == At(h, 15) && Bit(w, 30) == At(h, 7)
  }

  lemma InitialLeft3(h: Halves)
    ensures LeftRow3(InitialPermutation(h).left, h)
  {
  }

  predicate RightRow0(w: bv32, h: Halves) {
    && Bit(w, 31) == At(h, 56) && Bit(w, 0) == At(h, 48) && Bit(w, 1) == At(h, 40) && Bit(w, 2) == At(h, 32)
    && Bit(w, 3) == At(h, 24) && Bit(w, 4) == At(h, 16) && Bit(w, 5) == At(h, 8) && Bit(w, 6) == At(h, 0)
  }

  lemma InitialRight0(h: Halves)
    ensures RightRow0(InitialPermutation(h).right, h)
  {
  }

  predicate RightRow1(w: bv32, h: Halves) {
    && Bit(w, 7) == At(h, 58) && Bit(w, 8) == At(h, 50) && Bit(w, 9) == At(h, 42) && Bit(w, 10) == At(h, 34)
    && Bit(w, 11) == At(h, 26) && Bit(w, 12) == At(h, 18) && Bit(w, 13) == At(h, 10) && Bit(w, 14) == At(h, 2)
  }

  lemma InitialRight1(h: Halves)
    ensures RightRow1(InitialPermutation(h).right, h)
  {
  }

  predicate RightRow2(w: bv32, h: Halves) {
    && Bit(w, 15) == At(h, 60) && Bit(w, 16) == At(h, 52) && Bit(w, 17) == At(h, 44) && Bit(w, 18) == At(h, 36)
    && Bit(w, 19) == At(h, 28) && Bit(w, 20) == At(h, 20) && Bit(w, 21) == At(h, 12) && Bit(w, 22) == At(h, 4)
  }

  lemma InitialRight2(h: Halves)
    ensures RightRow2(InitialPermutation(h).right, h)
  {
  }

  predicate RightRow3(w: bv32, h: Halves) {
    && Bit(w, 23) == At(h, 62) && Bit(w, 24) == At(h, 54) && Bit(w, 25) == At(h, 46) && Bit(w, 26) == At(h, 38)
    && Bit(w, 27) == At(h, 30) && Bit(w, 28) == At(h, 22) && Bit(w, 29) == At(h, 14) && Bit(w, 30) == At(h, 6)
  }

  lemma InitialRight3(h: Halves)
    ensures RightRow3(InitialPermutation(h).right, h)
  {
  }

  // Permuted choice 1, seven places at a time.

  /** The words of a key before its bits are gathered. */
  function Swapped(h: Halves): Halves {
    var a := Swap4(h.right, h.left);
    Swap0(a.left, a.right)
  }

  predicate KeyLeftRow0(w: bv32, h: Halves) {
    && Bit(w, 4) == At(h, 56) && Bit(w, 5) == At(h, 48) && Bit(w, 6) == At(h, 40) && Bit(w, 7) == At(h, 32)
    && Bit(w, 8) == At(h, 24) && Bit(w, 9) == At(h, 16) && Bit(w, 10) == At(h, 8)
  }

  lemma KeyLeft0(h: Halves)
    ensures KeyLeftRow0(LeftBits(Swapped(h).right), h)
  {
  }

  predicate KeyLeftRow1(w: bv32, h: Halves) {
    && Bit(w, 11) == At(h, 0) && Bit(w, 12) == At(h, 57) && Bit(w, 13) == At(h, 49) && Bit(w, 14) == At(h, 41)
    && Bit(w, 15) == At(h, 33) && Bit(w, 16) == At(h, 25) && Bit(w, 17) == At(h, 17)
  }

  lemma KeyLeft1(h: Halves)
    ensures KeyLeftRow1(LeftBits(Swapped(h).right), h)
  {
  }

  predicate KeyLeftRow2(w: bv32, h: Halves) {
    && Bit(w, 18) == At(h, 9) && Bit(w, 19) == At(h, 1) && Bit(w, 20) == At(h, 58) && Bit(w, 21) == At(h, 50)
    && Bit(w, 22) == At(h, 42) && Bit(w, 23) == At(h, 34) && Bit(w, 24) == At(h, 26)
  }

  lemma KeyLeft2(h: Halves)
    ensures KeyLeftRow2(LeftBits(Swapped(h).right), h)
  {
  }

  predicate KeyLeftRow3(w: bv32, h: Halves) {
    && Bit(w, 25) == At(h, 18) && Bit(w, 26) == At(h, 10) && Bit(w, 27) == At(h, 2) && Bit(w, 28) == At(h, 59)
    && Bit(w, 29) == At(h, 51) && Bit(w, 30) == At(h, 43) && Bit(w, 31) == At(h, 35)
  }

  lemma KeyLeft3(h: Halves)
    ensures KeyLeftRow3(LeftBits(Swapped(h).right), h)
  {
  }

  predicate KeyRightRow0(w: bv32, h: Halves) {
    && Bit(w, 4) == At(h, 62) && Bit(w, 5) == At(h, 54) && Bit(w, 6) == At(h, 46) && Bit(w, 7) == At(h, 38)
    && Bit(w, 8) == At(h, 30) && Bit(w, 9) == At(h, 22) && Bit(w, 10) == At(h, 14)
  }

  lemma KeyRight0(h: Halves)
    ensures KeyRightRow0(RightBits(Swapped(h).left), h)
  {
  }

  predicate KeyRightRow1(w: bv32, h: Halves) {
    && Bit(w, 11) == At(h, 6) && Bit(w, 12) == At(h, 61) && Bit(w, 13) == At(h, 53) && Bit(w, 14) == At(h, 45)
    && Bit(w, 15) == At(h, 37) && Bit(w, 16) == At(h, 29) && Bit(w, 17) == At(h, 21)
  }

  lemma KeyRight1(h: Halves)
    ensures KeyRightRow1(RightBits(Swapped(h).left), h)
  {
  }

  predicate KeyRightRow2(w: bv32, h: Halves) {
    && Bit(w, 18) == At(h, 13) && Bit(w, 19) == At(h, 5) && Bit(w, 20) == At(h, 60) && Bit(w, 21) == At(h, 52)
    && Bit(w, 22) == At(h, 44) && Bit(w, 23) == At(h, 36) && Bit(w, 24) == At(h, 28)
  }

  lemma KeyRight2(h: Halves)
    ensures KeyRightRow2(RightBits(Swapped(h).left), h)
  {
  }

  predicate KeyRightRow3(w: bv32, h: Halves) {
    && Bit(w, 25) == At(h, 20) && Bit(w, 26) == At(h, 12) && Bit(w, 27) == At(h, 4) && Bit(w, 28) == At(h, 27)
    && Bit(w, 29) == At(h, 19) && Bit(w, 30) == At(h, 11) && Bit(w, 31) == At(h, 3)
  }

  lemma KeyRight3(h: Halves)
    ensures KeyRightRow3(RightBits(Swapped(h).left), h)
  {
  }

  // The rotation of a half by one place.

  predicate TurnedRow0(w: bv32, x: bv32) {
    && Bit(w, 4) == Bit(x, 5) && Bit(w, 5) == Bit(x, 6) && Bit(w, 6) == Bit(x, 7) && Bit(w, 7) == Bit(x, 8)
    && Bit(w, 8) == Bit(x, 9) && Bit(w, 9) == Bit(x, 10) && Bit(w, 10) == Bit(x, 11)
  }

  lemma Turns0(x: bv32)
    requires x <= 0x0fffffff
    ensures TurnedRow0(RotateBy(1, x), x)
  {
  }

  predicate TurnedRow1(w: bv32, x: bv32) {
    && Bit(w, 11) == Bit(x, 12) && Bit(w, 12) == Bit(x, 13) && Bit(w, 13) == Bit(x, 14) && Bit(w, 14) == Bit(x, 15)
    && Bit(w, 15) == Bit(x, 16) && Bit(w, 16) == Bit(x, 17) && Bit(w, 17) == Bit(x, 18)
  }

  lemma Turns1(x: bv32)
    requires x <= 0x0fffffff
    ensures TurnedRow1(RotateBy(1, x), x)
  {
  }

  predicate TurnedRow2(w: bv32, x: bv32) {
    && Bit(w, 18) == Bit(x, 19) && Bit(w, 19) == Bit(x, 20) && Bit(w, 20) == Bit(x, 21) && Bit(w, 21) == Bit(x, 22)
    && Bit(w, 22) == Bit(x, 23) && Bit(w, 23) == Bit(x, 24) && Bit(w, 24) == Bit(x, 25)
  }

  lemma Turns2(x: bv32)
    requires x <= 0x0fffffff
    ensures TurnedRow2(RotateBy(1, x), x)
  {
  }

  predicate TurnedRow3(w: bv32, x: bv32) {
    && Bit(w, 25) == Bit(x, 26) && Bit(w, 26) == Bit(x, 27) && Bit(w, 27) == Bit(x, 28) && Bit(w, 28) == Bit(x, 29)
    && Bit(w, 29) == Bit(x, 30) && Bit(w, 30) == Bit(x, 31) && Bit(w, 31) == Bit(x, 4)
  }

  lemma Turns3(x: bv32)
    requires x <= 0x0fffffff
    ensures TurnedRow3(RotateBy(1, x), x)
  {
  }

  // Permuted choice 2, six places for each table.

  predicate ChoiceRow0(w: bv32, h: Halves) {
    && Bit(w, 2) == KeyAt(h, 13) && Bit(w, 3) == KeyAt(h, 16) && Bit(w, 4) == KeyAt(h, 10)
    && Bit(w, 5) == KeyAt(h, 23) && Bit(w, 6) == KeyAt(h, 0) && Bit(w, 7) == KeyAt(h, 4)
  }

  lemma Chosen0(h: Halves)
    ensures ChoiceRow0(ChooseOdd(h), h)
  {
  }

  predicate ChoiceRow1(w: bv32, h: Halves) {
    && Bit(w, 2) == KeyAt(h, 2) && Bit(w, 3) == KeyAt(h, 27) && Bit(w, 4) == KeyAt(h, 14)
    && Bit(w, 5) == KeyAt(h, 5) && Bit(w, 6) == KeyAt(h, 20) && Bit(w, 7) == KeyAt(h, 9)
  }

  lemma Chosen1(h: Halves)
    ensures ChoiceRow1(ChooseEven(h), h)
  {
  }

  predicate ChoiceRow2(w: bv32, h: Halves) {
    && Bit(w, 10) == KeyAt(h, 22) && Bit(w, 11) == KeyAt(h, 18) && Bit(w, 12) == KeyAt(h, 11)
    && Bit(w, 13) == KeyAt(h, 3) && Bit(w, 14) == KeyAt(h, 25) && Bit(w, 15) == KeyAt(h, 7)
  }

  lemma Chosen2(h: Halves)
    ensures ChoiceRow2(ChooseOdd(h), h)
  {
  }

  predicate ChoiceRow3(w: bv32, h: Halves) {
    && Bit(w, 10) == KeyAt(h, 15) && Bit(w, 11) == KeyAt(h, 6) && Bit(w, 12) == KeyAt(h, 26)
    && Bit(w, 13) == KeyAt(h, 19) && Bit(w, 14) == KeyAt(h, 12) && Bit(w, 15) == KeyAt(h, 1)
  }

  lemma Chosen3(h: Halves)
    ensures ChoiceRow3(ChooseEven(h), h)
  {
  }

  predicate ChoiceRow4(w: bv32, h: Halves) {
    && Bit(w, 18) == KeyAt(h, 40) && Bit(w, 19) == KeyAt(h, 51) && Bit(w, 20) == KeyAt(h, 30)
    && Bit(w, 21) == KeyAt(h, 36) && Bit(w, 22) == KeyAt(h, 46) && Bit(w, 23) == KeyAt(h, 54)
  }

  lemma Chosen4(h: Halves)
    ensures ChoiceRow4(ChooseOdd(h), h)
  {
  }

  predicate ChoiceRow5(w: bv32, h: Halves) {
    && Bit(w, 18) == KeyAt(h, 29) && Bit(w, 19) == KeyAt(h, 39) && Bit(w, 20) == KeyAt(h, 50)
    && Bit(w, 21) == KeyAt(h, 44) && Bit(w, 22) == KeyAt(h, 32) && Bit(w, 23) == KeyAt(h, 47)
  }

  lemma Chosen5(h: Halves)
    ensures ChoiceRow5(ChooseEven(h), h)
  {
  }

  predicate ChoiceRow6(w: bv32, h: Halves) {
    && Bit(w, 26) == KeyAt(h, 43) && Bit(w, 27) == KeyAt(h, 48) && Bit(w, 28) == KeyAt(h, 38)
    && Bit(w, 29) == KeyAt(h, 55) && Bit(w, 30) == KeyAt(h, 33) && Bit(w, 31) == KeyAt(h, 52)
  }

  lemma Chosen6(h: Halves)
    ensures ChoiceRow6(ChooseOdd(h), h)
  {
  }

  predicate ChoiceRow7(w: bv32, h: Halves) {
    && Bit(w, 26) == KeyAt(h, 45) && Bit(w, 27) == KeyAt(h, 41) && Bit(w, 28) == KeyAt(h, 49)
    && Bit(w, 29) == KeyAt(h, 35) && Bit(w, 30) == KeyAt(h, 28) && Bit(w, 31) == KeyAt(h, 31)
  }

  lemma Chosen7(h: Halves)
    ensures ChoiceRow7(ChooseEven(h), h)
  {
  }

  // Sums modulo 2.

  predicate XorRows(w: bv32, x: bv32, y: bv32) {
    && Bit(w, 0) == (Bit(x, 0) != Bit(y, 0)) && Bit(w, 1) == (Bit(x, 1) != Bit(y, 1))
    && Bit(w, 2) == (Bit(x, 2) != Bit(y, 2)) && Bit(w, 3) == (Bit(x, 3) != Bit(y, 3))
    && Bit(w, 4) == (Bit(x, 4) != Bit(y, 4)) && Bit(w, 5) == (Bit(x, 5) != Bit(y, 5))
    && Bit(w, 6) == (Bit(x, 6) != Bit(y, 6)) && Bit(w, 7) == (Bit(x, 7) != Bit(y, 7))
    && Bit(w, 8) == (Bit(x, 8) != Bit(y, 8)) && Bit(w, 9) == (Bit(x, 9) != Bit(y, 9))
    && Bit(w, 10) == (Bit(x, 10) != Bit(y, 10)) && Bit(w, 11) == (Bit(x, 11) != Bit(y, 11))
    && Bit(w, 12) == (Bit(x, 12) != Bit(y, 12)) && Bit(w, 13) == (Bit(x, 13) != Bit(y, 13))
    && Bit(w, 14) == (Bit(x, 14) != Bit(y, 14)) && Bit(w, 15) == (Bit(x, 15) != Bit(y, 15))
    && Bit(w, 16) == (Bit(x, 16) != Bit(y, 16)) && Bit(w, 17) == (Bit(x, 17) != Bit(y, 17))
    && Bit(w, 18) == (Bit(x, 18) != Bit(y, 18)) && Bit(w, 19) == (Bit(x, 19) != Bit(y, 19))
    && Bit(w, 20) == (Bit(x, 20) != Bit(y, 20)) && Bit(w, 21) == (Bit(x, 21) != Bit(y, 21))
    && Bit(w, 22) == (Bit(x, 22) != Bit(y, 22)) && Bit(w, 23) == (Bit(x, 23) != Bit(y, 23))
    && Bit(w, 24) == (Bit(x, 24) != Bit(y, 24)) && Bit(w, 25) == (Bit(x, 25) != Bit(y, 25))
    && Bit(w, 26) == (Bit(x, 26) != Bit(y, 26)) && Bit(w, 27) == (Bit(x, 27) != Bit(y, 27))
    && Bit(w, 28) == (Bit(x, 28) != Bit(y, 28)) && Bit(w, 29) == (Bit(x, 29) != Bit(y, 29))
    && Bit(w, 30) == (Bit(x, 30) != Bit(y, 30)) && Bit(w, 31) == (Bit(x, 31) != Bit(y, 31))
  }

  lemma XorPlaces(x: bv32, y: bv32)
    ensures
      && Bit(x ^ y, 0) == (Bit(x, 0) != Bit(y, 0)) && Bit(x ^ y, 1) == (Bit(x, 1) != Bit(y, 1))
      && Bit(x ^ y, 2) == (Bit(x, 2) != Bit(y, 2)) && Bit(x ^ y, 3) == (Bit(x, 3) != Bit(y, 3))
      && Bit(x ^ y, 4) == (Bit(x, 4) != Bit(y, 4)) && Bit(x ^ y, 5) == (Bit(x, 5) != Bit(y, 5))
      && Bit(x ^ y, 6) == (Bit(x, 6) != Bit(y, 6)) && Bit(x ^ y, 7) == (Bit(x, 7) != Bit(y, 7))
      && Bit(x ^ y, 8) == (Bit(x, 8) != Bit(y, 8)) && Bit(x ^ y, 9) == (Bit(x, 9) != Bit(y, 9))
      && Bit(x ^ y, 10) == (Bit(x, 10) != Bit(y, 10)) && Bit(x ^ y, 11) == (Bit(x, 11) != Bit(y, 11))
      && Bit(x ^ y, 12) == (Bit(x, 12) != Bit(y, 12)) && Bit(x ^ y, 13) == (Bit(x, 13) != Bit(y, 13))
      && Bit(x ^ y, 14) == (Bit(x, 14) != Bit(y, 14)) && Bit(x ^ y, 15) == (Bit(x, 15) != Bit(y, 15))
      && Bit(x ^ y, 16) == (Bit(x, 16) != Bit(y, 16)) && Bit(x ^ y, 17) == (Bit(x, 17) != Bit(y, 17))
      && Bit(x ^ y, 18) == (Bit(x, 18) != Bit(y, 18)) && Bit(x ^ y, 19) == (Bit(x, 19) != Bit(y, 19))
      && Bit(x ^ y, 20) == (Bit(x, 20) != Bit(y, 20)) && Bit(x ^ y, 21) == (Bit(x, 21) != Bit(y, 21))
      && Bit(x ^ y, 22) == (Bit(x, 22) != Bit(y, 22)) && Bit(x ^ y, 23) == (Bit(x, 23) != Bit(y, 23))
      && Bit(x ^ y, 24) == (Bit(x, 24) != Bit(y, 24)) && Bit(x ^ y, 25) == (Bit(x, 25) != Bit(y, 25))
      && Bit(x ^ y, 26) == (Bit(x, 26) != Bit(y, 26)) && Bit(x ^ y, 27) == (Bit(x, 27) != Bit(y, 27))
      && Bit(x ^ y, 28) == (Bit(x, 28) != Bit(y, 28)) && Bit(x ^ y, 29) == (Bit(x, 29) != Bit(y, 29))
      && Bit(x ^ y, 30) == (Bit(x, 30) != Bit(y, 30)) && Bit(x ^ y, 31) == (Bit(x, 31) != Bit(y, 31))
  {
  }

  lemma Xors(x: bv32, y: bv32)
    ensures XorRows(x ^ y, x, y)
  {
    XorPlaces(x, y);
  }

  // The entry each table is asked for.

  /** Six bits as a word. */
  function SixBits(a: bool, b: bool, c: bool, d: bool, e: bool, f: bool): bv32 {
    (if a then 0x20 else 0) | (if b then 0x10 else 0) | (if c then 0x08 else 0)
    | (if d then 0x04 else 0) | (if e then 0x02 else 0) | (if f then 0x01 else 0)
  }

  lemma Entry0(x: bv32, k: bv32)
    ensures Index24(Xor(Turn(x), k)) == SixBits(
              Bit(x, 30) != Bit(k, 2), Bit(x, 31) != Bit(k, 3), Bit(x, 0) != Bit(k, 4),
              Bit(x, 1) != Bit(k, 5), Bit(x, 2) != Bit(k, 6), Bit(x, 3) != Bit(k, 7))
  {
  }

  lemma Entry1(x: bv32, k: bv32)
    ensures Index24(Xor(x, k)) == SixBits(
              Bit(x, 2) != Bit(k, 2), Bit(x, 3) != Bit(k, 3), Bit(x, 4) != Bit(k, 4),
              Bit(x, 5) != Bit(k, 5), Bit(x, 6) != Bit(k, 6), Bit(x, 7) != Bit(k, 7))
  {
  }

  lemma Entry2(x: bv32, k: bv32)
    ensures Index16(Xor(Turn(x), k)) == SixBits(
              Bit(x, 6) != Bit(k, 10), Bit(x, 7) != Bit(k, 11), Bit(x, 8) != Bit(k, 12),
              Bit(x, 9) != Bit(k, 13), Bit(x, 10) != Bit(k, 14), Bit(x, 11) != Bit(k, 15))
  {
  }

  lemma Entry3(x: bv32, k: bv32)
    ensures Index16(Xor(x, k)) == SixBits(
              Bit(x, 10) != Bit(k, 10), Bit(x, 11) != Bit(k, 11), Bit(x, 12) != Bit(k, 12),
              Bit(x, 13) != Bit(k, 13), Bit(x, 14) != Bit(k, 14), Bit(x, 15) != Bit(k, 15))
  {
  }

  lemma Entry4(x: bv32, k: bv32)
    ensures Index8(Xor(Turn(x), k)) == SixBits(
              Bit(x, 14) != Bit(k, 18), Bit(x, 15) != Bit(k, 19), Bit(x, 16) != Bit(k, 20),
              Bit(x, 17) != Bit(k, 21), Bit(x, 18) != Bit(k, 22), Bit(x, 19) != Bit(k, 23))
  {
  }

  lemma Entry5(x: bv32, k: bv32)
    ensures Index8(Xor(x, k)) == SixBits(
              Bit(x, 18) != Bit(k, 18), Bit(x, 19) != Bit(k, 19), Bit(x, 20) != Bit(k, 20),
              Bit(x, 21) != Bit(k, 21), Bit(x, 22) != Bit(k, 22), Bit(x, 23) != Bit(k, 23))
  {
  }

  lemma Entry6(x: bv32, k: bv32)
    ensures Index0(Xor(Turn(x), k)) == SixBits(
              Bit(x, 22) != Bit(k, 26), Bit(x, 23) != Bit(k, 27), Bit(x, 24) != Bit(k, 28),
              Bit(x, 25) != Bit(k, 29), Bit(x, 26) != Bit(k, 30), Bit(x, 27) != Bit(k, 31))
  {
  }

  lemma Entry7(x: bv32, k: bv32)
    ensures Index0(Xor(x, k)) == SixBits(
              Bit(x, 26) != Bit(k, 26), Bit(x, 27) != Bit(k, 27), Bit(x, 28) != Bit(k, 28),
              Bit(x, 29) != Bit(k, 29), Bit(x, 30) != Bit(k, 30), Bit(x, 31) != Bit(k, 31))
  {
  }
}
