/** Weak keys, and the complementation property of DES. */
module DesSymmetry {
  import opened Des
  import opened DesKeys

  // Keys whose halves repeat with period two.

  predicate Periodic(h: Halves) {
    Rotate(2, h) == h && h.left <= 0x0fffffff && h.right <= 0x0fffffff
  }

  lemma PeriodicOther(h: Halves)
    requires Periodic(h)
    ensures Periodic(Rotate(1, h)) && Rotate(1, Rotate(1, h)) == h
  {
    hide RotateBy;
    RotateOneTwice(h.left);
    RotateOneTwice(h.right);
  }

  lemma PeriodicTwo(h: Halves)
    requires Periodic(h)
    ensures Rotate(2, h) == h && Rotate(2, Rotate(1, h)) == Rotate(1, h)
  {
    hide RotateBy;
    PeriodicOther(h);
  }

  /** Whether the rotations up to and including round `r` add up to an odd number. */
  predicate OddTurn(r: nat) {
    r == 0 || 8 <= r <= 14
  }

  lemma PeriodicTurn(h: Halves, r: nat)
    requires Periodic(h) && r < 16
    ensures |ROTATE_TAB| == 16 && (ROTATE_TAB[r] == 1 || ROTATE_TAB[r] == 2)
    ensures Rotate(ROTATE_TAB[r], if r > 0 && OddTurn(r - 1) then Rotate(1, h) else h)
         == if OddTurn(r) then Rotate(1, h) else h
  {
    hide Rotate, Periodic;
    PeriodicOther(h);
    PeriodicTwo(h);
  }

  lemma {:induction false} PeriodicSubkeys(h: Halves, r: nat, i: nat)
    requires Periodic(h) && r + i < 16
    ensures var now := if r > 0 && OddTurn(r - 1) then Rotate(1, h) else h;
            SubkeysFrom(now, r)[i] == Choose(if OddTurn(r + i) then Rotate(1, h) else h)
    decreases i
  {
    hide Choose, Rotate, Periodic, SubkeysFrom, OddTurn, ROTATE_TAB;
    PeriodicTurn(h, r);
    SubkeysSplit(if r > 0 && OddTurn(r - 1) then Rotate(1, h) else h, r, ROTATE_TAB[r]);
    if i > 0 {
      PeriodicSubkeys(h, r + 1, i - 1);
    }
  }

  /** The schedules of two keys whose halves are one rotation apart are reversals of each other. */
  lemma DualSchedules(h: Halves)
    requires Periodic(h)
    ensures SubkeysFrom(Rotate(1, h), 0) == Reversed(SubkeysFrom(h, 0))
  {
    hide Choose, Rotate, SubkeysFrom;
    PeriodicOther(h);
    var a, b := SubkeysFrom(Rotate(1, h), 0), SubkeysFrom(h, 0);
    forall i | 0 <= i < 16 ensures a[i] == b[15 - i] {
      PeriodicSubkeys(Rotate(1, h), 0, i);
      PeriodicSubkeys(h, 0, 15 - i);
    }
  }

  /** The byte for the second half of a key that goes with byte `x` of the first. */
  function Partner(x: bv8): bv8 {
    if x == 0x1e then 0x0e else if x == 0xe0 then 0xf0 else x
  }

  /** The keys marked weak or semi-weak in the table, by their first two bytes. */
  function WeakKey(a: bv8, b: bv8): Byte8 {
    [a, b, a, b, Partner(a), Partner(b), Partner(a), Partner(b)]
  }

  predicate WeakByte(x: bv8) {
    x == 0x00 || x == 0x1e || x == 0xe0 || x == 0xfe
  }

  lemma WeakHalves(a: bv8, b: bv8)
    requires WeakByte(a) && WeakByte(b)
    ensures Periodic(KeyHalves(Read(WeakKey(a, b))))
  {
  }

  lemma WeakPartnerLeft(a: bv8, b: bv8)
    requires WeakByte(a) && WeakByte(b)
    ensures RotateBy(1, KeyHalves(Read(WeakKey(a, b))).left) == KeyHalves(Read(WeakKey(b, a))).left
  {
  }

  lemma WeakPartnerRight(a: bv8, b: bv8)
    requires WeakByte(a) && WeakByte(b)
    ensures RotateBy(1, KeyHalves(Read(WeakKey(a, b))).right) == KeyHalves(Read(WeakKey(b, a))).right
  {
  }

  lemma WeakPartner(a: bv8, b: bv8)
    requires WeakByte(a) && WeakByte(b)
    ensures Rotate(1, KeyHalves(Read(WeakKey(a, b)))) == KeyHalves(Read(WeakKey(b, a)))
  {
    hide KeyHalves, Read, WeakKey, RotateBy;
    WeakPartnerLeft(a, b);
    WeakPartnerRight(a, b);
  }

  /** Encrypting with a semi-weak key and then with its partner, or twice with a weak key, is the identity. */
  lemma WeakKeysCancel(s: Boxes, a: bv8, b: bv8, data: Byte8)
    requires WeakByte(a) && WeakByte(b)
    ensures Crypt(s, Schedule(WeakKey(b, a)), Crypt(s, Schedule(WeakKey(a, b)), data)) == data
  {
    hide KeyHalves, Read, Crypt, SubkeysFrom;
    WeakHalves(a, b);
    WeakPartner(a, b);
    DualSchedules(KeyHalves(Read(WeakKey(a, b))));
    CryptUndoes(s, Schedule(WeakKey(a, b)), data);
  }

  /** Any key with a palindromic schedule makes encryption an involution. */
  lemma PalindromeInvolution(s: Boxes, key: Byte8, data: Byte8)
    requires Reversed(Schedule(key)) == Schedule(key)
    ensures Crypt(s, Schedule(key), Crypt(s, Schedule(key), data)) == data
  {
    CryptUndoes(s, Schedule(key), data);
  }

  // Complements.

  function Com(x: bv32): bv32 {
    !x
  }

  function Com28(x: bv32): bv32 {
    x ^ 0x0fffffff
  }

  /** A subkey word has 24 bits that count. */
  function Com24(x: bv32): bv32 {
    x ^ 0x3f3f3f3f
  }

  function Com8(x: bv8): bv8 {
    !x
  }

  function Not(h: Halves): Halves {
    Halves(Com(h.left), Com(h.right))
  }

  function Not28(h: Halves): Halves {
    Halves(Com28(h.left), Com28(h.right))
  }

  function NotBytes(data: Byte8): Byte8 {
    seq(8, i requires 0 <= i < 8 => Com8(data[i]))
  }

  function NotKey(k: Subkey): Subkey {
    Subkey(Com24(k.even), Com24(k.odd))
  }

  // A fact on plain complements comes first, where one on named functions is too hard for the solver.

  lemma PlainWord(a: bv8, b: bv8, c: bv8, d: bv8)
    ensures Word(!a, !b, !c, !d) == !Word(a, b, c, d)
  {
  }

  lemma NotWord(a: bv8, b: bv8, c: bv8, d: bv8)
    ensures Word(Com8(a), Com8(b), Com8(c), Com8(d)) == Com(Word(a, b, c, d))
  {
    hide Word;
    PlainWord(a, b, c, d);
  }

  lemma NotRead(data: Byte8)
    ensures Read(NotBytes(data)) == Not(Read(data))
  {
    hide Word, Com, Com8;
    NotWord(data[0], data[1], data[2], data[3]);
    NotWord(data[4], data[5], data[6], data[7]);
  }

  lemma NotOctets(x: bv32)
    ensures var a, b := Octets(Com(x)), Octets(x);
            a[0] == Com8(b[0]) && a[1] == Com8(b[1]) && a[2] == Com8(b[2]) && a[3] == Com8(b[3])
  {
  }

  lemma NotWrite(h: Halves)
    ensures Write(Not(h)) == NotBytes(Write(h))
  {
    hide Octets, Com, Com8;
    NotOctets(h.left);
    NotOctets(h.right);
  }

  lemma NotSwap4(h: Halves)
    ensures Swap4(Com(h.left), Com(h.right)) == Not(Swap4(h.left, h.right))
  {
  }

  lemma NotSwap16(h: Halves)
    ensures Swap16(Com(h.left), Com(h.right)) == Not(Swap16(h.left, h.right))
  {
  }

  lemma NotSwap2(h: Halves)
    ensures Swap2(Com(h.left), Com(h.right)) == Not(Swap2(h.left, h.right))
  {
  }

  lemma NotSwap8(h: Halves)
    ensures Swap8(Com(h.left), Com(h.right)) == Not(Swap8(h.left, h.right))
  {
  }

  lemma NotSwap0(h: Halves)
    ensures Swap0(Com(h.left), Com(h.right)) == Not(Swap0(h.left, h.right))
  {
  }

  lemma NotSpreadOut(h: Halves)
    ensures SpreadOut(Com(h.left), Com(h.right)) == Not(SpreadOut(h.left, h.right))
  {
  }

  lemma NotSpreadIn(h: Halves)
    ensures SpreadIn(Com(h.left), Com(h.right)) == Not(SpreadIn(h.left, h.right))
  {
  }

  lemma NotPermutations(h: Halves)
    ensures InitialPermutation(Not(h)) == Not(InitialPermutation(h))
    ensures FinalPermutation(Not(h)) == Not(FinalPermutation(h))
  {
    hide Swap4, Swap16, Swap2, Swap8, SpreadOut, SpreadIn, Com;
    var a := Swap4(h.left, h.right);
    var b := Swap16(a.left, a.right);
    var c := Swap2(b.right, b.left);
    var d := Swap8(c.left, c.right);
    NotSwap4(h);
    NotSwap16(a);
    NotSwap2(Flip(b));
    NotSwap8(c);
    NotSpreadOut(Flip(d));
    var e := SpreadIn(h.left, h.right);
    var f := Swap8(e.right, e.left);
    var g := Swap2(f.left, f.right);
    var i := Swap16(g.right, g.left);
    NotSpreadIn(h);
    NotSwap8(Flip(e));
    NotSwap2(f);
    NotSwap16(Flip(g));
    NotSwap4(i);
  }

  lemma NotLeft(x: bv32)
    ensures LeftBits(Com(x)) == Com28(LeftBits(x))
  {
  }

  lemma NotRight(x: bv32)
    ensures RightBits(Com(x)) == Com28(RightBits(x))
  {
  }

  lemma NotKeyHalves(h: Halves)
    ensures KeyHalves(Not(h)) == Not28(KeyHalves(h))
  {
    hide Swap4, Swap0, LeftHalf, RightHalf, LeftBits, RightBits, Com, Com28;
    var c := Swap4(h.right, h.left);
    var d := Swap0(c.left, c.right);
    NotSwap4(Flip(h));
    NotSwap0(c);
    NotRight(d.left);
    NotLeft(d.right);
    LeftHalfIs(d.right);
    LeftHalfIs(Com(d.right));
    RightHalfIs(d.left);
    RightHalfIs(Com(d.left));
  }

  lemma NotRotateBy(x: bv32)
    requires x <= 0x0fffffff
    ensures RotateBy(1, Com28(x)) == Com28(RotateBy(1, x)) && RotateBy(1, x) <= 0x0fffffff
    ensures RotateBy(2, Com28(x)) == Com28(RotateBy(2, x)) && RotateBy(2, x) <= 0x0fffffff
  {
  }

  lemma DiffersIn24(x: bv32, y: bv32)
    requires x ^ y == 0x3f3f3f3f
    ensures x == Com24(y)
  {
  }

  lemma NotEven(h: Halves)
    ensures ChooseEven(Not28(h)) ^ ChooseEven(h) == 0x3f3f3f3f
  {
  }

  lemma NotOdd(h: Halves)
    ensures ChooseOdd(Not28(h)) ^ ChooseOdd(h) == 0x3f3f3f3f
  {
  }

  lemma NotChoose(h: Halves)
    ensures Choose(Not28(h)) == NotKey(Choose(h))
  {
    hide ChooseEven, ChooseOdd, Not28, Com24;
    NotEven(h);
    NotOdd(h);
    DiffersIn24(ChooseEven(Not28(h)), ChooseEven(h));
    DiffersIn24(ChooseOdd(Not28(h)), ChooseOdd(h));
  }

  lemma NotRotate(n: nat, h: Halves)
    requires Is28(h) && (n == 1 || n == 2)
    ensures Rotate(n, Not28(h)) == Not28(Rotate(n, h)) && Is28(Rotate(n, h))
  {
    hide RotateBy, Com28;
    NotRotateBy(h.left);
    NotRotateBy(h.right);
  }

  /** The first subkey from round `r` on, and those after it. */
  lemma SubkeysSplit(h: Halves, r: nat, n: nat)
    requires r < 16 && |ROTATE_TAB| == 16 && n == ROTATE_TAB[r]
    ensures var g := Rotate(n, h); SubkeysFrom(h, r) == [Choose(g)] + SubkeysFrom(g, r + 1)
  {
  }

  lemma {:induction false} NotSubkeys(h: Halves, r: nat, i: nat)
    requires r + i < 16 && Is28(h)
    ensures SubkeysFrom(Not28(h), r)[i] == NotKey(SubkeysFrom(h, r)[i])
    decreases i
  {
    hide Choose, Rotate, Not28, NotKey, Is28, ROTATE_TAB, SubkeysFrom;
    TableTurns(r);
    var n := ROTATE_TAB[r];
    var g := Rotate(n, h);
    NotRotate(n, h);
    SubkeysSplit(h, r, n);
    SubkeysSplit(Not28(h), r, n);
    if i == 0 {
      NotChoose(g);
    } else {
      NotSubkeys(g, r + 1, i - 1);
    }
  }

  lemma NotSchedule(key: Byte8)
    ensures forall i :: 0 <= i < 16 ==> Schedule(NotBytes(key))[i] == NotKey(Schedule(key)[i])
  {
    hide Read, KeyHalves, SubkeysFrom, NotKey, Not28, Is28;
    NotRead(key);
    NotKeyHalves(Read(key));
    KeyHalvesBound(Read(key));
    forall i | 0 <= i < 16 ensures Schedule(NotBytes(key))[i] == NotKey(Schedule(key)[i]) {
      NotSubkeys(KeyHalves(Read(key)), 0, i);
    }
  }

  lemma NotIndex0(x: bv32, k: bv32)
    ensures Index0(Xor(Com(x), Com24(k))) == Index0(Xor(x, k))
  {
  }

  lemma NotIndex8(x: bv32, k: bv32)
    ensures Index8(Xor(Com(x), Com24(k))) == Index8(Xor(x, k))
  {
  }

  lemma NotIndex16(x: bv32, k: bv32)
    ensures Index16(Xor(Com(x), Com24(k))) == Index16(Xor(x, k))
  {
  }

  lemma NotIndex24(x: bv32, k: bv32)
    ensures Index24(Xor(Com(x), Com24(k))) == Index24(Xor(x, k))
  {
  }

  lemma PlainTurn(x: bv32)
    ensures Turn(!x) == !Turn(x)
  {
  }

  lemma NotTurn(x: bv32)
    ensures Turn(Com(x)) == Com(Turn(x))
  {
    hide Turn;
    PlainTurn(x);
  }

  lemma NotEvenBoxes(s: Boxes, x: bv32, k: bv32)
    ensures EvenBoxes(s, Xor(Com(x), Com24(k))) == EvenBoxes(s, Xor(x, k))
  {
    hide Com, Com24, Xor, Index0, Index8, Index16, Index24;
    NotIndex0(x, k);
    NotIndex8(x, k);
    NotIndex16(x, k);
    NotIndex24(x, k);
  }

  lemma NotOddBoxes(s: Boxes, x: bv32, k: bv32)
    ensures OddBoxes(s, Xor(Com(x), Com24(k))) == OddBoxes(s, Xor(x, k))
  {
    hide Com, Com24, Xor, Index0, Index8, Index16, Index24;
    NotIndex0(x, k);
    NotIndex8(x, k);
    NotIndex16(x, k);
    NotIndex24(x, k);
  }

  /** Complementing word and subkey leaves what a round adds alone. */
  lemma NotMix(s: Boxes, x: bv32, k: Subkey)
    ensures Mix(s, Com(x), NotKey(k)) == Mix(s, x, k)
  {
    hide Com, Com24, EvenBoxes, OddBoxes, Turn, Xor;
    NotEvenBoxes(s, x, k.even);
    NotTurn(x);
    NotOddBoxes(s, Turn(x), k.odd);
  }

  lemma NotRound(s: Boxes, k: Subkey, h: Halves)
    ensures Round(s, NotKey(k), Not(h)) == Not(Round(s, k, h))
  {
    hide Mix, NotKey;
    NotMix(s, h.right, k);
  }

  lemma {:induction false} NotRounds(s: Boxes, ks: seq<Subkey>, ns: seq<Subkey>, h: Halves)
    requires |ns| == |ks| && forall i :: 0 <= i < |ks| ==> ns[i] == NotKey(ks[i])
    ensures Rounds(s, ns, Not(h)) == Not(Rounds(s, ks, h))
  {
    hide Round, NotKey, Not;
    if ks != [] {
      NotRound(s, ks[0], h);
      NotRounds(s, ks[1..], ns[1..], Round(s, ks[0], h));
    }
  }

  /** Encrypting the complement of a block under the complement of a key gives the complement. */
  lemma Complementation(s: Boxes, key: Byte8, data: Byte8)
    ensures Crypt(s, Schedule(NotBytes(key)), NotBytes(data)) == NotBytes(Crypt(s, Schedule(key), data))
  {
    hide Read, Write, InitialPermutation, FinalPermutation, Rounds, Schedule, NotBytes, NotKey, Com;
    var ks, ns := Schedule(key), Schedule(NotBytes(key));
    var h := Read(data);
    NotSchedule(key);
    NotRead(data);
    NotPermutations(h);
    NotRounds(s, ks, ns, InitialPermutation(h));
    var g := Rounds(s, ks, InitialPermutation(h));
    assert Flip(Not(g)) == Not(Flip(g));
    NotPermutations(Flip(g));
    NotWrite(FinalPermutation(Flip(g)));
  }
}
