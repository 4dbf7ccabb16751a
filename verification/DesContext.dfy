/** The contexts of single and Triple-DES, their key setup, and the cipher as the program runs it. */
module DesContext {
  import opened Des
  import opened DesKeys

  /** The subkeys in an array of words, two to a round. */
  function Subkeys(a: seq<bv32>): (ks: seq<Subkey>)
    requires |a| % 2 == 0
    ensures |ks| == |a| / 2
  {
    seq(|a| / 2, i requires 0 <= i < |a| / 2 => Subkey(a[2 * i], a[2 * i + 1]))
  }

  /** Three times sixteen rounds, the halves changing roles in the middle. */
  function TripleRounds(s: Boxes, ks: seq<Subkey>, h: Halves): Halves
    requires |ks| == 48
  {
    Rounds(s, ks[32..], Flip(Rounds(s, ks[16..32], Flip(Rounds(s, ks[..16], h)))))
  }

  function TripleCrypt(s: Boxes, ks: seq<Subkey>, data: Byte8): Byte8
    requires |ks| == 48
  {
    Write(FinalPermutation(Flip(TripleRounds(s, ks, InitialPermutation(Read(data))))))
  }

  // What the subkeys of a context are.

  function Encrypting(k1: Byte8, k2: Byte8, k3: Byte8): (ks: seq<Subkey>)
    ensures |ks| == 48
  {
    Schedule(k1) + Reversed(Schedule(k2)) + Schedule(k3)
  }

  function Decrypting(k1: Byte8, k2: Byte8, k3: Byte8): (ks: seq<Subkey>)
    ensures |ks| == 48
  {
    Reversed(Schedule(k3)) + Schedule(k2) + Reversed(Schedule(k1))
  }

  // The fused form.

  /** The 48 rounds between one pair of permutations are three runs of the whole cipher. */
  lemma FusedIsThree(s: Boxes, a: seq<Subkey>, b: seq<Subkey>, c: seq<Subkey>, data: Byte8)
    requires |a| == |b| == |c| == 16
    ensures TripleCrypt(s, a + b + c, data) == Crypt(s, c, Crypt(s, b, Crypt(s, a, data)))
  {
    hide Write, Read, InitialPermutation, FinalPermutation, Rounds;
    var ks := a + b + c;
    assert ks[..16] == a && ks[16..32] == b && ks[32..] == c;
    var x := Flip(Rounds(s, a, InitialPermutation(Read(data))));
    var y := Flip(Rounds(s, b, x));
    ReadWrite(FinalPermutation(x));
    PermutationsInverse(x);
    ReadWrite(FinalPermutation(y));
    PermutationsInverse(y);
  }

  /** Triple-DES encrypts with the first key, decrypts with the second and encrypts with the third. */
  lemma TripleIs(s: Boxes, k1: Byte8, k2: Byte8, k3: Byte8, data: Byte8)
    ensures TripleCrypt(s, Encrypting(k1, k2, k3), data)
         == Crypt(s, Schedule(k3), Crypt(s, Reversed(Schedule(k2)), Crypt(s, Schedule(k1), data)))
    ensures TripleCrypt(s, Decrypting(k1, k2, k3), data)
         == Crypt(s, Reversed(Schedule(k1)), Crypt(s, Schedule(k2), Crypt(s, Reversed(Schedule(k3)), data)))
  {
    hide TripleCrypt, Crypt, Schedule;
    FusedIsThree(s, Schedule(k1), Reversed(Schedule(k2)), Schedule(k3), data);
    FusedIsThree(s, Reversed(Schedule(k3)), Schedule(k2), Reversed(Schedule(k1)), data);
  }

  lemma CryptRedoes(s: Boxes, ks: seq<Subkey>, data: Byte8)
    ensures Crypt(s, ks, Crypt(s, Reversed(ks), data)) == data
  {
    hide Crypt;
    ReversedTwice(ks);
    CryptUndoes(s, Reversed(ks), data);
  }

  /** Decryption mode undoes encryption mode, and the other way round. */
  lemma TripleUndoes(s: Boxes, k1: Byte8, k2: Byte8, k3: Byte8, data: Byte8)
    ensures TripleCrypt(s, Decrypting(k1, k2, k3), TripleCrypt(s, Encrypting(k1, k2, k3), data)) == data
    ensures TripleCrypt(s, Encrypting(k1, k2, k3), TripleCrypt(s, Decrypting(k1, k2, k3), data)) == data
  {
    hide TripleCrypt, Crypt, Schedule, Reversed, Encrypting, Decrypting;
    var s1, s2, s3 := Schedule(k1), Schedule(k2), Schedule(k3);
    var e, d := TripleCrypt(s, Encrypting(k1, k2, k3), data), TripleCrypt(s, Decrypting(k1, k2, k3), data);
    TripleIs(s, k1, k2, k3, data);
    TripleIs(s, k1, k2, k3, e);
    TripleIs(s, k1, k2, k3, d);
    var x := Crypt(s, s1, data);
    var y := Crypt(s, Reversed(s2), x);
    CryptUndoes(s, s3, y);
    CryptRedoes(s, s2, x);
    CryptUndoes(s, s1, data);
    var v := Crypt(s, Reversed(s3), data);
    var w := Crypt(s, s2, v);
    CryptRedoes(s, s1, w);
    CryptUndoes(s, s2, v);
    CryptRedoes(s, s3, data);
  }

  /** With one key three times, Triple-DES is DES. */
  lemma TripleCollapses(s: Boxes, k: Byte8, data: Byte8)
    ensures TripleCrypt(s, Encrypting(k, k, k), data) == Crypt(s, Schedule(k), data)
    ensures TripleCrypt(s, Decrypting(k, k, k), data) == Crypt(s, Reversed(Schedule(k)), data)
  {
    hide TripleCrypt, Crypt, Schedule, Reversed, Encrypting, Decrypting;
    TripleIs(s, k, k, k, data);
    CryptUndoes(s, Schedule(k), data);
    CryptUndoes(s, Schedule(k), Crypt(s, Reversed(Schedule(k)), data));
    CryptRedoes(s, Schedule(k), data);
  }

  // The key schedule and the rounds as the program runs them.

  /** Fills 32 words of `subkey` from index `at` on. */
  method KeySchedule(key: Byte8, subkey: array<bv32>, at: nat)
    requires at + 32 <= subkey.Length
    modifies subkey
    ensures Subkeys(subkey[at..at + 32]) == Schedule(key)
    ensures forall j :: 0 <= j < subkey.Length && !(at <= j < at + 32) ==> subkey[j] == old(subkey[j])
  {
    hide Choose, Rotate, KeyHalves, Read, SubkeysFrom;
    ghost var h0 := KeyHalves(Read(key));
    var h := KeyHalves(Read(key));
    var k := at;
    for round := 0 to 16
      invariant k == at + 2 * round && h == Turned(h0, round)
      invariant forall i :: 0 <= i < round ==>
        subkey[at + 2 * i] == Schedule(key)[i].even && subkey[at + 2 * i + 1] == Schedule(key)[i].odd
      invariant forall j :: 0 <= j < subkey.Length && !(at <= j < k) ==> subkey[j] == old(subkey[j])
    {
      SubkeyAt(h0, 0, round);
      h := Rotate(ROTATE_TAB[round], h);
      subkey[k] := Choose(h).even;
      subkey[k + 1] := Choose(h).odd;
      k := k + 2;
    }
  }

  /** Where word `j` of a reversed schedule comes from: the pairs change places, not the words of a pair. */
  function Mirror(j: nat): (m: nat)
    requires j < 32
    ensures m < 32
  {
    if j % 2 == 0 then 30 - j else 32 - j
  }

  /** The first `n` words of `d` from `da` on are the schedule in `e` from `ea` on, reversed. */
  predicate Mirrored(d: seq<bv32>, da: nat, e: seq<bv32>, ea: nat, n: nat)
    requires n <= 32 && da + 32 <= |d| && ea + 32 <= |e|
  {
    forall j: nat :: j < n ==> d[da + j] == e[ea + Mirror(j)]
  }

  lemma MirrorReverses(d: seq<bv32>, da: nat, e: seq<bv32>, ea: nat)
    requires da + 32 <= |d| && ea + 32 <= |e| && Mirrored(d, da, e, ea, 32)
    ensures Subkeys(d[da..da + 32]) == Reversed(Subkeys(e[ea..ea + 32]))
  {
    var x, y := Subkeys(d[da..da + 32]), Reversed(Subkeys(e[ea..ea + 32]));
    forall i | 0 <= i < 16 ensures x[i] == y[i] {
      assert d[da + 2 * i] == e[ea + Mirror(2 * i)];
      assert d[da + (2 * i + 1)] == e[ea + Mirror(2 * i + 1)];
    }
  }

  lemma Thirds(a: seq<bv32>)
    requires |a| == 96
    ensures Subkeys(a) == Subkeys(a[0..32]) + Subkeys(a[32..64]) + Subkeys(a[64..96])
  {
  }

  lemma TwoRounds(s: Boxes, ks: seq<Subkey>, i: nat, h: Halves)
    requires i + 2 <= |ks|
    ensures Rounds(s, ks[..i + 2], h) == Round(s, ks[i + 1], Round(s, ks[i], Rounds(s, ks[..i], h)))
  {
    hide Round;
    assert ks[..i + 2] == ks[..i] + [ks[i], ks[i + 1]];
    RoundsOf(s, ks[..i], [ks[i], ks[i + 1]], h);
    var x := Rounds(s, ks[..i], h);
    assert [ks[i], ks[i + 1]][1..] == [ks[i + 1]] && [ks[i + 1]][1..] == [];
    assert Rounds(s, [ks[i + 1]], Round(s, ks[i], x)) == Round(s, ks[i + 1], Round(s, ks[i], x));
  }

  /** One macro round: the new value of the word `to`. */
  method DesRound(s: Boxes, from: bv32, to: bv32, even: bv32, odd: bv32) returns (r: bv32)
    ensures Halves(from, r) == Round(s, Subkey(even, odd), Halves(to, from))
  {
    hide EvenBoxes, OddBoxes, Turn, Xor;
    var work := Xor(from, even);
    r := Xor(to, EvenBoxes(s, work));
    work := Xor(Turn(from), odd);
    r := Xor(r, OddBoxes(s, work));
    XorOf(to, EvenBoxes(s, Xor(from, even)), OddBoxes(s, Xor(Turn(from), odd)));
  }

  lemma XorOf(x: bv32, y: bv32, z: bv32)
    ensures Xor(Xor(x, y), z) == Xor(x, Xor(y, z))
  {
  }

  /** Sixteen rounds, `right` first feeding `left`, from index `k` of the subkey words. */
  method SixteenRounds(s: Boxes, left: bv32, right: bv32, keys: array<bv32>, k: nat) returns (l: bv32, r: bv32)
    requires k % 2 == 0 && k + 32 <= keys.Length && keys.Length % 2 == 0
    ensures Halves(l, r) == Rounds(s, Subkeys(keys[..])[k / 2..k / 2 + 16], Halves(left, right))
  {
    hide Round;
    ghost var ks := Subkeys(keys[..])[k / 2..k / 2 + 16];
    l, r := left, right;
    for i := 0 to 8
      invariant Halves(l, r) == Rounds(s, ks[..2 * i], Halves(left, right))
    {
      TwoRounds(s, ks, 2 * i, Halves(left, right));
      l := DesRound(s, r, l, keys[k + 4 * i], keys[k + 4 * i + 1]);
      r := DesRound(s, l, r, keys[k + 4 * i + 2], keys[k + 4 * i + 3]);
    }
    assert ks[..16] == ks;
  }

  /** The context of single DES. */
  class DesCtx {
    const encrypt: array<bv32>
    const decrypt: array<bv32>

    ghost predicate Valid()
      reads this
    {
      encrypt.Length == decrypt.Length == 32 && encrypt != decrypt
    }

    constructor ()
      ensures Valid() && fresh(encrypt) && fresh(decrypt)
    {
      encrypt := new bv32[32];
      decrypt := new bv32[32];
    }

    /** The decryption subkeys are the encryption subkeys in reverse. */
    method SetKey(key: Byte8)
      requires Valid()
      modifies encrypt, decrypt
      ensures Subkeys(encrypt[..]) == Schedule(key)
      ensures Subkeys(decrypt[..]) == Reversed(Schedule(key))
    {
      hide Schedule;
      KeySchedule(key, encrypt, 0);
      var i := 0;
      while i < 32
        invariant i <= 32 && i % 2 == 0
        invariant Subkeys(encrypt[0..32]) == Schedule(key)
        invariant Mirrored(decrypt[..], 0, encrypt[..], 0, i)
      {
        decrypt[i] := encrypt[30 - i];
        decrypt[i + 1] := encrypt[31 - i];
        i := i + 2;
      }
      MirrorReverses(decrypt[..], 0, encrypt[..], 0);
      assert encrypt[0..32] == encrypt[..] && decrypt[0..32] == decrypt[..];
    }

    /** Encrypts, or in the other mode decrypts, one block; `to` may be `from`. */
    method EcbCrypt(s: Boxes, from: array<bv8>, to: array<bv8>, mode: bool)
      requires Valid() && from.Length >= 8 && to.Length >= 8
      modifies to
      ensures to[..8] == Crypt(s, Subkeys(old((if mode then decrypt else encrypt)[..])), old(from[..8]))
      ensures to[8..] == old(to[8..])
    {
      hide Read, Write, InitialPermutation, FinalPermutation;
      var keys := if mode then decrypt else encrypt;
      var data: Byte8 := from[..8];
      var h := InitialPermutation(Read(data));
      var left, right := SixteenRounds(s, h.left, h.right, keys, 0);
      assert Subkeys(keys[..])[0..16] == Subkeys(keys[..]);
      var out := Write(FinalPermutation(Halves(right, left)));
      WriteBlock(out, to);
    }
  }

  method WriteBlock(out: Byte8, to: array<bv8>)
    requires to.Length >= 8
    modifies to
    ensures to[..8] == out && to[8..] == old(to[8..])
  {
    to[0], to[1], to[2], to[3] := out[0], out[1], out[2], out[3];
    to[4], to[5], to[6], to[7] := out[4], out[5], out[6], out[7];
  }

  /** `a` and `b` agree from `lo` up to `hi`. */
  ghost predicate Kept(a: seq<bv32>, b: seq<bv32>, lo: nat, hi: nat) {
    |a| == |b| && hi <= |a| && forall j :: lo <= j < hi ==> a[j] == b[j]
  }

  lemma KeptOn(a: seq<bv32>, b: seq<bv32>, c: seq<bv32>, lo: nat, hi: nat)
    requires Kept(a, b, lo, hi) && Kept(b, c, lo, hi)
    ensures Kept(a, c, lo, hi)
  {
  }

  lemma KeptSlice(a: seq<bv32>, b: seq<bv32>, lo: nat, hi: nat)
    requires Kept(a, b, lo, hi) && lo <= hi
    ensures a[lo..hi] == b[lo..hi]
  {
  }

  /** Part of a reversed schedule: the first `n` words from `da` on mirror those of `e` from `ea` on. */
  ghost predicate Part(d: seq<bv32>, da: nat, e: seq<bv32>, ea: nat, n: nat) {
    n <= 32 && da + 32 <= |d| && ea + 32 <= |e| && Mirrored(d, da, e, ea, n)
  }

  lemma PartMore(d: seq<bv32>, da: nat, e: seq<bv32>, ea: nat, i: nat, x: bv32, y: bv32)
    requires Part(d, da, e, ea, i) && i + 2 <= 32 && x == e[ea + Mirror(i)] && y == e[ea + Mirror(i + 1)]
    ensures Part(d[da + i := x][da + i + 1 := y], da, e, ea, i + 2)
  {
    hide Mirror;
  }

  lemma PartStays(d: seq<bv32>, d': seq<bv32>, da: nat, e: seq<bv32>, ea: nat, n: nat)
    requires Part(d, da, e, ea, n) && Kept(d', d, da, da + 32)
    ensures Part(d', da, e, ea, n)
  {
    hide Mirror;
  }

  lemma PartOf(d: seq<bv32>, da: nat, e: seq<bv32>, e': seq<bv32>, ea: nat, n: nat)
    requires Part(d, da, e, ea, n) && Kept(e', e, ea, ea + 32)
    ensures Part(d, da, e', ea, n)
  {
    hide Mirror;
    forall j: nat | j < n ensures d[da + j] == e'[ea + Mirror(j)] {
      assert d[da + j] == e[ea + Mirror(j)];
    }
  }

  lemma KeptWord(a: seq<bv32>, b: seq<bv32>, lo: nat, hi: nat, j: nat)
    requires Kept(a, b, lo, hi) && lo <= j < hi
    ensures a[j] == b[j]
  {
  }

  /** The words that copies of the first `n` from 0 on have from 64 on. */
  ghost predicate Copied(e: seq<bv32>, e0: seq<bv32>, n: nat) {
    |e| == |e0| == 96 && n <= 32 && forall j :: 0 <= j < n ==> e[64 + j] == e0[j]
  }

  lemma CopiedMore(e: seq<bv32>, e0: seq<bv32>, i: nat)
    requires Copied(e, e0, i) && Kept(e, e0, 0, 32) && i + 2 <= 32
    ensures Copied(e[64 + i := e[i]][64 + i + 1 := e[i + 1]], e0, i + 2)
  {
  }

  lemma CopiedStays(e: seq<bv32>, e': seq<bv32>, e0: seq<bv32>, n: nat)
    requires Copied(e, e0, n) && Kept(e', e, 64, 96)
    ensures Copied(e', e0, n)
  {
  }

  lemma CopiedSlice(e: seq<bv32>, e0: seq<bv32>)
    requires Copied(e, e0, 32)
    ensures e[64..96] == e0[0..32]
  {
    assert forall j :: 0 <= j < 32 ==> e[64..96][j] == e[64 + j];
  }

  lemma PartOfCopy(d: seq<bv32>, e0: seq<bv32>, e: seq<bv32>)
    requires Part(d, 0, e0, 0, 32) && Copied(e, e0, 32)
    ensures Part(d, 0, e, 64, 32)
  {
    hide Mirror;
    forall j: nat | j < 32 ensures d[0 + j] == e[64 + Mirror(j)] {
      assert d[0 + j] == e0[0 + Mirror(j)];
    }
  }

  lemma PartMirrors(d: seq<bv32>, e: seq<bv32>, i: nat)
    requires Part(d, 0, e, 0, i + 2)
    ensures d[i] == e[0 + Mirror(i)] && d[i + 1] == e[0 + Mirror(i + 1)]
  {
    hide Mirror;
    assert d[0 + i] == e[0 + Mirror(i)] && d[0 + (i + 1)] == e[0 + Mirror(i + 1)];
  }

  lemma NothingMirrored(d: seq<bv32>, da: nat, e: seq<bv32>, ea: nat)
    requires da + 32 <= |d| && ea + 32 <= |e|
    ensures Mirrored(d, da, e, ea, 0)
  {
  }

  /** Moves one pair of subkey words to its place in the reversed schedule. */
  method MirrorPair(d: array<bv32>, da: nat, e: array<bv32>, ea: nat, i: nat)
    requires i + 2 <= 32 && i % 2 == 0 && d != e && da + 32 <= d.Length && ea + 32 <= e.Length
    modifies d
    ensures d[..] == old(d[..])[da + i := e[ea + Mirror(i)]][da + i + 1 := e[ea + Mirror(i + 1)]]
  {
    d[da + i] := e[ea + 30 - i];
    d[da + i + 1] := e[ea + 31 - i];
  }

  /** Moves one pair, and the part of the reversed schedule grows. */
  method GrowPart(d: array<bv32>, da: nat, e: array<bv32>, ea: nat, i: nat, ghost e0: seq<bv32>)
    requires i + 2 <= 32 && i % 2 == 0 && d != e && d.Length == e.Length == 96
    requires Part(d[..], da, e0, ea, i) && Kept(e[..], e0, ea, ea + 32)
    modifies d
    ensures Part(d[..], da, e0, ea, i + 2)
    ensures forall lo: nat, hi: nat :: hi <= 96 && (hi <= da || da + 32 <= lo) ==> Kept(d[..], old(d[..]), lo, hi)
  {
    hide Mirrored, Mirror;
    KeptWord(e[..], e0, ea, ea + 32, ea + Mirror(i));
    KeptWord(e[..], e0, ea, ea + 32, ea + Mirror(i + 1));
    PartMore(d[..], da, e0, ea, i, e[ea + Mirror(i)], e[ea + Mirror(i + 1)]);
    MirrorPair(d, da, e, ea, i);
  }

  /** Copies one pair of the first subkeys to the third. */
  method CopyPair(d: array<bv32>, i: nat)
    requires i + 2 <= 32 && d.Length == 96
    modifies d
    ensures d[..] == old(d[..])[64 + i := old(d[i])][64 + i + 1 := old(d[i + 1])]
    ensures forall lo: nat, hi: nat :: hi <= 64 ==> Kept(d[..], old(d[..]), lo, hi)
  {
    d[i + 64] := d[i];
    d[i + 65] := d[i + 1];
  }

  /** The context of Triple-DES. */
  class TripleCtx {
    const encrypt: array<bv32>
    const decrypt: array<bv32>

    ghost predicate Valid()
      reads this
    {
      encrypt.Length == decrypt.Length == 96 && encrypt != decrypt
    }

    constructor ()
      ensures Valid() && fresh(encrypt) && fresh(decrypt)
    {
      encrypt := new bv32[96];
      decrypt := new bv32[96];
    }

    method Set3Keys(key1: Byte8, key2: Byte8, key3: Byte8)
      requires Valid()
      modifies encrypt, decrypt
      ensures Subkeys(encrypt[..]) == Encrypting(key1, key2, key3)
      ensures Subkeys(decrypt[..]) == Decrypting(key1, key2, key3)
    {
      hide Schedule, Subkeys;
      KeySchedule(key1, encrypt, 0);
      ghost var e := encrypt[0..32];
      KeySchedule(key2, decrypt, 32);
      KeySchedule(key3, encrypt, 64);
      assert encrypt[0..32] == e;
      Fill3();
      TripleSubkeys(encrypt[..], decrypt[..], key1, key2, key3);
    }

    /** How far the loop of the three-key setup is, given the arrays before it. */
    ghost predicate Filled3(e0: seq<bv32>, d0: seq<bv32>, i: nat)
      reads this, encrypt, decrypt
    {
      && Valid()
      && Kept(encrypt[..], e0, 0, 32) && Kept(encrypt[..], e0, 64, 96) && Kept(decrypt[..], d0, 32, 64)
      && Part(decrypt[..], 0, e0, 64, i) && Part(encrypt[..], 32, d0, 32, i) && Part(decrypt[..], 64, e0, 0, i)
    }

    method FillPair3(i: nat, ghost e0: seq<bv32>, ghost d0: seq<bv32>)
      requires Filled3(e0, d0, i) && i + 2 <= 32 && i % 2 == 0
      modifies encrypt, decrypt
      ensures Filled3(e0, d0, i + 2)
    {
      hide Kept, Part;
      ghost var e, d := encrypt[..], decrypt[..];
      GrowPart(decrypt, 0, encrypt, 64, i, e0);
      ghost var d1 := decrypt[..];
      KeptOn(d1, d, d0, 32, 64);
      PartStays(d, d1, 64, e0, 0, i);
      GrowPart(encrypt, 32, decrypt, 32, i, d0);
      ghost var e1 := encrypt[..];
      KeptOn(e1, e, e0, 0, 32);
      KeptOn(e1, e, e0, 64, 96);
      GrowPart(decrypt, 64, encrypt, 0, i, e0);
      KeptOn(decrypt[..], d1, d0, 32, 64);
      PartStays(d1, decrypt[..], 0, e0, 64, i + 2);
    }

    /** The loop of the three-key setup. */
    method Fill3()
      requires Valid()
      modifies encrypt, decrypt
      ensures encrypt[0..32] == old(encrypt[0..32]) && encrypt[64..96] == old(encrypt[64..96])
      ensures decrypt[32..64] == old(decrypt[32..64])
      ensures Mirrored(decrypt[..], 0, encrypt[..], 64, 32)
      ensures Mirrored(encrypt[..], 32, decrypt[..], 32, 32)
      ensures Mirrored(decrypt[..], 64, encrypt[..], 0, 32)
    {
      hide Mirror, Mirrored;
      ghost var e0, d0 := encrypt[..], decrypt[..];
      var i := 0;
      assert Part(decrypt[..], 0, e0, 64, 0) && Part(encrypt[..], 32, d0, 32, 0) && Part(decrypt[..], 64, e0, 0, 0) by {
        NothingMirrored(decrypt[..], 0, e0, 64);
        NothingMirrored(encrypt[..], 32, d0, 32);
        NothingMirrored(decrypt[..], 64, e0, 0);
      }
      while i < 32
        invariant i <= 32 && i % 2 == 0 && Filled3(e0, d0, i)
      {
        FillPair3(i, e0, d0);
        i := i + 2;
      }
      PartOf(decrypt[..], 0, e0, encrypt[..], 64, 32);
      PartOf(encrypt[..], 32, d0, decrypt[..], 32, 32);
      PartOf(decrypt[..], 64, e0, encrypt[..], 0, 32);
      KeptSlice(encrypt[..], e0, 0, 32);
      KeptSlice(encrypt[..], e0, 64, 96);
      KeptSlice(decrypt[..], d0, 32, 64);
    }

    method Set2Keys(key1: Byte8, key2: Byte8)
      requires Valid()
      modifies encrypt, decrypt
      ensures Subkeys(encrypt[..]) == Encrypting(key1, key2, key1)
      ensures Subkeys(decrypt[..]) == Decrypting(key1, key2, key1)
    {
      hide Schedule, Subkeys;
      KeySchedule(key1, encrypt, 0);
      KeySchedule(key2, decrypt, 32);
      Fill2();
      TripleSubkeys(encrypt[..], decrypt[..], key1, key2, key1);
    }

    /** How far the loop of the two-key setup is, given the arrays before it. */
    ghost predicate Filled2(e0: seq<bv32>, d0: seq<bv32>, i: nat)
      reads this, encrypt, decrypt
    {
      && Valid()
      && Kept(encrypt[..], e0, 0, 32) && Copied(encrypt[..], e0, i) && Kept(decrypt[..], d0, 32, 64)
      && Part(decrypt[..], 0, e0, 0, i) && Part(encrypt[..], 32, d0, 32, i) && Part(decrypt[..], 64, e0, 0, i)
    }

    method FillPair2(i: nat, ghost e0: seq<bv32>, ghost d0: seq<bv32>)
      requires Filled2(e0, d0, i) && i + 2 <= 32 && i % 2 == 0
      modifies encrypt, decrypt
      ensures Filled2(e0, d0, i + 2)
    {
      hide Kept, Part, Copied, Mirror;
      ghost var e, d := encrypt[..], decrypt[..];
      GrowPart(decrypt, 0, encrypt, 0, i, e0);
      ghost var d1 := decrypt[..];
      KeptOn(d1, d, d0, 32, 64);
      PartStays(d, d1, 64, e0, 0, i);
      GrowPart(encrypt, 32, decrypt, 32, i, d0);
      ghost var e1 := encrypt[..];
      KeptOn(e1, e, e0, 0, 32);
      CopiedStays(e, e1, e0, i);
      CopiedMore(e1, e0, i);
      CopyPair(encrypt, i);
      KeptOn(encrypt[..], e1, e0, 0, 32);
      PartStays(e1, encrypt[..], 32, d0, 32, i + 2);
      PartMirrors(d1, e0, i);
      PartMore(d1, 64, e0, 0, i, d1[i], d1[i + 1]);
      CopyPair(decrypt, i);
      KeptOn(decrypt[..], d1, d0, 32, 64);
      PartStays(d1, decrypt[..], 0, e0, 0, i + 2);
    }

    /** The loop of the two-key setup: the third key is a copy of the first. */
    method Fill2()
      requires Valid()
      modifies encrypt, decrypt
      ensures encrypt[0..32] == encrypt[64..96] == old(encrypt[0..32])
      ensures decrypt[32..64] == old(decrypt[32..64])
      ensures Mirrored(decrypt[..], 0, encrypt[..], 64, 32)
      ensures Mirrored(encrypt[..], 32, decrypt[..], 32, 32)
      ensures Mirrored(decrypt[..], 64, encrypt[..], 0, 32)
    {
      hide Mirror, Mirrored;
      ghost var e0, d0 := encrypt[..], decrypt[..];
      var i := 0;
      assert Part(decrypt[..], 0, e0, 0, 0) && Part(encrypt[..], 32, d0, 32, 0) && Part(decrypt[..], 64, e0, 0, 0) by {
        NothingMirrored(decrypt[..], 0, e0, 0);
        NothingMirrored(encrypt[..], 32, d0, 32);
        NothingMirrored(decrypt[..], 64, e0, 0);
      }
      while i < 32
        invariant i <= 32 && i % 2 == 0 && Filled2(e0, d0, i)
      {
        FillPair2(i, e0, d0);
        i := i + 2;
      }
      PartOf(encrypt[..], 32, d0, decrypt[..], 32, 32);
      PartOf(decrypt[..], 64, e0, encrypt[..], 0, 32);
      PartOfCopy(decrypt[..], e0, encrypt[..]);
      KeptSlice(encrypt[..], e0, 0, 32);
      CopiedSlice(encrypt[..], e0);
      KeptSlice(decrypt[..], d0, 32, 64);
    }

    /** The 48 rounds in one go; `to` may be `from`. */
    method EcbCrypt(s: Boxes, from: array<bv8>, to: array<bv8>, mode: bool)
      requires Valid() && from.Length >= 8 && to.Length >= 8
      modifies to
      ensures to[..8] == TripleCrypt(s, Subkeys(old((if mode then decrypt else encrypt)[..])), old(from[..8]))
      ensures to[8..] == old(to[8..])
    {
      hide Read, Write, InitialPermutation, FinalPermutation, Rounds;
      var keys := if mode then decrypt else encrypt;
      var data: Byte8 := from[..8];
      var h := InitialPermutation(Read(data));
      var left, right := SixteenRounds(s, h.left, h.right, keys, 0);
      right, left := SixteenRounds(s, right, left, keys, 32);
      left, right := SixteenRounds(s, left, right, keys, 64);
      ghost var ks := Subkeys(keys[..]);
      assert ks[0..16] == ks[..16] && ks[32..48] == ks[32..];
      var out := Write(FinalPermutation(Halves(right, left)));
      WriteBlock(out, to);
    }
  }

  /** The subkeys of both directions, from where the schedules and their reversals lie. */
  lemma TripleSubkeys(e: seq<bv32>, d: seq<bv32>, key1: Byte8, key2: Byte8, key3: Byte8)
    requires |e| == |d| == 96
    requires Subkeys(e[0..32]) == Schedule(key1) && Subkeys(d[32..64]) == Schedule(key2)
    requires Subkeys(e[64..96]) == Schedule(key3)
    requires Mirrored(d, 0, e, 64, 32) && Mirrored(e, 32, d, 32, 32) && Mirrored(d, 64, e, 0, 32)
    ensures Subkeys(e) == Encrypting(key1, key2, key3) && Subkeys(d) == Decrypting(key1, key2, key3)
  {
    hide Schedule, Subkeys, Mirrored, Reversed;
    MirrorReverses(d, 0, e, 64);
    MirrorReverses(e, 32, d, 32);
    MirrorReverses(d, 64, e, 0);
    Thirds(e);
    Thirds(d);
  }
}
