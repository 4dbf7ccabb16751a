/** The DES of the SMB hashes is that of the standard. */
module DesHashStandard {
  import opened ByteBits
  import S = DesStandard
  import opened DesHash

  // The maps.

  lemma InitialIs(i: nat)
    requires i < 64
    ensures |InitialPermuteMap| == 8 && Entry(InitialPermuteMap, i) == S.InitialFrom(i)
  {
  }

  /** The last map also exchanges the halves. */
  lemma FinalIs(i: nat)
    requires i < 64
    ensures |FinalPermuteMap| == 8 && Entry(FinalPermuteMap, i) == Across(S.FinalFrom(i))
  {
    hide FinalPermuteMap, InitialPermuteMap, Entry, S.FinalFrom, S.InitialFrom;
    FinalAfterInitial(i);
    InitialIs(Across(Entry(FinalPermuteMap, i)));
    S.FinalOfInitial(Across(Entry(FinalPermuteMap, i)));
  }

  /** Bit `p` of a key of seven bytes is this bit of the key of eight bytes. */
  function Widened(p: nat): nat {
    p + p / 7
  }

  lemma KeyIsLeft(i: nat)
    requires i < 28
    ensures |KeyPermuteMap| == 7 && Widened(Entry(KeyPermuteMap, i)) == S.KeyFrom(i)
  {
  }

  lemma KeyIsRight(i: nat)
    requires 28 <= i < 52
    ensures |KeyPermuteMap| == 7 && Widened(Entry(KeyPermuteMap, i)) == S.KeyFrom(i)
  {
  }

  lemma KeyIsLast(i: nat)
    requires 52 <= i < 56
    ensures |KeyPermuteMap| == 7 && Widened(Entry(KeyPermuteMap, i)) == S.KeyFrom(i)
  {
  }

  lemma CompressionUpper(i: nat)
    requires i < 24
    ensures |KeyCompression| == 6 && Entry(KeyCompression, i) == S.ChosenFrom(i)
  {
  }

  lemma CompressionLower(i: nat)
    requires 24 <= i < 48
    ensures |KeyCompression| == 6 && Entry(KeyCompression, i) == S.ChosenFrom(i)
  {
  }

  lemma Expansion0(i: nat)
    requires 0 <= i < 12
    ensures |DataExpansion| == 6 && Entry(DataExpansion, i) == S.ExpandedFrom(i / 6, i % 6)
  {
  }

  lemma Expansion1(i: nat)
    requires 12 <= i < 24
    ensures |DataExpansion| == 6 && Entry(DataExpansion, i) == S.ExpandedFrom(i / 6, i % 6)
  {
  }

  lemma Expansion2(i: nat)
    requires 24 <= i < 36
    ensures |DataExpansion| == 6 && Entry(DataExpansion, i) == S.ExpandedFrom(i / 6, i % 6)
  {
  }

  lemma Expansion3(i: nat)
    requires 36 <= i < 48
    ensures |DataExpansion| == 6 && Entry(DataExpansion, i) == S.ExpandedFrom(i / 6, i % 6)
  {
  }

  lemma ExpansionIs(i: nat)
    requires i < 48
    ensures |DataExpansion| == 6 && Entry(DataExpansion, i) == S.ExpandedFrom(i / 6, i % 6)
  {
    hide DataExpansion, Entry, S.ExpandedFrom;
    if i < 12 {
      Expansion0(i);
    } else if i < 24 {
      Expansion1(i);
    } else if i < 36 {
      Expansion2(i);
    } else {
      Expansion3(i);
    }
  }

  lemma PBoxIs(i: nat)
    requires i < 32
    ensures |PBox| == 4 && Entry(PBox, i) == S.MixedFrom(i)
  {
  }

  // The key.

  lemma OneTurn(k: Key)
    ensures Rotated(k, 1) == S.LeftShift(k)
  {
  }

  lemma RotatedZero(k: Key)
    ensures Rotated(k, 0) == k
  {
  }

  /** The rotations of `n` rounds. */
  lemma {:induction false} TurnsAre(k: Key, n: nat)
    requires n <= 16
    ensures Rotated(k, Turns(n)) == S.KeyAfter(k, n)
  {
    hide Rotated, S.LeftShift, Entry;
    if n == 0 {
      RotatedZero(k);
    } else {
      TurnsAre(k, n - 1);
      RoundTurns(n);
      var was := Rotated(k, Turns(n - 1));
      OneTurn(was);
      OneTurn(Rotated(was, 1));
      RotatedTwice(was, 1, 1);
      RotatedTwice(k, Turns(n - 1), Entry(KeyRotation, n - 1));
    }
  }

  lemma RoundTurns(n: nat)
    requires 1 <= n <= 16
    ensures |KeyRotation| == 2 && Entry(KeyRotation, n - 1) == if n in {1, 2, 9, 16} then 1 else 2
  {
  }

  /** A key of eight bytes without its parity bits. */
  ghost predicate Drops(narrow: Key, wide: S.Bits64) {
    forall p: nat :: p < 56 ==> narrow[p] == wide[Widened(p)]
  }

  lemma StartIs(narrow: Key, wide: S.Bits64)
    requires Drops(narrow, wide)
    ensures Start(narrow) == S.PermutedChoice1(wide)
  {
    hide KeyPermuteMap, Entry, S.KeyFrom, Widened;
    KeyPermuteMapInto();
    forall i: nat | i < 56 ensures Start(narrow)[i] == S.PermutedChoice1(wide)[i] {
      if i < 28 {
        KeyIsLeft(i);
      } else if i < 52 {
        KeyIsRight(i);
      } else {
        KeyIsLast(i);
      }
    }
  }

  lemma CompressedIs(k: Key)
    ensures |KeyCompression| == 6 && Into(KeyCompression, 56) && Picked(k, KeyCompression) == S.PermutedChoice2(k)
  {
    hide KeyCompression, Entry, S.ChosenFrom;
    KeyCompressionInto();
    forall i: nat | i < 48 ensures Picked(k, KeyCompression)[i] == S.PermutedChoice2(k)[i] {
      if i < 24 {
        CompressionUpper(i);
      } else {
        CompressionLower(i);
      }
    }
  }

  lemma SubkeysAre(narrow: Key, wide: S.Bits64)
    requires Drops(narrow, wide)
    ensures Subkeys(narrow) == S.RoundKeys(wide)
  {
    hide Picked, Rotated, Start, KeyCompression, S.PermutedChoice1, S.PermutedChoice2, S.KeyAfter, Turns, Drops;
    StartIs(narrow, wide);
    forall i | 0 <= i < 16 ensures Subkeys(narrow)[i] == S.RoundKeys(wide)[i] {
      TurnsAre(Start(narrow), i + 1);
      CompressedIs(Rotated(Start(narrow), Turns(i + 1)));
      assert Subkeys(narrow)[i] == SubkeyAfter(Start(narrow), i + 1);
    }
  }

  // The rounds.

  lemma AskedIs(from: Half, k: Subkey, g: nat)
    requires g < 8 && Into(DataExpansion, 32) && |DataExpansion| == 6
    ensures Xored(Picked(from, DataExpansion), k)[6 * g..6 * g + 6] == S.Six(from, k, g)
  {
    hide DataExpansion, Entry, Into, S.ExpandedFrom;
    var b := Xored(Picked(from, DataExpansion), k)[6 * g..6 * g + 6];
    forall j: nat | j < 6 ensures b[j] == S.Six(from, k, g)[j] {
      var i := 6 * g + j;
      assert i / 6 == g && i % 6 == j;
      ExpansionIs(i);
    }
  }

  lemma MixIs(s: Boxes, from: Half, k: Subkey)
    ensures Mix(s, from, k) == S.F(s, from, k)
  {
    hide DataExpansion, PBox, Entry, Into, S.MixedFrom, S.Six, Number, GetBit, Xored;
    DataExpansionInto();
    PBoxInto();
    forall i: nat | i < 32 ensures Mix(s, from, k)[i] == S.F(s, from, k)[i] {
      PBoxIs(i);
      AskedIs(from, k, S.MixedFrom(i) / 4);
    }
  }

  lemma RoundIs(s: Boxes, k: Subkey, b: Block)
    ensures Round(s, k, b) == S.Round(s, k, b)
  {
    hide Mix, S.F;
    MixIs(s, b[32..], k);
  }

  lemma {:induction false} RoundsAre(s: Boxes, ks: seq<Subkey>, b: Block)
    ensures Rounds(s, ks, b) == S.Rounds(s, ks, b)
  {
    hide Round, S.Round;
    if ks != [] {
      RoundsAre(s, ks[..|ks| - 1], b);
      RoundIs(s, ks[|ks| - 1], Rounds(s, ks[..|ks| - 1], b));
    }
  }

  lemma PermutationsAre(b: Block)
    ensures Initial(b) == S.Initial(b) && Final(b) == S.Final(b[32..] + b[..32])
  {
    hide InitialPermuteMap, FinalPermuteMap, Entry, Into, S.InitialFrom, S.FinalFrom;
    InitialPermuteMapInto();
    FinalPermuteMapInto();
    forall i: nat | i < 64
      ensures Initial(b)[i] == S.Initial(b)[i] && Final(b)[i] == S.Final(b[32..] + b[..32])[i]
    {
      InitialIs(i);
      FinalIs(i);
    }
  }

  lemma CryptIs(s: Boxes, ks: seq<Subkey>, b: Block)
    ensures Crypt(s, ks, b) == S.Crypt(s, ks, b)
  {
    hide Rounds, S.Rounds, Initial, S.Initial, Final, S.Final;
    PermutationsAre(b);
    RoundsAre(s, ks, Initial(b));
    PermutationsAre(Rounds(s, ks, Initial(b)));
  }

  // Bytes.

  lemma NarrowIs(i: nat)
    requires i < 56
    ensures |Map8to7| == 7 && Entry(Map8to7, i) == Widened(i) < 64
  {
  }

  lemma NarrowedDrops(key: Byte8)
    ensures Drops(Bits(Narrowed(key)), Bits(key))
  {
    hide Map8to7, Entry, Into, Octets, Bits;
    Map8to7Into();
    BitsOfOctets(Picked(Bits(key), Map8to7));
    forall p: nat | p < 56 ensures Bits(Narrowed(key))[p] == Bits(key)[Widened(p)] {
      NarrowIs(p);
    }
  }

  /** Every key of seven bytes is one of eight without its parity bits. */
  lemma WideKey(narrow: Byte7) returns (wide: Byte8)
    ensures Drops(Bits(narrow), Bits(wide)) && Narrowed(wide) == narrow
  {
    hide Map8to7, Entry, Into, Octets, GetBit;
    var k: Key := Bits(narrow);
    var b: S.Bits64 := seq(64, p requires 0 <= p < 64 => p % 8 != 7 && k[p - p / 8]);
    wide := Octets(b);
    BitsOfOctets(b);
    forall p: nat | p < 56 ensures k[p] == b[Widened(p)] {
    }
    NarrowedDrops(wide);
    assert Bits(Narrowed(wide)) == k;
    OctetsOfBits(narrow);
    OctetsOfBits(Narrowed(wide));
  }

  /** The hash enciphers its data as the standard says, under the key with parity bits put in. */
  lemma HashIsStandard(s: Boxes, narrow: Byte7, wide: Byte8, data: Byte8)
    requires Drops(Bits(narrow), Bits(wide))
    ensures Bits(Hash(s, narrow, data)) == S.Enciphered(s, Bits(wide), Bits(data))
  {
    hide Bits, Octets, Crypt, S.Crypt, Subkeys, S.RoundKeys, Drops;
    SubkeysAre(Bits(narrow), Bits(wide));
    CryptIs(s, Subkeys(Bits(narrow)), Bits(data));
    BitsOfOctets(Crypt(s, Subkeys(Bits(narrow)), Bits(data)));
  }
}
