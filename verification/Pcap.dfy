/** The window through which a capture file is read. */
module Pcap {
  import opened Arithmetic

  type Byte = x: int | 0 <= x < 256

  const FILE_HEADER := 24
  const RECORD_HEADER := 16
  const INT_MAX := 0x7fff_ffff

  /**
   * What became of one record.  `Refused` is the end of the file, or a packet that does not end before
   * its last byte.  `Outside` is a packet that was not refused but does not lie in the window, or whose
   * length is no int: from there on the program is outside the window it mapped.  The packet is empty if
   * it is longer than the buffer.
   */
  datatype Outcome = Refused | Outside | Record(header: seq<Byte>, len: nat, packet: seq<Byte>)

  function Word(a: int, b: int, c: int, d: int): int {
    0x100_0000 * a + 0x1_0000 * b + 0x100 * c + d
  }

  /** The length field of a record header, in the byte order of the file. */
  function InclLen(big: bool, h: seq<Byte>): nat
    requires |h| == RECORD_HEADER
  {
    if big then Word(h[8], h[9], h[10], h[11]) else Word(h[11], h[10], h[9], h[8])
  }

  // Records of a file, by position.

  /** The length of the packet of the record at `pos`. */
  function PacketAt(file: seq<Byte>, big: bool, pos: nat): nat
    requires pos + RECORD_HEADER <= |file|
  {
    InclLen(big, file[pos..pos + RECORD_HEADER])
  }

  /** From `pos` on the file has `n` records, each ending before its last byte, no packet longer than `most`. */
  predicate Records(file: seq<Byte>, big: bool, pos: nat, n: nat, most: int)
    decreases n
  {
    n > 0 ==>
      && pos + RECORD_HEADER < |file| && PacketAt(file, big, pos) <= most
      && pos + RECORD_HEADER + PacketAt(file, big, pos) < |file|
      && Records(file, big, pos + RECORD_HEADER + PacketAt(file, big, pos), n - 1, most)
  }

  /** The packets of the next `n` records. */
  function Packets(file: seq<Byte>, big: bool, pos: nat, n: nat, most: int): seq<seq<Byte>>
    requires Records(file, big, pos, n, most)
    decreases n
  {
    if n == 0 then []
    else
      var p := pos + RECORD_HEADER;
      var len := PacketAt(file, big, pos);
      [file[p..p + len]] + Packets(file, big, p + len, n - 1, most)
  }

  /** The position after them. */
  function After(file: seq<Byte>, big: bool, pos: nat, n: nat, most: int): nat
    requires Records(file, big, pos, n, most)
    decreases n
  {
    if n == 0 then pos
    else After(file, big, pos + RECORD_HEADER + PacketAt(file, big, pos), n - 1, most)
  }

  lemma FirstRecord(file: seq<Byte>, big: bool, pos: nat, n: nat, most: int)
    requires n > 0 && Records(file, big, pos, n, most)
    ensures pos + RECORD_HEADER < |file| && PacketAt(file, big, pos) <= most
    ensures var p := pos + RECORD_HEADER; var q := p + PacketAt(file, big, pos);
            && q < |file| && Records(file, big, q, n - 1, most)
            && Packets(file, big, pos, n, most) == [file[p..q]] + Packets(file, big, q, n - 1, most)
            && After(file, big, pos, n, most) == After(file, big, q, n - 1, most)
  {
    hide PacketAt;
    var p := pos + RECORD_HEADER;
    var q := p + PacketAt(file, big, pos);
    assert Records(file, big, q, n - 1, most);
  }

  lemma NoRecords(file: seq<Byte>, big: bool, pos: nat, most: int)
    ensures Records(file, big, pos, 0, most)
    ensures Packets(file, big, pos, 0, most) == [] && After(file, big, pos, 0, most) == pos
  {
  }

  // Records as they are written.

  /** A record header and its packet. */
  datatype Frame = Frame(header: seq<Byte>, packet: seq<Byte>)

  /** Byte `k` of a number, the lowest first. */
  function ByteOf(n: nat, k: nat): Byte {
    if k == 0 then n % 256 else ByteOf(n / 256, k - 1)
  }

  /** A header of 16 bytes has the length of the packet in the four from 8 on, in one of the two byte orders. */
  predicate HeaderFor(h: seq<Byte>, big: bool, n: nat) {
    && |h| == 16
    && (if big then h[11] == ByteOf(n, 0) && h[10] == ByteOf(n, 1) && h[9] == ByteOf(n, 2) && h[8] == ByteOf(n, 3)
        else h[8] == ByteOf(n, 0) && h[9] == ByteOf(n, 1) && h[10] == ByteOf(n, 2) && h[11] == ByteOf(n, 3))
  }

  predicate Written(big: bool, frames: seq<Frame>) {
    forall f :: f in frames ==> |f.packet| < 0x1_0000_0000 && HeaderFor(f.header, big, |f.packet|)
  }

  function BytesOf(frames: seq<Frame>): seq<Byte> {
    if frames == [] then [] else frames[0].header + frames[0].packet + BytesOf(frames[1..])
  }

  function PacketsOf(frames: seq<Frame>): seq<seq<Byte>> {
    seq(|frames|, i requires 0 <= i < |frames| => frames[i].packet)
  }

  /** The length is read as it was written, and no other length is written so. */
  lemma LengthRead(h: seq<Byte>, big: bool, n: nat)
    requires n < 0x1_0000_0000 && |h| == 16
    ensures HeaderFor(h, big, n) <==> InclLen(big, h) == n
  {
    DigitsOf(n);
    var w := InclLen(big, h);
    if w == n {
      DigitsOfWord(if big then h[8] else h[11], if big then h[9] else h[10], if big then h[10] else h[9],
                   if big then h[11] else h[8]);
    }
  }

  lemma LengthIs(h: seq<Byte>, big: bool)
    requires |h| == RECORD_HEADER
    ensures InclLen(big, h) < 0x1_0000_0000 && HeaderFor(h, big, InclLen(big, h))
  {
    LengthRead(h, big, InclLen(big, h));
  }

  lemma DigitsOf(n: nat)
    requires n < 0x1_0000_0000
    ensures Word(ByteOf(n, 3), ByteOf(n, 2), ByteOf(n, 1), ByteOf(n, 0)) == n
  {
    var m := n / 256;
    assert ByteOf(n, 1) == m % 256 && ByteOf(n, 2) == m / 256 % 256 && ByteOf(n, 3) == m / 256 / 256 % 256;
  }

  lemma Digit(q: nat, r: Byte)
    ensures (256 * q + r) / 256 == q && (256 * q + r) % 256 == r
  {
  }

  lemma DigitsOfWord(a: Byte, b: Byte, c: Byte, d: Byte)
    ensures var n := Word(a, b, c, d);
            n >= 0 && ByteOf(n, 3) == a && ByteOf(n, 2) == b && ByteOf(n, 1) == c && ByteOf(n, 0) == d
  {
    var k := 256 * a + b;
    var m := 256 * k + c;
    var n := 256 * m + d;
    assert n == Word(a, b, c, d);
    Digit(m, d);
    Digit(k, c);
    Digit(a, b);
    assert ByteOf(n, 1) == ByteOf(m, 0);
    assert ByteOf(n, 2) == ByteOf(m, 1) == ByteOf(k, 0);
    assert ByteOf(n, 3) == ByteOf(m, 2) == ByteOf(k, 1) == ByteOf(a, 0);
  }

  /** One record between other bytes. */
  lemma FrameAt(top: seq<Byte>, f: Frame, behind: seq<Byte>)
    requires |f.header| == 16
    ensures var file := top + f.header + f.packet + behind; var p := |top| + 16;
            file[|top|..p] == f.header && file[p..p + |f.packet|] == f.packet
  {
  }

  lemma Associative(a: seq<Byte>, b: seq<Byte>, c: seq<Byte>)
    ensures a + (b + c) == a + b + c
  {
  }

  lemma FramesJoin(top: seq<Byte>, frames: seq<Frame>, rest: seq<Byte>)
    requires frames != []
    ensures var next := top + frames[0].header + frames[0].packet;
            && top + BytesOf(frames) + rest == next + (BytesOf(frames[1..]) + rest)
            && top + BytesOf(frames) + rest == next + BytesOf(frames[1..]) + rest
  {
    var h, p, b := frames[0].header, frames[0].packet, BytesOf(frames[1..]);
    Associative(top, h + p, b);
    Associative(top, h, p);
    Associative(top + h + p, b, rest);
  }

  lemma WrittenFirst(big: bool, frames: seq<Frame>)
    requires Written(big, frames) && frames != []
    ensures var h := frames[0].header; |h| == RECORD_HEADER && InclLen(big, h) == |frames[0].packet|
    ensures Written(big, frames[1..])
    ensures PacketsOf(frames) == [frames[0].packet] + PacketsOf(frames[1..])
  {
    LengthRead(frames[0].header, big, |frames[0].packet|);
  }

  lemma NoPackets()
    ensures PacketsOf([]) == []
  {
  }

  /** Records written one after another, with more bytes behind them, are the records of the file. */
  lemma {:induction false} RecordsWritten(top: seq<Byte>, frames: seq<Frame>, rest: seq<Byte>, big: bool, most: int)
    requires Written(big, frames) && rest != [] && forall f :: f in frames ==> |f.packet| <= most
    ensures var file := top + BytesOf(frames) + rest;
            && Records(file, big, |top|, |frames|, most)
            && Packets(file, big, |top|, |frames|, most) == PacketsOf(frames)
    decreases |frames|
  {
    hide InclLen, BytesOf, Written, PacketsOf;
    if frames == [] {
      NoPackets();
    } else {
      var f := frames[0];
      WrittenFirst(big, frames);
      FramesJoin(top, frames, rest);
      FrameAt(top, f, BytesOf(frames[1..]) + rest);
      RecordsWritten(top + f.header + f.packet, frames[1..], rest, big, most);
    }
  }

  /** The start of the page of a position is a multiple of the page size. */
  lemma Aligned(x: nat, p: nat)
    requires p >= 1
    ensures x % p <= x && (x - x % p) % p == 0
  {
    assert x == (x / p) * p + x % p;
    DivideProduct(x / p, p);
  }

  lemma Window(file: seq<Byte>, o: nat, l: nat, c: nat, n: nat)
    requires o + l <= |file|
    ensures c + n <= l ==> file[o..o + l][c..c + n] == file[o + c..o + c + n]
  {
    if c + n <= l {
      var w := file[o..o + l];
      var v := w[c..c + n];
      assert forall i :: 0 <= i < n ==> v[i] == file[o + c + i];
    }
  }

  /** An open file; `cursor` is the distance of the read pointer from the start of the window. */
  class Reader {
    const file: seq<Byte>
    const big: bool
    const page: nat
    const mapSize: nat
    var offset: nat
    var length: nat
    var cursor: nat

    /** The window is a page-aligned part of the file, as long as it may be; of a short file it is all. */
    ghost predicate Valid()
      reads this
    {
      && 1 <= page <= mapSize && offset % page == 0
      && length == (if |file| >= mapSize + offset then mapSize else |file| - offset)
      && offset <= |file| && cursor <= length
      && (mapSize >= |file| ==> offset == 0)
    }

    /** The position in the file of the next byte. */
    ghost function Position(): nat
      reads this
    {
      offset + cursor
    }

    /** The `n` bytes under the read pointer. */
    ghost function Under(n: nat): seq<Byte>
      requires Valid() && cursor + n <= length
      reads this
    {
      file[offset..offset + length][cursor..cursor + n]
    }

    constructor (file: seq<Byte>, big: bool, page: nat, mapSize: nat)
      requires 1 <= page && page + FILE_HEADER <= mapSize && |file| >= FILE_HEADER
      ensures Valid() && Position() == FILE_HEADER
      ensures this.file == file && this.big == big && this.page == page && this.mapSize == mapSize
      ensures offset == 0
    {
      this.file, this.big, this.page, this.mapSize := file, big, page, mapSize;
      offset, length, cursor := 0, 0, 0;
      new;
      Preread();
      cursor := FILE_HEADER;
    }

    /** Maps a window that starts at the page of `offset`, and points into it. */
    method Preread()
      requires 1 <= page <= mapSize && offset <= |file| && (mapSize >= |file| ==> offset < page)
      modifies this
      ensures Valid() && Position() == old(offset) && cursor == old(offset) % page < page
    {
      Aligned(offset, page);
      if offset < page {
        SmallRemainder(offset, page);
      }
      var delta := offset % page;
      offset := offset - delta;
      if |file| >= mapSize + offset {
        length := mapSize;
      } else {
        length := |file| - offset;
      }
      cursor := delta;
    }

    /**
     * Asks for the next `len` bytes, without moving the position.  It is refused exactly if they do
     * not end inside the window, nor before the last byte of the file.  When it is granted they
     * are all in the window exactly if they were before, or fit from the page of the position on;
     * for a request of a window less a page they always are.
     */
    method Prepare(len: nat) returns (ok: bool)
      requires Valid()
      modifies this
      ensures Valid() && Position() == old(Position())
      ensures ok <==> old(cursor + len <= length) || old(Position()) + len < |file|
      ensures ok ==>
        (cursor + len <= length <==> old(cursor + len <= length) || old(Position()) % page + len <= mapSize)
      ensures ok && len <= mapSize - page ==> cursor + len <= length
      ensures cursor + len <= length ==> Position() + len <= |file| && Under(len) == file[Position()..Position() + len]
      ensures !ok || old(cursor + len <= length) ==> offset == old(offset)
    {
      Window(file, offset, length, cursor, len);
      if length - cursor >= len {
        return true;
      } else if |file| <= offset + cursor + len {
        return false;
      }
      offset := offset + cursor;
      Preread();
      Window(file, offset, length, cursor, len);
      return true;
    }

    /** Asks for bytes, copies them and moves past them. */
    method Take(len: nat) returns (ok: bool, bytes: seq<Byte>)
      requires Valid() && len <= mapSize - page
      modifies this
      ensures Valid() && Position() == old(Position()) + if ok then len else 0
      ensures old(Position()) + len < |file| ==> ok
      ensures ok ==> Position() <= |file| && bytes == file[old(Position())..Position()]
    {
      bytes := [];
      ok := Prepare(len);
      if ok {
        bytes := file[offset..offset + length][cursor..cursor + len];
        cursor := cursor + len;
      }
    }

    /** The longest packet that is sure to lie in a window. */
    ghost function Room(): int {
      if mapSize - page < INT_MAX then mapSize - page else INT_MAX
    }

    /** Reads or skips the packet of `incl` bytes after a header. */
    method ReadPacket(header: seq<Byte>, incl: nat, bufLen: nat) returns (r: Outcome)
      requires Valid()
      modifies this
      ensures Valid()
      ensures r.Record? ==>
        && old(Position()) + incl == Position() <= |file| && r.header == header && r.len == incl
        && r.packet == if incl <= bufLen then file[old(Position())..Position()] else []
      ensures !r.Record? ==> Position() == old(Position())
      ensures r.Outside? ==> incl > Room()
      ensures r.Refused? ==> old(Position()) + incl >= |file|
    {
      if incl > INT_MAX {
        return Outside;
      }
      var ok := Prepare(incl);
      if !ok {
        return Refused;
      }
      if cursor + incl > length {
        return Outside;
      }
      var packet := if incl <= bufLen then file[offset..offset + length][cursor..cursor + incl] else [];
      cursor := cursor + incl;
      r := Record(header, incl, packet);
    }

    /** Reads one record, whatever its length field says; a packet longer than the buffer is skipped. */
    method Read(bufLen: nat) returns (r: Outcome)
      requires Valid() && RECORD_HEADER <= mapSize - page
      modifies this
      ensures Valid()
      ensures var start := old(Position()); var p := start + RECORD_HEADER;
              r.Record? ==>
                && p <= |file| && r.header == file[start..p] && r.len == PacketAt(file, big, start)
                && Position() == p + r.len <= |file|
                && r.packet == if r.len <= bufLen then file[p..p + r.len] else []
      ensures r.Record? ==> HeaderFor(r.header, big, r.len)
      ensures var start := old(Position()); var p := start + RECORD_HEADER;
              r.Outside? ==> p <= |file| && PacketAt(file, big, start) > Room()
      ensures var start := old(Position()); var p := start + RECORD_HEADER;
              r.Refused? ==> p >= |file| || p + PacketAt(file, big, start) >= |file|
      ensures !r.Record? ==> Position() in {old(Position()), old(Position()) + RECORD_HEADER}
    {
      hide InclLen, HeaderFor;
      var ok, header := Take(RECORD_HEADER);
      if !ok {
        return Refused;
      }
      LengthIs(header, big);
      r := ReadPacket(header, InclLen(big, header), bufLen);
    }

    /** Back to the first record; a file that fits into one window keeps it. */
    method Rewind()
      requires Valid() && page + FILE_HEADER <= mapSize && |file| >= FILE_HEADER
      modifies this
      ensures Valid() && Position() == FILE_HEADER
    {
      if mapSize >= |file| {
        offset, cursor := 0, FILE_HEADER;
        return;
      }
      offset, length, cursor := 0, 0, 0;
      Preread();
      cursor := FILE_HEADER;
    }

    /** Any number of records, read one after another into a buffer as long as the longest. */
    method ReadRecords(count: nat) returns (packets: seq<seq<Byte>>)
      requires Valid() && RECORD_HEADER <= mapSize - page
      requires Records(file, big, Position(), count, Room())
      modifies this
      ensures Valid() && packets == Packets(file, big, old(Position()), count, Room())
      ensures Position() == After(file, big, old(Position()), count, Room())
    {
      hide Records, Packets, After, PacketAt;
      packets := [];
      ghost var most := Room();
      for i := 0 to count
        invariant Valid() && Records(file, big, Position(), count - i, most)
        invariant packets + Packets(file, big, Position(), count - i, most)
               == Packets(file, big, old(Position()), count, most)
        invariant After(file, big, Position(), count - i, most) == After(file, big, old(Position()), count, most)
      {
        FirstRecord(file, big, Position(), count - i, most);
        var r := Read(mapSize);
        packets := packets + [r.packet];
      }
      NoRecords(file, big, Position(), most);
    }
  }

  lemma SmallRemainder(x: nat, p: nat)
    requires x < p
    ensures x % p == x
  {
  }

  /** The first bytes of a file: the number by which the byte order is told. */
  predicate Magic(file: seq<Byte>, big: bool) {
    |file| >= 24 && file[..4] == if big then [0xa1, 0xb2, 0xc3, 0xd4] else [0xd4, 0xc3, 0xb2, 0xa1]
  }

  /** Opens a file on a little-endian host: null if it has no header, or one of another kind. */
  method Open(file: seq<Byte>, page: nat, mapSize: nat) returns (r: Reader?)
    requires 1 <= page && page + FILE_HEADER <= mapSize
    ensures r == null <==> !Magic(file, false) && !Magic(file, true)
    ensures r != null ==>
      && fresh(r) && r.Valid() && r.file == file && r.page == page && r.mapSize == mapSize
      && r.Position() == FILE_HEADER && Magic(file, r.big)
  {
    if |file| < FILE_HEADER {
      return null;
    }
    var magic := Word(file[3], file[2], file[1], file[0]);
    if magic == 0xa1b2c3d4 {
      r := new Reader(file, false, page, mapSize);
    } else if magic == 0xd4c3b2a1 {
      r := new Reader(file, true, page, mapSize);
    } else {
      return null;
    }
  }

  /** What is written behind the header does not change the byte order, of which there is one only. */
  lemma MagicKept(top: seq<Byte>, behind: seq<Byte>, big: bool)
    requires |top| == 24 && Magic(top, big)
    ensures Magic(top + behind, big) && !Magic(top + behind, !big)
  {
    assert (top + behind)[..4] == top[..4];
    assert top[..4][0] == if big then 0xa1 else 0xd4;
  }

  /** A file written in either byte order, with at least one byte behind its records, is read back packet by packet. */
  method ReadBack(top: seq<Byte>, frames: seq<Frame>, rest: seq<Byte>, big: bool, page: nat, mapSize: nat)
    returns (packets: seq<seq<Byte>>)
    requires 1 <= page && page + 24 <= mapSize && |top| == 24 && Magic(top, big)
    requires Written(big, frames) && rest != []
    requires forall f :: f in frames ==> |f.packet| <= mapSize - page && |f.packet| <= 0x7fff_ffff
    ensures packets == PacketsOf(frames)
  {
    hide Magic, BytesOf, Written, Records, Packets, PacketsOf;
    var file := top + BytesOf(frames) + rest;
    Associative(top, BytesOf(frames), rest);
    MagicKept(top, BytesOf(frames) + rest, big);
    var r := Open(file, page, mapSize);
    RecordsWritten(top, frames, rest, big, r.Room());
    packets := r.ReadRecords(|frames|);
  }

  /** Reading, rewinding and reading again gives the same packets. */
  method ReadTwice(r: Reader, count: nat) returns (once: seq<seq<Byte>>, again: seq<seq<Byte>>)
    requires r.Valid() && r.page + FILE_HEADER <= r.mapSize && r.Position() == FILE_HEADER <= |r.file|
    requires Records(r.file, r.big, FILE_HEADER, count, r.Room())
    modifies r
    ensures r.Valid() && once == again == Packets(r.file, r.big, FILE_HEADER, count, r.Room())
  {
    once := r.ReadRecords(count);
    r.Rewind();
    again := r.ReadRecords(count);
  }

  /** A file within one window is never mapped again, so all of it can be read. */
  method ReadWithin(r: Reader, len: nat) returns (ok: bool)
    requires r.Valid() && r.mapSize >= |r.file|
    modifies r
    ensures r.Valid() && r.offset == 0 && (ok <==> old(r.Position()) + len <= |r.file|)
  {
    ok := r.Prepare(len);
  }

  /** Of a file of 96 bytes, read through windows of 64, the packet that ends with it is refused. */
  method RefusedAtEnd(file: seq<Byte>) returns (r: Reader, ok: bool)
    requires |file| == 96 && PacketAt(file, false, FILE_HEADER) == 56
    ensures fresh(r) && r.Valid() && r.file == file
    ensures !ok && r.Position() == FILE_HEADER + RECORD_HEADER && r.Position() + 56 == |file|
  {
    r := new Reader(file, false, 4, 64);
    ok := r.Prepare(RECORD_HEADER);
    r.cursor := r.cursor + RECORD_HEADER;
    ok := r.Prepare(56);
  }
}
