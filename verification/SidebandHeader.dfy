/**
 The sideband message header: encoder, decoder, the round trips between them and the
 errors that the 4-bit checksum catches.
 */
module SidebandHeader {
  import opened Options
  import opened Gf2
  import opened Words
  import opened Crc

  datatype Header = Header(lct: nat, lcr: nat, rad: seq<Byte>, broadcast: bool, pathMsg: bool,
                           msgLen: nat, somt: bool, eomt: bool, seqno: nat)

  /** The ranges the header's wire fields can hold; `rad` is the part of the address that is sent. */
  predicate InRange(h: Header) {
    h.lct < 16 && h.lcr < 16 && |h.rad| == h.lct / 2 && h.msgLen < 64 && h.seqno < 2
  }

  function HeaderSize(h: Header): nat {
    3 + h.lct / 2
  }

  function Flag(b: bool, weight: nat): nat {
    if b then weight else 0
  }

  function FirstByte(h: Header): (b: Byte) {
    (h.lct % 16) * 16 + h.lcr % 16
  }

  function FlagByte(h: Header): (b: Byte) {
    Flag(h.broadcast, 128) + Flag(h.pathMsg, 64) + h.msgLen % 64
  }

  function LastByte(h: Header): (b: Byte)
    requires h.seqno < 2
  {
    Flag(h.somt, 128) + Flag(h.eomt, 64) + h.seqno * 16
  }

  /** The header bytes with the checksum nibble still zero. */
  function Unsealed(h: Header): (buf: seq<Byte>)
    requires InRange(h)
    ensures |buf| == HeaderSize(h)
  {
    [FirstByte(h)] + h.rad + [FlagByte(h), LastByte(h)]
  }

  /** Writes a checksum nibble into the last byte of an unsealed header. */
  function Seal(buf: seq<Byte>, crc: nat): (r: seq<Byte>)
    requires |buf| > 0 && crc < 16 && buf[|buf| - 1] + crc < 256
    ensures |r| == |buf|
  {
    buf[|buf| - 1 := buf[|buf| - 1] + crc]
  }

  /** The checksum of all nibbles but the last. */
  function CrcOf(buf: seq<Byte>): (crc: nat)
    requires |buf| > 0
    ensures crc < 16
  {
    Crc4Small(Bits(buf)[..8 * |buf| - 4]);
    Crc4(Bits(buf)[..8 * |buf| - 4])
  }

  lemma Crc4Small(bits: seq<bool>)
    ensures Crc4(bits) < 16
  {
    var q := Rem4IsRemainder(bits + Zeros(4));
    SmallWord(Crc4(bits), 4);
    assert Pow2(4) == 16;
  }

  function Encode(h: Header): (buf: seq<Byte>)
    requires InRange(h)
    ensures |buf| == HeaderSize(h)
  {
    Seal(Unsealed(h), CrcOf(Unsealed(h)))
  }

  /** The number of header bytes that the first byte announces. */
  function HeaderLen(first: Byte): (len: nat)
    ensures 3 <= len <= 10
  {
    3 + (first / 16) / 2
  }

  function Fields(buf: seq<Byte>): (h: Header)
    requires |buf| > 0 && HeaderLen(buf[0]) == |buf|
    ensures InRange(h) && HeaderSize(h) == |buf|
  {
    var n := |buf|;
    Header(buf[0] / 16, buf[0] % 16, buf[1..n - 2],
           buf[n - 2] / 128 == 1, (buf[n - 2] / 64) % 2 == 1, buf[n - 2] % 64,
           buf[n - 1] / 128 == 1, (buf[n - 1] / 64) % 2 == 1, (buf[n - 1] / 16) % 2)
  }

  /** Whether a buffer starts with a header that passes all the decoder's checks. */
  predicate Accepts(buf: seq<Byte>)
    requires |buf| > 0
  {
    var len := HeaderLen(buf[0]);
    buf[0] != 0 && len <= |buf| && CrcOf(buf[..len]) == buf[len - 1] % 16
  }

  function Decode(buf: seq<Byte>): Option<Header>
    requires |buf| > 0
  {
    if Accepts(buf) then Some(Fields(buf[..HeaderLen(buf[0])])) else None
  }

  // ----- the C routines -----

  /** Everything the encoder writes before it computes the checksum. */
  method WriteFields(h: Header, buf: array<Byte>) returns (idx: nat)
    requires InRange(h) && HeaderSize(h) <= buf.Length
    modifies buf
    ensures idx == HeaderSize(h)
    ensures buf[..idx] == Unsealed(h)
    ensures buf[idx..] == old(buf[idx..])
  {
    hide FirstByte, FlagByte, LastByte;
    idx := 0;
    ghost var n := HeaderSize(h);
    buf[idx] := FirstByte(h);
    idx := idx + 1;
    var i := 0;
    while i < h.lct / 2
      invariant 0 <= i <= h.lct / 2 && idx == i + 1
      invariant buf[0] == FirstByte(h)
      invariant forall j :: 0 <= j < i ==> buf[1 + j] == h.rad[j]
      invariant forall j :: n <= j < buf.Length ==> buf[j] == old(buf[j])
    {
      buf[idx] := h.rad[i];
      idx := idx + 1;
      i := i + 1;
    }
    buf[idx] := FlagByte(h);
    idx := idx + 1;
    buf[idx] := LastByte(h);
    idx := idx + 1;
  }

  method EncodeHeader(h: Header, buf: array<Byte>) returns (len: nat)
    requires InRange(h) && HeaderSize(h) <= buf.Length
    modifies buf
    ensures len == HeaderSize(h)
    ensures buf[..len] == Encode(h)
    ensures buf[len..] == old(buf[len..])
  {
    hide Bits, Crc4;
    var idx := WriteFields(h, buf);
    var crc4 := HeaderCrc4(buf[..idx], idx * 2 - 1);
    assert crc4 == CrcOf(Unsealed(h));
    buf[idx - 1] := buf[idx - 1] + crc4;
    assert buf[..idx] == Seal(Unsealed(h), crc4);
    len := idx;
  }

  method DecodeHeader(buf: array<Byte>, buflen: nat) returns (r: Option<Header>)
    requires 0 < buflen <= buf.Length
    ensures r == Decode(buf[..buflen])
  {
    hide Bits, Crc4;
    if buf[0] == 0 {
      return None;
    }
    var len := 3;
    len := len + (buf[0] / 16) / 2;
    if len > buflen {
      return None;
    }
    assert buf[..buflen][..len] == buf[..len];
    var crc4 := HeaderCrc4(buf[..len], len * 2 - 1);
    if crc4 != buf[len - 1] % 16 {
      return None;
    }
    var lct := buf[0] / 16;
    var lcr := buf[0] % 16;
    var rad: seq<Byte> := [];
    var idx, i := 1, 0;
    while i < lct / 2
      invariant 0 <= i <= lct / 2 && idx == i + 1
      invariant rad == buf[1..idx]
    {
      rad := rad + [buf[idx]];
      idx := idx + 1;
      i := i + 1;
    }
    var flags, last := buf[idx], buf[idx + 1];
    assert buf[..len][1..len - 2] == rad;
    r := Some(Header(lct, lcr, rad, flags / 128 == 1, (flags / 64) % 2 == 1, flags % 64,
                     last / 128 == 1, (last / 64) % 2 == 1, (last / 16) % 2));
  }

  // ----- decode inverts encode -----

  lemma FirstFields(h: Header)
    requires InRange(h)
    ensures FirstByte(h) / 16 == h.lct && FirstByte(h) % 16 == h.lcr
    ensures FirstByte(h) == 0 <==> h.lct == 0 && h.lcr == 0
  {
  }

  lemma FlagFields(h: Header)
    requires InRange(h)
    ensures (FlagByte(h) / 128 == 1) == h.broadcast && ((FlagByte(h) / 64) % 2 == 1) == h.pathMsg
    ensures FlagByte(h) % 64 == h.msgLen
  {
  }

  lemma LastFields(h: Header, crc: nat)
    requires InRange(h) && crc < 16
    ensures var f := LastByte(h) + crc;
            f < 256 && (f / 128 == 1) == h.somt && ((f / 64) % 2 == 1) == h.eomt &&
            (f / 16) % 2 == h.seqno && f % 16 == crc
    ensures LastByte(h) % 16 == 0
  {
  }

  lemma FieldsOfEncode(h: Header)
    requires InRange(h)
    ensures HeaderLen(Encode(h)[0]) == HeaderSize(h)
    ensures Fields(Encode(h)) == h
  {
    FirstFields(h);
    FlagFields(h);
    LastFields(h, CrcOf(Unsealed(h)));
    hide FirstByte, FlagByte, LastByte, CrcOf;
    var buf, n := Encode(h), HeaderSize(h);
    assert buf[1..n - 2] == h.rad;
  }

  /** The decoder refuses a zero first byte, and only then loses a header. */
  lemma DecodeInvertsEncode(h: Header, rest: seq<Byte>)
    requires InRange(h)
    ensures Decode(Encode(h) + rest) == Some(h) <==> !(h.lct == 0 && h.lcr == 0)
    ensures h.lct == 0 && h.lcr == 0 ==> Decode(Encode(h) + rest) == None
  {
    FieldsOfEncode(h);
    SealedNibble(h);
    FirstFields(h);
    hide FirstByte, FlagByte, LastByte, CrcOf, Fields, HeaderLen;
    var buf := Encode(h);
    assert (buf + rest)[..|buf|] == buf;
    assert buf[0] == FirstByte(h);
  }

  // ----- the layout on the wire -----

  /** A number in k bits, most significant first. */
  function Binary(n: nat, k: nat): (r: seq<bool>)
    ensures |r| == k
  {
    if k == 0 then [] else Binary(n / 2, k - 1) + [n % 2 == 1]
  }

  lemma {:induction false} BinaryAt(n: nat, k: nat, i: nat)
    requires i < k
    ensures Binary(n, k)[i] == Bit(n, k - 1 - i)
  {
    if i < k - 1 { BinaryAt(n / 2, k - 1, i); }
  }

  lemma ByteBinary(b: Byte)
    ensures Bits([b]) == Binary(b, 8)
  {
    forall i | 0 <= i < 8 ensures Bits([b])[i] == Binary(b, 8)[i] {
      BinaryAt(b, 8, i);
      BitsAt([b], 0, 7 - i);
    }
  }

  lemma {:induction false} BinarySplit(a: nat, b: nat, i: nat, j: nat)
    requires b < Pow2(j)
    ensures Binary(a * Pow2(j) + b, i + j) == Binary(a, i) + Binary(b, j)
    decreases j
  {
    if j > 0 {
      var p := a * Pow2(j - 1);
      assert a * Pow2(j) == 2 * p;
      assert (2 * p + b) / 2 == p + b / 2 && (2 * p + b) % 2 == b % 2;
      BinarySplit(a, b / 2, i, j - 1);
      hide Binary;
      BinaryUnfold(a * Pow2(j) + b, i + j);
      BinaryUnfold(b, j);
    }
  }

  lemma BinaryUnfold(n: nat, k: nat)
    requires k > 0
    ensures Binary(n, k) == Binary(n / 2, k - 1) + [n % 2 == 1]
  {
  }

  lemma Nibbles(hi: nat, lo: nat)
    requires hi < 16 && lo < 16
    ensures Bits([hi * 16 + lo]) == Binary(hi, 4) + Binary(lo, 4)
  {
    hide Binary, Bits;
    ByteBinary(hi * 16 + lo);
    assert Pow2(4) == 16;
    BinarySplit(hi, lo, 4, 4);
  }

  lemma TwoAndSix(hi: nat, lo: nat)
    requires hi < 4 && lo < 64
    ensures Bits([hi * 64 + lo]) == Binary(hi, 2) + Binary(lo, 6)
  {
    hide Binary, Bits;
    ByteBinary(hi * 64 + lo);
    assert Pow2(6) == 64 by { assert Pow2(3) == 8; }
    BinarySplit(hi, lo, 2, 6);
  }

  lemma TwoBits(a: bool, b: bool)
    ensures Binary(Flag(a, 2) + Flag(b, 1), 2) == [a, b]
  {
  }

  lemma TopBits(somt: bool, eomt: bool, seqno: nat)
    requires seqno < 2
    ensures Binary(Flag(somt, 8) + Flag(eomt, 4) + seqno, 4) == [somt, eomt, false, seqno == 1]
  {
    var hi := Flag(somt, 2) + Flag(eomt, 1);
    TwoBits(somt, eomt);
    TwoBits(false, seqno == 1);
    hide Binary;
    assert Pow2(2) == 4;
    BinarySplit(hi, seqno, 2, 2);
    assert hi * 4 == Flag(somt, 8) + Flag(eomt, 4);
  }

  lemma FirstLayout(h: Header)
    requires InRange(h)
    ensures Bits([FirstByte(h)]) == Binary(h.lct, 4) + Binary(h.lcr, 4)
  {
    hide Binary, Bits;
    Nibbles(h.lct, h.lcr);
  }

  lemma FlagLayout(h: Header)
    requires InRange(h)
    ensures Bits([FlagByte(h)]) == [h.broadcast, h.pathMsg] + Binary(h.msgLen, 6)
  {
    hide Binary, Bits;
    TwoBits(h.broadcast, h.pathMsg);
    TwoAndSix(Flag(h.broadcast, 2) + Flag(h.pathMsg, 1), h.msgLen);
  }

  lemma LastLayout(h: Header, crc: nat)
    requires InRange(h) && crc < 16
    ensures LastByte(h) + crc < 256
    ensures Bits([LastByte(h) + crc]) == [h.somt, h.eomt, false, h.seqno == 1] + Binary(crc, 4)
  {
    hide Binary, Bits;
    TopBits(h.somt, h.eomt, h.seqno);
    Nibbles(Flag(h.somt, 8) + Flag(h.eomt, 4) + h.seqno, crc);
  }

  /**
   The bits of every header in the order in which they go out: link counts, relative address, broadcast
   and path flag, length, start and end flag, an unused bit, the sequence number and the checksum.
   */
  lemma WireLayout(h: Header) returns (crc: nat)
    requires InRange(h)
    ensures crc < 16
    ensures Bits(Encode(h)) ==
            Binary(h.lct, 4) + Binary(h.lcr, 4) + Bits(h.rad) + [h.broadcast, h.pathMsg] + Binary(h.msgLen, 6) +
            [h.somt, h.eomt, false, h.seqno == 1] + Binary(crc, 4)
  {
    crc := CrcOf(Unsealed(h));
    FirstLayout(h);
    FlagLayout(h);
    LastLayout(h, crc);
    EncodeParts(h, crc);
    hide Binary, Bits, FirstByte, FlagByte, LastByte, CrcOf, Encode;
    BitsOfParts([FirstByte(h)], h.rad, [FlagByte(h)], [LastByte(h) + crc]);
    Flattened(Binary(h.lct, 4), Binary(h.lcr, 4), Bits(h.rad), [h.broadcast, h.pathMsg], Binary(h.msgLen, 6),
              [h.somt, h.eomt, false, h.seqno == 1], Binary(crc, 4));
  }

  lemma EncodeParts(h: Header, crc: nat)
    requires InRange(h) && crc == CrcOf(Unsealed(h)) && LastByte(h) + crc < 256
    ensures Encode(h) == [FirstByte(h)] + h.rad + [FlagByte(h)] + [LastByte(h) + crc]
  {
    hide FirstByte, FlagByte, LastByte, CrcOf;
  }

  lemma BitsOfParts(a: seq<Byte>, b: seq<Byte>, c: seq<Byte>, d: seq<Byte>)
    ensures Bits(a + b + c + d) == Bits(a) + Bits(b) + Bits(c) + Bits(d)
  {
    hide Bits;
    BitsConcat(a, b);
    BitsConcat(a + b, c);
    BitsConcat(a + b + c, d);
  }

  lemma Flattened<T>(a: seq<T>, b: seq<T>, c: seq<T>, d: seq<T>, e: seq<T>, f: seq<T>, g: seq<T>)
    ensures (a + b) + c + (d + e) + (f + g) == a + b + c + d + e + f + g
  {
    assert (a + b) + c + (d + e) == a + b + c + d + e;
  }

  /** Writing the checksum into the last nibble leaves the checksummed bits alone. */
  lemma SealedNibble(h: Header)
    requires InRange(h)
    ensures CrcOf(Encode(h)) == CrcOf(Unsealed(h)) == Encode(h)[HeaderSize(h) - 1] % 16
  {
    var u, crc := Unsealed(h), CrcOf(Unsealed(h));
    LastFields(h, crc);
    SealKeepsBits(u, crc);
  }

  lemma SealKeepsBits(buf: seq<Byte>, crc: nat)
    requires |buf| > 0 && crc < 16 && buf[|buf| - 1] % 16 == 0 && buf[|buf| - 1] + crc < 256
    ensures Bits(Seal(buf, crc))[..8 * |buf| - 4] == Bits(buf)[..8 * |buf| - 4]
  {
    var n := |buf|;
    forall k | 0 <= k < 8 * n - 4
      ensures Bits(Seal(buf, crc))[k] == Bits(buf)[k]
    {
      if k / 8 == n - 1 {
        HighBits(buf[n - 1], crc, 7 - k % 8);
      }
    }
  }

  lemma HighBits(b: nat, crc: nat, e: nat)
    requires b % 16 == 0 && crc < 16 && e >= 4
    ensures Bit(b + crc, e) == Bit(b, e)
  {
    Halves(b);
    Halves(b + crc);
    assert (b + crc) / 16 == b / 16;
    DropBits(b, e);
    DropBits(b + crc, e);
  }

  lemma Halves(x: nat)
    ensures x / 2 / 2 / 2 / 2 == x / 16
  {
    assert x / 2 / 2 == x / 4;
    assert x / 4 / 2 == x / 8;
    assert x / 8 / 2 == x / 16;
  }

  lemma DropBits(b: nat, e: nat)
    requires e >= 4
    ensures Bit(b, e) == Bit(b / 2 / 2 / 2 / 2, e - 4)
  {
    assert Bit(b, e) == Bit(b / 2, e - 1);
    assert Bit(b / 2, e - 1) == Bit(b / 2 / 2, e - 2);
    assert Bit(b / 2 / 2, e - 2) == Bit(b / 2 / 2 / 2, e - 3);
  }

  /** What the flags of a last byte keep of it: all but the checksum nibble and the unused bit 5. */
  lemma LastFlags(last: Byte)
    ensures Flag(last / 128 == 1, 128) + Flag((last / 64) % 2 == 1, 64) + (last / 16) % 2 * 16
            == last - last % 16 - 32 * ((last / 32) % 2)
  {
    var h := last / 16;
    assert last / 32 == h / 2 && last / 64 == h / 4 && last / 128 == h / 8;
    assert h == 8 * (h / 8) + 4 * ((h / 4) % 2) + 2 * ((h / 2) % 2) + h % 2;
  }

  /** Re-encoding a decoded header gives back its bytes unless the unused bit 5 of the last byte is set. */
  lemma EncodeInvertsDecode(buf: seq<Byte>)
    requires |buf| > 0 && Accepts(buf)
    ensures var len := HeaderLen(buf[0]);
            Encode(Decode(buf).value) == buf[..len] <==> (buf[len - 1] / 32) % 2 == 0
  {
    hide Fields, Unsealed, Bits, Encode;
    var len := HeaderLen(buf[0]);
    var part, last := buf[..len], buf[len - 1];
    var u := UnsealedFields(part);
    if (last / 32) % 2 == 0 {
      UnusedClear(part, u);
    } else {
      UnusedSet(part, u);
    }
  }

  lemma UnusedClear(part: seq<Byte>, u: seq<Byte>)
    requires |part| > 0 && HeaderLen(part[0]) == |part| && u == Unsealed(Fields(part))
    requires u[..|part| - 1] == part[..|part| - 1] && u[|part| - 1] == part[|part| - 1] - part[|part| - 1] % 16
    requires CrcOf(part) == part[|part| - 1] % 16
    ensures Encode(Fields(part)) == part
  {
    hide Fields, Unsealed, Bits;
    var last := part[|part| - 1];
    assert Seal(u, last % 16) == part;
    SealKeepsBits(u, last % 16);
  }

  lemma UnusedSet(part: seq<Byte>, u: seq<Byte>)
    requires |part| > 0 && HeaderLen(part[0]) == |part| && u == Unsealed(Fields(part))
    requires u[|part| - 1] as int == part[|part| - 1] as int - part[|part| - 1] % 16 - 32
    ensures Encode(Fields(part)) != part
  {
    hide Fields, Unsealed, Bits;
    assert Encode(Fields(part))[|part| - 1] < part[|part| - 1];
  }

  lemma UnsealedFields(part: seq<Byte>) returns (u: seq<Byte>)
    requires |part| > 0 && HeaderLen(part[0]) == |part|
    ensures u == Unsealed(Fields(part))
    ensures u[..|part| - 1] == part[..|part| - 1]
    ensures var last := part[|part| - 1]; u[|part| - 1] == last - last % 16 - 32 * ((last / 32) % 2)
  {
    hide FirstByte, FlagByte, LastByte;
    u := Unsealed(Fields(part));
    var n := |part|;
    FieldBytes(part);
    assert u == [part[0]] + part[1..n - 2] + [part[n - 2], u[n - 1]];
    Parts(part, u[n - 1]);
  }

  /** The three fixed bytes of a decoded header, put together again. */
  lemma FieldBytes(part: seq<Byte>)
    requires |part| > 0 && HeaderLen(part[0]) == |part|
    ensures var h, n := Fields(part), |part|; var last := part[n - 1];
            FirstByte(h) == part[0] && FlagByte(h) == part[n - 2] &&
            LastByte(h) == last - last % 16 - 32 * ((last / 32) % 2)
  {
    hide Flag;
    LastFlags(part[|part| - 1]);
    FlagFlags(part[|part| - 2]);
  }

  lemma Parts(part: seq<Byte>, last: Byte)
    requires |part| >= 3
    ensures var n := |part|; ([part[0]] + part[1..n - 2] + [part[n - 2], last])[..n - 1] == part[..n - 1]
  {
  }

  lemma FlagFlags(f: Byte)
    ensures Flag(f / 128 == 1, 128) + Flag((f / 64) % 2 == 1, 64) + f % 64 == f
  {
    var h := f / 64;
    assert f / 128 == h / 2 && h == 2 * (h / 2) + h % 2;
  }

  // ----- errors the checksum catches -----

  /** The polynomial that a header's bits spell out. */
  ghost function HeaderPoly(buf: seq<Byte>): Poly {
    FromBits(Bits(buf))
  }

  lemma LowNibble(b: nat)
    ensures Low(b, 4) == b % 16
  {
    LowSplit(b / 16, b % 16);
  }

  /** Adding a multiple of 16 does not touch the low nibble. */
  lemma LowSplit(q: nat, c: nat)
    requires c < 16
    ensures Low(16 * q + c, 4) == c
  {
    assert (16 * q + c) / 2 == 8 * q + c / 2;
    assert (8 * q + c / 2) / 2 == 4 * q + c / 4;
    assert (4 * q + c / 4) / 2 == 2 * q + c / 8;
    assert Low(2 * q + c / 8, 1) == c / 8;
    assert Low(4 * q + c / 4, 2) == c / 4;
    assert Low(8 * q + c / 2, 3) == c / 2;
  }

  lemma NibbleTail(b: Byte) returns (tail: seq<bool>)
    ensures tail == [Bit(b, 3), Bit(b, 2), Bit(b, 1), Bit(b, 0)]
    ensures FromBits(tail) == ToPoly(b % 16)
  {
    tail := [Bit(b, 3), Bit(b, 2), Bit(b, 1), Bit(b, 0)];
    LowNibble(b);
    hide Low, Bit, ToPoly;
    LowPoly(b, 4);
    forall e: nat
      ensures e in FromBits(tail) <==> e in ToPoly(b % 16)
    {
      InFromBits(tail, e);
      InToPoly(b, e);
    }
  }

  lemma TailBits(buf: seq<Byte>, tail: seq<bool>)
    requires |buf| > 0
    requires var b := buf[|buf| - 1]; tail == [Bit(b, 3), Bit(b, 2), Bit(b, 1), Bit(b, 0)]
    ensures Bits(buf) == Bits(buf)[..8 * |buf| - 4] + tail
  {
    var n := |buf|;
    BitsAt(buf, n - 1, 3);
    BitsAt(buf, n - 1, 2);
    BitsAt(buf, n - 1, 1);
    BitsAt(buf, n - 1, 0);
  }

  /** The checksum test asks whether the header's polynomial is a multiple of x^4 + x + 1. */
  lemma AcceptsIffMultiple(buf: seq<Byte>)
    requires |buf| > 0
    ensures Accepts(buf) <==>
            buf[0] != 0 && HeaderLen(buf[0]) <= |buf| &&
            Divides(HEADER_GENERATOR, HeaderPoly(buf[..HeaderLen(buf[0])]))
  {
    var len := HeaderLen(buf[0]);
    if len <= |buf| {
      var part := buf[..len];
      var tail := NibbleTail(part[len - 1]);
      TailBits(part, tail);
      Crc4IffMultiple(Bits(part)[..8 * len - 4], part[len - 1] % 16, tail);
    }
  }

  /** Two headers of one length differ, and only inside four adjacent bits starting at bit k. */
  ghost predicate DifferInBurst(a: seq<Byte>, b: seq<Byte>, k: nat) {
    |a| == |b| && a != b &&
    forall i :: 0 <= i < 8 * |a| && !(k <= i < k + 4) ==> Bits(a)[i] == Bits(b)[i]
  }

  /** Byte strings with the same bits are the same. */
  lemma BitsInjective(a: seq<Byte>, b: seq<Byte>)
    requires |a| == |b| && Bits(a) == Bits(b)
    ensures a == b
  {
    forall i | 0 <= i < |a|
      ensures a[i] == b[i]
    {
      SmallPoly(a[i], 8);
      SmallPoly(b[i], 8);
      forall e: nat
        ensures e in ToPoly(a[i]) <==> e in ToPoly(b[i])
      {
        InToPoly(a[i], e);
        InToPoly(b[i], e);
        if e < 8 {
          BitsAt(a, i, e);
          BitsAt(b, i, e);
        }
      }
      ToPolyInjective(a[i], b[i]);
    }
  }

  lemma InDifference(a: seq<Byte>, b: seq<Byte>, e: nat)
    requires |a| == |b|
    ensures e in Add(HeaderPoly(a), HeaderPoly(b)) <==>
            e < 8 * |a| && Bits(a)[8 * |a| - 1 - e] != Bits(b)[8 * |a| - 1 - e]
  {
    hide Bits;
    InFromBits(Bits(a), e);
    InFromBits(Bits(b), e);
  }

  /** A polynomial confined to the four exponents from `up` on is a short one, moved up. */
  lemma ShiftDown(p: Poly, up: nat) returns (burst: Poly)
    requires p != {} && forall e :: e in p ==> up <= e < up + 4
    ensures DegBelow(burst, 4) && burst != {}
    ensures p == Shift(burst, up)
  {
    burst := set e: nat | e in p :: if e >= up then e - up else 0;
    forall e: nat
      ensures e in p <==> e in Shift(burst, up)
    {
      InShift(burst, up, e);
      if e in p { assert e - up in burst; }
    }
    var e: nat :| e in p;
    assert e - up in burst;
  }

  /** The sum of two such headers is a short non-zero polynomial, moved up. */
  lemma BurstOfDifference(a: seq<Byte>, b: seq<Byte>, k: nat) returns (burst: Poly, up: nat)
    requires DifferInBurst(a, b, k)
    ensures DegBelow(burst, 4) && burst != {}
    ensures Add(HeaderPoly(a), HeaderPoly(b)) == Shift(burst, up)
  {
    hide Bits, Add, FromBits;
    var n := 8 * |a|;
    var sum := Add(HeaderPoly(a), HeaderPoly(b));
    up := if k + 4 <= n then n - 4 - k else 0;
    forall e: nat | e in sum
      ensures up <= e < up + 4
    {
      InDifference(a, b, e);
    }
    var i :| 0 <= i < n && Bits(a)[i] != Bits(b)[i] by {
      if Bits(a) == Bits(b) { BitsInjective(a, b); }
    }
    InDifference(a, b, n - 1 - i);
    burst := ShiftDown(sum, up);
  }

  /** Any error confined to four adjacent bits of an accepted header, and keeping its length, is caught. */
  lemma BurstErrorRejected(buf: seq<Byte>, bad: seq<Byte>, k: nat)
    requires |buf| > 0 && |bad| > 0 && Accepts(buf)
    requires HeaderLen(buf[0]) == HeaderLen(bad[0]) <= |bad|
    requires DifferInBurst(buf[..HeaderLen(buf[0])], bad[..HeaderLen(buf[0])], k)
    ensures Decode(bad) == None
  {
    var len := HeaderLen(buf[0]);
    var a, b := buf[..len], bad[..len];
    AcceptsIffMultiple(buf);
    AcceptsIffMultiple(bad);
    if Accepts(bad) {
      var q1: Poly :| Mul(q1, HEADER_GENERATOR) == HeaderPoly(a);
      var q2: Poly :| Mul(q2, HEADER_GENERATOR) == HeaderPoly(b);
      MulAdd(q1, q2, HEADER_GENERATOR);
      var burst, up := BurstOfDifference(a, b, k);
      HeaderGenerator();
      BurstNotDivisible(HEADER_GENERATOR, burst, up);
      assert false;
    }
  }

  /** Flipping one bit of an encoded header is such an error. */
  lemma BitFlipRejected(h: Header, bad: seq<Byte>, k: nat)
    requires InRange(h) && !(h.lct == 0 && h.lcr == 0)
    requires |bad| == HeaderSize(h) && HeaderLen(bad[0]) == HeaderSize(h) && k < 8 * |bad|
    requires forall i :: 0 <= i < 8 * |bad| ==> (Bits(bad)[i] != Bits(Encode(h))[i] <==> i == k)
    ensures Decode(bad) == None
  {
    var buf := Encode(h);
    DecodeInvertsEncode(h, []);
    assert buf + [] == buf && buf[..|buf|] == buf && bad[..|bad|] == bad;
    assert Bits(bad)[k] != Bits(buf)[k];
    BurstErrorRejected(buf, bad, k);
  }

  // ----- a header that is not the encoding of what it decodes to -----

  /** The first and last byte spell x^16 and x times the generator. */
  const UNUSED_SET: seq<Byte> := [0x13, 0x00, 0x26]

  lemma SmallBits(b: nat, s: nat)
    requires b < 16 && s < 4
    ensures Bit(b, s) <==> (if s == 0 then b % 2 == 1 else if s == 1 then b / 2 % 2 == 1
                            else if s == 2 then b / 2 / 2 % 2 == 1 else b / 2 / 2 / 2 % 2 == 1)
  {
    assert s >= 1 ==> Bit(b, s) == Bit(b / 2, s - 1);
    assert s >= 2 ==> Bit(b / 2, s - 1) == Bit(b / 2 / 2, s - 2);
    assert s >= 3 ==> Bit(b / 2 / 2, s - 2) == Bit(b / 2 / 2 / 2, s - 3);
  }

  lemma LowBits(b: Byte, s: nat)
    requires s < 8
    ensures Bit(b, s) <==> if s < 4 then Bit(b % 16, s) else Bit(b / 16, s - 4)
  {
    if s >= 4 {
      DropBits(b, s);
      Halves(b);
    } else {
      LowBit(b, 4, s);
      assert Low(b, 4) == b % 16 by { LowOfFour(b); }
    }
  }

  lemma LowOfFour(b: nat)
    ensures Low(b, 4) == b % 16
  {
    assert Low(b, 4) == 2 * Low(b / 2, 3) + b % 2;
    assert Low(b / 2, 3) == 2 * Low(b / 2 / 2, 2) + b / 2 % 2;
    assert Low(b / 2 / 2, 2) == 2 * Low(b / 2 / 2 / 2, 1) + b / 2 / 2 % 2;
    assert Low(b / 2 / 2 / 2, 1) == b / 2 / 2 / 2 % 2;
    Halves(b);
  }

  lemma FirstBits(s: nat)
    requires s < 8
    ensures Bit(0x13, s) <==> s == 0 || s == 1 || s == 4
  {
    LowBits(0x13, s);
    if s < 4 { SmallBits(3, s); } else { SmallBits(1, s - 4); }
  }

  lemma LastBits(s: nat)
    requires s < 8
    ensures Bit(0x26, s) <==> s == 1 || s == 2 || s == 5
  {
    LowBits(0x26, s);
    if s < 4 { SmallBits(6, s); } else { SmallBits(2, s - 4); }
  }

  lemma UnusedSetBit(e: nat)
    requires e < 24
    ensures Bits(UNUSED_SET)[23 - e] <==> e == 20 || e == 17 || e == 16 || e == 5 || e == 2 || e == 1
  {
    hide Bits;
    if e >= 16 {
      BitsAt(UNUSED_SET, 0, e - 16);
      FirstBits(e - 16);
    } else if e >= 8 {
      BitsAt(UNUSED_SET, 1, e - 8);
      ZeroBits(e - 8);
    } else {
      BitsAt(UNUSED_SET, 2, e);
      LastBits(e);
    }
  }

  /** The decoder accepts this header although its unused bit 5 is set, so encoding it again gives other bytes. */
  lemma UnusedBitIsLost()
    ensures Accepts(UNUSED_SET) && Encode(Decode(UNUSED_SET).value) != UNUSED_SET
  {
    var p := HeaderPoly(UNUSED_SET);
    assert p == {20, 17, 16, 5, 2, 1} by {
      forall e: nat ensures e in p <==> e in {20, 17, 16, 5, 2, 1} {
        InFromBits(Bits(UNUSED_SET), e);
        if e < 24 { UnusedSetBit(e); }
      }
    }
    GeneratorTwice();
    AcceptsIffMultiple(UNUSED_SET);
    assert UNUSED_SET[..3] == UNUSED_SET;
    EncodeInvertsDecode(UNUSED_SET);
  }

  lemma GeneratorAt(n: nat)
    ensures Mul({n}, HEADER_GENERATOR) == {n + 4, n + 1, n}
  {
    hide Mul, IsDivisor;
    HeaderGenerator();
    MulShift({0}, n, HEADER_GENERATOR);
    assert Shift({0}, n) == {n};
    assert Shift({4, 1, 0}, n) == {n + 4, n + 1, n};
  }

  lemma GeneratorTwice()
    ensures Divides(HEADER_GENERATOR, {20, 17, 16, 5, 2, 1})
  {
    hide Mul, Shift, IsDivisor;
    GeneratorAt(16);
    GeneratorAt(1);
    MulAdd({16}, {1}, HEADER_GENERATOR);
    assert Add({20, 17, 16}, {5, 2, 1}) == {20, 17, 16, 5, 2, 1};
  }
}
