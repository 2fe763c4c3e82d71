/**
 Sideband messages on the wire: the sender cuts a message into chunks of at most 48 bytes,
 the receiver reads each chunk in small DPCD transactions and puts the message together.
 */
module SidebandMsg {
  import opened Options
  import opened Gf2
  import opened Words
  import opened Crc
  import opened SidebandHeader
  import Slices

  const CHUNK_SIZE := 48
  const READ_SIZE := 16

  /** What the header of every chunk of one message shares. */
  datatype Route = Route(lct: nat, rad: seq<Byte>, pathMsg: bool, seqno: nat)

  predicate ValidRoute(r: Route) {
    1 <= r.lct < 16 && |r.rad| == r.lct / 2 && r.seqno < 2
  }

  function Min(a: nat, b: nat): nat {
    if a < b then a else b
  }

  // ----- the sender -----

  /** Payload bytes that fit beside the header and the data checksum. */
  function Space(r: Route): (n: nat)
    requires ValidRoute(r)
    ensures 37 <= n <= 44
  {
    CHUNK_SIZE - 1 - (3 + r.lct / 2)
  }

  function ToSend(r: Route, left: nat): nat
    requires ValidRoute(r)
  {
    Min(left, Space(r))
  }

  function ChunkHeader(r: Route, total: nat, offset: nat): (h: Header)
    requires ValidRoute(r) && offset <= total
    ensures InRange(h) && h.lct >= 1
  {
    var left := total - offset;
    Header(r.lct, r.lct - 1, r.rad, false, r.pathMsg, ToSend(r, left) + 1,
           left == total, Space(r) >= left, r.seqno)
  }

  function DataCrc(data: seq<Byte>): Byte {
    Low(Rem8(Bits(data) + Zeros(8)), 8)
  }

  /** The chunk that carries the message from `offset` on. */
  function ChunkAt(r: Route, msg: seq<Byte>, offset: nat): (chunk: seq<Byte>)
    requires ValidRoute(r) && offset <= |msg|
    ensures |chunk| == 3 + r.lct / 2 + ToSend(r, |msg| - offset) + 1 <= CHUNK_SIZE
  {
    var data := msg[offset..offset + ToSend(r, |msg| - offset)];
    Encode(ChunkHeader(r, |msg|, offset)) + data + [DataCrc(data)]
  }

  function Fragments(r: Route, msg: seq<Byte>, offset: nat): (chunks: seq<seq<Byte>>)
    requires ValidRoute(r) && offset <= |msg|
    ensures |chunks| >= 1
    decreases |msg| - offset
  {
    var next := offset + ToSend(r, |msg| - offset);
    [ChunkAt(r, msg, offset)] + if next == |msg| then [] else Fragments(r, msg, next)
  }

  /** memcpy into the middle of a buffer. */
  method CopyBytes(src: seq<Byte>, dst: array<Byte>, at: nat)
    requires at + |src| <= dst.Length
    modifies dst
    ensures dst[..at] == old(dst[..at]) && dst[at..at + |src|] == src
    ensures dst[at + |src|..] == old(dst[at + |src|..])
  {
    var i := 0;
    while i < |src|
      invariant 0 <= i <= |src|
      invariant forall j :: 0 <= j < dst.Length && !(at <= j < at + i) ==> dst[j] == old(dst[j])
      invariant forall j :: 0 <= j < i ==> dst[at + j] == src[j]
    {
      dst[at + i] := src[i];
      i := i + 1;
    }
  }

  /** Builds the next chunk in place and advances the offset; `h` is what the chunk says on the wire. */
  method BuildTxChunk(r: Route, msg: seq<Byte>, offset: nat, chunk: array<Byte>)
    returns (len: nat, next: nat, ghost h: Header)
    requires ValidRoute(r) && offset <= |msg| && chunk.Length == CHUNK_SIZE
    modifies chunk
    ensures len <= CHUNK_SIZE && chunk[..len] == ChunkAt(r, msg, offset)
    ensures next == offset + ToSend(r, |msg| - offset)
    ensures offset <= next <= |msg| && OnWire(chunk[..len], h, msg[offset..next]) && Announces(h, r, msg, offset)
    ensures h.eomt || len == CHUNK_SIZE
  {
    hide Encode, DataCrc, InRange, ChunkAt, OnWire, Announces;
    var left := |msg| - offset;
    var space := CHUNK_SIZE - 1 - (3 + r.lct / 2);
    var tosend := Min(left, space);
    var hdr := Header(r.lct, r.lct - 1, r.rad, false, r.pathMsg, tosend + 1,
                      left == |msg|, space >= left, r.seqno);
    assert hdr == ChunkHeader(r, |msg|, offset);
    var data := msg[offset..offset + tosend];
    ChunkIs(r, msg, offset);
    len := FillChunk(hdr, data, chunk);
    next := offset + tosend;
    h := ChunkSays(r, msg, offset, next);
  }

  lemma ChunkSays(r: Route, msg: seq<Byte>, offset: nat, next: nat) returns (h: Header)
    requires ValidRoute(r) && offset <= |msg| && next == offset + ToSend(r, |msg| - offset)
    ensures OnWire(ChunkAt(r, msg, offset), h, msg[offset..next]) && Announces(h, r, msg, offset)
    ensures h.eomt || |ChunkAt(r, msg, offset)| == CHUNK_SIZE
  {
    hide Encode, DataCrc, InRange, ChunkAt, Decode;
    var payload;
    h, payload := ChunkOnWire(r, msg, offset);
  }

  method FillChunk(hdr: Header, data: seq<Byte>, chunk: array<Byte>) returns (len: nat)
    requires InRange(hdr) && HeaderSize(hdr) + |data| < chunk.Length
    modifies chunk
    ensures len == HeaderSize(hdr) + |data| + 1 && chunk[..len] == Encode(hdr) + (data + [DataCrc(data)])
  {
    hide Encode, DataCrc, InRange;
    var idx := EncodeHeader(hdr, chunk);
    CopyBytes(data, chunk, idx);
    SealChunk(chunk, idx, |data|);
    len := idx + |data| + 1;
    assert chunk[..len] == chunk[..idx] + chunk[idx..len];
  }

  /** drm_dp_crc_sideband_chunk_req on the payload that starts at idx. */
  method SealChunk(chunk: array<Byte>, idx: nat, len: nat)
    requires idx + len < chunk.Length
    modifies chunk
    ensures chunk[..idx] == old(chunk[..idx])
    ensures chunk[idx..idx + len + 1] == old(chunk[idx..idx + len]) + [DataCrc(old(chunk[idx..idx + len]))]
  {
    hide DataCrc;
    var crc := ChunkCrc(chunk[idx..idx + len]);
    chunk[idx + len] := crc;
  }

  method ChunkCrc(data: seq<Byte>) returns (crc: Byte)
    ensures crc == DataCrc(data)
  {
    var r := DataCrc8(data, |data|);
    assert Bits(data)[..8 * |data|] == Bits(data);
    crc := r;
  }

  // ----- the receiver -----

  /** The receiver's fields: the bytes gathered of the current chunk and of the message. */
  datatype Rx = Rx(chunk: seq<Byte>, chunkLen: nat, hdrLen: nat, haveSomt: bool, haveEomt: bool,
                   initial: Header, msg: seq<Byte>)

  const NO_HEADER: Header := Header(0, 0, [], false, false, 0, false, false, 0)
  /** The message buffer has 256 bytes, and its length is counted in one byte. */
  const MAX_MSG: nat := 255

  const ZEROED: Rx := Rx([], 0, 0, false, false, NO_HEADER, [])

  /** A complete chunk moves to the message, without its checksum byte. */
  function Flush(rx: Rx): Rx {
    if |rx.chunk| >= rx.chunkLen >= 1 then rx.(msg := rx.msg + rx.chunk[..rx.chunkLen - 1]) else rx
  }

  /** The copy of a complete chunk goes wrong: it has a negative length, or the message is too long. */
  predicate FlushFaults(rx: Rx) {
    |rx.chunk| >= rx.chunkLen && (rx.chunkLen == 0 || |rx.msg| + rx.chunkLen - 1 > MAX_MSG)
  }

  /** The chunk and the message have room for the current chunk. */
  predicate Room(rx: Rx) {
    rx.chunkLen <= CHUNK_SIZE && |rx.msg| + rx.chunkLen - 1 <= MAX_MSG
  }

  function AfterHeader(rx: Rx, h: Header, got: seq<Byte>): Rx {
    rx.(chunkLen := h.msgLen, hdrLen := HeaderSize(h),
        haveSomt := rx.haveSomt || h.somt, haveEomt := rx.haveEomt || h.eomt,
        initial := if h.somt then h else rx.initial,
        chunk := got)
  }

  /** The part of the current chunk that a first read brings in behind the header. */
  function Behind(h: Header, buf: seq<Byte>): seq<Byte>
    requires HeaderSize(h) <= |buf|
  {
    buf[HeaderSize(h)..HeaderSize(h) + Min(h.msgLen, |buf| - HeaderSize(h))]
  }

  function BuildFirst(rx: Rx, buf: seq<Byte>): (Rx, bool)
    requires |buf| > 0
  {
    match Decode(buf)
    case None => (rx, false)
    case Some(h) =>
      if h.somt && rx.haveSomt then (rx.(chunkLen := h.msgLen, hdrLen := HeaderSize(h)), false)
      else (Flush(AfterHeader(rx, h, Behind(h, buf))), true)
  }

  predicate FirstFaults(rx: Rx, buf: seq<Byte>)
    requires |buf| > 0
  {
    match Decode(buf)
    case None => false
    case Some(h) =>
      !(h.somt && rx.haveSomt) &&
      (|Behind(h, buf)| > CHUNK_SIZE || FlushFaults(AfterHeader(rx, h, Behind(h, buf))))
  }

  predicate MoreFaults(rx: Rx, buf: seq<Byte>) {
    |rx.chunk| + |buf| > CHUNK_SIZE || FlushFaults(rx.(chunk := rx.chunk + buf))
  }

  function BuildMore(rx: Rx, buf: seq<Byte>): Rx {
    Flush(rx.(chunk := rx.chunk + buf))
  }

  /** The reads that follow the first one, up to the end of the chunk. */
  function ReadMore(rx: Rx, window: seq<Byte>, pos: nat, end: nat, max: nat): Rx
    requires end <= |window| && max > 0
    decreases end - pos
  {
    if pos >= end then rx
    else
      var len := Min(Min(end - pos, max), READ_SIZE);
      ReadMore(BuildMore(rx, window[pos..pos + len]), window, pos + len, end, max)
  }

  /** The window reaches as far as the chunk that its first read announces. */
  predicate Covers(window: seq<Byte>, max: nat) {
    max > 0 && Min(max, READ_SIZE) <= |window| &&
    match Decode(window[..Min(max, READ_SIZE)])
    case None => true
    case Some(h) => HeaderSize(h) + h.msgLen <= |window|
  }

  /** A body that has no checksum byte, or that the chunk buffer or the message has no room for. */
  predicate DoesNotFit(rx: Rx, h: Header) {
    h.msgLen == 0 || h.msgLen > CHUNK_SIZE || |rx.msg| + h.msgLen - 1 > MAX_MSG
  }

  /** The routines check none of this: a chunk they take in may not fit. */
  predicate Overruns(rx: Rx, buf: seq<Byte>)
    requires |buf| > 0
  {
    match Decode(buf)
    case None => false
    case Some(h) => !(h.somt && rx.haveSomt) && DoesNotFit(rx, h)
  }

  predicate Readable(rx: Rx, window: seq<Byte>, max: nat) {
    Covers(window, max) && !Overruns(rx, window[..Min(max, READ_SIZE)])
  }

  function Receive(rx: Rx, window: seq<Byte>, max: nat): Rx
    requires Readable(rx, window, max)
  {
    var len := Min(max, READ_SIZE);
    var (rx1, ok) := BuildFirst(rx, window[..len]);
    if ok then ReadMore(rx1, window, len, rx1.chunkLen + rx1.hdrLen, max) else rx1
  }

  class Receiver {
    const chunk: array<Byte>
    const msg: array<Byte>
    var chunkLen: nat
    var hdrLen: nat
    var chunkIdx: nat
    var haveSomt: bool
    var haveEomt: bool
    var initial: Header
    var curlen: nat

    ghost predicate Valid()
      reads this
    {
      chunk.Length == CHUNK_SIZE && msg.Length == 256 && chunk != msg &&
      chunkIdx <= CHUNK_SIZE && curlen <= MAX_MSG
    }

    ghost function View(): Rx
      requires Valid()
      reads this, chunk, msg
    {
      Rx(chunk[..chunkIdx], chunkLen, hdrLen, haveSomt, haveEomt, initial, msg[..curlen])
    }

    constructor ()
      ensures Valid() && fresh(chunk) && fresh(msg) && View() == ZEROED
    {
      chunk := new Byte[CHUNK_SIZE];
      msg := new Byte[256];
      chunkLen, hdrLen, chunkIdx, curlen := 0, 0, 0, 0;
      haveSomt, haveEomt, initial := false, false, NO_HEADER;
    }

    /** Appends bytes of a reply buffer to the chunk buffer, unless that runs past its end. */
    method Gather(bytes: seq<Byte>) returns (fault: bool)
      requires Valid()
      modifies chunk, this`chunkIdx
      ensures Valid() && (fault <==> |old(View()).chunk| + |bytes| > CHUNK_SIZE)
      ensures !fault ==> View() == old(View()).(chunk := old(View()).chunk + bytes)
    {
      if chunkIdx + |bytes| > CHUNK_SIZE { return true; }
      CopyBytes(bytes, chunk, chunkIdx);
      chunkIdx := chunkIdx + |bytes|;
      assert chunk[..chunkIdx] == old(chunk[..chunkIdx]) + bytes;
      fault := false;
    }

    /** The copy of a complete chunk; a length of zero makes the number of bytes negative. */
    method FlushChunk() returns (fault: bool)
      requires Valid()
      modifies msg, this`curlen
      ensures Valid() && (fault <==> FlushFaults(old(View())))
      ensures !fault ==> View() == Flush(old(View()))
    {
      if chunkIdx >= chunkLen {
        if chunkLen == 0 || curlen + chunkLen - 1 > MAX_MSG { return true; }
        ghost var part := View().chunk[..chunkLen - 1];
        assert part == chunk[..chunkLen - 1];
        CopyBytes(chunk[..chunkLen - 1], msg, curlen);
        curlen := curlen + chunkLen - 1;
        assert msg[..curlen] == old(msg[..curlen]) + part;
      }
      fault := false;
    }

    /** drm_dp_sideband_msg_build with hdr set. */
    method BuildWithHeader(reply: array<Byte>, len: nat) returns (fault: bool, ok: bool)
      requires Valid() && reply != chunk && reply != msg && 0 < len <= reply.Length
      modifies this, chunk, msg
      ensures Valid() && (fault <==> FirstFaults(old(View()), reply[..len]))
      ensures !fault ==> (View(), ok) == BuildFirst(old(View()), reply[..len])
    {
      hide Decode, Flush, Accepts, InRange, FlushFaults;
      var buf := reply[..len];
      ghost var rx := View();
      var r := DecodeHeader(reply, len);
      if r == None {
        return false, false;
      }
      var h := r.value;
      DecodedSize(buf);
      chunkLen, hdrLen := h.msgLen, HeaderSize(h);
      if h.somt && haveSomt {
        return false, false;
      }
      FirstIs(rx, buf, h);
      var got := Min(chunkLen, len - hdrLen);
      fault := TakeIn(h, buf[hdrLen..hdrLen + got]);
      ok := true;
    }

    /** The flags of an accepted header, and the bytes behind it. */
    method TakeIn(h: Header, got: seq<Byte>) returns (fault: bool)
      requires Valid() && chunkLen == h.msgLen && hdrLen == HeaderSize(h)
      modifies this, chunk, msg
      ensures Valid()
      ensures fault <==> |got| > CHUNK_SIZE || FlushFaults(AfterHeader(old(View()), h, got))
      ensures !fault ==> View() == Flush(AfterHeader(old(View()), h, got))
    {
      hide Flush, FlushFaults;
      ghost var rx := View();
      if h.somt {
        initial, haveSomt := h, true;
      }
      if h.eomt {
        haveEomt := true;
      }
      chunkIdx := 0;
      fault := Gather(got);
      if fault { return; }
      assert View() == AfterHeader(rx, h, got);
      fault := FlushChunk();
    }

    /** drm_dp_sideband_msg_build with hdr clear. */
    method BuildContinue(reply: array<Byte>, len: nat) returns (fault: bool)
      requires Valid() && reply != chunk && reply != msg && len <= reply.Length
      modifies this`chunkIdx, this`curlen, chunk, msg
      ensures Valid() && (fault <==> MoreFaults(old(View()), reply[..len]))
      ensures !fault ==> View() == BuildMore(old(View()), reply[..len])
    {
      hide Flush, FlushFaults;
      fault := Gather(reply[..len]);
      if fault { return; }
      fault := FlushChunk();
    }

    /** The loop that reads what the first read has left of the chunk. */
    method FetchRest(reply: array<Byte>, window: seq<Byte>, start: nat, max: nat) returns (fault: bool)
      requires Valid() && max > 0 && reply.Length >= READ_SIZE && reply != chunk && reply != msg
      requires chunkLen + hdrLen <= |window|
      requires start < chunkLen + hdrLen ==> chunkIdx + (chunkLen + hdrLen - start) == chunkLen
      modifies this`chunkIdx, this`curlen, chunk, msg, reply
      ensures Valid()
      ensures fault <==> start < chunkLen + hdrLen && !Room(old(View()))
      ensures !fault ==> View() == ReadMore(old(View()), window, start, chunkLen + hdrLen, max)
    {
      hide ReadMore, BuildMore, MoreFaults;
      var end, pos := chunkLen + hdrLen, start;
      ghost var final := ReadMore(View(), window, start, end, max);
      if end <= pos { NoMoreReads(View(), window, pos, end, max); }
      fault := false;
      while pos < end
        invariant Valid() && !fault && (pos < end ==> chunkIdx + (end - pos) == chunkLen)
        invariant pos < end ==> start < end && (Room(View()) <==> Room(old(View())))
        invariant pos >= end ==> start >= end || Room(old(View()))
        invariant final == if pos < end then ReadMore(View(), window, pos, end, max) else View()
      {
        var len := Min(Min(end - pos, max), READ_SIZE);
        CopyBytes(window[pos..pos + len], reply, 0);
        assert reply[..len] == window[pos..pos + len];
        ReadMoreUnfold(View(), window, pos, end, max);
        PartialFlush(View(), window[pos..pos + len]);
        PartialFault(View(), window[pos..pos + len]);
        fault := BuildContinue(reply, len);
        if fault { return; }
        pos := pos + len;
      }
    }

    /**
     drm_dp_get_one_sb_msg. The window holds what the reply buffer holds after each read, so a
     later read that fails only puts other bytes there; `answered` says whether the first succeeded.
     */
    method GetOne(window: seq<Byte>, max: nat, answered: bool) returns (fault: bool)
      requires Valid() && Covers(window, max)
      modifies this, chunk, msg
      ensures Valid()
      ensures fault <==> answered && Overruns(old(View()), window[..Min(max, READ_SIZE)])
      ensures !fault ==> View() == if answered then Receive(old(View()), window, max) else old(View())
    {
      hide Decode, Flush, ReadMore, BuildMore, BuildFirst, FirstFaults, Overruns, Covers;
      if !answered { return false; }
      var reply := new Byte[32];
      var len := Min(max, READ_SIZE);
      CoversFirst(window, max);
      CopyBytes(window[..len], reply, 0);
      assert reply[..len] == window[..len];
      ghost var start := View();
      FaultsAtFirst(start, window, max);
      var ok;
      fault, ok := BuildWithHeader(reply, len);
      if fault || !ok { return; }
      FirstReadShape(start, window, max);
      fault := FetchRest(reply, window, len, max);
    }
  }

  lemma FirstIs(rx: Rx, buf: seq<Byte>, h: Header)
    requires |buf| > 0 && Decode(buf) == Some(h) && !(h.somt && rx.haveSomt) && HeaderSize(h) <= |buf|
    ensures BuildFirst(rx, buf) == (Flush(AfterHeader(rx, h, Behind(h, buf))), true)
    ensures FirstFaults(rx, buf) <==>
            |Behind(h, buf)| > CHUNK_SIZE || FlushFaults(AfterHeader(rx, h, Behind(h, buf)))
  {
    hide Decode, Flush, AfterHeader, Behind, FlushFaults;
  }

  lemma DecodedSize(buf: seq<Byte>)
    requires |buf| > 0 && Decode(buf).Some?
    ensures InRange(Decode(buf).value) && HeaderSize(Decode(buf).value) <= |buf|
    ensures HeaderSize(Decode(buf).value) == HeaderLen(buf[0])
  {
  }

  lemma ReadableMeans(rx: Rx, window: seq<Byte>, max: nat)
    requires Readable(rx, window, max)
    ensures Covers(window, max) && Min(max, READ_SIZE) <= |window| && !Overruns(rx, window[..Min(max, READ_SIZE)])
  {
  }

  lemma CoversFirst(window: seq<Byte>, max: nat)
    requires Covers(window, max)
    ensures 0 < Min(max, READ_SIZE) <= |window|
  {
  }

  /** A chunk that does not fit is noticed in the first read or is not finished by it. */
  lemma FaultsAtFirst(rx: Rx, window: seq<Byte>, max: nat)
    requires Covers(window, max)
    ensures var buf := window[..Min(max, READ_SIZE)];
            (FirstFaults(rx, buf) ==> Overruns(rx, buf)) &&
            (!BuildFirst(rx, buf).1 ==> !Overruns(rx, buf) && !FirstFaults(rx, buf))
  {
    var buf := window[..Min(max, READ_SIZE)];
    if Decode(buf).Some? { DecodedSize(buf); }
  }

  /** What the first read leaves to be read. */
  lemma FirstReadShape(rx: Rx, window: seq<Byte>, max: nat)
    requires Covers(window, max)
    requires var buf := window[..Min(max, READ_SIZE)]; BuildFirst(rx, buf).1 && !FirstFaults(rx, buf)
    ensures var len, rx1 := Min(max, READ_SIZE), BuildFirst(rx, window[..Min(max, READ_SIZE)]).0;
            var end := rx1.chunkLen + rx1.hdrLen;
            1 <= rx1.chunkLen && end <= |window| &&
            (len < end ==> |rx1.chunk| + (end - len) == rx1.chunkLen && rx1.msg == rx.msg) &&
            (Overruns(rx, window[..len]) <==> len < end && !Room(rx1))
  {
    DecodedSize(window[..Min(max, READ_SIZE)]);
  }

  /** Adding bytes of an unfinished chunk goes wrong with the last of them, or when the buffer is full. */
  lemma PartialFault(rx: Rx, bytes: seq<Byte>)
    requires rx.chunkLen >= 1 && |rx.chunk| + |bytes| <= rx.chunkLen
    ensures MoreFaults(rx, bytes) ==> !Room(rx)
    ensures |rx.chunk| + |bytes| == rx.chunkLen && !Room(rx) ==> MoreFaults(rx, bytes)
  {
  }

  /** Adding bytes flushes exactly when the chunk becomes complete. */
  lemma PartialFlush(rx: Rx, bytes: seq<Byte>)
    requires rx.chunkLen >= 1 && |rx.chunk| + |bytes| <= rx.chunkLen
    ensures var all := rx.chunk + bytes;
            BuildMore(rx, bytes) ==
            if |all| < rx.chunkLen then rx.(chunk := all)
            else rx.(chunk := all, msg := rx.msg + all[..rx.chunkLen - 1])
  {
  }

  lemma ReadMoreUnfold(rx: Rx, window: seq<Byte>, pos: nat, end: nat, max: nat)
    requires pos < end <= |window| && max > 0
    ensures var len := Min(Min(end - pos, max), READ_SIZE);
            var next := BuildMore(rx, window[pos..pos + len]);
            1 <= len <= end - pos &&
            ReadMore(rx, window, pos, end, max) ==
            if pos + len == end then next else ReadMore(next, window, pos + len, end, max)
  {
    hide BuildMore;
  }

  // ----- one chunk -----

  /** A receiver whose current chunk has arrived in full from the window. */
  function Complete(rx: Rx, window: seq<Byte>): Rx
    requires rx.chunkLen >= 1 && rx.hdrLen + rx.chunkLen <= |window|
  {
    rx.(chunk := window[rx.hdrLen..rx.hdrLen + rx.chunkLen],
        msg := rx.msg + window[rx.hdrLen..rx.hdrLen + rx.chunkLen - 1])
  }

  lemma LastPart(rx: Rx, window: seq<Byte>, pos: nat)
    requires rx.chunkLen >= 1 && rx.hdrLen <= pos < rx.hdrLen + rx.chunkLen <= |window|
    requires rx.chunk == window[rx.hdrLen..pos]
    ensures BuildMore(rx, window[pos..rx.hdrLen + rx.chunkLen]) == Complete(rx, window)
  {
    hide BuildMore;
    var end := rx.hdrLen + rx.chunkLen;
    PartialFlush(rx, window[pos..end]);
    Slices.Join(window, rx.hdrLen, pos, end);
    Slices.TakeOf(window, rx.hdrLen, end, rx.chunkLen - 1);
  }

  /** The remaining reads fetch the rest of the chunk, however it is cut. */
  lemma {:induction false} ReadMoreCompletes(rx: Rx, window: seq<Byte>, pos: nat, max: nat)
    requires max > 0 && rx.chunkLen >= 1
    requires rx.hdrLen <= pos < rx.hdrLen + rx.chunkLen <= |window|
    requires rx.chunk == window[rx.hdrLen..pos]
    ensures ReadMore(rx, window, pos, rx.hdrLen + rx.chunkLen, max) == Complete(rx, window)
    decreases |window| - pos
  {
    hide ReadMore, BuildMore;
    var end := rx.hdrLen + rx.chunkLen;
    ReadMoreUnfold(rx, window, pos, end, max);
    var len := Min(Min(end - pos, max), READ_SIZE);
    if pos + len < end {
      PartialFlush(rx, window[pos..pos + len]);
      Slices.Join(window, rx.hdrLen, pos, pos + len);
      ReadMoreCompletes(rx.(chunk := window[rx.hdrLen..pos + len]), window, pos + len, max);
    } else {
      LastPart(rx, window, pos);
    }
  }

  /** What reading one whole chunk does to the receiver. */
  function Absorbed(rx: Rx, h: Header, body: seq<Byte>): Rx
    requires |body| >= 1
  {
    AfterHeader(rx, h, body).(msg := rx.msg + body[..|body| - 1])
  }

  lemma DecodeWindow(h: Header, window: seq<Byte>, len: nat)
    requires InRange(h) && h.lct >= 1 && Encode(h) <= window && 0 < len <= |window|
    ensures Decode(window[..len]) == if HeaderSize(h) <= len then Some(h) else None
  {
    var buf, n := window[..len], HeaderSize(h);
    assert buf[0] == Encode(h)[0];
    FieldsOfEncode(h);
    if n <= len {
      assert buf == Encode(h) + buf[n..];
      DecodeInvertsEncode(h, buf[n..]);
    }
  }

  /** Such a chunk exists: a right header that announces an empty body. */
  lemma EmptyBodyOverruns() returns (h: Header)
    ensures InRange(h) && |Encode(h)| > 0 && Decode(Encode(h)) == Some(h) && Overruns(ZEROED, Encode(h))
  {
    hide Encode, Decode;
    h := Header(1, 0, [], false, false, 0, true, true, 0);
    var buf := Encode(h);
    assert buf[..|buf|] == buf;
    DecodeWindow(h, buf, |buf|);
  }

  lemma NoMoreReads(rx: Rx, window: seq<Byte>, pos: nat, end: nat, max: nat)
    requires end <= |window| && max > 0 && end <= pos
    ensures ReadMore(rx, window, pos, end, max) == rx
  {
  }

  /** The first read of a chunk whose header it covers. */
  lemma FirstRead(rx: Rx, h: Header, window: seq<Byte>, len: nat)
    requires InRange(h) && h.msgLen >= 1 && HeaderSize(h) <= len <= |window|
    requires Decode(window[..len]) == Some(h) && !(h.somt && rx.haveSomt)
    ensures var n, end := HeaderSize(h), HeaderSize(h) + h.msgLen;
            BuildFirst(rx, window[..len]) ==
            (if len < end then AfterHeader(rx, h, window[n..len])
             else AfterHeader(rx, h, window[n..end]).(msg := rx.msg + window[n..end - 1]), true)
  {
    hide Decode;
    var n, end := HeaderSize(h), HeaderSize(h) + h.msgLen;
    if len < end {
      Slices.SliceOfTake(window, len, n, len);
    } else {
      Slices.SliceOfTake(window, len, n, end);
      Slices.TakeOf(window, n, end, h.msgLen - 1);
    }
  }

  /** A window that starts with a chunk whose parts are header and body, and room to take it in. */
  ghost predicate Holds(rx: Rx, h: Header, body: seq<Byte>, window: seq<Byte>) {
    InRange(h) && h.lct >= 1 && h.msgLen == |body| >= 1 && |body| <= CHUNK_SIZE && |rx.msg| + |body| <= 256 &&
    READ_SIZE <= |window| && Encode(h) + body <= window && !(h.somt && rx.haveSomt)
  }

  lemma ChunkReadable(rx: Rx, h: Header, body: seq<Byte>, window: seq<Byte>, max: nat)
    requires Holds(rx, h, body, window) && max > 0
    ensures Readable(rx, window, max)
  {
    hide Decode, Encode, InRange;
    Slices.Middle(Encode(h), body, window);
    DecodeWindow(h, window, Min(max, READ_SIZE));
  }

  /** The window starts with a chunk whose header the first read brings in. */
  ghost predicate HeadedBy(window: seq<Byte>, max: nat, h: Header) {
    0 < Min(max, READ_SIZE) <= |window| && Decode(window[..Min(max, READ_SIZE)]) == Some(h)
  }

  /**
   A message that starts again before it is complete: the chunk is not taken in, and what comes
   after it is received as if it had never arrived.
   */
  lemma RepeatedStartIgnored(rx: Rx, again: seq<Byte>, window: seq<Byte>, max: nat, h: Header, h1: Header)
    requires HeadedBy(again, max, h) && h.somt && rx.haveSomt && Readable(rx, again, max)
    requires HeadedBy(window, max, h1)
    ensures var rx1 := Receive(rx, again, max);
            rx1.msg == rx.msg && rx1.initial == rx.initial && rx1.haveSomt && rx1.haveEomt == rx.haveEomt &&
            rx1.chunk == rx.chunk && (Readable(rx1, window, max) <==> Readable(rx, window, max)) &&
            (!h1.somt && Readable(rx, window, max) ==> Receive(rx1, window, max) == Receive(rx, window, max))
  {
    hide Decode, Covers;
  }

  /** Without the whole header in the first read the receiver does not change. */
  lemma ChunkRefused(rx: Rx, h: Header, body: seq<Byte>, window: seq<Byte>, max: nat)
    requires Holds(rx, h, body, window) && 0 < max && Min(max, READ_SIZE) < HeaderSize(h)
    requires Readable(rx, window, max)
    ensures Receive(rx, window, max) == rx
  {
    hide Decode, Encode, InRange, Readable, ReadMore;
    Slices.Middle(Encode(h), body, window);
    DecodeWindow(h, window, Min(max, READ_SIZE));
  }

  lemma ReceiveUnfold(rx: Rx, window: seq<Byte>, max: nat, rx1: Rx)
    requires Readable(rx, window, max)
    requires BuildFirst(rx, window[..Min(max, READ_SIZE)]) == (rx1, true)
    requires rx1.chunkLen + rx1.hdrLen <= |window|
    ensures Receive(rx, window, max) == ReadMore(rx1, window, Min(max, READ_SIZE), rx1.chunkLen + rx1.hdrLen, max)
  {
    hide BuildFirst, ReadMore, Readable;
  }

  /** A first read and the reads after it, up to the end of the chunk. */
  lemma ReadsJoin(rx: Rx, h: Header, window: seq<Byte>, len: nat, max: nat, rx1: Rx)
    requires InRange(h) && h.msgLen >= 1 && max > 0 && HeaderSize(h) <= len
    requires HeaderSize(h) + h.msgLen <= |window| && len <= |window|
    requires var n, end := HeaderSize(h), HeaderSize(h) + h.msgLen;
             rx1 == if len < end then AfterHeader(rx, h, window[n..len])
                    else AfterHeader(rx, h, window[n..end]).(msg := rx.msg + window[n..end - 1])
    ensures var n, end := HeaderSize(h), HeaderSize(h) + h.msgLen;
            ReadMore(rx1, window, len, end, max) ==
            AfterHeader(rx, h, window[n..end]).(msg := rx.msg + window[n..end - 1])
  {
    hide ReadMore, InRange;
    if len < HeaderSize(h) + h.msgLen {
      ReadMoreCompletes(rx1, window, len, max);
    } else {
      NoMoreReads(rx1, window, len, HeaderSize(h) + h.msgLen, max);
    }
  }

  /** With it, the whole chunk is absorbed. */
  lemma ChunkAbsorbed(rx: Rx, h: Header, body: seq<Byte>, window: seq<Byte>, max: nat)
    requires Holds(rx, h, body, window) && HeaderSize(h) <= Min(max, READ_SIZE)
    requires Readable(rx, window, max)
    ensures Receive(rx, window, max) == Absorbed(rx, h, body)
  {
    hide Decode, Encode, ReadMore, BuildFirst, Receive, Readable, InRange;
    var len, n, end := Min(max, READ_SIZE), HeaderSize(h), HeaderSize(h) + h.msgLen;
    Slices.Middle(Encode(h), body, window);
    DecodeWindow(h, window, len);
    FirstRead(rx, h, window, len);
    var rx1 := BuildFirst(rx, window[..len]).0;
    ReadsJoin(rx, h, window, len, max, rx1);
    ReceiveUnfold(rx, window, max, rx1);
    Slices.TakeOf(window, n, end, |body| - 1);
  }

  // ----- the whole message -----

  predicate AllReadable(rx: Rx, windows: seq<seq<Byte>>, max: nat)
    decreases |windows|
  {
    windows == [] ||
    (Readable(rx, windows[0], max) && AllReadable(Receive(rx, windows[0], max), windows[1..], max))
  }

  function ReceiveAll(rx: Rx, windows: seq<seq<Byte>>, max: nat): Rx
    requires AllReadable(rx, windows, max)
    decreases |windows|
  {
    if windows == [] then rx else ReceiveAll(Receive(rx, windows[0], max), windows[1..], max)
  }

  /** Each register window starts with the matching chunk. */
  ghost predicate Carries(windows: seq<seq<Byte>>, chunks: seq<seq<Byte>>) {
    |windows| == |chunks| &&
    forall i :: 0 <= i < |chunks| ==> |windows[i]| >= READ_SIZE && chunks[i] <= windows[i]
  }

  /** The receiver stands at `offset` of a message: it holds what came before and waits for more. */
  ghost predicate Waiting(rx: Rx, msg: seq<Byte>, offset: nat) {
    offset <= |msg| && rx.msg == msg[..offset] && rx.haveSomt == (offset > 0) && !rx.haveEomt
  }

  lemma ChunkIs(r: Route, msg: seq<Byte>, offset: nat)
    requires ValidRoute(r) && offset <= |msg|
    ensures var data := msg[offset..offset + ToSend(r, |msg| - offset)];
            ChunkAt(r, msg, offset) == Encode(ChunkHeader(r, |msg|, offset)) + (data + [DataCrc(data)])
  {
    hide Encode, DataCrc, InRange;
  }

  // ----- a chunk on the wire -----

  /** What the header of the chunk that starts at `offset` of a message has to say. */
  ghost predicate Announces(h: Header, r: Route, msg: seq<Byte>, offset: nat) {
    h.lct == r.lct && h.lcr == r.lct - 1 && h.rad == r.rad && !h.broadcast && h.pathMsg == r.pathMsg &&
    h.seqno == r.seqno && h.msgLen >= 1 && (h.somt <==> offset == 0) && (h.eomt <==> offset + h.msgLen - 1 == |msg|)
  }

  /** Header, payload and checksum of some bytes on the wire, read without knowing who sent them. */
  ghost predicate OnWire(chunk: seq<Byte>, h: Header, payload: seq<Byte>) {
    |chunk| > 0 && Decode(chunk) == Some(h) && |chunk| == HeaderSize(h) + h.msgLen && h.msgLen == |payload| + 1 &&
    chunk[HeaderSize(h)..|chunk| - 1] == payload && Divides(DATA_GENERATOR, FromBits(Bits(chunk[HeaderSize(h)..])))
  }

  lemma DataSealed(data: seq<Byte>)
    ensures Divides(DATA_GENERATOR, FromBits(Bits(data + [DataCrc(data)])))
  {
    var crc := DataCrc(data);
    BitsConcat(data, [crc]);
    BitsOfByte(crc);
    hide Bits, Divides, Rem8, Low;
    Crc8IffMultiple(Bits(data), crc, Bits([crc]));
  }

  /**
   For every route, message and offset: the chunk decodes to a header for that route, carries the next
   payload bytes behind it, is as long as it may be unless it is the last, and its checksum is right.
   */
  lemma ChunkOnWire(r: Route, msg: seq<Byte>, offset: nat) returns (h: Header, payload: seq<Byte>)
    requires ValidRoute(r) && offset <= |msg|
    ensures OnWire(ChunkAt(r, msg, offset), h, payload) && Announces(h, r, msg, offset)
    ensures offset + |payload| <= |msg| && payload == msg[offset..offset + |payload|]
    ensures h.eomt || |ChunkAt(r, msg, offset)| == CHUNK_SIZE
  {
    hide Encode, Decode, DataCrc, Bits, Divides, FromBits, ChunkAt;
    h := ChunkHeader(r, |msg|, offset);
    payload := msg[offset..offset + ToSend(r, |msg| - offset)];
    var body := payload + [DataCrc(payload)];
    ChunkIs(r, msg, offset);
    DecodeInvertsEncode(h, body);
    DataSealed(payload);
    var chunk := ChunkAt(r, msg, offset);
    assert chunk[HeaderSize(h)..] == body;
    assert chunk[HeaderSize(h)..|chunk| - 1] == payload;
  }

  /** The first header of a message says where it goes and under which number. */
  lemma FirstAnnounces(r: Route, msg: seq<Byte>)
    requires ValidRoute(r)
    ensures Announces(ChunkHeader(r, |msg|, 0), r, msg, 0)
  {
  }

  // ----- the whole message, chunk by chunk -----

  /** One chunk moves a waiting receiver on. */
  lemma OneChunk(r: Route, msg: seq<Byte>, offset: nat, rx: Rx, window: seq<Byte>, max: nat)
    requires ValidRoute(r) && |msg| <= 255 && Waiting(rx, msg, offset)
    requires 3 + r.lct / 2 <= max && READ_SIZE <= |window| && ChunkAt(r, msg, offset) <= window
    ensures Readable(rx, window, max)
    ensures var rx1, next := Receive(rx, window, max), offset + ToSend(r, |msg| - offset);
            rx1.msg == msg[..next] && rx1.haveSomt && rx1.haveEomt == (next == |msg|) &&
            rx1.initial == if offset == 0 then ChunkHeader(r, |msg|, 0) else rx.initial
  {
    hide Encode, DataCrc, Receive, Readable, InRange, ChunkAt;
    var h, next := ChunkHeader(r, |msg|, offset), offset + ToSend(r, |msg| - offset);
    var data := msg[offset..next];
    var body := data + [DataCrc(data)];
    ChunkIs(r, msg, offset);
    ChunkReadable(rx, h, body, window, max);
    ChunkAbsorbed(rx, h, body, window, max);
    assert body[..|body| - 1] == data;
    Slices.Join(msg, 0, offset, next);
  }

  /** Where the k chunks from `offset` on end in a message of the given length. */
  function OffsetAfter(r: Route, total: nat, offset: nat, k: nat): (end: nat)
    requires ValidRoute(r) && offset <= total
    ensures offset <= end <= total
    decreases k
  {
    if k == 0 then offset else OffsetAfter(r, total, offset + ToSend(r, total - offset), k - 1)
  }

  /** The receiver has read k chunks of a message from `offset` on, out of n. */
  ghost predicate Progress(r: Route, msg: seq<Byte>, offset: nat, k: nat, n: nat, out: Rx)
    requires ValidRoute(r) && offset <= |msg|
  {
    out.haveSomt == (offset > 0 || k > 0) && out.haveEomt == (k == n) && (k == n ==> out.msg == msg) &&
    out.msg == msg[..OffsetAfter(r, |msg|, offset, k)] &&
    (out.haveSomt ==> out.initial == ChunkHeader(r, |msg|, 0))
  }

  lemma FragmentsTail(r: Route, msg: seq<Byte>, offset: nat)
    requires ValidRoute(r) && offset <= |msg|
    ensures var chunks, next := Fragments(r, msg, offset), offset + ToSend(r, |msg| - offset);
            chunks[0] == ChunkAt(r, msg, offset) &&
            chunks[1..] == if next < |msg| then Fragments(r, msg, next) else []
  {
    hide ChunkAt;
  }

  /** A receiver that is waiting for the chunks in `windows`. */
  ghost predicate Expects(r: Route, msg: seq<Byte>, offset: nat, rx: Rx, windows: seq<seq<Byte>>, max: nat) {
    ValidRoute(r) && |msg| <= 255 && Waiting(rx, msg, offset) && 3 + r.lct / 2 <= max &&
    Carries(windows, Fragments(r, msg, offset)) &&
    (offset > 0 ==> rx.initial == ChunkHeader(r, |msg|, 0) && offset < |msg|)
  }

  /** After one chunk it is either waiting for the rest or done. */
  lemma ExpectsNext(r: Route, msg: seq<Byte>, offset: nat, rx: Rx, windows: seq<seq<Byte>>, max: nat)
    requires Expects(r, msg, offset, rx, windows, max)
    ensures Readable(rx, windows[0], max)
    ensures var rx1, next := Receive(rx, windows[0], max), offset + ToSend(r, |msg| - offset);
            if |windows| == 1 then Progress(r, msg, offset, 1, 1, rx1)
            else 0 < next < |msg| && Expects(r, msg, next, rx1, windows[1..], max)
  {
    hide Receive, Readable, ChunkAt, ChunkHeader, Fragments, Carries;
    FragmentsTail(r, msg, offset);
    CarriesTail(windows, Fragments(r, msg, offset));
    OneChunk(r, msg, offset, rx, windows[0], max);
  }

  lemma CarriesTail(windows: seq<seq<Byte>>, chunks: seq<seq<Byte>>)
    requires Carries(windows, chunks) && |chunks| >= 1
    ensures Carries(windows[1..], chunks[1..]) && chunks[0] <= windows[0] && |windows[0]| >= READ_SIZE
    ensures |windows| == |chunks|
  {
  }

  lemma ReceiveAllCons(rx: Rx, windows: seq<seq<Byte>>, max: nat)
    requires |windows| > 0 && Readable(rx, windows[0], max)
    requires AllReadable(Receive(rx, windows[0], max), windows[1..], max)
    ensures AllReadable(rx, windows, max)
    ensures ReceiveAll(rx, windows, max) == ReceiveAll(Receive(rx, windows[0], max), windows[1..], max)
  {
    hide Receive, Readable;
  }

  lemma {:induction false} ReceivePrefix(r: Route, msg: seq<Byte>, offset: nat, rx: Rx,
                                         windows: seq<seq<Byte>>, k: nat, max: nat)
    requires Expects(r, msg, offset, rx, windows, max) && k <= |windows|
    ensures AllReadable(rx, windows[..k], max)
    ensures Progress(r, msg, offset, k, |windows|, ReceiveAll(rx, windows[..k], max))
    decreases k
  {
    hide Receive, Readable, ChunkAt, ChunkHeader, Fragments, Carries;
    if k > 0 {
      ExpectsNext(r, msg, offset, rx, windows, max);
      Slices.TailTake(windows, k);
      var rx1, next := Receive(rx, windows[0], max), offset + ToSend(r, |msg| - offset);
      if |windows| > 1 {
        ReceivePrefix(r, msg, next, rx1, windows[1..], k - 1, max);
      } else {
        assert windows[1..][..k - 1] == [];
      }
      ReceiveAllCons(rx, windows[..k], max);
    } else {
      CarriesTail(windows, Fragments(r, msg, offset));
    }
  }

  /**
   Fragmenting and reassembling is the identity: after all the chunks the receiver holds the
   message and its first header; before the last chunk it knows it is not finished.
   */
  lemma FragmentThenReassemble(r: Route, msg: seq<Byte>, windows: seq<seq<Byte>>, max: nat)
    requires ValidRoute(r) && |msg| <= 255 && 3 + r.lct / 2 <= max
    requires Carries(windows, Fragments(r, msg, 0))
    ensures AllReadable(ZEROED, windows, max)
    ensures ReceiveAll(ZEROED, windows, max).msg == msg
    ensures ReceiveAll(ZEROED, windows, max).initial == ChunkHeader(r, |msg|, 0)
    ensures Announces(ReceiveAll(ZEROED, windows, max).initial, r, msg, 0)
    ensures forall k :: 0 <= k <= |windows| ==>
              AllReadable(ZEROED, windows[..k], max) &&
              ReceiveAll(ZEROED, windows[..k], max).msg == msg[..OffsetAfter(r, |msg|, 0, k)] &&
              ReceiveAll(ZEROED, windows[..k], max).haveSomt == (k > 0) &&
              ReceiveAll(ZEROED, windows[..k], max).haveEomt == (k == |windows|)
  {
    forall k | 0 <= k <= |windows|
      ensures AllReadable(ZEROED, windows[..k], max) &&
              ReceiveAll(ZEROED, windows[..k], max).msg == msg[..OffsetAfter(r, |msg|, 0, k)] &&
              ReceiveAll(ZEROED, windows[..k], max).haveSomt == (k > 0) &&
              ReceiveAll(ZEROED, windows[..k], max).haveEomt == (k == |windows|)
    {
      ReceivePrefix(r, msg, 0, ZEROED, windows, k, max);
    }
    ReceivePrefix(r, msg, 0, ZEROED, windows, |windows|, max);
    assert windows[..|windows|] == windows;
    FirstAnnounces(r, msg);
  }

  /** With reads too short for the header nothing ever arrives. */
  lemma {:induction false} ShortReadsLoseMessage(r: Route, msg: seq<Byte>, offset: nat,
                                                 windows: seq<seq<Byte>>, max: nat)
    requires ValidRoute(r) && offset <= |msg| <= 255 && 0 < max < 3 + r.lct / 2
    requires Carries(windows, Fragments(r, msg, offset))
    ensures AllReadable(ZEROED, windows, max) && ReceiveAll(ZEROED, windows, max) == ZEROED
    decreases |windows|
  {
    hide Receive, Readable, ChunkAt, ChunkHeader, Fragments, Carries;
    var next := offset + ToSend(r, |msg| - offset);
    FragmentsTail(r, msg, offset);
    CarriesTail(windows, Fragments(r, msg, offset));
    ShortRead(r, msg, offset, windows[0], max);
    if next < |msg| {
      ShortReadsLoseMessage(r, msg, next, windows[1..], max);
    }
  }

  lemma ShortRead(r: Route, msg: seq<Byte>, offset: nat, window: seq<Byte>, max: nat)
    requires ValidRoute(r) && offset <= |msg| <= 255 && 0 < max < 3 + r.lct / 2
    requires READ_SIZE <= |window| && ChunkAt(r, msg, offset) <= window
    ensures Readable(ZEROED, window, max) && Receive(ZEROED, window, max) == ZEROED
  {
    hide Receive, Readable, Encode, DataCrc, InRange;
    var h, next := ChunkHeader(r, |msg|, offset), offset + ToSend(r, |msg| - offset);
    var data := msg[offset..next];
    var body := data + [DataCrc(data)];
    assert ChunkAt(r, msg, offset) == Encode(h) + body;
    ChunkReadable(ZEROED, h, body, window, max);
    ChunkRefused(ZEROED, h, body, window, max);
  }

  /** Sender and receiver back to back: the registers hold each chunk until it has been read. */
  method Transfer(r: Route, msg: seq<Byte>, max: nat, rx: Receiver)
    requires ValidRoute(r) && |msg| <= 255 && 3 + r.lct / 2 <= max
    requires rx.Valid() && rx.View() == ZEROED
    modifies rx, rx.chunk, rx.msg
    ensures rx.Valid() && rx.haveSomt && rx.haveEomt && rx.View().msg == msg
    ensures rx.initial == ChunkHeader(r, |msg|, 0) && Announces(rx.initial, r, msg, 0)
  {
    hide ChunkAt, ChunkHeader, Receive, Readable, Covers, Overruns;
    var chunk := new Byte[CHUNK_SIZE](i => 0);
    var offset := 0;
    while !rx.haveEomt
      invariant rx.Valid()
      invariant Underway(r, msg, offset, rx.View())
      decreases |msg| - offset, !rx.haveEomt
    {
      ghost var before := rx.View();
      var len, next, h := BuildTxChunk(r, msg, offset, chunk);
      assert chunk[..len] <= chunk[..] && rx.View() == before;
      OneChunk(r, msg, offset, before, chunk[..], max);
      ReadableMeans(before, chunk[..], max);
      var fault := rx.GetOne(chunk[..], max, true);
      offset := next;
      assert msg[..|msg|] == msg;
    }
    FirstAnnounces(r, msg);
  }

  /** Between two chunks: either the whole message has arrived or the receiver waits at `offset`. */
  ghost predicate Underway(r: Route, msg: seq<Byte>, offset: nat, rx: Rx)
    requires ValidRoute(r)
  {
    (if rx.haveEomt then offset == |msg| && rx.haveSomt && rx.msg == msg
     else Waiting(rx, msg, offset) && (offset == |msg| ==> offset == 0)) &&
    (rx.haveSomt ==> rx.initial == ChunkHeader(r, |msg|, 0))
  }
}
