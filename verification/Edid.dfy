/**
 EDID records: 128-byte blocks, a base block and the extension blocks it announces. A record is
 fetched block by block from a display, with retries, or loaded as a whole from a firmware file
 and compacted in place. Both keep the valid extensions and adjust the base block to match.
 */
module Edid {

  import opened Options
  import opened Words
  import Slices

  const LENGTH: nat := 128
  const COUNT: nat := 0x7e
  const CHECKSUM: nat := 0x7f
  const VERSION: nat := 0x12
  const HEADER: seq<Byte> := [0x00, 0xff, 0xff, 0xff, 0xff, 0xff, 0xff, 0x00]

  type Block = b: seq<Byte> | |b| == LENGTH witness seq(LENGTH, _ => 0)

  // ----- one block -----

  /** How many of the first n header bytes are right. */
  function Score(b: seq<Byte>, n: nat): (r: nat)
    requires n <= 8 && n <= |b|
    ensures r <= n && (r == n <==> b[..n] == HEADER[..n])
  {
    if n == 0 then 0
    else
      assert b[..n] == b[..n - 1] + [b[n - 1]];
      assert HEADER[..n] == HEADER[..n - 1] + [HEADER[n - 1]];
      Score(b, n - 1) + if b[n - 1] == HEADER[n - 1] then 1 else 0
  }

  function Sum(b: seq<Byte>): (r: nat) {
    if b == [] then 0 else Sum(b[..|b| - 1]) + b[|b| - 1]
  }

  /** The number of right header bytes that is enough to repair a header. */
  function Threshold(fixup: int): (r: int)
    ensures 0 <= r <= 8
  {
    if fixup > 8 || fixup < 0 then 6 else fixup
  }

  /** The tests that apply to every block; CEA extensions may have a wrong checksum. */
  predicate BodyOk(b: seq<Byte>)
    requires |b| == LENGTH
  {
    (Sum(b) % 256 == 0 || b[0] == 0x02) && (b[0] == 0 ==> b[VERSION] == 1)
  }

  function Repaired(b: seq<Byte>): (r: seq<Byte>)
    requires |b| == LENGTH
    ensures |r| == LENGTH && Score(r, 8) == 8 && r[8..] == b[8..]
  {
    HEADER + b[8..]
  }

  predicate BaseOk(b: seq<Byte>, fixup: int)
    requires |b| == LENGTH
  {
    Score(b, 8) >= Threshold(fixup) && BodyOk(Repaired(b))
  }

  lemma PerfectHeader(b: seq<Byte>)
    requires |b| == LENGTH && Score(b, 8) == 8
    ensures Repaired(b) == b
  {
    assert b[..8] == HEADER[..8] == HEADER;
    assert b == b[..8] + b[8..];
  }

  // ----- whole records -----

  function BlockAt(img: seq<Byte>, k: nat): (r: Block)
    requires (k + 1) * LENGTH <= |img|
  {
    img[k * LENGTH..(k + 1) * LENGTH]
  }

  /** What drm_edid_is_valid asks of a record. */
  ghost predicate RecordOk(img: seq<Byte>, fixup: int) {
    |img| >= LENGTH && |img| >= (img[COUNT] + 1) * LENGTH && BaseOk(BlockAt(img, 0), fixup) &&
    forall k :: 1 <= k <= img[COUNT] ==> ExtensionOk(img, k)
  }

  ghost predicate ExtensionOk(img: seq<Byte>, k: nat)
    requires |img| >= (k + 1) * LENGTH
  {
    BodyOk(BlockAt(img, k))
  }

  /** The valid ones among extensions 1 to n, in order. */
  ghost function Kept(img: seq<Byte>, n: nat): (r: seq<Byte>)
    requires (n + 1) * LENGTH <= |img|
    ensures |r| == KeptCount(img, n) * LENGTH
  {
    if n == 0 then []
    else Kept(img, n - 1) + if BodyOk(BlockAt(img, n)) then BlockAt(img, n) else []
  }

  ghost function KeptCount(img: seq<Byte>, n: nat): (r: nat)
    requires (n + 1) * LENGTH <= |img|
    ensures r <= n
  {
    if n == 0 then 0 else KeptCount(img, n - 1) + if BodyOk(BlockAt(img, n)) then 1 else 0
  }

  /** The base block announcing another number of extensions, with its checksum made right again. */
  function Adjusted(base: seq<Byte>, count: Byte): (r: seq<Byte>)
    requires |base| == LENGTH
    ensures |r| == LENGTH
  {
    base[COUNT := count][CHECKSUM := AsByte(base[CHECKSUM] + base[COUNT] - count)]
  }

  /** Arithmetic on bytes wraps around. */
  function AsByte(x: int): Byte {
    x % 256
  }

  /** The record both routines are to produce. */
  ghost function Compacted(img: seq<Byte>): (r: seq<Byte>)
    requires |img| >= LENGTH && |img| == (img[COUNT] + 1) * LENGTH
  {
    var n := img[COUNT];
    Adjusted(Repaired(BlockAt(img, 0)), KeptCount(img, n)) + Kept(img, n)
  }

  lemma {:induction false} SumUpdate(b: seq<Byte>, i: nat, x: Byte)
    requires i < |b|
    ensures Sum(b[i := x]) == Sum(b) - b[i] + x
  {
    var n := |b| - 1;
    if i == n {
      assert b[i := x][..n] == b[..n];
    } else {
      assert b[i := x][..n] == b[..n][i := x];
      SumUpdate(b[..n], i, x);
    }
  }

  /** Adjusting keeps a block's checksum. */
  lemma AdjustedSum(base: seq<Byte>, count: Byte)
    requires |base| == LENGTH
    ensures Sum(Adjusted(base, count)) % 256 == Sum(base) % 256
  {
    hide Sum, AsByte, Adjusted;
    var d := base[CHECKSUM] + base[COUNT] - count;
    var y := AsByte(d);
    AdjustedIs(base, count, y);
    SumUpdate2(base, COUNT, CHECKSUM, count, y);
    SameMod256(Sum(base), d, y);
  }

  lemma AdjustedIs(base: seq<Byte>, count: Byte, y: Byte)
    requires |base| == LENGTH && y == AsByte(base[CHECKSUM] + base[COUNT] - count)
    ensures Adjusted(base, count) == base[COUNT := count][CHECKSUM := y]
  {
  }

  lemma SumUpdate2(b: seq<Byte>, i: nat, j: nat, x: Byte, y: Byte)
    requires i < |b| && j < |b| && i != j
    ensures Sum(b[i := x][j := y]) == Sum(b) - b[i] - b[j] + x + y
  {
    hide Sum;
    SumUpdate(b, i, x);
    SumUpdate(b[i := x], j, y);
  }

  lemma SameMod256(a: int, d: int, y: int)
    requires y == AsByte(d)
    ensures (a - d + y) % 256 == a % 256
  {
    assert a - d + y == a - 256 * (d / 256);
  }

  lemma AdjustedOk(base: seq<Byte>, count: Byte, fixup: int)
    requires |base| == LENGTH && BaseOk(base, fixup)
    ensures BaseOk(Adjusted(Repaired(base), count), fixup)
    ensures Repaired(Adjusted(Repaired(base), count)) == Adjusted(Repaired(base), count)
  {
    hide Sum;
    var r := Repaired(base);
    var a := Adjusted(r, count);
    AdjustedSum(r, count);
    assert a[..8] == r[..8] == HEADER;
    PerfectHeader(a);
  }

  lemma {:induction false} KeptBlock(img: seq<Byte>, n: nat, k: nat)
    requires (n + 1) * LENGTH <= |img| && k < KeptCount(img, n)
    ensures BodyOk(BlockAt(Kept(img, n), k))
  {
    hide BodyOk;
    var before := KeptCount(img, n - 1);
    if k < before {
      KeptBlock(img, n - 1, k);
      assert BlockAt(Kept(img, n), k) == BlockAt(Kept(img, n - 1), k);
    } else {
      assert BlockAt(Kept(img, n), k) == BlockAt(img, n);
    }
  }

  lemma CompactedBlocks(img: seq<Byte>)
    requires |img| >= LENGTH && |img| == (img[COUNT] + 1) * LENGTH
    ensures var r := Compacted(img); var m := KeptCount(img, img[COUNT]);
            |r| == (m + 1) * LENGTH && r[COUNT] == m && BlockAt(r, 0) == Adjusted(Repaired(BlockAt(img, 0)), m) &&
            r[LENGTH..] == Kept(img, img[COUNT]) &&
            forall k :: 1 <= k <= m ==> BlockAt(r, k) == BlockAt(Kept(img, img[COUNT]), k - 1)
  {
    hide Kept, KeptCount, Repaired;
    var m := KeptCount(img, img[COUNT]);
    var head, tail := Adjusted(Repaired(BlockAt(img, 0)), m), Kept(img, img[COUNT]);
    var r := Compacted(img);
    assert r == head + tail;
    hide Compacted, Adjusted;
    assert r[..LENGTH] == head && r[LENGTH..] == tail;
    forall k | 1 <= k <= m ensures BlockAt(r, k) == BlockAt(tail, k - 1) {
      assert (head + tail)[k * LENGTH..(k + 1) * LENGTH] == tail[(k - 1) * LENGTH..k * LENGTH];
    }
    AdjustedCount(Repaired(BlockAt(img, 0)), m);
  }

  lemma AdjustedCount(base: seq<Byte>, count: Byte)
    requires |base| == LENGTH
    ensures Adjusted(base, count)[COUNT] == count
    ensures base[COUNT] == count ==> Adjusted(base, count) == base
  {
  }

  /** What is produced from a record with a good base block passes the record test itself. */
  lemma CompactedOk(img: seq<Byte>, fixup: int)
    requires |img| >= LENGTH && |img| == (img[COUNT] + 1) * LENGTH && BaseOk(BlockAt(img, 0), fixup)
    ensures RecordOk(Compacted(img), fixup)
  {
    hide BodyOk, BaseOk, Adjusted, Repaired, Compacted;
    CompactedBlocks(img);
    var m := KeptCount(img, img[COUNT]);
    AdjustedOk(BlockAt(img, 0), m, fixup);
    forall k | 1 <= k <= m ensures ExtensionOk(Compacted(img), k) { KeptBlock(img, img[COUNT], k - 1); }
  }

  lemma {:induction false} AllKept(img: seq<Byte>, n: nat)
    requires (n + 1) * LENGTH <= |img| && forall k :: 1 <= k <= n ==> ExtensionOk(img, k)
    ensures KeptCount(img, n) == n && Kept(img, n) == img[LENGTH..(n + 1) * LENGTH]
  {
    hide BodyOk;
    if n > 0 {
      AllKept(img, n - 1);
      assert ExtensionOk(img, n);
      assert img[LENGTH..n * LENGTH] + img[n * LENGTH..(n + 1) * LENGTH] == img[LENGTH..(n + 1) * LENGTH];
    }
  }

  /** A record that passes the test with a perfect header is left alone. */
  lemma GoodRecordUnchanged(img: seq<Byte>, fixup: int)
    requires RecordOk(img, fixup) && |img| == (img[COUNT] + 1) * LENGTH && Score(img, 8) == 8
    ensures Compacted(img) == img
  {
    hide BodyOk;
    AllKept(img, img[COUNT]);
    var base := BlockAt(img, 0);
    ScorePrefix(img, base, 8);
    PerfectHeader(base);
    AdjustedCount(base, img[COUNT]);
    assert img == img[..LENGTH] + img[LENGTH..];
  }

  lemma {:induction false} ScorePrefix(a: seq<Byte>, b: seq<Byte>, n: nat)
    requires n <= 8 && n <= |a| && n <= |b| && a[..n] == b[..n]
    ensures Score(a, n) == Score(b, n)
  {
    if n > 0 {
      assert a[n - 1] == a[..n][n - 1] == b[n - 1];
      assert a[..n - 1] == a[..n][..n - 1] == b[..n - 1];
      ScorePrefix(a, b, n - 1);
    }
  }

  /** Compacting twice is compacting once. */
  lemma CompactedTwice(img: seq<Byte>, fixup: int)
    requires |img| >= LENGTH && |img| == (img[COUNT] + 1) * LENGTH && BaseOk(BlockAt(img, 0), fixup)
    ensures var r := Compacted(img); |r| == (r[COUNT] + 1) * LENGTH && Compacted(r) == r
  {
    hide BodyOk, BaseOk, Compacted, Adjusted;
    CompactedOk(img, fixup);
    CompactedBlocks(img);
    var r := Compacted(img);
    var base := Repaired(BlockAt(img, 0));
    AdjustedHeader(base, KeptCount(img, img[COUNT]));
    assert r[..8] == BlockAt(r, 0)[..8];
    ScorePrefix(r, base, 8);
    GoodRecordUnchanged(r, fixup);
  }

  lemma AdjustedHeader(base: seq<Byte>, count: Byte)
    requires |base| == LENGTH
    ensures Adjusted(base, count)[..8] == base[..8]
  {
  }

  // ----- one block, in place -----

  /** The sequence with the bytes from at on replaced. */
  function Put(s: seq<Byte>, at: nat, b: seq<Byte>): (r: seq<Byte>)
    requires at + |b| <= |s|
    ensures |r| == |s| && r[..at] == s[..at] && r[at..at + |b|] == b && r[at + |b|..] == s[at + |b|..]
  {
    s[..at] + b + s[at + |b|..]
  }

  /** memcpy. */
  method CopyIn(a: array<Byte>, at: nat, b: seq<Byte>)
    requires at + |b| <= a.Length
    modifies a
    ensures a[..] == Put(old(a[..]), at, b)
  {
    var i := 0;
    while i < |b|
      invariant 0 <= i <= |b|
      invariant a[..at] == old(a[..at]) && a[at..at + i] == b[..i] && a[at + i..] == old(a[at + i..])
    {
      a[at + i] := b[i];
      i := i + 1;
    }
    assert a[..] == a[..at] + a[at..at + |b|] + a[at + |b|..];
  }

  /** drm_edid_header_is_valid. */
  method HeaderScore(raw: array<Byte>, at: nat) returns (score: nat)
    requires at + LENGTH <= raw.Length
    ensures score == Score(raw[at..at + LENGTH], 8)
  {
    score := 0;
    ghost var b := raw[at..at + LENGTH];
    var i := 0;
    while i < 8
      invariant 0 <= i <= 8 && score == Score(b, i)
    {
      if raw[at + i] == HEADER[i] { score := score + 1; }
      i := i + 1;
    }
  }

  /** drm_edid_block_checksum: the running sum is a byte. */
  method BlockChecksum(raw: array<Byte>, at: nat) returns (csum: Byte)
    requires at + LENGTH <= raw.Length
    ensures csum == Sum(raw[at..at + LENGTH]) % 256
  {
    csum := 0;
    ghost var b := raw[at..at + LENGTH];
    var i := 0;
    while i < LENGTH
      invariant 0 <= i <= LENGTH && csum == Sum(b[..i]) % 256
    {
      assert b[..i + 1][..i] == b[..i];
      csum := (csum + raw[at + i]) % 256;
      i := i + 1;
    }
    assert b[..LENGTH] == b;
  }

  method BodyValid(raw: array<Byte>, at: nat) returns (ok: bool)
    requires at + LENGTH <= raw.Length
    ensures ok == BodyOk(raw[at..at + LENGTH])
    ensures ok <==> (Sum(raw[at..at + LENGTH]) % 256 == 0 || raw[at] == 0x02) &&
                    (raw[at] == 0x00 ==> raw[at + 0x12] == 1)
  {
    var csum := BlockChecksum(raw, at);
    if csum != 0 && raw[at] != 0x02 { return false; }
    return raw[at] != 0 || raw[at + VERSION] == 1;
  }

  /** What drm_edid_block_valid leaves of a base block. */
  function AfterTest(b: seq<Byte>, fixup: int): (r: seq<Byte>)
    requires |b| == LENGTH
    ensures |r| == LENGTH && (BaseOk(b, fixup) ==> r == Repaired(b))
  {
    if Score(b, 8) >= Threshold(fixup) then Repaired(b) else b
  }

  /** drm_edid_block_valid: repairs the header of a base block if enough of it is right. */
  method BlockValid(raw: array<Byte>, at: nat, block: nat, fixup: int) returns (ok: bool)
    requires at + LENGTH <= raw.Length
    modifies raw
    ensures block == 0 ==> ok == BaseOk(old(raw[at..at + LENGTH]), fixup) &&
                           raw[..] == Put(old(raw[..]), at, AfterTest(old(raw[at..at + LENGTH]), fixup))
    ensures block != 0 ==> ok == BodyOk(old(raw[at..at + LENGTH])) && raw[..] == old(raw[..])
  {
    hide BodyOk;
    ghost var s := raw[..];
    ghost var b := raw[at..at + LENGTH];
    if block == 0 {
      var score := HeaderScore(raw, at);
      if score == 8 {
        PerfectHeader(b);
      } else if score >= Threshold(fixup) {
        CopyIn(raw, at, HEADER);
      } else {
        assert s == Put(s, at, b);
        return false;
      }
      assert raw[..] == Put(s, at, Repaired(b));
      assert raw[at..at + LENGTH] == Repaired(b);
    }
    ok := BodyValid(raw, at);
  }

  /** drm_edid_is_valid on a record with room for the blocks it announces. */
  method IsValid(raw: array<Byte>, fixup: int) returns (ok: bool)
    requires raw.Length >= LENGTH && raw.Length >= (raw[COUNT] + 1) * LENGTH
    modifies raw
    ensures ok == RecordOk(old(raw[..]), fixup)
    ensures Score(old(raw[..]), 8) == 8 ==> raw[..] == old(raw[..])
  {
    hide BodyOk, BaseOk, Repaired, AfterTest, ExtensionOk;
    ghost var s := raw[..];
    ScorePrefix(s, BlockAt(s, 0), 8);
    TestPerfect(s, fixup);
    ok := BlockValid(raw, 0, 0, fixup);
    assert raw[..] == Put(s, 0, AfterTest(BlockAt(s, 0), fixup));
    if !ok { return; }
    AfterTestCount(BlockAt(s, 0), fixup);
    assert raw[COUNT] == s[COUNT] && raw[..][LENGTH..] == s[LENGTH..];
    ok := ExtensionsValid(raw, fixup, s);
  }

  /** The rest of drm_edid_is_valid: the extensions, which the test leaves alone. */
  method ExtensionsValid(raw: array<Byte>, fixup: int, ghost s: seq<Byte>) returns (ok: bool)
    requires raw.Length == |s| >= LENGTH && |s| >= (s[COUNT] + 1) * LENGTH
    requires raw[COUNT] == s[COUNT] && raw[..][LENGTH..] == s[LENGTH..]
    modifies raw
    ensures ok <==> forall k :: 1 <= k <= s[COUNT] ==> ExtensionOk(s, k)
    ensures raw[..] == old(raw[..])
  {
    hide BodyOk, ExtensionOk;
    ghost var r := raw[..];
    var i := 1;
    while i <= raw[COUNT]
      invariant 1 <= i <= s[COUNT] as int + 1 && raw[..] == r
      invariant forall k :: 1 <= k < i ==> ExtensionOk(s, k)
      decreases 256 - i
    {
      Upper(r, s, i);
      ExtensionMeans(s, i);
      assert raw[i * LENGTH..(i + 1) * LENGTH] == r[i * LENGTH..(i + 1) * LENGTH];
      ok := BlockValid(raw, i * LENGTH, i, fixup);
      if !ok { return; }
      i := i + 1;
    }
    ok := true;
  }

  lemma ExtensionMeans(s: seq<Byte>, k: nat)
    requires |s| >= (k + 1) * LENGTH
    ensures ExtensionOk(s, k) <==> BodyOk(BlockAt(s, k))
  {
  }

  lemma TestPerfect(s: seq<Byte>, fixup: int)
    requires |s| >= LENGTH
    ensures Score(BlockAt(s, 0), 8) == 8 ==> Put(s, 0, AfterTest(BlockAt(s, 0), fixup)) == s
  {
    if Score(BlockAt(s, 0), 8) == 8 { PerfectHeader(BlockAt(s, 0)); }
  }

  lemma AfterTestCount(b: seq<Byte>, fixup: int)
    requires |b| == LENGTH
    ensures AfterTest(b, fixup)[COUNT] == b[COUNT] && Repaired(b)[COUNT] == b[COUNT]
  {
    assert Repaired(b)[8..][COUNT - 8] == b[8..][COUNT - 8];
  }

  /** Blocks above the base block agree if the tails do. */
  lemma Upper(a: seq<Byte>, s: seq<Byte>, i: nat)
    requires |a| == |s| && (i + 1) * LENGTH <= |s| && i >= 1 && a[LENGTH..] == s[LENGTH..]
    ensures a[i * LENGTH..(i + 1) * LENGTH] == BlockAt(s, i)
  {
    Slices.SliceOfDrop(a, LENGTH, (i - 1) * LENGTH, i * LENGTH);
    Slices.SliceOfDrop(s, LENGTH, (i - 1) * LENGTH, i * LENGTH);
  }

  // ----- loading a record from a file -----

  /** What the compaction loop has reached before it looks at block i: the kept blocks, then the untouched rest. */
  ghost predicate CompactedUpTo(a: seq<Byte>, img: seq<Byte>, i: nat, valid: nat) {
    |img| >= LENGTH && |a| == |img| && 1 <= i && i * LENGTH <= |img| && valid < i &&
    a[..LENGTH] == Repaired(BlockAt(img, 0)) && valid == KeptCount(img, i - 1) &&
    a[LENGTH..(valid + 1) * LENGTH] == Kept(img, i - 1) && a[i * LENGTH..] == img[i * LENGTH..]
  }

  /** Copying block i down and counting it if it is valid makes one step of the compaction. */
  lemma CompactStep(a: seq<Byte>, img: seq<Byte>, i: nat, valid: nat)
    requires CompactedUpTo(a, img, i, valid) && (i + 1) * LENGTH <= |img|
    ensures a[i * LENGTH..(i + 1) * LENGTH] == BlockAt(img, i)
    ensures var b := Put(a, (valid + 1) * LENGTH, BlockAt(img, i));
            b[i * LENGTH..(i + 1) * LENGTH] == BlockAt(img, i) &&
            CompactedUpTo(b, img, i + 1, valid + if BodyOk(BlockAt(img, i)) then 1 else 0)
  {
    hide BodyOk, Repaired;
    assert a[i * LENGTH..(i + 1) * LENGTH] == a[i * LENGTH..][..LENGTH];
    assert img[i * LENGTH..(i + 1) * LENGTH] == img[i * LENGTH..][..LENGTH];
    var at := (valid + 1) * LENGTH;
    var b := Put(a, at, BlockAt(img, i));
    PutBelow(a, img, i, at);
    var n := valid + if BodyOk(BlockAt(img, i)) then 1 else 0;
    assert n == KeptCount(img, i);
    if BodyOk(BlockAt(img, i)) {
      assert b[LENGTH..(n + 1) * LENGTH] == b[LENGTH..at] + b[at..at + LENGTH];
    }
    assert b[..LENGTH] == b[..at][..LENGTH] == a[..LENGTH];
    assert b[LENGTH..at] == b[..at][LENGTH..] == a[LENGTH..at];
  }

  lemma PutBelow(a: seq<Byte>, img: seq<Byte>, i: nat, at: nat)
    requires |a| == |img| && (i + 1) * LENGTH <= |img| && at <= i * LENGTH && a[i * LENGTH..] == img[i * LENGTH..]
    requires at == i * LENGTH || at + LENGTH <= i * LENGTH
    ensures var b := Put(a, at, BlockAt(img, i));
            b[i * LENGTH..] == img[i * LENGTH..] && b[(i + 1) * LENGTH..] == img[(i + 1) * LENGTH..]
  {
    var b := Put(a, at, BlockAt(img, i));
    forall k | i * LENGTH <= k < |img| ensures b[k] == img[k] {
      assert a[k] == a[i * LENGTH..][k - i * LENGTH] == img[i * LENGTH..][k - i * LENGTH];
      if at == i * LENGTH && k < at + LENGTH {
        assert b[k] == b[at..at + LENGTH][k - at];
      } else {
        assert b[k] == b[at + LENGTH..][k - (at + LENGTH)] == a[at + LENGTH..][k - (at + LENGTH)];
      }
    }
  }

  /** edid_size. */
  function ExpectedSize(fw: seq<Byte>): nat {
    if |fw| < LENGTH then 0 else (fw[COUNT] + 1) * LENGTH
  }

  /** The compaction loop of edid_load. */
  method CompactLoop(edid: array<Byte>, fixup: int, ghost img: seq<Byte>) returns (valid: nat)
    requires |img| >= LENGTH && |img| == (img[COUNT] + 1) * LENGTH && CompactedUpTo(edid[..], img, 1, 0)
    modifies edid
    ensures CompactedUpTo(edid[..], img, img[COUNT] as int + 1, valid)
  {
    hide CompactedUpTo;
    valid := 0;
    var i := 1;
    CountKept(edid[..], img, 1, 0);
    while i <= edid[COUNT]
      invariant 1 <= i <= img[COUNT] + 1 && edid.Length == |img| && edid[COUNT] == img[COUNT] && valid < i
      invariant CompactedUpTo(edid[..], img, i, valid)
      decreases 256 - i
    {
      ghost var a := edid[..];
      CompactStep(a, img, i, valid);
      var from := edid[i * LENGTH..(i + 1) * LENGTH];
      if i != valid + 1 { CopyIn(edid, (valid + 1) * LENGTH, from); }
      assert edid[..] == Put(a, (valid + 1) * LENGTH, BlockAt(img, i));
      var ok := BlockValid(edid, i * LENGTH, i, fixup);
      if ok { valid := valid + 1; }
      i := i + 1;
      CountKept(edid[..], img, i, valid);
    }
  }

  /** The count byte of the base block is not touched before the end. */
  lemma CountKept(a: seq<Byte>, img: seq<Byte>, i: nat, valid: nat)
    requires CompactedUpTo(a, img, i, valid)
    ensures |a| == |img| && |img| >= LENGTH && a[COUNT] == img[COUNT] && valid < i && valid == KeptCount(img, i - 1)
  {
    hide Kept, Repaired;
    AfterTestCount(BlockAt(img, 0), 0);
    assert a[COUNT] == a[..LENGTH][COUNT];
  }

  lemma FinishedIs(a: seq<Byte>, img: seq<Byte>, valid: nat)
    requires |img| >= LENGTH && |img| == (img[COUNT] + 1) * LENGTH &&
             CompactedUpTo(a, img, img[COUNT] as int + 1, valid)
    ensures valid <= img[COUNT] && (valid + 1) * LENGTH <= |a|
    ensures Adjusted(a[..LENGTH], valid) + a[LENGTH..(valid + 1) * LENGTH] == Compacted(img)
  {
    hide Kept, KeptCount, Repaired, Adjusted;
  }

  /** Writes the new count and checksum into the base block at the front of a record. */
  method AdjustBase(edid: array<Byte>, valid: Byte)
    requires edid.Length >= (valid + 1) * LENGTH
    modifies edid
    ensures edid[..(valid + 1) * LENGTH] ==
            Adjusted(old(edid[..LENGTH]), valid) + old(edid[LENGTH..(valid + 1) * LENGTH])
  {
    ghost var base := edid[..LENGTH];
    var d := edid[CHECKSUM] + edid[COUNT] - valid;
    if valid != edid[COUNT] {
      edid[CHECKSUM] := AsByte(d);
      edid[COUNT] := valid;
    } else {
      AdjustedCount(base, valid);
    }
    hide AsByte;
    AdjustedIs(base, valid, AsByte(d));
    assert edid[..LENGTH] == Adjusted(base, valid);
    assert edid[..(valid + 1) * LENGTH] == edid[..LENGTH] + edid[LENGTH..(valid + 1) * LENGTH];
  }

  /**
   edid_load on the contents of a file; None stands for an error pointer. An empty file passes the
   test of its size, and the test of its base block then reads past its end.
   */
  method Load(fw: seq<Byte>, fixup: int) returns (fault: bool, r: Option<seq<Byte>>)
    ensures fault <==> fw == []
    ensures !fault ==>
              r == if ExpectedSize(fw) == |fw| && BaseOk(BlockAt(fw, 0), fixup) then Some(Compacted(fw)) else None
  {
    hide BaseOk, Compacted, Repaired, Adjusted, BodyOk, CompactedUpTo;
    if ExpectedSize(fw) != |fw| { return false, None; }
    if fw == [] { return true, None; }
    var edid := new Byte[|fw|](k requires 0 <= k < |fw| => fw[k]);
    assert edid[..] == fw;
    var ok := BlockValid(edid, 0, 0, fixup);
    if !ok { return false, None; }
    LoadStart(edid[..], fw);
    var valid := CompactLoop(edid, fixup, fw);
    FinishedIs(edid[..], fw, valid);
    ghost var a := edid[..];
    assert a[..LENGTH] == edid[..LENGTH] && a[LENGTH..(valid + 1) * LENGTH] == edid[LENGTH..(valid + 1) * LENGTH];
    AdjustBase(edid, valid);
    return false, Some(edid[..(valid + 1) * LENGTH]);
  }

  lemma LoadStart(a: seq<Byte>, img: seq<Byte>)
    requires |img| >= LENGTH && a == Put(img, 0, Repaired(BlockAt(img, 0)))
    ensures CompactedUpTo(a, img, 1, 0)
  {
  }

  // ----- fetching a record from a display -----

  /** The reads of a display: block and attempt; None is a failed transfer. */
  type Reader = (nat, nat) -> Option<Block>

  /** Failed means that the whole fetch is given up, Invalid that this block is left out. */
  datatype Fetched = Failed | Invalid | Good(bytes: Block)

  /** Attempts a to 3 at an extension block: the first valid one counts. */
  ghost function FetchExtension(read: Reader, j: nat, a: nat): Fetched
    decreases 4 - a
  {
    if a >= 4 then Invalid
    else match read(j, a)
      case None => Failed
      case Some(b) => if BodyOk(b) then Good(b) else FetchExtension(read, j, a + 1)
  }

  /** The same for the base block, except that all zeroes at the first attempt end it. */
  ghost function FetchBase(read: Reader, a: nat, fixup: int): Fetched
    decreases 4 - a
  {
    if a >= 4 then Failed
    else match read(0, a)
      case None => Failed
      case Some(b) =>
        if BaseOk(b, fixup) then Good(Repaired(b))
        else if a == 0 && IsZero(AfterTest(b, fixup)) then Failed
        else FetchBase(read, a + 1, fixup)
  }

  predicate IsZero(b: seq<Byte>) {
    forall i :: 0 <= i < |b| ==> b[i] == 0
  }

  /** The extensions gathered from blocks 1 to n. */
  ghost function Gather(read: Reader, n: nat): (r: Option<seq<Byte>>)
    ensures r.Some? ==> |r.value| % LENGTH == 0 && |r.value| <= n * LENGTH
  {
    if n == 0 then Some([])
    else
      var before := Gather(read, n - 1);
      if before == None then None
      else match FetchExtension(read, n, 0)
        case Failed => None
        case Invalid => before
        case Good(b) => Some(before.value + b)
  }

  ghost function Fetch(read: Reader, fixup: int): Option<seq<Byte>> {
    match FetchBase(read, 0, fixup)
    case Failed => None
    case Invalid => None
    case Good(base) =>
      var ext := Gather(read, base[COUNT]);
      if ext == None then None
      else Some(Adjusted(base, |ext.value| / LENGTH) + ext.value)
  }

  method AllZero(a: array<Byte>) returns (zero: bool)
    ensures zero == IsZero(a[..])
  {
    var i := 0;
    while i < a.Length
      invariant 0 <= i <= a.Length && forall k :: 0 <= k < i ==> a[k] == 0
    {
      if a[i] != 0 { return false; }
      i := i + 1;
    }
    return true;
  }

  /** The loop that reads the base block, up to four times. */
  method ReadBase(block: array<Byte>, read: Reader, fixup: int) returns (ok: bool)
    requires block.Length == LENGTH
    modifies block
    ensures ok ==> FetchBase(read, 0, fixup) == Good(block[..])
    ensures !ok ==> FetchBase(read, 0, fixup) == Failed
  {
    hide BaseOk, Repaired, AfterTest;
    var i := 0;
    while i < 4
      invariant 0 <= i <= 4 && FetchBase(read, 0, fixup) == FetchBase(read, i, fixup)
    {
      var got := read(0, i);
      if got == None { return false; }
      CopyIn(block, 0, got.value);
      assert block[..] == got.value;
      ok := BlockValid(block, 0, 0, fixup);
      assert block[..] == AfterTest(got.value, fixup);
      if ok { return true; }
      if i == 0 {
        var zero := AllZero(block);
        if zero { return false; }
      }
      i := i + 1;
    }
    return false;
  }

  /** The loop that reads extension j into its place, up to four times. */
  method ReadExtension(block: array<Byte>, at: nat, read: Reader, j: nat, fixup: int) returns (error: bool, ok: bool)
    requires at + LENGTH <= block.Length && j >= 1
    modifies block
    ensures block[..at] == old(block[..at])
    ensures error ==> FetchExtension(read, j, 0) == Failed
    ensures !error && ok ==> FetchExtension(read, j, 0) == Good(block[at..at + LENGTH])
    ensures !error && !ok ==> FetchExtension(read, j, 0) == Invalid
  {
    hide BodyOk;
    var i := 0;
    while i < 4
      invariant 0 <= i <= 4 && FetchExtension(read, j, 0) == FetchExtension(read, j, i)
      invariant block[..at] == old(block[..at])
    {
      var got := read(j, i);
      if got == None { return true, false; }
      ghost var a := block[..];
      CopyIn(block, at, got.value);
      assert block[..at] == block[..][..at] == a[..at] && block[at..at + LENGTH] == block[..][at..at + LENGTH];
      ok := BlockValid(block, at, j, fixup);
      assert block[..at] == block[..][..at] && block[at..at + LENGTH] == block[..][at..at + LENGTH];
      if ok { return false, true; }
      i := i + 1;
    }
    return false, false;
  }

  /** The extension loop of drm_do_get_edid. */
  method ReadExtensions(block: array<Byte>, n: nat, read: Reader, fixup: int) returns (error: bool, valid: nat)
    requires block.Length == (n + 1) * LENGTH && block[COUNT] == n
    modifies block
    ensures error ==> Gather(read, n) == None
    ensures !error ==> valid <= n && Gather(read, n) == Some(block[LENGTH..(valid + 1) * LENGTH]) &&
                       block[..LENGTH] == old(block[..LENGTH])
  {
    hide FetchExtension;
    ghost var base := block[..LENGTH];
    valid := 0;
    var j := 1;
    assert block[LENGTH..LENGTH] == [];
    while j <= block[COUNT]
      invariant 1 <= j <= n + 1 && valid < j && block[..LENGTH] == base && block[COUNT] == base[COUNT]
      invariant Gather(read, j - 1) == Some(block[LENGTH..(valid + 1) * LENGTH])
      decreases n + 1 - j
    {
      ghost var at := (valid + 1) * LENGTH;
      ghost var before := block[..at];
      var ok;
      error, ok := ReadExtension(block, (valid + 1) * LENGTH, read, j, fixup);
      if error {
        GatherStops(read, j, n);
        return;
      }
      assert block[..LENGTH] == block[..at][..LENGTH] == before[..LENGTH];
      assert block[LENGTH..at] == block[..at][LENGTH..] == before[LENGTH..];
      assert block[COUNT] == block[..LENGTH][COUNT];
      assert block[LENGTH..at + LENGTH] == block[LENGTH..at] + block[at..at + LENGTH];
      if ok { valid := valid + 1; }
      j := j + 1;
    }
    error := false;
  }

  /** A transfer that fails ends the whole fetch. */
  lemma {:induction false} GatherStops(read: Reader, j: nat, n: nat)
    requires 1 <= j <= n && FetchExtension(read, j, 0) == Failed
    ensures Gather(read, n) == None
  {
    hide FetchExtension;
    if j < n { GatherStops(read, j, n - 1); }
  }

  // ----- what a fetched record is worth -----

  /** A base block that is accepted is the repaired form of one that was read and is good. */
  lemma {:induction false} BaseWasRead(read: Reader, a: nat, fixup: int) returns (at: nat)
    requires FetchBase(read, a, fixup).Good?
    ensures read(0, at).Some? && BaseOk(read(0, at).value, fixup)
    ensures FetchBase(read, a, fixup) == Good(Repaired(read(0, at).value))
    decreases 4 - a
  {
    hide BaseOk, Repaired, AfterTest;
    if BaseOk(read(0, a).value, fixup) {
      at := a;
    } else {
      at := BaseWasRead(read, a + 1, fixup);
    }
  }

  lemma {:induction false} ExtensionWasRead(read: Reader, j: nat, a: nat)
    requires FetchExtension(read, j, a).Good?
    ensures BodyOk(FetchExtension(read, j, a).bytes)
    decreases 4 - a
  {
    hide BodyOk;
    if !BodyOk(read(j, a).value) { ExtensionWasRead(read, j, a + 1); }
  }

  lemma WholeBlocks(m: nat, k: nat)
    requires m % LENGTH == 0 && m < (k + 1) * LENGTH <= m + LENGTH
    ensures m == k * LENGTH
  {
    assert m == (m / LENGTH) * LENGTH;
  }

  lemma {:induction false} GatheredBlock(read: Reader, n: nat, k: nat)
    requires Gather(read, n).Some? && (k + 1) * LENGTH <= |Gather(read, n).value|
    ensures BodyOk(BlockAt(Gather(read, n).value, k))
  {
    hide BodyOk, FetchExtension;
    var all, before := Gather(read, n).value, Gather(read, n - 1).value;
    if (k + 1) * LENGTH <= |before| {
      GatheredBlock(read, n - 1, k);
      assert BlockAt(all, k) == BlockAt(before, k);
    } else {
      ExtensionWasRead(read, n, 0);
      WholeBlocks(|before|, k);
      assert BlockAt(all, k) == FetchExtension(read, n, 0).bytes;
    }
  }

  /** The blocks of a record put together from a base block and extensions. */
  lemma BlocksOf(base: seq<Byte>, ext: seq<Byte>, m: nat)
    requires |base| == LENGTH && |ext| == m * LENGTH
    ensures BlockAt(base + ext, 0) == base
    ensures forall k :: 1 <= k <= m ==> BlockAt(base + ext, k) == BlockAt(ext, k - 1)
  {
    assert (base + ext)[..LENGTH] == base;
    forall k | 1 <= k <= m ensures BlockAt(base + ext, k) == BlockAt(ext, k - 1) {
      assert (base + ext)[k * LENGTH..(k + 1) * LENGTH] == ext[(k - 1) * LENGTH..k * LENGTH];
    }
  }

  /** However a display answers, a record fetched from it passes the record test and has no block too many. */
  lemma FetchOk(read: Reader, fixup: int)
    requires Fetch(read, fixup).Some?
    ensures var r := Fetch(read, fixup).value;
            RecordOk(r, fixup) && |r| == (r[COUNT] + 1) * LENGTH && Score(r, 8) == 8
  {
    hide BodyOk, BaseOk, FetchBase, Gather, Adjusted, Repaired;
    var at := BaseWasRead(read, 0, fixup);
    var raw := read(0, at).value;
    var base := Repaired(raw);
    var ext := Gather(read, base[COUNT]).value;
    var m := |ext| / LENGTH;
    var head := Adjusted(base, m);
    AdjustedOk(raw, m, fixup);
    AdjustedCount(base, m);
    AdjustedHeader(base, m);
    BlocksOf(head, ext, m);
    var r := head + ext;
    assert r[COUNT] == head[COUNT] && r[..8] == head[..8];
    ScorePrefix(r, base, 8);
    forall k | 1 <= k <= m ensures ExtensionOk(r, k) { GatheredBlock(read, base[COUNT], k - 1); }
  }

  /** drm_do_get_edid; None stands for the null pointer. */
  method GetEdid(read: Reader, fixup: int) returns (r: Option<seq<Byte>>)
    ensures r == Fetch(read, fixup)
    ensures r.Some? ==> RecordOk(r.value, fixup) && |r.value| == (r.value[COUNT] + 1) * LENGTH
  {
    r := FetchBlocks(read, fixup);
    if r.Some? { FetchOk(read, fixup); }
  }

  method FetchBlocks(read: Reader, fixup: int) returns (r: Option<seq<Byte>>)
    ensures r == Fetch(read, fixup)
  {
    hide BodyOk, BaseOk, FetchBase, FetchExtension, Adjusted, Gather;
    var block := new Byte[LENGTH](_ => 0);
    var ok := ReadBase(block, read, fixup);
    if !ok { return None; }
    var base: Block := block[..];
    if block[COUNT] == 0 {
      AdjustedCount(base, 0);
      NothingGathered(read);
      assert base + [] == base;
      return Some(base);
    }
    var n: nat := block[COUNT];
    var more := new Byte[(n + 1) * LENGTH](k => if 0 <= k < LENGTH then base[k] else 0);
    assert more[..LENGTH] == base;
    var error, valid := ReadExtensions(more, n, read, fixup);
    if error { return None; }
    CountBlocks(more[..], valid);
    assert more[..LENGTH] == base;
    AdjustBase(more, valid);
    return Some(more[..(valid + 1) * LENGTH]);
  }

  lemma NothingGathered(read: Reader)
    ensures Gather(read, 0) == Some([])
  {
  }

  lemma CountBlocks(a: seq<Byte>, valid: nat)
    requires (valid + 1) * LENGTH <= |a|
    ensures |a[LENGTH..(valid + 1) * LENGTH]| / LENGTH == valid
  {
  }

  // ----- both agree -----

  /** A display that answers every read with the same block of the image. */
  ghost predicate Stable(read: Reader, img: seq<Byte>) {
    |img| >= LENGTH && |img| == (img[COUNT] + 1) * LENGTH &&
    forall j, a: nat :: 0 <= j <= img[COUNT] ==> read(j, a) == Some(BlockAt(img, j))
  }

  lemma {:induction false} StableExtension(read: Reader, img: seq<Byte>, j: nat, a: nat)
    requires Stable(read, img) && 1 <= j <= img[COUNT] && a <= 4
    ensures FetchExtension(read, j, a) == if a < 4 && BodyOk(BlockAt(img, j)) then Good(BlockAt(img, j)) else Invalid
    decreases 4 - a
  {
    hide BodyOk;
    if a < 4 {
      assert read(j, a) == Some(BlockAt(img, j));
      StableExtension(read, img, j, a + 1);
    }
  }

  lemma {:induction false} StableBase(read: Reader, img: seq<Byte>, a: nat, fixup: int)
    requires Stable(read, img) && a <= 4
    ensures FetchBase(read, a, fixup) ==
            if a < 4 && BaseOk(BlockAt(img, 0), fixup) then Good(Repaired(BlockAt(img, 0))) else Failed
    decreases 4 - a
  {
    hide BaseOk, Repaired, AfterTest;
    if a < 4 {
      assert read(0, a) == Some(BlockAt(img, 0));
      StableBase(read, img, a + 1, fixup);
    }
  }

  lemma {:induction false} StableGather(read: Reader, img: seq<Byte>, n: nat)
    requires Stable(read, img) && n <= img[COUNT]
    ensures Gather(read, n) == Some(Kept(img, n))
  {
    hide FetchExtension, BodyOk;
    if n > 0 {
      StableGather(read, img, n - 1);
      StableExtension(read, img, n, 0);
      assert Kept(img, n - 1) + [] == Kept(img, n - 1);
    }
  }

  /** Fetching from a stable display gives the repaired base block and the valid extensions in order, or nothing. */
  lemma StableFetch(read: Reader, img: seq<Byte>, fixup: int)
    requires Stable(read, img)
    ensures Fetch(read, fixup) == if BaseOk(BlockAt(img, 0), fixup) then Some(Compacted(img)) else None
  {
    hide FetchBase, Gather, BaseOk, BodyOk, Repaired, Adjusted;
    StableBase(read, img, 0, fixup);
    AfterTestCount(BlockAt(img, 0), fixup);
    StableGather(read, img, img[COUNT]);
  }

  /**
   The two routines agree: for every image and every display that shows it, fetching block by block
   and loading the image as a file give the same bytes or both fail, and what they give passes
   the record test.
   */
  method FetchAndLoad(read: Reader, img: seq<Byte>, fixup: int)
    returns (fetched: Option<seq<Byte>>, loaded: Option<seq<Byte>>)
    requires Stable(read, img)
    ensures fetched == loaded
    ensures fetched.Some? <==> BaseOk(BlockAt(img, 0), fixup)
    ensures fetched.Some? ==> fetched.value == Compacted(img) && RecordOk(fetched.value, fixup)
  {
    hide Fetch, BaseOk, Compacted, RecordOk;
    fetched := GetEdid(read, fixup);
    var fault;
    fault, loaded := Load(img, fixup);
    StableFetch(read, img, fixup);
    if fetched.Some? { CompactedOk(img, fixup); }
  }
}
