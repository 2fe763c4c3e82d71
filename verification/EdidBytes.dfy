/**
 What the tests of an EDID block and the retries around them mean on the bytes: which blocks pass,
 which errors are caught, which of several reads is used, and which block ends up where.
 */
module EdidBytes {

  import opened Options
  import opened Words
  import opened Edid

  // ----- sums and headers -----

  /** The sum of all bytes, from the front. */
  function Total(b: seq<Byte>): nat {
    if b == [] then 0 else b[0] + Total(b[1..])
  }

  lemma {:induction false} SumConcat(a: seq<Byte>, b: seq<Byte>)
    ensures Sum(a + b) == Sum(a) + Sum(b)
  {
    if b == [] {
      assert a + b == a;
    } else {
      var n := |b| - 1;
      assert (a + b)[..|a + b| - 1] == a + b[..n];
      SumConcat(a, b[..n]);
    }
  }

  lemma {:induction false} TotalIsSum(b: seq<Byte>)
    ensures Total(b) == Sum(b)
  {
    if b != [] {
      TotalIsSum(b[1..]);
      assert b == [b[0]] + b[1..];
      SumConcat([b[0]], b[1..]);
      assert [b[0]][..0] == [];
    }
  }

  /** The first n places at which two byte strings agree. */
  ghost function Agree(b: seq<Byte>, h: seq<Byte>, n: nat): set<nat>
    requires n <= |h| && n <= |b|
  {
    set i: nat | i < n && b[i] == h[i]
  }

  /** The score of a header is the number of places at which it is right. */
  lemma {:induction false} ScoreCounts(b: seq<Byte>, n: nat)
    requires n <= 8 && n <= |b|
    ensures Score(b, n) == |Agree(b, HEADER, n)|
  {
    if n == 0 {
      assert Agree(b, HEADER, 0) == {};
    } else {
      ScoreCounts(b, n - 1);
      AgreeStep(b, HEADER, n);
      ScoreStep(b, n);
      hide Score, Agree;
    }
  }

  lemma AgreeStep(b: seq<Byte>, h: seq<Byte>, n: nat)
    requires 0 < n <= |h| && n <= |b|
    ensures |Agree(b, h, n)| == |Agree(b, h, n - 1)| + if b[n - 1] == h[n - 1] then 1 else 0
  {
    var before := Agree(b, h, n - 1);
    assert n - 1 !in before;
    if b[n - 1] == h[n - 1] {
      assert Agree(b, h, n) == before + {n - 1};
    } else {
      assert Agree(b, h, n) == before;
    }
  }

  lemma ScoreStep(b: seq<Byte>, n: nat)
    requires 0 < n <= 8 && n <= |b|
    ensures Score(b, n) == Score(b, n - 1) + if b[n - 1] == HEADER[n - 1] then 1 else 0
  {
  }

  // ----- which blocks pass -----

  /** A block other than a CEA extension passes if and only if its bytes add up and a zero first byte has version 1. */
  lemma OtherBlockIff(b: seq<Byte>)
    requires |b| == LENGTH && b[0] != 0x02
    ensures BodyOk(b) <==> Total(b) % 256 == 0 && (b[0] == 0 ==> b[0x12] == 1)
  {
    TotalIsSum(b);
  }

  /** A CEA extension always passes. */
  lemma CeaPasses(b: seq<Byte>)
    requires |b| == LENGTH && b[0] == 0x02
    ensures BodyOk(b)
  {
  }

  /**
   A base block passes if and only if enough of its header is right (six bytes unless 0 to 8 are asked for),
   the block with the right header adds up, and its version is 1.
   */
  lemma BaseBlockIff(b: seq<Byte>, fixup: int)
    requires |b| == LENGTH
    ensures BaseOk(b, fixup) <==>
            |Agree(b, HEADER, 8)| >= (if 0 <= fixup <= 8 then fixup else 6) &&
            (0xff * 6 + Total(b[8..])) % 256 == 0 && b[0x12] == 1
  {
    ScoreCounts(b, 8);
    TotalIsSum(b[8..]);
    SumConcat(HEADER, b[8..]);
    HeaderSum();
    var r := Repaired(b);
    assert r[0] == 0 && r[0x12] == b[8..][0x12 - 8] == b[0x12];
    hide Sum, Agree, Score;
  }

  lemma HeaderSum()
    ensures Sum(HEADER) == 0xff * 6
  {
    assert HEADER == [0x00, 0xff, 0xff, 0xff] + [0xff, 0xff, 0xff, 0x00];
    SumConcat([0x00, 0xff, 0xff, 0xff], [0xff, 0xff, 0xff, 0x00]);
    FourSum(0x00, 0xff, 0xff, 0xff);
    FourSum(0xff, 0xff, 0xff, 0x00);
  }

  lemma FourSum(a: Byte, b: Byte, c: Byte, d: Byte)
    ensures Sum([a, b, c, d]) == a + b + c + d
  {
    assert [a, b, c, d] == [a, b] + [c, d];
    SumConcat([a, b], [c, d]);
    PairSum(a, b);
    PairSum(c, d);
  }

  lemma PairSum(a: Byte, b: Byte)
    ensures Sum([a, b]) == a + b
  {
    assert [a, b][..1] == [a] && [a][..0] == [];
    assert Sum([a]) == a;
  }

  // ----- which errors are caught -----

  lemma ErrorShows(sum: nat, old_: Byte, new_: Byte)
    requires sum % 256 == 0 && old_ != new_ && sum >= old_
    ensures (sum - old_ + new_) % 256 != 0
  {
  }

  lemma {:induction false} SumCovers(b: seq<Byte>, i: nat)
    requires i < |b|
    ensures Sum(b) >= b[i]
  {
    if i < |b| - 1 { SumCovers(b[..|b| - 1], i); }
  }

  /** One wrong byte in a block that passes is noticed, unless a CEA tag hides it. */
  lemma ByteErrorRefused(b: seq<Byte>, i: nat, x: Byte)
    requires |b| == LENGTH && i < LENGTH && x != b[i] && BodyOk(b) && b[0] != 0x02 && b[i := x][0] != 0x02
    ensures !BodyOk(b[i := x])
  {
    SumUpdate(b, i, x);
    SumCovers(b, i);
    ErrorShows(Sum(b), b[i], x);
  }

  /** One wrong byte behind the header of a base block that passes is noticed. */
  lemma BaseErrorRefused(b: seq<Byte>, i: nat, x: Byte, fixup: int)
    requires |b| == LENGTH && 8 <= i < LENGTH && x != b[i] && BaseOk(b, fixup)
    ensures !BaseOk(b[i := x], fixup)
  {
    hide Sum;
    var r := Repaired(b);
    assert r[i] == r[8..][i - 8] == b[i] && r[0] == 0;
    assert Repaired(b[i := x]) == r[i := x];
    SumUpdate(r, i, x);
    SumCovers(r, i);
    ErrorShows(Sum(r), r[i], x);
  }

  /** Wrong bytes in the header are repaired as long as enough of it is right. */
  lemma HeaderErrorRepaired(b: seq<Byte>, bad: seq<Byte>, fixup: int)
    requires |b| == |bad| == LENGTH && bad[8..] == b[8..] && BaseOk(b, fixup)
    ensures Repaired(bad) == Repaired(b)
    ensures BaseOk(bad, fixup) <==> Score(bad, 8) >= Threshold(fixup)
  {
  }

  // ----- which read is used -----

  /** The first n reads of extension j went through and gave blocks that do not pass. */
  ghost predicate AllBad(read: Reader, j: nat, n: nat) {
    forall k: nat :: k < n ==> read(j, k).Some? && !BodyOk(read(j, k).value)
  }

  ghost predicate FirstGood(read: Reader, j: nat, n: nat) {
    n < 4 && AllBad(read, j, n) && read(j, n).Some? && BodyOk(read(j, n).value)
  }

  ghost predicate FirstFailed(read: Reader, j: nat, n: nat) {
    n < 4 && AllBad(read, j, n) && read(j, n) == None
  }

  lemma {:induction false} ExtensionFrom(read: Reader, j: nat, a: nat)
    requires a <= 4 && AllBad(read, j, a)
    ensures AllBad(read, j, 4) ==> FetchExtension(read, j, a) == Invalid
    ensures forall n: nat :: FirstGood(read, j, n) ==> FetchExtension(read, j, a) == Good(read(j, n).value)
    ensures forall n: nat :: FirstFailed(read, j, n) ==> FetchExtension(read, j, a) == Failed
    ensures AllBad(read, j, 4) || (exists n: nat :: FirstGood(read, j, n)) || exists n: nat :: FirstFailed(read, j, n)
    decreases 4 - a
  {
    hide BodyOk;
    if a < 4 {
      if read(j, a) == None {
        assert FirstFailed(read, j, a);
      } else if BodyOk(read(j, a).value) {
        assert FirstGood(read, j, a);
      } else {
        ExtensionFrom(read, j, a + 1);
      }
    }
  }

  /**
   Fetching an extension: the first of at most four reads that passes is used; a failed transfer before it
   ends the fetch; four blocks that do not pass leave the extension out. One of the three is the case.
   */
  lemma ExtensionIs(read: Reader, j: nat)
    ensures AllBad(read, j, 4) ==> FetchExtension(read, j, 0) == Invalid
    ensures forall n: nat :: FirstGood(read, j, n) ==> FetchExtension(read, j, 0) == Good(read(j, n).value)
    ensures forall n: nat :: FirstFailed(read, j, n) ==> FetchExtension(read, j, 0) == Failed
    ensures AllBad(read, j, 4) || (exists n: nat :: FirstGood(read, j, n)) || exists n: nat :: FirstFailed(read, j, n)
  {
    ExtensionFrom(read, j, 0);
  }

  lemma ZeroScore(b: seq<Byte>)
    requires |b| == LENGTH && IsZero(b)
    ensures Score(b, 8) == 2
  {
    ScoreStep(b, 8);
    ScoreStep(b, 7);
    ScoreStep(b, 6);
    ScoreStep(b, 5);
    ScoreStep(b, 4);
    ScoreStep(b, 3);
    ScoreStep(b, 2);
    ScoreStep(b, 1);
    hide Score;
    assert Score(b, 0) == 0 by { ScoreNone(b); }
  }

  lemma ScoreNone(b: seq<Byte>)
    ensures Score(b, 0) == 0
  {
  }

  /** A zero block ends the fetch only if the two zero bytes of the header are not enough to repair it. */
  lemma ZeroAfterTest(b: seq<Byte>, fixup: int)
    requires |b| == LENGTH
    ensures IsZero(AfterTest(b, fixup)) <==> IsZero(b) && Threshold(fixup) > 2
  {
    var r := AfterTest(b, fixup);
    if r == Repaired(b) && Score(b, 8) >= Threshold(fixup) {
      assert r[1] == HEADER[1] == 0xff;
    }
    if IsZero(b) {
      ZeroScore(b);
    }
  }

  ghost predicate BaseAllBad(read: Reader, n: nat, fixup: int) {
    forall k: nat :: k < n ==> read(0, k).Some? && !BaseOk(read(0, k).value, fixup)
  }

  /** A first read of nothing but zeroes, which is taken as the absence of a record. */
  ghost predicate NullRecord(read: Reader, fixup: int) {
    read(0, 0).Some? && IsZero(read(0, 0).value) && Threshold(fixup) > 2
  }

  ghost predicate BaseFirstGood(read: Reader, n: nat, fixup: int) {
    n < 4 && BaseAllBad(read, n, fixup) && read(0, n).Some? && BaseOk(read(0, n).value, fixup) &&
    (n > 0 ==> !NullRecord(read, fixup))
  }

  lemma {:induction false} BaseFrom(read: Reader, a: nat, fixup: int)
    requires a <= 4 && BaseAllBad(read, a, fixup) && (a > 0 ==> !NullRecord(read, fixup))
    ensures forall n: nat :: BaseFirstGood(read, n, fixup) ==>
              FetchBase(read, a, fixup) == Good(Repaired(read(0, n).value))
    ensures (forall n: nat :: !BaseFirstGood(read, n, fixup)) ==> FetchBase(read, a, fixup) == Failed
    decreases 4 - a
  {
    hide BaseOk, Repaired;
    if a < 4 && read(0, a).Some? {
      if BaseOk(read(0, a).value, fixup) {
        assert BaseFirstGood(read, a, fixup);
      } else {
        ZeroAfterTest(read(0, a).value, fixup);
        hide IsZero, AfterTest, Threshold;
        if a > 0 || !NullRecord(read, fixup) { BaseFrom(read, a + 1, fixup); }
      }
    }
  }

  /**
   Fetching the base block: the first of at most four reads that passes is used, repaired; a failed transfer,
   four bad blocks or a first block of zeroes that cannot be repaired end the fetch.
   */
  lemma BaseIs(read: Reader, fixup: int)
    ensures forall n: nat :: BaseFirstGood(read, n, fixup) ==>
              FetchBase(read, 0, fixup) == Good(Repaired(read(0, n).value))
    ensures (forall n: nat :: !BaseFirstGood(read, n, fixup)) ==> FetchBase(read, 0, fixup) == Failed
  {
    BaseFrom(read, 0, fixup);
  }

  // ----- which block ends up where -----

  /** How many of extensions 1 to n are fetched well. */
  ghost function GoodCount(read: Reader, n: nat): (r: nat)
    ensures r <= n
  {
    if n == 0 then 0 else GoodCount(read, n - 1) + if FetchExtension(read, n, 0).Good? then 1 else 0
  }

  lemma {:induction false} GatherSize(read: Reader, n: nat)
    ensures Gather(read, n) == None <==> exists j :: 1 <= j <= n && FetchExtension(read, j, 0) == Failed
    ensures Gather(read, n).Some? ==> |Gather(read, n).value| == GoodCount(read, n) * LENGTH
  {
    hide FetchExtension;
    if n > 0 {
      GatherSize(read, n - 1);
      if Gather(read, n - 1).Some? && FetchExtension(read, n, 0) == Failed {
        assert Gather(read, n) == None;
      }
      if Gather(read, n) == None && Gather(read, n - 1).Some? {
        assert FetchExtension(read, n, 0) == Failed;
      }
    }
  }

  /** Extension j, if fetched well, is the one behind the good ones before it: nothing is lost and the order stays. */
  lemma {:induction false} GatherAt(read: Reader, n: nat, j: nat)
    requires Gather(read, n).Some? && 1 <= j <= n && FetchExtension(read, j, 0).Good?
    ensures (GoodCount(read, j - 1) + 1) * LENGTH <= |Gather(read, n).value|
    ensures BlockAt(Gather(read, n).value, GoodCount(read, j - 1)) == FetchExtension(read, j, 0).bytes
  {
    hide FetchExtension;
    GatherSize(read, n - 1);
    var k := GoodCount(read, j - 1);
    var all, before := Gather(read, n).value, Gather(read, n - 1).value;
    if j < n {
      GatherAt(read, n - 1, j);
      BlockOfFirst(before, all[|before|..], k);
      assert before + all[|before|..] == all;
    } else {
      BlockOfSecond(before, FetchExtension(read, j, 0).bytes, k);
    }
  }

  /** The same for the extensions of a file. */
  lemma {:induction false} KeptAt(img: seq<Byte>, n: nat, j: nat)
    requires (n + 1) * LENGTH <= |img| && 1 <= j <= n && BodyOk(BlockAt(img, j))
    ensures (KeptCount(img, j - 1) + 1) * LENGTH <= |Kept(img, n)|
    ensures BlockAt(Kept(img, n), KeptCount(img, j - 1)) == BlockAt(img, j)
  {
    hide BodyOk, BlockAt;
    var k := KeptCount(img, j - 1);
    var before, last := Kept(img, n - 1), if BodyOk(BlockAt(img, n)) then BlockAt(img, n) else [];
    assert Kept(img, n) == before + last;
    if j < n {
      KeptAt(img, n - 1, j);
      BlockOfFirst(before, last, k);
    } else {
      BlockOfSecond(before, last, k);
    }
  }

  lemma BlockOfFirst(a: seq<Byte>, b: seq<Byte>, k: nat)
    requires (k + 1) * LENGTH <= |a|
    ensures BlockAt(a + b, k) == BlockAt(a, k)
  {
  }

  lemma BlockOfSecond(a: seq<Byte>, b: seq<Byte>, k: nat)
    requires |a| == k * LENGTH && |b| == LENGTH
    ensures BlockAt(a + b, k) == b
  {
  }

  /** Adjusting the base block changes the count and the checksum and no other byte. */
  lemma AdjustedElsewhere(base: seq<Byte>, count: Byte, i: nat)
    requires |base| == LENGTH && i < LENGTH && i != 0x7e && i != 0x7f
    ensures Adjusted(base, count)[i] == base[i]
  {
  }

  // ----- what a caller gets -----

  /** The bytes of a record, read without the tests that made it. */
  ghost predicate SoundBytes(r: seq<Byte>) {
    |r| >= LENGTH && |r| == (r[0x7e] + 1) * LENGTH && r[..8] == HEADER && r[0x12] == 1 &&
    Total(r[..LENGTH]) % 256 == 0 && forall k :: 1 <= k <= r[0x7e] ==> SoundBlock(r, k)
  }

  ghost predicate SoundBlock(r: seq<Byte>, k: nat)
    requires (k + 1) * LENGTH <= |r|
  {
    var b := r[k * LENGTH..(k + 1) * LENGTH];
    b[0] == 0x02 || (Total(b) % 256 == 0 && (b[0] == 0 ==> b[0x12] == 1))
  }

  lemma RecordIsSound(r: seq<Byte>, fixup: int)
    requires RecordOk(r, fixup) && |r| == (r[COUNT] + 1) * LENGTH && Score(r, 8) == 8
    ensures SoundBytes(r)
  {
    var base := BlockAt(r, 0);
    ScorePrefix(r, base, 8);
    PerfectHeader(base);
    assert r[..8] == HEADER[..8] == HEADER;
    hide Score, Repaired, Total;
    OtherBlockIff(base);
    forall k | 1 <= k <= r[COUNT] ensures SoundBlock(r, k) {
      assert ExtensionOk(r, k);
      var b := BlockAt(r, k);
      if b[0] != 0x02 { OtherBlockIff(b); }
    }
  }

  /** However a display answers, the bytes that come back are sound. */
  lemma FetchedIsSound(read: Reader, fixup: int)
    requires Fetch(read, fixup).Some?
    ensures SoundBytes(Fetch(read, fixup).value)
  {
    FetchOk(read, fixup);
    hide Fetch, RecordOk, SoundBytes;
    RecordIsSound(Fetch(read, fixup).value, fixup);
  }

  /** And so are those made from a file. */
  lemma LoadedIsSound(img: seq<Byte>, fixup: int)
    requires |img| >= LENGTH && |img| == (img[COUNT] + 1) * LENGTH && BaseOk(BlockAt(img, 0), fixup)
    ensures SoundBytes(Compacted(img))
  {
    hide BodyOk, BaseOk, Compacted, Adjusted, SoundBytes, RecordOk;
    CompactedOk(img, fixup);
    CompactedBlocks(img);
    var r := Compacted(img);
    var base := Repaired(BlockAt(img, 0));
    AdjustedHeader(base, KeptCount(img, img[COUNT]));
    assert r[..8] == BlockAt(r, 0)[..8];
    ScorePrefix(r, base, 8);
    RecordIsSound(r, fixup);
  }
}
