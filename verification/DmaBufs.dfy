/**
 Legacy DMA buffers: three allocation routines (AGP memory, PCI segments, a scatter/gather area)
 append buffers to one list and extend one byte space that is counted in pages.
 */
module DmaBufs {

  import opened Words

  const PAGE_SIZE: nat := 4096
  const PAGE_SHIFT: nat := 12
  const MIN_ORDER: nat := 5
  const MAX_ORDER: nat := 22
  const MAX_COUNT: nat := 4096
  const INT_LIMIT: int := 0x8000_0000

  datatype Status = Ok | Invalid | Busy | NoMemory | NotPermitted

  /** total is the room set aside for the buffer, offset its place in the byte space. */
  datatype Buf = Buf(idx: int, total: nat, order: nat, offset: int, bus: int)

  /** The buffers of one size. */
  datatype Entry = Entry(bufCount: nat, segCount: nat, bufSize: nat, pageOrder: nat)

  datatype Dma = Dma(bufCount: int, segCount: int, pageCount: int, byteCount: int, list: seq<Buf>, entries: seq<Entry>)

  datatype Request = Request(count: int, size: int, pageAlign: bool, start: int)

  // ----- sizes -----

  /** The smallest order whose power of two covers the size. */
  function OrderBase2(size: int): (r: nat)
    ensures Pow2(r) >= size && (r > 0 ==> Pow2(r - 1) < size)
  {
    if size <= 1 then 0 else 1 + OrderBase2((size + 1) / 2)
  }

  function PageOrder(order: nat): nat {
    if order > PAGE_SHIFT then order - PAGE_SHIFT else 0
  }

  /** The bytes of the smallest run of pages that holds one buffer. */
  function Total(order: nat): nat {
    PAGE_SIZE * Pow2(PageOrder(order))
  }

  function PageAlign(x: nat): nat {
    (x + PAGE_SIZE - 1) / PAGE_SIZE * PAGE_SIZE
  }

  /** The distance from one buffer to the next. */
  function Alignment(order: nat, pageAlign: bool): nat {
    if pageAlign then PageAlign(Pow2(order)) else Pow2(order)
  }

  /** A value stored in an int. */
  function Wrap32(x: int): (r: int)
    ensures -INT_LIMIT <= r < INT_LIMIT
    ensures (r == x <==> -INT_LIMIT <= x < INT_LIMIT) && (x >= INT_LIMIT ==> r < x)
  {
    (x + INT_LIMIT) % (2 * INT_LIMIT) - INT_LIMIT
  }

  lemma WrapAdd(x: int, y: int)
    ensures Wrap32(Wrap32(x) + y) == Wrap32(x + y)
  {
    var m := 2 * INT_LIMIT;
    var q := (x + INT_LIMIT) / m;
    assert Wrap32(x) + q * m == x;
    ModShift(Wrap32(x) + y + INT_LIMIT, q, m);
  }

  /** A quotient is known by its remainder. */
  lemma Quotient(x: int, m: int, q: int)
    requires m > 0 && 0 <= x - q * m < m
    ensures x / m == q && x % m == x - q * m
  {
    var d := x / m;
    assert x == d * m + x % m;
    if d > q {
      assert (d - q) * m >= m by { MulMono(1, d - q, m); }
      assert false;
    } else if d < q {
      assert (q - d) * m >= m by { MulMono(1, q - d, m); }
      assert false;
    }
  }

  lemma MulMono(a: int, b: int, m: int)
    requires a <= b && m >= 0
    ensures a * m <= b * m
  {
  }

  lemma ModShift(a: int, q: int, m: int)
    requires m > 0
    ensures (a + q * m) % m == a % m
  {
    assert (a / m + q) * m == a / m * m + q * m;
    Quotient(a + q * m, m, a / m + q);
  }

  lemma {:induction false} Pow2Split(a: nat, b: nat)
    ensures Pow2(a + b) == Pow2(a) * Pow2(b)
  {
    if b > 0 {
      Pow2Split(a, b - 1);
      assert Pow2(a + b) == 2 * Pow2(a + (b - 1));
      Doubled(Pow2(a), Pow2(b - 1));
    }
  }

  lemma Doubled(x: nat, y: nat)
    ensures x * (2 * y) == 2 * (x * y)
  {
  }

  lemma PageIsPow2()
    ensures Pow2(PAGE_SHIFT) == PAGE_SIZE && Pow2(0) == 1
  {
    assert Pow2(4) == 16;
    Pow2Split(4, 4);
    Pow2Split(8, 4);
  }

  lemma {:induction false} Pow2Mono(a: nat, b: nat)
    requires a <= b
    ensures Pow2(a) <= Pow2(b)
  {
    if a < b { Pow2Mono(a, b - 1); }
  }

  lemma AlignWhole(q: nat)
    ensures PageAlign(PAGE_SIZE * q) == PAGE_SIZE * q
  {
    Quotient(PAGE_SIZE * q + PAGE_SIZE - 1, PAGE_SIZE, q);
  }

  lemma AlignSmall(x: nat)
    requires 0 < x <= PAGE_SIZE
    ensures PageAlign(x) == PAGE_SIZE
  {
    Quotient(x + PAGE_SIZE - 1, PAGE_SIZE, 1);
  }

  lemma LargeTotal(order: nat)
    requires order > PAGE_SHIFT
    ensures Total(order) == Pow2(order) == PAGE_SIZE * Pow2(order - PAGE_SHIFT)
  {
    hide Pow2;
    PageIsPow2();
    Pow2Split(PAGE_SHIFT, order - PAGE_SHIFT);
  }

  lemma SmallTotal(order: nat)
    requires order <= PAGE_SHIFT
    ensures Total(order) == PAGE_SIZE >= Pow2(order)
  {
    PageIsPow2();
    Pow2Mono(order, PAGE_SHIFT);
  }

  /** Small buffers share one page; larger ones fill their pages exactly, whatever the alignment flag says. */
  lemma Shape(order: nat, pageAlign: bool)
    ensures var a, t, n := Alignment(order, pageAlign), Total(order), Pow2(order);
            0 < n <= a <= t && (a == n || (a == t && n < PAGE_SIZE)) &&
            (order > PAGE_SHIFT ==> a == n == t) && (order <= PAGE_SHIFT ==> t == PAGE_SIZE)
  {
    hide Pow2, PageAlign, Total;
    if order > PAGE_SHIFT {
      LargeTotal(order);
      AlignWhole(Pow2(order - PAGE_SHIFT));
    } else {
      SmallTotal(order);
      AlignSmall(Pow2(order));
    }
  }

  /** How many buffers fit one PCI segment: a whole number of them. */
  function PerSegment(order: nat, pageAlign: bool): nat
    requires Alignment(order, pageAlign) > 0
  {
    Fit(Total(order), Alignment(order, pageAlign))
  }

  function Fit(room: nat, each: nat): nat
    requires each > 0
  {
    room / each
  }

  lemma PowersDivide(a: nat, b: nat)
    requires a <= b
    ensures Pow2(b) == Pow2(b) / Pow2(a) * Pow2(a)
  {
    hide Pow2;
    Pow2Split(a, b - a);
    var p, q := Pow2(a), Pow2(b - a);
    assert Pow2(b) == q * p;
    DivExact(q, p);
  }

  lemma DivExact(q: nat, m: nat)
    requires m > 0
    ensures q * m / m == q
  {
    Quotient(q * m, m, q);
  }

  lemma SegmentsWhole(order: nat, pageAlign: bool)
    ensures var a, t := Alignment(order, pageAlign), Total(order);
            a > 0 && PerSegment(order, pageAlign) >= 1 && PerSegment(order, pageAlign) * a == t
  {
    Shape(order, pageAlign);
    PageIsPow2();
    var a, t := Alignment(order, pageAlign), Total(order);
    if a == t {
      DivExact(1, t);
    } else {
      assert order <= PAGE_SHIFT && a == Pow2(order);
      PowersDivide(order, PAGE_SHIFT);
      Quotient(t, a, PerSegment(order, pageAlign));
    }
  }

  // ----- what a successful call adds -----

  function LinearBuf(d: Dma, order: nat, align: nat, bus: int, k: nat): Buf {
    Buf(d.bufCount + k, align, order, d.byteCount + k * align, bus + k * align)
  }

  ghost function LinearBufs(d: Dma, order: nat, align: nat, bus: int, count: nat): (r: seq<Buf>)
    ensures |r| == count
  {
    seq(count, k requires 0 <= k < count => LinearBuf(d, order, align, bus, k))
  }

  /** AGP and scatter/gather: buffers back to back, although each is charged whole pages. */
  ghost function AfterLinear(d: Dma, order: nat, align: nat, bus: int, count: nat): Dma
    requires order < |d.entries|
  {
    var bytes := Wrap32(count * Total(order));
    var segs := d.entries[order].segCount;
    Dma(d.bufCount + count, d.segCount + segs, d.pageCount + bytes / PAGE_SIZE, d.byteCount + bytes,
        d.list + LinearBufs(d, order, align, bus, count),
        d.entries[order := Entry(count, segs, Pow2(order), PageOrder(order))])
  }

  /** Buffer i of PCI segment j. */
  function SegmentBuf(d: Dma, order: nat, pageAlign: bool, bus: int, j: nat, i: nat): Buf
    requires Alignment(order, pageAlign) > 0
  {
    var a := Alignment(order, pageAlign);
    Buf(d.bufCount + j * PerSegment(order, pageAlign) + i, a, order,
        d.byteCount + Wrap32(j * Total(order)) + i * a, bus + i * a)
  }

  function Segments(order: nat, pageAlign: bool, count: nat): nat
    requires Alignment(order, pageAlign) > 0 && PerSegment(order, pageAlign) > 0
  {
    Fit(count + PerSegment(order, pageAlign) - 1, PerSegment(order, pageAlign))
  }

  ghost predicate PciReady(order: nat, pageAlign: bool, count: nat, buses: seq<int>) {
    Alignment(order, pageAlign) > 0 && PerSegment(order, pageAlign) > 0 && Segments(order, pageAlign, count) <= |buses|
  }

  /** Which segment buffer k is in, and where. */
  ghost predicate InSegment(per: nat, k: nat, j: nat, i: nat) {
    k == j * per + i && i < per
  }

  ghost function PciBuf(d: Dma, order: nat, pageAlign: bool, buses: seq<int>, k: nat): Buf
    requires Alignment(order, pageAlign) > 0 && PerSegment(order, pageAlign) > 0
    requires Fit(k, PerSegment(order, pageAlign)) < |buses|
  {
    var per := PerSegment(order, pageAlign);
    SegmentBuf(d, order, pageAlign, buses[Fit(k, per)], Fit(k, per), k % per)
  }

  lemma InSegmentIs(per: nat, k: nat, j: nat, i: nat)
    requires InSegment(per, k, j, i)
    ensures Fit(k, per) == j && k % per == i
  {
    Quotient(k, per, j);
  }

  lemma FindSegment(per: nat, k: nat) returns (j: nat, i: nat)
    requires per > 0
    ensures InSegment(per, k, j, i) && j == Fit(k, per) && i == k % per
  {
    j, i := Fit(k, per), k % per;
    assert k == k / per * per + k % per;
  }

  /** The buffers of a call use all of its segments and no other. */
  lemma SegmentInRange(order: nat, pageAlign: bool, count: nat, k: nat)
    requires Alignment(order, pageAlign) > 0 && PerSegment(order, pageAlign) > 0 && k < count
    ensures Fit(k, PerSegment(order, pageAlign)) < Segments(order, pageAlign, count)
  {
    hide Alignment, PerSegment;
    var per := PerSegment(order, pageAlign);
    var j, i := FindSegment(per, k);
    var j1, i1 := FindSegment(per, count + per - 1);
    if j1 <= j {
      MulMono(j1, j, per);
      assert false;
    }
  }

  ghost function PciBufs(d: Dma, order: nat, pageAlign: bool, buses: seq<int>, count: nat): (r: seq<Buf>)
    requires PciReady(order, pageAlign, count, buses)
    ensures |r| == count
  {
    seq(count, k requires 0 <= k < count =>
      SegmentInRange(order, pageAlign, count, k); PciBuf(d, order, pageAlign, buses, k))
  }

  ghost function AfterPci(d: Dma, order: nat, pageAlign: bool, buses: seq<int>, count: nat): Dma
    requires order < |d.entries| && PciReady(order, pageAlign, count, buses)
  {
    var segs := d.entries[order].segCount + Segments(order, pageAlign, count);
    var pages := segs * Pow2(PageOrder(order));
    Dma(d.bufCount + count, d.segCount + segs, d.pageCount + pages, d.byteCount + PAGE_SIZE * pages,
        d.list + PciBufs(d, order, pageAlign, buses, count),
        d.entries[order := Entry(count, segs, Pow2(order), PageOrder(order))])
  }

  // ----- the invariant -----

  ghost predicate BufOk(d: Dma, k: nat)
    requires k < |d.list|
  {
    var b := d.list[k];
    b.idx == k && b.total > 0 && 0 <= b.offset && b.offset + b.total <= d.byteCount
  }

  /** Buffers appear in the order of their places, without overlap. */
  ghost predicate Before(a: Buf, b: Buf) {
    a.offset + a.total <= b.offset
  }

  ghost predicate EntryOk(e: Entry) {
    e.bufCount == 0 ==> e.segCount == 0
  }

  /** The buffers and the segments of all sizes together. */
  ghost function Counts(es: seq<Entry>): (int, int) {
    if es == [] then (0, 0)
    else
      var (bufs, segs) := Counts(es[..|es| - 1]);
      (bufs + es[|es| - 1].bufCount, segs + es[|es| - 1].segCount)
  }

  lemma {:induction false} CountsSet(es: seq<Entry>, i: nat, e: Entry)
    requires i < |es|
    ensures Counts(es[i := e]).0 == Counts(es).0 - es[i].bufCount + e.bufCount
    ensures Counts(es[i := e]).1 == Counts(es).1 - es[i].segCount + e.segCount
  {
    var n := |es| - 1;
    if i == n {
      assert es[i := e][..n] == es[..n];
    } else {
      assert es[i := e][..n] == es[..n][i := e];
      CountsSet(es[..n], i, e);
    }
  }

  lemma {:induction false} CountsSame(es: seq<Entry>, fs: seq<Entry>)
    requires |es| == |fs|
    requires forall o :: 0 <= o < |es| ==> fs[o].bufCount == es[o].bufCount && fs[o].segCount == es[o].segCount
    ensures Counts(fs) == Counts(es)
  {
    if es != [] { CountsSame(es[..|es| - 1], fs[..|es| - 1]); }
  }

  lemma {:induction false} CountsZero(es: seq<Entry>)
    requires forall o :: 0 <= o < |es| ==> es[o].bufCount == 0 && es[o].segCount == 0
    ensures Counts(es) == (0, 0)
  {
    if es != [] { CountsZero(es[..|es| - 1]); }
  }

  ghost predicate Inv(d: Dma) {
    d.bufCount == |d.list| && Counts(d.entries) == (d.bufCount, d.segCount) && d.pageCount >= 0 &&
    d.byteCount == PAGE_SIZE * d.pageCount &&
    (forall k :: 0 <= k < |d.list| ==> BufOk(d, k)) &&
    (forall i, k :: 0 <= i < k < |d.list| ==> Before(d.list[i], d.list[k])) &&
    |d.entries| == MAX_ORDER + 1 && (forall o :: 0 <= o < |d.entries| ==> EntryOk(d.entries[o]))
  }

  /** What two calls may share about sizes. */
  predicate OrderOk(order: nat) {
    MIN_ORDER <= order <= MAX_ORDER
  }

  /** The new buffers lie in the stretch by which the call extends the byte space. */
  ghost predicate OwnStretch(d: Dma, r: Dma) {
    |d.list| <= |r.list| && forall k :: |d.list| <= k < |r.list| ==> WithinStretch(d, r, r.list[k])
  }

  ghost predicate WithinStretch(d: Dma, r: Dma, b: Buf) {
    d.byteCount <= b.offset && b.offset + b.total <= r.byteCount
  }

  /** Any call that stays in its own stretch, and counts pages and buffers right, keeps the invariant. */
  ghost predicate Appends(d: Dma, r: Dma) {
    |d.list| <= |r.list| && r.list[..|d.list|] == d.list && r.bufCount == |r.list| &&
    r.pageCount >= d.pageCount && r.byteCount == PAGE_SIZE * r.pageCount &&
    (forall k :: |d.list| <= k < |r.list| ==> r.list[k].idx == k && r.list[k].total > 0) &&
    (forall i, k :: |d.list| <= i < k < |r.list| ==> Before(r.list[i], r.list[k])) &&
    |r.entries| == |d.entries| && Counts(r.entries) == (r.bufCount, r.segCount) &&
    forall o :: 0 <= o < |r.entries| ==> EntryOk(r.entries[o])
  }

  lemma AppendKeepsInv(d: Dma, r: Dma)
    requires Inv(d) && Appends(d, r) && OwnStretch(d, r)
    ensures Inv(r)
  {
    forall k | 0 <= k < |r.list| ensures BufOk(r, k) {
      if k < |d.list| {
        assert r.list[k] == d.list[k] && BufOk(d, k);
      } else {
        assert WithinStretch(d, r, r.list[k]);
      }
    }
    forall i, k | 0 <= i < k < |r.list| ensures Before(r.list[i], r.list[k]) {
      if k < |d.list| {
        assert r.list[i] == d.list[i] && r.list[k] == d.list[k];
      } else if i < |d.list| {
        assert r.list[i] == d.list[i] && BufOk(d, i) && WithinStretch(d, r, r.list[k]);
      }
    }
  }

  // ----- AGP and scatter/gather -----

  /** The bytes a call charges fit an int. */
  predicate LinearFits(order: nat, count: nat) {
    count * Total(order) < INT_LIMIT
  }

  lemma SmallCountsFit(order: nat, count: nat)
    requires order <= PAGE_SHIFT && count <= MAX_COUNT
    ensures Total(order) == PAGE_SIZE && count * Total(order) <= MAX_COUNT * PAGE_SIZE
  {
    Shape(order, false);
    MulMono(count, MAX_COUNT, Total(order));
  }

  /** The buffers of a linear call stay in its stretch if and only if its byte count fits an int. */
  lemma LinearStretchIff(d: Dma, order: nat, pageAlign: bool, bus: int, count: nat)
    requires order < |d.entries| && count <= MAX_COUNT
    ensures OwnStretch(d, AfterLinear(d, order, Alignment(order, pageAlign), bus, count)) <==> LinearFits(order, count)
  {
    hide Alignment, Total;
    var a, t := Alignment(order, pageAlign), Total(order);
    var r := AfterLinear(d, order, a, bus, count);
    Shape(order, pageAlign);
    if LinearFits(order, count) {
      MulMono(0, count, t);
      forall k | |d.list| <= k < |r.list| ensures WithinStretch(d, r, r.list[k]) {
        var i := k - |d.list|;
        LinearPlace(i, count, a, t);
      }
    } else {
      if order <= PAGE_SHIFT { SmallCountsFit(order, count); }
      Positive(count, t);
      var last := |r.list| - 1;
      assert r.list[last] == LinearBuf(d, order, a, bus, count - 1);
      assert (count - 1) * a + a == count * a;
      assert !WithinStretch(d, r, r.list[last]);
    }
  }

  lemma Positive(a: nat, b: nat)
    requires a * b > 0
    ensures a > 0
  {
  }

  lemma LinearPlace(i: nat, count: nat, a: nat, t: nat)
    requires i < count && a <= t
    ensures 0 <= i * a && i * a + a <= count * t
  {
    MulMono(i + 1, count, a);
    MulMono(a, t, count);
    assert i * a + a == (i + 1) * a && a * count == count * a && t * count == count * t;
  }

  lemma LinearPages(order: nat, count: nat)
    requires LinearFits(order, count)
    ensures var bytes := Wrap32(count * Total(order)); bytes >= 0 && bytes == bytes / PAGE_SIZE * PAGE_SIZE
  {
    var x := count * Pow2(PageOrder(order));
    Reassoc(count, PAGE_SIZE, Pow2(PageOrder(order)));
    Quotient(x * PAGE_SIZE, PAGE_SIZE, x);
    MulMono(0, count, Total(order));
  }

  lemma LinearOrdered(d: Dma, order: nat, a: nat, bus: int, i: nat, k: nat)
    requires i < k
    ensures Before(LinearBuf(d, order, a, bus, i), LinearBuf(d, order, a, bus, k))
  {
    MulMono(i + 1, k, a);
    assert (i + 1) * a == i * a + a;
  }

  lemma LinearAppends(d: Dma, order: nat, pageAlign: bool, bus: int, count: nat)
    requires Inv(d) && OrderOk(order) && count <= MAX_COUNT && LinearFits(order, count) &&
             d.entries[order].bufCount == 0
    ensures Appends(d, AfterLinear(d, order, Alignment(order, pageAlign), bus, count))
  {
    hide Alignment, BufOk, Wrap32, Total, Before, LinearFits, Counts, Pow2, PageOrder;
    var a := Alignment(order, pageAlign);
    var r := AfterLinear(d, order, a, bus, count);
    Shape(order, pageAlign);
    assert EntryOk(d.entries[order]);
    CountsSet(d.entries, order, Entry(count, d.entries[order].segCount, Pow2(order), PageOrder(order)));
    LinearPages(order, count);
    forall i, k | |d.list| <= i < k < |r.list| ensures Before(r.list[i], r.list[k]) {
      LinearOrdered(d, order, a, bus, i - |d.list|, k - |d.list|);
      assert r.list[i] == LinearBuf(d, order, a, bus, i - |d.list|);
      assert r.list[k] == LinearBuf(d, order, a, bus, k - |d.list|);
    }
  }

  lemma Reassoc(a: int, b: int, c: int)
    ensures a * (b * c) == (a * c) * b
  {
  }

  // ----- PCI -----

  /** The running byte count at the last segment fits an int. */
  predicate PciFits(order: nat, count: nat) {
    count == 0 || (count - 1) * Total(order) < INT_LIMIT
  }

  lemma PciPlace(d: Dma, order: nat, pageAlign: bool, buses: seq<int>, count: nat, k: nat) returns (j: nat, i: nat)
    requires PciReady(order, pageAlign, count, buses) && k < count && PciFits(order, count)
    ensures InSegment(PerSegment(order, pageAlign), k, j, i) && j < Segments(order, pageAlign, count)
    ensures PciBufs(d, order, pageAlign, buses, count)[k] == SegmentBuf(d, order, pageAlign, buses[j], j, i)
    ensures 0 <= j * Total(order) < INT_LIMIT &&
            i * Alignment(order, pageAlign) + Alignment(order, pageAlign) <= Total(order)
    ensures Wrap32(j * Total(order)) == j * Total(order)
  {
    hide Alignment, PerSegment, Total, Segments, SegmentBuf;
    var per := PerSegment(order, pageAlign);
    SegmentInRange(order, pageAlign, count, k);
    j, i := FindSegment(per, k);
    SegmentsWhole(order, pageAlign);
    MulMono(i + 1, per, Alignment(order, pageAlign));
    assert (i + 1) * Alignment(order, pageAlign) == i * Alignment(order, pageAlign) + Alignment(order, pageAlign);
    assert j <= k by { MulMono(1, per, j); assert per * j == j * per; }
    MulMono(j, count - 1, Total(order));
    MulMono(0, j, Total(order));
  }

  /** The buffers of a PCI call stay in its stretch if and only if the running byte count never wraps. */
  lemma PciStretchIff(d: Dma, order: nat, pageAlign: bool, buses: seq<int>, count: nat)
    requires Inv(d) && OrderOk(order) && d.entries[order].bufCount == 0
    requires count <= MAX_COUNT && PciReady(order, pageAlign, count, buses)
    ensures OwnStretch(d, AfterPci(d, order, pageAlign, buses, count)) <==> PciFits(order, count)
  {
    hide Inv;
    if PciFits(order, count) {
      PciStays(d, order, pageAlign, buses, count);
    } else {
      PciLeaves(d, order, pageAlign, buses, count);
    }
  }

  lemma PciBytes(d: Dma, order: nat, pageAlign: bool, buses: seq<int>, count: nat)
    requires Inv(d) && OrderOk(order) && d.entries[order].bufCount == 0 && PciReady(order, pageAlign, count, buses)
    ensures var r := AfterPci(d, order, pageAlign, buses, count);
            r.byteCount == d.byteCount + Segments(order, pageAlign, count) * Total(order) &&
            r.list == d.list + PciBufs(d, order, pageAlign, buses, count)
  {
    hide BufOk, Segments, PerSegment, Alignment, PciBufs;
    assert EntryOk(d.entries[order]);
    Reassoc(Segments(order, pageAlign, count), PAGE_SIZE, Pow2(PageOrder(order)));
  }

  lemma PciStays(d: Dma, order: nat, pageAlign: bool, buses: seq<int>, count: nat)
    requires Inv(d) && OrderOk(order) && d.entries[order].bufCount == 0
    requires PciReady(order, pageAlign, count, buses) && PciFits(order, count)
    ensures OwnStretch(d, AfterPci(d, order, pageAlign, buses, count))
  {
    hide BufOk, Before, Segments, PerSegment, Alignment, Total, PciBufs, AfterPci, PciFits, Wrap32;
    PciBytes(d, order, pageAlign, buses, count);
    var r := AfterPci(d, order, pageAlign, buses, count);
    forall k | |d.list| <= k < |r.list| ensures WithinStretch(d, r, r.list[k]) {
      var j, i := PciPlace(d, order, pageAlign, buses, count, k - |d.list|);
      MulMono(j + 1, Segments(order, pageAlign, count), Total(order));
      assert (j + 1) * Total(order) == j * Total(order) + Total(order);
      MulMono(0, i, Alignment(order, pageAlign));
    }
  }

  lemma PciLeaves(d: Dma, order: nat, pageAlign: bool, buses: seq<int>, count: nat)
    requires Inv(d) && OrderOk(order) && d.entries[order].bufCount == 0 && count <= MAX_COUNT
    requires PciReady(order, pageAlign, count, buses) && !PciFits(order, count)
    ensures !OwnStretch(d, AfterPci(d, order, pageAlign, buses, count))
  {
    hide BufOk, Before, Segments, PerSegment, Alignment, Total, AfterPci, PciFits;
    PciBytes(d, order, pageAlign, buses, count);
    var k := WrapPoint(order, pageAlign, count);
    InSegmentIs(1, k, k, 0);
    var r := AfterPci(d, order, pageAlign, buses, count);
    SegmentInRange(order, pageAlign, count, k);
    assert r.list[|d.list| + k] == PciBuf(d, order, pageAlign, buses, k);
    assert !WithinStretch(d, r, r.list[|d.list| + k]);
  }

  /** A call that is too large has a segment that starts exactly where an int ends. */
  lemma WrapPoint(order: nat, pageAlign: bool, count: nat) returns (k: nat)
    requires order <= MAX_ORDER && count <= MAX_COUNT && !PciFits(order, count)
    ensures k < count && k * Total(order) == INT_LIMIT
    ensures Alignment(order, pageAlign) > 0 && PerSegment(order, pageAlign) == 1
  {
    hide Alignment, PerSegment, Total, Pow2;
    MulZeroFits(order, count);
    if order <= PAGE_SHIFT { SmallCountsFit(order, count - 1); }
    Shape(order, pageAlign);
    SegmentsWhole(order, pageAlign);
    OnePerSegment(PerSegment(order, pageAlign), Total(order));
    Pow2Split(order, 31 - order);
    Pow31();
    k := Pow2(31 - order);
    BelowLimit(k, count, Total(order));
  }

  lemma MulZeroFits(order: nat, count: nat)
    requires !PciFits(order, count)
    ensures count > 0 && (count - 1) * Total(order) >= INT_LIMIT
  {
  }

  lemma BelowLimit(k: nat, count: nat, t: nat)
    requires k * t == INT_LIMIT && count > 0 && (count - 1) * t >= INT_LIMIT && t > 0
    ensures k < count
  {
    if k >= count {
      MulMono(count, k, t);
    }
  }

  lemma OnePerSegment(per: nat, t: nat)
    requires per >= 1 && t > 0 && per * t == t
    ensures per == 1
  {
    if per > 1 {
      MulMono(2, per, t);
      assert false;
    }
  }

  lemma Pow31()
    ensures Pow2(31) == INT_LIMIT
  {
    PageIsPow2();
    Pow2Split(12, 12);
    assert Pow2(7) == 128;
    Pow2Split(24, 7);
  }

  lemma PciAppends(d: Dma, order: nat, pageAlign: bool, buses: seq<int>, count: nat)
    requires Inv(d) && OrderOk(order) && d.entries[order].bufCount == 0
    requires PciReady(order, pageAlign, count, buses) && PciFits(order, count)
    ensures Appends(d, AfterPci(d, order, pageAlign, buses, count))
  {
    hide BufOk, PerSegment, Alignment, Total, PciBufs, PciFits, Before, Counts, Pow2, PageOrder;
    var r := AfterPci(d, order, pageAlign, buses, count);
    assert EntryOk(d.entries[order]);
    NoSegments(order, pageAlign, count);
    CountsSet(d.entries, order, Entry(count, r.entries[order].segCount, Pow2(order), PageOrder(order)));
    hide Segments;
    MulMono(0, Segments(order, pageAlign, count), Pow2(PageOrder(order)));
    forall k | |d.list| <= k < |r.list| ensures r.list[k].idx == k && r.list[k].total > 0 {
      PciIndexed(d, order, pageAlign, buses, count, k - |d.list|);
    }
    forall k, l | |d.list| <= k < l < |r.list| ensures Before(r.list[k], r.list[l]) {
      PciOrdered(d, order, pageAlign, buses, count, k - |d.list|, l - |d.list|);
    }
  }

  lemma PciIndexed(d: Dma, order: nat, pageAlign: bool, buses: seq<int>, count: nat, k: nat)
    requires PciReady(order, pageAlign, count, buses) && PciFits(order, count) && k < count
    ensures var b := PciBufs(d, order, pageAlign, buses, count)[k]; b.idx == d.bufCount + k && b.total > 0
  {
    hide PerSegment, Alignment, Total, PciBufs, PciFits, Wrap32, Segments;
    var j, i := PciPlace(d, order, pageAlign, buses, count, k);
  }

  lemma PciOrdered(d: Dma, order: nat, pageAlign: bool, buses: seq<int>, count: nat, k: nat, l: nat)
    requires PciReady(order, pageAlign, count, buses) && PciFits(order, count) && k < l < count
    ensures var bufs := PciBufs(d, order, pageAlign, buses, count); Before(bufs[k], bufs[l])
  {
    hide PerSegment, Alignment, Total, PciBufs, PciFits, Wrap32, Segments;
    var j, i := PciPlace(d, order, pageAlign, buses, count, k);
    var j1, i1 := PciPlace(d, order, pageAlign, buses, count, l);
    SegmentsOrdered(PerSegment(order, pageAlign), Total(order), Alignment(order, pageAlign), j, i, j1, i1);
  }

  lemma NoSegments(order: nat, pageAlign: bool, count: nat)
    requires Alignment(order, pageAlign) > 0 && PerSegment(order, pageAlign) > 0
    ensures count == 0 ==> Segments(order, pageAlign, count) == 0
  {
    if count == 0 { Quotient(PerSegment(order, pageAlign) - 1, PerSegment(order, pageAlign), 0); }
  }

  lemma DigitOrder(per: nat, j: nat, i: nat, j1: nat, i1: nat)
    requires i < per && i1 < per && j * per + i < j1 * per + i1
    ensures j < j1 || (j == j1 && i < i1)
  {
    if j1 < j {
      MulMono(j1 + 1, j, per);
    }
  }

  lemma SegmentsOrdered(per: nat, t: nat, a: nat, j: nat, i: nat, j1: nat, i1: nat)
    requires i < per && i1 < per && j * per + i < j1 * per + i1 && i * a + a <= t
    ensures j * t + i * a + a <= j1 * t + i1 * a
  {
    DigitOrder(per, j, i, j1, i1);
    if j1 == j {
      MulMono(i + 1, i1, a);
      assert (i + 1) * a == i * a + a;
    } else {
      MulMono(j + 1, j1, t);
      assert (j + 1) * t == j * t + t;
      MulMono(0, i1, a);
    }
  }

  // ----- any mix of calls -----

  /** Where the buffers of a call come from; a PCI call is told the bus address of each segment it allocates. */
  datatype Source = Linear(bus: int) | Pci(buses: seq<int>)

  /** What the locked part of every call asks before it builds anything. */
  ghost predicate Admits(d: Dma, order: nat, count: int) {
    |d.entries| == MAX_ORDER + 1 && OrderOk(order) && d.entries[order].bufCount == 0 && 0 <= count <= MAX_COUNT
  }

  ghost predicate Ready(req: Request, source: Source)
    requires req.count >= 0
  {
    source.Pci? ==> PciReady(OrderBase2(req.size), req.pageAlign, req.count, source.buses)
  }

  ghost function After(d: Dma, req: Request, source: Source): Dma
    requires Admits(d, OrderBase2(req.size), req.count) && Ready(req, source)
  {
    var order := OrderBase2(req.size);
    match source
    case Linear(bus) => AfterLinear(d, order, Alignment(order, req.pageAlign), bus, req.count)
    case Pci(buses) => AfterPci(d, order, req.pageAlign, buses, req.count)
  }

  /** The sizes of the request keep the call's int byte count exact. */
  ghost predicate Fits(req: Request, source: Source)
    requires req.count >= 0
  {
    match source
    case Linear(_) => LinearFits(OrderBase2(req.size), req.count)
    case Pci(_) => PciFits(OrderBase2(req.size), req.count)
  }

  /** Nothing that later calls or the users of the buffers look at changed. */
  ghost predicate SameTotals(d: Dma, r: Dma) {
    r.bufCount == d.bufCount && r.segCount == d.segCount && r.pageCount == d.pageCount && r.byteCount == d.byteCount &&
    r.list == d.list && |r.entries| == |d.entries| &&
    forall o :: 0 <= o < |d.entries| ==>
      r.entries[o].bufCount == d.entries[o].bufCount && r.entries[o].segCount == d.entries[o].segCount
  }

  /** One call: either it fails and leaves the totals, or it adds what the request asks for. */
  ghost predicate Call(d: Dma, req: Request, source: Source, r: Dma) {
    SameTotals(d, r) ||
    (Admits(d, OrderBase2(req.size), req.count) && Ready(req, source) && Fits(req, source) &&
     r == After(d, req, source))
  }

  lemma FailureKeepsInv(d: Dma, r: Dma)
    requires Inv(d) && SameTotals(d, r)
    ensures Inv(r)
  {
    CountsSame(d.entries, r.entries);
    forall k | 0 <= k < |r.list| ensures BufOk(r, k) { assert BufOk(d, k); }
    forall o | 0 <= o < |r.entries| ensures EntryOk(r.entries[o]) { assert EntryOk(d.entries[o]); }
  }

  lemma CallKeepsInv(d: Dma, req: Request, source: Source, r: Dma)
    requires Inv(d) && Call(d, req, source, r)
    ensures Inv(r)
  {
    hide Inv, Appends, OwnStretch, SameTotals, AfterLinear, AfterPci, PciReady, LinearFits, PciFits, Alignment;
    if SameTotals(d, r) {
      FailureKeepsInv(d, r);
    } else {
      var order := OrderBase2(req.size);
      match source {
        case Linear(bus) =>
          LinearStretchIff(d, order, req.pageAlign, bus, req.count);
          LinearAppends(d, order, req.pageAlign, bus, req.count);
        case Pci(buses) =>
          PciStretchIff(d, order, req.pageAlign, buses, req.count);
          PciAppends(d, order, req.pageAlign, buses, req.count);
      }
      AppendKeepsInv(d, r);
    }
  }

  datatype Event = Event(req: Request, source: Source)

  ghost predicate Run(ds: seq<Dma>, events: seq<Event>) {
    |ds| == |events| + 1 && Inv(ds[0]) &&
    forall i :: 0 <= i < |events| ==> Call(ds[i], events[i].req, events[i].source, ds[i + 1])
  }

  lemma {:induction false} RunKeepsInv(ds: seq<Dma>, events: seq<Event>, i: nat)
    requires Run(ds, events) && i < |ds|
    ensures Inv(ds[i])
  {
    hide Inv, Call;
    if i > 0 {
      RunKeepsInv(ds, events, i - 1);
      CallKeepsInv(ds[i - 1], events[i - 1].req, events[i - 1].source, ds[i]);
    }
  }

  /** In every state of every run, no byte of the buffer space belongs to two buffers, and a buffer knows its index. */
  lemma BytesHaveOneOwner(ds: seq<Dma>, events: seq<Event>, n: nat, i: nat, k: nat, byte: int)
    requires Run(ds, events) && n < |ds| && i < |ds[n].list| && k < |ds[n].list|
    requires ds[n].list[i].offset <= byte < ds[n].list[i].offset + ds[n].list[i].total
    requires ds[n].list[k].offset <= byte < ds[n].list[k].offset + ds[n].list[k].total
    ensures i == k == ds[n].list[i].idx && 0 <= byte < PAGE_SIZE * ds[n].pageCount
  {
    RunKeepsInv(ds, events, n);
    var d := ds[n];
    assert BufOk(d, i);
    assert i < k ==> Before(d.list[i], d.list[k]);
    assert k < i ==> Before(d.list[k], d.list[i]);
  }

  /** 512 AGP buffers of 4 MiB wrap the int: the space shrinks while the buffers reach beyond its end. */
  lemma LargeCallOverruns(d: Dma, bus: int)
    requires Inv(d) && d.entries[22].bufCount == 0
    ensures !OwnStretch(d, AfterLinear(d, 22, Alignment(22, false), bus, 512))
  {
    hide BufOk, Before, OwnStretch, AfterLinear;
    LinearStretchIff(d, 22, false, bus, 512);
    Shape(22, false);
    PageIsPow2();
    assert Pow2(10) == 1024;
    Pow2Split(12, 10);
  }

  /** 513 PCI buffers of 4 MiB, one more than fit an int: the last one is placed before the stretch of the call. */
  lemma LargePciCallLeaves(d: Dma, buses: seq<int>)
    requires Inv(d) && d.entries[22].bufCount == 0 && |buses| == 513
    ensures PciReady(22, false, 513, buses) && !OwnStretch(d, AfterPci(d, 22, false, buses, 513))
  {
    hide BufOk, Before, OwnStretch, AfterPci;
    LargePciReady(buses);
    hide PciReady;
    PciStretchIff(d, 22, false, buses, 513);
    Shape(22, false);
    PageIsPow2();
    assert Pow2(10) == 1024;
    Pow2Split(12, 10);
  }

  /** Each of these buffers fills a segment. */
  lemma LargePciReady(buses: seq<int>)
    requires |buses| == 513
    ensures PciReady(22, false, 513, buses)
  {
    hide Alignment, PerSegment, Total;
    Shape(22, false);
    SegmentsWhole(22, false);
    OnePerSegment(PerSegment(22, false), Total(22));
    Quotient(513, 1, 513);
  }

  // ----- AGP memory -----

  /** One bound range of AGP memory. */
  datatype Region = Region(bound: int, pages: nat)

  predicate Holds(m: Region, start: int, bytes: int) {
    start >= m.bound && start + bytes <= m.bound + m.pages * PAGE_SIZE
  }

  /** The test of the AGP routine: with no memory recorded everything passes. */
  predicate ZoneOk(memory: seq<Region>, start: int, bytes: int) {
    memory == [] || exists i :: 0 <= i < |memory| && Holds(memory[i], start, bytes)
  }

  /** Buffers of an accepted request whose size fits lie in one range of AGP memory that the device owns. */
  lemma AgpOwned(d: Dma, order: nat, pageAlign: bool, bus: int, count: nat, memory: seq<Region>) returns (m: nat)
    requires order < |d.entries| && LinearFits(order, count)
    requires memory != [] && ZoneOk(memory, bus, Wrap32(Total(order) * count))
    ensures m < |memory|
    ensures forall k :: 0 <= k < count ==>
              var b := LinearBufs(d, order, Alignment(order, pageAlign), bus, count)[k];
              Holds(memory[m], b.bus, b.total)
  {
    hide Alignment, Total;
    m :| 0 <= m < |memory| && Holds(memory[m], bus, Wrap32(Total(order) * count));
    Shape(order, pageAlign);
    MulMono(0, count, Total(order));
    assert Total(order) * count == count * Total(order);
    forall k | 0 <= k < count
      ensures var b := LinearBufs(d, order, Alignment(order, pageAlign), bus, count)[k];
              Holds(memory[m], b.bus, b.total)
    {
      LinearPlace(k, count, Alignment(order, pageAlign), Total(order));
    }
  }

  // ----- the calls, in place -----

  /** The device's DMA record. An allocation budget stands for the memory allocator: it fails once it is used up. */
  class Buffers {
    var bufUse: nat
    var bufAlloc: nat
    var bufCount: int
    var segCount: int
    var pageCount: int
    var byteCount: int
    var list: seq<Buf>
    var entries: seq<Entry>

    ghost function State(): Dma
      reads this
    {
      Dma(bufCount, segCount, pageCount, byteCount, list, entries)
    }

    constructor ()
      ensures Inv(State()) && list == [] && bufUse == 0 && bufAlloc == 0
    {
      bufUse, bufAlloc, bufCount, segCount, pageCount, byteCount := 0, 0, 0, 0, 0, 0;
      list := [];
      entries := seq(MAX_ORDER + 1, _ => Entry(0, 0, 0, 0));
      new;
      CountsZero(entries);
    }

    /** The part of every call that decides whether buffers of this order may be built now. */
    method Enter(order: nat, count: int) returns (status: Status)
      requires order < |entries|
      modifies `bufAlloc
      ensures status == if bufUse > 0 then Busy else if entries[order].bufCount > 0 then NoMemory
                        else if 0 <= count <= MAX_COUNT then Ok else Invalid
      ensures bufAlloc == old(bufAlloc) + if status == Ok then 1 else 0
    {
      if bufUse > 0 { return Busy; }
      bufAlloc := bufAlloc + 1;
      if entries[order].bufCount > 0 {
        bufAlloc := bufAlloc - 1;
        return NoMemory;
      }
      if count < 0 || count > MAX_COUNT {
        bufAlloc := bufAlloc - 1;
        return Invalid;
      }
      return Ok;
    }

    /** drm_cleanup_buf_error, and the end of a failed call. */
    method CleanupError(order: nat)
      requires order < |entries| && bufAlloc > 0
      modifies `entries, `bufAlloc
      ensures entries == old(entries)[order := old(entries)[order].(bufCount := 0, segCount := 0)]
      ensures bufAlloc == old(bufAlloc) - 1
    {
      if entries[order].segCount > 0 { entries := entries[order := entries[order].(segCount := 0)]; }
      if entries[order].bufCount > 0 { entries := entries[order := entries[order].(bufCount := 0)]; }
      bufAlloc := bufAlloc - 1;
    }

    /** Appends the finished buffers to the device's list. */
    method Append(bufs: seq<Buf>)
      modifies `list
      ensures list == old(list) + bufs
    {
      var i := 0;
      while i < |bufs|
        invariant 0 <= i <= |bufs|
        invariant list == old(list) + bufs[..i]
      {
        list := list + [bufs[i]];
        i := i + 1;
      }
    }

    /** The loop of the AGP and scatter/gather routines. */
    method FillLinear(order: nat, align: nat, count: nat, bus: int, budget: nat)
      returns (ok: bool, bufs: seq<Buf>, bytes: int)
      requires order < |entries| && entries[order].bufCount == 0
      modifies `entries
      ensures ok <==> budget >= count
      ensures ok ==> bufs == LinearBufs(old(State()), order, align, bus, count) && bytes == Wrap32(count * Total(order))
      ensures entries == old(entries)[order := old(entries)[order].(bufCount := count)]
    {
      ghost var d := State();
      hide Total, Wrap32;
      bufs, bytes := [], 0;
      var n, offset, left := 0, 0, budget;
      WrapZero();
      while n < count
        invariant 0 <= n <= count && entries == d.entries[order := d.entries[order].(bufCount := n)]
        invariant offset == n * align && left == budget - n
        invariant |bufs| == n && forall k :: 0 <= k < n ==> bufs[k] == LinearBuf(d, order, align, bus, k)
        invariant bytes == Wrap32(n * Total(order))
      {
        if left == 0 {
          entries := entries[order := entries[order].(bufCount := count)];
          return false, [], 0;
        }
        left := left - 1;
        bufs := bufs + [Buf(bufCount + n, align, order, byteCount + offset, bus + offset)];
        WrapAdd(n * Total(order), Total(order));
        assert (n + 1) * Total(order) == n * Total(order) + Total(order);
        assert (n + 1) * align == n * align + align;
        offset := offset + align;
        n := n + 1;
        entries := entries[order := entries[order].(bufCount := n)];
        bytes := Wrap32(bytes + Total(order));
      }
      ok := true;
    }

    /** What the AGP and scatter/gather routines share once the request is admitted. */
    method AddLinear(order: nat, align: nat, count: nat, bus: int, budget: nat) returns (status: Status)
      requires Inv(State()) && Admits(State(), order, count) && bufAlloc > 0
      modifies this
      ensures bufAlloc == old(bufAlloc) - 1 && bufUse == old(bufUse)
      ensures status == if budget >= count + 2 then Ok else NoMemory
      ensures status == Ok ==> State() == AfterLinear(old(State()), order, align, bus, count)
      ensures status != Ok ==> SameTotals(old(State()), State())
    {
      hide BufOk, Before, Total, Wrap32, LinearBufs;
      assert EntryOk(entries[order]);
      if budget == 0 {
        bufAlloc := bufAlloc - 1;
        return NoMemory;
      }
      entries := entries[order := entries[order].(bufSize := Pow2(order), pageOrder := PageOrder(order))];
      LinearBufsSame(old(State()), State(), order, align, bus, count);
      var ok, bufs, bytes := FillLinear(order, align, count, bus, budget - 1);
      if !ok || budget - 1 - count == 0 {
        CleanupError(order);
        return NoMemory;
      }
      Append(bufs);
      bufCount := bufCount + entries[order].bufCount;
      segCount := segCount + entries[order].segCount;
      pageCount := pageCount + bytes / PAGE_SIZE;
      byteCount := byteCount + bytes;
      bufAlloc := bufAlloc - 1;
      return Ok;
    }

    /** drm_legacy_addbufs_agp. */
    method AddAgp(req: Request, base: int, memory: seq<Region>, budget: nat) returns (status: Status)
      requires Inv(State())
      modifies this
      ensures bufAlloc == old(bufAlloc) && bufUse == old(bufUse)
      ensures status == Ok <==>
                var order := OrderBase2(req.size);
                Admits(old(State()), order, req.count) && bufUse == 0 && budget >= req.count + 2 &&
                ZoneOk(memory, base + req.start, Wrap32(Total(order) * req.count))
      ensures status == Ok ==> State() == After(old(State()), req, Linear(base + req.start))
      ensures status != Ok ==> SameTotals(old(State()), State())
    {
      hide BufOk, Before, EntryOk, Total, Wrap32, AfterLinear, Alignment;
      var order := OrderBase2(req.size);
      var start := base + req.start;
      if order < MIN_ORDER || order > MAX_ORDER { return Invalid; }
      var valid := FindZone(memory, start, Wrap32(Total(order) * req.count));
      if |memory| > 0 && !valid { return Invalid; }
      status := Enter(order, req.count);
      if status != Ok { return; }
      status := AddLinear(order, Alignment(order, req.pageAlign), req.count, start, budget);
    }

    /** The walk over the AGP memory list. */
    method FindZone(memory: seq<Region>, start: int, bytes: int) returns (valid: bool)
      ensures valid <==> exists i :: 0 <= i < |memory| && Holds(memory[i], start, bytes)
    {
      var i := 0;
      while i < |memory|
        invariant 0 <= i <= |memory| && forall k :: 0 <= k < i ==> !Holds(memory[k], start, bytes)
      {
        if Holds(memory[i], start, bytes) { return true; }
        i := i + 1;
      }
      return false;
    }

    /** drm_legacy_addbufs_sg. */
    method AddSg(req: Request, supported: bool, admin: bool, budget: nat) returns (status: Status)
      requires Inv(State())
      modifies this
      ensures bufAlloc == old(bufAlloc) && bufUse == old(bufUse)
      ensures status == Ok <==>
                Admits(old(State()), OrderBase2(req.size), req.count) && bufUse == 0 && budget >= req.count + 2 &&
                supported && admin
      ensures status == Ok ==> State() == After(old(State()), req, Linear(req.start))
      ensures status != Ok ==> SameTotals(old(State()), State())
    {
      hide BufOk, Before, EntryOk, Total, Wrap32, AfterLinear, Alignment;
      if !supported { return Invalid; }
      if !admin { return NotPermitted; }
      var order := OrderBase2(req.size);
      if order < MIN_ORDER || order > MAX_ORDER { return Invalid; }
      status := Enter(order, req.count);
      if status != Ok { return; }
      status := AddLinear(order, Alignment(order, req.pageAlign), req.count, req.start, budget);
    }

    /** The page list entries of one segment. */
    method FillPages(pages: array<int>, at: nat, n: nat, vaddr: int)
      requires at + n <= pages.Length
      modifies pages
      ensures forall i :: 0 <= i < n ==> pages[at + i] == vaddr + PAGE_SIZE * i
      ensures forall i :: 0 <= i < at ==> pages[i] == old(pages[i])
    {
      var i := 0;
      while i < n
        invariant 0 <= i <= n
        invariant forall k :: 0 <= k < i ==> pages[at + k] == vaddr + PAGE_SIZE * k
        invariant forall k :: 0 <= k < at ==> pages[k] == old(pages[k])
      {
        pages[at + i] := vaddr + PAGE_SIZE * i;
        i := i + 1;
      }
    }

    /** The inner loop of the PCI routine: as many buffers as segment j holds and the request still wants. */
    method FillSegment(order: nat, pageAlign: bool, count: nat, bus: int, j: nat, start: nat, bytes: int, budget: nat)
      returns (ok: bool, bufs: seq<Buf>)
      requires start < count && Alignment(order, pageAlign) > 0 && start == j * PerSegment(order, pageAlign)
      requires bytes == Wrap32(j * Total(order))
      ensures ok ==> |bufs| <= budget && |bufs| == Min(PerSegment(order, pageAlign), count - start)
      ensures ok ==> forall i :: 0 <= i < |bufs| ==> bufs[i] == SegmentBuf(State(), order, pageAlign, bus, j, i)
      ensures !ok ==> budget < Min(PerSegment(order, pageAlign), count - start)
    {
      hide Alignment, PerSegment, Total, Wrap32, Pow2;
      SegmentsWhole(order, pageAlign);
      Shape(order, pageAlign);
      ghost var per := PerSegment(order, pageAlign);
      var align, size, total := Alignment(order, pageAlign), Pow2(order), Total(order);
      var offset, n := 0, 0;
      bufs := [];
      RoomLeft(per, align, size, total, 0);
      while offset + size <= total && start + n < count
        invariant 0 <= n <= Min(per, count - start) && offset == n * align && |bufs| == n <= budget
        invariant offset + size <= total <==> n < per
        invariant forall i :: 0 <= i < n ==> bufs[i] == SegmentBuf(State(), order, pageAlign, bus, j, i)
        decreases count - start - n
      {
        if n == budget { return false, []; }
        bufs := bufs + [Buf(bufCount + start + n, align, order, byteCount + bytes + offset, bus + offset)];
        assert (n + 1) * align == n * align + align;
        offset := offset + align;
        n := n + 1;
        RoomLeft(per, align, size, total, n);
      }
      ok := true;
    }

    /** The outer loop of the PCI routine. Its list accesses stay in the lists it allocated. */
    method FillPci(order: nat, pageAlign: bool, count: nat, buses: seq<int>, vaddrs: seq<int>, budget: nat)
      returns (ok: bool, bufs: seq<Buf>, segs: nat)
      requires order < |entries| && pageCount >= 0 && PciReady(order, pageAlign, count, buses) && |vaddrs| == |buses|
      ensures ok <==> budget >= count + Segments(order, pageAlign, count)
      ensures ok ==> bufs == PciBufs(State(), order, pageAlign, buses, count) &&
                     segs == Segments(order, pageAlign, count)
    {
      hide Alignment, PerSegment, Total, Wrap32, Segments, Pow2, PageOrder, SegmentBuf, Fit, PciBuf;
      SegmentsWhole(order, pageAlign);
      ghost var per := PerSegment(order, pageAlign);
      var perPages := Pow2(PageOrder(order));
      MulMono(0, count, perPages);
      var seglist := new int[count];
      var pages := new int[pageCount + count * perPages];
      var bytes, left, pageAt := 0, budget, 0;
      bufs, segs := [], 0;
      WrapZero();
      while |bufs| < count
        invariant segs <= |bufs| <= count && |bufs| <= segs * per && (|bufs| < count ==> |bufs| == segs * per)
        invariant segs > 0 ==> (segs - 1) * per < |bufs|
        invariant left == budget - segs - |bufs| && left >= 0 && pageAt == segs * perPages &&
                  bytes == Wrap32(segs * Total(order))
        invariant forall k :: 0 <= k < |bufs| ==> PciPlaced(State(), order, pageAlign, buses, k, bufs[k])
        decreases count - |bufs|
      {
        StillSegments(order, pageAlign, count, segs, |bufs|);
        if left == 0 { return false, [], 0; }
        left := left - 1;
        seglist[segs] := buses[segs];
        PagesFit(segs, count, perPages);
        FillPages(pages, pageCount + pageAt, perPages, vaddrs[segs]);
        var done, more := FillSegment(order, pageAlign, count, buses[segs], segs, |bufs|, bytes, left);
        if !done { return false, [], 0; }
        forall i | 0 <= i < |more|
          ensures PciPlaced(State(), order, pageAlign, buses, |bufs| + i, more[i])
        {
          PlaceIn(State(), order, pageAlign, buses, segs, i, more[i]);
        }
        NextSegment(segs, per, count, |bufs|, |more|);
        WrapAdd(segs * Total(order), Total(order));
        assert (segs + 1) * Total(order) == segs * Total(order) + Total(order);
        assert (segs + 1) * perPages == segs * perPages + perPages;
        left := left - |more|;
        bufs := bufs + more;
        segs := segs + 1;
        pageAt := pageAt + perPages;
        bytes := Wrap32(bytes + Total(order));
      }
      ok := true;
      AllSegments(order, pageAlign, count, segs);
      PlacedAll(State(), order, pageAlign, buses, count, bufs);
    }

    /** What the PCI routine does once the request is admitted. */
    method AddSegments(order: nat, pageAlign: bool, count: nat, buses: seq<int>, vaddrs: seq<int>, budget: nat)
      returns (status: Status)
      requires Inv(State()) && Admits(State(), order, count) && bufAlloc > 0
      requires PciReady(order, pageAlign, count, buses) && |vaddrs| == |buses|
      modifies this
      ensures bufAlloc == old(bufAlloc) - 1 && bufUse == old(bufUse)
      ensures status == if budget >= count + Segments(order, pageAlign, count) + 4 then Ok else NoMemory
      ensures status == Ok ==> State() == AfterPci(old(State()), order, pageAlign, buses, count)
      ensures status != Ok ==> SameTotals(old(State()), State())
    {
      hide BufOk, Before, Total, Wrap32, PciBufs, Alignment, PerSegment, Segments, Pow2, PageOrder, Counts, PciReady;
      assert EntryOk(entries[order]);
      // The buffer list, the segment list and the new page list are allocated first.
      if budget < 3 {
        bufAlloc := bufAlloc - 1;
        return NoMemory;
      }
      entries := entries[order := entries[order].(bufSize := Pow2(order), pageOrder := PageOrder(order))];
      PciBufsSame(old(State()), State(), order, pageAlign, buses, count);
      var ok, bufs, segs := FillPci(order, pageAlign, count, buses, vaddrs, budget - 3);
      if !ok {
        entries := entries[order := entries[order].(bufCount := count, segCount := count)];
        CleanupError(order);
        return NoMemory;
      }
      entries := entries[order := entries[order].(bufCount := count, segCount := segs)];
      if budget - 3 - count - segs == 0 {
        CleanupError(order);
        return NoMemory;
      }
      Append(bufs);
      bufCount := bufCount + entries[order].bufCount;
      segCount := segCount + entries[order].segCount;
      pageCount := pageCount + segs * Pow2(PageOrder(order));
      byteCount := byteCount + PAGE_SIZE * (segs * Pow2(PageOrder(order)));
      bufAlloc := bufAlloc - 1;
      return Ok;
    }

    /** drm_legacy_addbufs_pci. */
    method AddPci(req: Request, buses: seq<int>, vaddrs: seq<int>, supported: bool, admin: bool, budget: nat)
      returns (status: Status)
      requires Inv(State()) && |vaddrs| == |buses| && (req.count >= 0 ==> Ready(req, Pci(buses)))
      modifies this
      ensures bufAlloc == old(bufAlloc) && bufUse == old(bufUse)
      ensures status == Ok <==>
                var order := OrderBase2(req.size);
                Admits(old(State()), order, req.count) && bufUse == 0 && supported && admin &&
                budget >= req.count + Segments(order, req.pageAlign, req.count) + 4
      ensures status == Ok ==> State() == After(old(State()), req, Pci(buses))
      ensures status != Ok ==> SameTotals(old(State()), State())
    {
      hide BufOk, Before, EntryOk, Counts, AfterPci, Alignment, PerSegment, Segments, Pow2, PageOrder;
      if !supported { return Invalid; }
      if !admin { return NotPermitted; }
      var order := OrderBase2(req.size);
      if order < MIN_ORDER || order > MAX_ORDER { return Invalid; }
      status := Enter(order, req.count);
      if status != Ok { return; }
      status := AddSegments(order, req.pageAlign, req.count, buses, vaddrs, budget);
    }
  }

  function Min(a: int, b: int): int {
    if a < b then a else b
  }

  /** The inner loop's test asks whether another whole alignment unit fits. */
  lemma RoomLeft(per: nat, align: nat, size: nat, total: nat, n: nat)
    requires 0 < size <= align && per * align == total && n <= per && (size == align || (align == total && per == 1))
    ensures n * align + size <= total <==> n < per
  {
    assert (n + 1) * align == n * align + align;
    if n < per { MulMono(n + 1, per, align); }
  }

  /** Buffer k is where the closed form puts it. */
  ghost predicate PciPlaced(d: Dma, order: nat, pageAlign: bool, buses: seq<int>, k: nat, b: Buf) {
    Alignment(order, pageAlign) > 0 && PerSegment(order, pageAlign) > 0 &&
    Fit(k, PerSegment(order, pageAlign)) < |buses| && b == PciBuf(d, order, pageAlign, buses, k)
  }

  lemma PlaceIn(d: Dma, order: nat, pageAlign: bool, buses: seq<int>, j: nat, i: nat, b: Buf)
    requires Alignment(order, pageAlign) > 0 && i < PerSegment(order, pageAlign) && j < |buses|
    requires b == SegmentBuf(d, order, pageAlign, buses[j], j, i)
    ensures PciPlaced(d, order, pageAlign, buses, j * PerSegment(order, pageAlign) + i, b)
  {
    hide Alignment, PerSegment;
    MulMono(0, j, PerSegment(order, pageAlign));
    InSegmentIs(PerSegment(order, pageAlign), j * PerSegment(order, pageAlign) + i, j, i);
  }

  lemma PlacedAll(d: Dma, order: nat, pageAlign: bool, buses: seq<int>, count: nat, bufs: seq<Buf>)
    requires PciReady(order, pageAlign, count, buses) && |bufs| == count
    requires forall k :: 0 <= k < count ==> PciPlaced(d, order, pageAlign, buses, k, bufs[k])
    ensures bufs == PciBufs(d, order, pageAlign, buses, count)
  {
    hide Alignment, PerSegment, SegmentBuf, PciBuf;
    var all := PciBufs(d, order, pageAlign, buses, count);
    forall k | 0 <= k < count ensures bufs[k] == all[k] { assert PciPlaced(d, order, pageAlign, buses, k, bufs[k]); }
  }

  /** While buffers are missing, the segment about to be allocated is one of the call's. */
  lemma StillSegments(order: nat, pageAlign: bool, count: nat, j: nat, n: nat)
    requires Alignment(order, pageAlign) > 0 && PerSegment(order, pageAlign) > 0
    requires n < count && n == j * PerSegment(order, pageAlign)
    ensures j < Segments(order, pageAlign, count) && j <= n
  {
    hide Alignment, PerSegment;
    SegmentInRange(order, pageAlign, count, n);
    InSegmentIs(PerSegment(order, pageAlign), n, j, 0);
    MulMono(1, PerSegment(order, pageAlign), j);
  }

  lemma PagesFit(j: nat, count: nat, perPages: nat)
    requires j < count
    ensures 0 <= j * perPages && j * perPages + perPages <= count * perPages
  {
    MulMono(j + 1, count, perPages);
    MulMono(0, j, perPages);
    assert (j + 1) * perPages == j * perPages + perPages;
  }

  lemma NextSegment(j: nat, per: nat, count: nat, n: nat, more: nat)
    requires n == j * per < count && per >= 1 && more == Min(per, count - n)
    ensures n + more <= (j + 1) * per && (n + more < count ==> n + more == (j + 1) * per) && j * per < n + more
  {
    assert (j + 1) * per == j * per + per;
  }

  lemma AllSegments(order: nat, pageAlign: bool, count: nat, j: nat)
    requires Alignment(order, pageAlign) > 0 && PerSegment(order, pageAlign) > 0
    requires count <= j * PerSegment(order, pageAlign) && (j > 0 ==> (j - 1) * PerSegment(order, pageAlign) < count)
    ensures j == Segments(order, pageAlign, count)
  {
    hide Alignment, PerSegment;
    var per := PerSegment(order, pageAlign);
    if j > 0 { assert (j - 1) * per == j * per - per; }
    Quotient(count + per - 1, per, j);
  }

  lemma PciBufsSame(d: Dma, r: Dma, order: nat, pageAlign: bool, buses: seq<int>, count: nat)
    requires d.bufCount == r.bufCount && d.byteCount == r.byteCount && PciReady(order, pageAlign, count, buses)
    ensures PciBufs(d, order, pageAlign, buses, count) == PciBufs(r, order, pageAlign, buses, count)
  {
    hide Alignment, PerSegment, Total, Wrap32, Segments;
    forall k | 0 <= k < count
      ensures PciBufs(d, order, pageAlign, buses, count)[k] == PciBufs(r, order, pageAlign, buses, count)[k]
    {
      SegmentInRange(order, pageAlign, count, k);
    }
  }

  lemma WrapZero()
    ensures forall t :: Wrap32(0 * t) == 0
  {
  }

  /** Only the counts that the buffers start from matter. */
  lemma LinearBufsSame(d: Dma, r: Dma, order: nat, align: nat, bus: int, count: nat)
    requires d.bufCount == r.bufCount && d.byteCount == r.byteCount
    ensures LinearBufs(d, order, align, bus, count) == LinearBufs(r, order, align, bus, count)
  {
  }
}
