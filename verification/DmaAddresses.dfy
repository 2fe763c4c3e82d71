/**
 What the buffers of a DMA call are good for: they are large enough, and their bus addresses lie in
 the memory they were given, apart from each other.
 */
module DmaAddresses {

  import opened Words
  import opened DmaBufs

  ghost predicate Apart(a: int, b: int, lenA: int, lenB: int) {
    a + lenA <= b || b + lenB <= a
  }

  /** The buffers of one call are as many as were asked for, of the right order and large enough. */
  lemma CallServes(d: Dma, req: Request, source: Source, k: nat)
    requires Inv(d) && Admits(d, OrderBase2(req.size), req.count) && Ready(req, source) && k < req.count
    ensures var r := After(d, req, source);
            |r.list| == |d.list| + req.count && r.entries[OrderBase2(req.size)].bufCount == req.count &&
            r.entries[OrderBase2(req.size)].bufSize == Pow2(OrderBase2(req.size)) >= req.size &&
            var b := r.list[|d.list| + k];
            b.order == OrderBase2(req.size) && b.total >= Pow2(b.order) >= req.size && b.idx == |d.list| + k
  {
    hide BufOk, Before, EntryOk, Counts, Pow2, Alignment, PerSegment, Segments, Total, Wrap32;
    var order := OrderBase2(req.size);
    Shape(order, req.pageAlign);
    if source.Pci? {
      PciIndex(d, order, req.pageAlign, source.buses, req.count, k);
    }
  }

  lemma PciIndex(d: Dma, order: nat, pageAlign: bool, buses: seq<int>, count: nat, k: nat)
    requires PciReady(order, pageAlign, count, buses) && k < count
    ensures var b := PciBufs(d, order, pageAlign, buses, count)[k];
            b.idx == d.bufCount + k && b.order == order && b.total == Alignment(order, pageAlign)
  {
    hide Alignment, PerSegment, Segments, Total, Wrap32, Pow2;
    SegmentInRange(order, pageAlign, count, k);
    var j, i := FindSegment(PerSegment(order, pageAlign), k);
  }

  /** A PCI call takes no more segments than its buffers need. */
  lemma SegmentsLeast(order: nat, pageAlign: bool, count: nat)
    requires Alignment(order, pageAlign) > 0 && PerSegment(order, pageAlign) > 0
    ensures var segs, per := Segments(order, pageAlign, count), PerSegment(order, pageAlign);
            count <= segs * per && (segs > 0 ==> (segs - 1) * per < count)
  {
    hide Alignment, PerSegment;
    var per := PerSegment(order, pageAlign);
    var j, i := FindSegment(per, count + per - 1);
    if j > 0 { assert (j - 1) * per == j * per - per; }
  }

  /** AGP and scatter/gather buffers follow each other on the bus as they do in the byte space. */
  lemma LinearOnBus(d: Dma, order: nat, align: nat, bus: int, count: nat, i: nat, k: nat)
    requires i < k < count
    ensures var bs := LinearBufs(d, order, align, bus, count);
            bs[k].bus - bus == bs[k].offset - d.byteCount && bs[i].bus >= bus &&
            bs[i].bus + bs[i].total <= bs[k].bus && bs[k].bus + bs[k].total <= bus + count * align
  {
    MulMono(i + 1, k, align);
    MulMono(k + 1, count, align);
    assert (i + 1) * align == i * align + align && (k + 1) * align == k * align + align;
  }

  /** A PCI buffer lies inside the segment it was cut from. */
  lemma PciInSegment(d: Dma, order: nat, pageAlign: bool, buses: seq<int>, count: nat, k: nat) returns (j: nat, i: nat)
    requires PciReady(order, pageAlign, count, buses) && k < count
    ensures InSegment(PerSegment(order, pageAlign), k, j, i) && j < Segments(order, pageAlign, count)
    ensures var b := PciBufs(d, order, pageAlign, buses, count)[k];
            b.bus == buses[j] + i * b.total && buses[j] <= b.bus && b.bus + b.total <= buses[j] + Total(order)
  {
    hide Total, Wrap32, Pow2, Alignment, PerSegment, Segments;
    SegmentInRange(order, pageAlign, count, k);
    j, i := FindSegment(PerSegment(order, pageAlign), k);
    SegmentsWhole(order, pageAlign);
    var a, per := Alignment(order, pageAlign), PerSegment(order, pageAlign);
    MulMono(i + 1, per, a);
    assert (i + 1) * a == i * a + a;
  }

  /** If the segments are apart on the bus, so are all the buffers. */
  lemma PciOnBus(d: Dma, order: nat, pageAlign: bool, buses: seq<int>, count: nat, k1: nat, k2: nat)
    requires PciReady(order, pageAlign, count, buses) && k1 < k2 < count
    requires forall j1, j2 :: 0 <= j1 < j2 < Segments(order, pageAlign, count) ==>
               Apart(buses[j1], buses[j2], Total(order), Total(order))
    ensures var bs := PciBufs(d, order, pageAlign, buses, count);
            Apart(bs[k1].bus, bs[k2].bus, bs[k1].total, bs[k2].total)
  {
    hide Total, Wrap32, Pow2, Alignment, PerSegment, Segments, PciBufs;
    var j1, i1 := PciInSegment(d, order, pageAlign, buses, count, k1);
    var j2, i2 := PciInSegment(d, order, pageAlign, buses, count, k2);
    PciIndex(d, order, pageAlign, buses, count, k1);
    PciIndex(d, order, pageAlign, buses, count, k2);
    var per, a := PerSegment(order, pageAlign), Alignment(order, pageAlign);
    DigitOrder(per, j1, i1, j2, i2);
    if j1 == j2 {
      MulMono(i1 + 1, i2, a);
      assert (i1 + 1) * a == i1 * a + a;
    } else {
      assert Apart(buses[j1], buses[j2], Total(order), Total(order));
    }
  }
}
