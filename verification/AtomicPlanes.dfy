/**
 Planes in atomic updates: the plane mask of a CRTC names exactly the planes that point back at
 it, whatever is staged and committed, and every framebuffer a plane state holds is referenced
 and, once committed, prepared exactly once, also when preparing fails part-way.
 */
module AtomicPlanes {

  import opened Options
  import opened Atomic
  import AtomicRouting

  // ----- the plane masks -----

  ghost predicate MaskAt(d: Device, s: Staged, c: nat, p: nat)
    requires c < |d.crtcs| == |s.crtcs| && p < |d.planes| == |s.planes|
  {
    p in Crtc(d, s, c).planeMask <==> Plane(d, s, p).crtc == Some(c)
  }

  /** A plane is in a CRTC's mask exactly if its state points to that CRTC. */
  ghost predicate Masks(d: Device, s: Staged)
    requires Sized(d, s)
  {
    forall c, p :: 0 <= c < |d.crtcs| && 0 <= p < |d.planes| ==> MaskAt(d, s, c, p)
  }

  /** Both CRTCs of a staged plane, committed and staged, are staged. */
  ghost predicate PlaneCovered(d: Device, s: Staged, p: nat)
    requires Sized(d, s) && p < |d.planes|
  {
    s.planes[p].Some? ==> Covered(s, d.planes[p].crtc) && Covered(s, s.planes[p].value.crtc)
  }

  ghost predicate PlanesOk(d: Device, s: Staged) {
    ValidDevice(d) && Sized(d, s) && Masks(d, s) && forall p :: 0 <= p < |d.planes| ==> PlaneCovered(d, s, p)
  }

  /** Nothing that concerns planes changed, except that more CRTCs may be staged. */
  ghost predicate SamePlanes(d: Device, s: Staged, t: Staged) {
    Sized(d, s) && Sized(d, t) && t.planes == s.planes &&
    forall c :: 0 <= c < |d.crtcs| ==>
      (s.crtcs[c].Some? ==> t.crtcs[c].Some?) && Crtc(d, t, c).planeMask == Crtc(d, s, c).planeMask
  }

  lemma SamePlanesKeep(d: Device, s: Staged, t: Staged)
    requires PlanesOk(d, s) && SamePlanes(d, s, t)
    ensures PlanesOk(d, t)
  {
    forall c, p | 0 <= c < |d.crtcs| && 0 <= p < |d.planes| ensures MaskAt(d, t, c, p) {
      assert MaskAt(d, s, c, p);
    }
    forall p | 0 <= p < |d.planes| ensures PlaneCovered(d, t, p) { assert PlaneCovered(d, s, p); }
  }

  lemma GetLinkedSame(d: Device, s: Staged, crtc: Option<nat>)
    requires Sized(d, s) && Links(crtc, |d.crtcs|)
    ensures SamePlanes(d, s, GetLinked(d, s, crtc))
  {
  }

  lemma GetConnSame(d: Device, s: Staged, k: nat)
    requires ValidDevice(d) && Sized(d, s) && k < |d.conns|
    ensures SamePlanes(d, s, GetConn(d, s, k))
  {
    if s.conns[k] == None { GetLinkedSame(d, s.(conns := s.conns[k := Some(d.conns[k])]), d.conns[k].crtc); }
  }

  lemma GetPlaneKeeps(d: Device, s: Staged, p: nat)
    requires PlanesOk(d, s) && p < |d.planes|
    ensures PlanesOk(d, GetPlane(d, s, p)) && GetPlane(d, s, p).conns == s.conns
    ensures forall c: nat :: Covered(s, Some(c)) ==> Covered(GetPlane(d, s, p), Some(c))
  {
    if s.planes[p] == None {
      var s1 := s.(planes := s.planes[p := Some(d.planes[p])]);
      var t := GetPlane(d, s, p);
      GetLinkedSame(d, s1, d.planes[p].crtc);
      GetLinkedKeeps(d, s1, d.planes[p].crtc);
      forall c, q | 0 <= c < |d.crtcs| && 0 <= q < |d.planes| ensures MaskAt(d, t, c, q) {
        assert MaskAt(d, s, c, q) && Crtc(d, t, c).planeMask == Crtc(d, s1, c).planeMask;
      }
      forall q | 0 <= q < |d.planes| ensures PlaneCovered(d, t, q) { assert PlaneCovered(d, s, q); }
    }
  }

  /** What the steps of drm_atomic_set_crtc_for_plane do to each mask and each plane. */
  lemma SetPlaneCrtcIs(d: Device, s: Staged, p: nat, crtc: Option<nat>)
    requires PlanesOk(d, s) && p < |d.planes| && Links(crtc, |d.crtcs|)
    ensures var t := SetPlaneCrtc(d, s, p, crtc); var s1 := GetPlane(d, s, p);
            t.conns == s.conns && Covered(t, crtc) &&
            (forall c: nat :: Covered(s1, Some(c)) ==> Covered(t, Some(c))) &&
            (forall q :: 0 <= q < |d.planes| && q != p ==> t.planes[q] == s1.planes[q]) &&
            t.planes[p] == Some(s1.planes[p].value.(crtc := crtc)) &&
            (forall c :: 0 <= c < |d.crtcs| ==>
               Crtc(d, t, c).planeMask ==
               (if crtc == Some(c) then Crtc(d, s1, c).planeMask + {p}
                else if s1.planes[p].value.crtc == Some(c) then Crtc(d, s1, c).planeMask - {p}
                else Crtc(d, s1, c).planeMask))
  {
    GetPlaneKeeps(d, s, p);
    var s1 := GetPlane(d, s, p);
    var from := s1.planes[p].value.crtc;
    GetLinkedKeeps(d, s1, from);
    GetLinkedSame(d, s1, from);
    var s2 := GetLinked(d, s1, from);
    var s3 := if from.Some? then SetMask(s2, from.value, s2.crtcs[from.value].value.planeMask - {p}) else s2;
    var s4 := s3.(planes := s3.planes[p := Some(s3.planes[p].value.(crtc := crtc))]);
    GetLinkedKeeps(d, s4, crtc);
    GetLinkedSame(d, s4, crtc);
    forall c | 0 <= c < |d.crtcs| ensures
      Crtc(d, s4, c).planeMask == (if from == Some(c) then Crtc(d, s1, c).planeMask - {p} else Crtc(d, s1, c).planeMask)
    {
      assert Crtc(d, s2, c).planeMask == Crtc(d, s1, c).planeMask;
    }
  }

  lemma SetPlaneCrtcKeeps(d: Device, s: Staged, p: nat, crtc: Option<nat>)
    requires PlanesOk(d, s) && p < |d.planes| && Links(crtc, |d.crtcs|)
    ensures PlanesOk(d, SetPlaneCrtc(d, s, p, crtc)) && SetPlaneCrtc(d, s, p, crtc).conns == s.conns
    ensures forall c: nat :: Covered(s, Some(c)) ==> Covered(SetPlaneCrtc(d, s, p, crtc), Some(c))
  {
    SetPlaneCrtcIs(d, s, p, crtc);
    GetPlaneKeeps(d, s, p);
    hide SetPlaneCrtc, GetPlane;
    var t := SetPlaneCrtc(d, s, p, crtc);
    var s1 := GetPlane(d, s, p);
    forall c, q | 0 <= c < |d.crtcs| && 0 <= q < |d.planes| ensures MaskAt(d, t, c, q) {
      assert MaskAt(d, s1, c, q);
    }
    forall q | 0 <= q < |d.planes| ensures PlaneCovered(d, t, q) { assert PlaneCovered(d, s1, q); }
  }

  lemma SetFbKeeps(d: Device, s: Staged, p: nat, fb: Option<nat>)
    requires PlanesOk(d, s) && p < |d.planes| && s.planes[p].Some?
    ensures PlanesOk(d, SetPlaneFb(d, s, p, fb))
  {
    var t := SetPlaneFb(d, s, p, fb);
    forall c, q | 0 <= c < |d.crtcs| && 0 <= q < |d.planes| ensures MaskAt(d, t, c, q) {
      assert MaskAt(d, s, c, q);
    }
    forall q | 0 <= q < |d.planes| ensures PlaneCovered(d, t, q) { assert PlaneCovered(d, s, q); }
  }

  /** A modeset check leaves planes and masks alone, also where it fails. */
  lemma CheckKeeps(d: Device, s: Staged, t: Staged)
    requires PlanesOk(d, s) && AtomicRouting.Grows(d, s, t)
    ensures PlanesOk(d, t)
  {
    hide MaskAt, Masks, PlanesOk, PlaneCovered;
    assert SamePlanes(d, s, t) by {
      forall c | 0 <= c < |d.crtcs| ensures (s.crtcs[c].Some? ==> t.crtcs[c].Some?) &&
        Crtc(d, t, c).planeMask == Crtc(d, s, c).planeMask { assert AtomicRouting.GrowsAt(d, s, t, c); }
    }
    SamePlanesKeep(d, s, t);
  }

  lemma SwapKeeps(d: Device, s: Staged)
    requires PlanesOk(d, s)
    ensures PlanesOk(Swap(d, s), Empty(Swap(d, s)))
  {
    var e := Swap(d, s);
    forall c, p | 0 <= c < |e.crtcs| && 0 <= p < |e.planes| ensures MaskAt(e, Empty(e), c, p) {
      assert MaskAt(d, s, c, p);
    }
  }

  // ----- the framebuffers held by plane states -----

  function One(fb: Option<nat>): multiset<nat> {
    if fb.Some? then multiset{fb.value} else multiset{}
  }

  function PairOne(p: nat, fb: Option<nat>): multiset<(nat, nat)> {
    if fb.Some? then multiset{(p, fb.value)} else multiset{}
  }

  /** The references that the first n entries account for. */
  ghost function Refs(fbs: seq<Option<nat>>, n: nat): multiset<nat>
    requires n <= |fbs|
  {
    if n == 0 then multiset{} else Refs(fbs, n - 1) + One(fbs[n - 1])
  }

  /** The (plane, framebuffer) pairs among the first n entries. */
  ghost function Pairs(fbs: seq<Option<nat>>, n: nat): multiset<(nat, nat)>
    requires n <= |fbs|
  {
    if n == 0 then multiset{} else Pairs(fbs, n - 1) + PairOne(n - 1, fbs[n - 1])
  }

  /** The same from entry i on. */
  ghost function RefsFrom(fbs: seq<Option<nat>>, i: nat): multiset<nat>
    requires i <= |fbs|
    decreases |fbs| - i
  {
    if i == |fbs| then multiset{} else One(fbs[i]) + RefsFrom(fbs, i + 1)
  }

  ghost function PairsFrom(fbs: seq<Option<nat>>, i: nat): multiset<(nat, nat)>
    requires i <= |fbs|
    decreases |fbs| - i
  {
    if i == |fbs| then multiset{} else PairOne(i, fbs[i]) + PairsFrom(fbs, i + 1)
  }

  lemma {:induction false} FrontAndBack(fbs: seq<Option<nat>>, i: nat)
    requires i <= |fbs|
    ensures Refs(fbs, i) + RefsFrom(fbs, i) == Refs(fbs, |fbs|)
    ensures Pairs(fbs, i) + PairsFrom(fbs, i) == Pairs(fbs, |fbs|)
    decreases |fbs| - i
  {
    hide One, PairOne;
    if i < |fbs| {
      FrontAndBack(fbs, i + 1);
      assert Refs(fbs, i) + (One(fbs[i]) + RefsFrom(fbs, i + 1)) == (Refs(fbs, i) + One(fbs[i])) + RefsFrom(fbs, i + 1);
      assert Pairs(fbs, i) + (PairOne(i, fbs[i]) + PairsFrom(fbs, i + 1))
          == (Pairs(fbs, i) + PairOne(i, fbs[i])) + PairsFrom(fbs, i + 1);
    }
  }

  function CommittedFbs(d: Device): (r: seq<Option<nat>>)
    ensures |r| == |d.planes|
  {
    seq(|d.planes|, p requires 0 <= p < |d.planes| => d.planes[p].fb)
  }

  function StagedFbs(s: Staged): (r: seq<Option<nat>>)
    ensures |r| == |s.planes|
  {
    seq(|s.planes|, p requires 0 <= p < |s.planes| => if s.planes[p].Some? then s.planes[p].value.fb else None)
  }

  /** The committed framebuffers of the planes an update stages. */
  function OldFbs(d: Device, s: Staged): (r: seq<Option<nat>>)
    requires |d.planes| == |s.planes|
    ensures |r| == |d.planes|
  {
    seq(|d.planes|, p requires 0 <= p < |d.planes| => if s.planes[p].Some? then d.planes[p].fb else None)
  }

  lemma {:induction false} PrefixOnly(a: seq<Option<nat>>, b: seq<Option<nat>>, n: nat)
    requires n <= |a| && n <= |b| && forall i :: 0 <= i < n ==> a[i] == b[i]
    ensures Refs(a, n) == Refs(b, n) && Pairs(a, n) == Pairs(b, n)
  {
    if n > 0 { PrefixOnly(a, b, n - 1); }
  }

  lemma {:induction false} NoneHeld(a: seq<Option<nat>>, n: nat)
    requires n <= |a| && forall i :: 0 <= i < n ==> a[i] == None
    ensures Refs(a, n) == multiset{} && Pairs(a, n) == multiset{}
  {
    if n > 0 { NoneHeld(a, n - 1); }
  }

  /** Changing one entry moves exactly its reference. */
  lemma {:induction false} RefsSet(a: seq<Option<nat>>, i: nat, fb: Option<nat>, n: nat)
    requires i < n <= |a|
    ensures Refs(a[i := fb], n) + One(a[i]) == Refs(a, n) + One(fb)
  {
    hide One;
    var b := a[i := fb];
    if i == n - 1 {
      PrefixOnly(a, b, n - 1);
      AddTwice(Refs(a, n - 1), One(fb), One(a[i]));
    } else {
      RefsSet(a, i, fb, n - 1);
      AddBetween(Refs(b, n - 1), One(a[i]), Refs(a, n - 1), One(fb), One(a[n - 1]));
    }
  }

  lemma AddTwice<T>(a: multiset<T>, x: multiset<T>, y: multiset<T>)
    ensures (a + x) + y == (a + y) + x
  {
  }

  lemma AddBetween<T>(a: multiset<T>, x: multiset<T>, b: multiset<T>, y: multiset<T>, z: multiset<T>)
    requires a + x == b + y
    ensures (a + z) + x == (b + z) + y
  {
    AddTwice(a, z, x);
    AddTwice(b, z, y);
  }

  /** Position by position, either the two sides are exchanged or nothing happens. */
  ghost predicate Exchanged(a: seq<Option<nat>>, b: seq<Option<nat>>, c: seq<Option<nat>>, e: seq<Option<nat>>) {
    |a| == |b| == |c| == |e| &&
    forall i :: 0 <= i < |a| ==> (a[i] == e[i] && b[i] == c[i]) || (a[i] == c[i] && b[i] == None && e[i] == None)
  }

  lemma {:induction false} ExchangeConserves(a: seq<Option<nat>>, b: seq<Option<nat>>, c: seq<Option<nat>>,
      e: seq<Option<nat>>, n: nat)
    requires Exchanged(a, b, c, e) && n <= |a|
    ensures Refs(a, n) + Refs(b, n) == Refs(c, n) + Refs(e, n)
    ensures Pairs(a, n) + Pairs(b, n) == Pairs(c, n) + Pairs(e, n)
  {
    hide One, PairOne;
    if n > 0 {
      var i := n - 1;
      ExchangeConserves(a, b, c, e, i);
      assert One(a[i]) + One(b[i]) == One(c[i]) + One(e[i]) by { OneNone(i); }
      assert PairOne(i, a[i]) + PairOne(i, b[i]) == PairOne(i, c[i]) + PairOne(i, e[i]) by { OneNone(i); }
      SumOfSums(Refs(a, i), Refs(b, i), Refs(c, i), Refs(e, i), One(a[i]), One(b[i]), One(c[i]), One(e[i]));
      SumOfSums(Pairs(a, i), Pairs(b, i), Pairs(c, i), Pairs(e, i),
                PairOne(i, a[i]), PairOne(i, b[i]), PairOne(i, c[i]), PairOne(i, e[i]));
    }
  }

  lemma OneNone(p: nat)
    ensures One(None) == multiset{} && PairOne(p, None) == multiset{}
  {
  }

  lemma SumOfSums<T>(a: multiset<T>, b: multiset<T>, c: multiset<T>, e: multiset<T>,
      a1: multiset<T>, b1: multiset<T>, c1: multiset<T>, e1: multiset<T>)
    requires a + b == c + e && a1 + b1 == c1 + e1
    ensures (a + a1) + (b + b1) == (c + c1) + (e + e1)
  {
    assert (a + a1) + (b + b1) == (a + b) + (a1 + b1);
    assert (c + c1) + (e + e1) == (c + e) + (c1 + e1);
  }

  lemma AddRight<T>(a: multiset<T>, b: multiset<T>, x: multiset<T>, y: multiset<T>)
    requires x <= b
    ensures (a + b) - x + y == a + (b - x + y) && (a + b) + y == a + (b + y)
  {
  }

  /** Equal sums can be solved for one part. */
  lemma Solve<T>(x: multiset<T>, y: multiset<T>, a: multiset<T>, b: multiset<T>)
    requires x + y == a + b
    ensures x == a + b - y && y <= a + b
  {
    assert x + y - y == x;
  }

  /** A swap exchanges what it takes out of the committed states for what was staged, and loses nothing. */
  lemma SwapConserves(d: Device, s: Staged)
    requires Sized(d, s)
    ensures var e := CommittedFbs(Swap(d, s)); var n := |d.planes|;
            Refs(e, n) + Refs(OldFbs(d, s), n) == Refs(CommittedFbs(d), n) + Refs(StagedFbs(s), n) &&
            Pairs(e, n) + Pairs(OldFbs(d, s), n) == Pairs(CommittedFbs(d), n) + Pairs(StagedFbs(s), n)
  {
    ExchangeConserves(CommittedFbs(Swap(d, s)), OldFbs(d, s), CommittedFbs(d), StagedFbs(s), |d.planes|);
  }

  // ----- the device between calls -----

  /** An update is being built, has passed the check as it is, or has failed it or been changed since. */
  datatype Phase = Building | Checked | Stale

  /**
   references counts the references plane states hold, prepared the prepare_fb calls without their
   cleanup_fb.
   */
  datatype World = World(dev: Device, staged: Staged, phase: Phase,
                         references: multiset<nat>, prepared: multiset<(nat, nat)>)

  datatype Step =
    | GetCrtcState(c: nat)
    | GetConnectorState(k: nat)
    | SetConnectorCrtc(k: nat, crtc: Option<nat>)
    | SetCrtc(c: nat, enable: bool, mode: int, changed: bool)
    | GetPlaneState(p: nat)
    | SetPlane(p: nat, crtc: Option<nat>)
    | SetFb(p: nat, fb: Option<nat>)
    | Check(best: seq<Option<nat>>, fixupOk: bool, left: Staged)  // left: what a failing check leaves
    | Commit(ok: seq<bool>)
    | Free

  ghost predicate CanStep(w: World, step: Step) {
    ValidDevice(w.dev) && Sized(w.dev, w.staged) &&
    match step
    case GetCrtcState(c) => c < |w.dev.crtcs|
    case GetConnectorState(k) => k < |w.dev.conns|
    case SetConnectorCrtc(k, crtc) => k < |w.dev.conns| && w.staged.conns[k].Some? && Links(crtc, |w.dev.crtcs|)
    case SetCrtc(c, _, _, _) => c < |w.dev.crtcs| && w.staged.crtcs[c].Some?
    case GetPlaneState(p) => p < |w.dev.planes|
    case SetPlane(p, crtc) => p < |w.dev.planes| && Links(crtc, |w.dev.crtcs|)
    case SetFb(p, _) => p < |w.dev.planes| && w.staged.planes[p].Some?
    case Check(best, _, left) =>
      |best| == |w.dev.conns| && w.phase == Building && Built(w.dev, w.staged) &&
      AtomicRouting.Grows(w.dev, w.staged, left)
    case Commit(ok) => |ok| == |w.dev.planes| && w.phase == Checked
    case Free => true
  }

  /** Staging a plane duplicates its state, and the duplicate takes a reference of its own. */
  function Duplicated(d: Device, s: Staged, p: nat): multiset<nat>
    requires p < |d.planes| == |s.planes|
  {
    if s.planes[p].Some? then multiset{} else One(d.planes[p].fb)
  }

  /** Some plane of the update cannot be prepared. */
  predicate PrepareFails(s: Staged, ok: seq<bool>)
    requires |ok| == |s.planes|
  {
    exists p :: 0 <= p < |s.planes| && !ok[p] && s.planes[p].Some? && s.planes[p].value.fb.Some?
  }

  /** A connector or a CRTC of the update was set. */
  function Touched(phase: Phase): Phase {
    if phase == Building then Building else Stale
  }

  ghost function Next(w: World, step: Step): World
    requires CanStep(w, step)
  {
    var d, s := w.dev, w.staged;
    match step
    case GetCrtcState(c) => w.(staged := GetCrtc(d, s, c))
    case GetConnectorState(k) => w.(staged := GetConn(d, s, k))
    case SetConnectorCrtc(k, crtc) => w.(staged := SetConnCrtc(d, s, k, crtc), phase := Touched(w.phase))
    case SetCrtc(c, enable, mode, changed) =>
      w.(staged := SetCrtcFields(d, s, c, enable, mode, changed), phase := Touched(w.phase))
    case GetPlaneState(p) => w.(staged := GetPlane(d, s, p), references := w.references + Duplicated(d, s, p))
    case SetPlane(p, crtc) =>
      w.(staged := SetPlaneCrtc(d, s, p, crtc), references := w.references + Duplicated(d, s, p))
    case SetFb(p, fb) =>
      w.(staged := SetPlaneFb(d, s, p, fb), references := w.references - One(s.planes[p].value.fb) + One(fb))
    case Check(best, fixupOk, left) =>
      var r := AtomicRouting.CheckModeset(d, s, best, fixupOk);
      if r.Some? then w.(staged := r.value, phase := Checked) else w.(staged := left, phase := Stale)
    case Commit(ok) =>
      if PrepareFails(s, ok) then w
      else World(Swap(d, s), Empty(Swap(d, s)), Building, w.references - Refs(OldFbs(d, s), |d.planes|),
                 w.prepared + Pairs(StagedFbs(s), |d.planes|) - Pairs(OldFbs(d, s), |d.planes|))
    case Free =>
      w.(staged := Empty(d), phase := Building, references := w.references - Refs(StagedFbs(s), |d.planes|))
  }

  /** Every live plane state holds one reference, and the committed framebuffers are the prepared ones. */
  ghost predicate Balanced(w: World)
    requires Sized(w.dev, w.staged)
  {
    w.references == Refs(CommittedFbs(w.dev), |w.dev.planes|) + Refs(StagedFbs(w.staged), |w.dev.planes|) &&
    w.prepared == Pairs(CommittedFbs(w.dev), |w.dev.planes|)
  }

  ghost predicate Inv(w: World) {
    PlanesOk(w.dev, w.staged) && PlanesOk(w.dev, Empty(w.dev)) &&
    (w.phase == Building ==> Built(w.dev, w.staged)) && Balanced(w)
  }

  // ----- each step keeps the invariant -----

  lemma StepKeepsPlanes(w: World, step: Step)
    requires PlanesOk(w.dev, w.staged) && PlanesOk(w.dev, Empty(w.dev)) && CanStep(w, step)
    ensures var n := Next(w, step); PlanesOk(n.dev, n.staged) && PlanesOk(n.dev, Empty(n.dev))
  {
    hide MaskAt, PlaneCovered, Masks, Refs, Pairs, SetPlaneCrtc, GetPlane, GetConn, AtomicRouting.CheckModeset;
    var d, s := w.dev, w.staged;
    match step
    case GetCrtcState(c) => GetLinkedSame(d, s, Some(c)); SamePlanesKeep(d, s, GetCrtc(d, s, c));
    case GetConnectorState(k) => GetConnSame(d, s, k); SamePlanesKeep(d, s, GetConn(d, s, k));
    case SetConnectorCrtc(k, crtc) =>
      GetLinkedSame(d, s, crtc);
      SamePlanesKeep(d, s, SetConnCrtc(d, s, k, crtc));
    case SetCrtc(c, enable, mode, changed) => SamePlanesKeep(d, s, SetCrtcFields(d, s, c, enable, mode, changed));
    case GetPlaneState(p) => GetPlaneKeeps(d, s, p);
    case SetPlane(p, crtc) => SetPlaneCrtcKeeps(d, s, p, crtc);
    case SetFb(p, fb) => SetFbKeeps(d, s, p, fb);
    case Check(best, fixupOk, left) => CheckStepGrows(w, step); CheckKeeps(d, s, Next(w, step).staged);
    case Commit(ok) => SwapKeeps(d, s);
    case Free =>
  }

  /** What either outcome of a check leaves. */
  lemma CheckStepGrows(w: World, step: Step)
    requires CanStep(w, step) && step.Check?
    ensures var n := Next(w, step); AtomicRouting.Grows(w.dev, w.staged, n.staged) && n.dev == w.dev
  {
    hide AtomicRouting.CheckModeset, AtomicRouting.Grows;
    if AtomicRouting.CheckModeset(w.dev, w.staged, step.best, step.fixupOk).Some? {
      AtomicRouting.CheckGrows(w.dev, w.staged, step.best, step.fixupOk);
    }
  }

  lemma EmptyBuilt(d: Device)
    requires ValidDevice(d)
    ensures Built(d, Empty(d))
  {
  }

  lemma StepKeepsBuilt(w: World, step: Step)
    requires PlanesOk(w.dev, w.staged) && CanStep(w, step) && (w.phase == Building ==> Built(w.dev, w.staged))
    ensures var n := Next(w, step); n.phase == Building ==> Built(n.dev, n.staged)
  {
    hide MaskAt, PlaneCovered, Masks, Refs, Pairs, SetPlaneCrtc, GetPlane, GetConn, AtomicRouting.CheckModeset;
    hide ConnCovered, GetCrtc;
    var d, s := w.dev, w.staged;
    if step.Commit? {
      SwapValid(d, s);
      EmptyBuilt(Swap(d, s));
    } else if step.Free? {
      EmptyBuilt(d);
    } else if w.phase == Building {
      match step
      case GetCrtcState(c) => GetCrtcKeepsBuilt(d, s, c);
      case GetConnectorState(k) => GetConnKeepsBuilt(d, s, k);
      case SetConnectorCrtc(k, crtc) => SetConnCrtcKeepsBuilt(d, s, k, crtc);
      case SetCrtc(c, enable, mode, changed) => SetCrtcFieldsKeepsBuilt(d, s, c, enable, mode, changed);
      case GetPlaneState(p) => GetPlaneKeeps(d, s, p); CoverMore(d, s, GetPlane(d, s, p));
      case SetPlane(p, crtc) => SetPlaneCrtcKeeps(d, s, p, crtc); CoverMore(d, s, SetPlaneCrtc(d, s, p, crtc));
      case SetFb(p, fb) => CoverMore(d, s, SetPlaneFb(d, s, p, fb));
      case Check(best, fixupOk, left) =>
    }
  }

  /** Staging a plane duplicates exactly its committed framebuffer. */
  lemma DuplicateBalances(d: Device, s: Staged, p: nat)
    requires ValidDevice(d) && Sized(d, s) && p < |d.planes|
    ensures var n := |d.planes|; Refs(StagedFbs(GetPlane(d, s, p)), n) == Refs(StagedFbs(s), n) + Duplicated(d, s, p)
  {
    if s.planes[p] == None {
      GetLinkedKeeps(d, s.(planes := s.planes[p := Some(d.planes[p])]), d.planes[p].crtc);
      assert StagedFbs(GetPlane(d, s, p)) == StagedFbs(s)[p := d.planes[p].fb];
      RefsSet(StagedFbs(s), p, d.planes[p].fb, |d.planes|);
    }
  }

  lemma EmptyHoldsNothing(d: Device)
    ensures Refs(StagedFbs(Empty(d)), |d.planes|) == multiset{}
  {
    NoneHeld(StagedFbs(Empty(d)), |d.planes|);
  }

  lemma SetFbBalances(d: Device, s: Staged, p: nat, fb: Option<nat>)
    requires Sized(d, s) && p < |d.planes| && s.planes[p].Some?
    ensures var n := |d.planes|;
            Refs(StagedFbs(SetPlaneFb(d, s, p, fb)), n) ==
            Refs(StagedFbs(s), n) - One(s.planes[p].value.fb) + One(fb) &&
            One(s.planes[p].value.fb) <= Refs(StagedFbs(s), n)
  {
    hide One, Refs, Pairs;
    assert StagedFbs(SetPlaneFb(d, s, p, fb)) == StagedFbs(s)[p := fb];
    RefsSet(StagedFbs(s), p, fb, |d.planes|);
    RefsSet(StagedFbs(s), p, None, |d.planes|);
    OneNone(p);
    var was := One(s.planes[p].value.fb);
    var others := Refs(StagedFbs(s)[p := None], |d.planes|);
    assert others + was == Refs(StagedFbs(s), |d.planes|);
    assert Refs(StagedFbs(s)[p := fb], |d.planes|) + was == others + was + One(fb);
    assert others + was + One(fb) == (others + One(fb)) + was;
    Solve(Refs(StagedFbs(s)[p := fb], |d.planes|), was, others + One(fb), was);
    assert others + was - was == others && others + One(fb) + was - was == others + One(fb);
  }

  /** Steps that leave the planes' framebuffers alone. */
  lemma SameFbs(d: Device, s: Staged, t: Staged)
    requires |s.planes| == |t.planes| == |d.planes|
    requires forall p :: 0 <= p < |d.planes| ==> StagedFbs(s)[p] == StagedFbs(t)[p]
    ensures Refs(StagedFbs(s), |d.planes|) == Refs(StagedFbs(t), |d.planes|)
  {
    PrefixOnly(StagedFbs(s), StagedFbs(t), |d.planes|);
  }

  lemma StagingKeepsBalance(w: World, step: Step)
    requires PlanesOk(w.dev, w.staged) && CanStep(w, step) && Balanced(w) && !step.Commit? && !step.Free?
    ensures Sized(w.dev, Next(w, step).staged) && Balanced(Next(w, step))
  {
    hide MaskAt, PlaneCovered, Masks, Refs, Pairs, SetPlaneCrtc, GetPlane, AtomicRouting.CheckModeset, One;
    hide Built, AtomicRouting.RoutingOk, PlanesOk, Duplicated;
    var d, s := w.dev, w.staged;
    var a, b := Refs(CommittedFbs(d), |d.planes|), Refs(StagedFbs(s), |d.planes|);
    match step
    case GetCrtcState(c) =>
    case GetConnectorState(k) => GetConnSame(d, s, k); SameFbs(d, s, GetConn(d, s, k));
    case SetConnectorCrtc(k, crtc) => GetLinkedKeeps(d, s, crtc); SameFbs(d, s, SetConnCrtc(d, s, k, crtc));
    case SetCrtc(c, enable, mode, changed) =>
    case GetPlaneState(p) => DuplicateBalances(d, s, p); AddRight(a, b, multiset{}, Duplicated(d, s, p));
    case SetPlane(p, crtc) =>
      DuplicateBalances(d, s, p);
      AddRight(a, b, multiset{}, Duplicated(d, s, p));
      SetPlaneCrtcIs(d, s, p, crtc);
      SameFbs(d, GetPlane(d, s, p), SetPlaneCrtc(d, s, p, crtc));
    case SetFb(p, fb) => SetFbBalances(d, s, p, fb); AddRight(a, b, One(s.planes[p].value.fb), One(fb));
    case Check(best, fixupOk, left) => CheckStepGrows(w, step); SameFbs(d, s, Next(w, step).staged);
  }

  /** What a commit hands over and takes back, by number. */
  lemma CommitConserves(d: Device, s: Staged, references: multiset<nat>, prepared: multiset<(nat, nat)>)
    requires Sized(d, s) && prepared == Pairs(CommittedFbs(d), |d.planes|)
    requires references == Refs(CommittedFbs(d), |d.planes|) + Refs(StagedFbs(s), |d.planes|)
    ensures var e := CommittedFbs(Swap(d, s)); var n := |d.planes|;
            Refs(OldFbs(d, s), n) <= references && references - Refs(OldFbs(d, s), n) == Refs(e, n) &&
            Pairs(OldFbs(d, s), n) <= prepared + Pairs(StagedFbs(s), n) &&
            prepared + Pairs(StagedFbs(s), n) - Pairs(OldFbs(d, s), n) == Pairs(e, n)
  {
    hide Refs, Pairs, CommittedFbs, StagedFbs, OldFbs, Swap;
    var e, n := CommittedFbs(Swap(d, s)), |d.planes|;
    SwapConserves(d, s);
    Solve(Refs(e, n), Refs(OldFbs(d, s), n), Refs(CommittedFbs(d), n), Refs(StagedFbs(s), n));
    Solve(Pairs(e, n), Pairs(OldFbs(d, s), n), Pairs(CommittedFbs(d), n), Pairs(StagedFbs(s), n));
  }

  /** Committing and freeing drop only references that are held and clean up only what was prepared. */
  lemma EndingKeepsBalance(w: World, step: Step)
    requires ValidDevice(w.dev) && Sized(w.dev, w.staged) && CanStep(w, step) && Balanced(w)
    requires step.Commit? || step.Free?
    ensures var n := Next(w, step); Sized(n.dev, n.staged) && Balanced(n)
    ensures var n := |w.dev.planes|;
            Refs(OldFbs(w.dev, w.staged), n) <= w.references &&
            Pairs(OldFbs(w.dev, w.staged), n) <= w.prepared + Pairs(StagedFbs(w.staged), n)
  {
    hide Refs, Pairs, CommittedFbs, StagedFbs, OldFbs, Swap, PrepareFails, ValidDevice;
    var d, s, n := w.dev, w.staged, |w.dev.planes|;
    CommitConserves(d, s, w.references, w.prepared);
    if step.Free? {
      EmptyHoldsNothing(d);
      Solve(Refs(CommittedFbs(d), n), Refs(StagedFbs(s), n), Refs(CommittedFbs(d), n), Refs(StagedFbs(s), n));
    } else {
      EmptyHoldsNothing(Swap(d, s));
    }
  }

  lemma StepKeepsInv(w: World, step: Step)
    requires Inv(w) && CanStep(w, step)
    ensures Inv(Next(w, step))
  {
    hide Next, Balanced, PlanesOk, Built;
    StepKeepsPlanes(w, step);
    StepKeepsBuilt(w, step);
    if step.Commit? || step.Free? { EndingKeepsBalance(w, step); } else { StagingKeepsBalance(w, step); }
  }

  // ----- each step keeps the routing -----

  /** The committed routing is consistent, and so is that of an update that has passed the check. */
  ghost predicate Routed(w: World) {
    ValidDevice(w.dev) && Sized(w.dev, w.staged) &&
    AtomicRouting.RoutingOk(w.dev) && AtomicRouting.EnableOk(w.dev, Empty(w.dev)) &&
    (w.phase == Checked ==> AtomicRouting.Settled(w.dev, w.staged))
  }

  /** A check of an update for which the driver does not choose one encoder for two connectors that stay on. */
  ghost predicate PicksApart(w: World, step: Step) {
    step.Check? && CanStep(w, step) ==> !AtomicRouting.DoublePick(w.dev, w.staged, step.best)
  }

  /** Connectors and enable flags of the merged configuration stay. */
  ghost predicate SameRouting(d: Device, s: Staged, t: Staged) {
    Sized(d, s) && Sized(d, t) &&
    (forall k :: 0 <= k < |d.conns| ==> Conn(d, t, k) == Conn(d, s, k)) &&
    forall c :: 0 <= c < |d.crtcs| ==> Crtc(d, t, c).enable == Crtc(d, s, c).enable
  }

  lemma SameRoutingSettles(d: Device, s: Staged, t: Staged)
    requires AtomicRouting.Settled(d, s) && SameRouting(d, s, t)
    ensures AtomicRouting.Settled(d, t)
  {
    forall c | 0 <= c < |d.crtcs| ensures Crtc(d, t, c).enable <==> AtomicRouting.InUse(d, t, c) {
      assert Crtc(d, s, c).enable <==> AtomicRouting.InUse(d, s, c);
      AtomicRouting.InUseSame(d, s, t, c);
    }
  }

  lemma GetLinkedRouting(d: Device, s: Staged, crtc: Option<nat>)
    requires Sized(d, s) && Links(crtc, |d.crtcs|)
    ensures SameRouting(d, s, GetLinked(d, s, crtc))
  {
  }

  lemma GetConnRouting(d: Device, s: Staged, k: nat)
    requires ValidDevice(d) && Sized(d, s) && k < |d.conns|
    ensures SameRouting(d, s, GetConn(d, s, k))
  {
    if s.conns[k] == None { GetLinkedRouting(d, s.(conns := s.conns[k := Some(d.conns[k])]), d.conns[k].crtc); }
  }

  lemma GetPlaneRouting(d: Device, s: Staged, p: nat)
    requires ValidDevice(d) && Sized(d, s) && p < |d.planes|
    ensures SameRouting(d, s, GetPlane(d, s, p))
  {
    if s.planes[p] == None { GetLinkedRouting(d, s.(planes := s.planes[p := Some(d.planes[p])]), d.planes[p].crtc); }
  }

  lemma SetMaskRouting(d: Device, s: Staged, c: nat, mask: set<nat>)
    requires Sized(d, s) && c < |d.crtcs| && s.crtcs[c].Some?
    ensures SameRouting(d, s, SetMask(s, c, mask))
  {
  }

  lemma SetPlaneRouting(d: Device, s: Staged, p: nat, crtc: Option<nat>)
    requires ValidDevice(d) && Sized(d, s) && p < |d.planes| && Links(crtc, |d.crtcs|)
    ensures SameRouting(d, s, SetPlaneCrtc(d, s, p, crtc))
  {
    hide GetPlane, GetLinked, SetMask;
    var s1 := GetPlane(d, s, p);
    GetPlaneRouting(d, s, p);
    var from := s1.planes[p].value.crtc;
    var s2 := GetLinked(d, s1, from);
    GetLinkedKeeps(d, s1, from);
    GetLinkedRouting(d, s1, from);
    if from.Some? { SetMaskRouting(d, s2, from.value, s2.crtcs[from.value].value.planeMask - {p}); }
    var s3 := if from.Some? then SetMask(s2, from.value, s2.crtcs[from.value].value.planeMask - {p}) else s2;
    MaskKeepsPlanes(s2, from, p);
    var s4 := s3.(planes := s3.planes[p := Some(s3.planes[p].value.(crtc := crtc))]);
    var s5 := GetLinked(d, s4, crtc);
    GetLinkedKeeps(d, s4, crtc);
    GetLinkedRouting(d, s4, crtc);
    if crtc.Some? { SetMaskRouting(d, s5, crtc.value, s5.crtcs[crtc.value].value.planeMask + {p}); }
  }

  lemma MaskKeepsPlanes(s: Staged, from: Option<nat>, p: nat)
    requires Covered(s, from)
    ensures from.Some? ==> SetMask(s, from.value, s.crtcs[from.value].value.planeMask - {p}).planes == s.planes
  {
  }

  /** Steps that leave a checked update checked leave its routing alone. */
  lemma StagingKeepsSettled(w: World, step: Step)
    requires Routed(w) && CanStep(w, step) && !step.Check? && !step.Commit? && w.phase == Checked
    ensures var n := Next(w, step);
            n.dev == w.dev && (n.phase == Checked ==> AtomicRouting.Settled(n.dev, n.staged))
  {
    hide AtomicRouting.Settled, SetPlaneCrtc, GetPlane, GetConn, AtomicRouting.RoutingOk, AtomicRouting.EnableOk;
    var d, s := w.dev, w.staged;
    if step.GetCrtcState? || step.GetConnectorState? || step.GetPlaneState? || step.SetPlane? || step.SetFb? {
      match step {
        case GetCrtcState(c) => GetLinkedRouting(d, s, Some(c));
        case GetConnectorState(k) => GetConnRouting(d, s, k);
        case GetPlaneState(p) => GetPlaneRouting(d, s, p);
        case SetPlane(p, crtc) => SetPlaneRouting(d, s, p, crtc);
        case SetFb(p, fb) =>
      }
      SameRoutingSettles(d, s, Next(w, step).staged);
    }
  }

  lemma StepKeepsRouted(w: World, step: Step)
    requires Inv(w) && Routed(w) && CanStep(w, step) && PicksApart(w, step)
    ensures Routed(Next(w, step))
  {
    hide PlanesOk, Balanced, AtomicRouting.Settled, AtomicRouting.RoutingOk, AtomicRouting.EnableOk, Built;
    hide AtomicRouting.CheckModeset, AtomicRouting.DoublePick, Swap;
    StepKeepsInv(w, step);
    InvSized(Next(w, step));
    if step.Check? {
      if AtomicRouting.CheckModeset(w.dev, w.staged, step.best, step.fixupOk).Some? {
        AtomicRouting.CheckSettles(w.dev, w.staged, step.best, step.fixupOk);
      }
    } else if step.Commit? {
      AtomicRouting.SwapKeepsRouting(w.dev, w.staged);
    } else if w.phase == Checked {
      StagingKeepsSettled(w, step);
    }
  }

  lemma InvSized(w: World)
    requires Inv(w)
    ensures ValidDevice(w.dev) && Sized(w.dev, w.staged)
  {
  }

  // ----- whole runs -----

  ghost predicate Run(ws: seq<World>, steps: seq<Step>) {
    |ws| == |steps| + 1 && Inv(ws[0]) &&
    forall i :: 0 <= i < |steps| ==> CanStep(ws[i], steps[i]) && ws[i + 1] == Next(ws[i], steps[i])
  }

  /** A device whose planes are off, with empty masks and nothing prepared or referenced, is a valid start. */
  lemma StartHolds(d: Device)
    requires ValidDevice(d)
    requires forall c :: 0 <= c < |d.crtcs| ==> d.crtcs[c].planeMask == {}
    requires forall p :: 0 <= p < |d.planes| ==> d.planes[p] == PlaneState(None, None)
    ensures Inv(World(d, Empty(d), Building, multiset{}, multiset{}))
  {
    hide Refs, Pairs;
    NoneHeld(CommittedFbs(d), |d.planes|);
    EmptyHoldsNothing(d);
  }

  /** With its connectors and CRTCs off as well, its routing is consistent. */
  lemma StartRouted(d: Device, held: multiset<nat>, done: multiset<(nat, nat)>)
    requires ValidDevice(d)
    requires forall c :: 0 <= c < |d.crtcs| ==> !d.crtcs[c].enable
    requires forall k :: 0 <= k < |d.conns| ==> d.conns[k] == ConnState(None, None)
    ensures Routed(World(d, Empty(d), Building, held, done))
  {
    assert forall k :: 0 <= k < |d.conns| ==> Conn(d, Empty(d), k) == ConnState(None, None);
  }

  lemma {:induction false} RunKeepsInv(ws: seq<World>, steps: seq<Step>, i: nat)
    requires Run(ws, steps) && i < |ws|
    ensures Inv(ws[i])
  {
    hide Inv, CanStep, Next;
    if i > 0 {
      RunKeepsInv(ws, steps, i - 1);
      StepKeepsInv(ws[i - 1], steps[i - 1]);
    }
  }

  /** The planes among the first n that hold a framebuffer. */
  ghost function Holders(fbs: seq<Option<nat>>, n: nat, fb: nat): set<nat>
    requires n <= |fbs|
  {
    set p: nat | p < n && fbs[p] == Some(fb)
  }

  lemma HoldersStep(fbs: seq<Option<nat>>, n: nat, fb: nat)
    requires 0 < n <= |fbs|
    ensures |Holders(fbs, n, fb)| == |Holders(fbs, n - 1, fb)| + One(fbs[n - 1])[fb]
  {
    var before := Holders(fbs, n - 1, fb);
    assert n - 1 !in before;
    if fbs[n - 1] == Some(fb) {
      assert Holders(fbs, n, fb) == before + {n - 1};
    } else {
      assert Holders(fbs, n, fb) == before;
    }
  }

  lemma {:induction false} RefsCount(fbs: seq<Option<nat>>, n: nat, fb: nat)
    requires n <= |fbs|
    ensures Refs(fbs, n)[fb] == |Holders(fbs, n, fb)|
  {
    hide One;
    if n > 0 {
      hide Holders;
      RefsCount(fbs, n - 1, fb);
      HoldersStep(fbs, n, fb);
    } else {
      assert Holders(fbs, n, fb) == {};
    }
  }

  lemma PairCount(q: nat, held: Option<nat>, p: nat, fb: nat)
    ensures PairOne(q, held)[(p, fb)] == if p == q && held == Some(fb) then 1 else 0
  {
  }

  lemma {:induction false} PairsCount(fbs: seq<Option<nat>>, n: nat, p: nat, fb: nat)
    requires n <= |fbs|
    ensures Pairs(fbs, n)[(p, fb)] == if p < n && fbs[p] == Some(fb) then 1 else 0
  {
    hide PairOne;
    if n > 0 {
      PairsCount(fbs, n - 1, p, fb);
      PairCount(n - 1, fbs[n - 1], p, fb);
      assert Pairs(fbs, n)[(p, fb)] == Pairs(fbs, n - 1)[(p, fb)] + PairOne(n - 1, fbs[n - 1])[(p, fb)];
    }
  }

  /** Masks agree with planes; each framebuffer is referenced once per state that shows it and prepared if committed. */
  ghost predicate Exact(w: World) {
    var n := |w.dev.planes|;
    Sized(w.dev, w.staged) && Masks(w.dev, w.staged) &&
    (forall fb :: w.references[fb] ==
       |Holders(CommittedFbs(w.dev), n, fb)| + |Holders(StagedFbs(w.staged), n, fb)|) &&
    (forall p: nat, fb: nat ::
       w.prepared[(p, fb)] == if p < n && w.dev.planes[p].fb == Some(fb) then 1 else 0)
  }

  /**
   In every state of every run, also after commits that fail while preparing, the masks agree with
   the planes, each framebuffer has one reference per live plane state that shows it, and the
   outstanding prepare_fb calls are one for each committed plane and its framebuffer.
   */
  lemma AlwaysBalanced(ws: seq<World>, steps: seq<Step>, i: nat)
    requires Run(ws, steps) && i < |ws|
    ensures Exact(ws[i])
  {
    hide Masks, Refs, Pairs, Holders;
    RunKeepsInv(ws, steps, i);
    hide Run;
    var w := ws[i];
    var n := |w.dev.planes|;
    forall fb
      ensures w.references[fb] == |Holders(CommittedFbs(w.dev), n, fb)| + |Holders(StagedFbs(w.staged), n, fb)|
    {
      RefsCount(CommittedFbs(w.dev), n, fb);
      RefsCount(StagedFbs(w.staged), n, fb);
    }
    forall p: nat, fb: nat
      ensures w.prepared[(p, fb)] == if p < n && w.dev.planes[p].fb == Some(fb) then 1 else 0
    {
      PairsCount(CommittedFbs(w.dev), n, p, fb);
    }
  }

  /** None of the first i steps is a check with a double pick. */
  ghost predicate AllApart(ws: seq<World>, steps: seq<Step>, i: nat) {
    i <= |ws| && i <= |steps| && forall j :: 0 <= j < i ==> PicksApart(ws[j], steps[j])
  }

  lemma {:induction false} RunKeepsRouted(ws: seq<World>, steps: seq<Step>, i: nat)
    requires Run(ws, steps) && i < |ws| && Routed(ws[0]) && AllApart(ws, steps, i)
    ensures Routed(ws[i])
  {
    hide Inv, CanStep, Next, Routed, PicksApart;
    if i > 0 {
      RunKeepsRouted(ws, steps, i - 1);
      RunKeepsInv(ws, steps, i - 1);
      StepKeepsRouted(ws[i - 1], steps[i - 1]);
    }
  }

  /** The committed routing and enable flags are consistent, and both masks and counts are exact. */
  ghost predicate Consistent(w: World) {
    AtomicRouting.RoutingOk(w.dev) && AtomicRouting.EnableOk(w.dev, Empty(w.dev)) &&
    Masks(w.dev, Empty(w.dev)) && Exact(w)
  }

  /**
   Everything together: over every run of staging, checks that pass or fail, commits that pass or
   fail and updates thrown away, in which no check gives one encoder to two connectors, the committed
   configuration has consistent routing and enable flags, and masks, references and prepared
   framebuffers are exact, for the committed configuration and for the update.
   */
  lemma AlwaysConsistent(ws: seq<World>, steps: seq<Step>, i: nat)
    requires Run(ws, steps) && i < |ws| && Routed(ws[0]) && AllApart(ws, steps, i)
    ensures Consistent(ws[i])
  {
    hide Masks, Exact, CanStep, Next, AtomicRouting.RoutingOk, AtomicRouting.EnableOk;
    RunKeepsRouted(ws, steps, i);
    RunKeepsInv(ws, steps, i);
    AlwaysBalanced(ws, steps, i);
  }

  // ----- committing an update, in place -----

  /** The current object states and the update's, with the reference and prepare calls made so far. */
  class Committer {
    var dev: Device
    var staged: Staged
    var references: multiset<nat>
    var prepared: multiset<(nat, nat)>

    constructor (d: Device, s: Staged, held: multiset<nat>, done: multiset<(nat, nat)>)
      ensures dev == d && staged == s && references == held && prepared == done
    {
      dev, staged, references, prepared := d, s, held, done;
    }

    /** cleanup_fb: only ever called for what was prepared. */
    method CleanupFb(p: nat, fb: nat)
      requires (p, fb) in prepared
      modifies `prepared
      ensures prepared == old(prepared) - multiset{(p, fb)}
    {
      prepared := prepared - multiset{(p, fb)};
    }

    /** drm_framebuffer_unreference: only ever called for a reference that is held. */
    method Unreference(fb: nat)
      requires fb in references
      modifies `references
      ensures references == old(references) - multiset{fb}
    {
      references := references - multiset{fb};
    }

    /** drm_atomic_set_fb_for_plane on a staged plane. */
    method SetFbForPlane(p: nat, fb: Option<nat>)
      requires Sized(dev, staged) && p < |dev.planes| && staged.planes[p].Some?
      requires One(staged.planes[p].value.fb) <= references
      modifies `staged, `references
      ensures staged == SetPlaneFb(dev, old(staged), p, fb)
      ensures references == old(references) - One(old(staged).planes[p].value.fb) + One(fb)
    {
      var was := staged.planes[p].value.fb;
      if was.Some? {
        assert was.value in One(was);
        Unreference(was.value);
      }
      if fb.Some? { references := references + multiset{fb.value}; }
      staged := staged.(planes := staged.planes[p := Some(staged.planes[p].value.(fb := fb))]);
    }

    /** The rollback of a failed prepare: from plane i downwards. */
    method Rollback(n: nat, ghost before: multiset<(nat, nat)>)
      requires n <= |staged.planes| && prepared == before + Pairs(StagedFbs(staged), n)
      modifies `prepared
      ensures prepared == before
    {
      hide StagedFbs;
      ghost var fbs := StagedFbs(staged);
      var i := n;
      while i > 0
        invariant 0 <= i <= n
        invariant prepared == before + Pairs(fbs, i)
      {
        i := i - 1;
        StagedFbAt(staged, i);
        assert Pairs(fbs, i + 1) == Pairs(fbs, i) + PairOne(i, fbs[i]);
        if staged.planes[i].Some? {
          var fb := staged.planes[i].value.fb;
          if fb.Some? {
            CleanupFb(i, fb.value);
          }
        }
      }
    }

    /** drm_atomic_helper_prepare_planes; ok[p] says whether the driver's prepare_fb for plane p succeeds. */
    method PreparePlanes(ok: seq<bool>) returns (done: bool)
      requires |ok| == |staged.planes|
      modifies `prepared
      ensures done <==> !PrepareFails(staged, ok)
      ensures prepared == if done then old(prepared) + Pairs(StagedFbs(staged), |ok|) else old(prepared)
    {
      hide StagedFbs, Pairs;
      ghost var before := prepared;
      ghost var fbs := StagedFbs(staged);
      var i := 0;
      assert Pairs(fbs, 0) == multiset{} by { NoneHeld(fbs, 0); }
      while i < |staged.planes|
        invariant 0 <= i <= |staged.planes|
        invariant prepared == before + Pairs(fbs, i)
        invariant forall p :: 0 <= p < i && staged.planes[p].Some? && staged.planes[p].value.fb.Some? ==> ok[p]
      {
        StagedFbAt(staged, i);
        PairsStep(fbs, i, before);
        if staged.planes[i].Some? {
          var fb := staged.planes[i].value.fb;
          if fb.Some? {
            if !ok[i] {
              Rollback(i, before);
              return false;
            }
            prepared := prepared + multiset{(i, fb.value)};
          }
        }
        i := i + 1;
      }
      return true;
    }

    /** drm_atomic_helper_cleanup_planes on an update that holds the old states. */
    method CleanupPlanes(ghost rest: multiset<(nat, nat)>)
      requires prepared == rest + Pairs(StagedFbs(staged), |staged.planes|)
      modifies `prepared
      ensures prepared == rest
    {
      hide StagedFbs, Refs, Pairs, RefsFrom, PairsFrom;
      ghost var fbs := StagedFbs(staged);
      FromAll(fbs);
      var i := 0;
      while i < |staged.planes|
        invariant 0 <= i <= |staged.planes|
        invariant prepared == rest + PairsFrom(fbs, i)
      {
        StagedFbAt(staged, i);
        FromStep(fbs, i, multiset{}, rest);
        if staged.planes[i].Some? {
          var fb := staged.planes[i].value.fb;
          if fb.Some? {
            Drop(prepared, rest + PairsFrom(fbs, i + 1), (i, fb.value));
            CleanupFb(i, fb.value);
          }
        }
        i := i + 1;
      }
    }

    /** drm_atomic_helper_swap_state: afterwards the update holds the states it replaced. */
    method SwapState()
      requires Sized(dev, staged)
      modifies `dev, `staged
      ensures dev == Swap(old(dev), old(staged))
      ensures |staged.planes| == |dev.planes| && StagedFbs(staged) == OldFbs(old(dev), old(staged))
    {
      ghost var d, s := dev, staged;
      var conns := SwapConns();
      var crtcs := SwapCrtcs();
      var planes, old_ := SwapPlanes();
      dev := Device(conns, crtcs, planes);
      assert dev == Swap(d, s);
      staged := staged.(planes := old_);
    }

    method SwapConns() returns (now: seq<ConnState>)
      requires |staged.conns| == |dev.conns|
      ensures |now| == |dev.conns| && forall k :: 0 <= k < |now| ==> now[k] == Conn(dev, staged, k)
    {
      now := dev.conns;
      for i := 0 to |staged.conns|
        invariant |now| == |dev.conns|
        invariant forall k :: 0 <= k < |now| ==> now[k] == if k < i then Conn(dev, staged, k) else dev.conns[k]
      {
        if staged.conns[i].Some? { now := now[i := staged.conns[i].value]; }
      }
    }

    method SwapCrtcs() returns (now: seq<CrtcState>)
      requires |staged.crtcs| == |dev.crtcs|
      ensures |now| == |dev.crtcs| && forall c :: 0 <= c < |now| ==> now[c] == Crtc(dev, staged, c)
    {
      now := dev.crtcs;
      for i := 0 to |staged.crtcs|
        invariant |now| == |dev.crtcs|
        invariant forall c :: 0 <= c < |now| ==> now[c] == if c < i then Crtc(dev, staged, c) else dev.crtcs[c]
      {
        if staged.crtcs[i].Some? { now := now[i := staged.crtcs[i].value]; }
      }
    }

    method SwapPlanes() returns (now: seq<PlaneState>, was: seq<Option<PlaneState>>)
      requires |staged.planes| == |dev.planes|
      ensures |now| == |was| == |dev.planes|
      ensures forall p :: 0 <= p < |now| ==> now[p] == Plane(dev, staged, p)
      ensures forall p :: 0 <= p < |now| ==> was[p] == if staged.planes[p].Some? then Some(dev.planes[p]) else None
    {
      now, was := dev.planes, staged.planes;
      for i := 0 to |staged.planes|
        invariant |now| == |was| == |dev.planes|
        invariant forall p :: 0 <= p < i ==> now[p] == Plane(dev, staged, p)
        invariant forall p :: 0 <= p < i ==> was[p] == if staged.planes[p].Some? then Some(dev.planes[p]) else None
        invariant forall p :: i <= p < |now| ==> now[p] == dev.planes[p] && was[p] == staged.planes[p]
      {
        if was[i].Some? {
          var state := was[i].value;
          was := was[i := Some(now[i])];
          now := now[i := state];
        }
      }
    }

    /** The plane half of drm_atomic_state_free: every state of the update gives up its reference. */
    method DestroyPlanes(ghost rest: multiset<nat>)
      requires references == rest + Refs(StagedFbs(staged), |staged.planes|)
      modifies `references
      ensures references == rest
    {
      hide StagedFbs, Refs, Pairs, RefsFrom, PairsFrom;
      ghost var fbs := StagedFbs(staged);
      FromAll(fbs);
      var i := 0;
      while i < |staged.planes|
        invariant 0 <= i <= |staged.planes|
        invariant references == rest + RefsFrom(fbs, i)
      {
        StagedFbAt(staged, i);
        FromStep(fbs, i, rest, multiset{});
        if staged.planes[i].Some? {
          var fb := staged.planes[i].value.fb;
          if fb.Some? {
            Drop(references, rest + RefsFrom(fbs, i + 1), fb.value);
            Unreference(fb.value);
          }
        }
        i := i + 1;
      }
    }

    ghost function State(phase: Phase): World
      reads this
    {
      World(dev, staged, phase, references, prepared)
    }

    /**
     drm_atomic_helper_commit on an update that has passed the check: a failed prepare changes
     nothing, otherwise the update becomes the device.
     */
    method Commit(ok: seq<bool>) returns (done: bool)
      requires Inv(State(Checked)) && |ok| == |dev.planes|
      modifies this
      ensures done <==> !PrepareFails(old(staged), ok)
      ensures !done ==> State(Checked) == old(State(Checked))
      ensures done ==> State(Building) == Next(old(State(Checked)), Step.Commit(ok)) && Inv(State(Building))
    {
      hide Refs, Pairs, StagedFbs, OldFbs, PrepareFails, Inv, Swap, CommittedFbs, Next;
      ghost var w := State(Checked);
      InvMeans(w);
      done := PreparePlanes(ok);
      if !done { return; }
      CommitIs(w, ok);
      StepKeepsInv(w, Step.Commit(ok));
      ghost var e := CommittedFbs(Swap(dev, staged));
      SwapState();
      CleanupPlanes(Pairs(e, |dev.planes|));
      DestroyPlanes(Refs(e, |dev.planes|));
      staged := Empty(dev);
    }
  }

  /** A commit that goes through leaves exactly what the new device shows. */
  lemma CommitIs(w: World, ok: seq<bool>)
    requires Inv(w) && w.phase == Checked && |ok| == |w.dev.planes| && !PrepareFails(w.staged, ok)
    ensures CanStep(w, Step.Commit(ok))
    ensures var e := Swap(w.dev, w.staged); var n := |w.dev.planes|;
            Next(w, Step.Commit(ok)) ==
            World(e, Empty(e), Building, Refs(CommittedFbs(e), n), Pairs(CommittedFbs(e), n)) &&
            w.references == Refs(CommittedFbs(e), n) + Refs(OldFbs(w.dev, w.staged), n) &&
            w.prepared + Pairs(StagedFbs(w.staged), n) == Pairs(CommittedFbs(e), n) + Pairs(OldFbs(w.dev, w.staged), n)
  {
    hide Refs, Pairs, StagedFbs, OldFbs, Built, Swap, CommittedFbs;
    var n := |w.dev.planes|;
    SwapConserves(w.dev, w.staged);
    Solve(Refs(CommittedFbs(Swap(w.dev, w.staged)), n), Refs(OldFbs(w.dev, w.staged), n),
          Refs(CommittedFbs(w.dev), n), Refs(StagedFbs(w.staged), n));
    Solve(Pairs(CommittedFbs(Swap(w.dev, w.staged)), n), Pairs(OldFbs(w.dev, w.staged), n),
          Pairs(CommittedFbs(w.dev), n), Pairs(StagedFbs(w.staged), n));
  }

  lemma PairsStep(fbs: seq<Option<nat>>, i: nat, before: multiset<(nat, nat)>)
    requires i < |fbs|
    ensures before + Pairs(fbs, i + 1) == if fbs[i].Some? then before + Pairs(fbs, i) + multiset{(i, fbs[i].value)}
                                          else before + Pairs(fbs, i)
  {
  }

  lemma FromStep(fbs: seq<Option<nat>>, i: nat, refs: multiset<nat>, pairs: multiset<(nat, nat)>)
    requires i < |fbs|
    ensures refs + RefsFrom(fbs, i) == if fbs[i].Some? then refs + RefsFrom(fbs, i + 1) + multiset{fbs[i].value}
                                       else refs + RefsFrom(fbs, i + 1)
    ensures pairs + PairsFrom(fbs, i) ==
            if fbs[i].Some? then pairs + PairsFrom(fbs, i + 1) + multiset{(i, fbs[i].value)}
                                         else pairs + PairsFrom(fbs, i + 1)
  {
    hide Refs, Pairs;
  }

  lemma FromAll(fbs: seq<Option<nat>>)
    ensures RefsFrom(fbs, 0) == Refs(fbs, |fbs|) && PairsFrom(fbs, 0) == Pairs(fbs, |fbs|)
    ensures RefsFrom(fbs, |fbs|) == multiset{} && PairsFrom(fbs, |fbs|) == multiset{}
  {
    FrontAndBack(fbs, 0);
  }

  /** Taking one away again. */
  lemma Drop<T>(a: multiset<T>, b: multiset<T>, x: T)
    requires a == b + multiset{x}
    ensures x in a && a - multiset{x} == b
  {
  }

  lemma InvMeans(w: World)
    requires Inv(w)
    ensures ValidDevice(w.dev) && Sized(w.dev, w.staged) && Balanced(w)
  {
  }

  lemma StagedFbAt(s: Staged, p: nat)
    requires p < |s.planes|
    ensures StagedFbs(s)[p] == if s.planes[p].Some? then s.planes[p].value.fb else None
  {
  }
}
