/**
 The atomic modeset state: a device with committed states for its connectors, CRTCs and planes,
 and an update that stages copies of some of them. The merged configuration is the staged value
 where there is one and the committed value otherwise.
 */
module Atomic {

  import opened Options

  datatype ConnState = ConnState(crtc: Option<nat>, enc: Option<nat>)

  datatype CrtcState = CrtcState(enable: bool, mode: int, modeChanged: bool, planesChanged: bool, planeMask: set<nat>)

  datatype PlaneState = PlaneState(crtc: Option<nat>, fb: Option<nat>)

  datatype Device = Device(conns: seq<ConnState>, crtcs: seq<CrtcState>, planes: seq<PlaneState>)

  datatype Staged = Staged(conns: seq<Option<ConnState>>, crtcs: seq<Option<CrtcState>>,
                           planes: seq<Option<PlaneState>>)

  /** Links point to CRTCs that exist. */
  predicate Links(crtc: Option<nat>, n: nat) {
    crtc.Some? ==> crtc.value < n
  }

  ghost predicate ValidDevice(d: Device) {
    (forall k :: 0 <= k < |d.conns| ==> Links(d.conns[k].crtc, |d.crtcs|)) &&
    (forall p :: 0 <= p < |d.planes| ==> Links(d.planes[p].crtc, |d.crtcs|))
  }

  /** The arrays have the device's sizes, and so do the links in them. */
  ghost predicate Sized(d: Device, s: Staged) {
    |s.conns| == |d.conns| && |s.crtcs| == |d.crtcs| && |s.planes| == |d.planes| &&
    (forall k :: 0 <= k < |s.conns| && s.conns[k].Some? ==> Links(s.conns[k].value.crtc, |d.crtcs|)) &&
    (forall p :: 0 <= p < |s.planes| && s.planes[p].Some? ==> Links(s.planes[p].value.crtc, |d.crtcs|))
  }

  // ----- the merged configuration -----

  function Conn(d: Device, s: Staged, k: nat): ConnState
    requires k < |d.conns| == |s.conns|
  {
    if s.conns[k].Some? then s.conns[k].value else d.conns[k]
  }

  function Crtc(d: Device, s: Staged, c: nat): CrtcState
    requires c < |d.crtcs| == |s.crtcs|
  {
    if s.crtcs[c].Some? then s.crtcs[c].value else d.crtcs[c]
  }

  function Plane(d: Device, s: Staged, p: nat): PlaneState
    requires p < |d.planes| == |s.planes|
  {
    if s.planes[p].Some? then s.planes[p].value else d.planes[p]
  }

  // ----- staging -----

  function Empty(d: Device): Staged {
    Staged(seq(|d.conns|, _ => None), seq(|d.crtcs|, _ => None), seq(|d.planes|, _ => None))
  }

  /** atomic_duplicate_state of a CRTC. */
  function Duplicate(c: CrtcState): CrtcState {
    c.(modeChanged := false, planesChanged := false)
  }

  function GetCrtc(d: Device, s: Staged, c: nat): (r: Staged)
    requires Sized(d, s) && c < |d.crtcs|
    ensures Sized(d, r) && r.crtcs[c].Some? && r.conns == s.conns && r.planes == s.planes
    ensures forall b :: 0 <= b < |s.crtcs| && (b != c || s.crtcs[b].Some?) ==> r.crtcs[b] == s.crtcs[b]
  {
    if s.crtcs[c].Some? then s else s.(crtcs := s.crtcs[c := Some(Duplicate(d.crtcs[c]))])
  }

  function GetLinked(d: Device, s: Staged, crtc: Option<nat>): (r: Staged)
    requires Sized(d, s) && Links(crtc, |d.crtcs|)
    ensures Sized(d, r)
  {
    if crtc.Some? then GetCrtc(d, s, crtc.value) else s
  }

  function GetConn(d: Device, s: Staged, k: nat): (r: Staged)
    requires ValidDevice(d) && Sized(d, s) && k < |d.conns|
    ensures Sized(d, r) && r.conns[k].Some?
  {
    if s.conns[k].Some? then s
    else GetLinked(d, s.(conns := s.conns[k := Some(d.conns[k])]), d.conns[k].crtc)
  }

  function GetPlane(d: Device, s: Staged, p: nat): (r: Staged)
    requires ValidDevice(d) && Sized(d, s) && p < |d.planes|
    ensures Sized(d, r) && r.planes[p].Some?
  {
    if s.planes[p].Some? then s
    else GetLinked(d, s.(planes := s.planes[p := Some(d.planes[p])]), d.planes[p].crtc)
  }

  /** drm_atomic_set_crtc_for_connector on a staged connector. */
  function SetConnCrtc(d: Device, s: Staged, k: nat, crtc: Option<nat>): (r: Staged)
    requires Sized(d, s) && k < |d.conns| && s.conns[k].Some? && Links(crtc, |d.crtcs|)
    ensures Sized(d, r) && r.conns[k].Some?
  {
    var s1 := GetLinked(d, s, crtc);
    s1.(conns := s1.conns[k := Some(s1.conns[k].value.(crtc := crtc))])
  }

  /** Changes the mask of a staged CRTC. */
  function SetMask(s: Staged, c: nat, mask: set<nat>): Staged
    requires c < |s.crtcs| && s.crtcs[c].Some?
  {
    s.(crtcs := s.crtcs[c := Some(s.crtcs[c].value.(planeMask := mask))])
  }

  /** drm_atomic_set_crtc_for_plane: the plane moves from one CRTC's mask to another's. */
  function SetPlaneCrtc(d: Device, s: Staged, p: nat, crtc: Option<nat>): (r: Staged)
    requires ValidDevice(d) && Sized(d, s) && p < |d.planes| && Links(crtc, |d.crtcs|)
    ensures Sized(d, r) && r.planes[p].Some?
  {
    var s1 := GetPlane(d, s, p);
    var from := s1.planes[p].value.crtc;
    var s2 := GetLinked(d, s1, from);
    var s3 := if from.Some? then SetMask(s2, from.value, s2.crtcs[from.value].value.planeMask - {p}) else s2;
    var s4 := s3.(planes := s3.planes[p := Some(s3.planes[p].value.(crtc := crtc))]);
    var s5 := GetLinked(d, s4, crtc);
    if crtc.Some? then SetMask(s5, crtc.value, s5.crtcs[crtc.value].value.planeMask + {p}) else s5
  }

  /** The fields of a staged CRTC that callers write themselves. */
  function SetCrtcFields(d: Device, s: Staged, c: nat, enable: bool, mode: int, modeChanged: bool): (r: Staged)
    requires Sized(d, s) && c < |d.crtcs| && s.crtcs[c].Some?
    ensures Sized(d, r)
  {
    var old_ := s.crtcs[c].value;
    var new_ := old_.(enable := enable, mode := mode, modeChanged := old_.modeChanged || modeChanged);
    s.(crtcs := s.crtcs[c := Some(new_)])
  }

  function SetPlaneFb(d: Device, s: Staged, p: nat, fb: Option<nat>): (r: Staged)
    requires Sized(d, s) && p < |d.planes| && s.planes[p].Some?
    ensures Sized(d, r)
  {
    s.(planes := s.planes[p := Some(s.planes[p].value.(fb := fb))])
  }

  // ----- committing -----

  /** drm_atomic_helper_swap_state: the staged states become the committed ones. */
  function Swap(d: Device, s: Staged): (r: Device)
    requires Sized(d, s)
    ensures |r.conns| == |d.conns| && |r.crtcs| == |d.crtcs| && |r.planes| == |d.planes|
  {
    Device(seq(|d.conns|, k requires 0 <= k < |d.conns| => Conn(d, s, k)),
           seq(|d.crtcs|, c requires 0 <= c < |d.crtcs| => Crtc(d, s, c)),
           seq(|d.planes|, p requires 0 <= p < |d.planes| => Plane(d, s, p)))
  }

  lemma SwapValid(d: Device, s: Staged)
    requires ValidDevice(d) && Sized(d, s)
    ensures ValidDevice(Swap(d, s))
  {
  }

  // ----- what staging keeps -----

  /** Both CRTCs of a staged connector, committed and staged, are staged. */
  ghost predicate ConnCovered(d: Device, s: Staged, k: nat)
    requires Sized(d, s) && ValidDevice(d) && k < |d.conns|
  {
    s.conns[k].Some? ==> Covered(s, d.conns[k].crtc) && Covered(s, s.conns[k].value.crtc)
  }

  predicate Covered(s: Staged, crtc: Option<nat>) {
    crtc.Some? ==> crtc.value < |s.crtcs| && s.crtcs[crtc.value].Some?
  }

  ghost predicate ConnsCovered(d: Device, s: Staged)
    requires Sized(d, s) && ValidDevice(d)
  {
    forall k :: 0 <= k < |d.conns| ==> ConnCovered(d, s, k)
  }

  /** Until the update is checked, nobody has touched the encoders. */
  ghost predicate EncodersUntouched(d: Device, s: Staged)
    requires Sized(d, s)
  {
    forall k :: 0 <= k < |d.conns| && s.conns[k].Some? ==> s.conns[k].value.enc == d.conns[k].enc
  }

  /** What the callers of drm_atomic_helper_check may rely on about an update that was built with the above. */
  ghost predicate Built(d: Device, s: Staged) {
    ValidDevice(d) && Sized(d, s) && ConnsCovered(d, s) && EncodersUntouched(d, s)
  }

  lemma GetLinkedKeeps(d: Device, s: Staged, crtc: Option<nat>)
    requires Sized(d, s) && Links(crtc, |d.crtcs|)
    ensures var r := GetLinked(d, s, crtc);
            r.conns == s.conns && r.planes == s.planes && Covered(r, crtc) &&
            (forall c: nat :: Covered(s, Some(c)) ==> Covered(r, Some(c))) &&
            (forall c :: 0 <= c < |s.crtcs| && s.crtcs[c].Some? ==> r.crtcs[c] == s.crtcs[c]) &&
            (forall c :: 0 <= c < |s.crtcs| && s.crtcs[c] == None && r.crtcs[c].Some? ==>
               r.crtcs[c].value == Duplicate(d.crtcs[c]))
  {
  }

  /** Staging more CRTCs keeps the connectors covered. */
  lemma CoverMore(d: Device, s: Staged, r: Staged)
    requires ValidDevice(d) && Sized(d, s) && Sized(d, r) && ConnsCovered(d, s) && r.conns == s.conns
    requires forall c: nat :: Covered(s, Some(c)) ==> Covered(r, Some(c))
    ensures ConnsCovered(d, r)
  {
    forall k | 0 <= k < |d.conns| ensures ConnCovered(d, r, k) { assert ConnCovered(d, s, k); }
  }

  lemma GetConnKeepsBuilt(d: Device, s: Staged, k: nat)
    requires Built(d, s) && k < |d.conns|
    ensures Built(d, GetConn(d, s, k))
  {
    if s.conns[k] == None {
      var s1 := s.(conns := s.conns[k := Some(d.conns[k])]);
      GetLinkedKeeps(d, s1, d.conns[k].crtc);
      var r := GetConn(d, s, k);
      forall j | 0 <= j < |d.conns| ensures ConnCovered(d, r, j) { assert ConnCovered(d, s, j); }
    }
  }

  lemma SetConnCrtcKeepsBuilt(d: Device, s: Staged, k: nat, crtc: Option<nat>)
    requires Built(d, s) && k < |d.conns| && s.conns[k].Some? && Links(crtc, |d.crtcs|)
    ensures Built(d, SetConnCrtc(d, s, k, crtc))
  {
    GetLinkedKeeps(d, s, crtc);
    var r := SetConnCrtc(d, s, k, crtc);
    forall j | 0 <= j < |d.conns| ensures ConnCovered(d, r, j) { assert ConnCovered(d, s, j); }
  }

  /** A moved connector is where it was put, on its old encoder; no other connector and no plane changes. */
  lemma SetConnCrtcMoves(d: Device, s: Staged, k: nat, crtc: Option<nat>, j: nat)
    requires Sized(d, s) && k < |d.conns| && s.conns[k].Some? && Links(crtc, |d.crtcs|) && j < |d.conns|
    ensures var r := SetConnCrtc(d, s, k, crtc);
            Covered(r, crtc) && r.planes == s.planes && Conn(d, r, k).crtc == crtc &&
            Conn(d, r, k).enc == Conn(d, s, k).enc && (j != k ==> Conn(d, r, j) == Conn(d, s, j)) &&
            forall c :: 0 <= c < |d.crtcs| ==> Crtc(d, r, c).enable == Crtc(d, s, c).enable &&
                                               Crtc(d, r, c).mode == Crtc(d, s, c).mode
  {
  }

  /** Staging changes nothing in the merged configuration but cleared flags. */
  lemma StagingKeepsMerged(d: Device, s: Staged, k: nat, c: nat, p: nat)
    requires ValidDevice(d) && Sized(d, s) && k < |d.conns| && c < |d.crtcs| && p < |d.planes|
    ensures SameMerged(d, s, GetConn(d, s, k)) && GetConn(d, s, k).conns[k].Some?
    ensures SameMerged(d, s, GetCrtc(d, s, c)) && GetCrtc(d, s, c).crtcs[c].Some?
    ensures SameMerged(d, s, GetPlane(d, s, p)) && GetPlane(d, s, p).planes[p].Some?
  {
  }

  ghost predicate SameMerged(d: Device, s: Staged, t: Staged) {
    Sized(d, s) && Sized(d, t) &&
    (forall k :: 0 <= k < |d.conns| ==> Conn(d, t, k) == Conn(d, s, k)) &&
    (forall p :: 0 <= p < |d.planes| ==> Plane(d, t, p) == Plane(d, s, p)) &&
    (forall c :: 0 <= c < |d.crtcs| ==>
       Crtc(d, t, c) == Crtc(d, s, c) ||
       (s.crtcs[c] == None && Crtc(d, t, c) == Crtc(d, s, c).(modeChanged := false, planesChanged := false)))
  }

  lemma GetCrtcKeepsBuilt(d: Device, s: Staged, c: nat)
    requires Built(d, s) && c < |d.crtcs|
    ensures Built(d, GetCrtc(d, s, c))
  {
    GetLinkedKeeps(d, s, Some(c));
    CoverMore(d, s, GetCrtc(d, s, c));
  }

  lemma SetCrtcFieldsKeepsBuilt(d: Device, s: Staged, c: nat, enable: bool, mode: int, modeChanged: bool)
    requires Built(d, s) && c < |d.crtcs| && s.crtcs[c].Some?
    ensures Built(d, SetCrtcFields(d, s, c, enable, mode, modeChanged))
  {
    CoverMore(d, s, SetCrtcFields(d, s, c, enable, mode, modeChanged));
  }
}
