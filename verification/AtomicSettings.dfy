/**
 What an atomic update is for, over whole runs: a setting that a caller writes holds in the merged
 configuration until it is written again or the update is thrown away, so that it is what a commit
 leaves in the device; and the device changes in no other way.
 */
module AtomicSettings {
  import opened Options
  import opened Atomic
  import opened AtomicPlanes
  import AtomicRouting

  datatype Setting =
    | PlaneFb(p: nat, fb: Option<nat>)
    | PlaneCrtc(p: nat, crtc: Option<nat>)
    | CrtcMode(c: nat, enable: bool, mode: int)
    | ConnCrtc(k: nat, crtc: Option<nat>)

  /** The merged configuration has the setting. */
  ghost predicate Has(w: World, x: Setting) {
    Sized(w.dev, w.staged) &&
    match x
    case PlaneFb(p, fb) => p < |w.dev.planes| && Plane(w.dev, w.staged, p).fb == fb
    case PlaneCrtc(p, crtc) => p < |w.dev.planes| && Plane(w.dev, w.staged, p).crtc == crtc
    case CrtcMode(c, enable, mode) =>
      c < |w.dev.crtcs| && Crtc(w.dev, w.staged, c).enable == enable && Crtc(w.dev, w.staged, c).mode == mode
    case ConnCrtc(k, crtc) => k < |w.dev.conns| && Conn(w.dev, w.staged, k).crtc == crtc
  }

  /** The committed configuration has it. */
  ghost predicate Committed(d: Device, x: Setting) {
    match x
    case PlaneFb(p, fb) => p < |d.planes| && d.planes[p].fb == fb
    case PlaneCrtc(p, crtc) => p < |d.planes| && d.planes[p].crtc == crtc
    case CrtcMode(c, enable, mode) => c < |d.crtcs| && d.crtcs[c].enable == enable && d.crtcs[c].mode == mode
    case ConnCrtc(k, crtc) => k < |d.conns| && d.conns[k].crtc == crtc
  }

  ghost predicate Writes(step: Step, x: Setting) {
    match x
    case PlaneFb(p, fb) => step == SetFb(p, fb)
    case PlaneCrtc(p, crtc) => step == SetPlane(p, crtc)
    case CrtcMode(c, enable, mode) => step.SetCrtc? && step.c == c && step.enable == enable && step.mode == mode
    case ConnCrtc(k, crtc) => step == SetConnectorCrtc(k, crtc)
  }

  /** The check passes and takes no encoder away from connector k. */
  ghost predicate SparesConn(w: World, step: Step, k: nat) {
    CanStep(w, step) && step.Check? && k < |step.best| && AtomicRouting.RoutingOk(w.dev) &&
    AtomicRouting.CheckModeset(w.dev, w.staged, step.best, step.fixupOk).Some? &&
    !AtomicRouting.Stolen(w.dev, w.staged, step.best, |step.best|, k)
  }

  /** The step may put something else in its place. */
  ghost predicate MayUndo(w: World, step: Step, x: Setting) {
    step.Free? ||
    match x
    case PlaneFb(p, _) => step.SetFb? && step.p == p
    case PlaneCrtc(p, _) => step.SetPlane? && step.p == p
    case CrtcMode(c, _, _) => step.SetCrtc? && step.c == c
    case ConnCrtc(k, _) => (step.Check? && !SparesConn(w, step, k)) || (step.SetConnectorCrtc? && step.k == k)
  }

  lemma WriteHas(w: World, step: Step, x: Setting)
    requires Inv(w) && CanStep(w, step) && Writes(step, x)
    ensures Has(Next(w, step), x)
  {
    hide Masks, Built, Balanced, Refs, Pairs;
    var d, s := w.dev, w.staged;
    if step.SetPlane? {
      SetPlaneCrtcIs(d, s, step.p, step.crtc);
      hide SetPlaneCrtc;
    }
  }

  /** More may be staged, but every plane, connector and mode is as before. */
  ghost predicate Alike(w: World, n: World) {
    n.dev == w.dev && Sized(w.dev, w.staged) && Sized(n.dev, n.staged) &&
    (forall p :: 0 <= p < |w.dev.planes| ==> Plane(n.dev, n.staged, p) == Plane(w.dev, w.staged, p)) &&
    (forall k :: 0 <= k < |w.dev.conns| ==> Conn(n.dev, n.staged, k) == Conn(w.dev, w.staged, k)) &&
    SameModes(w.dev, w.staged, n.staged)
  }

  lemma GetAlike(w: World, step: Step)
    requires Inv(w) && CanStep(w, step) && (step.GetCrtcState? || step.GetConnectorState? || step.GetPlaneState?)
    ensures Alike(w, Next(w, step))
  {
    hide Masks, Built, Balanced, Refs, Pairs, Duplicated;
  }

  /** Moving a plane changes nothing but its CRTC and masks. */
  ghost predicate PlaneMoved(d: Device, s: Staged, t: Staged, p: nat) {
    Sized(d, s) && Sized(d, t) && p < |d.planes| && t.conns == s.conns &&
    Plane(d, t, p).fb == Plane(d, s, p).fb &&
    (forall q :: 0 <= q < |d.planes| && q != p ==> Plane(d, t, q) == Plane(d, s, q)) && SameModes(d, s, t)
  }

  lemma SetPlaneMoves(d: Device, s: Staged, p: nat, crtc: Option<nat>)
    requires PlanesOk(d, s) && p < |d.planes| && Links(crtc, |d.crtcs|)
    ensures PlaneMoved(d, s, SetPlaneCrtc(d, s, p, crtc), p)
  {
    SetPlaneCrtcIs(d, s, p, crtc);
    SetPlaneModes(d, s, p, crtc);
    GetPlanePlanes(d, s, p);
    hide SetPlaneCrtc, GetPlane, Masks, PlaneCovered;
  }

  lemma GetPlanePlanes(d: Device, s: Staged, p: nat)
    requires ValidDevice(d) && Sized(d, s) && p < |d.planes|
    ensures GetPlane(d, s, p).planes == s.planes[p := Some(Plane(d, s, p))]
  {
  }

  lemma SetPlaneKeeps(w: World, step: Step, x: Setting)
    requires Inv(w) && CanStep(w, step) && step.SetPlane? && Has(w, x) && !MayUndo(w, step, x)
    ensures Has(Next(w, step), x)
  {
    SetPlaneMoves(w.dev, w.staged, step.p, step.crtc);
    hide SetPlaneCrtc, Inv, Duplicated;
  }

  /** Enable flags and modes are as before. */
  ghost predicate SameModes(d: Device, s: Staged, t: Staged) {
    |d.crtcs| == |s.crtcs| == |t.crtcs| &&
    forall c :: 0 <= c < |d.crtcs| ==>
      Crtc(d, t, c).enable == Crtc(d, s, c).enable && Crtc(d, t, c).mode == Crtc(d, s, c).mode
  }

  lemma GetLinkedModes(d: Device, s: Staged, crtc: Option<nat>)
    requires Sized(d, s) && Links(crtc, |d.crtcs|)
    ensures SameModes(d, s, GetLinked(d, s, crtc)) && GetLinked(d, s, crtc).planes == s.planes
    ensures crtc.Some? ==> GetLinked(d, s, crtc).crtcs[crtc.value].Some?
  {
  }

  lemma SetMaskModes(d: Device, s: Staged, c: nat, mask: set<nat>)
    requires Sized(d, s) && c < |s.crtcs| && s.crtcs[c].Some?
    ensures SameModes(d, s, SetMask(s, c, mask))
  {
  }

  lemma SetPlaneModes(d: Device, s: Staged, p: nat, crtc: Option<nat>)
    requires ValidDevice(d) && Sized(d, s) && p < |d.planes| && Links(crtc, |d.crtcs|)
    ensures SameModes(d, s, SetPlaneCrtc(d, s, p, crtc))
  {
    hide GetLinked;
    var s0 := s.(planes := s.planes[p := Some(d.planes[p])]);
    if s.planes[p] == None { GetLinkedModes(d, s0, d.planes[p].crtc); }
    var s1 := GetPlane(d, s, p);
    assert SameModes(d, s, s1);
    var from := s1.planes[p].value.crtc;
    GetLinkedModes(d, s1, from);
    var s2 := GetLinked(d, s1, from);
    if from.Some? { SetMaskModes(d, s2, from.value, s2.crtcs[from.value].value.planeMask - {p}); }
    var s3 := if from.Some? then SetMask(s2, from.value, s2.crtcs[from.value].value.planeMask - {p}) else s2;
    var s4 := s3.(planes := s3.planes[p := Some(s3.planes[p].value.(crtc := crtc))]);
    GetLinkedModes(d, s4, crtc);
    var s5 := GetLinked(d, s4, crtc);
    if crtc.Some? { SetMaskModes(d, s5, crtc.value, s5.crtcs[crtc.value].value.planeMask + {p}); }
  }

  lemma CheckKeepsSetting(w: World, step: Step, x: Setting)
    requires Inv(w) && CanStep(w, step) && step.Check? && Has(w, x) && !MayUndo(w, step, x)
    ensures Has(Next(w, step), x)
  {
    hide Masks, Built, Balanced, Refs, Pairs, AtomicRouting.CheckModeset;
    CheckStepGrows(w, step);
    if x.ConnCrtc? { AtomicRouting.CheckGivesRouting(w.dev, w.staged, step.best, step.fixupOk, x.k); }
    if x.CrtcMode? { assert AtomicRouting.GrowsAt(w.dev, w.staged, Next(w, step).staged, x.c); }
  }

  lemma CommitKeepsSetting(w: World, step: Step, x: Setting)
    requires Inv(w) && CanStep(w, step) && step.Commit? && Has(w, x)
    ensures Has(Next(w, step), x) && (PrepareFails(w.staged, step.ok) || Committed(Next(w, step).dev, x))
  {
    hide Masks, Built, Balanced, Refs, Pairs, PrepareFails;
  }

  lemma StepKeepsSetting(w: World, step: Step, x: Setting)
    requires Inv(w) && CanStep(w, step) && Has(w, x) && !MayUndo(w, step, x)
    ensures Has(Next(w, step), x)
  {
    if step.SetPlane? { SetPlaneKeeps(w, step, x); }
    else if step.Check? { CheckKeepsSetting(w, step, x); }
    else if step.Commit? { CommitKeepsSetting(w, step, x); }
    else if step.GetCrtcState? || step.GetConnectorState? || step.GetPlaneState? { GetAlike(w, step); hide Next, Inv; }
    else { SetKeeps(w, step, x); }
  }

  lemma SetKeeps(w: World, step: Step, x: Setting)
    requires Inv(w) && CanStep(w, step) && Has(w, x) && !MayUndo(w, step, x)
    requires step.SetConnectorCrtc? || step.SetCrtc? || step.SetFb?
    ensures Has(Next(w, step), x)
  {
    hide Masks, Built, Balanced, Refs, Pairs;
  }

  /** No step of the run between i and j may undo the setting. */
  ghost predicate Stands(ws: seq<World>, steps: seq<Step>, i: nat, j: nat, x: Setting) {
    i <= j <= |steps| <= |ws| && forall l :: i <= l < j ==> !MayUndo(ws[l], steps[l], x)
  }

  /** In every run a setting holds from where it was written to where it may be undone. */
  lemma {:induction false} SettingHolds(ws: seq<World>, steps: seq<Step>, i: nat, j: nat, x: Setting)
    requires Run(ws, steps) && i < j < |ws| && Writes(steps[i], x) && Stands(ws, steps, i + 1, j, x)
    ensures Has(ws[j], x)
  {
    hide Inv, CanStep, Next, Has, MayUndo, Writes;
    RunKeepsInv(ws, steps, j - 1);
    if j == i + 1 {
      WriteHas(ws[i], steps[i], x);
    } else {
      SettingHolds(ws, steps, i, j - 1, x);
      StepKeepsSetting(ws[j - 1], steps[j - 1], x);
    }
  }

  /** Last write wins: a commit leaves in the device what was written last. */
  lemma LastWriteWins(ws: seq<World>, steps: seq<Step>, i: nat, j: nat, x: Setting)
    requires Run(ws, steps) && i < j < |steps| && Writes(steps[i], x) && Stands(ws, steps, i + 1, j, x)
    requires steps[j].Commit? && CanStep(ws[j], steps[j]) && !PrepareFails(ws[j].staged, steps[j].ok)
    ensures Committed(ws[j + 1].dev, x)
  {
    hide Inv, Next, Has, PrepareFails, Committed;
    RunKeepsInv(ws, steps, j);
    SettingHolds(ws, steps, i, j, x);
    CommitKeepsSetting(ws[j], steps[j], x);
  }

  /** The step changes the device. */
  ghost predicate Lands(w: World, step: Step) {
    CanStep(w, step) && step.Commit? && !PrepareFails(w.staged, step.ok)
  }

  /** Nothing but a commit whose framebuffers could all be prepared changes the device. */
  lemma {:induction false} DeviceStays(ws: seq<World>, steps: seq<Step>, i: nat, j: nat)
    requires Run(ws, steps) && i <= j < |ws| && forall l :: i <= l < j ==> !Lands(ws[l], steps[l])
    ensures ws[j].dev == ws[i].dev
  {
    hide Inv;
    if i < j {
      DeviceStays(ws, steps, i, j - 1);
      hide PrepareFails, Refs, Pairs;
    }
  }

  /** Throwing the update away brings back the committed configuration. */
  lemma FreeReverts(w: World, x: Setting)
    requires CanStep(w, Free)
    ensures Has(Next(w, Free), x) <==> Committed(w.dev, x)
  {
  }

  // ----- marks and phases -----

  ghost predicate Marked(w: World, c: nat) {
    c < |w.staged.crtcs| && AtomicRouting.Changed(w.staged, c)
  }

  /** A CRTC that a caller marks for a modeset stays marked until the update lands or is thrown away. */
  lemma MarkStays(w: World, step: Step, c: nat)
    requires Inv(w) && CanStep(w, step) && (Marked(w, c) || (step.SetCrtc? && step.c == c && step.changed))
    ensures step.Free? || Lands(w, step) || Marked(Next(w, step), c)
  {
    hide PlanesOk, Built, Balanced, Refs, Pairs, PrepareFails, AtomicRouting.CheckModeset, SetPlaneCrtc;
    if step.Check? {
      CheckStepGrows(w, step);
      assert AtomicRouting.GrowsAt(w.dev, w.staged, Next(w, step).staged, c);
    } else if step.SetPlane? {
      SetPlaneMarks(w.dev, w.staged, step.p, step.crtc, c);
    }
  }

  lemma SetPlaneMarks(d: Device, s: Staged, p: nat, crtc: Option<nat>, c: nat)
    requires ValidDevice(d) && Sized(d, s) && p < |d.planes| && Links(crtc, |d.crtcs|) && c < |d.crtcs|
    ensures AtomicRouting.Changed(s, c) ==> AtomicRouting.Changed(SetPlaneCrtc(d, s, p, crtc), c)
  {
  }

  /** An accepted check allows the commit; after a refused one neither a commit nor another check is possible. */
  lemma CheckAllowsCommit(w: World, step: Step, again: Step)
    requires CanStep(w, step) && step.Check? && (again.Commit? || again.Check?)
    requires again.Commit? ==> |again.ok| == |w.dev.planes|
    ensures CanStep(Next(w, step), again) <==>
            again.Commit? && AtomicRouting.CheckModeset(w.dev, w.staged, step.best, step.fixupOk).Some?
  {
    CheckStepGrows(w, step);
    hide AtomicRouting.CheckModeset, AtomicRouting.GrowsAt, Built, ValidDevice, Links;
  }

  /** A commit lands if and only if every staged plane that shows a framebuffer can be prepared. */
  lemma LandsIff(w: World, ok: seq<bool>)
    requires CanStep(w, Commit(ok))
    ensures Lands(w, Commit(ok)) <==>
            forall p, fb :: 0 <= p < |w.dev.planes| && w.staged.planes[p].Some? && Has(w, PlaneFb(p, Some(fb))) ==>
              ok[p]
  {
    if PrepareFails(w.staged, ok) {
      var p :| 0 <= p < |ok| && !ok[p] && w.staged.planes[p].Some? && w.staged.planes[p].value.fb.Some?;
      assert Has(w, PlaneFb(p, w.staged.planes[p].value.fb));
    }
  }

  /** A commit that cannot prepare its framebuffers changes nothing and may be tried again. */
  lemma CommitMayRetry(w: World, ok: seq<bool>, again: seq<bool>)
    requires CanStep(w, Commit(ok)) && !Lands(w, Commit(ok)) && |again| == |w.dev.planes|
    ensures Next(w, Commit(ok)) == w && CanStep(Next(w, Commit(ok)), Commit(again))
  {
  }

  /** After a commit that lands, or after throwing the update away, a new one can be built and checked. */
  lemma StartsAfresh(w: World, step: Step, best: seq<Option<nat>>, fixupOk: bool)
    requires CanStep(w, step) && (step.Free? || Lands(w, step)) && |best| == |w.dev.conns|
    ensures var n := Next(w, step); n.staged == Empty(n.dev) && CanStep(n, Check(best, fixupOk, n.staged))
  {
    SwapValid(w.dev, w.staged);
    hide ValidDevice, Built, Refs, Pairs, PrepareFails, AtomicRouting.Grows, Swap, Links;
    var n := Next(w, step);
    EmptyBuilt(n.dev);
    AtomicRouting.SameCrtcsGrow(n.dev, n.staged, n.staged);
  }
}
