/**
 The routing half of the atomic check: connectors are given encoders, encoders are stolen from
 the connectors that had them, and CRTCs are checked against the connectors that use them.
 */
module AtomicRouting {
  import opened Options
  import opened Atomic

  // ----- the check, as the code does it -----

  /** mode_changed on a staged CRTC. */
  function MarkChanged(s: Staged, crtc: Option<nat>): (r: Staged)
    requires Covered(s, crtc)
    ensures r.conns == s.conns && r.planes == s.planes && |r.crtcs| == |s.crtcs|
  {
    if crtc.Some? then s.(crtcs := s.crtcs[crtc.value := Some(s.crtcs[crtc.value].value.(modeChanged := true))]) else s
  }

  function SetEnc(s: Staged, k: nat, enc: Option<nat>): (r: Staged)
    requires k < |s.conns| && s.conns[k].Some?
    ensures r.crtcs == s.crtcs && r.planes == s.planes && |r.conns| == |s.conns|
  {
    s.(conns := s.conns[k := Some(s.conns[k].value.(enc := enc))])
  }

  /** get_current_crtc_for_encoder, from connector j on. */
  function CurrentCrtc(d: Device, e: nat, j: nat): (r: Option<nat>)
    requires ValidDevice(d) && j <= |d.conns|
    ensures Links(r, |d.crtcs|)
    decreases |d.conns| - j
  {
    if j == |d.conns| then None
    else if d.conns[j].enc == Some(e) then d.conns[j].crtc
    else CurrentCrtc(d, e, j + 1)
  }

  /** The loop of steal_encoder, from connector j on. */
  function StealFrom(d: Device, s: Staged, e: nat, j: nat): (r: Staged)
    requires ValidDevice(d) && Sized(d, s) && j <= |d.conns|
    ensures Sized(d, r)
    ensures forall c: nat :: Covered(s, Some(c)) ==> Covered(r, Some(c))
    ensures forall k :: 0 <= k < |s.conns| && s.conns[k].Some? && Covered(s, s.conns[k].value.crtc) ==>
              r.conns[k].Some? && Covered(r, r.conns[k].value.crtc)
    decreases |d.conns| - j
  {
    if j == |d.conns| then s
    else if d.conns[j].enc != Some(e) then StealFrom(d, s, e, j + 1)
    else StealFrom(d, SetEnc(SetConnCrtc(d, GetConn(d, s, j), j, None), j, None), e, j + 1)
  }

  function Steal(d: Device, s: Staged, e: nat, crtc: nat): (r: Staged)
    requires ValidDevice(d) && Sized(d, s) && crtc < |d.crtcs|
    ensures Sized(d, r)
    ensures forall k :: 0 <= k < |s.conns| && s.conns[k].Some? && Covered(s, s.conns[k].value.crtc) ==>
              r.conns[k].Some? && Covered(r, r.conns[k].value.crtc)
  {
    StealFrom(d, MarkChanged(GetCrtc(d, s, crtc), Some(crtc)), e, 0)
  }

  /** The first part of update_connector_routing: both CRTCs of a moved connector need a modeset. */
  function NoteMove(d: Device, s: Staged, i: nat): (r: Staged)
    requires ValidDevice(d) && Sized(d, s) && i < |d.conns| && s.conns[i].Some? && ConnCovered(d, s, i)
    ensures Sized(d, r) && r.conns == s.conns
  {
    if d.conns[i].crtc == s.conns[i].value.crtc then s
    else MarkChanged(MarkChanged(s, d.conns[i].crtc), s.conns[i].value.crtc)
  }

  /** The second part: the connector takes over the encoder that the driver has chosen. */
  function TakeEncoder(d: Device, s: Staged, i: nat, e: nat): (r: Staged)
    requires ValidDevice(d) && Sized(d, s) && i < |d.conns| && s.conns[i].Some?
    requires Covered(s, s.conns[i].value.crtc)
    ensures Sized(d, r)
  {
    var owner := CurrentCrtc(d, e, 0);
    var s1 := if owner.Some? then Steal(d, s, e, owner.value) else s;
    MarkChanged(SetEnc(s1, i, Some(e)), s1.conns[i].value.crtc)
  }

  /** update_connector_routing; `best` is what the driver's best_encoder callback returns. */
  function UpdateRouting(d: Device, s: Staged, i: nat, best: Option<nat>): (r: Option<Staged>)
    requires ValidDevice(d) && Sized(d, s) && i < |d.conns| && ConnCovered(d, s, i)
    ensures r.Some? ==> Sized(d, r.value)
  {
    if s.conns[i] == None then Some(s)
    else
      var cs, s1 := s.conns[i].value, NoteMove(d, s, i);
      if cs.crtc == None then Some(SetEnc(s1, i, None))
      else if best == None then None
      else if best == cs.enc then Some(s1)
      else Some(TakeEncoder(d, s1, i, best.value))
  }

  /** The first loop of the check: a changed mode or enable flag needs a modeset. */
  function Compare(d: Device, s: Staged, c: nat): (r: Staged)
    requires Sized(d, s) && c <= |d.crtcs|
    ensures Sized(d, r) && r.conns == s.conns && r.planes == s.planes
    decreases |d.crtcs| - c
  {
    if c == |d.crtcs| then s
    else
      var differs := s.crtcs[c].Some? &&
                     (s.crtcs[c].value.mode != d.crtcs[c].mode || s.crtcs[c].value.enable != d.crtcs[c].enable);
      Compare(d, if differs then MarkChanged(s, Some(c)) else s, c + 1)
  }

  /** drm_atomic_add_affected_connectors, from connector k on. */
  function AddAffected(d: Device, s: Staged, c: nat, k: nat): (r: Staged)
    requires ValidDevice(d) && Sized(d, s) && k <= |d.conns|
    ensures Sized(d, r)
    decreases |d.conns| - k
  {
    if k == |d.conns| then s
    else AddAffected(d, if d.conns[k].crtc == Some(c) then GetConn(d, s, k) else s, c, k + 1)
  }

  /** drm_atomic_connectors_for_crtc over the first k connectors. */
  function CountFor(s: Staged, c: nat, k: nat): nat
    requires k <= |s.conns|
  {
    if k == 0 then 0
    else CountFor(s, c, k - 1) + (if s.conns[k - 1].Some? && s.conns[k - 1].value.crtc == Some(c) then 1 else 0)
  }

  predicate Changed(s: Staged, c: nat)
    requires c < |s.crtcs|
  {
    s.crtcs[c].Some? && s.crtcs[c].value.modeChanged
  }

  /** The last loop of the check: a CRTC is enabled exactly if it has connectors. */
  function Verify(d: Device, s: Staged, c: nat): (r: Option<Staged>)
    requires ValidDevice(d) && Sized(d, s) && c <= |d.crtcs|
    ensures r.Some? ==> Sized(d, r.value)
    decreases |d.crtcs| - c
  {
    if c == |d.crtcs| then Some(s)
    else if !Changed(s, c) then Verify(d, s, c + 1)
    else
      var s1 := AddAffected(d, s, c, 0);
      if s1.crtcs[c].Some? && s1.crtcs[c].value.enable == (CountFor(s1, c, |s1.conns|) > 0)
      then Verify(d, s1, c + 1) else None
  }

  // ----- what an operation leaves alone -----

  /** CRTCs only ever gain: more are staged and flagged, and what they will be set to stays. */
  ghost predicate Grows(d: Device, s: Staged, t: Staged) {
    Sized(d, s) && Sized(d, t) && t.planes == s.planes &&
    forall c :: 0 <= c < |d.crtcs| ==> GrowsAt(d, s, t, c)
  }

  ghost predicate GrowsAt(d: Device, s: Staged, t: Staged, c: nat)
    requires c < |d.crtcs| == |s.crtcs| == |t.crtcs|
  {
    (s.crtcs[c].Some? ==> t.crtcs[c].Some?) && (Changed(s, c) ==> Changed(t, c)) &&
    Crtc(d, t, c).enable == Crtc(d, s, c).enable && Crtc(d, t, c).mode == Crtc(d, s, c).mode &&
    Crtc(d, t, c).planeMask == Crtc(d, s, c).planeMask
  }

  lemma GrowsTrans(d: Device, s: Staged, t: Staged, u: Staged)
    requires Grows(d, s, t) && Grows(d, t, u)
    ensures Grows(d, s, u)
  {
    forall c | 0 <= c < |d.crtcs| ensures GrowsAt(d, s, u, c) {
      assert GrowsAt(d, s, t, c) && GrowsAt(d, t, u, c);
    }
  }

  lemma GrowsCover(d: Device, s: Staged, t: Staged, crtc: Option<nat>)
    requires Grows(d, s, t) && Links(crtc, |d.crtcs|) && Covered(s, crtc)
    ensures Covered(t, crtc)
  {
    if crtc.Some? { assert GrowsAt(d, s, t, crtc.value); }
  }

  lemma MarkGrows(d: Device, s: Staged, crtc: Option<nat>)
    requires Sized(d, s) && Covered(s, crtc) && Links(crtc, |d.crtcs|)
    ensures Grows(d, s, MarkChanged(s, crtc))
    ensures crtc.Some? ==> Changed(MarkChanged(s, crtc), crtc.value)
  {
    forall c | 0 <= c < |d.crtcs| ensures GrowsAt(d, s, MarkChanged(s, crtc), c) { }
  }

  lemma GetLinkedGrows(d: Device, s: Staged, crtc: Option<nat>)
    requires Sized(d, s) && Links(crtc, |d.crtcs|)
    ensures Grows(d, s, GetLinked(d, s, crtc)) && Covered(GetLinked(d, s, crtc), crtc)
    ensures GetLinked(d, s, crtc).conns == s.conns
  {
    forall c | 0 <= c < |d.crtcs| ensures GrowsAt(d, s, GetLinked(d, s, crtc), c) { }
  }

  /** Only the connectors may differ. */
  lemma SameCrtcsGrow(d: Device, s: Staged, t: Staged)
    requires Sized(d, s) && Sized(d, t) && s.crtcs == t.crtcs && s.planes == t.planes
    ensures Grows(d, s, t)
  {
    forall c | 0 <= c < |d.crtcs| ensures GrowsAt(d, s, t, c) { }
  }

  lemma GetConnGrows(d: Device, s: Staged, k: nat)
    requires ValidDevice(d) && Sized(d, s) && k < |d.conns|
    ensures Grows(d, s, GetConn(d, s, k))
    ensures GetConn(d, s, k).conns == s.conns[k := Some(Conn(d, s, k))]
  {
    if s.conns[k].Some? {
      SameCrtcsGrow(d, s, s);
      assert s.conns[k := Some(Conn(d, s, k))] == s.conns;
    } else {
      var s1 := s.(conns := s.conns[k := Some(d.conns[k])]);
      SameCrtcsGrow(d, s, s1);
      GetLinkedGrows(d, s1, d.conns[k].crtc);
      GrowsTrans(d, s, s1, GetConn(d, s, k));
    }
  }

  // ----- what the routing loop computes -----

  /** Connector i is in the update, on, and the driver wants an encoder for it that it does not have. */
  predicate Wants(d: Device, s: Staged, best: seq<Option<nat>>, i: nat)
    requires i < |d.conns| == |s.conns| == |best|
  {
    s.conns[i].Some? && s.conns[i].value.crtc.Some? && best[i].Some? && best[i] != d.conns[i].enc
  }

  /** It still wants it when its turn comes: no earlier connector has taken its own encoder away. */
  predicate Picks(d: Device, s: Staged, best: seq<Option<nat>>, i: nat)
    requires i < |d.conns| == |s.conns| == |best|
  {
    Wants(d, s, best, i) && forall j :: 0 <= j < i && Picks(d, s, best, j) ==> best[j] != d.conns[i].enc
  }

  /** One of the first n connectors picks the encoder that connector i has. */
  ghost predicate Stolen(d: Device, s: Staged, best: seq<Option<nat>>, n: nat, i: nat)
    requires |d.conns| == |s.conns| == |best| && n <= |best| && i < |best|
  {
    exists j :: 0 <= j < n && Picks(d, s, best, j) && best[j] == d.conns[i].enc
  }

  /** Where connector i stands after n turns. */
  ghost function Routed(d: Device, s: Staged, best: seq<Option<nat>>, n: nat, i: nat): ConnState
    requires |d.conns| == |s.conns| == |best| && n <= |best| && i < |best|
  {
    var c := Conn(d, s, i);
    if Stolen(d, s, best, n, i) then ConnState(None, None)
    else if i < n && s.conns[i].Some?
    then c.(enc := if c.crtc == None then None else if Picks(d, s, best, i) then best[i] else c.enc)
    else c
  }

  ghost predicate RoutedAt(d: Device, s: Staged, best: seq<Option<nat>>, n: nat, t: Staged, i: nat)
    requires |d.conns| == |s.conns| == |best| == |t.conns| && n <= |best| && i < |best|
  {
    Conn(d, t, i) == Routed(d, s, best, n, i) &&
    (t.conns[i].Some? <==> s.conns[i].Some? || Stolen(d, s, best, n, i))
  }

  /** The turns so far have not failed: whoever was still on had an encoder chosen. */
  ghost predicate ChosenAt(d: Device, s: Staged, best: seq<Option<nat>>, i: nat)
    requires |d.conns| == |s.conns| == |best| && i < |best|
  {
    s.conns[i].Some? && s.conns[i].value.crtc.Some? && !Stolen(d, s, best, i, i) ==> best[i].Some?
  }

  ghost predicate RoutedAll(d: Device, s: Staged, best: seq<Option<nat>>, n: nat, t: Staged)
    requires |d.conns| == |s.conns| == |best| == |t.conns| && n <= |best|
  {
    (forall i :: 0 <= i < |best| ==> RoutedAt(d, s, best, n, t, i)) &&
    (forall i :: 0 <= i < n ==> ChosenAt(d, s, best, i))
  }

  /** A committed configuration in which encoders and CRTCs of connectors go together and are not shared. */
  ghost predicate RoutingOk(d: Device) {
    (forall k :: 0 <= k < |d.conns| ==> (d.conns[k].enc.Some? <==> d.conns[k].crtc.Some?)) &&
    (forall j, k :: 0 <= j < k < |d.conns| && d.conns[j].enc.Some? ==> d.conns[j].enc != d.conns[k].enc)
  }

  lemma StolenStep(d: Device, s: Staged, best: seq<Option<nat>>, n: nat, i: nat)
    requires |d.conns| == |s.conns| == |best| && n < |best| && i < |best|
    ensures Stolen(d, s, best, n + 1, i) <==>
            Stolen(d, s, best, n, i) || (Picks(d, s, best, n) && best[n] == d.conns[i].enc)
  {
    hide Picks;
    if Picks(d, s, best, n) && best[n] == d.conns[i].enc { }
  }

  /** The steal loop: every connector whose committed encoder is e is turned off, the others stay. */
  lemma {:induction false} StealFromConns(d: Device, s: Staged, e: nat, j: nat, i: nat)
    requires ValidDevice(d) && Sized(d, s) && j <= |d.conns| && i < |d.conns|
    ensures Grows(d, s, StealFrom(d, s, e, j))
    ensures StealFrom(d, s, e, j).conns[i] ==
            if i >= j && d.conns[i].enc == Some(e) then Some(ConnState(None, None)) else s.conns[i]
    decreases |d.conns| - j
  {
    if j == |d.conns| {
      SameCrtcsGrow(d, s, s);
    } else if d.conns[j].enc != Some(e) {
      StealFromConns(d, s, e, j + 1, i);
    } else {
      var s1 := GetConn(d, s, j);
      var s2 := SetEnc(SetConnCrtc(d, s1, j, None), j, None);
      GetConnGrows(d, s, j);
      SameCrtcsGrow(d, s1, s2);
      GrowsTrans(d, s, s1, s2);
      StealFromConns(d, s2, e, j + 1, i);
      GrowsTrans(d, s, s2, StealFrom(d, s, e, j));
    }
  }

  lemma {:induction false} CurrentCrtcIs(d: Device, e: nat, j: nat)
    requires ValidDevice(d) && RoutingOk(d) && j <= |d.conns|
    ensures CurrentCrtc(d, e, j).Some? <==> exists k :: j <= k < |d.conns| && d.conns[k].enc == Some(e)
    ensures forall k :: j <= k < |d.conns| && d.conns[k].enc == Some(e) ==> CurrentCrtc(d, e, j) == d.conns[k].crtc
    decreases |d.conns| - j
  {
    if j < |d.conns| {
      CurrentCrtcIs(d, e, j + 1);
    }
  }

  /** Taking an encoder turns its committed owner off, flags the owner's CRTC and the taker's. */
  lemma TakeEncoderConns(d: Device, s: Staged, i: nat, e: nat, k: nat)
    requires ValidDevice(d) && RoutingOk(d) && Sized(d, s) && i < |d.conns| && k < |d.conns|
    requires s.conns[i].Some? && Covered(s, s.conns[i].value.crtc) && d.conns[i].enc != Some(e)
    ensures var r := TakeEncoder(d, s, i, e);
            Grows(d, s, r) &&
            r.conns[k] == (if d.conns[k].enc == Some(e) then Some(ConnState(None, None))
                           else if k == i then Some(s.conns[i].value.(enc := Some(e))) else s.conns[k]) &&
            (d.conns[k].enc == Some(e) && d.conns[k].crtc.Some? ==> Changed(r, d.conns[k].crtc.value)) &&
            (s.conns[i].value.crtc.Some? ==> Changed(r, s.conns[i].value.crtc.value))
  {
    var owner, r := CurrentCrtc(d, e, 0), TakeEncoder(d, s, i, e);
    CurrentCrtcIs(d, e, 0);
    var s1 := if owner.Some? then Steal(d, s, e, owner.value) else s;
    if owner.Some? {
      StealGrows(d, s, e, owner.value, k);
      StealGrows(d, s, e, owner.value, i);
    } else {
      SameCrtcsGrow(d, s, s);
    }
    hide Steal, CurrentCrtc;
    assert s1.conns[i] == s.conns[i];
    var s2 := SetEnc(s1, i, Some(e));
    SameCrtcsGrow(d, s1, s2);
    GrowsCover(d, s, s1, s.conns[i].value.crtc);
    MarkGrows(d, s2, s1.conns[i].value.crtc);
    GrowsTrans(d, s, s1, s2);
    GrowsTrans(d, s, s2, r);
    if d.conns[k].enc == Some(e) {
      assert owner == d.conns[k].crtc;
      assert Changed(s1, owner.value);
      assert GrowsAt(d, s2, r, owner.value);
    }
  }

  lemma StealGrows(d: Device, s: Staged, e: nat, crtc: nat, k: nat)
    requires ValidDevice(d) && Sized(d, s) && crtc < |d.crtcs| && k < |d.conns|
    ensures Grows(d, s, Steal(d, s, e, crtc)) && Changed(Steal(d, s, e, crtc), crtc)
    ensures Steal(d, s, e, crtc).conns[k] ==
            if d.conns[k].enc == Some(e) then Some(ConnState(None, None)) else s.conns[k]
  {
    var s1 := GetCrtc(d, s, crtc);
    GetLinkedGrows(d, s, Some(crtc));
    assert s1 == GetLinked(d, s, Some(crtc));
    MarkGrows(d, s1, Some(crtc));
    var s2 := MarkChanged(s1, Some(crtc));
    StealFromConns(d, s2, e, 0, k);
    GrowsTrans(d, s, s1, s2);
    GrowsTrans(d, s, s2, Steal(d, s, e, crtc));
    assert GrowsAt(d, s2, Steal(d, s, e, crtc), crtc);
  }

  lemma NoteMoveIs(d: Device, s: Staged, i: nat)
    requires ValidDevice(d) && Sized(d, s) && i < |d.conns| && s.conns[i].Some? && ConnCovered(d, s, i)
    ensures var r := NoteMove(d, s, i);
            Grows(d, s, r) && r.conns == s.conns &&
            (d.conns[i].crtc != s.conns[i].value.crtc ==>
               (d.conns[i].crtc.Some? ==> Changed(r, d.conns[i].crtc.value)) &&
               (s.conns[i].value.crtc.Some? ==> Changed(r, s.conns[i].value.crtc.value)))
  {
    var r := NoteMove(d, s, i);
    if d.conns[i].crtc == s.conns[i].value.crtc {
      SameCrtcsGrow(d, s, s);
    } else {
      var s1 := MarkChanged(s, d.conns[i].crtc);
      MarkGrows(d, s, d.conns[i].crtc);
      GrowsCover(d, s, s1, s.conns[i].value.crtc);
      MarkGrows(d, s1, s.conns[i].value.crtc);
      GrowsTrans(d, s, s1, r);
      if d.conns[i].crtc.Some? { assert GrowsAt(d, s1, r, d.conns[i].crtc.value); }
    }
  }

  // ----- the routing loop -----

  /** Connectors stay covered when CRTCs only grow and no connector is moved. */
  lemma GrowsCovers(d: Device, s: Staged, t: Staged)
    requires ValidDevice(d) && Grows(d, s, t) && ConnsCovered(d, s)
    requires forall k :: 0 <= k < |d.conns| && t.conns[k].Some? ==>
               s.conns[k].Some? && (t.conns[k].value.crtc == s.conns[k].value.crtc || t.conns[k].value.crtc == None)
    ensures ConnsCovered(d, t)
  {
    forall k | 0 <= k < |d.conns|
      ensures ConnCovered(d, t, k)
    {
      assert ConnCovered(d, s, k);
      if t.conns[k].Some? {
        GrowsCover(d, s, t, d.conns[k].crtc);
        GrowsCover(d, s, t, s.conns[k].value.crtc);
      }
    }
  }

  lemma GetConnCovers(d: Device, s: Staged, k: nat)
    requires ValidDevice(d) && Sized(d, s) && ConnsCovered(d, s) && k < |d.conns|
    ensures ConnsCovered(d, GetConn(d, s, k))
  {
    var r := GetConn(d, s, k);
    GetConnGrows(d, s, k);
    forall j | 0 <= j < |d.conns|
      ensures ConnCovered(d, r, j)
    {
      assert ConnCovered(d, s, j);
      if s.conns[j].Some? {
        GrowsCover(d, s, r, d.conns[j].crtc);
        GrowsCover(d, s, r, s.conns[j].value.crtc);
      }
    }
  }

  lemma {:induction false} StealFromCovers(d: Device, s: Staged, e: nat, j: nat)
    requires ValidDevice(d) && Sized(d, s) && ConnsCovered(d, s) && j <= |d.conns|
    ensures ConnsCovered(d, StealFrom(d, s, e, j))
    decreases |d.conns| - j
  {
    if j == |d.conns| {
    } else if d.conns[j].enc != Some(e) {
      StealFromCovers(d, s, e, j + 1);
    } else {
      GetConnCovers(d, s, j);
      var s1 := GetConn(d, s, j);
      var s2 := SetEnc(SetConnCrtc(d, s1, j, None), j, None);
      SameCrtcsGrow(d, s1, s2);
      GrowsCovers(d, s1, s2);
      StealFromCovers(d, s2, e, j + 1);
    }
  }

  lemma TakeEncoderCovers(d: Device, s: Staged, i: nat, e: nat)
    requires ValidDevice(d) && Sized(d, s) && ConnsCovered(d, s) && i < |d.conns| && s.conns[i].Some?
    requires Covered(s, s.conns[i].value.crtc)
    ensures ConnsCovered(d, TakeEncoder(d, s, i, e))
  {
    var owner := CurrentCrtc(d, e, 0);
    var s1 := if owner.Some? then Steal(d, s, e, owner.value) else s;
    if owner.Some? {
      GetLinkedGrows(d, s, owner);
      var g := GetCrtc(d, s, owner.value);
      assert g == GetLinked(d, s, owner);
      GrowsCovers(d, s, g);
      MarkGrows(d, g, owner);
      GrowsCovers(d, g, MarkChanged(g, owner));
      StealFromCovers(d, MarkChanged(g, owner), e, 0);
    }
    var s2 := SetEnc(s1, i, Some(e));
    SameCrtcsGrow(d, s1, s2);
    GrowsCovers(d, s1, s2);
    MarkGrows(d, s2, s1.conns[i].value.crtc);
    GrowsCovers(d, s2, MarkChanged(s2, s1.conns[i].value.crtc));
  }

  lemma UpdateCovers(d: Device, s: Staged, i: nat, best: Option<nat>)
    requires ValidDevice(d) && Sized(d, s) && ConnsCovered(d, s) && i < |d.conns| && ConnCovered(d, s, i)
    ensures UpdateRouting(d, s, i, best).Some? ==> ConnsCovered(d, UpdateRouting(d, s, i, best).value)
  {
    if s.conns[i].Some? {
      var s1 := NoteMove(d, s, i);
      NoteMoveIs(d, s, i);
      GrowsCovers(d, s, s1);
      GrowsCover(d, s, s1, s.conns[i].value.crtc);
      if s.conns[i].value.crtc == None {
        SameCrtcsGrow(d, s1, SetEnc(s1, i, None));
        GrowsCovers(d, s1, SetEnc(s1, i, None));
      } else if best.Some? && best != s.conns[i].value.enc {
        TakeEncoderCovers(d, s1, i, best.value);
      }
    }
  }

  /** The loop over update_connector_routing, from connector i on. */
  function Route(d: Device, s: Staged, best: seq<Option<nat>>, i: nat): (r: Option<Staged>)
    requires ValidDevice(d) && Sized(d, s) && ConnsCovered(d, s) && |best| == |d.conns| && i <= |best|
    ensures r.Some? ==> Sized(d, r.value) && ConnsCovered(d, r.value)
    decreases |best| - i
  {
    if i == |best| then Some(s)
    else
      assert ConnCovered(d, s, i);
      UpdateCovers(d, s, i, best[i]);
      match UpdateRouting(d, s, i, best[i])
      case None => None
      case Some(s1) => Route(d, s1, best, i + 1)
  }

  /** A connector that was moved or turned off by the turns so far has its CRTCs flagged. */
  ghost predicate FlaggedAt(d: Device, s: Staged, best: seq<Option<nat>>, n: nat, t: Staged, k: nat)
    requires |d.conns| == |s.conns| == |best| == |t.conns| && n <= |best| && k < |best| && Sized(d, t) && ValidDevice(d)
  {
    (k < n || Stolen(d, s, best, n, k)) && d.conns[k].crtc != Conn(d, t, k).crtc ==>
      (d.conns[k].crtc.Some? ==> Changed(t, d.conns[k].crtc.value)) &&
      (Conn(d, t, k).crtc.Some? ==> Changed(t, Conn(d, t, k).crtc.value))
  }

  /** Everything known after n turns of the loop. */
  ghost predicate Progress(d: Device, s: Staged, best: seq<Option<nat>>, n: nat, t: Staged) {
    Built(d, s) && RoutingOk(d) && |best| == |d.conns| && n <= |best| && Sized(d, t) && ConnsCovered(d, t) &&
    Grows(d, s, t) && RoutedAll(d, s, best, n, t) &&
    forall k :: 0 <= k < |best| ==> FlaggedAt(d, s, best, n, t, k)
  }

  /** Turn n, for a connector that is not staged or is off. */
  lemma TurnOff(d: Device, s: Staged, best: seq<Option<nat>>, n: nat, t: Staged)
    requires Progress(d, s, best, n, t) && n < |best|
    requires t.conns[n] == None || t.conns[n].value.crtc == None
    ensures ConnCovered(d, t, n) && UpdateRouting(d, t, n, best[n]).Some?
    ensures Progress(d, s, best, n + 1, UpdateRouting(d, t, n, best[n]).value)
  {
    assert RoutedAt(d, s, best, n, t, n) && ConnCovered(d, t, n);
    UpdateCovers(d, t, n, best[n]);
    var u := UpdateRouting(d, t, n, best[n]).value;
    if t.conns[n].Some? {
      NoteMoveIs(d, t, n);
      SameCrtcsGrow(d, NoteMove(d, t, n), u);
      GrowsTrans(d, t, NoteMove(d, t, n), u);
    } else {
      SameCrtcsGrow(d, t, t);
    }
    GrowsTrans(d, s, t, u);
    assert !Picks(d, s, best, n);
    var next := n + 1;
    forall i | 0 <= i < |best|
      ensures RoutedAt(d, s, best, next, u, i) && FlaggedAt(d, s, best, next, u, i)
    {
      assert RoutedAt(d, s, best, n, t, i) && FlaggedAt(d, s, best, n, t, i);
      StolenStep(d, s, best, n, i);
      FlagAfter(d, t, u, i);
    }
    assert ChosenAt(d, s, best, n);
  }

  /** Flags for a connector that is left as it was. */
  lemma FlagAfter(d: Device, t: Staged, u: Staged, k: nat)
    requires ValidDevice(d) && Grows(d, t, u) && k < |d.conns|
    ensures d.conns[k].crtc.Some? && Changed(t, d.conns[k].crtc.value) ==> Changed(u, d.conns[k].crtc.value)
    ensures Conn(d, t, k).crtc.Some? && Changed(t, Conn(d, t, k).crtc.value) ==> Changed(u, Conn(d, t, k).crtc.value)
  {
    if d.conns[k].crtc.Some? { assert GrowsAt(d, t, u, d.conns[k].crtc.value); }
    if Conn(d, t, k).crtc.Some? { assert GrowsAt(d, t, u, Conn(d, t, k).crtc.value); }
  }

  /** Turn n, for a connector that is on: it has not been stolen from, and it fails without an encoder. */
  lemma StillOn(d: Device, s: Staged, best: seq<Option<nat>>, n: nat, t: Staged)
    requires Progress(d, s, best, n, t) && n < |best|
    requires t.conns[n].Some? && t.conns[n].value.crtc.Some?
    ensures s.conns[n].Some? && !Stolen(d, s, best, n, n) && t.conns[n].value == s.conns[n].value
    ensures t.conns[n].value.enc == d.conns[n].enc
    ensures Picks(d, s, best, n) <==> best[n].Some? && best[n] != t.conns[n].value.enc
  {
    assert RoutedAt(d, s, best, n, t, n);
  }

  lemma TurnKeep(d: Device, s: Staged, best: seq<Option<nat>>, n: nat, t: Staged)
    requires Progress(d, s, best, n, t) && n < |best| && ConnCovered(d, t, n)
    requires t.conns[n].Some? && t.conns[n].value.crtc.Some? && best[n].Some? && best[n] == t.conns[n].value.enc
    ensures UpdateRouting(d, t, n, best[n]).Some?
    ensures Progress(d, s, best, n + 1, UpdateRouting(d, t, n, best[n]).value)
  {
    StillOn(d, s, best, n, t);
    UpdateCovers(d, t, n, best[n]);
    var u := NoteMove(d, t, n);
    NoteMoveIs(d, t, n);
    GrowsTrans(d, s, t, u);
    var next := n + 1;
    forall i | 0 <= i < |best|
      ensures RoutedAt(d, s, best, next, u, i) && FlaggedAt(d, s, best, next, u, i)
    {
      assert RoutedAt(d, s, best, n, t, i) && FlaggedAt(d, s, best, n, t, i);
      StolenStep(d, s, best, n, i);
      FlagAfter(d, t, u, i);
    }
    assert ChosenAt(d, s, best, n);
  }

  lemma TurnPick(d: Device, s: Staged, best: seq<Option<nat>>, n: nat, t: Staged)
    requires Progress(d, s, best, n, t) && n < |best| && ConnCovered(d, t, n)
    requires t.conns[n].Some? && t.conns[n].value.crtc.Some? && best[n].Some? && best[n] != t.conns[n].value.enc
    ensures UpdateRouting(d, t, n, best[n]).Some?
    ensures Progress(d, s, best, n + 1, UpdateRouting(d, t, n, best[n]).value)
  {
    StillOn(d, s, best, n, t);
    UpdateCovers(d, t, n, best[n]);
    var m, e := NoteMove(d, t, n), best[n].value;
    NoteMoveIs(d, t, n);
    GrowsCover(d, t, m, t.conns[n].value.crtc);
    var u := TakeEncoder(d, m, n, e);
    TakeEncoderConns(d, m, n, e, n);
    GrowsTrans(d, s, t, m);
    GrowsTrans(d, s, m, u);
    GrowsTrans(d, t, m, u);
    var next := n + 1;
    forall i | 0 <= i < |best|
      ensures RoutedAt(d, s, best, next, u, i) && FlaggedAt(d, s, best, next, u, i)
    {
      assert RoutedAt(d, s, best, n, t, i) && FlaggedAt(d, s, best, n, t, i);
      StolenStep(d, s, best, n, i);
      TakeEncoderConns(d, m, n, e, i);
      hide TakeEncoder, NoteMove, Stolen, Picks;
      FlagAfter(d, t, u, i);
      FlagAfter(d, m, u, i);
    }
    assert ChosenAt(d, s, best, n);
  }

  /** The loop computes the routing described by Picks and Stolen. */
  lemma {:induction false} RouteProgress(d: Device, s: Staged, best: seq<Option<nat>>, n: nat, t: Staged)
    requires Progress(d, s, best, n, t)
    ensures Route(d, t, best, n).Some? ==> Progress(d, s, best, |best|, Route(d, t, best, n).value)
    decreases |best| - n
  {
    if n < |best| {
      assert ConnCovered(d, t, n);
      var r := UpdateRouting(d, t, n, best[n]);
      if t.conns[n] == None || t.conns[n].value.crtc == None {
        TurnOff(d, s, best, n, t);
      } else if best[n].Some? {
        if best[n] == t.conns[n].value.enc { TurnKeep(d, s, best, n, t); } else { TurnPick(d, s, best, n, t); }
      }
      hide Progress, UpdateRouting;
      if r.Some? {
        RouteProgress(d, s, best, n + 1, r.value);
      }
    }
  }

  lemma StartProgress(d: Device, s: Staged, best: seq<Option<nat>>)
    requires Built(d, s) && RoutingOk(d) && |best| == |d.conns|
    ensures Progress(d, s, best, 0, s)
  {
    SameCrtcsGrow(d, s, s);
    forall i | 0 <= i < |best| ensures RoutedAt(d, s, best, 0, s, i) { }
  }

  // ----- the other two loops -----

  /** An unflagged CRTC keeps its mode and its enable flag. */
  ghost predicate Unflagged(d: Device, s: Staged, c: nat)
    requires c < |d.crtcs| == |s.crtcs|
  {
    !Changed(s, c) ==> Crtc(d, s, c).enable == d.crtcs[c].enable && Crtc(d, s, c).mode == d.crtcs[c].mode
  }

  lemma {:induction false} CompareFlags(d: Device, s: Staged, c: nat, b: nat)
    requires Sized(d, s) && c <= |d.crtcs| && b < |d.crtcs|
    ensures Grows(d, s, Compare(d, s, c))
    ensures b >= c ==> Unflagged(d, Compare(d, s, c), b)
    decreases |d.crtcs| - c
  {
    if c == |d.crtcs| {
      SameCrtcsGrow(d, s, s);
    } else {
      var differs := s.crtcs[c].Some? &&
                     (s.crtcs[c].value.mode != d.crtcs[c].mode || s.crtcs[c].value.enable != d.crtcs[c].enable);
      var s1 := if differs then MarkChanged(s, Some(c)) else s;
      if differs { MarkGrows(d, s, Some(c)); } else { SameCrtcsGrow(d, s, s); }
      CompareFlags(d, s1, c + 1, b);
      GrowsTrans(d, s, s1, Compare(d, s1, c + 1));
      if b == c { assert GrowsAt(d, s1, Compare(d, s1, c + 1), c); }
    }
  }

  lemma {:induction false} AddAffectedIs(d: Device, s: Staged, c: nat, k: nat, j: nat)
    requires ValidDevice(d) && Sized(d, s) && c < |d.crtcs| && k <= |d.conns| && j < |d.conns| && s.crtcs[c].Some?
    ensures var r := AddAffected(d, s, c, k);
            r.crtcs == s.crtcs && r.planes == s.planes && Conn(d, r, j) == Conn(d, s, j) &&
            (s.conns[j].Some? ==> r.conns[j].Some?) &&
            (j >= k && d.conns[j].crtc == Some(c) ==> r.conns[j].Some?)
    decreases |d.conns| - k
  {
    if k < |d.conns| {
      var s1 := if d.conns[k].crtc == Some(c) then GetConn(d, s, k) else s;
      GetConnGrows(d, s, k);
      AddAffectedIs(d, s1, c, k + 1, j);
    }
  }

  lemma {:induction false} CountIs(s: Staged, c: nat, k: nat)
    requires k <= |s.conns|
    ensures CountFor(s, c, k) > 0 <==> exists j :: 0 <= j < k && s.conns[j].Some? && s.conns[j].value.crtc == Some(c)
  {
    if k > 0 {
      CountIs(s, c, k - 1);
    }
  }

  /** Some connector uses the CRTC. */
  ghost predicate InUse(d: Device, s: Staged, c: nat)
    requires |d.conns| == |s.conns|
  {
    exists k :: 0 <= k < |d.conns| && Conn(d, s, k).crtc == Some(c)
  }

  lemma AffectedAreCounted(d: Device, s: Staged, c: nat)
    requires ValidDevice(d) && Sized(d, s) && c < |d.crtcs| && s.crtcs[c].Some?
    ensures var r := AddAffected(d, s, c, 0);
            r.crtcs == s.crtcs && r.planes == s.planes &&
            (forall k :: 0 <= k < |d.conns| ==> Conn(d, r, k) == Conn(d, s, k)) &&
            (CountFor(r, c, |r.conns|) > 0 <==> InUse(d, s, c))
  {
    var r := AddAffected(d, s, c, 0);
    forall k | 0 <= k < |d.conns|
      ensures Conn(d, r, k) == Conn(d, s, k)
      ensures Conn(d, r, k).crtc == Some(c) ==> r.conns[k].Some? && r.conns[k].value.crtc == Some(c)
    {
      AddAffectedIs(d, s, c, 0, k);
    }
    if |d.conns| == 0 { } else { AddAffectedIs(d, s, c, 0, 0); }
    CountIs(r, c, |r.conns|);
    hide AddAffected, CountFor;
    if InUse(d, s, c) {
      var k :| 0 <= k < |d.conns| && Conn(d, s, k).crtc == Some(c);
      assert r.conns[k].Some? && r.conns[k].value.crtc == Some(c);
    }
    if j :| 0 <= j < |r.conns| && r.conns[j].Some? && r.conns[j].value.crtc == Some(c) {
      assert Conn(d, r, j).crtc == Some(c);
      assert Conn(d, s, j).crtc == Some(c);
    }
  }

  /** The last loop changes nothing in the merged configuration and checks every flagged CRTC. */
  lemma {:induction false} VerifyIs(d: Device, s: Staged, c: nat)
    requires ValidDevice(d) && Sized(d, s) && c <= |d.crtcs| && Verify(d, s, c).Some?
    ensures var r := Verify(d, s, c).value;
            r.crtcs == s.crtcs && r.planes == s.planes &&
            (forall k :: 0 <= k < |d.conns| ==> Conn(d, r, k) == Conn(d, s, k)) &&
            (forall b :: c <= b < |d.crtcs| && Changed(s, b) ==> (Crtc(d, s, b).enable <==> InUse(d, s, b)))
    decreases |d.crtcs| - c
  {
    if c < |d.crtcs| {
      if !Changed(s, c) {
        VerifyIs(d, s, c + 1);
      } else {
        AffectedAreCounted(d, s, c);
        var s1 := AddAffected(d, s, c, 0);
        VerifyIs(d, s1, c + 1);
        hide AddAffected, CountFor, Verify;
        forall b | 0 <= b < |d.crtcs|
          ensures InUse(d, s1, b) <==> InUse(d, s, b)
          ensures Changed(s1, b) == Changed(s, b) && Crtc(d, s1, b) == Crtc(d, s, b)
        {
          InUseSame(d, s, s1, b);
        }
      }
    }
  }

  lemma InUseSame(d: Device, s: Staged, t: Staged, c: nat)
    requires |d.conns| == |s.conns| == |t.conns| && forall k :: 0 <= k < |d.conns| ==> Conn(d, t, k) == Conn(d, s, k)
    ensures InUse(d, t, c) <==> InUse(d, s, c)
  {
    if InUse(d, s, c) {
      var k :| 0 <= k < |d.conns| && Conn(d, s, k).crtc == Some(c);
      assert Conn(d, t, k).crtc == Some(c);
    }
    if InUse(d, t, c) {
      var k :| 0 <= k < |d.conns| && Conn(d, t, k).crtc == Some(c);
      assert Conn(d, s, k).crtc == Some(c);
    }
  }

  /** Every marked CRTC is enabled exactly if it is used. */
  ghost predicate Matched(d: Device, s: Staged, c: nat)
    requires Sized(d, s)
  {
    forall b :: c <= b < |d.crtcs| && Changed(s, b) ==> (Crtc(d, s, b).enable <==> InUse(d, s, b))
  }

  /** The last loop accepts exactly the updates in which this holds. */
  lemma {:induction false} VerifyIff(d: Device, s: Staged, c: nat)
    requires ValidDevice(d) && Sized(d, s) && c <= |d.crtcs|
    ensures Verify(d, s, c).Some? <==> Matched(d, s, c)
    decreases |d.crtcs| - c
  {
    if c < |d.crtcs| {
      if !Changed(s, c) {
        VerifyIff(d, s, c + 1);
      } else {
        AffectedAreCounted(d, s, c);
        var s1 := AddAffected(d, s, c, 0);
        VerifyIff(d, s1, c + 1);
        hide AddAffected, CountFor, Verify;
        VerifyTurn(d, s, c);
        forall b | 0 <= b < |d.crtcs|
          ensures InUse(d, s1, b) <==> InUse(d, s, b)
          ensures Changed(s1, b) == Changed(s, b) && Crtc(d, s1, b) == Crtc(d, s, b)
        {
          InUseSame(d, s, s1, b);
        }
        hide InUse, Changed, Crtc;
      }
    }
  }

  lemma VerifyTurn(d: Device, s: Staged, c: nat)
    requires ValidDevice(d) && Sized(d, s) && c < |d.crtcs| && Changed(s, c)
    ensures var s1 := AddAffected(d, s, c, 0);
            Verify(d, s, c) == if s1.crtcs[c].Some? && s1.crtcs[c].value.enable == (CountFor(s1, c, |s1.conns|) > 0)
                               then Verify(d, s1, c + 1) else None
  {
  }

  // ----- the whole check -----

  lemma CompareKeepsBuilt(d: Device, s: Staged)
    requires Built(d, s)
    ensures Built(d, Compare(d, s, 0))
  {
    if |d.crtcs| > 0 {
      CompareFlags(d, s, 0, 0);
    } else {
      SameCrtcsGrow(d, s, s);
    }
    GrowsCovers(d, s, Compare(d, s, 0));
  }

  /** drm_atomic_helper_check_modeset; `fixupOk` is the outcome of the mode_fixup callbacks. */
  function CheckModeset(d: Device, s: Staged, best: seq<Option<nat>>, fixupOk: bool): (r: Option<Staged>)
    requires Built(d, s) && |best| == |d.conns|
    ensures r.Some? ==> Sized(d, r.value)
  {
    CompareKeepsBuilt(d, s);
    match Route(d, Compare(d, s, 0), best, 0)
    case None => None
    case Some(t) =>
      match Verify(d, t, 0)
      case None => None
      case Some(u) => if fixupOk then Some(u) else None
  }

  // ----- whatever its outcome, a check only stages and flags CRTCs -----

  lemma TakeEncoderGrows(d: Device, s: Staged, i: nat, e: nat)
    requires ValidDevice(d) && Sized(d, s) && i < |d.conns| && s.conns[i].Some?
    requires Covered(s, s.conns[i].value.crtc)
    ensures Grows(d, s, TakeEncoder(d, s, i, e))
  {
    var owner := CurrentCrtc(d, e, 0);
    var s1 := if owner.Some? then Steal(d, s, e, owner.value) else s;
    if owner.Some? { StealGrows(d, s, e, owner.value, i); } else { SameCrtcsGrow(d, s, s); }
    var s2 := SetEnc(s1, i, Some(e));
    SameCrtcsGrow(d, s1, s2);
    MarkGrows(d, s2, s1.conns[i].value.crtc);
    GrowsTrans(d, s, s1, s2);
    GrowsTrans(d, s, s2, TakeEncoder(d, s, i, e));
  }

  lemma UpdateGrows(d: Device, s: Staged, i: nat, best: Option<nat>)
    requires ValidDevice(d) && Sized(d, s) && i < |d.conns| && ConnCovered(d, s, i)
    ensures UpdateRouting(d, s, i, best).Some? ==> Grows(d, s, UpdateRouting(d, s, i, best).value)
  {
    SameCrtcsGrow(d, s, s);
    if s.conns[i].Some? {
      var s1 := NoteMove(d, s, i);
      NoteMoveIs(d, s, i);
      GrowsCover(d, s, s1, s.conns[i].value.crtc);
      if s.conns[i].value.crtc == None {
        SameCrtcsGrow(d, s1, SetEnc(s1, i, None));
        GrowsTrans(d, s, s1, SetEnc(s1, i, None));
      } else if best.Some? && best != s.conns[i].value.enc {
        TakeEncoderGrows(d, s1, i, best.value);
        GrowsTrans(d, s, s1, TakeEncoder(d, s1, i, best.value));
      }
    }
  }

  lemma {:induction false} RouteGrows(d: Device, s: Staged, best: seq<Option<nat>>, i: nat)
    requires ValidDevice(d) && Sized(d, s) && ConnsCovered(d, s) && |best| == |d.conns| && i <= |best|
    requires Route(d, s, best, i).Some?
    ensures Grows(d, s, Route(d, s, best, i).value)
    decreases |best| - i
  {
    hide UpdateRouting, Grows;
    if i == |best| {
      SameCrtcsGrow(d, s, s);
    } else {
      assert ConnCovered(d, s, i);
      UpdateCovers(d, s, i, best[i]);
      UpdateGrows(d, s, i, best[i]);
      var s1 := UpdateRouting(d, s, i, best[i]).value;
      RouteGrows(d, s1, best, i + 1);
      GrowsTrans(d, s, s1, Route(d, s1, best, i + 1).value);
    }
  }

  lemma {:induction false} CompareGrows(d: Device, s: Staged, c: nat)
    requires Sized(d, s) && c <= |d.crtcs|
    ensures Grows(d, s, Compare(d, s, c))
    decreases |d.crtcs| - c
  {
    if c == |d.crtcs| { SameCrtcsGrow(d, s, s); } else { CompareFlags(d, s, c, c); }
  }

  /** A check that succeeds has moved connectors and encoders, staged CRTCs and flagged some. */
  lemma CheckGrows(d: Device, s: Staged, best: seq<Option<nat>>, fixupOk: bool)
    requires Built(d, s) && |best| == |d.conns| && CheckModeset(d, s, best, fixupOk).Some?
    ensures Grows(d, s, CheckModeset(d, s, best, fixupOk).value)
  {
    hide Grows, Route, Verify, Compare;
    CompareKeepsBuilt(d, s);
    var s1 := Compare(d, s, 0);
    var t := Route(d, s1, best, 0).value;
    var u := Verify(d, t, 0).value;
    CompareGrows(d, s, 0);
    RouteGrows(d, s1, best, 0);
    VerifyIs(d, t, 0);
    SameCrtcsGrow(d, t, u);
    GrowsTrans(d, s, s1, t);
    GrowsTrans(d, s, t, u);
  }

  lemma {:induction false} PicksSame(d: Device, s: Staged, t: Staged, best: seq<Option<nat>>, i: nat)
    requires i < |d.conns| == |s.conns| == |best| && s.conns == t.conns
    ensures Picks(d, s, best, i) == Picks(d, t, best, i)
  {
    forall j | 0 <= j < i ensures Picks(d, s, best, j) == Picks(d, t, best, j) { PicksSame(d, s, t, best, j); }
  }

  lemma RoutedSame(d: Device, s: Staged, t: Staged, best: seq<Option<nat>>, n: nat, i: nat)
    requires |d.conns| == |s.conns| == |best| && n <= |best| && i < |best| && s.conns == t.conns
    ensures Stolen(d, s, best, n, i) == Stolen(d, t, best, n, i)
    ensures Routed(d, s, best, n, i) == Routed(d, t, best, n, i)
  {
    forall j | 0 <= j < |best| ensures Picks(d, s, best, j) == Picks(d, t, best, j) { PicksSame(d, s, t, best, j); }
    hide Picks;
    if Stolen(d, s, best, n, i) {
      var j :| 0 <= j < n && Picks(d, s, best, j) && best[j] == d.conns[i].enc;
      assert Picks(d, t, best, j);
    }
    if Stolen(d, t, best, n, i) {
      var j :| 0 <= j < n && Picks(d, t, best, j) && best[j] == d.conns[i].enc;
      assert Picks(d, s, best, j);
    }
  }

  /** The state after the first two loops of a check that succeeds. */
  lemma CheckRoutes(d: Device, s: Staged, best: seq<Option<nat>>, fixupOk: bool) returns (s1: Staged, t: Staged)
    requires Built(d, s) && RoutingOk(d) && |best| == |d.conns| && CheckModeset(d, s, best, fixupOk).Some?
    ensures s1 == Compare(d, s, 0) && Built(d, s1) && Progress(d, s1, best, |best|, t)
    ensures Verify(d, t, 0) == CheckModeset(d, s, best, fixupOk)
  {
    CompareKeepsBuilt(d, s);
    s1 := Compare(d, s, 0);
    StartProgress(d, s1, best);
    RouteProgress(d, s1, best, 0, s1);
    t := Route(d, s1, best, 0).value;
  }

  /** A successful check leaves every connector where Picks and Stolen put it. */
  lemma CheckGivesRouting(d: Device, s: Staged, best: seq<Option<nat>>, fixupOk: bool, k: nat)
    requires Built(d, s) && RoutingOk(d) && |best| == |d.conns| && k < |best|
    requires CheckModeset(d, s, best, fixupOk).Some?
    ensures Conn(d, CheckModeset(d, s, best, fixupOk).value, k) == Routed(d, s, best, |best|, k)
    ensures Conn(d, CheckModeset(d, s, best, fixupOk).value, k).enc.Some? <==>
            Conn(d, CheckModeset(d, s, best, fixupOk).value, k).crtc.Some?
  {
    var s1, t := CheckRoutes(d, s, best, fixupOk);
    VerifyIs(d, t, 0);
    assert RoutedAt(d, s1, best, |best|, t, k) && ChosenAt(d, s1, best, k);
    RoutedSame(d, s, s1, best, |best|, k);
    hide CheckModeset, Verify, Compare;
    StolenMono(d, s1, best, k);
  }

  lemma StolenMono(d: Device, s: Staged, best: seq<Option<nat>>, k: nat)
    requires |d.conns| == |s.conns| == |best| && k < |best|
    ensures Stolen(d, s, best, k, k) ==> Stolen(d, s, best, |best|, k)
    ensures Wants(d, s, best, k) && !Stolen(d, s, best, k, k) ==> Picks(d, s, best, k)
  {
  }

  // ----- encoders are not shared -----

  /** Two connectors that stay on both take over the same encoder. */
  ghost predicate DoublePick(d: Device, s: Staged, best: seq<Option<nat>>)
    requires |d.conns| == |s.conns| == |best|
  {
    exists i, j :: 0 <= i < j < |best| && Picks(d, s, best, i) && Picks(d, s, best, j) && best[i] == best[j] &&
                   !Stolen(d, s, best, |best|, i) && !Stolen(d, s, best, |best|, j)
  }

  ghost predicate EncodersUnique(d: Device, s: Staged)
    requires |d.conns| == |s.conns|
  {
    forall i, j :: 0 <= i < j < |d.conns| && Conn(d, s, i).enc.Some? ==> Conn(d, s, i).enc != Conn(d, s, j).enc
  }

  /** After a check, each encoder has at most one connector exactly when no two connectors picked the same one. */
  lemma CheckUniqueIff(d: Device, s: Staged, best: seq<Option<nat>>, fixupOk: bool)
    requires Built(d, s) && RoutingOk(d) && |best| == |d.conns| && CheckModeset(d, s, best, fixupOk).Some?
    ensures EncodersUnique(d, CheckModeset(d, s, best, fixupOk).value) <==> !DoublePick(d, s, best)
  {
    var u, n := CheckModeset(d, s, best, fixupOk).value, |best|;
    forall k | 0 <= k < n ensures Conn(d, u, k) == Routed(d, s, best, n, k) {
      CheckGivesRouting(d, s, best, fixupOk, k);
    }
    hide CheckModeset, Picks;
    if DoublePick(d, s, best) {
      var i, j :| 0 <= i < j < n && Picks(d, s, best, i) && Picks(d, s, best, j) && best[i] == best[j] &&
                  !Stolen(d, s, best, n, i) && !Stolen(d, s, best, n, j);
      PickedEncoder(d, s, best, i);
      PickedEncoder(d, s, best, j);
      assert Conn(d, u, i).enc == Conn(d, u, j).enc;
    }
    forall i, j | 0 <= i < j < n && Conn(d, u, i).enc.Some? && Conn(d, u, i).enc == Conn(d, u, j).enc
      ensures DoublePick(d, s, best)
    {
      SharedMeansPicked(d, s, best, i, j);
    }
  }

  lemma PickedEncoder(d: Device, s: Staged, best: seq<Option<nat>>, i: nat)
    requires |d.conns| == |s.conns| == |best| && i < |best| && Picks(d, s, best, i) && !Stolen(d, s, best, |best|, i)
    ensures Routed(d, s, best, |best|, i).enc == best[i] && best[i].Some?
  {
  }

  /** A routed encoder is the committed one, or one that was picked. */
  lemma EncoderOrigin(d: Device, s: Staged, best: seq<Option<nat>>, i: nat)
    requires Built(d, s) && |d.conns| == |best| && i < |best| && Routed(d, s, best, |best|, i).enc.Some?
    ensures !Stolen(d, s, best, |best|, i)
    ensures Routed(d, s, best, |best|, i).enc == if Picks(d, s, best, i) then best[i] else d.conns[i].enc
  {
  }

  lemma SharedMeansPicked(d: Device, s: Staged, best: seq<Option<nat>>, i: nat, j: nat)
    requires Built(d, s) && RoutingOk(d) && |d.conns| == |best| && i < j < |best|
    requires Routed(d, s, best, |best|, i).enc.Some?
    requires Routed(d, s, best, |best|, i).enc == Routed(d, s, best, |best|, j).enc
    ensures DoublePick(d, s, best)
  {
    EncoderOrigin(d, s, best, i);
    EncoderOrigin(d, s, best, j);
    hide Picks, Routed;
    assert Picks(d, s, best, i) && Picks(d, s, best, j);
  }

  lemma MarkedAlready(s: Staged, c: nat)
    requires c < |s.crtcs| && Changed(s, c)
    ensures MarkChanged(s, Some(c)) == s
  {
    assert s.crtcs[c := Some(s.crtcs[c].value.(modeChanged := true))] == s.crtcs;
  }

  /** A connector that was off takes a free encoder on a flagged CRTC. */
  lemma TakesFreeEncoder(d: Device, s: Staged, i: nat, e: nat, c: nat)
    requires ValidDevice(d) && Sized(d, s) && i < |d.conns| && d.conns[i] == ConnState(None, None)
    requires s.conns[i] == Some(ConnState(Some(c), None)) && c < |d.crtcs| && Changed(s, c)
    requires CurrentCrtc(d, e, 0) == None
    ensures ConnCovered(d, s, i) && UpdateRouting(d, s, i, Some(e)) == Some(SetEnc(s, i, Some(e)))
  {
    MarkedAlready(s, c);
    MarkedAlready(SetEnc(s, i, Some(e)), c);
  }

  const OFF: CrtcState := CrtcState(false, 0, false, false, {})
  const ON: CrtcState := CrtcState(true, 1, true, false, {})
  const IDLE: Device := Device([ConnState(None, None), ConnState(None, None)], [OFF, OFF], [])

  /** Two connectors on two CRTCs that are turned on, with the given encoders. */
  function TwoOn(a: Option<nat>, b: Option<nat>): Staged {
    Staged([Some(ConnState(Some(0), a)), Some(ConnState(Some(1), b))], [Some(ON), Some(ON)], [])
  }

  lemma TwoOnBuilt(a: Option<nat>, b: Option<nat>)
    ensures ValidDevice(IDLE) && Sized(IDLE, TwoOn(a, b)) && ConnsCovered(IDLE, TwoOn(a, b))
    ensures Compare(IDLE, TwoOn(a, b), 0) == TwoOn(a, b)
  {
    var s := TwoOn(a, b);
    forall k | 0 <= k < 2 ensures ConnCovered(IDLE, s, k) { }
    MarkedAlready(s, 0);
    MarkedAlready(s, 1);
    assert Compare(IDLE, s, 2) == s;
    assert Compare(IDLE, s, 1) == s;
  }

  lemma TwoOnVerified(a: Option<nat>, b: Option<nat>)
    requires ValidDevice(IDLE) && Sized(IDLE, TwoOn(a, b))
    ensures Verify(IDLE, TwoOn(a, b), 0) == Some(TwoOn(a, b))
  {
    var s := TwoOn(a, b);
    forall c | 0 <= c < 2 ensures AddAffected(IDLE, s, c, 0) == s && CountFor(s, c, 2) > 0 {
      assert AddAffected(IDLE, s, c, 2) == s;
      assert AddAffected(IDLE, s, c, 1) == s;
      assert s.conns[c].value.crtc == Some(c);
      CountIs(s, c, 2);
    }
    hide AddAffected, CountFor;
    assert Verify(IDLE, s, 2) == Some(s);
    assert Verify(IDLE, s, 1) == Some(s);
  }

  lemma TwoOnRouted()
    requires ValidDevice(IDLE) && Sized(IDLE, TwoOn(None, None)) && ConnsCovered(IDLE, TwoOn(None, None))
    ensures Route(IDLE, TwoOn(None, None), [Some(5), Some(5)], 0) == Some(TwoOn(Some(5), Some(5)))
  {
    var best, s0, s1, s2 := [Some(5), Some(5)], TwoOn(None, None), TwoOn(Some(5), None), TwoOn(Some(5), Some(5));
    TwoOnBuilt(Some(5), None);
    TwoOnBuilt(Some(5), Some(5));
    assert CurrentCrtc(IDLE, 5, 2) == None;
    assert CurrentCrtc(IDLE, 5, 1) == None;
    TakesFreeEncoder(IDLE, s0, 0, 5, 0);
    TakesFreeEncoder(IDLE, s1, 1, 5, 1);
    assert SetEnc(s0, 0, Some(5)) == s1 && SetEnc(s1, 1, Some(5)) == s2;
    hide UpdateRouting;
    assert Route(IDLE, s2, best, 2) == Some(s2);
    assert Route(IDLE, s1, best, 1) == Some(s2);
  }

  /** The condition is real: the check accepts an update that gives one encoder to two connectors. */
  lemma OneEncoderForTwo() returns (d: Device, s: Staged, best: seq<Option<nat>>)
    ensures Built(d, s) && RoutingOk(d) && EnableOk(d, Empty(d)) && |best| == |d.conns|
    ensures CheckModeset(d, s, best, true).Some? && !EncodersUnique(d, CheckModeset(d, s, best, true).value)
  {
    d, s, best := IDLE, TwoOn(None, None), [Some(5), Some(5)];
    TwoOnBuilt(None, None);
    TwoOnBuilt(Some(5), Some(5));
    TwoOnRouted();
    TwoOnVerified(Some(5), Some(5));
    hide Route, Verify, Compare;
    assert EnableOk(d, Empty(d));
    assert Conn(d, TwoOn(Some(5), Some(5)), 0).enc == Conn(d, TwoOn(Some(5), Some(5)), 1).enc;
  }

  // ----- CRTCs are enabled exactly if they are used -----

  ghost predicate EnableOk(d: Device, s: Staged)
    requires Sized(d, s)
  {
    forall c :: 0 <= c < |d.crtcs| ==> (Crtc(d, s, c).enable <==> InUse(d, s, c))
  }

  /** An unflagged CRTC is used by the connectors that used it before. */
  lemma UnflaggedUsers(d: Device, s: Staged, best: seq<Option<nat>>, t: Staged, c: nat)
    requires Progress(d, s, best, |best|, t) && c < |d.crtcs| && !Changed(t, c)
    ensures InUse(d, t, c) <==> InUse(d, Empty(d), c)
  {
    forall k | 0 <= k < |d.conns|
      ensures Conn(d, t, k).crtc == Some(c) <==> Conn(d, Empty(d), k).crtc == Some(c)
    {
      assert FlaggedAt(d, s, best, |best|, t, k);
    }
    if InUse(d, t, c) {
      var k :| 0 <= k < |d.conns| && Conn(d, t, k).crtc == Some(c);
      assert Conn(d, Empty(d), k).crtc == Some(c);
    }
    if InUse(d, Empty(d), c) {
      var k :| 0 <= k < |d.conns| && Conn(d, Empty(d), k).crtc == Some(c);
      assert Conn(d, t, k).crtc == Some(c);
    }
  }

  /** A successful check keeps the rule that a CRTC is enabled exactly if some connector uses it. */
  lemma CheckKeepsEnable(d: Device, s: Staged, best: seq<Option<nat>>, fixupOk: bool)
    requires Built(d, s) && RoutingOk(d) && |best| == |d.conns| && CheckModeset(d, s, best, fixupOk).Some?
    requires EnableOk(d, Empty(d))
    ensures EnableOk(d, CheckModeset(d, s, best, fixupOk).value)
  {
    var s1, t := CheckRoutes(d, s, best, fixupOk);
    var u := CheckModeset(d, s, best, fixupOk).value;
    VerifyIs(d, t, 0);
    forall c | 0 <= c < |d.crtcs|
      ensures Crtc(d, u, c).enable <==> InUse(d, u, c)
    {
      InUseSame(d, t, u, c);
      if !Changed(t, c) {
        CompareFlags(d, s, 0, c);
        UnflaggedUsers(d, s1, best, t, c);
        assert GrowsAt(d, s1, t, c);
        assert Crtc(d, Empty(d), c).enable <==> InUse(d, Empty(d), c);
      }
    }
  }

  // ----- whole runs -----

  datatype Update = Update(staged: Staged, best: seq<Option<nat>>, fixupOk: bool)

  /** An update that was built on the device, passes the check and does not give one encoder to two connectors. */
  ghost predicate Accepted(d: Device, up: Update) {
    Built(d, up.staged) && |up.best| == |d.conns| && CheckModeset(d, up.staged, up.best, up.fixupOk).Some? &&
    !DoublePick(d, up.staged, up.best)
  }

  ghost predicate Run(devs: seq<Device>, ups: seq<Update>) {
    |devs| == |ups| + 1 && ValidDevice(devs[0]) && RoutingOk(devs[0]) && EnableOk(devs[0], Empty(devs[0])) &&
    forall i :: 0 <= i < |ups| ==>
      Accepted(devs[i], ups[i]) &&
      devs[i + 1] == Swap(devs[i], CheckModeset(devs[i], ups[i].staged, ups[i].best, ups[i].fixupOk).value)
  }

  /** A merged configuration whose encoders and CRTCs go together, are not shared and are on exactly if used. */
  ghost predicate Settled(d: Device, u: Staged) {
    Sized(d, u) && EncodersUnique(d, u) && EnableOk(d, u) &&
    forall k :: 0 <= k < |d.conns| ==> (Conn(d, u, k).enc.Some? <==> Conn(d, u, k).crtc.Some?)
  }

  /** A check without a double pick leaves an update that may be committed. */
  lemma CheckSettles(d: Device, s: Staged, best: seq<Option<nat>>, fixupOk: bool)
    requires Built(d, s) && RoutingOk(d) && EnableOk(d, Empty(d)) && |best| == |d.conns|
    requires CheckModeset(d, s, best, fixupOk).Some? && !DoublePick(d, s, best)
    ensures Settled(d, CheckModeset(d, s, best, fixupOk).value)
  {
    hide CheckModeset, RoutingOk, EnableOk, DoublePick, EncodersUnique, Routed;
    var u := CheckModeset(d, s, best, fixupOk).value;
    forall k | 0 <= k < |d.conns| ensures Conn(d, u, k).enc.Some? <==> Conn(d, u, k).crtc.Some? {
      CheckGivesRouting(d, s, best, fixupOk, k);
    }
    CheckUniqueIff(d, s, best, fixupOk);
    CheckKeepsEnable(d, s, best, fixupOk);
  }

  lemma SwapKeepsRouting(d: Device, u: Staged)
    requires ValidDevice(d) && Settled(d, u)
    ensures var e := Swap(d, u); ValidDevice(e) && RoutingOk(e) && EnableOk(e, Empty(e))
  {
    var e := Swap(d, u);
    SwapValid(d, u);
    forall c | 0 <= c < |d.crtcs|
      ensures Crtc(e, Empty(e), c).enable <==> InUse(e, Empty(e), c)
    {
      assert Crtc(d, u, c).enable <==> InUse(d, u, c);
      assert forall k :: 0 <= k < |d.conns| ==> Conn(e, Empty(e), k) == Conn(d, u, k);
    }
  }

  /** Every committed configuration of every run has consistent routing. */
  lemma {:induction false} RunKeepsRouting(devs: seq<Device>, ups: seq<Update>, i: nat)
    requires Run(devs, ups) && i < |devs|
    ensures ValidDevice(devs[i]) && RoutingOk(devs[i]) && EnableOk(devs[i], Empty(devs[i]))
  {
    hide CheckModeset, RoutingOk, EnableOk, DoublePick, Swap;
    if i > 0 {
      RunKeepsRouting(devs, ups, i - 1);
      var d, up := devs[i - 1], ups[i - 1];
      CheckSettles(d, up.staged, up.best, up.fixupOk);
      SwapKeepsRouting(d, CheckModeset(d, up.staged, up.best, up.fixupOk).value);
    }
  }

  // ----- the C routines -----

  class AtomicState {
    const d: Device
    const connStates: array<Option<ConnState>>
    const crtcStates: array<Option<CrtcState>>
    ghost const planeStates: seq<Option<PlaneState>>

    ghost function View(): Staged
      reads connStates, crtcStates
    {
      Staged(connStates[..], crtcStates[..], planeStates)
    }

    ghost predicate Valid()
      reads connStates, crtcStates
    {
      ValidDevice(d) && Sized(d, View())
    }

    constructor (d: Device)
      requires ValidDevice(d)
      ensures this.d == d && fresh(connStates) && fresh(crtcStates) && View() == Empty(d) && Built(d, View())
    {
      this.d := d;
      connStates := new Option<ConnState>[|d.conns|](_ => None);
      crtcStates := new Option<CrtcState>[|d.crtcs|](_ => None);
      planeStates := seq(|d.planes|, _ => None);
    }

    method GetCrtcState(c: nat)
      requires Valid() && c < |d.crtcs|
      modifies crtcStates
      ensures Valid() && View() == GetCrtc(d, old(View()), c)
    {
      if crtcStates[c].Some? {
        return;
      }
      crtcStates[c] := Some(Duplicate(d.crtcs[c]));
    }

    method GetConnectorState(k: nat)
      requires Valid() && k < |d.conns|
      modifies connStates, crtcStates
      ensures Valid() && View() == GetConn(d, old(View()), k)
    {
      if connStates[k].Some? {
        return;
      }
      ghost var s := View();
      connStates[k] := Some(d.conns[k]);
      assert View() == s.(conns := s.conns[k := Some(d.conns[k])]);
      if d.conns[k].crtc.Some? {
        GetCrtcState(d.conns[k].crtc.value);
      }
    }

    method SetCrtcForConnector(k: nat, crtc: Option<nat>)
      requires Valid() && k < |d.conns| && connStates[k].Some? && Links(crtc, |d.crtcs|)
      modifies connStates, crtcStates
      ensures Valid() && View() == SetConnCrtc(d, old(View()), k, crtc)
    {
      ghost var s := View();
      if crtc.Some? {
        GetCrtcState(crtc.value);
      }
      ghost var s1 := GetLinked(d, s, crtc);
      assert View() == s1;
      connStates[k] := Some(connStates[k].value.(crtc := crtc));
      assert connStates[..] == s1.conns[k := Some(s1.conns[k].value.(crtc := crtc))];
    }

    method SetModeChanged(c: nat)
      requires Valid() && c < |d.crtcs| && crtcStates[c].Some?
      modifies crtcStates
      ensures Valid() && View() == MarkChanged(old(View()), Some(c))
    {
      crtcStates[c] := Some(crtcStates[c].value.(modeChanged := true));
    }

    method SetBestEncoder(k: nat, enc: Option<nat>)
      requires Valid() && k < |d.conns| && connStates[k].Some?
      modifies connStates
      ensures Valid() && View() == SetEnc(old(View()), k, enc)
    {
      connStates[k] := Some(connStates[k].value.(enc := enc));
    }

    method GetCurrentCrtc(e: nat) returns (r: Option<nat>)
      requires ValidDevice(d)
      ensures r == CurrentCrtc(d, e, 0)
    {
      var j := 0;
      while j < |d.conns|
        invariant 0 <= j <= |d.conns| && CurrentCrtc(d, e, j) == CurrentCrtc(d, e, 0)
      {
        if d.conns[j].enc == Some(e) {
          return d.conns[j].crtc;
        }
        j := j + 1;
      }
      r := None;
    }

    method StealEncoder(e: nat, crtc: nat)
      requires Valid() && crtc < |d.crtcs|
      modifies connStates, crtcStates
      ensures Valid() && View() == Steal(d, old(View()), e, crtc)
    {
      GetCrtcState(crtc);
      SetModeChanged(crtc);
      ghost var final := StealFrom(d, View(), e, 0);
      var j := 0;
      while j < |d.conns|
        invariant 0 <= j <= |d.conns| && Valid() && StealFrom(d, View(), e, j) == final
      {
        if d.conns[j].enc == Some(e) {
          GetConnectorState(j);
          SetCrtcForConnector(j, None);
          SetBestEncoder(j, None);
        }
        j := j + 1;
      }
    }

    method UpdateConnectorRouting(i: nat, best: Option<nat>) returns (ok: bool)
      requires Valid() && i < |d.conns| && ConnCovered(d, View(), i)
      modifies connStates, crtcStates
      ensures Valid() && (ok <==> UpdateRouting(d, old(View()), i, best).Some?)
      ensures ok ==> View() == UpdateRouting(d, old(View()), i, best).value
      ensures !ok ==> Grows(d, old(View()), View())
    {
      hide Steal;
      if connStates[i] == None {
        return true;
      }
      ghost var s := View();
      var cs := connStates[i].value;
      if d.conns[i].crtc != cs.crtc {
        if d.conns[i].crtc.Some? {
          SetModeChanged(d.conns[i].crtc.value);
        }
        if cs.crtc.Some? {
          SetModeChanged(cs.crtc.value);
        }
      }
      assert View() == NoteMove(d, s, i);
      NoteMoveIs(d, s, i);
      if cs.crtc == None {
        SetBestEncoder(i, None);
        return true;
      }
      if best == None {
        return false;
      }
      if best == cs.enc {
        return true;
      }
      ghost var s1 := View();
      assert Covered(s1, s1.conns[i].value.crtc);
      var owner := GetCurrentCrtc(best.value);
      if owner.Some? {
        StealEncoder(best.value, owner.value);
      }
      ghost var s2 := View();
      assert s2.conns[i] == connStates[i] && Covered(s2, s2.conns[i].value.crtc);
      SetBestEncoder(i, best);
      var crtc := connStates[i].value.crtc;
      if crtc.Some? {
        SetModeChanged(crtc.value);
      }
      assert View() == MarkChanged(SetEnc(s2, i, best), s2.conns[i].value.crtc);
      ok := true;
    }

    method AddAffectedConnectors(c: nat)
      requires Valid() && c < |d.crtcs|
      modifies connStates, crtcStates
      ensures Valid() && View() == AddAffected(d, old(View()), c, 0)
    {
      ghost var final := AddAffected(d, View(), c, 0);
      var k := 0;
      while k < |d.conns|
        invariant 0 <= k <= |d.conns| && Valid() && AddAffected(d, View(), c, k) == final
      {
        if d.conns[k].crtc == Some(c) {
          GetConnectorState(k);
        }
        k := k + 1;
      }
    }

    method ConnectorsForCrtc(c: nat) returns (count: nat)
      requires Valid()
      ensures count == CountFor(View(), c, connStates.Length)
    {
      count := 0;
      var k := 0;
      while k < connStates.Length
        invariant 0 <= k <= connStates.Length && count == CountFor(View(), c, k)
      {
        if connStates[k].Some? && connStates[k].value.crtc == Some(c) {
          count := count + 1;
        }
        k := k + 1;
      }
    }

    method CompareLoop()
      requires Valid()
      modifies crtcStates
      ensures Valid() && View() == Compare(d, old(View()), 0)
    {
      ghost var final := Compare(d, View(), 0);
      var c := 0;
      while c < |d.crtcs|
        invariant 0 <= c <= |d.crtcs| && Valid() && Compare(d, View(), c) == final
      {
        if crtcStates[c].Some? {
          if crtcStates[c].value.mode != d.crtcs[c].mode || crtcStates[c].value.enable != d.crtcs[c].enable {
            SetModeChanged(c);
          }
        }
        c := c + 1;
      }
    }

    method VerifyLoop() returns (ok: bool)
      requires Valid()
      modifies connStates, crtcStates
      ensures Valid() && (ok <==> Verify(d, old(View()), 0).Some?)
      ensures ok <==> forall c :: 0 <= c < |d.crtcs| && Changed(old(View()), c) ==>
                (Crtc(d, old(View()), c).enable <==> InUse(d, old(View()), c))
      ensures ok ==> View() == Verify(d, old(View()), 0).value
      ensures Grows(d, old(View()), View())
    {
      ghost var start := View();
      ghost var final := Verify(d, start, 0);
      VerifyIff(d, start, 0);
      var c := 0;
      while c < |d.crtcs|
        invariant 0 <= c <= |d.crtcs| && Valid() && Verify(d, View(), c) == final && View().crtcs == start.crtcs
      {
        if crtcStates[c].Some? && crtcStates[c].value.modeChanged {
          ghost var s := View();
          AffectedAreCounted(d, s, c);
          AddAffectedConnectors(c);
          var count := ConnectorsForCrtc(c);
          assert crtcStates[c] == View().crtcs[c] == s.crtcs[c];
          if crtcStates[c].value.enable != (count > 0) {
            SameCrtcsGrow(d, start, View());
            return false;
          }
        }
        c := c + 1;
      }
      SameCrtcsGrow(d, start, View());
      ok := true;
    }

    method RouteLoop(best: seq<Option<nat>>) returns (ok: bool)
      requires Valid() && ConnsCovered(d, View()) && |best| == |d.conns|
      modifies connStates, crtcStates
      ensures Valid() && (ok <==> Route(d, old(View()), best, 0).Some?)
      ensures ok ==> View() == Route(d, old(View()), best, 0).value
      ensures Grows(d, old(View()), View())
    {
      hide UpdateRouting, Grows;
      ghost var start := View();
      ghost var final := Route(d, start, best, 0);
      SameCrtcsGrow(d, start, start);
      var i := 0;
      while i < |d.conns|
        invariant 0 <= i <= |d.conns| && Valid() && ConnsCovered(d, View()) && Route(d, View(), best, i) == final
        invariant Grows(d, start, View())
      {
        assert ConnCovered(d, View(), i);
        ghost var s := View();
        UpdateCovers(d, s, i, best[i]);
        UpdateGrows(d, s, i, best[i]);
        ok := UpdateConnectorRouting(i, best[i]);
        GrowsTrans(d, start, s, View());
        if !ok {
          return;
        }
        i := i + 1;
      }
      ok := true;
    }

    /** drm_atomic_helper_check_modeset. Where it fails, the update stays as far rewritten as it got. */
    method Check(best: seq<Option<nat>>, fixupOk: bool) returns (ok: bool)
      requires Built(d, View()) && |best| == |d.conns|
      modifies connStates, crtcStates
      ensures Valid() && (ok <==> CheckModeset(d, old(View()), best, fixupOk).Some?)
      ensures ok ==> View() == CheckModeset(d, old(View()), best, fixupOk).value
      ensures Grows(d, old(View()), View())
    {
      hide Route, Verify, Compare, Grows;
      ghost var s0 := View();
      CompareKeepsBuilt(d, s0);
      CompareGrows(d, s0, 0);
      CompareLoop();
      ghost var s1 := View();
      ok := RouteLoop(best);
      ghost var s2 := View();
      GrowsTrans(d, s0, s1, s2);
      if !ok {
        return;
      }
      ok := VerifyLoop();
      GrowsTrans(d, s0, s2, View());
      if !ok {
        return;
      }
      ok := fixupOk;
    }
  }
}
