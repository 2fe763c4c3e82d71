/**
 Which updates the modeset check accepts and which CRTCs it marks for a modeset, told from the update
 and the committed configuration alone.
 */
module AtomicAccept {

  import opened Options
  import opened Atomic
  import opened AtomicRouting

  // ----- the routing loop -----

  /** The loop goes through exactly if whoever is still on at its turn has an encoder chosen. */
  lemma {:induction false} RouteIff(d: Device, s: Staged, best: seq<Option<nat>>, n: nat, t: Staged)
    requires Progress(d, s, best, n, t)
    ensures Route(d, t, best, n).Some? <==> forall i :: n <= i < |best| ==> ChosenAt(d, s, best, i)
    decreases |best| - n
  {
    if n < |best| {
      assert ConnCovered(d, t, n);
      var r := UpdateRouting(d, t, n, best[n]);
      TurnIff(d, s, best, n, t);
      hide Progress, UpdateRouting, ChosenAt;
      if r.Some? { RouteIff(d, s, best, n + 1, r.value); }
    }
  }

  lemma TurnIff(d: Device, s: Staged, best: seq<Option<nat>>, n: nat, t: Staged)
    requires Progress(d, s, best, n, t) && n < |best| && ConnCovered(d, t, n)
    ensures UpdateRouting(d, t, n, best[n]).Some? <==> ChosenAt(d, s, best, n)
    ensures UpdateRouting(d, t, n, best[n]).Some? ==> Progress(d, s, best, n + 1, UpdateRouting(d, t, n, best[n]).value)
  {
    if t.conns[n] == None || t.conns[n].value.crtc == None {
      TurnOff(d, s, best, n, t);
      ChosenSoFar(d, s, best, n, UpdateRouting(d, t, n, best[n]).value);
    } else if best[n].Some? {
      if best[n] == t.conns[n].value.enc { TurnKeep(d, s, best, n, t); } else { TurnPick(d, s, best, n, t); }
      ChosenSoFar(d, s, best, n, UpdateRouting(d, t, n, best[n]).value);
    } else {
      StillOn(d, s, best, n, t);
    }
  }

  lemma ChosenSoFar(d: Device, s: Staged, best: seq<Option<nat>>, n: nat, u: Staged)
    requires n < |best| && Progress(d, s, best, n + 1, u)
    ensures ChosenAt(d, s, best, n)
  {
  }

  // ----- which CRTCs are marked -----

  /** The first loop marks exactly the staged CRTCs whose mode or enable flag changes. */
  ghost predicate Differs(d: Device, s: Staged, c: nat)
    requires c < |d.crtcs| == |s.crtcs|
  {
    s.crtcs[c].Some? && (s.crtcs[c].value.mode != d.crtcs[c].mode || s.crtcs[c].value.enable != d.crtcs[c].enable)
  }

  lemma {:induction false} CompareExact(d: Device, s: Staged, c: nat, b: nat)
    requires Sized(d, s) && c <= |d.crtcs| && b < |d.crtcs|
    ensures Changed(Compare(d, s, c), b) <==> Changed(s, b) || (b >= c && Differs(d, s, b))
    decreases |d.crtcs| - c
  {
    if c < |d.crtcs| {
      CompareExact(d, if Differs(d, s, c) then MarkChanged(s, Some(c)) else s, c + 1, b);
    }
  }

  lemma {:induction false} StealFromMarks(d: Device, s: Staged, e: nat, j: nat, c: nat)
    requires ValidDevice(d) && Sized(d, s) && j <= |d.conns| && c < |d.crtcs|
    ensures Changed(StealFrom(d, s, e, j), c) <==> Changed(s, c)
    decreases |d.conns| - j
  {
    if j == |d.conns| {
    } else if d.conns[j].enc != Some(e) {
      StealFromMarks(d, s, e, j + 1, c);
    } else {
      var s2 := SetEnc(SetConnCrtc(d, GetConn(d, s, j), j, None), j, None);
      GetConnMarks(d, s, j, c);
      StealFromMarks(d, s2, e, j + 1, c);
    }
  }

  /** Staging a connector marks nothing. */
  lemma GetConnMarks(d: Device, s: Staged, k: nat, c: nat)
    requires ValidDevice(d) && Sized(d, s) && k < |d.conns| && c < |d.crtcs|
    ensures Changed(GetConn(d, s, k), c) <==> Changed(s, c)
  {
  }

  lemma TakeEncoderMarks(d: Device, s: Staged, i: nat, e: nat, c: nat)
    requires ValidDevice(d) && RoutingOk(d) && Sized(d, s) && i < |d.conns| && c < |d.crtcs|
    requires s.conns[i].Some? && Covered(s, s.conns[i].value.crtc) && d.conns[i].enc != Some(e)
    ensures Changed(TakeEncoder(d, s, i, e), c) <==>
            Changed(s, c) || CurrentCrtc(d, e, 0) == Some(c) || s.conns[i].value.crtc == Some(c)
  {
    var owner := CurrentCrtc(d, e, 0);
    if owner.Some? {
      StealFromMarks(d, MarkChanged(GetCrtc(d, s, owner.value), owner), e, 0, c);
      StealGrows(d, s, e, owner.value, i);
    }
    hide StealFrom, CurrentCrtc;
  }

  /** Turn i marks CRTC c: its connector leaves it, goes to it, or takes an encoder for it or from it. */
  ghost predicate TurnMarks(d: Device, s: Staged, best: seq<Option<nat>>, i: nat, c: nat)
    requires |d.conns| == |s.conns| == |best| && i < |best|
  {
    var at, was := Routed(d, s, best, i, i).crtc, d.conns[i].crtc;
    (at != was && (at == Some(c) || was == Some(c))) ||
    (Picks(d, s, best, i) && (at == Some(c) || exists k :: HadBy(d, best[i], k, c)))
  }

  /** Connector k has the encoder, on CRTC c. */
  ghost predicate HadBy(d: Device, enc: Option<nat>, k: nat, c: nat) {
    k < |d.conns| && enc.Some? && d.conns[k].enc == enc && d.conns[k].crtc == Some(c)
  }

  lemma NoteMoveMarks(d: Device, t: Staged, n: nat, c: nat)
    requires ValidDevice(d) && Sized(d, t) && n < |d.conns| && t.conns[n].Some? && ConnCovered(d, t, n) && c < |d.crtcs|
    ensures var at, was := t.conns[n].value.crtc, d.conns[n].crtc;
            Changed(NoteMove(d, t, n), c) <==> Changed(t, c) || (at != was && (at == Some(c) || was == Some(c)))
  {
  }

  lemma TurnMarksExactly(d: Device, s: Staged, best: seq<Option<nat>>, n: nat, t: Staged, c: nat)
    requires Progress(d, s, best, n, t) && n < |best| && ConnCovered(d, t, n) && c < |d.crtcs|
    requires UpdateRouting(d, t, n, best[n]).Some?
    ensures Changed(UpdateRouting(d, t, n, best[n]).value, c) <==> Changed(t, c) || TurnMarks(d, s, best, n, c)
  {
    assert RoutedAt(d, s, best, n, t, n);
    hide TakeEncoder;
    if t.conns[n] == None {
      assert !Picks(d, s, best, n);
    } else {
      NoteMoveMarks(d, t, n, c);
      NoteMoveIs(d, t, n);
      if t.conns[n].value.crtc == None {
        assert !Picks(d, s, best, n);
      } else {
        StillOn(d, s, best, n, t);
        if best[n] != t.conns[n].value.enc {
          var m, e := NoteMove(d, t, n), best[n].value;
          GrowsCover(d, t, m, t.conns[n].value.crtc);
          TakeEncoderMarks(d, m, n, e, c);
          OwnerIs(d, e, c);
        }
      }
    }
  }

  lemma OwnerIs(d: Device, e: nat, c: nat)
    requires ValidDevice(d) && RoutingOk(d)
    ensures CurrentCrtc(d, e, 0) == Some(c) <==> exists k :: HadBy(d, Some(e), k, c)
  {
    CurrentCrtcIs(d, e, 0);
    hide CurrentCrtc;
    if CurrentCrtc(d, e, 0) == Some(c) {
      var k :| 0 <= k < |d.conns| && d.conns[k].enc == Some(e);
      assert HadBy(d, Some(e), k, c);
    }
  }

  lemma {:induction false} RouteMarks(d: Device, s: Staged, best: seq<Option<nat>>, n: nat, t: Staged, c: nat)
    requires Progress(d, s, best, n, t) && c < |d.crtcs| && Route(d, t, best, n).Some?
    ensures Changed(Route(d, t, best, n).value, c) <==>
            Changed(t, c) || exists i :: n <= i < |best| && TurnMarks(d, s, best, i, c)
    decreases |best| - n
  {
    if n < |best| {
      assert ConnCovered(d, t, n);
      var r := UpdateRouting(d, t, n, best[n]);
      TurnIff(d, s, best, n, t);
      TurnMarksExactly(d, s, best, n, t, c);
      hide Progress, UpdateRouting, TurnMarks, Changed;
      RouteMarks(d, s, best, n + 1, r.value, c);
    }
  }

  // ----- the whole check -----

  /** CRTC c needs a modeset: it was marked, its mode or enable flag changes, or a connector's turn concerns it. */
  ghost predicate NeedsModeset(d: Device, s: Staged, best: seq<Option<nat>>, c: nat)
    requires c < |d.crtcs| == |s.crtcs| && |d.conns| == |s.conns| == |best|
  {
    Changed(s, c) || Differs(d, s, c) || exists i :: 0 <= i < |best| && TurnMarks(d, s, best, i, c)
  }

  /** Some connector ends on CRTC c. */
  ghost predicate UsedAfter(d: Device, s: Staged, best: seq<Option<nat>>, c: nat)
    requires |d.conns| == |s.conns| == |best|
  {
    exists k :: 0 <= k < |best| && Routed(d, s, best, |best|, k).crtc == Some(c)
  }

  /** What an update must satisfy to be accepted. */
  ghost predicate Acceptable(d: Device, s: Staged, best: seq<Option<nat>>)
    requires Sized(d, s) && |best| == |d.conns|
  {
    (forall i :: 0 <= i < |best| ==> ChosenAt(d, s, best, i)) &&
    forall c :: 0 <= c < |d.crtcs| && NeedsModeset(d, s, best, c) ==>
      (Crtc(d, s, c).enable <==> UsedAfter(d, s, best, c))
  }

  /** None of this depends on the flags that the first loop sets. */
  lemma SameTurns(d: Device, s: Staged, t: Staged, best: seq<Option<nat>>, i: nat, c: nat)
    requires |d.conns| == |s.conns| == |best| && s.conns == t.conns && i < |best|
    ensures ChosenAt(d, s, best, i) <==> ChosenAt(d, t, best, i)
    ensures TurnMarks(d, s, best, i, c) <==> TurnMarks(d, t, best, i, c)
  {
    RoutedSame(d, s, t, best, i, i);
    PicksSame(d, s, t, best, i);
    hide Picks, Stolen, Routed;
  }

  lemma UsedAfterIs(d: Device, s: Staged, s1: Staged, best: seq<Option<nat>>, t: Staged, c: nat)
    requires Progress(d, s1, best, |best|, t) && s.conns == s1.conns
    ensures InUse(d, t, c) <==> UsedAfter(d, s, best, c)
  {
    forall k | 0 <= k < |best| ensures Conn(d, t, k) == Routed(d, s, best, |best|, k) {
      assert RoutedAt(d, s1, best, |best|, t, k);
      RoutedSame(d, s, s1, best, |best|, k);
    }
    hide Progress, Routed;
    if InUse(d, t, c) {
      var k :| 0 <= k < |d.conns| && Conn(d, t, k).crtc == Some(c);
      assert Routed(d, s, best, |best|, k).crtc == Some(c);
    }
    if UsedAfter(d, s, best, c) {
      var k :| 0 <= k < |best| && Routed(d, s, best, |best|, k).crtc == Some(c);
      assert Conn(d, t, k).crtc == Some(c);
    }
  }

  /** After the routing loop, exactly the CRTCs that need it are marked. */
  lemma MarkedIffNeeded(d: Device, s: Staged, best: seq<Option<nat>>, c: nat)
    requires Built(d, s) && RoutingOk(d) && |best| == |d.conns| && c < |d.crtcs|
    requires Built(d, Compare(d, s, 0)) && Route(d, Compare(d, s, 0), best, 0).Some?
    ensures Changed(Route(d, Compare(d, s, 0), best, 0).value, c) <==> NeedsModeset(d, s, best, c)
  {
    var s1 := Compare(d, s, 0);
    StartProgress(d, s1, best);
    CompareExact(d, s, 0, c);
    RouteMarks(d, s1, best, 0, s1, c);
    hide Route, Compare, TurnMarks, Changed, Progress;
    forall i | 0 <= i < |best| ensures TurnMarks(d, s, best, i, c) <==> TurnMarks(d, s1, best, i, c) {
      SameTurns(d, s, s1, best, i, c);
    }
  }

  lemma MatchedIff(d: Device, s: Staged, best: seq<Option<nat>>)
    requires Built(d, s) && RoutingOk(d) && |best| == |d.conns|
    requires Built(d, Compare(d, s, 0)) && Route(d, Compare(d, s, 0), best, 0).Some?
    ensures Matched(d, Route(d, Compare(d, s, 0), best, 0).value, 0) <==>
            forall c :: 0 <= c < |d.crtcs| && NeedsModeset(d, s, best, c) ==>
              (Crtc(d, s, c).enable <==> UsedAfter(d, s, best, c))
  {
    var s1 := Compare(d, s, 0);
    var t := Route(d, s1, best, 0).value;
    CompareGrows(d, s, 0);
    RouteGrows(d, s1, best, 0);
    GrowsTrans(d, s, s1, t);
    StartProgress(d, s1, best);
    RouteProgress(d, s1, best, 0, s1);
    hide Progress, Route, Compare, NeedsModeset, UsedAfter, InUse, Changed;
    forall c | 0 <= c < |d.crtcs|
      ensures Changed(t, c) <==> NeedsModeset(d, s, best, c)
      ensures (Crtc(d, t, c).enable <==> InUse(d, t, c)) <==> (Crtc(d, s, c).enable <==> UsedAfter(d, s, best, c))
    {
      MarkedIffNeeded(d, s, best, c);
      UsedAfterIs(d, s, s1, best, t, c);
      assert GrowsAt(d, s, t, c);
    }
  }

  lemma ChosenIff(d: Device, s: Staged, best: seq<Option<nat>>)
    requires Built(d, s) && RoutingOk(d) && |best| == |d.conns| && Built(d, Compare(d, s, 0))
    ensures Route(d, Compare(d, s, 0), best, 0).Some? <==> forall i :: 0 <= i < |best| ==> ChosenAt(d, s, best, i)
  {
    var s1 := Compare(d, s, 0);
    StartProgress(d, s1, best);
    RouteIff(d, s1, best, 0, s1);
    hide Route, Compare, ChosenAt, Progress;
    forall i | 0 <= i < |best| ensures ChosenAt(d, s, best, i) <==> ChosenAt(d, s1, best, i) {
      SameTurns(d, s, s1, best, i, 0);
    }
  }

  /**
   For every device with consistent routing and every update built on it: the check accepts if and only
   if every connector that is on at its turn has an encoder chosen, every CRTC that needs a modeset is
   enabled exactly if a connector ends on it, and the fixup callbacks agree.
   */
  lemma CheckAcceptsIff(d: Device, s: Staged, best: seq<Option<nat>>, fixupOk: bool)
    requires Built(d, s) && RoutingOk(d) && |best| == |d.conns|
    ensures CheckModeset(d, s, best, fixupOk).Some? <==> Acceptable(d, s, best) && fixupOk
  {
    CompareKeepsBuilt(d, s);
    ChosenIff(d, s, best);
    var s1 := Compare(d, s, 0);
    if Route(d, s1, best, 0).Some? {
      MatchedIff(d, s, best);
      VerifyIff(d, Route(d, s1, best, 0).value, 0);
    }
    hide Route, Compare, Verify, NeedsModeset, UsedAfter, ChosenAt, Matched;
  }

  /** And of an accepted update exactly the CRTCs that need a modeset are marked for one. */
  lemma CheckMarksExactly(d: Device, s: Staged, best: seq<Option<nat>>, fixupOk: bool, c: nat)
    requires Built(d, s) && RoutingOk(d) && |best| == |d.conns| && c < |d.crtcs|
    requires CheckModeset(d, s, best, fixupOk).Some?
    ensures Changed(CheckModeset(d, s, best, fixupOk).value, c) <==> NeedsModeset(d, s, best, c)
  {
    CompareKeepsBuilt(d, s);
    MarkedIffNeeded(d, s, best, c);
    VerifyIs(d, Route(d, Compare(d, s, 0), best, 0).value, 0);
    hide Route, Compare, Verify, NeedsModeset;
  }

  /** On a device whose enable flags match use, no CRTC needs to be looked at twice. */
  lemma CheckAcceptsIffEnabled(d: Device, s: Staged, best: seq<Option<nat>>, fixupOk: bool)
    requires Built(d, s) && RoutingOk(d) && EnableOk(d, Empty(d)) && |best| == |d.conns|
    ensures CheckModeset(d, s, best, fixupOk).Some? <==>
            (forall i :: 0 <= i < |best| ==> ChosenAt(d, s, best, i)) && fixupOk &&
            forall c :: 0 <= c < |d.crtcs| ==> (Crtc(d, s, c).enable <==> UsedAfter(d, s, best, c))
  {
    CheckAcceptsIff(d, s, best, fixupOk);
    if CheckModeset(d, s, best, fixupOk).Some? {
      CheckKeepsEnable(d, s, best, fixupOk);
      var s1, t := CheckRoutes(d, s, best, fixupOk);
      var u := CheckModeset(d, s, best, fixupOk).value;
      VerifyIs(d, t, 0);
      CompareGrows(d, s, 0);
      hide CheckModeset, Verify, Compare, ChosenAt, NeedsModeset, Routed;
      forall c | 0 <= c < |d.crtcs| ensures Crtc(d, s, c).enable <==> UsedAfter(d, s, best, c) {
        UsedAfterIs(d, s, s1, best, t, c);
        InUseSame(d, t, u, c);
        assert GrowsAt(d, s, s1, c) && GrowsAt(d, s1, t, c);
      }
    }
  }
}
