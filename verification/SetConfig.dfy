/**
 The legacy modeset helper: choosing encoders for the connectors of a request, routing them to
 the CRTC, setting the mode, and putting everything back when one of these steps fails.
 */
module SetConfig {

  import opened Options

  datatype Connector = Connector(encoder: Option<nat>, on: bool)

  datatype Crtc = Crtc(enabled: bool, mode: int, x: int, y: int, fb: Option<nat>)

  /** encoders[e] is the CRTC that encoder e is routed to. */
  datatype Config = Config(encoders: seq<Option<nat>>, connectors: seq<Connector>, crtcs: seq<Crtc>)

  ghost predicate Wired(cfg: Config) {
    (forall e :: 0 <= e < |cfg.encoders| && cfg.encoders[e].Some? ==> cfg.encoders[e].value < |cfg.crtcs|) &&
    (forall k :: 0 <= k < |cfg.connectors| && cfg.connectors[k].encoder.Some? ==>
       cfg.connectors[k].encoder.value < |cfg.encoders|)
  }

  ghost predicate EncoderUsed(connectors: seq<Connector>, e: nat) {
    exists k :: 0 <= k < |connectors| && connectors[k].encoder == Some(e)
  }

  ghost predicate Drives(cfg: Config, e: nat, c: nat)
    requires e < |cfg.encoders|
  {
    cfg.encoders[e] == Some(c) && EncoderUsed(cfg.connectors, e)
  }

  /** Some connector reaches the CRTC through its encoder. */
  ghost predicate InUse(cfg: Config, c: nat) {
    exists e :: 0 <= e < |cfg.encoders| && Drives(cfg, e, c)
  }

  /** The answers that setting a mode gets from the allocator and the driver. */
  datatype Answers = Answers(alloc: bool, fixup: seq<bool>, crtcFixup: bool, modeSet: bool)

  ghost predicate Accepted(cfg: Config, c: nat, a: Answers) {
    |a.fixup| == |cfg.encoders| && a.alloc && a.crtcFixup && a.modeSet &&
    forall e :: 0 <= e < |cfg.encoders| && cfg.encoders[e] == Some(c) ==> a.fixup[e]
  }

  /** drm_crtc_helper_set_mode. */
  ghost function AfterSetMode(cfg: Config, c: nat, mode: int, x: int, y: int, a: Answers): Config
    requires c < |cfg.crtcs|
  {
    var crtc := cfg.crtcs[c];
    if !InUse(cfg, c) then cfg.(crtcs := cfg.crtcs[c := crtc.(enabled := false)])
    else if Accepted(cfg, c, a) then cfg.(crtcs := cfg.crtcs[c := Crtc(true, mode, x, y, crtc.fb)])
    else cfg
  }

  /** The last of the first n connectors that uses an encoder. */
  ghost function LastUser(connectors: seq<Connector>, e: nat, n: nat): (r: Option<nat>)
    requires n <= |connectors|
    ensures r.Some? ==> r.value < n && connectors[r.value].encoder == Some(e)
    ensures forall k :: 0 <= k < n && connectors[k].encoder == Some(e) ==> r.Some? && k <= r.value
  {
    if n == 0 then None
    else if connectors[n - 1].encoder == Some(e) then Some(n - 1)
    else LastUser(connectors, e, n - 1)
  }

  /** A request: connectors and, unless the CRTC is to be switched off, a mode and a framebuffer. */
  datatype Request = Request(crtc: nat, mode: Option<int>, x: int, y: int, fb: Option<nat>, members: seq<nat>)

  /** What the driver answers: best encoders, which encoder can feed which CRTC, and how the changes go. */
  datatype Driver = Driver(best: seq<Option<nat>>, possible: seq<set<nat>>, format: nat -> int, hasBase: bool,
                           baseOk: bool, saves: bool, first: Answers, restore: Answers)

  ghost predicate DriverFits(cfg: Config, d: Driver) {
    |d.best| == |cfg.connectors| && |d.possible| == |cfg.encoders| &&
    |d.first.fixup| == |cfg.encoders| && |d.restore.fixup| == |cfg.encoders| &&
    forall k :: 0 <= k < |d.best| && d.best[k].Some? ==> d.best[k].value < |cfg.encoders|
  }

  /** What is asserted of every request on entry. */
  predicate Sane(r: Request) {
    (r.fb.Some? ==> r.mode.Some?) && (r.fb.Some? ==> |r.members| > 0)
  }

  class Modeset {
    var encoders: seq<Option<nat>>
    var connectors: seq<Connector>
    var crtcs: seq<Crtc>

    ghost function Value(): Config
      reads this
    {
      Config(encoders, connectors, crtcs)
    }

    constructor (cfg: Config)
      ensures Value() == cfg
    {
      encoders, connectors, crtcs := cfg.encoders, cfg.connectors, cfg.crtcs;
    }

    /** drm_helper_encoder_in_use. */
    method IsEncoderUsed(e: nat) returns (used: bool)
      ensures used == EncoderUsed(connectors, e)
    {
      var k := 0;
      while k < |connectors|
        invariant 0 <= k <= |connectors| && forall i :: 0 <= i < k ==> connectors[i].encoder != Some(e)
      {
        if connectors[k].encoder == Some(e) { return true; }
        k := k + 1;
      }
      return false;
    }

    /** drm_helper_crtc_in_use. */
    method IsCrtcUsed(c: nat) returns (used: bool)
      ensures used == InUse(Value(), c)
    {
      var e := 0;
      while e < |encoders|
        invariant 0 <= e <= |encoders| && forall i :: 0 <= i < e ==> !Drives(Value(), i, c)
      {
        if encoders[e] == Some(c) {
          used := IsEncoderUsed(e);
          if used {
            assert Drives(Value(), e, c);
            return;
          }
        }
        e := e + 1;
      }
      return false;
    }

    /** The fixups and the mode set of drm_crtc_helper_set_mode. */
    method Program(c: nat, a: Answers) returns (ok: bool)
      requires |a.fixup| == |encoders| && a.alloc
      ensures ok == Accepted(Value(), c, a)
    {
      var e := 0;
      while e < |encoders|
        invariant 0 <= e <= |encoders| && forall i :: 0 <= i < e && encoders[i] == Some(c) ==> a.fixup[i]
      {
        if encoders[e] == Some(c) && !a.fixup[e] { return false; }
        e := e + 1;
      }
      return a.crtcFixup && a.modeSet;
    }

    /** drm_crtc_helper_set_mode. */
    method SetMode(c: nat, mode: int, x: int, y: int, a: Answers) returns (ok: bool)
      requires c < |crtcs| && |a.fixup| == |encoders|
      modifies `crtcs
      ensures Value() == AfterSetMode(old(Value()), c, mode, x, y, a)
      ensures ok == (!InUse(old(Value()), c) || Accepted(old(Value()), c, a))
    {
      ghost var was := Value();
      var saved := crtcs[c];
      var used := IsCrtcUsed(c);
      crtcs := crtcs[c := crtcs[c].(enabled := used)];
      if !used { return true; }
      if !a.alloc {
        crtcs := crtcs[c := crtcs[c].(enabled := saved.enabled)];
        return false;
      }
      crtcs := crtcs[c := crtcs[c].(mode := mode, x := x, y := y)];
      ok := Program(c, a);
      if !ok {
        crtcs := crtcs[c := crtcs[c].(enabled := saved.enabled, mode := saved.mode, x := saved.x, y := saved.y)];
      }
    }

    /**
     The first traversal: connectors of the request get their best encoder, and encoders they leave
     lose their CRTC.
     */
    method PickEncoders(r: Request, d: Driver) returns (changed: bool, fail: bool)
      requires Wired(Value()) && DriverFits(Value(), d)
      modifies `encoders, `connectors
      ensures |encoders| == |old(encoders)| && |connectors| == |old(connectors)|
      ensures forall k :: 0 <= k < |connectors| ==> connectors[k] == Picked(old(connectors)[k], r, d, k)
      ensures forall e :: 0 <= e < |encoders| ==>
                encoders[e] == if Leaves(old(Value()), r, d, e, |connectors|) then None else old(encoders)[e]
      ensures changed <==> NewPick(old(Value()), r, d, |connectors|)
      ensures !changed ==> Value() == old(Value())
      ensures (Value(), changed) == PickUpTo(old(Value()), r, d, |connectors|)
      ensures fail <==> PickFails(r, d, |connectors|)
    {
      changed, fail := false, false;
      var k := 0;
      while k < |connectors|
        invariant 0 <= k <= |connectors| == |old(connectors)| && |encoders| == |old(encoders)|
        invariant (Value(), changed) == PickUpTo(old(Value()), r, d, k)
        invariant fail <==> PickFails(r, d, k)
      {
        PickIs(old(Value()), r, d, k);
        var encoder := connectors[k].encoder;
        if k in r.members {
          encoder := d.best[k];
          if encoder == None { fail := true; }
          if !connectors[k].on { changed := true; }
        }
        if encoder != connectors[k].encoder {
          changed := true;
          if connectors[k].encoder.Some? { encoders := encoders[connectors[k].encoder.value := None]; }
          connectors := connectors[k := connectors[k].(encoder := encoder)];
        }
        k := k + 1;
      }
      PickIs(old(Value()), r, d, k);
    }

    /** The second traversal: encoders of the request's connectors go to its CRTC, others leave it. */
    method RouteEncoders(r: Request, d: Driver) returns (ok: bool, changed: bool)
      requires Wired(Value()) && |d.possible| == |encoders| && r.crtc < |crtcs|
      modifies `encoders
      ensures |encoders| == |old(encoders)| && Wired(Value())
      ensures ok <==> AllPossible(old(Value()), r, d, |connectors|)
      ensures ok ==> forall e :: 0 <= e < |encoders| ==>
                RoutedAt(old(encoders), encoders, connectors, r, e, |connectors|)
      ensures !changed ==> encoders == old(encoders)
      ensures (Value(), ok, changed) == RouteUpTo(old(Value()), r, d, |connectors|)
    {
      hide RoutedAt;
      ok, changed := true, false;
      var k := 0;
      while k < |connectors|
        invariant 0 <= k <= |connectors| && |encoders| == |old(encoders)|
        invariant (Value(), true, changed) == RouteUpTo(old(Value()), r, d, k)
      {
        RouteIs(old(Value()), r, d, k);
        if connectors[k].encoder.Some? {
          var e := connectors[k].encoder.value;
          var crtc := if encoders[e] == Some(r.crtc) then None else encoders[e];
          if k in r.members { crtc := Some(r.crtc); }
          if crtc.Some? && crtc.value !in d.possible[e] {
            RouteStops(old(Value()), r, d, k + 1, |connectors|);
            RouteIs(old(Value()), r, d, |connectors|);
            return false, changed;
          }
          assert encoders[e := encoders[e]] == encoders;
          if crtc != encoders[e] {
            changed := true;
            encoders := encoders[e := crtc];
          }
        }
        k := k + 1;
      }
      RouteIs(old(Value()), r, d, k);
    }

    /** __drm_helper_disable_unused_functions. */
    method DisableUnused()
      modifies `encoders, `crtcs
      ensures |encoders| == |old(encoders)| && |crtcs| == |old(crtcs)|
      ensures forall e :: 0 <= e < |encoders| ==>
                encoders[e] == if EncoderUsed(connectors, e) then old(encoders)[e] else None
      ensures forall c :: 0 <= c < |crtcs| ==> crtcs[c] == Settled(old(crtcs)[c], InUse(old(Value()), c))
      ensures forall c :: 0 <= c < |crtcs| ==> InUse(Value(), c) == InUse(old(Value()), c)
    {
      ghost var was := Value();
      var e := 0;
      while e < |encoders|
        invariant 0 <= e <= |encoders| == |was.encoders| && crtcs == was.crtcs
        invariant forall i :: 0 <= i < e ==> encoders[i] == if EncoderUsed(connectors, i) then was.encoders[i] else None
        invariant forall i :: e <= i < |encoders| ==> encoders[i] == was.encoders[i]
      {
        var used := IsEncoderUsed(e);
        if !used { encoders := encoders[e := None]; }
        e := e + 1;
      }
      ghost var mid := Value();
      forall c: nat ensures InUse(mid, c) == InUse(was, c) { UnusedDoNotCount(was, mid, c); }
      var c := 0;
      while c < |crtcs|
        invariant 0 <= c <= |crtcs| == |was.crtcs| && encoders == mid.encoders
        invariant forall i :: 0 <= i < c ==> crtcs[i] == Settled(was.crtcs[i], InUse(was, i))
        invariant forall i :: c <= i < |crtcs| ==> crtcs[i] == was.crtcs[i]
      {
        var used := IsCrtcUsed(c);
        SameUse(Value(), mid, c);
        crtcs := crtcs[c := crtcs[c].(enabled := used)];
        if !used { crtcs := crtcs[c := crtcs[c].(fb := None)]; }
        c := c + 1;
      }
      forall b | 0 <= b < |crtcs| ensures InUse(Value(), b) == InUse(was, b) { SameUse(Value(), mid, b); }
    }

    /** drm_crtc_helper_disable. */
    method Disable(c: nat)
      requires Wired(Value()) && c < |crtcs|
      modifies this
      ensures |crtcs| == |old(crtcs)| && |connectors| == |old(connectors)|
      ensures forall k :: 0 <= k < |connectors| ==> connectors[k] == Cut(old(Value()), c, k)
      ensures |encoders| == |old(encoders)| && forall e :: 0 <= e < |encoders| ==>
                encoders[e] == if EncoderUsed(connectors, e) then old(encoders)[e] else None
      ensures forall b :: 0 <= b < |crtcs| ==> (InUse(Value(), b) <==> b != c && InUse(old(Value()), b))
      ensures forall b :: 0 <= b < |crtcs| ==> crtcs[b] == Settled(old(crtcs)[b], b != c && InUse(old(Value()), b))
    {
      hide InUse;
      ghost var was := Value();
      var e := 0;
      while e < |encoders|
        invariant 0 <= e <= |encoders| && encoders == was.encoders && crtcs == was.crtcs &&
                  |connectors| == |was.connectors|
        invariant forall k :: 0 <= k < |connectors| ==> connectors[k] == CutBelow(was, c, k, e)
      {
        if encoders[e] == Some(c) {
          var k := 0;
          while k < |connectors|
            invariant 0 <= k <= |connectors| == |was.connectors| && encoders == was.encoders && crtcs == was.crtcs
            invariant forall i :: 0 <= i < |connectors| ==>
                        connectors[i] == if i < k then CutBelow(was, c, i, e + 1) else CutBelow(was, c, i, e)
          {
            if connectors[k].encoder == Some(e) { connectors := connectors[k := Connector(None, false)]; }
            k := k + 1;
          }
        }
        e := e + 1;
      }
      ghost var mid := Value();
      forall b: nat ensures InUse(mid, b) <==> b != c && InUse(was, b) { CutIsolates(was, mid, c, b); }
      DisableUnused();
    }

    /** The failure path of drm_crtc_helper_set_config. */
    method Restore(c: nat, saveEncoders: seq<Option<nat>>, saveConnectors: seq<Connector>, x: int, y: int,
                   changed: bool, a: Answers)
      requires c < |crtcs| && x == crtcs[c].x && y == crtcs[c].y && |a.fixup| == |saveEncoders|
      modifies this
      ensures Value() == Undone(Config(saveEncoders, saveConnectors, old(crtcs)), c, changed, a)
    {
      hide InUse, Accepted;
      ghost var saved := Config(saveEncoders, saveConnectors, crtcs);
      encoders := saveEncoders;
      connectors := saveConnectors;
      assert crtcs[c := crtcs[c]] == crtcs;
      RestoreTouchesEnabled(saved, c, a);
      if changed {
        var restored := SetMode(c, crtcs[c].mode, x, y, a);
      }
    }

    method SwitchOn(members: seq<nat>)
      requires forall i :: 0 <= i < |members| ==> members[i] < |connectors|
      modifies `connectors
      ensures |connectors| == |old(connectors)|
      ensures forall k :: 0 <= k < |connectors| ==> connectors[k].encoder == old(connectors)[k].encoder
      ensures forall k :: 0 <= k < |connectors| ==> connectors[k].on == (old(connectors)[k].on || k in members)
    {
      var i := 0;
      while i < |members|
        invariant 0 <= i <= |members| && |connectors| == |old(connectors)|
        invariant forall k :: 0 <= k < |connectors| ==> connectors[k].encoder == old(connectors)[k].encoder
        invariant forall k :: 0 <= k < |connectors| ==> connectors[k].on == (old(connectors)[k].on || k in members[..i])
      {
        connectors := connectors[members[i] := connectors[members[i]].(on := true)];
        i := i + 1;
      }
    }

    /** How far the request differs from what the CRTC shows. */
    method Compare(r: Request, format: nat -> int) returns (modeChanged: bool, fbChanged: bool)
      requires r.crtc < |crtcs| && r.fb.Some? && r.mode.Some?
      ensures !modeChanged && !fbChanged ==> Shows(crtcs[r.crtc], r)
      ensures !modeChanged ==> crtcs[r.crtc].mode == r.mode.value
      ensures (modeChanged, fbChanged) == Differs(crtcs[r.crtc], r, format)
    {
      var crtc := crtcs[r.crtc];
      modeChanged, fbChanged := false, false;
      if crtc.fb != r.fb {
        if crtc.fb == None {
          modeChanged := true;
        } else if format(r.fb.value) != format(crtc.fb.value) {
          modeChanged := true;
        } else {
          fbChanged := true;
        }
      }
      if r.x != crtc.x || r.y != crtc.y { fbChanged := true; }
      if r.mode.value != crtc.mode { modeChanged := true; }
    }

    /** A full mode set on the routed CRTC, and what is idle is switched off. */
    method FullModeset(r: Request, a: Answers) returns (ok: bool)
      requires r.crtc < |crtcs| && r.fb.Some? && r.mode.Some? && |a.fixup| == |encoders|
      requires forall i :: 0 <= i < |r.members| ==> r.members[i] < |connectors|
      modifies this
      ensures |encoders| == |old(encoders)| && |connectors| == |old(connectors)| && |crtcs| == |old(crtcs)|
      ensures !ok ==> crtcs == old(crtcs)
      ensures ok ==> forall k :: 0 <= k < |connectors| ==> connectors[k].encoder == old(connectors)[k].encoder
      ensures ok ==> forall e :: 0 <= e < |encoders| && EncoderUsed(connectors, e) ==> encoders[e] == old(encoders)[e]
      ensures ok ==> forall c :: 0 <= c < |crtcs| ==> crtcs[c].enabled == InUse(Value(), c)
      ensures ok && InUse(Value(), r.crtc) ==> Shows(crtcs[r.crtc], r)
      ensures ok ==> forall c :: 0 <= c < |crtcs| && c != r.crtc ==>
                crtcs[c] == Settled(old(crtcs)[c], InUse(Value(), c))
      ensures ok ==> forall k :: 0 <= k < |connectors| ==>
                connectors[k].on == (old(connectors)[k].on || (InUse(Value(), r.crtc) && k in r.members))
      ensures ok <==> !InUse(old(Value()), r.crtc) || Accepted(old(Value()), r.crtc, a)
    {
      hide InUse, EncoderUsed, Accepted;
      ghost var was := Value();
      var used := IsCrtcUsed(r.crtc);
      if used {
        var fb := crtcs[r.crtc].fb;
        crtcs := crtcs[r.crtc := crtcs[r.crtc].(fb := r.fb)];
        SameUse(was, Value(), r.crtc);
        SameAnswers(was, Value(), r.crtc, a);
        ok := SetMode(r.crtc, r.mode.value, r.x, r.y, a);
        if !ok {
          crtcs := crtcs[r.crtc := crtcs[r.crtc].(fb := fb)];
          assert crtcs == was.crtcs;
          return;
        }
        SwitchOn(r.members);
      }
      ghost var mid := Value();
      SameRouting(was, mid, r.crtc);
      DisableUnused();
      ok := true;
    }

    /** A flip to another framebuffer or position in the same mode. */
    method Flip(r: Request, baseOk: bool) returns (ok: bool)
      requires r.crtc < |crtcs| && r.mode.Some? && crtcs[r.crtc].mode == r.mode.value
      modifies `crtcs
      ensures ok == baseOk
      ensures !ok ==> crtcs == old(crtcs)
      ensures ok ==> |crtcs| == |old(crtcs)| && Shows(crtcs[r.crtc], r)
      ensures ok ==> forall c :: 0 <= c < |crtcs| && c != r.crtc ==> crtcs[c] == old(crtcs)[c]
    {
      var saved := crtcs[r.crtc];
      crtcs := crtcs[r.crtc := crtcs[r.crtc].(x := r.x, y := r.y, fb := r.fb)];
      if !baseOk {
        crtcs := crtcs[r.crtc := crtcs[r.crtc].(x := saved.x, y := saved.y, fb := saved.fb)];
        assert crtcs == old(crtcs);
        return false;
      }
      return true;
    }

    /** What the routine does before it turns to the hardware; go says whether it gets there. */
    method Arrange(r: Request, d: Driver) returns (go: bool, full: bool, flip: bool, ghost mid: seq<Option<nat>>)
      requires Legal(Value(), r, d) && d.saves
      modifies `encoders, `connectors
      ensures Plan(Value(), go, full, flip) == PlanOf(old(Value()), r, d)
      ensures !full ==> r.mode == Some(crtcs[r.crtc].mode) && (!flip ==> Shows(crtcs[r.crtc], r))
      ensures go ==> forall k :: 0 <= k < |connectors| == |old(connectors)| ==>
                connectors[k].encoder == Picked(old(connectors)[k], r, d, k).encoder
      ensures go ==> forall k :: 0 <= k < |connectors| == |old(connectors)| ==>
                connectors[k].on == old(connectors)[k].on && (!full && k in r.members ==> connectors[k].on)
      ensures go ==> |mid| == |encoders| && forall e :: 0 <= e < |encoders| ==>
                mid[e] == (if Leaves(old(Value()), r, d, e, |connectors|) then None else old(encoders)[e]) &&
                RoutedAt(mid, encoders, connectors, r, e, |connectors|)
    {
      hide PickUpTo, RouteUpTo, PickFails, RoutedAt, Leaves, AllPossible;
      full, flip := Compare(r, d.format);
      var picked, fail := PickEncoders(r, d);
      full, mid := full || picked, encoders;
      if fail {
        return false, full, flip, mid;
      }
      var routed;
      go, routed := RouteEncoders(r, d);
      full := full || routed;
      if go && flip && !d.hasBase { full := true; }
    }

    /** drm_crtc_helper_set_config for a request that shows something. */
    method Show(r: Request, d: Driver) returns (ok: bool)
      requires Legal(Value(), r, d)
      modifies this
      ensures |encoders| == |old(encoders)| && |connectors| == |old(connectors)| && |crtcs| == |old(crtcs)|
      ensures ok <==> !Fails(old(Value()), r, d)
      ensures !ok ==> Value() == AfterFailure(old(Value()), r, d)
      ensures ok ==> forall k :: 0 <= k < |connectors| ==>
                connectors[k].encoder == Picked(old(connectors)[k], r, d, k).encoder
      ensures ok ==> forall e :: 0 <= e < |encoders| ==> EndsUp(encoders, connectors, r, e)
      ensures ok && InUse(Value(), r.crtc) ==> Shows(crtcs[r.crtc], r)
      ensures ok && PlanOf(old(Value()), r, d).full ==> forall c :: 0 <= c < |crtcs| ==>
                crtcs[c].enabled == InUse(Value(), c)
      ensures ok ==> Isolated(old(Value()), Value(), r, d, PlanOf(old(Value()), r, d).full)
      ensures ok && InUse(Value(), r.crtc) ==> forall k :: 0 <= k < |connectors| ==>
                connectors[k].on == (old(connectors)[k].on || k in r.members)
    {
      hide InUse, EncoderUsed, Accepted, LastUser, Undone, EndsUp, RoutedAt, Shows, Leaves, RouteTo, KeepsFeeding;
      hide MemberUses, Settled;
      ghost var was := Value();
      if !d.saves {
        UndoneIff(was, r.crtc, false, d.restore);
        return false;
      }
      var saveEncoders, saveConnectors := encoders, connectors;
      var saveX, saveY := crtcs[r.crtc].x, crtcs[r.crtc].y;
      var full, flip;
      ghost var mid;
      ok, full, flip, mid := Arrange(r, d);
      assert PlanOf(was, r, d) == Plan(Value(), ok, full, flip);
      hide PlanOf;
      ghost var ready := Value();
      if ok && full {
        ok := FullModeset(r, d.first);
      } else if ok && flip {
        ok := Flip(r, d.baseOk);
      }
      if !ok {
        Restore(r.crtc, saveEncoders, saveConnectors, saveX, saveY, full, d.restore);
        return;
      }
      forall e | 0 <= e < |encoders| ensures EndsUp(encoders, connectors, r, e) && EndsOn(was, Value(), r, d, e) {
        EndsUpFrom(mid, ready, Value(), r, e);
        EndsOnFrom(was, mid, ready, Value(), r, d, e);
      }
      forall b | 0 <= b < |crtcs| && b != r.crtc ensures InUse(Value(), b) <==> KeepsFeeding(was, r, d, b) {
        UsedElsewhereIff(was, Value(), r, d, b);
      }
    }

    /** drm_crtc_helper_set_config. Without a framebuffer the CRTC is switched off, which never fails. */
    method Set(r: Request, d: Driver) returns (ok: bool)
      requires Wired(Value()) && DriverFits(Value(), d) && r.crtc < |crtcs| && Sane(r)
      requires forall i :: 0 <= i < |r.members| ==> r.members[i] < |connectors|
      modifies this
      ensures ok <==> r.fb == None || !Fails(old(Value()), r, d)
      ensures !ok ==> Value() == AfterFailure(old(Value()), r, d)
      ensures !ok && old(crtcs)[r.crtc].enabled == InUse(old(Value()), r.crtc) ==> Value() == old(Value())
      ensures r.fb == None ==> |crtcs| == |old(crtcs)| && !InUse(Value(), r.crtc) && !crtcs[r.crtc].enabled &&
                               crtcs[r.crtc].fb == None
      ensures r.fb == None ==> forall b :: 0 <= b < |crtcs| && b != r.crtc ==>
                (InUse(Value(), b) <==> InUse(old(Value()), b)) &&
                crtcs[b] == Settled(old(crtcs)[b], InUse(old(Value()), b))
      ensures r.fb == None ==> |connectors| == |old(connectors)| && forall k :: 0 <= k < |connectors| ==>
                var conn := old(connectors)[k];
                connectors[k] == if conn.encoder.Some? && old(encoders)[conn.encoder.value] == Some(r.crtc)
                                 then Connector(None, false) else conn
      ensures r.fb == None ==> |encoders| == |old(encoders)| && forall e :: 0 <= e < |encoders| ==>
                encoders[e] == if EncoderUsed(connectors, e) then old(encoders)[e] else None
      ensures r.fb.Some? && ok ==> |crtcs| == |old(crtcs)| && (InUse(Value(), r.crtc) ==> Shows(crtcs[r.crtc], r))
      ensures r.fb.Some? && ok ==> forall e :: 0 <= e < |encoders| ==> EndsUp(encoders, connectors, r, e)
      ensures r.fb.Some? && ok ==> Isolated(old(Value()), Value(), r, d, PlanOf(old(Value()), r, d).full)
    {
      hide InUse, EncoderUsed, Accepted, LastUser, Fails, Undone, Isolated;
      if r.fb == None {
        Disable(r.crtc);
        return true;
      }
      ok := Show(r, d);
      if !ok { UndoneIff(old(Value()), r.crtc, PlanOf(old(Value()), r, d).full, d.restore); }
    }
  }

  // ----- how a call goes -----

  /** One turn of the first traversal, and whether it changed anything or found a connector that is not on. */
  function PickTurn(cfg: Config, r: Request, d: Driver, k: nat): (Config, bool)
    requires k < |cfg.connectors| == |d.best|
  {
    var conn := cfg.connectors[k];
    var encoder := if k in r.members then d.best[k] else conn.encoder;
    var off := k in r.members && !conn.on;
    if encoder == conn.encoder then (cfg, off)
    else
      (cfg.(connectors := cfg.connectors[k := conn.(encoder := encoder)],
            encoders := if conn.encoder.Some? && conn.encoder.value < |cfg.encoders|
                        then cfg.encoders[conn.encoder.value := None] else cfg.encoders), true)
  }

  /** The first traversal over the first n connectors. */
  function PickUpTo(cfg: Config, r: Request, d: Driver, n: nat): (p: (Config, bool))
    requires n <= |cfg.connectors| == |d.best|
    ensures |p.0.connectors| == |cfg.connectors| && |p.0.encoders| == |cfg.encoders| && p.0.crtcs == cfg.crtcs
  {
    if n == 0 then (cfg, false)
    else
      var (before, changed) := PickUpTo(cfg, r, d, n - 1);
      var (now, more) := PickTurn(before, r, d, n - 1);
      (now, changed || more)
  }

  /** The configuration after the first n turns of the first traversal. */
  ghost predicate PickedTo(cfg: Config, now: Config, r: Request, d: Driver, n: nat)
    requires n <= |cfg.connectors| == |d.best|
  {
    |now.connectors| == |cfg.connectors| && |now.encoders| == |cfg.encoders| && now.crtcs == cfg.crtcs &&
    (forall k :: 0 <= k < |cfg.connectors| ==>
       now.connectors[k] == if k < n then Picked(cfg.connectors[k], r, d, k) else cfg.connectors[k]) &&
    (forall e :: 0 <= e < |cfg.encoders| ==>
       now.encoders[e] == if Leaves(cfg, r, d, e, n) then None else cfg.encoders[e])
  }

  lemma PickTurnIs(cfg: Config, before: Config, r: Request, d: Driver, k: nat, n: nat)
    requires Wired(cfg) && DriverFits(cfg, d) && n == k + 1 <= |cfg.connectors| && PickedTo(cfg, before, r, d, k)
    ensures var (now, more) := PickTurn(before, r, d, k);
            PickedTo(cfg, now, r, d, n) && (!more ==> now == before) &&
            (more <==> k in r.members && (d.best[k] != cfg.connectors[k].encoder || !cfg.connectors[k].on))
  {
    var (now, more) := PickTurn(before, r, d, k);
    assert before.connectors[k] == cfg.connectors[k];
    forall e | 0 <= e < |cfg.encoders|
      ensures now.encoders[e] == if Leaves(cfg, r, d, e, n) then None else cfg.encoders[e]
    {
      LeavesStep(cfg, r, d, e, n);
      hide Leaves;
    }
  }

  /** The first traversal in closed form. */
  lemma {:induction false} PickIs(cfg: Config, r: Request, d: Driver, n: nat)
    requires Wired(cfg) && DriverFits(cfg, d) && n <= |cfg.connectors|
    ensures var (now, changed) := PickUpTo(cfg, r, d, n);
            PickedTo(cfg, now, r, d, n) && (changed <==> NewPick(cfg, r, d, n)) && (!changed ==> now == cfg)
  {
    hide PickTurn, Wired;
    if n > 0 {
      hide PickedTo;
      PickIs(cfg, r, d, n - 1);
      PickTurnIs(cfg, PickUpTo(cfg, r, d, n - 1).0, r, d, n - 1, n);
    }
  }

  /** One of the first n connectors is in the request and leaves the encoder for another one. */
  ghost predicate Leaves(cfg: Config, r: Request, d: Driver, e: nat, n: nat)
    requires n <= |cfg.connectors| == |d.best|
  {
    exists k :: 0 <= k < n && k in r.members && cfg.connectors[k].encoder == Some(e) && d.best[k] != Some(e)
  }

  lemma LeavesStep(cfg: Config, r: Request, d: Driver, e: nat, n: nat)
    requires 0 < n <= |cfg.connectors| == |d.best|
    ensures Leaves(cfg, r, d, e, n) <==>
            Leaves(cfg, r, d, e, n - 1) ||
            (n - 1 in r.members && cfg.connectors[n - 1].encoder == Some(e) && d.best[n - 1] != Some(e))
  {
  }

  /** One of the first n connectors is in the request and is not on or gets another encoder. */
  ghost predicate NewPick(cfg: Config, r: Request, d: Driver, n: nat)
    requires n <= |cfg.connectors| == |d.best|
  {
    exists k :: 0 <= k < n && k in r.members && (d.best[k] != cfg.connectors[k].encoder || !cfg.connectors[k].on)
  }

  /** Some connector of the request has no encoder. */
  predicate PickFails(r: Request, d: Driver, n: nat)
    requires n <= |d.best|
  {
    exists k :: 0 <= k < n && k in r.members && d.best[k] == None
  }

  /** One turn of the second traversal: the new configuration, whether it may go on, and whether it changed anything. */
  function RouteTurn(cfg: Config, r: Request, d: Driver, k: nat): (Config, bool, bool)
    requires k < |cfg.connectors| && |d.possible| == |cfg.encoders|
  {
    var encoder := cfg.connectors[k].encoder;
    if encoder == None || encoder.value >= |cfg.encoders| then (cfg, true, false)
    else
      var e := encoder.value;
      var crtc := if k in r.members then Some(r.crtc)
                  else if cfg.encoders[e] == Some(r.crtc) then None else cfg.encoders[e];
      if crtc.Some? && crtc.value !in d.possible[e] then (cfg, false, false)
      else (cfg.(encoders := cfg.encoders[e := crtc]), true, crtc != cfg.encoders[e])
  }

  /** The second traversal over the first n connectors; it stops where it fails. */
  function RouteUpTo(cfg: Config, r: Request, d: Driver, n: nat): (p: (Config, bool, bool))
    requires n <= |cfg.connectors| && |d.possible| == |cfg.encoders|
    ensures |p.0.connectors| == |cfg.connectors| && |p.0.encoders| == |cfg.encoders| && p.0.crtcs == cfg.crtcs
  {
    if n == 0 then (cfg, true, false)
    else
      var (before, ok, changed) := RouteUpTo(cfg, r, d, n - 1);
      if !ok then (before, false, changed)
      else
        var (now, go, more) := RouteTurn(before, r, d, n - 1);
        (now, go, changed || more)
  }

  /** The second traversal: where each encoder goes depends on its last user so far. */
  lemma {:induction false} RouteIs(cfg: Config, r: Request, d: Driver, n: nat)
    requires Wired(cfg) && n <= |cfg.connectors| && |d.possible| == |cfg.encoders| && r.crtc < |cfg.crtcs|
    ensures var (now, ok, changed) := RouteUpTo(cfg, r, d, n);
            Wired(now) && now.connectors == cfg.connectors && (!changed ==> now == cfg) &&
            (ok <==> AllPossible(cfg, r, d, n)) &&
            (ok ==> forall e :: 0 <= e < |cfg.encoders| ==>
              RoutedAt(cfg.encoders, now.encoders, cfg.connectors, r, e, n))
  {
    hide RoutedAt, Possible, RouteTurn;
    if n == 0 {
      RouteNothing(cfg, r);
    } else {
      RouteIs(cfg, r, d, n - 1);
      var (before, ok, changed) := RouteUpTo(cfg, r, d, n - 1);
      if ok { RouteTurnIs(cfg, before, r, d, n - 1, n); }
    }
  }

  lemma RouteNothing(cfg: Config, r: Request)
    ensures forall e :: 0 <= e < |cfg.encoders| ==> RoutedAt(cfg.encoders, cfg.encoders, cfg.connectors, r, e, 0)
  {
  }

  lemma RouteTurnIs(cfg: Config, before: Config, r: Request, d: Driver, k: nat, n: nat)
    requires Wired(before) && n == k + 1 <= |cfg.connectors| && |d.possible| == |cfg.encoders| == |before.encoders|
    requires before.connectors == cfg.connectors && r.crtc < |before.crtcs|
    requires forall e :: 0 <= e < |cfg.encoders| ==> RoutedAt(cfg.encoders, before.encoders, cfg.connectors, r, e, k)
    ensures var (now, go, more) := RouteTurn(before, r, d, k);
            Wired(now) && now.connectors == cfg.connectors && (!more ==> now == before) &&
            (go <==> Possible(cfg, r, d, k, n)) &&
            (go ==> forall e :: 0 <= e < |cfg.encoders| ==>
              RoutedAt(cfg.encoders, now.encoders, cfg.connectors, r, e, n))
  {
    var (now, go, more) := RouteTurn(before, r, d, k);
    if !more { assert now.encoders == before.encoders; }
    var enc := cfg.connectors[k].encoder;
    hide RouteTo;
    if enc.Some? {
      assert RoutedAt(cfg.encoders, before.encoders, cfg.connectors, r, enc.value, k);
      RouteToStep(cfg.encoders[enc.value], cfg.connectors, r, enc.value, k, n);
    }
    if go {
      forall e | 0 <= e < |cfg.encoders| ensures RoutedAt(cfg.encoders, now.encoders, cfg.connectors, r, e, n) {
        assert RoutedAt(cfg.encoders, before.encoders, cfg.connectors, r, e, k);
        RouteToStep(cfg.encoders[e], cfg.connectors, r, e, k, n);
      }
    }
  }

  lemma {:induction false} RouteStops(cfg: Config, r: Request, d: Driver, k: nat, n: nat)
    requires k <= n <= |cfg.connectors| && |d.possible| == |cfg.encoders| && !RouteUpTo(cfg, r, d, k).1
    ensures RouteUpTo(cfg, r, d, n) == RouteUpTo(cfg, r, d, k)
  {
    if k < n { RouteStops(cfg, r, d, k, n - 1); }
  }

  /** Whether the request needs a full mode set, and whether it needs a flip. */
  function Differs(crtc: Crtc, r: Request, format: nat -> int): (bool, bool)
    requires r.fb.Some? && r.mode.Some?
  {
    var other := crtc.fb != r.fb;
    var full := other && (crtc.fb == None || format(r.fb.value) != format(crtc.fb.value));
    (full || r.mode.value != crtc.mode, (other && !full) || r.x != crtc.x || r.y != crtc.y)
  }

  /** A request that shows something, and a driver that answers for the device. */
  ghost predicate Legal(cfg: Config, r: Request, d: Driver) {
    Wired(cfg) && DriverFits(cfg, d) && r.crtc < |cfg.crtcs| && r.fb.Some? && Sane(r) &&
    forall i :: 0 <= i < |r.members| ==> r.members[i] < |cfg.connectors|
  }

  /** Where a call stands before it turns to the hardware: what is routed, whether it goes on, and how. */
  datatype Plan = Plan(cfg: Config, ok: bool, full: bool, flip: bool)

  ghost function PlanOf(cfg: Config, r: Request, d: Driver): (p: Plan)
    requires Legal(cfg, r, d)
    ensures |p.cfg.connectors| == |cfg.connectors| && |p.cfg.encoders| == |cfg.encoders| && p.cfg.crtcs == cfg.crtcs
  {
    if !d.saves then Plan(cfg, false, false, false)
    else
      var (full, flip) := Differs(cfg.crtcs[r.crtc], r, d.format);
      var (picked, moved) := PickUpTo(cfg, r, d, |cfg.connectors|);
      if PickFails(r, d, |cfg.connectors|) then Plan(picked, false, full || moved, flip)
      else
        var (routed, ok, rerouted) := RouteUpTo(picked, r, d, |cfg.connectors|);
        Plan(routed, ok, full || moved || rerouted || (ok && flip && !d.hasBase), flip)
  }

  /** The call ends in an error. */
  ghost predicate Fails(cfg: Config, r: Request, d: Driver)
    requires Legal(cfg, r, d)
  {
    var p := PlanOf(cfg, r, d);
    !p.ok || (if p.full then InUse(p.cfg, r.crtc) && !Accepted(p.cfg, r.crtc, d.first) else p.flip && !d.baseOk)
  }

  /** What a call that ends in an error leaves. */
  ghost function AfterFailure(cfg: Config, r: Request, d: Driver): Config
    requires Legal(cfg, r, d)
  {
    Undone(cfg, r.crtc, PlanOf(cfg, r, d).full, d.restore)
  }

  /** The CRTC shows what was asked for. */
  predicate Shows(crtc: Crtc, r: Request) {
    r.mode == Some(crtc.mode) && crtc.x == r.x && crtc.y == r.y && crtc.fb == r.fb
  }

  /** An encoder that some connector uses feeds the CRTC exactly if the last such connector is in the request. */
  ghost predicate EndsUp(encoders: seq<Option<nat>>, connectors: seq<Connector>, r: Request, e: nat)
    requires e < |encoders|
  {
    var user := LastUser(connectors, e, |connectors|);
    user.Some? ==> (encoders[e] == Some(r.crtc) <==> user.value in r.members)
  }

  lemma EndsUpFrom(before: seq<Option<nat>>, ready: Config, now: Config, r: Request, e: nat)
    requires e < |before| == |ready.encoders| == |now.encoders| && |ready.connectors| == |now.connectors|
    requires RoutedAt(before, ready.encoders, ready.connectors, r, e, |ready.connectors|)
    requires forall k :: 0 <= k < |now.connectors| ==> now.connectors[k].encoder == ready.connectors[k].encoder
    requires EncoderUsed(now.connectors, e) ==> now.encoders[e] == ready.encoders[e]
    ensures EndsUp(now.encoders, now.connectors, r, e)
  {
    LastUserSame(ready.connectors, now.connectors, e, |now.connectors|);
    var user := LastUser(now.connectors, e, |now.connectors|);
    if user.Some? { assert EncoderUsed(now.connectors, e); }
  }

  // ----- what a successful call leaves alone -----

  /** A connector outside the request feeds CRTC b, through an encoder that no connector of the request has or takes. */
  ghost predicate Feeds(cfg: Config, r: Request, d: Driver, k: nat, b: nat)
    requires |cfg.connectors| == |d.best|
  {
    k < |cfg.connectors| && k !in r.members && cfg.connectors[k].encoder.Some? &&
    cfg.connectors[k].encoder.value < |cfg.encoders| && cfg.encoders[cfg.connectors[k].encoder.value] == Some(b) &&
    forall m :: 0 <= m < |cfg.connectors| && m in r.members ==>
      cfg.connectors[m].encoder != cfg.connectors[k].encoder && d.best[m] != cfg.connectors[k].encoder
  }

  ghost predicate KeepsFeeding(cfg: Config, r: Request, d: Driver, b: nat)
    requires |cfg.connectors| == |d.best|
  {
    exists k :: Feeds(cfg, r, d, k, b)
  }

  /**
   Every other CRTC keeps its mode and position; it is in use exactly if such a connector feeds it. Without a
   full mode set it does not change at all; with one it is enabled exactly if in use, and only then keeps its
   framebuffer.
   */
  ghost predicate Isolated(was: Config, now: Config, r: Request, d: Driver, full: bool)
    requires |was.connectors| == |d.best|
  {
    |now.crtcs| == |was.crtcs| &&
    forall b :: 0 <= b < |was.crtcs| && b != r.crtc ==>
      (InUse(now, b) <==> KeepsFeeding(was, r, d, b)) &&
      now.crtcs[b] == if full then Settled(was.crtcs[b], InUse(now, b)) else was.crtcs[b]
  }

  /** A CRTC that is fed like that, and whose flag is right, is not touched by the call. */
  lemma OthersKeepShowing(was: Config, now: Config, r: Request, d: Driver, full: bool, b: nat)
    requires |was.connectors| == |d.best| && Isolated(was, now, r, d, full) && b < |was.crtcs| && b != r.crtc
    requires KeepsFeeding(was, r, d, b) && was.crtcs[b].enabled == InUse(was, b)
    ensures InUse(now, b) && now.crtcs[b] == was.crtcs[b]
  {
    var k: nat :| Feeds(was, r, d, k, b);
    var e := was.connectors[k].encoder.value;
    assert EncoderUsed(was.connectors, e);
    assert Drives(was, e, b);
    hide KeepsFeeding;
    assert InUse(was, b);
  }

  // ----- a call that only flips -----

  /** Every connector of the request is on, has its best encoder and feeds the CRTC; no other connector does. */
  ghost predicate InPlace(cfg: Config, r: Request, d: Driver, k: nat)
    requires k < |cfg.connectors| == |d.best| && |d.possible| == |cfg.encoders|
  {
    var enc := cfg.connectors[k].encoder;
    (k in r.members ==> cfg.connectors[k].on && enc.Some? && d.best[k] == enc) &&
    (enc.Some? && enc.value < |cfg.encoders| ==>
       var to := cfg.encoders[enc.value];
       (to == Some(r.crtc) <==> k in r.members) && (to.Some? ==> to.value in d.possible[enc.value]))
  }

  lemma {:induction false} RouteSteady(cfg: Config, r: Request, d: Driver, n: nat)
    requires n <= |cfg.connectors| == |d.best| && |d.possible| == |cfg.encoders|
    requires forall k :: 0 <= k < n ==> InPlace(cfg, r, d, k)
    ensures RouteUpTo(cfg, r, d, n) == (cfg, true, false)
  {
    if n > 0 {
      RouteSteady(cfg, r, d, n - 1);
      assert InPlace(cfg, r, d, n - 1);
      var enc := cfg.connectors[n - 1].encoder;
      if enc.Some? && enc.value < |cfg.encoders| {
        assert cfg.encoders[enc.value := cfg.encoders[enc.value]] == cfg.encoders;
      }
    }
  }

  /**
   A request in the mode the CRTC is in, for connectors that are in place, and for a framebuffer of the same
   format, needs no full mode set, unless the driver cannot flip.
   */
  lemma InPlaceOnlyFlips(cfg: Config, r: Request, d: Driver)
    requires Legal(cfg, r, d) && d.saves && forall k :: 0 <= k < |cfg.connectors| ==> InPlace(cfg, r, d, k)
    requires var crtc := cfg.crtcs[r.crtc];
             r.mode == Some(crtc.mode) && crtc.fb.Some? && d.format(crtc.fb.value) == d.format(r.fb.value)
    ensures var crtc := cfg.crtcs[r.crtc]; var moves := crtc.fb != r.fb || crtc.x != r.x || crtc.y != r.y;
            PlanOf(cfg, r, d) == Plan(cfg, true, moves && !d.hasBase, moves)
  {
    hide PickUpTo, RouteUpTo;
    var n := |cfg.connectors|;
    PickIs(cfg, r, d, n);
    forall k | 0 <= k < n && k in r.members ensures d.best[k] == cfg.connectors[k].encoder && d.best[k].Some? {
      assert InPlace(cfg, r, d, k);
    }
    assert !NewPick(cfg, r, d, n) && !PickFails(r, d, n) by {
      forall k | 0 <= k < n && k in r.members ensures cfg.connectors[k].on { assert InPlace(cfg, r, d, k); }
    }
    RouteSteady(cfg, r, d, n);
  }

  /** A used encoder ends where its users and the request put it. */
  ghost predicate EndsOn(was: Config, now: Config, r: Request, d: Driver, e: nat)
    requires e < |was.encoders| == |now.encoders| && |was.connectors| == |d.best|
  {
    EncoderUsed(now.connectors, e) ==>
      now.encoders[e] == RouteTo(if Leaves(was, r, d, e, |was.connectors|) then None else was.encoders[e],
                                 now.connectors, r, e, |now.connectors|)
  }

  lemma EndsOnFrom(was: Config, mid: seq<Option<nat>>, ready: Config, now: Config, r: Request, d: Driver, e: nat)
    requires e < |mid| == |ready.encoders| == |now.encoders| == |was.encoders|
    requires |ready.connectors| == |now.connectors| == |was.connectors| == |d.best|
    requires RoutedAt(mid, ready.encoders, ready.connectors, r, e, |ready.connectors|)
    requires mid[e] == if Leaves(was, r, d, e, |was.connectors|) then None else was.encoders[e]
    requires forall k :: 0 <= k < |now.connectors| ==> now.connectors[k].encoder == ready.connectors[k].encoder
    requires EncoderUsed(now.connectors, e) ==> now.encoders[e] == ready.encoders[e]
    ensures EndsOn(was, now, r, d, e)
  {
    LastUserSame(ready.connectors, now.connectors, e, |now.connectors|);
    hide Leaves, EncoderUsed, LastUser;
    assert MemberUses(ready.connectors, r, e, |now.connectors|) <==> MemberUses(now.connectors, r, e, |now.connectors|);
  }

  /** Another CRTC is in use after the call exactly if a connector outside the request still feeds it. */
  lemma UsedElsewhereIff(was: Config, now: Config, r: Request, d: Driver, b: nat)
    requires |was.encoders| == |now.encoders| && |was.connectors| == |now.connectors| == |d.best| && b != r.crtc
    requires forall k :: 0 <= k < |now.connectors| ==>
               now.connectors[k].encoder == Picked(was.connectors[k], r, d, k).encoder
    requires forall e :: 0 <= e < |was.encoders| ==> EndsOn(was, now, r, d, e)
    ensures InUse(now, b) <==> KeepsFeeding(was, r, d, b)
  {
    if InUse(now, b) {
      var e :| 0 <= e < |now.encoders| && Drives(now, e, b);
      assert EndsOn(was, now, r, d, e);
      var k := LastUser(now.connectors, e, |now.connectors|).value;
      UntakenFeeds(was, now, r, d, e, k, b);
    }
    if KeepsFeeding(was, r, d, b) {
      var k: nat :| Feeds(was, r, d, k, b);
      var e := was.connectors[k].encoder.value;
      assert now.connectors[k].encoder == Some(e);
      assert EncoderUsed(now.connectors, e) && EndsOn(was, now, r, d, e);
      Untaken(was, now, r, d, e, k, b);
      assert Drives(now, e, b);
    }
  }

  lemma UntakenFeeds(was: Config, now: Config, r: Request, d: Driver, e: nat, k: nat, b: nat)
    requires |was.encoders| == |now.encoders| && |was.connectors| == |now.connectors| == |d.best| && b != r.crtc
    requires forall k :: 0 <= k < |now.connectors| ==>
               now.connectors[k].encoder == Picked(was.connectors[k], r, d, k).encoder
    requires e < |was.encoders| && EndsOn(was, now, r, d, e) && EncoderUsed(now.connectors, e)
    requires now.encoders[e] == Some(b) && LastUser(now.connectors, e, |now.connectors|) == Some(k)
    ensures Feeds(was, r, d, k, b)
  {
    assert k !in r.members && !MemberUses(now.connectors, r, e, |now.connectors|);
    assert !Leaves(was, r, d, e, |was.connectors|);
    forall m | 0 <= m < |was.connectors| && m in r.members
      ensures was.connectors[m].encoder != Some(e) && d.best[m] != Some(e)
    {
      assert now.connectors[m].encoder == d.best[m];
    }
  }

  lemma Untaken(was: Config, now: Config, r: Request, d: Driver, e: nat, k: nat, b: nat)
    requires |was.encoders| == |now.encoders| && |was.connectors| == |now.connectors| == |d.best| && b != r.crtc
    requires forall k :: 0 <= k < |now.connectors| ==>
               now.connectors[k].encoder == Picked(was.connectors[k], r, d, k).encoder
    requires Feeds(was, r, d, k, b) && was.connectors[k].encoder == Some(e) && EndsOn(was, now, r, d, e)
    requires EncoderUsed(now.connectors, e)
    ensures now.encoders[e] == Some(b)
  {
    assert !Leaves(was, r, d, e, |was.connectors|);
    assert !MemberUses(now.connectors, r, e, |now.connectors|);
    var user := LastUser(now.connectors, e, |now.connectors|);
    assert user.Some? && user.value !in r.members;
  }

  /** If no two connectors share an encoder, every connector of a successful request is routed to its CRTC. */
  lemma SoleUsersRouted(encoders: seq<Option<nat>>, connectors: seq<Connector>, r: Request, k: nat)
    requires k < |connectors| && k in r.members && connectors[k].encoder.Some? &&
             connectors[k].encoder.value < |encoders|
    requires forall i :: 0 <= i < |connectors| && i != k ==> connectors[i].encoder != connectors[k].encoder
    requires EndsUp(encoders, connectors, r, connectors[k].encoder.value)
    ensures encoders[connectors[k].encoder.value] == Some(r.crtc)
  {
    var user := LastUser(connectors, connectors[k].encoder.value, |connectors|);
    assert user == Some(k);
  }

  lemma SameAnswers(a: Config, b: Config, c: nat, x: Answers)
    requires a.encoders == b.encoders
    ensures Accepted(a, c, x) == Accepted(b, c, x)
  {
  }

  /** Only which encoder a connector uses matters for use. */
  lemma SameRouting(a: Config, b: Config, c: nat)
    requires a.encoders == b.encoders && |a.connectors| == |b.connectors|
    requires forall k :: 0 <= k < |a.connectors| ==> a.connectors[k].encoder == b.connectors[k].encoder
    ensures InUse(a, c) == InUse(b, c)
    ensures forall e :: 0 <= e ==> EncoderUsed(a.connectors, e) == EncoderUsed(b.connectors, e)
  {
    forall e: nat ensures EncoderUsed(a.connectors, e) == EncoderUsed(b.connectors, e) {
      if EncoderUsed(a.connectors, e) {
        var k :| 0 <= k < |a.connectors| && a.connectors[k].encoder == Some(e);
        assert b.connectors[k].encoder == Some(e);
      }
      if EncoderUsed(b.connectors, e) {
        var k :| 0 <= k < |b.connectors| && b.connectors[k].encoder == Some(e);
        assert a.connectors[k].encoder == Some(e);
      }
    }
    hide EncoderUsed;
    if InUse(a, c) {
      var e :| 0 <= e < |a.encoders| && Drives(a, e, c);
      assert Drives(b, e, c);
    }
    if InUse(b, c) {
      var e :| 0 <= e < |b.encoders| && Drives(b, e, c);
      assert Drives(a, e, c);
    }
  }

  /** Cutting off the connectors of the encoders below e. */
  ghost function CutBelow(cfg: Config, c: nat, k: nat, e: nat): Connector
    requires Wired(cfg) && k < |cfg.connectors|
  {
    var conn := cfg.connectors[k];
    if conn.encoder.Some? && conn.encoder.value < e && cfg.encoders[conn.encoder.value] == Some(c)
    then Connector(None, false)
    else conn
  }

  /**
   The configuration after a failed call: as it was, except that a new attempt at the old mode
   refreshes the enabled flag.
   */
  ghost function Undone(saved: Config, c: nat, changed: bool, a: Answers): (r: Config)
    requires c < |saved.crtcs|
    ensures r.encoders == saved.encoders && r.connectors == saved.connectors && |r.crtcs| == |saved.crtcs|
  {
    var used := InUse(saved, c);
    if changed && (!used || Accepted(saved, c, a))
    then saved.(crtcs := saved.crtcs[c := saved.crtcs[c].(enabled := used)])
    else saved
  }

  lemma UndoneIff(saved: Config, c: nat, changed: bool, a: Answers)
    requires c < |saved.crtcs|
    ensures Undone(saved, c, changed, a) == saved <==>
              !changed || (InUse(saved, c) && !Accepted(saved, c, a)) || saved.crtcs[c].enabled == InUse(saved, c)
  {
    hide InUse, Accepted;
    var used := InUse(saved, c);
    var now := saved.crtcs[c := saved.crtcs[c].(enabled := used)];
    assert now[c].enabled == used;
    if saved.crtcs[c].enabled == used { assert now == saved.crtcs; }
  }

  /** Every call for a CRTC that fails leaves the whole configuration as it was. */
  ghost predicate AllOrNothing(cfg: Config, c: nat) {
    forall r, d :: Legal(cfg, r, d) && r.crtc == c && Fails(cfg, r, d) ==> AfterFailure(cfg, r, d) == cfg
  }

  /**
   The calls for a CRTC are all or nothing if and only if its enabled flag matches its use on entry.
   (A device without connectors cannot be asked to show anything.)
   */
  lemma AllOrNothingIff(cfg: Config, c: nat)
    requires Wired(cfg) && c < |cfg.crtcs| && |cfg.connectors| > 0
    ensures AllOrNothing(cfg, c) <==> cfg.crtcs[c].enabled == InUse(cfg, c)
  {
    hide InUse, Accepted, Fails, PlanOf, Undone;
    if cfg.crtcs[c].enabled == InUse(cfg, c) {
      forall r, d | Legal(cfg, r, d) && r.crtc == c && Fails(cfg, r, d) ensures AfterFailure(cfg, r, d) == cfg {
        UndoneIff(cfg, c, PlanOf(cfg, r, d).full, d.restore);
      }
    } else {
      var r, d := FailingCall(cfg, c);
      UndoneIff(cfg, c, true, d.restore);
    }
  }

  /** Asking for a new mode on a connector without an encoder fails, and the old mode is set again. */
  lemma FailingCall(cfg: Config, c: nat) returns (r: Request, d: Driver)
    requires Wired(cfg) && c < |cfg.crtcs| && |cfg.connectors| > 0
    ensures Legal(cfg, r, d) && r.crtc == c && Fails(cfg, r, d) && PlanOf(cfg, r, d).full && Accepted(cfg, c, d.restore)
  {
    hide PickUpTo, RouteUpTo, InUse;
    var yes := Answers(true, seq(|cfg.encoders|, _ => true), true, true);
    r := Request(c, Some(cfg.crtcs[c].mode + 1), 0, 0, Some(0), [0]);
    d := Driver(seq(|cfg.connectors|, _ => None), seq(|cfg.encoders|, _ => {}), _ => 0, true, true, true, yes, yes);
    assert 0 in r.members && d.best[0] == None;
    assert PickFails(r, d, |cfg.connectors|);
  }

  /**
   A CRTC marked enabled that nothing uses, on a device with one connector, comes back disabled from
   a failed call.
   */
  lemma StaleFlagIsLost() returns (cfg: Config, r: Request, d: Driver)
    ensures Legal(cfg, r, d) && |cfg.connectors| == 1 && Fails(cfg, r, d)
    ensures cfg.crtcs[r.crtc].enabled && !AfterFailure(cfg, r, d).crtcs[r.crtc].enabled
  {
    hide PlanOf, Fails;
    cfg := Config([None], [Connector(None, false)], [Crtc(true, 0, 0, 0, None)]);
    assert !InUse(cfg, 0);
    r, d := FailingCall(cfg, 0);
  }

  /** A connector that reached the CRTC is cut off and switched off. */
  ghost function Cut(cfg: Config, c: nat, k: nat): Connector
    requires Wired(cfg) && k < |cfg.connectors|
  {
    var conn := cfg.connectors[k];
    if conn.encoder.Some? && cfg.encoders[conn.encoder.value] == Some(c) then Connector(None, false) else conn
  }

  /** After the cut the CRTC is idle, and every other one is used exactly as before. */
  lemma CutIsolates(was: Config, now: Config, c: nat, b: nat)
    requires Wired(was) && now.encoders == was.encoders && |now.connectors| == |was.connectors|
    requires forall k :: 0 <= k < |was.connectors| ==> now.connectors[k] == Cut(was, c, k)
    ensures InUse(now, b) <==> b != c && InUse(was, b)
  {
    if InUse(now, b) {
      var e :| 0 <= e < |now.encoders| && Drives(now, e, b);
      var k :| 0 <= k < |now.connectors| && now.connectors[k].encoder == Some(e);
      assert now.connectors[k] == Cut(was, c, k);
      assert EncoderUsed(was.connectors, e);
      assert Drives(was, e, b);
    }
    if b != c && InUse(was, b) {
      var e :| 0 <= e < |was.encoders| && Drives(was, e, b);
      var k :| 0 <= k < |was.connectors| && was.connectors[k].encoder == Some(e);
      assert now.connectors[k] == Cut(was, c, k);
      assert Drives(now, e, b);
    }
  }

  /** Setting the old mode again after everything else is back can only touch the enabled flag. */
  lemma RestoreTouchesEnabled(cfg: Config, c: nat, a: Answers)
    requires c < |cfg.crtcs|
    ensures var crtc := cfg.crtcs[c];
            var on := if !InUse(cfg, c) || Accepted(cfg, c, a) then InUse(cfg, c) else crtc.enabled;
            AfterSetMode(cfg, c, crtc.mode, crtc.x, crtc.y, a) == cfg.(crtcs := cfg.crtcs[c := crtc.(enabled := on)])
  {
    assert cfg.crtcs[c := cfg.crtcs[c]] == cfg.crtcs;
  }

  lemma {:induction false} LastUserSame(a: seq<Connector>, b: seq<Connector>, e: nat, n: nat)
    requires n <= |a| && n <= |b| && forall k :: 0 <= k < n ==> a[k].encoder == b[k].encoder
    ensures LastUser(a, e, n) == LastUser(b, e, n)
  {
    if n > 0 { LastUserSame(a, b, e, n - 1); }
  }

  /** What the first traversal makes of a connector. */
  function Picked(conn: Connector, r: Request, d: Driver, k: nat): Connector
    requires k < |d.best|
  {
    if k in r.members then conn.(encoder := d.best[k]) else conn
  }

  /** One of the first n connectors is in the request and uses the encoder. */
  ghost predicate MemberUses(connectors: seq<Connector>, r: Request, e: nat, n: nat)
    requires n <= |connectors|
  {
    exists k :: 0 <= k < n && k in r.members && connectors[k].encoder == Some(e)
  }

  /**
   Where an encoder goes: nowhere new without a user, to the CRTC asked for if its last user is in the
   request, away from it if its last user is not, and otherwise it stays where it is.
   */
  ghost function RouteTo(before: Option<nat>, connectors: seq<Connector>, r: Request, e: nat, n: nat): Option<nat>
    requires n <= |connectors|
  {
    var user := LastUser(connectors, e, n);
    if user == None then before
    else if user.value in r.members then Some(r.crtc)
    else if before == Some(r.crtc) || MemberUses(connectors, r, e, n) then None
    else before
  }

  ghost predicate RoutedAt(before: seq<Option<nat>>, after: seq<Option<nat>>, connectors: seq<Connector>,
      r: Request, e: nat, n: nat)
    requires e < |before| == |after| && n <= |connectors|
  {
    after[e] == RouteTo(before[e], connectors, r, e, n)
  }

  /** Connector k's turn leaves its encoder on a CRTC that the encoder can feed. */
  ghost predicate Possible(cfg: Config, r: Request, d: Driver, k: nat, n: nat)
    requires k < n <= |cfg.connectors| && |d.possible| == |cfg.encoders|
  {
    var enc := cfg.connectors[k].encoder;
    enc.Some? && enc.value < |cfg.encoders| ==>
      var to := RouteTo(cfg.encoders[enc.value], cfg.connectors, r, enc.value, n);
      to.Some? ==> to.value in d.possible[enc.value]
  }

  ghost predicate AllPossible(cfg: Config, r: Request, d: Driver, n: nat)
    requires n <= |cfg.connectors| && |d.possible| == |cfg.encoders|
  {
    forall k, m :: 0 <= k < n && m == k + 1 ==> Possible(cfg, r, d, k, m)
  }

  lemma RouteToStep(before: Option<nat>, connectors: seq<Connector>, r: Request, e: nat, k: nat, n: nat)
    requires n == k + 1 <= |connectors|
    ensures RouteTo(before, connectors, r, e, n) ==
            var at := RouteTo(before, connectors, r, e, k);
            if connectors[k].encoder != Some(e) then at
            else if k in r.members then Some(r.crtc)
            else if at == Some(r.crtc) then None else at
  {
    var user := LastUser(connectors, e, k);
    assert MemberUses(connectors, r, e, n) <==>
           MemberUses(connectors, r, e, k) || (k in r.members && connectors[k].encoder == Some(e));
    if user == None { assert !MemberUses(connectors, r, e, k); }
    if user.Some? && user.value in r.members { assert MemberUses(connectors, r, e, k); }
  }

  /** A CRTC after the unused ones are switched off. */
  function Settled(crtc: Crtc, used: bool): Crtc {
    crtc.(enabled := used, fb := if used then crtc.fb else None)
  }

  lemma UnusedDoNotCount(was: Config, now: Config, c: nat)
    requires now.connectors == was.connectors && |now.encoders| == |was.encoders|
    requires forall i :: 0 <= i < |was.encoders| ==>
               now.encoders[i] == if EncoderUsed(was.connectors, i) then was.encoders[i] else None
    ensures InUse(now, c) == InUse(was, c)
  {
    hide EncoderUsed;
    if InUse(now, c) {
      var e :| 0 <= e < |now.encoders| && Drives(now, e, c);
      assert Drives(was, e, c);
    }
    if InUse(was, c) {
      var e :| 0 <= e < |was.encoders| && Drives(was, e, c);
      assert Drives(now, e, c);
    }
  }

  lemma SameUse(a: Config, b: Config, c: nat)
    requires a.encoders == b.encoders && a.connectors == b.connectors
    ensures InUse(a, c) == InUse(b, c)
  {
    hide EncoderUsed;
    if InUse(a, c) {
      var e :| 0 <= e < |a.encoders| && Drives(a, e, c);
      assert Drives(b, e, c);
    }
    if InUse(b, c) {
      var e :| 0 <= e < |b.encoders| && Drives(b, e, c);
      assert Drives(a, e, c);
    }
  }
}
