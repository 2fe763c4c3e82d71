/**
 When drm_crtc_helper_set_config fails, and when it does without a full mode set, in terms of the
 request, of what the driver answers and of the configuration that the call finds.
 */
module SetPlans {

  import opened Options
  import opened SetConfig

  /** Where encoder e stands after the connectors of the request have picked theirs. */
  ghost function Freed(cfg: Config, r: Request, d: Driver, e: nat): Option<nat>
    requires |cfg.connectors| == |d.best| && e < |cfg.encoders|
  {
    if Leaves(cfg, r, d, e, |cfg.connectors|) then None else cfg.encoders[e]
  }

  /** The connectors on the encoders that the request gives them, before any encoder is routed. */
  ghost predicate IsPicked(cfg: Config, r: Request, d: Driver, p: Config) {
    |cfg.connectors| == |d.best| == |p.connectors| && |p.encoders| == |cfg.encoders| && p.crtcs == cfg.crtcs &&
    (forall k :: 0 <= k < |cfg.connectors| ==> p.connectors[k] == Picked(cfg.connectors[k], r, d, k)) &&
    (forall e :: 0 <= e < |cfg.encoders| ==> p.encoders[e] == Freed(cfg, r, d, e))
  }

  /** Every connector of the request has an encoder. */
  ghost predicate AllChosen(cfg: Config, r: Request, d: Driver)
    requires |cfg.connectors| == |d.best|
  {
    forall k :: 0 <= k < |cfg.connectors| && k in r.members ==> d.best[k].Some?
  }

  /** What is routed when a call turns to the hardware, and exactly when it gets there. */
  lemma PlanIs(cfg: Config, r: Request, d: Driver) returns (p: Config)
    requires Legal(cfg, r, d)
    ensures IsPicked(cfg, r, d, p) && Wired(p) && (!NewPick(cfg, r, d, |cfg.connectors|) ==> p == cfg)
    ensures PlanOf(cfg, r, d).ok <==> d.saves && AllChosen(cfg, r, d) && AllPossible(p, r, d, |cfg.connectors|)
    ensures PlanOf(cfg, r, d).ok ==> PlanOf(cfg, r, d).cfg.connectors == p.connectors
    ensures PlanOf(cfg, r, d).ok ==> forall e :: 0 <= e < |cfg.encoders| ==>
              PlanOf(cfg, r, d).cfg.encoders[e] == RouteTo(p.encoders[e], p.connectors, r, e, |cfg.connectors|)
  {
    hide PickUpTo, RouteUpTo, AllPossible, RouteTo, Leaves, NewPick;
    var n := |cfg.connectors|;
    PickIs(cfg, r, d, n);
    p := PickUpTo(cfg, r, d, n).0;
    RouteIs(p, r, d, n);
    if PlanOf(cfg, r, d).ok {
      forall e | 0 <= e < |cfg.encoders|
        ensures PlanOf(cfg, r, d).cfg.encoders[e] == RouteTo(p.encoders[e], p.connectors, r, e, n)
      {
        assert RoutedAt(p.encoders, RouteUpTo(p, r, d, n).0.encoders, p.connectors, r, e, n);
      }
    }
  }

  /** A call that gets by without a full mode set found everything but position and framebuffer as it was asked for. */
  lemma FlipKeepsRest(cfg: Config, r: Request, d: Driver)
    requires Legal(cfg, r, d) && PlanOf(cfg, r, d).ok && !PlanOf(cfg, r, d).full
    ensures PlanOf(cfg, r, d).cfg == cfg
    ensures var crtc := cfg.crtcs[r.crtc];
            r.mode == Some(crtc.mode) && crtc.fb.Some? && d.format(crtc.fb.value) == d.format(r.fb.value) &&
            (PlanOf(cfg, r, d).flip <==> crtc.fb != r.fb || crtc.x != r.x || crtc.y != r.y) &&
            (PlanOf(cfg, r, d).flip ==> d.hasBase)
    ensures forall k :: 0 <= k < |cfg.connectors| && k in r.members ==>
              cfg.connectors[k].on && cfg.connectors[k].encoder.Some? && d.best[k] == cfg.connectors[k].encoder
  {
    hide PickUpTo, RouteUpTo, AllPossible;
    var n := |cfg.connectors|;
    PickIs(cfg, r, d, n);
    RouteIs(PickUpTo(cfg, r, d, n).0, r, d, n);
    assert !NewPick(cfg, r, d, n) && !PickFails(r, d, n);
    forall k | 0 <= k < n && k in r.members
      ensures cfg.connectors[k].on && d.best[k].Some? && d.best[k] == cfg.connectors[k].encoder
    {
    }
  }

  /** Nobody refuses the mode: memory, the encoders that feed the CRTC, the CRTC and the mode set itself. */
  ghost predicate NobodyRefuses(cfg: Config, c: nat, a: Answers)
    requires |a.fixup| == |cfg.encoders|
  {
    a.alloc && a.crtcFixup && a.modeSet && forall e :: 0 <= e < |cfg.encoders| && cfg.encoders[e] == Some(c) ==>
      a.fixup[e]
  }

  /** A call fails if and only if it cannot be routed, somebody refuses the new mode, or the flip is refused. */
  lemma FailsIff(cfg: Config, r: Request, d: Driver) returns (p: Config)
    requires Legal(cfg, r, d)
    ensures IsPicked(cfg, r, d, p) && |d.first.fixup| == |PlanOf(cfg, r, d).cfg.encoders|
    ensures var plan := PlanOf(cfg, r, d);
            var routes := d.saves && AllChosen(cfg, r, d) && AllPossible(p, r, d, |cfg.connectors|);
            Fails(cfg, r, d) <==>
              !routes || (plan.full && InUse(plan.cfg, r.crtc) && !NobodyRefuses(plan.cfg, r.crtc, d.first)) ||
              (!plan.full && !Shows(cfg.crtcs[r.crtc], r) && !d.baseOk)
  {
    p := PlanIs(cfg, r, d);
    if PlanOf(cfg, r, d).ok && !PlanOf(cfg, r, d).full { FlipKeepsRest(cfg, r, d); }
    hide PlanOf, AllChosen, AllPossible, InUse;
  }
}
