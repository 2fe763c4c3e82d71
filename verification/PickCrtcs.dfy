/**
 How the fbdev helper chooses its initial configuration: a mode for every enabled connector, and
 then the assignment of CRTCs to connectors with the highest score, by exhaustive search.
 */
module PickCrtcs {

  import opened Options

  /** A display mode; modes that compare equal have the same timing. */
  datatype Mode = Mode(hdisplay: nat, vdisplay: nat, preferred: bool, timing: int)

  /** A connector: `possible` is the CRTC mask of its best encoder, if it has one. */
  datatype Connector = Connector(connected: bool, cmdline: Option<Mode>, modes: seq<Mode>,
                                 possible: Option<set<nat>>, hasTile: bool, hLoc: nat, vLoc: nat)

  /** The connectors with their chosen modes, the number of CRTCs and the size limit. */
  datatype Config = Config(conns: seq<Connector>, modes: seq<Option<Mode>>, crtcs: nat, width: nat, height: nat)

  ghost predicate ValidConfig(c: Config) {
    |c.modes| == |c.conns|
  }

  predicate Equal(a: Mode, b: Mode) {
    a.timing == b.timing
  }

  // ----- the score of a connector -----

  predicate Fits(m: Mode, width: nat, height: nat) {
    m.hdisplay <= width && m.vdisplay <= height
  }

  ghost predicate HasPreferred(ms: seq<Mode>, width: nat, height: nat) {
    exists m :: m in ms && m.preferred && Fits(m, width, height)
  }

  /** The first preferred mode that fits, if there is one. */
  function FirstPreferred(ms: seq<Mode>, width: nat, height: nat): (r: Option<Mode>)
    ensures r.Some? <==> HasPreferred(ms, width, height)
  {
    if ms == [] then None
    else if Fits(ms[0], width, height) && ms[0].preferred then
      assert ms[0] in ms;
      Some(ms[0])
    else
      assert forall m :: m in ms <==> m == ms[0] || m in ms[1..];
      FirstPreferred(ms[1..], width, height)
  }

  method PreferredMode(ms: seq<Mode>, width: nat, height: nat) returns (r: Option<Mode>)
    ensures r == FirstPreferred(ms, width, height)
  {
    var i := 0;
    while i < |ms|
      invariant 0 <= i <= |ms| && FirstPreferred(ms[i..], width, height) == FirstPreferred(ms, width, height)
    {
      if Fits(ms[i], width, height) && ms[i].preferred {
        return Some(ms[i]);
      }
      assert ms[i..][1..] == ms[i + 1..];
      i := i + 1;
    }
    r := None;
  }

  ghost function MyScore(c: Config, n: nat): nat
    requires n < |c.conns|
  {
    1 + (if c.conns[n].connected then 1 else 0) + (if c.conns[n].cmdline.Some? then 1 else 0) +
    (if HasPreferred(c.conns[n].modes, c.width, c.height) then 1 else 0)
  }

  // ----- assignments -----

  type Assignment = seq<Option<nat>>

  /** Connector i may use CRTC k. */
  predicate Placeable(c: Config, i: nat, k: nat)
    requires i < |c.conns| == |c.modes|
  {
    c.modes[i].Some? && c.conns[i].possible.Some? && k in c.conns[i].possible.value && k < c.crtcs
  }

  /** Two connectors may share a CRTC only if it is the single one and their modes are equal. */
  predicate MayShare(c: Config, o: nat, i: nat)
    requires o < |c.modes| && i < |c.modes|
  {
    c.crtcs <= 1 && c.modes[o].Some? && c.modes[i].Some? && Equal(c.modes[o].value, c.modes[i].value)
  }

  /** The first n connectors are placed validly. */
  ghost predicate ValidTo(c: Config, a: Assignment, n: nat)
    requires ValidConfig(c)
  {
    n <= |c.conns| <= |a| &&
    (forall i :: 0 <= i < n && a[i].Some? ==> Placeable(c, i, a[i].value)) &&
    (forall o, i :: 0 <= o < i < n && a[o].Some? && a[o] == a[i] ==> MayShare(c, o, i))
  }

  ghost predicate Valid(c: Config, a: Assignment)
    requires ValidConfig(c)
  {
    ValidTo(c, a, |c.conns|)
  }

  /** The total score of the connectors from n on. */
  ghost function Score(c: Config, a: Assignment, n: nat): nat
    requires n <= |c.conns| <= |a|
    decreases |c.conns| - n
  {
    if n == |c.conns| then 0 else (if a[n].Some? then MyScore(c, n) else 0) + Score(c, a, n + 1)
  }

  /** a places the first n connectors as `fixed` does, and the rest validly. */
  ghost predicate Extends(c: Config, a: Assignment, fixed: Assignment, n: nat)
    requires ValidConfig(c)
  {
    n <= |c.conns| && n <= |fixed| && Valid(c, a) && a[..n] == fixed[..n]
  }

  /** `score` is the best that any valid extension reaches. */
  ghost predicate Optimal(c: Config, fixed: Assignment, n: nat, score: nat)
    requires ValidConfig(c) && n <= |c.conns|
  {
    forall a: Assignment :: Extends(c, a, fixed, n) ==> Score(c, a, n) <= score
  }

  /** The same for extensions whose connector n uses no CRTC or one below k. */
  ghost predicate OptimalBelow(c: Config, fixed: Assignment, n: nat, k: nat, score: nat)
    requires ValidConfig(c) && n < |c.conns|
  {
    forall a: Assignment :: Extends(c, a, fixed, n) && (a[n].Some? ==> a[n].value < k) ==> Score(c, a, n) <= score
  }

  // ----- the search -----

  /** Whether connector n may use CRTC k beside the first n: the search only looks at the first user of k. */
  method Admissible(c: Config, best: array<Option<nat>>, n: nat, k: nat) returns (ok: bool)
    requires ValidConfig(c) && n < |c.conns| <= best.Length && k < c.crtcs
    requires c.modes[n].Some? && c.conns[n].possible.Some? && ValidTo(c, best[..], n)
    ensures ok <==> ValidTo(c, best[..][n := Some(k)], n + 1)
  {
    ghost var a := best[..][n := Some(k)];
    if k !in c.conns[n].possible.value {
      assert a[n].Some? && !Placeable(c, n, k);
      return false;
    }
    var o := 0;
    while o < n && best[o] != Some(k)
      invariant 0 <= o <= n && forall j :: 0 <= j < o ==> best[j] != Some(k)
    {
      o := o + 1;
    }
    if o < n {
      assert a[o] == a[n] && Placeable(c, o, k);
      if c.crtcs > 1 {
        return false;
      }
      if !Equal(c.modes[o].value, c.modes[n].value) {
        return false;
      }
      forall j | 0 <= j < n && a[j] == a[n]
        ensures MayShare(c, j, n)
      {
        assert j == o || MayShare(c, o, j);
      }
    }
    ok := true;
  }

  lemma SkipKeeps(c: Config, fixed: Assignment, n: nat, k: nat, score: nat)
    requires ValidConfig(c) && n < |c.conns| <= |fixed| && OptimalBelow(c, fixed, n, k, score)
    requires !ValidTo(c, fixed[n := Some(k)], n + 1)
    ensures OptimalBelow(c, fixed, n, k + 1, score)
  {
    forall a: Assignment | Extends(c, a, fixed, n) && (a[n].Some? ==> a[n].value < k + 1)
      ensures Score(c, a, n) <= score
    {
      if a[n] == Some(k) {
        PrefixValid(c, a, fixed[n := Some(k)], n + 1);
      }
    }
  }

  lemma PrefixValid(c: Config, a: Assignment, b: Assignment, n: nat)
    requires ValidConfig(c) && Valid(c, a) && n <= |c.conns| <= |b|
    requires forall i :: 0 <= i < n ==> a[i] == b[i]
    ensures ValidTo(c, b, n)
  {
  }

  lemma TryKeeps(c: Config, fixed: Assignment, n: nat, k: nat, score: nat, next: nat)
    requires ValidConfig(c) && n < |c.conns| <= |fixed| && OptimalBelow(c, fixed, n, k, score)
    requires Optimal(c, fixed[n := Some(k)], n + 1, next)
    ensures OptimalBelow(c, fixed, n, k + 1, if MyScore(c, n) + next > score then MyScore(c, n) + next else score)
  {
    forall a: Assignment | Extends(c, a, fixed, n) && (a[n].Some? ==> a[n].value < k + 1)
      ensures Score(c, a, n) <= if MyScore(c, n) + next > score then MyScore(c, n) + next else score
    {
      if a[n] == Some(k) {
        assert a[..n + 1] == fixed[n := Some(k)][..n + 1];
        assert Extends(c, a, fixed[n := Some(k)], n + 1);
      }
    }
  }

  /** With no CRTC on connector n the best is what the later connectors reach. */
  lemma LeaveOut(c: Config, fixed: Assignment, n: nat, score: nat)
    requires ValidConfig(c) && n < |c.conns| <= |fixed| && Optimal(c, fixed[n := None], n + 1, score)
    ensures OptimalBelow(c, fixed, n, 0, score)
  {
    forall a: Assignment | Extends(c, a, fixed, n) && (a[n].Some? ==> a[n].value < 0)
      ensures Score(c, a, n) <= score
    {
      assert a[..n + 1] == fixed[n := None][..n + 1];
      assert Extends(c, a, fixed[n := None], n + 1);
    }
  }

  /** Once every CRTC that connector n could use has been tried, the best is the best of all. */
  lemma AllTried(c: Config, fixed: Assignment, n: nat, k: nat, score: nat)
    requires ValidConfig(c) && n < |c.conns| <= |fixed| && OptimalBelow(c, fixed, n, k, score)
    requires forall x: nat :: Placeable(c, n, x) ==> x < k
    ensures Optimal(c, fixed, n, score)
  {
    forall a: Assignment | Extends(c, a, fixed, n)
      ensures Score(c, a, n) <= score
    {
      assert a[n].Some? ==> Placeable(c, n, a[n].value);
    }
  }

  lemma OptimalSame(c: Config, f: Assignment, g: Assignment, n: nat, score: nat)
    requires ValidConfig(c) && n <= |c.conns| && n <= |f| && n <= |g| && f[..n] == g[..n]
    requires Optimal(c, f, n, score)
    ensures Optimal(c, g, n, score)
  {
    forall a: Assignment | Extends(c, a, g, n) ensures Score(c, a, n) <= score {
      assert Extends(c, a, f, n);
    }
  }

  method CopyTo<T>(src: seq<T>, dst: array<T>)
    requires |src| <= dst.Length
    modifies dst
    ensures dst[..] == src + old(dst[|src|..])
  {
    var i := 0;
    while i < |src|
      invariant 0 <= i <= |src|
      invariant forall j :: 0 <= j < dst.Length ==> dst[j] == if j < i then src[j] else old(dst[j])
    {
      dst[i] := src[i];
      i := i + 1;
    }
  }

  method ScoreOf(c: Config, n: nat) returns (score: nat)
    requires n < |c.conns|
    ensures score == MyScore(c, n)
  {
    score := 1;
    if c.conns[n].connected {
      score := score + 1;
    }
    if c.conns[n].cmdline.Some? {
      score := score + 1;
    }
    var p := PreferredMode(c.conns[n].modes, c.width, c.height);
    if p.Some? {
      score := score + 1;
    }
  }

  /**
   drm_pick_crtcs: the first n entries of `best` are fixed, the others are overwritten with a valid
   assignment whose score is returned and is the maximum over all valid extensions.
   */
  method Pick(c: Config, best: array<Option<nat>>, n: nat) returns (bestScore: nat)
    requires ValidConfig(c) && n <= |c.conns| <= best.Length && ValidTo(c, best[..], n)
    modifies best
    ensures best[..n] == old(best[..n])
    ensures Valid(c, best[..]) && Score(c, best[..], n) == bestScore
    ensures Optimal(c, best[..], n, bestScore)
    decreases |c.conns| - n
  {
    if n == |c.conns| {
      return 0;
    }
    ghost var fixed := best[..];
    best[n] := None;
    assert best[..] == fixed[n := None];
    bestScore := Pick(c, best, n + 1);
    assert best[..n + 1][..n] == best[..n] && best[n] == best[..n + 1][n];
    OptimalSame(c, best[..], fixed[n := None], n + 1, bestScore);
    LeaveOut(c, fixed, n, bestScore);
    if c.modes[n].Some? {
      var myScore := ScoreOf(c, n);
      if c.conns[n].possible.Some? {
        bestScore := TryAll(c, best, n, fixed, bestScore, myScore);
      }
    }
    AllTried(c, fixed, n, if c.modes[n].Some? && c.conns[n].possible.Some? then c.crtcs else 0, bestScore);
    OptimalSame(c, fixed, best[..], n, bestScore);
  }

  /** The loop over the CRTCs. */
  method TryAll(c: Config, best: array<Option<nat>>, n: nat, ghost fixed: Assignment, score0: nat, myScore: nat)
    returns (bestScore: nat)
    requires ValidConfig(c) && n < |c.conns| <= best.Length == |fixed| && best[..n] == fixed[..n]
    requires ValidTo(c, fixed, n) && c.modes[n].Some? && c.conns[n].possible.Some? && myScore == MyScore(c, n)
    requires Valid(c, best[..]) && Score(c, best[..], n) == score0 && OptimalBelow(c, fixed, n, 0, score0)
    modifies best
    ensures best[..n] == fixed[..n]
    ensures Valid(c, best[..]) && Score(c, best[..], n) == bestScore
    ensures OptimalBelow(c, fixed, n, c.crtcs, bestScore)
    decreases |c.conns| - n, 0
  {
    bestScore := score0;
    var crtcs := new Option<nat>[best.Length](_ => None);
    var k := 0;
    while k < c.crtcs
      invariant 0 <= k <= c.crtcs && best[..n] == fixed[..n]
      invariant Valid(c, best[..]) && Score(c, best[..], n) == bestScore
      invariant OptimalBelow(c, fixed, n, k, bestScore)
    {
      hide Valid, OptimalBelow, Optimal, Score, ValidTo, MyScore;
      PrefixOf(c, fixed, best[..], n);
      var ok := Admissible(c, best, n, k);
      SameFirst(c, fixed, best[..], n, k);
      if ok {
        crtcs[n] := Some(k);
        CopyTo(best[..n], crtcs);
        ghost var start := crtcs[..];
        assert start[..n] == fixed[..n] && start[n] == Some(k);
        SameStart(c, fixed, start, n, k);
        var score := Pick(c, crtcs, n + 1);
        assert crtcs[n] == crtcs[..n + 1][n] && crtcs[..n] == crtcs[..n + 1][..n];
        assert start[n] == start[..n + 1][n] && start[..n] == start[..n + 1][..n];
        OptimalSame(c, crtcs[..], fixed[n := Some(k)], n + 1, score);
        TryKeeps(c, fixed, n, k, bestScore, score);
        score := myScore + score;
        if score > bestScore {
          bestScore := score;
          CopyTo(crtcs[..], best);
          assert best[..] == crtcs[..];
          ScoreFirst(c, best[..], n);
        }
      } else {
        SkipKeeps(c, fixed, n, k, bestScore);
      }
      k := k + 1;
    }
  }

  lemma ScoreFirst(c: Config, a: Assignment, n: nat)
    requires n < |c.conns| <= |a| && a[n].Some?
    ensures Score(c, a, n) == MyScore(c, n) + Score(c, a, n + 1)
  {
  }

  /** Validity of a prefix depends on the prefix only. */
  lemma PrefixOf(c: Config, a: Assignment, b: Assignment, n: nat)
    requires ValidConfig(c) && n <= |c.conns| <= |a| && |c.conns| <= |b| && a[..n] == b[..n] && ValidTo(c, a, n)
    ensures ValidTo(c, b, n)
  {
    forall i | 0 <= i < n ensures a[i] == b[i] { assert a[i] == a[..n][i]; }
  }

  lemma SameFirst(c: Config, a: Assignment, b: Assignment, n: nat, k: nat)
    requires ValidConfig(c) && n < |c.conns| <= |a| && |c.conns| <= |b| && a[..n] == b[..n]
    ensures ValidTo(c, a[n := Some(k)], n + 1) <==> ValidTo(c, b[n := Some(k)], n + 1)
  {
    var a1, b1 := a[n := Some(k)], b[n := Some(k)];
    forall i | 0 <= i < n + 1 ensures a1[i] == b1[i] {
      if i < n { assert a[i] == a[..n][i] && b[i] == b[..n][i]; }
    }
  }

  lemma SameStart(c: Config, fixed: Assignment, start: Assignment, n: nat, k: nat)
    requires ValidConfig(c) && n < |c.conns| <= |fixed| == |start| && start[..n] == fixed[..n] && start[n] == Some(k)
    ensures start[..n + 1] == fixed[n := Some(k)][..n + 1]
    ensures ValidTo(c, start, n + 1) <==> ValidTo(c, fixed[n := Some(k)], n + 1)
  {
    SameFirst(c, fixed, start, n, k);
    assert start[n := Some(k)] == start;
    assert start[..n + 1] == start[..n] + [start[n]];
    assert fixed[n := Some(k)][..n + 1] == fixed[..n] + [Some(k)];
  }

  // ----- choosing the modes -----

  /** Command line first, then the preferred mode, then whatever comes first. */
  function Choice(c: Connector, width: nat, height: nat): Option<Mode> {
    if c.cmdline.Some? then c.cmdline
    else if FirstPreferred(c.modes, width, height).Some? then FirstPreferred(c.modes, width, height)
    else if c.modes != [] then Some(c.modes[0])
    else None
  }

  /** The tile pass that covers a connector. */
  function PassOf(c: Connector): (p: nat)
    ensures p >= 1
  {
    if c.hLoc == 0 && c.vLoc == 0 then 1
    else if c.hLoc == 0 then c.vLoc + 1
    else if c.vLoc == 0 then c.hLoc + 1
    else if c.hLoc < c.vLoc then c.hLoc + 1 else c.vLoc + 1
  }

  /** The highest pass that an enabled connector needs. */
  function LastPass(conns: seq<Connector>, enabled: seq<bool>): (p: nat)
    requires |conns| == |enabled|
    ensures forall i :: 0 <= i < |conns| && enabled[i] ==> PassOf(conns[i]) <= p
  {
    if conns == [] then 0
    else
      var rest := LastPass(conns[1..], enabled[1..]);
      assert forall i :: 1 <= i < |conns| ==> conns[i] == conns[1..][i - 1] && enabled[i] == enabled[1..][i - 1];
      if enabled[0] && PassOf(conns[0]) > rest then PassOf(conns[0]) else rest
  }

  /** Whether connector j has its mode by the time connector i looks for tiles on its left and above. */
  predicate Earlier(conns: seq<Connector>, enabled: seq<bool>, j: nat, i: nat)
    requires |conns| == |enabled| && j < |conns| && i < |conns|
  {
    enabled[j] && (PassOf(conns[j]) < PassOf(conns[i]) || (PassOf(conns[j]) == PassOf(conns[i]) && j < i))
  }

  /** The widths and heights of the tiles to the left of and above i, among the first n connectors. */
  function TileOffset(c: Config, enabled: seq<bool>, i: nat, n: nat): (nat, nat)
    requires |c.conns| == |enabled| && i < |c.conns| && n <= |c.conns|
  {
    if n == 0 then (0, 0)
    else
      var (x, y) := TileOffset(c, enabled, i, n - 1);
      var j, m := c.conns[n - 1], Choice(c.conns[n - 1], c.width, c.height);
      if j.hasTile && Earlier(c.conns, enabled, n - 1, i) && m.Some?
      then (x + (if j.hLoc < c.conns[i].hLoc then m.value.hdisplay else 0),
            y + (if j.vLoc < c.conns[i].vLoc then m.value.vdisplay else 0))
      else (x, y)
  }

  /** Connector j has been dealt with when the passes before `pass`, and in it the connectors before i, are done. */
  predicate Done(conns: seq<Connector>, enabled: seq<bool>, pass: nat, i: nat, j: nat)
    requires |conns| == |enabled| && j < |conns|
  {
    if !enabled[j] then pass > 0 || j < i
    else PassOf(conns[j]) < pass || (PassOf(conns[j]) == pass && j < i)
  }

  class Targets {
    const modes: array<Option<Mode>>
    const offsets: array<(nat, nat)>
    var configured: seq<bool>

    /** What the arrays hold after the passes so far. */
    ghost predicate Holds(c: Config, enabled: seq<bool>, pass: nat, i: nat)
      reads this, modes, offsets
    {
      |c.conns| == |enabled| == |configured| == modes.Length == offsets.Length && i <= |c.conns| &&
      forall j :: 0 <= j < |c.conns| ==>
        configured[j] == Done(c.conns, enabled, pass, i, j) &&
        modes[j] == (if enabled[j] && configured[j] then Choice(c.conns[j], c.width, c.height) else None) &&
        offsets[j] == (if enabled[j] && configured[j] && PassOf(c.conns[j]) > 1
                       then TileOffset(c, enabled, j, |c.conns|) else (0, 0))
    }

    constructor (n: nat)
      ensures fresh(modes) && fresh(offsets) && modes.Length == offsets.Length == n
      ensures configured == seq(n, _ => false)
      ensures forall j :: 0 <= j < n ==> modes[j] == None && offsets[j] == (0, 0)
    {
      modes := new Option<Mode>[n](_ => None);
      offsets := new (nat, nat)[n](_ => (0, 0));
      configured := seq(n, _ => false);
    }

    /** drm_get_tile_offsets for connector i. */
    method TileOffsets(c: Config, enabled: seq<bool>, pass: nat, i: nat) returns (x: nat, y: nat)
      requires Holds(c, enabled, pass, i) && i < |c.conns| && PassOf(c.conns[i]) == pass && enabled[i]
      ensures (x, y) == TileOffset(c, enabled, i, |c.conns|)
    {
      hide Choice;
      x, y := 0, 0;
      var j := 0;
      while j < |c.conns|
        invariant 0 <= j <= |c.conns| && (x, y) == TileOffset(c, enabled, i, j)
      {
        assert configured[j] && enabled[j] <==> Earlier(c.conns, enabled, j, i);
        if c.conns[j].hasTile && modes[j].Some? {
          if c.conns[j].hLoc < c.conns[i].hLoc {
            x := x + modes[j].value.hdisplay;
          }
          if c.conns[j].vLoc < c.conns[i].vLoc {
            y := y + modes[j].value.vdisplay;
          }
        }
        j := j + 1;
      }
    }

    method PickMode(c: Config, i: nat) returns (m: Option<Mode>)
      requires i < |c.conns|
      ensures m == Choice(c.conns[i], c.width, c.height)
    {
      var conn := c.conns[i];
      m := conn.cmdline;
      if m == None {
        m := PreferredMode(conn.modes, c.width, c.height);
      }
      if m == None && conn.modes != [] {
        m := Some(conn.modes[0]);
      }
    }

    /** The body of the loop of drm_target_preferred for connector i. */
    method Visit(c: Config, enabled: seq<bool>, pass: nat, i: nat)
      requires Holds(c, enabled, pass, i) && i < |c.conns|
      modifies this`configured, modes, offsets
      ensures Holds(c, enabled, pass, i + 1)
    {
      hide Choice, TileOffset;
      if configured[i] {
        return;
      }
      var conn := c.conns[i];
      if !enabled[i] {
        configured := configured[i := true];
        return;
      }
      if pass == 0 && conn.hasTile {
        return;
      }
      if pass == 1 {
        if conn.hLoc != 0 || conn.vLoc != 0 {
          return;
        }
      } else {
        if conn.hLoc != pass - 1 && conn.vLoc != pass - 1 {
          return;
        }
        assert PassOf(conn) == pass;
        var x, y := TileOffsets(c, enabled, pass, i);
        offsets[i] := (x, y);
      }
      modes[i] := PickMode(c, i);
      configured := configured[i := true];
    }

    /**
     drm_target_preferred: every enabled connector gets its mode, tiles get the offset of what lies
     before them, and the loop stops after the last pass that an enabled connector needs.
     */
    method TargetPreferred(c: Config, enabled: seq<bool>) returns (pass: nat)
      requires |c.conns| == |enabled| == modes.Length == offsets.Length && configured == seq(|enabled|, _ => false)
      requires forall j :: 0 <= j < |c.conns| ==> modes[j] == None && offsets[j] == (0, 0)
      modifies this, modes, offsets
      ensures pass == LastPass(c.conns, enabled)
      ensures forall j :: 0 <= j < |c.conns| ==>
                modes[j] == if enabled[j] then Choice(c.conns[j], c.width, c.height) else None
      ensures forall j :: 0 <= j < |c.conns| ==>
                offsets[j] ==
                if enabled[j] && PassOf(c.conns[j]) > 1 then TileOffset(c, enabled, j, |c.conns|) else (0, 0)
    {
      hide Choice, TileOffset;
      pass := 0;
      LastPassMet(c.conns, enabled);
      while true
        invariant Holds(c, enabled, pass, 0) && pass <= LastPass(c.conns, enabled)
        decreases LastPass(c.conns, enabled) - pass
      {
        var i := 0;
        while i < |c.conns|
          invariant Holds(c, enabled, pass, i)
        {
          Visit(c, enabled, pass, i);
          i := i + 1;
        }
        NextPass(c, enabled, pass);
        if forall j :: 0 <= j < |configured| ==> configured[j] {
          return;
        }
        pass := pass + 1;
      }
    }

    lemma NextPass(c: Config, enabled: seq<bool>, pass: nat)
      requires Holds(c, enabled, pass, |c.conns|)
      ensures Holds(c, enabled, pass + 1, 0)
    {
      hide Choice, TileOffset;
      forall j | 0 <= j < |c.conns|
        ensures Done(c.conns, enabled, pass, |c.conns|, j) == Done(c.conns, enabled, pass + 1, 0, j)
      {
      }
    }
  }

  /** Some enabled connector needs the last pass. */
  lemma {:induction false} LastPassMet(conns: seq<Connector>, enabled: seq<bool>)
    requires |conns| == |enabled|
    ensures LastPass(conns, enabled) > 0 ==>
              exists i :: 0 <= i < |conns| && enabled[i] && PassOf(conns[i]) == LastPass(conns, enabled)
  {
    if conns != [] {
      LastPassMet(conns[1..], enabled[1..]);
      var rest := LastPass(conns[1..], enabled[1..]);
      if enabled[0] && PassOf(conns[0]) > rest {
      } else if rest > 0 {
        var i :| 0 <= i < |conns| - 1 && enabled[1..][i] && PassOf(conns[1..][i]) == rest;
        assert enabled[i + 1] && PassOf(conns[i + 1]) == rest;
      }
    }
  }
}
