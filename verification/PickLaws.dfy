/**
 What the choices of the fbdev helper mean: which mode a connector gets, what its score counts, when it is
 visited and where a tile lands; and that the best assignment leaves no connector out that could be shown.
 */
module PickLaws {

  import opened Options
  import opened PickCrtcs

  // ----- modes -----

  /** Mode i is preferred and fits, and no mode before it does. */
  ghost predicate FirstAt(ms: seq<Mode>, width: nat, height: nat, i: nat) {
    i < |ms| && ms[i].preferred && ms[i].hdisplay <= width && ms[i].vdisplay <= height &&
    forall j :: 0 <= j < i ==> !(ms[j].preferred && ms[j].hdisplay <= width && ms[j].vdisplay <= height)
  }

  lemma {:induction false} PreferredAt(ms: seq<Mode>, width: nat, height: nat, i: nat)
    requires FirstAt(ms, width, height, i)
    ensures FirstPreferred(ms, width, height) == Some(ms[i])
  {
    if i > 0 {
      assert ms[1..][i - 1] == ms[i];
      assert forall j :: 0 <= j < i - 1 ==> ms[1..][j] == ms[j + 1];
      PreferredAt(ms[1..], width, height, i - 1);
    }
  }

  /**
   A connector gets the mode of the command line; without one, its first preferred mode that fits; without one,
   the first of its list; and none only if that is empty.
   */
  lemma ChoiceIs(c: Connector, width: nat, height: nat)
    ensures c.cmdline.Some? ==> Choice(c, width, height) == c.cmdline
    ensures c.cmdline == None ==> forall i: nat :: FirstAt(c.modes, width, height, i) ==>
              Choice(c, width, height) == Some(c.modes[i])
    ensures c.cmdline == None && (forall i: nat :: !FirstAt(c.modes, width, height, i)) ==>
              Choice(c, width, height) == if c.modes == [] then None else Some(c.modes[0])
  {
    if c.cmdline == None {
      forall i: nat | FirstAt(c.modes, width, height, i) ensures Choice(c, width, height) == Some(c.modes[i]) {
        PreferredAt(c.modes, width, height, i);
      }
      if FirstPreferred(c.modes, width, height).Some? {
        var i := FirstFound(c.modes, width, height);
      }
    }
  }

  lemma {:induction false} FirstFound(ms: seq<Mode>, width: nat, height: nat) returns (i: nat)
    requires FirstPreferred(ms, width, height).Some?
    ensures FirstAt(ms, width, height, i)
  {
    if ms[0].preferred && Fits(ms[0], width, height) {
      i := 0;
    } else {
      var k := FirstFound(ms[1..], width, height);
      i := k + 1;
      assert ms[1..][k] == ms[i];
      forall j | 0 <= j < i ensures !(ms[j].preferred && ms[j].hdisplay <= width && ms[j].vdisplay <= height) {
        if j > 0 { assert ms[1..][j - 1] == ms[j]; }
      }
    }
  }

  // ----- scores -----

  /** A connector that is shown counts one, and one more for each of three things in its favour. */
  lemma ScorePoints(c: Config, n: nat)
    requires n < |c.conns|
    ensures var conn := c.conns[n];
            var points := (if conn.connected then {0} else {}) + (if conn.cmdline.Some? then {1} else {}) +
                          (if exists i: nat :: FirstAt(conn.modes, c.width, c.height, i) then {2} else {});
            MyScore(c, n) == 1 + |points|
  {
    var conn := c.conns[n];
    var pref := FirstPreferred(conn.modes, c.width, c.height).Some?;
    if pref { var i := FirstFound(conn.modes, c.width, c.height); }
    if i: nat :| FirstAt(conn.modes, c.width, c.height, i) { PreferredAt(conn.modes, c.width, c.height, i); }
    var a := if conn.connected then {0} else {};
    var b := if conn.cmdline.Some? then {1} else {};
    var d := if pref then {2} else {};
    assert |a + b| == |a| + |b|;
    assert |a + b + d| == |a + b| + |d|;
  }

  lemma {:induction false} ScoreWith(c: Config, a: Assignment, i: nat, k: nat, n: nat)
    requires n <= i < |c.conns| <= |a| && a[i] == None
    ensures Score(c, a[i := Some(k)], n) == Score(c, a, n) + MyScore(c, i)
    decreases |c.conns| - n
  {
    if n == i {
      ScoreBehind(c, a, i, k, n + 1);
    } else {
      ScoreWith(c, a, i, k, n + 1);
    }
  }

  lemma {:induction false} ScoreBehind(c: Config, a: Assignment, i: nat, k: nat, n: nat)
    requires i < n <= |c.conns| <= |a|
    ensures Score(c, a[i := Some(k)], n) == Score(c, a, n)
    decreases |c.conns| - n
  {
    if n < |c.conns| { ScoreBehind(c, a, i, k, n + 1); }
  }

  /** The best assignment leaves no connector out for which a CRTC it could use is free. */
  lemma NothingLeftOut(c: Config, a: Assignment, i: nat, k: nat)
    requires ValidConfig(c) && Valid(c, a) && Optimal(c, a, 0, Score(c, a, 0))
    requires i < |c.conns| && a[i] == None && Placeable(c, i, k)
    ensures exists j :: 0 <= j < |c.conns| && a[j] == Some(k)
  {
    if forall j :: 0 <= j < |c.conns| ==> a[j] != Some(k) {
      var b := a[i := Some(k)];
      forall o, m | 0 <= o < m < |c.conns| && b[o].Some? && b[o] == b[m] ensures MayShare(c, o, m) {
        assert o != i && m != i;
      }
      assert Extends(c, b, a, 0);
      ScoreWith(c, a, i, k, 0);
      ScorePoints(c, i);
      assert false;
    }
  }

  // ----- sharing a CRTC -----

  ghost predicate SameTiming(c: Config, o: nat, i: nat)
    requires o < |c.modes| && i < |c.modes|
  {
    c.modes[o].Some? && c.modes[i].Some? && c.modes[o].value.timing == c.modes[i].value.timing
  }

  /** The shared CRTC of an assignment is the only one there is, and all its connectors show the same timing. */
  lemma SharingIff(c: Config, a: Assignment)
    requires ValidConfig(c) && |a| >= |c.conns|
    requires forall i :: 0 <= i < |c.conns| && a[i].Some? ==> Placeable(c, i, a[i].value)
    ensures Valid(c, a) <==>
            forall o, i :: 0 <= o < i < |c.conns| && a[o].Some? && a[o] == a[i] ==>
              a[o] == Some(0) && c.crtcs == 1 && SameTiming(c, o, i)
  {
    forall o, i | 0 <= o < i < |c.conns| && a[o].Some? && a[o] == a[i]
      ensures MayShare(c, o, i) <==> a[o] == Some(0) && c.crtcs == 1 && SameTiming(c, o, i)
    {
      assert Placeable(c, o, a[o].value);
    }
  }

  // ----- passes and tiles -----

  /** Pass p deals with a connector at this place of the tile grid. */
  ghost predicate Covers(c: Connector, p: nat) {
    if p == 1 then c.hLoc == 0 && c.vLoc == 0 else p > 1 && (c.hLoc == p - 1 || c.vLoc == p - 1)
  }

  /** A connector is dealt with in the first pass that covers it. */
  lemma PassIsFirst(c: Connector, p: nat)
    ensures Covers(c, PassOf(c)) && (Covers(c, p) ==> PassOf(c) <= p)
  {
  }

  /** The widths of the modes of the first n connectors. */
  ghost function Widths(c: Config, n: nat): nat
    requires n <= |c.conns|
  {
    if n == 0 then 0
    else Widths(c, n - 1) + match Choice(c.conns[n - 1], c.width, c.height) case Some(m) => m.hdisplay case None => 0
  }

  ghost function Heights(c: Config, n: nat): nat
    requires n <= |c.conns|
  {
    if n == 0 then 0
    else Heights(c, n - 1) + match Choice(c.conns[n - 1], c.width, c.height) case Some(m) => m.vdisplay case None => 0
  }

  /** A row of tiles from left to right, all enabled. */
  ghost predicate Row(c: Config, enabled: seq<bool>) {
    |c.conns| == |enabled| &&
    forall j :: 0 <= j < |c.conns| ==> enabled[j] && c.conns[j].hasTile && c.conns[j].hLoc == j && c.conns[j].vLoc == 0
  }

  ghost predicate Column(c: Config, enabled: seq<bool>) {
    |c.conns| == |enabled| &&
    forall j :: 0 <= j < |c.conns| ==> enabled[j] && c.conns[j].hasTile && c.conns[j].vLoc == j && c.conns[j].hLoc == 0
  }

  /** In a row each tile lands right of all the tiles on its left. */
  lemma {:induction false} RowOffsets(c: Config, enabled: seq<bool>, i: nat, n: nat)
    requires Row(c, enabled) && i < |c.conns| && n <= |c.conns|
    ensures TileOffset(c, enabled, i, n) == (Widths(c, if n < i then n else i), 0)
  {
    hide Choice;
    if n > 0 { RowOffsets(c, enabled, i, n - 1); }
  }

  /** In a column each tile lands below all the tiles above it. */
  lemma {:induction false} ColumnOffsets(c: Config, enabled: seq<bool>, i: nat, n: nat)
    requires Column(c, enabled) && i < |c.conns| && n <= |c.conns|
    ensures TileOffset(c, enabled, i, n) == (0, Heights(c, if n < i then n else i))
  {
    hide Choice;
    if n > 0 { ColumnOffsets(c, enabled, i, n - 1); }
  }
}
