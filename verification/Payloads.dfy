/**
 The payload table of the MST topology manager: virtual channels are allocated on ports, laid
 out on the link by a two-part update, and removed from the table by shifting it down.
 */
module Payloads {
  import opened Options

  datatype PayloadState = Unset | Local | Remote | DeleteLocal

  /** What the hardware was told: `num` time slots from `start` on. */
  datatype Payload = Payload(start: nat, num: nat, state: PayloadState)

  /** The virtual channel of a port; vcpi 0 means that the port has none. */
  datatype Vcpi = Vcpi(vcpi: nat, slots: nat)

  datatype Manager = Manager(payloads: seq<Payload>, proposed: seq<Option<nat>>, ports: map<nat, Vcpi>,
                             payloadMask: set<nat>, vcpiMask: set<nat>)

  const NO_PAYLOAD: Payload := Payload(0, 0, Unset)

  // ----- ids -----

  /** find_first_zero_bit: the smallest clear bit below n, or n. */
  function FirstZero(mask: set<nat>, n: nat): (r: nat)
    ensures r <= n && (r < n ==> r !in mask) && forall i: nat :: i < r ==> i in mask
  {
    FirstZeroFrom(mask, 0, n)
  }

  function FirstZeroFrom(mask: set<nat>, i: nat, n: nat): (r: nat)
    requires i <= n && forall j: nat :: j < i ==> j in mask
    ensures i <= r <= n && (r < n ==> r !in mask) && forall j: nat :: j < r ==> j in mask
    decreases n - i
  {
    if i == n || i !in mask then i else FirstZeroFrom(mask, i + 1, n)
  }

  /** The table index and the channel number that an assignment would use. */
  function FreeIds(m: Manager): Option<(nat, nat)> {
    var n := |m.payloads|;
    var id, vc := FirstZero(m.payloadMask, n + 1), FirstZero(m.vcpiMask, n + 1);
    if id > n || vc > n then None else Some((id, vc))
  }

  /** Allocating a channel of the given number of slots on a port; fails without a free id. */
  function Allocate(m: Manager, port: nat, slots: nat): (Manager, bool)
    requires |m.payloads| == |m.proposed| && 0 in m.payloadMask && port in m.ports
  {
    match FreeIds(m)
    case None => (m.(ports := m.ports[port := m.ports[port].(slots := slots)]), false)
    case Some((id, vc)) =>
      (m.(ports := m.ports[port := Vcpi(vc + 1, slots)],
          payloadMask := m.payloadMask + {id}, vcpiMask := m.vcpiMask + {vc},
          proposed := m.proposed[id - 1 := Some(port)]), true)
  }

  function ResetSlots(m: Manager, port: nat): Manager
    requires port in m.ports
  {
    m.(ports := m.ports[port := m.ports[port].(slots := 0)])
  }

  predicate Names(m: Manager, i: nat, vcpi: nat)
    requires i < |m.proposed|
  {
    m.proposed[i].Some? && m.proposed[i].value in m.ports && m.ports[m.proposed[i].value].vcpi == vcpi
  }

  function ClearNames(m: Manager, vcpi: nat): seq<Option<nat>> {
    seq(|m.proposed|, i requires 0 <= i < |m.proposed| => if Names(m, i, vcpi) then None else m.proposed[i])
  }

  function FreedBits(m: Manager, vcpi: nat): set<nat> {
    set i | 0 <= i < |m.proposed| && Names(m, i, vcpi) :: i + 1
  }

  function PutId(m: Manager, vcpi: nat): Manager {
    if vcpi == 0 then m
    else m.(vcpiMask := m.vcpiMask - {vcpi - 1}, proposed := ClearNames(m, vcpi),
            payloadMask := m.payloadMask - FreedBits(m, vcpi))
  }

  function Deallocate(m: Manager, port: nat): Manager
    requires port in m.ports
  {
    var m1 := PutId(m, m.ports[port].vcpi);
    m1.(ports := m1.ports[port := Vcpi(0, 0)])
  }

  // ----- the update, part 1 -----

  function Wanted(m: Manager, i: nat): nat
    requires i < |m.proposed|
  {
    match m.proposed[i]
    case None => 0
    case Some(p) => if p in m.ports then m.ports[p].slots else 0
  }

  function WantedAll(m: Manager): seq<nat> {
    seq(|m.proposed|, i requires 0 <= i < |m.proposed| => Wanted(m, i))
  }

  /** One entry is brought in line with what is wanted, starting at slot `cur`. */
  function Solve(p: Payload, want: nat, cur: nat, ok: bool): Payload {
    if p.num == want then p.(start := cur)
    else if want > 0 then Payload(cur, want, if ok then Local else Unset)
    else Payload(0, 0, DeleteLocal)
  }

  function SolveAll(ps: seq<Payload>, want: seq<nat>, cur: nat, ok: seq<bool>): (r: seq<Payload>)
    requires |ps| == |want| == |ok|
    ensures |r| == |ps|
  {
    if ps == [] then []
    else [Solve(ps[0], want[0], cur, ok[0])] + SolveAll(ps[1..], want[1..], cur + want[0], ok[1..])
  }

  /** memcpy of everything behind index i one place down, with an empty entry at the end. */
  function ShiftDown<T>(s: seq<T>, i: nat, empty: T): (r: seq<T>)
    requires i < |s|
    ensures |r| == |s|
  {
    s[..i] + s[i + 1..] + [empty]
  }

  predicate Takes(entry: Option<nat>, ports: map<nat, Vcpi>) {
    entry.Some? && entry.value in ports && ports[entry.value].slots > 0
  }

  /** The mask bits from i + 1 on follow the shifted table: set for entries with slots. */
  function ShiftMask(mask: set<nat>, proposed: seq<Option<nat>>, ports: map<nat, Vcpi>, i: nat): set<nat> {
    (set b | b in mask && (b <= i || b > |proposed|)) +
    (set j | i <= j < |proposed| && Takes(proposed[j], ports) :: j + 1)
  }

  function RemoveAt(m: Manager, i: nat): (r: Manager)
    requires |m.payloads| == |m.proposed| && i < |m.payloads|
    ensures |r.payloads| == |r.proposed| == |m.payloads|
  {
    var proposed := ShiftDown(m.proposed, i, None);
    m.(payloads := ShiftDown(m.payloads, i, NO_PAYLOAD), proposed := proposed,
       payloadMask := ShiftMask(m.payloadMask, proposed, m.ports, i))
  }

  /** The removal loop; the index moves on after a removal, past the entry that took the place. */
  function Compact(m: Manager, i: nat): (r: Manager)
    requires |m.payloads| == |m.proposed| && i <= |m.payloads|
    ensures |r.payloads| == |r.proposed| == |m.payloads|
    decreases |m.payloads| - i
  {
    if i == |m.payloads| then m
    else Compact(if m.payloads[i].state == DeleteLocal then RemoveAt(m, i) else m, i + 1)
  }

  function Part1(m: Manager, ok: seq<bool>): (r: Manager)
    requires |m.payloads| == |m.proposed| == |ok|
    ensures |r.payloads| == |r.proposed| == |m.payloads|
  {
    Compact(m.(payloads := SolveAll(m.payloads, WantedAll(m), 1, ok)), 0)
  }

  // ----- the update, part 2 -----

  /** The remote half: created channels become remote while the link answers, deleted ones are forgotten. */
  function Part2(m: Manager, ok: seq<bool>, i: nat): (r: Manager)
    requires |m.payloads| == |m.proposed| == |ok| && i <= |ok|
    decreases |ok| - i
  {
    if i == |ok| then m
    else
      var p := m.payloads[i];
      if m.proposed[i] == None then Part2(m, ok, i + 1)
      else if p.state == Local then
        if ok[i] then Part2(m.(payloads := m.payloads[i := p.(state := Remote)]), ok, i + 1) else m
      else if p.state == DeleteLocal then
        Part2(m.(payloads := m.payloads[i := p.(state := Unset)]), ok, i + 1)
      else Part2(m, ok, i + 1)
  }

  /** The first entry from i on at which the link refuses to create the channel. */
  function FirstRefused(m: Manager, ok: seq<bool>, i: nat): (r: nat)
    requires |m.payloads| == |m.proposed| == |ok| && i <= |ok|
    ensures i <= r <= |ok|
    decreases |ok| - i
  {
    if i == |ok| || (m.proposed[i].Some? && m.payloads[i].state == Local && !ok[i]) then i
    else FirstRefused(m, ok, i + 1)
  }

  /**
   Up to the first refusal created channels become remote and deleted ones are forgotten; from there
   on nothing happens.
   */
  lemma {:induction false} Part2States(m: Manager, ok: seq<bool>, i: nat, j: nat)
    requires |m.payloads| == |m.proposed| == |ok| && i <= |ok| && j < |ok|
    ensures |Part2(m, ok, i).payloads| == |ok|
    ensures Part2(m, ok, i).payloads[j].state ==
            if i <= j < FirstRefused(m, ok, i) && m.proposed[j].Some?
            then (match m.payloads[j].state case Local => Remote case DeleteLocal => Unset case other => other)
            else m.payloads[j].state
    decreases |ok| - i
  {
    if i < |ok| {
      var p := m.payloads[i];
      if m.proposed[i].Some? && p.state == Local && ok[i] {
        var m1 := m.(payloads := m.payloads[i := p.(state := Remote)]);
        RefusedSame(m, m1, ok, i + 1);
        Part2States(m1, ok, i + 1, j);
      } else if m.proposed[i].Some? && p.state == DeleteLocal {
        var m1 := m.(payloads := m.payloads[i := p.(state := Unset)]);
        RefusedSame(m, m1, ok, i + 1);
        Part2States(m1, ok, i + 1, j);
      } else if !(m.proposed[i].Some? && p.state == Local) {
        Part2States(m, ok, i + 1, j);
      }
    }
  }

  lemma {:induction false} RefusedSame(m: Manager, n: Manager, ok: seq<bool>, i: nat)
    requires |m.payloads| == |m.proposed| == |ok| && |n.payloads| == |n.proposed| == |ok| && i <= |ok|
    requires n.proposed == m.proposed && forall k :: i <= k < |ok| ==> n.payloads[k] == m.payloads[k]
    ensures FirstRefused(n, ok, i) == FirstRefused(m, ok, i)
    decreases |ok| - i
  {
    if i < |ok| { RefusedSame(m, n, ok, i + 1); }
  }

  // ----- the invariant -----

  ghost predicate Owned(ports: map<nat, Vcpi>, vcpi: nat) {
    exists p :: p in ports && ports[p].vcpi == vcpi
  }

  /** Channel numbers: one bit per live channel, and no two ports share one. */
  ghost predicate VcpisOk(ports: map<nat, Vcpi>, mask: set<nat>, n: nat) {
    (forall p :: p in ports && ports[p].vcpi > 0 ==> ports[p].vcpi - 1 in mask) &&
    (forall p, q :: p in ports && q in ports && p != q && ports[p].vcpi > 0 ==> ports[p].vcpi != ports[q].vcpi) &&
    (forall b :: b in mask ==> b <= n && Owned(ports, b + 1))
  }

  /** Table entries belong to ports with a channel, and no port has two. */
  ghost predicate ProposedOk(proposed: seq<Option<nat>>, ports: map<nat, Vcpi>) {
    (forall i :: 0 <= i < |proposed| && proposed[i].Some? ==>
       proposed[i].value in ports && ports[proposed[i].value].vcpi > 0) &&
    (forall i, j :: 0 <= i < j < |proposed| && proposed[i].Some? ==> proposed[i] != proposed[j])
  }

  /** An entry with slots, wanted or in hardware, is marked as taken; a marked one has a port. */
  ghost predicate EntryOk(m: Manager, i: nat)
    requires i < |m.payloads| == |m.proposed|
  {
    (Wanted(m, i) > 0 ==> i + 1 in m.payloadMask) &&
    (m.payloads[i].num > 0 ==> i + 1 in m.payloadMask) &&
    (i + 1 in m.payloadMask ==> m.proposed[i].Some?) &&
    (m.payloads[i].state == DeleteLocal ==> m.payloads[i].num == 0)
  }

  ghost predicate EntriesOk(m: Manager) {
    |m.payloads| == |m.proposed| && 0 in m.payloadMask && (forall b :: b in m.payloadMask ==> b <= |m.payloads|) &&
    forall i :: 0 <= i < |m.payloads| ==> EntryOk(m, i)
  }

  ghost predicate Inv(m: Manager) {
    VcpisOk(m.ports, m.vcpiMask, |m.payloads|) && ProposedOk(m.proposed, m.ports) && EntriesOk(m)
  }

  // ----- allocating and freeing -----

  /**
   An allocation on a port without a channel keeps the invariant. The channel number is new and in
   range, and the entry it takes has no slots, neither wanted nor in hardware.
   */
  lemma AllocateKeepsInv(m: Manager, port: nat, slots: nat)
    requires Inv(m) && port in m.ports && m.ports[port].vcpi == 0
    ensures Inv(Allocate(m, port, slots).0)
    ensures Allocate(m, port, slots).1 ==>
              var (id, vc) := FreeIds(m).value;
              1 <= vc + 1 <= |m.payloads| + 1 && Allocate(m, port, slots).0.ports[port].vcpi == vc + 1 &&
              (forall p :: p in m.ports ==> m.ports[p].vcpi != vc + 1) &&
              1 <= id <= |m.payloads| && m.payloads[id - 1].num == 0 && Wanted(m, id - 1) == 0
  {
    hide VcpisOk;
    var (m1, ok) := Allocate(m, port, slots);
    if ok {
      var (id, vc) := FreeIds(m).value;
      AllocateVcpis(m.ports, m.vcpiMask, |m.payloads|, port, vc, slots);
      assert EntryOk(m, id - 1);
      AllocateEntries(m, m1, port, id, slots);
    } else {
      VcpisSame(m.ports, m.vcpiMask, |m.payloads|, port, slots);
      forall i | 0 <= i < |m1.payloads| ensures EntryOk(m1, i) { assert EntryOk(m, i); }
    }
  }

  /**
   What an allocation does: it fails if and only if all table entries or all channel numbers are taken, and then
   only the wish of the port changes. Otherwise exactly one entry names the port, which asks for the slots.
   */
  lemma AllocateIs(m: Manager, port: nat, slots: nat)
    requires |m.payloads| == |m.proposed| && 0 in m.payloadMask && port in m.ports
    ensures var (m1, ok) := Allocate(m, port, slots); var n := |m.payloads|;
            (ok <==> (exists i: nat :: i <= n && i !in m.payloadMask) && exists i: nat :: i <= n && i !in m.vcpiMask) &&
            m1.payloads == m.payloads && m1.ports.Keys == m.ports.Keys && m1.ports[port].slots == slots &&
            (forall p :: p in m.ports && p != port ==> m1.ports[p] == m.ports[p]) &&
            (!ok ==> m1.ports[port].vcpi == m.ports[port].vcpi && m1.proposed == m.proposed &&
                     m1.payloadMask == m.payloadMask && m1.vcpiMask == m.vcpiMask) &&
            (ok ==> exists i :: TakenBy(m, m1, port, i))
  {
    var (m1, ok) := Allocate(m, port, slots);
    if ok { assert TakenBy(m, m1, port, FreeIds(m).value.0 - 1); }
  }

  /** Entry i, which was not marked, is now the port's, under the number that the port has got. */
  ghost predicate TakenBy(m: Manager, m1: Manager, port: nat, i: int) {
    0 <= i < |m.proposed| && i + 1 !in m.payloadMask && m1.payloadMask == m.payloadMask + {i + 1} &&
    m1.proposed == m.proposed[i := Some(port)] && port in m1.ports && m1.ports[port].vcpi > 0 &&
    m1.ports[port].vcpi - 1 !in m.vcpiMask && m1.vcpiMask == m.vcpiMask + {m1.ports[port].vcpi - 1}
  }

  /** Setting the wish of the port first makes no difference. */
  lemma WishFirst(m: Manager, port: nat, slots: nat)
    requires |m.payloads| == |m.proposed| && 0 in m.payloadMask && port in m.ports
    ensures Allocate(m.(ports := m.ports[port := m.ports[port].(slots := slots)]), port, slots) ==
            Allocate(m, port, slots)
  {
    var ports := m.ports[port := m.ports[port].(slots := slots)];
    var v := match FreeIds(m) case None => m.ports[port].(slots := slots) case Some((_, vc)) => Vcpi(vc + 1, slots);
    assert ports[port := v] == m.ports[port := v];
  }

  lemma FreshIds(m: Manager, id: nat, vc: nat)
    requires 0 in m.payloadMask && FreeIds(m) == Some((id, vc))
    ensures 1 <= id <= |m.payloads| && id !in m.payloadMask && vc <= |m.payloads| && vc !in m.vcpiMask
  {
  }

  /** Freeing a channel that was only just allocated takes back number, mark and entry. */
  lemma FreeUndoesAllocate(m: Manager, port: nat, slots: nat, id: nat, vc: nat)
    requires Inv(m) && port in m.ports && m.ports[port].vcpi == 0 && FreeIds(m) == Some((id, vc))
    ensures 1 <= id <= |m.proposed|
    ensures Deallocate(Allocate(m, port, slots).0, port) ==
            m.(ports := m.ports[port := Vcpi(0, 0)], proposed := m.proposed[id - 1 := None])
  {
    hide EntryOk, VcpisOk;
    var m1 := Allocate(m, port, slots).0;
    assert m1 == Allotted(m, port, slots, id, vc);
    AllocateKeepsInv(m, port, slots);
    FreshIds(m, id, vc);
    hide Allocate, FreeIds, Inv;
    AloneNamed(m, m1, port, id - 1);
    PutIdIs(m1, vc + 1, id - 1);
    hide PutId;
    FreedParts(m, m1, PutId(m1, vc + 1), port, slots, id, vc);
  }

  function Allotted(m: Manager, port: nat, slots: nat, id: nat, vc: nat): Manager
    requires port in m.ports && 1 <= id <= |m.proposed|
  {
    m.(ports := m.ports[port := Vcpi(vc + 1, slots)], payloadMask := m.payloadMask + {id},
       vcpiMask := m.vcpiMask + {vc}, proposed := m.proposed[id - 1 := Some(port)])
  }

  lemma FreedParts(m: Manager, m1: Manager, m2: Manager, port: nat, slots: nat, id: nat, vc: nat)
    requires port in m.ports && 1 <= id <= |m.proposed| && m1 == Allotted(m, port, slots, id, vc)
    requires id !in m.payloadMask && vc !in m.vcpiMask && m2.payloads == m.payloads && m2.ports == m1.ports
    requires m2.vcpiMask == m1.vcpiMask - {vc} && m2.payloadMask == m1.payloadMask - {id}
    requires m2.proposed == m1.proposed[id - 1 := None]
    ensures m2.(ports := m2.ports[port := Vcpi(0, 0)]) ==
            m.(ports := m.ports[port := Vcpi(0, 0)], proposed := m.proposed[id - 1 := None])
  {
    assert m.payloadMask + {id} - {id} == m.payloadMask && m.vcpiMask + {vc} - {vc} == m.vcpiMask;
    assert m1.ports[port := Vcpi(0, 0)] == m.ports[port := Vcpi(0, 0)];
    assert m.proposed[id - 1 := Some(port)][id - 1 := None] == m.proposed[id - 1 := None];
  }

  lemma AloneNamed(m: Manager, m1: Manager, port: nat, at: nat)
    requires Inv(m) && Inv(m1) && port in m.ports && port in m1.ports && m.ports[port].vcpi == 0
    requires m1.ports[port].vcpi > 0 && at < |m.proposed| && m1.proposed == m.proposed[at := Some(port)]
    ensures forall i :: 0 <= i < |m1.proposed| ==> (Names(m1, i, m1.ports[port].vcpi) <==> i == at)
  {
    NamesItsPort(m1, port);
    NamesItsPort(m, port);
    hide Inv, Names;
  }

  /** Putting back a number that only entry `at` names. */
  lemma PutIdIs(m: Manager, v: nat, at: nat)
    requires v > 0 && at < |m.proposed| && forall i :: 0 <= i < |m.proposed| ==> (Names(m, i, v) <==> i == at)
    ensures var m1 := PutId(m, v);
            m1.payloads == m.payloads && m1.ports == m.ports && m1.vcpiMask == m.vcpiMask - {v - 1} &&
            m1.payloadMask == m.payloadMask - {at + 1} && m1.proposed == m.proposed[at := None]
  {
    assert FreedBits(m, v) == {at + 1} by {
      assert Names(m, at, v);
    }
  }

  lemma AllocateEntries(m: Manager, m1: Manager, port: nat, id: nat, slots: nat)
    requires EntriesOk(m) && ProposedOk(m.proposed, m.ports) && port in m.ports && m.ports[port].vcpi == 0
    requires 1 <= id <= |m.payloads| && m1.payloads == m.payloads
    requires m1.ports.Keys == m.ports.Keys && m1.ports[port].vcpi > 0
    requires forall p :: p in m.ports && p != port ==> m1.ports[p] == m.ports[p]
    requires m1.payloadMask == m.payloadMask + {id} && m1.proposed == m.proposed[id - 1 := Some(port)]
    ensures EntriesOk(m1) && ProposedOk(m1.proposed, m1.ports)
  {
    forall i | 0 <= i < |m1.payloads| ensures EntryOk(m1, i) { assert EntryOk(m, i); }
  }

  lemma OwnedAfter(ports: map<nat, Vcpi>, port: nat, v: Vcpi, vcpi: nat)
    requires Owned(ports, vcpi) && port in ports && ports[port].vcpi != vcpi
    ensures Owned(ports[port := v], vcpi)
  {
    var p :| p in ports && ports[p].vcpi == vcpi;
    assert ports[port := v][p].vcpi == vcpi;
  }

  lemma AllocateVcpis(ports: map<nat, Vcpi>, mask: set<nat>, n: nat, port: nat, vc: nat, slots: nat)
    requires VcpisOk(ports, mask, n) && port in ports && ports[port].vcpi == 0 && vc !in mask && vc <= n
    ensures VcpisOk(ports[port := Vcpi(vc + 1, slots)], mask + {vc}, n)
    ensures forall p :: p in ports ==> ports[p].vcpi != vc + 1
  {
    hide Owned;
    var ports1 := ports[port := Vcpi(vc + 1, slots)];
    forall b | b in mask + {vc}
      ensures b <= n && Owned(ports1, b + 1)
    {
      if b == vc {
        OwnedNow(ports, port, Vcpi(vc + 1, slots));
      } else {
        OwnedAfter(ports, port, Vcpi(vc + 1, slots), b + 1);
      }
    }
  }

  lemma OwnedNow(ports: map<nat, Vcpi>, port: nat, v: Vcpi)
    ensures Owned(ports[port := v], v.vcpi)
  {
    assert ports[port := v][port].vcpi == v.vcpi;
  }

  lemma VcpisSame(ports: map<nat, Vcpi>, mask: set<nat>, n: nat, port: nat, slots: nat)
    requires VcpisOk(ports, mask, n) && port in ports
    ensures VcpisOk(ports[port := ports[port].(slots := slots)], mask, n)
  {
    hide Owned;
    forall b | b in mask
      ensures Owned(ports[port := ports[port].(slots := slots)], b + 1)
    {
      if ports[port].vcpi == b + 1 {
        OwnedNow(ports, port, ports[port].(slots := slots));
      } else {
        OwnedAfter(ports, port, ports[port].(slots := slots), b + 1);
      }
    }
  }

  lemma DeallocateVcpis(ports: map<nat, Vcpi>, mask: set<nat>, n: nat, port: nat)
    requires VcpisOk(ports, mask, n) && port in ports
    ensures VcpisOk(ports[port := Vcpi(0, 0)], if ports[port].vcpi == 0 then mask else mask - {ports[port].vcpi - 1}, n)
  {
    hide Owned;
    forall b | b in mask && b + 1 != ports[port].vcpi
      ensures Owned(ports[port := Vcpi(0, 0)], b + 1)
    {
      OwnedAfter(ports, port, Vcpi(0, 0), b + 1);
    }
  }

  lemma ResetKeepsInv(m: Manager, port: nat)
    requires Inv(m) && port in m.ports
    ensures Inv(ResetSlots(m, port))
  {
    hide VcpisOk;
    VcpisSame(m.ports, m.vcpiMask, |m.payloads|, port, 0);
    var m1 := ResetSlots(m, port);
    forall i | 0 <= i < |m1.payloads| ensures EntryOk(m1, i) { assert EntryOk(m, i); }
  }

  /** Hardware slots that belong to a port's entry. */
  predicate HasHardwareSlots(m: Manager, port: nat)
    requires |m.payloads| == |m.proposed|
  {
    exists i :: 0 <= i < |m.proposed| && m.proposed[i] == Some(port) && m.payloads[i].num > 0
  }

  /** Freeing a channel keeps the invariant exactly when the hardware no longer has slots for it. */
  lemma DeallocateKeepsInvIff(m: Manager, port: nat)
    requires Inv(m) && port in m.ports
    ensures Inv(Deallocate(m, port)) <==> !HasHardwareSlots(m, port)
  {
    hide VcpisOk, HasHardwareSlots, EntryOk;
    var m1 := Deallocate(m, port);
    NamesItsPort(m, port);
    if HasHardwareSlots(m, port) {
      DeallocateOrphans(m, port);
    } else {
      DeallocateVcpis(m.ports, m.vcpiMask, |m.payloads|, port);
      DeallocateEntries(m, m1, port);
    }
  }

  /** The entries that name a port's channel are the port's own. */
  lemma NamesItsPort(m: Manager, port: nat)
    requires Inv(m) && port in m.ports
    ensures forall i :: 0 <= i < |m.proposed| ==>
              (m.ports[port].vcpi > 0 ==> (Names(m, i, m.ports[port].vcpi) <==> m.proposed[i] == Some(port))) &&
              (m.ports[port].vcpi == 0 ==> m.proposed[i] != Some(port))
  {
  }

  lemma DeallocateOrphans(m: Manager, port: nat)
    requires Inv(m) && port in m.ports && HasHardwareSlots(m, port)
    ensures !Inv(Deallocate(m, port))
  {
    hide VcpisOk;
    NamesItsPort(m, port);
    var i :| 0 <= i < |m.proposed| && m.proposed[i] == Some(port) && m.payloads[i].num > 0;
    var m1 := Deallocate(m, port);
    assert EntryOk(m, i) && m1.proposed[i] == None;
    assert !EntryOk(m1, i);
  }

  lemma DeallocateEntries(m: Manager, m1: Manager, port: nat)
    requires Inv(m) && port in m.ports && m1 == Deallocate(m, port) && !HasHardwareSlots(m, port)
    requires forall i :: 0 <= i < |m.proposed| ==>
               (m.ports[port].vcpi > 0 ==> (Names(m, i, m.ports[port].vcpi) <==> m.proposed[i] == Some(port))) &&
               (m.ports[port].vcpi == 0 ==> m.proposed[i] != Some(port))
    ensures ProposedOk(m1.proposed, m1.ports) && EntriesOk(m1)
  {
    hide VcpisOk;
    var n := |m.proposed|;
    forall i | 0 <= i < n
      ensures m1.proposed[i] == if m.proposed[i] == Some(port) then None else m.proposed[i]
    {
    }
    forall i | 0 <= i < |m1.payloads|
      ensures EntryOk(m1, i)
    {
      assert EntryOk(m, i);
      assert m.ports[port].vcpi > 0 ==> (i + 1 in FreedBits(m, m.ports[port].vcpi) <==> m.proposed[i] == Some(port));
    }
  }

  // ----- the update keeps the invariant -----

  /** After the first loop every entry has in hardware what is wanted. */
  lemma {:induction false} SolveAllMeetsWants(ps: seq<Payload>, want: seq<nat>, cur: nat, ok: seq<bool>)
    requires |ps| == |want| == |ok|
    requires forall i :: 0 <= i < |ps| && ps[i].state == DeleteLocal ==> ps[i].num == 0
    ensures var r := SolveAll(ps, want, cur, ok);
            forall i :: 0 <= i < |ps| ==> r[i].num == want[i] && (r[i].state == DeleteLocal ==> r[i].num == 0)
  {
    if ps != [] {
      SolveAllMeetsWants(ps[1..], want[1..], cur + want[0], ok[1..]);
    }
  }

  /** Hardware and wishes agree. */
  ghost predicate Settled(m: Manager) {
    |m.payloads| == |m.proposed| && forall i :: 0 <= i < |m.payloads| ==> m.payloads[i].num == Wanted(m, i)
  }

  lemma MaskBounds(mask: set<nat>, proposed: seq<Option<nat>>, ports: map<nat, Vcpi>, i: nat)
    requires 0 in mask && forall b :: b in mask ==> b <= |proposed|
    ensures var r := ShiftMask(mask, proposed, ports, i); 0 in r && forall b :: b in r ==> b <= |proposed|
  {
  }

  lemma RemoveKeepsInv(m: Manager, i: nat)
    requires Inv(m) && Settled(m) && i < |m.payloads|
    ensures Inv(RemoveAt(m, i)) && Settled(RemoveAt(m, i))
  {
    hide VcpisOk, ShiftMask;
    MaskBounds(m.payloadMask, RemoveAt(m, i).proposed, m.ports, i);
    var m1, n := RemoveAt(m, i), |m.payloads|;
    forall j | 0 <= j < n
      ensures m1.proposed[j] == if j < i then m.proposed[j] else if j < n - 1 then m.proposed[j + 1] else None
      ensures m1.payloads[j] == if j < i then m.payloads[j] else if j < n - 1 then m.payloads[j + 1] else NO_PAYLOAD
    {
    }
    hide ShiftDown;
    forall j | 0 <= j < n
      ensures EntryOk(m1, j) && m1.payloads[j].num == Wanted(m1, j)
    {
      RemovedEntry(m, m1, i, j);
    }
  }

  lemma RemovedEntry(m: Manager, m1: Manager, i: nat, j: nat)
    requires Inv(m) && Settled(m) && i < |m.payloads| && j < |m.payloads|
    requires |m1.payloads| == |m1.proposed| == |m.payloads| && m1.ports == m.ports
    requires m1.payloadMask == ShiftMask(m.payloadMask, m1.proposed, m.ports, i)
    requires var n := |m.payloads|;
             m1.proposed[j] == (if j < i then m.proposed[j] else if j < n - 1 then m.proposed[j + 1] else None) &&
             m1.payloads[j] == (if j < i then m.payloads[j] else if j < n - 1 then m.payloads[j + 1] else NO_PAYLOAD)
    ensures EntryOk(m1, j) && m1.payloads[j].num == Wanted(m1, j)
  {
    if j < i {
      assert EntryOk(m, j);
    } else if j < |m.payloads| - 1 {
      assert EntryOk(m, j + 1);
      assert m.payloads[j + 1].num == Wanted(m, j + 1);
    }
  }

  lemma {:induction false} CompactKeepsInv(m: Manager, i: nat)
    requires Inv(m) && Settled(m) && i <= |m.payloads|
    ensures Inv(Compact(m, i)) && Settled(Compact(m, i)) && Compact(m, i).ports == m.ports
    decreases |m.payloads| - i
  {
    if i < |m.payloads| {
      RemoveKeepsInv(m, i);
      hide Inv, Settled;
      CompactKeepsInv(if m.payloads[i].state == DeleteLocal then RemoveAt(m, i) else m, i + 1);
    }
  }

  /** The first loop of the update. */
  function Solved(m: Manager, ok: seq<bool>): (r: Manager)
    requires |m.payloads| == |m.proposed| == |ok|
    ensures |r.payloads| == |r.proposed| == |m.payloads|
  {
    m.(payloads := SolveAll(m.payloads, WantedAll(m), 1, ok))
  }

  lemma SolvedKeepsInv(m: Manager, ok: seq<bool>)
    requires Inv(m) && |ok| == |m.payloads|
    ensures Inv(Solved(m, ok)) && Settled(Solved(m, ok))
  {
    var m1 := Solved(m, ok);
    forall i | 0 <= i < |m.payloads| ensures m.payloads[i].state == DeleteLocal ==> m.payloads[i].num == 0 {
      assert EntryOk(m, i);
    }
    SolveAllMeetsWants(m.payloads, WantedAll(m), 1, ok);
    hide SolveAll, VcpisOk;
    forall i | 0 <= i < |m1.payloads|
      ensures EntryOk(m1, i) && m1.payloads[i].num == Wanted(m1, i)
    {
      assert EntryOk(m, i) && WantedAll(m)[i] == Wanted(m, i) == Wanted(m1, i);
    }
  }

  /** Part 1 keeps the invariant and leaves in hardware exactly what is wanted. */
  lemma Part1KeepsInv(m: Manager, ok: seq<bool>)
    requires Inv(m) && |ok| == |m.payloads|
    ensures Inv(Part1(m, ok)) && Settled(Part1(m, ok))
  {
    SolvedKeepsInv(m, ok);
    hide Inv, Settled, SolveAll;
    CompactKeepsInv(Solved(m, ok), 0);
  }

  lemma {:induction false} Part2KeepsInv(m: Manager, ok: seq<bool>, i: nat)
    requires Inv(m) && |ok| == |m.payloads| && i <= |ok|
    ensures Inv(Part2(m, ok, i))
    ensures |Part2(m, ok, i).payloads| == |m.payloads|
    ensures forall j :: 0 <= j < |m.payloads| ==>
              Part2(m, ok, i).payloads[j].start == m.payloads[j].start &&
              Part2(m, ok, i).payloads[j].num == m.payloads[j].num
    decreases |ok| - i
  {
    hide VcpisOk;
    if i < |ok| {
      var p := m.payloads[i];
      var p1 := if m.proposed[i] == None then p
                else if p.state == Local then p.(state := Remote)
                else if p.state == DeleteLocal then p.(state := Unset) else p;
      var m1 := m.(payloads := m.payloads[i := p1]);
      forall j | 0 <= j < |m1.payloads| ensures EntryOk(m1, j) { assert EntryOk(m, j); }
      assert m.payloads[i := p] == m.payloads;
      Part2KeepsInv(m1, ok, i + 1);
    }
  }

  // ----- the layout on the link -----

  /** A port with its first slot, its number of slots and how far its channel has got. */
  datatype Range = Range(port: Option<nat>, start: nat, num: nat, state: PayloadState)

  /** The entries with slots, in table order. */
  function Live(ps: seq<Payload>, proposed: seq<Option<nat>>): seq<Range>
    requires |ps| == |proposed|
  {
    if ps == [] then []
    else First(ps[0], proposed[0]) + Live(ps[1..], proposed[1..])
  }

  /**
   The states after the update: a channel whose slots stay as they are keeps its state, any other is local,
   or unset if the hardware did not take it.
   */
  function NextStates(ps: seq<Payload>, want: seq<nat>, ok: seq<bool>): (r: seq<PayloadState>)
    requires |ps| == |want| == |ok|
    ensures |r| == |ps|
  {
    seq(|ps|, i requires 0 <= i < |ps| => if ps[i].num == want[i] then ps[i].state else if ok[i] then Local else Unset)
  }

  /** Wishes laid out one after the other from slot `cur` on. */
  function Layout(proposed: seq<Option<nat>>, want: seq<nat>, states: seq<PayloadState>, cur: nat): seq<Range>
    requires |proposed| == |want| == |states|
  {
    if want == [] then []
    else (if want[0] > 0 then [Range(proposed[0], cur, want[0], states[0])] else []) +
         Layout(proposed[1..], want[1..], states[1..], cur + want[0])
  }

  lemma {:induction false} SolveGivesLayout(ps: seq<Payload>, proposed: seq<Option<nat>>, want: seq<nat>, cur: nat,
                                            ok: seq<bool>)
    requires |ps| == |proposed| == |want| == |ok|
    ensures Live(SolveAll(ps, want, cur, ok), proposed) == Layout(proposed, want, NextStates(ps, want, ok), cur)
  {
    if ps != [] {
      assert NextStates(ps, want, ok)[1..] == NextStates(ps[1..], want[1..], ok[1..]);
      SolveGivesLayout(ps[1..], proposed[1..], want[1..], cur + want[0], ok[1..]);
      var r := SolveAll(ps, want, cur, ok);
      assert r[1..] == SolveAll(ps[1..], want[1..], cur + want[0], ok[1..]);
    }
  }

  function First(p: Payload, port: Option<nat>): seq<Range> {
    if p.num > 0 then [Range(port, p.start, p.num, p.state)] else []
  }

  lemma LiveFirst(ps: seq<Payload>, pr: seq<Option<nat>>)
    requires |ps| == |pr| > 0
    ensures Live(ps, pr) == First(ps[0], pr[0]) + Live(ps[1..], pr[1..])
  {
  }

  lemma {:induction false} LiveConcat(ps: seq<Payload>, pr: seq<Option<nat>>, qs: seq<Payload>, qr: seq<Option<nat>>)
    requires |ps| == |pr| && |qs| == |qr|
    ensures Live(ps + qs, pr + qr) == Live(ps, pr) + Live(qs, qr)
  {
    if ps == [] {
      assert ps + qs == qs && pr + qr == qr;
    } else {
      LiveConcat(ps[1..], pr[1..], qs, qr);
      assert (ps + qs)[1..] == ps[1..] + qs && (pr + qr)[1..] == pr[1..] + qr;
      LiveFirst(ps + qs, pr + qr);
      LiveFirst(ps, pr);
      hide Live;
    }
  }

  lemma EmptyEntry()
    ensures Live([NO_PAYLOAD], [None]) == []
  {
  }

  lemma NoSlots(p: Payload, port: Option<nat>)
    requires p.num == 0
    ensures First(p, port) == []
  {
  }

  /** Removing an entry without slots does not change what is live. */
  lemma RemoveKeepsLive(m: Manager, i: nat)
    requires |m.payloads| == |m.proposed| && i < |m.payloads| && m.payloads[i].num == 0
    ensures Live(RemoveAt(m, i).payloads, RemoveAt(m, i).proposed) == Live(m.payloads, m.proposed)
  {
    hide Live, First;
    var ps, pr := m.payloads, m.proposed;
    EmptyEntry();
    NoSlots(ps[i], pr[i]);
    LiveFirst(ps[i..], pr[i..]);
    LiveConcat(ps[..i], pr[..i], ps[i + 1..], pr[i + 1..]);
    LiveConcat(ps[..i] + ps[i + 1..], pr[..i] + pr[i + 1..], [NO_PAYLOAD], [None]);
    LiveConcat(ps[..i], pr[..i], ps[i..], pr[i..]);
    assert ps[..i] + ps[i..] == ps && pr[..i] + pr[i..] == pr;
    assert ps[i..][1..] == ps[i + 1..] && pr[i..][1..] == pr[i + 1..];
  }

  ghost predicate DeletedEmpty(ps: seq<Payload>) {
    forall i :: 0 <= i < |ps| && ps[i].state == DeleteLocal ==> ps[i].num == 0
  }

  lemma {:induction false} CompactKeepsLive(m: Manager, i: nat)
    requires |m.payloads| == |m.proposed| && i <= |m.payloads| && DeletedEmpty(m.payloads)
    ensures Live(Compact(m, i).payloads, Compact(m, i).proposed) == Live(m.payloads, m.proposed)
    decreases |m.payloads| - i
  {
    if i < |m.payloads| {
      if m.payloads[i].state == DeleteLocal {
        RemoveKeepsLive(m, i);
        assert DeletedEmpty(RemoveAt(m, i).payloads);
        CompactKeepsLive(RemoveAt(m, i), i + 1);
      } else {
        CompactKeepsLive(m, i + 1);
      }
    }
  }

  /** After part 1 the live ranges are the wishes in their order, one after the other from slot 1 on. */
  lemma Part1GivesLayout(m: Manager, ok: seq<bool>)
    requires Inv(m) && |ok| == |m.payloads|
    ensures Live(Part1(m, ok).payloads, Part1(m, ok).proposed) ==
            Layout(m.proposed, WantedAll(m), NextStates(m.payloads, WantedAll(m), ok), 1)
  {
    SolvedKeepsInv(m, ok);
    var m1 := Solved(m, ok);
    forall i | 0 <= i < |m1.payloads| ensures m1.payloads[i].state == DeleteLocal ==> m1.payloads[i].num == 0 {
      assert EntryOk(m1, i);
    }
    hide Inv, Settled, SolveAll;
    CompactKeepsLive(m1, 0);
    SolveGivesLayout(m.payloads, m.proposed, WantedAll(m), 1, ok);
  }

  function Sum(want: seq<nat>): nat {
    if want == [] then 0 else want[0] + Sum(want[1..])
  }

  /** Ranges follow each other without gap or overlap from `from` up to `to`. */
  ghost predicate Contiguous(rs: seq<Range>, from: nat, to: nat) {
    if rs == [] then from == to
    else rs[0].start == from && rs[0].num > 0 && Contiguous(rs[1..], from + rs[0].num, to)
  }

  lemma {:induction false} LayoutContiguous(proposed: seq<Option<nat>>, want: seq<nat>, states: seq<PayloadState>,
                                            cur: nat)
    requires |proposed| == |want| == |states|
    ensures Contiguous(Layout(proposed, want, states, cur), cur, cur + Sum(want))
  {
    if want != [] {
      LayoutContiguous(proposed[1..], want[1..], states[1..], cur + want[0]);
      var rest := Layout(proposed[1..], want[1..], states[1..], cur + want[0]);
      if want[0] > 0 {
        assert ([Range(proposed[0], cur, want[0], states[0])] + rest)[1..] == rest;
      } else {
        assert [] + rest == rest;
      }
    }
  }

  lemma {:induction false} ContiguousDisjoint(rs: seq<Range>, from: nat, to: nat, i: nat, j: nat)
    requires Contiguous(rs, from, to) && i < j < |rs|
    ensures from <= rs[i].start && rs[i].start + rs[i].num <= rs[j].start && rs[j].start + rs[j].num <= to
  {
    if i > 0 {
      ContiguousDisjoint(rs[1..], from + rs[0].num, to, i - 1, j - 1);
    } else {
      ContiguousBounds(rs[1..], from + rs[0].num, to, j - 1);
    }
  }

  lemma {:induction false} ContiguousBounds(rs: seq<Range>, from: nat, to: nat, j: nat)
    requires Contiguous(rs, from, to) && j < |rs|
    ensures from <= rs[j].start && rs[j].start + rs[j].num <= to
  {
    if j > 0 {
      ContiguousBounds(rs[1..], from + rs[0].num, to, j - 1);
    } else {
      ContiguousEnd(rs[1..], from + rs[0].num, to);
    }
  }

  lemma {:induction false} ContiguousEnd(rs: seq<Range>, from: nat, to: nat)
    requires Contiguous(rs, from, to)
    ensures from <= to
  {
    if rs != [] { ContiguousEnd(rs[1..], from + rs[0].num, to); }
  }

  // ----- when the removal loop misses an entry -----

  predicate Deleted(p: Payload) {
    p.state == DeleteLocal
  }

  /** Two deleted entries next to each other, from index i on. */
  ghost predicate DeletedPair(ps: seq<Payload>, i: nat) {
    exists j :: i <= j < |ps| - 1 && Deleted(ps[j]) && Deleted(ps[j + 1])
  }

  lemma {:induction false} CompactPrefix(m: Manager, i: nat, j: nat)
    requires |m.payloads| == |m.proposed| && j < i <= |m.payloads|
    ensures Compact(m, i).payloads[j] == m.payloads[j]
    decreases |m.payloads| - i
  {
    if i < |m.payloads| {
      CompactPrefix(if Deleted(m.payloads[i]) then RemoveAt(m, i) else m, i + 1, j);
    }
  }

  ghost predicate NoneDeleted(ps: seq<Payload>, n: nat) {
    n <= |ps| && forall j :: 0 <= j < n ==> !Deleted(ps[j])
  }

  /** The removal loop clears all deleted entries exactly when no two of them are neighbours. */
  lemma {:induction false} CompactCompleteIff(m: Manager, i: nat)
    requires |m.payloads| == |m.proposed| && i <= |m.payloads| && NoneDeleted(m.payloads, i)
    ensures NoneDeleted(Compact(m, i).payloads, |m.payloads|) <==> !DeletedPair(m.payloads, i)
    decreases |m.payloads| - i
  {
    var ps, n := m.payloads, |m.payloads|;
    if i < n {
      if Deleted(ps[i]) {
        var m1 := RemoveAt(m, i);
        assert forall j :: i <= j < n - 1 ==> m1.payloads[j] == ps[j + 1];
        if Deleted(m1.payloads[i]) {
          CompactPrefix(m1, i + 1, i);
          assert Deleted(ps[i]) && Deleted(ps[i + 1]);
        } else {
          CompactCompleteIff(m1, i + 1);
          PairsAfterRemoval(ps, m1.payloads, i);
        }
      } else {
        CompactCompleteIff(m, i + 1);
      }
    }
  }

  lemma PairsAfterRemoval(ps: seq<Payload>, qs: seq<Payload>, i: nat)
    requires |ps| == |qs| && i < |ps| && Deleted(ps[i]) && !Deleted(qs[i]) && !Deleted(qs[|qs| - 1])
    requires forall j :: i <= j < |ps| - 1 ==> qs[j] == ps[j + 1]
    ensures DeletedPair(qs, i + 1) <==> DeletedPair(ps, i)
  {
    if DeletedPair(qs, i + 1) {
      var j :| i + 1 <= j < |qs| - 1 && Deleted(qs[j]) && Deleted(qs[j + 1]);
      assert Deleted(ps[j + 1]) && Deleted(ps[j + 2]);
    }
    if DeletedPair(ps, i) {
      var j :| i <= j < |ps| - 1 && Deleted(ps[j]) && Deleted(ps[j + 1]);
      assert qs[j] == ps[j + 1];
      if j > i { assert qs[j - 1] == ps[j]; }
      assert Deleted(qs[j - 1]) && Deleted(qs[j]);
    }
  }

  /** Part 1 will take the entry out: it has slots and none are wanted, or an earlier removal has missed it. */
  predicate Goes(m: Manager, i: nat)
    requires i < |m.payloads| == |m.proposed|
  {
    (m.payloads[i].num > 0 && Wanted(m, i) == 0) || (m.payloads[i].num == Wanted(m, i) && Deleted(m.payloads[i]))
  }

  ghost predicate NeighboursGo(m: Manager)
    requires |m.payloads| == |m.proposed|
  {
    exists i :: 0 <= i < |m.payloads| - 1 && Goes(m, i) && Goes(m, i + 1)
  }

  lemma {:induction false} SolvedDeleted(ps: seq<Payload>, want: seq<nat>, cur: nat, ok: seq<bool>, i: nat)
    requires |ps| == |want| == |ok| && i < |ps|
    ensures Deleted(SolveAll(ps, want, cur, ok)[i]) <==>
              (ps[i].num > 0 && want[i] == 0) || (ps[i].num == want[i] && Deleted(ps[i]))
  {
    if i > 0 { SolvedDeleted(ps[1..], want[1..], cur + want[0], ok[1..], i - 1); }
  }

  /** Part 1 leaves no deleted entry behind if and only if no two neighbours are to go in it. */
  lemma Part1CompleteIff(m: Manager, ok: seq<bool>)
    requires |m.payloads| == |m.proposed| == |ok|
    ensures NoneDeleted(Part1(m, ok).payloads, |m.payloads|) <==> !NeighboursGo(m)
  {
    var s := Solved(m, ok);
    CompactCompleteIff(s, 0);
    forall i | 0 <= i < |m.payloads| ensures Deleted(s.payloads[i]) <==> Goes(m, i) {
      SolvedDeleted(m.payloads, WantedAll(m), 1, ok, i);
    }
    hide Compact, SolveAll, Goes, Deleted;
    if NeighboursGo(m) {
      var i :| 0 <= i < |m.payloads| - 1 && Goes(m, i) && Goes(m, i + 1);
      assert Deleted(s.payloads[i]) && Deleted(s.payloads[i + 1]);
    }
    if DeletedPair(s.payloads, 0) {
      var i :| 0 <= i < |s.payloads| - 1 && Deleted(s.payloads[i]) && Deleted(s.payloads[i + 1]);
      assert Goes(m, i) && Goes(m, i + 1);
    }
  }

  lemma {:induction false} CompactNothing(m: Manager, i: nat)
    requires |m.payloads| == |m.proposed| && i <= |m.payloads| && NoneDeleted(m.payloads, |m.payloads|)
    ensures Compact(m, i) == m
    decreases |m.payloads| - i
  {
    if i < |m.payloads| { CompactNothing(m, i + 1); }
  }

  // ----- whole runs -----

  datatype Step =
    | DoAllocate(port: nat, slots: nat)
    | DoReset(port: nat)
    | DoPart1(ok: seq<bool>)
    | DoPart2(ok: seq<bool>)
    | DoDeallocate(port: nat)

  /** Drivers allocate on ports without a channel and free a channel once its slots are gone from hardware. */
  ghost predicate Transition(m: Manager, step: Step, m1: Manager) {
    |m.payloads| == |m.proposed| && 0 in m.payloadMask &&
    match step
    case DoAllocate(p, slots) => p in m.ports && m.ports[p].vcpi == 0 && m1 == Allocate(m, p, slots).0
    case DoReset(p) => p in m.ports && m1 == ResetSlots(m, p)
    case DoPart1(ok) => |ok| == |m.payloads| && m1 == Part1(m, ok)
    case DoPart2(ok) => |ok| == |m.payloads| && m1 == Part2(m, ok, 0)
    case DoDeallocate(p) => p in m.ports && !HasHardwareSlots(m, p) && m1 == Deallocate(m, p)
  }

  ghost predicate Initial(m: Manager) {
    |m.payloads| == |m.proposed| && m.payloadMask == {0} && m.vcpiMask == {} &&
    (forall i :: 0 <= i < |m.payloads| ==> m.payloads[i] == NO_PAYLOAD && m.proposed[i] == None) &&
    forall p :: p in m.ports ==> m.ports[p].vcpi == 0
  }

  ghost predicate Run(states: seq<Manager>, steps: seq<Step>) {
    |states| == |steps| + 1 && Initial(states[0]) &&
    forall i :: 0 <= i < |steps| ==> Transition(states[i], steps[i], states[i + 1])
  }

  lemma TransitionKeepsInv(m: Manager, step: Step, m1: Manager)
    requires Inv(m) && Transition(m, step, m1)
    ensures Inv(m1)
  {
    hide Inv, Allocate, ResetSlots, Part1, Part2, Deallocate;
    match step
    case DoAllocate(p, slots) => AllocateKeepsInv(m, p, slots);
    case DoReset(p) => ResetKeepsInv(m, p);
    case DoPart1(ok) => Part1KeepsInv(m, ok);
    case DoPart2(ok) => Part2KeepsInv(m, ok, 0);
    case DoDeallocate(p) => DeallocateKeepsInvIff(m, p);
  }

  lemma {:induction false} RunKeepsInv(states: seq<Manager>, steps: seq<Step>, i: nat)
    requires Run(states, steps) && i < |states|
    ensures Inv(states[i])
  {
    hide Transition;
    if i == 0 {
      var m := states[0];
      forall j | 0 <= j < |m.payloads| ensures EntryOk(m, j) { }
    } else {
      RunKeepsInv(states, steps, i - 1);
      hide Inv;
      TransitionKeepsInv(states[i - 1], steps[i - 1], states[i]);
    }
  }

  /** In every reachable state live channel numbers are in range and no two ports share one. */
  lemma LiveVcpisDistinct(states: seq<Manager>, steps: seq<Step>, i: nat, p: nat, q: nat)
    requires Run(states, steps) && i < |states|
    requires p in states[i].ports && q in states[i].ports && p != q && states[i].ports[p].vcpi > 0
    ensures 1 <= states[i].ports[p].vcpi <= |states[i].payloads| + 1
    ensures states[i].ports[p].vcpi != states[i].ports[q].vcpi
  {
    RunKeepsInv(states, steps, i);
  }

  /**
   Resetting a port's slots and running part 1 is what makes it ready to be freed; the other ports ask for what
   they asked for.
   */
  lemma ResetThenPart1(m: Manager, ok: seq<bool>, port: nat)
    requires Inv(m) && |ok| == |m.payloads| && port in m.ports
    ensures var m1 := ResetSlots(m, port);
            |m1.payloads| == |m1.proposed| == |ok| && Part1(m1, ok).ports == m1.ports &&
            !HasHardwareSlots(Part1(m1, ok), port) && Inv(Deallocate(Part1(m1, ok), port)) &&
            forall p :: p in m.ports && p != port ==> p in m1.ports && m1.ports[p] == m.ports[p]
  {
    hide SolveAll, Compact, EntryOk, VcpisOk;
    var m1 := ResetSlots(m, port);
    ResetKeepsInv(m, port);
    Part1ReleasesReset(m1, ok, port);
    Part1KeepsInv(m1, ok);
    hide Inv, Part1;
    PortsStay(m1, ok);
    DeallocateKeepsInvIff(Part1(m1, ok), port);
  }

  lemma PortsStay(m: Manager, ok: seq<bool>)
    requires |m.payloads| == |m.proposed| == |ok|
    ensures Part1(m, ok).ports == m.ports
  {
    CompactPorts(m.(payloads := SolveAll(m.payloads, WantedAll(m), 1, ok)), 0);
  }

  lemma {:induction false} CompactPorts(m: Manager, i: nat)
    requires |m.payloads| == |m.proposed| && i <= |m.payloads|
    ensures Compact(m, i).ports == m.ports
    decreases |m.payloads| - i
  {
    if i < |m.payloads| { CompactPorts(if m.payloads[i].state == DeleteLocal then RemoveAt(m, i) else m, i + 1); }
  }

  lemma Part1ReleasesReset(m: Manager, ok: seq<bool>, port: nat)
    requires Inv(m) && |ok| == |m.payloads| && port in m.ports && m.ports[port].slots == 0
    ensures !HasHardwareSlots(Part1(m, ok), port)
  {
    hide Inv, SolveAll, Compact;
    assert |m.payloads| == |m.proposed| by { SameLength(m); }
    SolvedKeepsInv(m, ok);
    CompactKeepsInv(Solved(m, ok), 0);
  }

  lemma SameLength(m: Manager)
    requires Inv(m)
    ensures |m.payloads| == |m.proposed|
  {
  }

  /** Slots in hardware belong to an entry with a port. */
  lemma HardwareHasPort(m: Manager, i: nat)
    requires Inv(m) && i < |m.payloads|
    ensures i < |m.proposed| && (m.payloads[i].num > 0 ==> m.proposed[i].Some?)
    ensures m.proposed[i].Some? ==> m.proposed[i].value in m.ports
  {
    assert EntryOk(m, i);
  }

  /** One turn of the removal loop. */
  lemma CompactTurn(m: Manager, i: nat)
    requires |m.payloads| == |m.proposed| && i <= |m.payloads|
    ensures i == |m.payloads| ==> Compact(m, i) == m
    ensures i < |m.payloads| && m.payloads[i].state == DeleteLocal ==> Compact(m, i) == Compact(RemoveAt(m, i), i + 1)
    ensures i < |m.payloads| && m.payloads[i].state != DeleteLocal ==> Compact(m, i) == Compact(m, i + 1)
  {
    hide RemoveAt;
  }

  // ----- two channels on a table of two entries -----

  /** Ports 0 and 1 with what they ask for, and the slots the hardware has for them. */
  function Two(a: Vcpi, b: Vcpi, payloads: seq<Payload>, proposed: seq<Option<nat>>, mask: set<nat>,
      vcpis: set<nat>): Manager
  {
    Manager(payloads, proposed, map[0 := a, 1 := b], mask, vcpis)
  }

  const BOTH_LIVE: seq<Payload> := [Payload(1, 4, Local), Payload(5, 4, Local)]
  const BOTH_PORTS: seq<Option<nat>> := [Some(0), Some(1)]

  lemma AllocateTwo(s0: Manager, s1: Manager, s2: Manager)
    requires s0 == Two(Vcpi(0, 0), Vcpi(0, 0), [NO_PAYLOAD, NO_PAYLOAD], [None, None], {0}, {})
    requires s1 == Two(Vcpi(1, 4), Vcpi(0, 0), [NO_PAYLOAD, NO_PAYLOAD], [Some(0), None], {0, 1}, {0})
    requires s2 == Two(Vcpi(1, 4), Vcpi(2, 4), [NO_PAYLOAD, NO_PAYLOAD], BOTH_PORTS, {0, 1, 2}, {0, 1})
    ensures Initial(s0) && Transition(s0, DoAllocate(0, 4), s1) && Transition(s1, DoAllocate(1, 4), s2)
  {
    assert FirstZero({0}, 3) == 1 && FirstZero({}, 3) == 0 && FirstZero({0, 1}, 3) == 2 && FirstZero({0}, 3) == 1;
    assert s0.ports[0 := Vcpi(1, 4)] == s1.ports && s1.ports[1 := Vcpi(2, 4)] == s2.ports;
    assert [None, None][0 := Some(0)] == [Some(0), None] && [Some(0), None][1 := Some(1)] == BOTH_PORTS;
  }

  lemma UpdateTwo(s2: Manager, s3: Manager)
    requires s2 == Two(Vcpi(1, 4), Vcpi(2, 4), [NO_PAYLOAD, NO_PAYLOAD], BOTH_PORTS, {0, 1, 2}, {0, 1})
    requires s3 == s2.(payloads := BOTH_LIVE)
    ensures Transition(s2, DoPart1([true, true]), s3)
  {
    assert WantedAll(s2) == [4, 4];
    var ps := [NO_PAYLOAD, NO_PAYLOAD];
    assert ps[1..] == [NO_PAYLOAD] && [4, 4][1..] == [4] && [true, true][1..] == [true];
    assert SolveAll([NO_PAYLOAD], [4], 5, [true]) == [Payload(5, 4, Local)];
    assert SolveAll(ps, [4, 4], 1, [true, true]) == BOTH_LIVE;
    CompactNothing(s3, 0);
  }

  lemma TwoLive() returns (states: seq<Manager>, steps: seq<Step>)
    ensures Run(states, steps) && |states| == |steps| + 1
    ensures states[|steps|] == Two(Vcpi(1, 4), Vcpi(2, 4), BOTH_LIVE, BOTH_PORTS, {0, 1, 2}, {0, 1})
  {
    var s0 := Two(Vcpi(0, 0), Vcpi(0, 0), [NO_PAYLOAD, NO_PAYLOAD], [None, None], {0}, {});
    var s1 := Two(Vcpi(1, 4), Vcpi(0, 0), [NO_PAYLOAD, NO_PAYLOAD], [Some(0), None], {0, 1}, {0});
    var s2 := Two(Vcpi(1, 4), Vcpi(2, 4), [NO_PAYLOAD, NO_PAYLOAD], BOTH_PORTS, {0, 1, 2}, {0, 1});
    var s3 := s2.(payloads := BOTH_LIVE);
    AllocateTwo(s0, s1, s2);
    UpdateTwo(s2, s3);
    hide Transition, Initial;
    states, steps := [s0, s1, s2, s3], [DoAllocate(0, 4), DoAllocate(1, 4), DoPart1([true, true])];
  }

  /** Freeing a channel while the hardware has slots for it leaves them to nobody. */
  lemma FreedTooEarly() returns (states: seq<Manager>, steps: seq<Step>)
    ensures Run(states, steps) && |states| == |steps| + 1 && 0 in states[|steps|].ports
    ensures Inv(states[|steps|]) && !Inv(Deallocate(states[|steps|], 0))
  {
    states, steps := TwoLive();
    RunKeepsInv(states, steps, |steps|);
    hide Run, Inv;
    var m := states[|steps|];
    assert m.proposed[0] == Some(0) && m.payloads[0].num > 0;
    DeallocateKeepsInvIff(m, 0);
  }

  /** Two neighbouring channels that are reset together: part 1 leaves a deleted entry in the table. */
  lemma NeighboursLeftBehind(ok: seq<bool>) returns (states: seq<Manager>, steps: seq<Step>)
    requires |ok| == 2
    ensures Run(states, steps) && |states| == |steps| + 1 && |states[|steps|].payloads| == 2
    ensures |steps| > 0 && steps[|steps| - 1] == DoPart1(ok) && !NoneDeleted(states[|steps|].payloads, 2)
  {
    var before, how := TwoLive();
    var m := before[|how|];
    var m1 := ResetSlots(m, 0);
    var m2 := ResetSlots(m1, 1);
    assert Goes(m2, 0) && Goes(m2, 1);
    Part1CompleteIff(m2, ok);
    hide Part1;
    assert Transition(m, DoReset(0), m1) && Transition(m1, DoReset(1), m2) &&
           Transition(m2, DoPart1(ok), Part1(m2, ok));
    hide Transition, Initial;
    states := before + [m1, m2, Part1(m2, ok)];
    steps := how + [DoReset(0), DoReset(1), DoPart1(ok)];
  }

  // ----- the C routines -----

  class Table {
    const payloads: array<Payload>
    const proposed: array<Option<nat>>
    var ports: map<nat, Vcpi>
    var payloadMask: set<nat>
    var vcpiMask: set<nat>

    ghost predicate Valid()
      reads this
    {
      payloads.Length == proposed.Length && 0 in payloadMask
    }

    ghost function View(): Manager
      reads this, payloads, proposed
    {
      Manager(payloads[..], proposed[..], ports, payloadMask, vcpiMask)
    }

    constructor (max: nat, ports: map<nat, Vcpi>)
      requires forall p :: p in ports ==> ports[p].vcpi == 0
      ensures Valid() && fresh(payloads) && fresh(proposed) && payloads.Length == max
      ensures Initial(View()) && this.ports == ports
    {
      payloads := new Payload[max](_ => NO_PAYLOAD);
      proposed := new Option<nat>[max](_ => None);
      this.ports := ports;
      payloadMask, vcpiMask := {0}, {};
    }

    /** drm_dp_init_vcpi: a negative number stands for an error return. */
    method InitVcpi(port: nat, slots: nat, avail: nat) returns (ret: int)
      requires Valid() && port in ports
      modifies this, proposed
      ensures Valid()
      ensures slots > avail ==> ret < 0 && View() == old(View())
      ensures slots <= avail ==> (View(), ret >= 0) == Allocate(old(View()), port, slots)
      ensures Inv(old(View())) && old(ports)[port].vcpi == 0 ==> Inv(View())
    {
      hide Inv, Allocate;
      ghost var m := View();
      if Inv(m) && ports[port].vcpi == 0 { AllocateKeepsInv(m, port, slots); }
      if slots > avail { return -28; }
      ports := ports[port := ports[port].(slots := slots)];
      WishFirst(m, port, slots);
      ret := AssignPayloadId(port);
    }

    /** drm_dp_mst_assign_payload_id. */
    method AssignPayloadId(port: nat) returns (ret: int)
      requires Valid() && port in ports
      modifies this, proposed
      ensures Valid()
      ensures (View(), ret >= 0) == Allocate(old(View()), port, old(ports)[port].slots)
    {
      var max := payloads.Length;
      ret := FirstZero(payloadMask, max + 1);
      if ret > max {
        assert ports[port := ports[port].(slots := ports[port].slots)] == ports;
        return -1;
      }
      var vcpiRet := FirstZero(vcpiMask, max + 1);
      if vcpiRet > max {
        assert ports[port := ports[port].(slots := ports[port].slots)] == ports;
        return -1;
      }
      payloadMask := payloadMask + {ret};
      vcpiMask := vcpiMask + {vcpiRet};
      ports := ports[port := ports[port].(vcpi := vcpiRet + 1)];
      proposed[ret - 1] := Some(port);
    }

    method PutPayloadId(vcpi: nat)
      requires Valid()
      modifies this`payloadMask, this`vcpiMask, proposed
      ensures Valid() && View() == PutId(old(View()), vcpi)
    {
      if vcpi == 0 {
        return;
      }
      ghost var m := View();
      vcpiMask := vcpiMask - {vcpi - 1};
      var i := 0;
      while i < proposed.Length
        invariant 0 <= i <= proposed.Length && Valid() && vcpiMask == m.vcpiMask - {vcpi - 1}
        invariant forall j :: 0 <= j < proposed.Length ==>
                    proposed[j] == if j < i then ClearNames(m, vcpi)[j] else m.proposed[j]
        invariant payloadMask == m.payloadMask - (set j | 0 <= j < i && Names(m, j, vcpi) :: j + 1)
      {
        if proposed[i].Some? && proposed[i].value in ports && ports[proposed[i].value].vcpi == vcpi {
          proposed[i] := None;
          payloadMask := payloadMask - {i + 1};
        }
        i := i + 1;
      }
      assert proposed[..] == ClearNames(m, vcpi);
      assert payloadMask == m.payloadMask - FreedBits(m, vcpi);
    }

    method DeallocateVcpi(port: nat)
      requires Valid() && port in ports
      modifies this, proposed
      ensures Valid() && View() == Deallocate(old(View()), port)
    {
      PutPayloadId(ports[port].vcpi);
      ports := ports[port := Vcpi(0, 0)];
    }

    /** The body of the first loop: hardware entry i gets `slots` slots from `cur` on. */
    method SolveEntry(i: nat, slots: nat, cur: nat, ok: bool)
      requires i < payloads.Length
      modifies payloads
      ensures payloads[..] == old(payloads[..])[i := Solve(old(payloads[i]), slots, cur, ok)]
    {
      payloads[i] := payloads[i].(start := cur);
      if payloads[i].num != slots {
        if slots > 0 {
          payloads[i] := Payload(cur, slots, if ok then Local else Unset);
        } else {
          payloads[i] := Payload(0, 0, DeleteLocal);
        }
      }
    }

    /** The first loop of drm_dp_update_payload_part1; ok[i] says whether hardware took entry i. */
    method SolveLoop(ok: seq<bool>)
      requires Valid() && |ok| == payloads.Length
      requires forall i :: 0 <= i < payloads.Length && payloads[i].num > 0 ==> proposed[i].Some?
      requires forall i :: 0 <= i < proposed.Length && proposed[i].Some? ==> proposed[i].value in ports
      modifies payloads
      ensures Valid() && View() == Solved(old(View()), ok)
    {
      hide SolveAll, Solve;
      ghost var m := View();
      ghost var want, final := WantedAll(m), SolveAll(m.payloads, WantedAll(m), 1, ok);
      ghost var rest := final;
      var cur, i := 1, 0;
      assert m.payloads[0..] == m.payloads && want[0..] == want && ok[0..] == ok;
      while i < payloads.Length
        invariant 0 <= i <= payloads.Length && proposed[..] == m.proposed
        invariant rest == SolveAll(m.payloads[i..], want[i..], cur, ok[i..])
        invariant final == payloads[..i] + rest && payloads[i..] == m.payloads[i..]
      {
        SolveFirst(m.payloads, want, cur, ok, i);
        var slots := 0;
        if proposed[i].Some? {
          slots := ports[proposed[i].value].slots;
        }
        ghost var before := payloads[..];
        assert before[i] == before[i..][0] == m.payloads[i..][0] == m.payloads[i];
        SolveEntry(i, slots, cur, ok[i]);
        MoveBoundary(before, payloads[..], m.payloads, rest, i);
        rest := rest[1..];
        cur := cur + slots;
        i := i + 1;
      }
      assert payloads[..i] == payloads[..];
    }

    /** One turn of the inner removal loop. */
    method MoveDown(j: nat)
      requires Valid() && j + 1 < payloads.Length
      modifies this`payloadMask, payloads, proposed
      ensures Valid()
      ensures payloads[..] == old(payloads[..])[j := old(payloads[j + 1])]
      ensures proposed[..] == old(proposed[..])[j := old(proposed[j + 1])]
      ensures payloadMask ==
              if Takes(proposed[j], ports) then old(payloadMask) + {j + 1} else old(payloadMask) - {j + 1}
    {
      payloads[j] := payloads[j + 1];
      proposed[j] := proposed[j + 1];
      if proposed[j].Some? && proposed[j].value in ports && ports[proposed[j].value].slots > 0 {
        payloadMask := payloadMask + {j + 1};
      } else {
        payloadMask := payloadMask - {j + 1};
      }
    }

    /** The inner loop of the removal: everything behind entry i moves down one place. */
    method Remove(i: nat)
      requires Valid() && i < payloads.Length
      modifies this`payloadMask, payloads, proposed
      ensures Valid() && View() == RemoveAt(old(View()), i)
    {
      hide ShiftTo, ShiftDown, ShiftMask, ShiftMaskTo, Takes;
      ghost var m := View();
      var max := payloads.Length;
      var j := i;
      ShiftEnds(m.payloads, i, NO_PAYLOAD);
      ShiftEnds(m.proposed, i, None);
      MaskEnds(m.payloadMask, m.proposed, ports, i);
      while j < max - 1
        invariant i <= j <= max - 1 && Valid()
        invariant payloads[..] == ShiftTo(m.payloads, i, j) && proposed[..] == ShiftTo(m.proposed, i, j)
        invariant payloadMask == ShiftMaskTo(m.payloadMask, proposed[..], ports, i, j)
      {
        ghost var before := proposed[..];
        ShiftToStep(m.payloads, i, j);
        ShiftToStep(m.proposed, i, j);
        assert payloads[j + 1] == payloads[..][j + 1] && proposed[j + 1] == before[j + 1];
        MoveDown(j);
        MaskStep(m.payloadMask, before, proposed[..], ports, i, j);
        j := j + 1;
      }
      ghost var before, beforePayloads := proposed[..], payloads[..];
      payloads[max - 1] := NO_PAYLOAD;
      proposed[max - 1] := None;
      payloadMask := payloadMask - {max};
      assert payloads[..] == beforePayloads[max - 1 := NO_PAYLOAD] && proposed[..] == before[max - 1 := None];
      TakesNone(ports);
      MaskStep(m.payloadMask, before, proposed[..], ports, i, max - 1);
      MaskEnds(m.payloadMask, proposed[..], ports, i);
    }

    method UpdatePart1(ok: seq<bool>)
      requires Valid() && Inv(View()) && |ok| == payloads.Length
      modifies this`payloadMask, payloads, proposed
      ensures Valid() && View() == Part1(old(View()), ok)
    {
      hide Inv, Compact, RemoveAt, SolveAll;
      forall i | 0 <= i < payloads.Length
        ensures payloads[i].num > 0 ==> proposed[i].Some?
        ensures proposed[i].Some? ==> proposed[i].value in ports
      {
        HardwareHasPort(View(), i);
      }
      SolveLoop(ok);
      ghost var final := Compact(View(), 0);
      var i := 0;
      while i < payloads.Length
        invariant 0 <= i <= payloads.Length && Valid()
        invariant Compact(View(), i) == final
      {
        CompactTurn(View(), i);
        if payloads[i].state == DeleteLocal {
          Remove(i);
        }
        i := i + 1;
      }
      CompactTurn(View(), i);
    }

    method UpdatePart2(ok: seq<bool>) returns (ret: int)
      requires Valid() && |ok| == payloads.Length
      modifies payloads
      ensures Valid() && View() == Part2(old(View()), ok, 0)
    {
      ghost var final := Part2(View(), ok, 0);
      var i := 0;
      while i < payloads.Length
        invariant 0 <= i <= payloads.Length && Part2(View(), ok, i) == final
      {
        ghost var m := View();
        if proposed[i].Some? {
          if payloads[i].state == Local {
            if !ok[i] {
              return -1;
            }
            payloads[i] := payloads[i].(state := Remote);
            assert payloads[..] == m.payloads[i := m.payloads[i].(state := Remote)];
          } else if payloads[i].state == DeleteLocal {
            payloads[i] := payloads[i].(state := Unset);
            assert payloads[..] == m.payloads[i := m.payloads[i].(state := Unset)];
          }
        }
        i := i + 1;
      }
      ret := 0;
    }
  }

  /** The table after the inner loop has moved entries i up to j. */
  ghost function ShiftTo<T>(s: seq<T>, i: nat, j: nat): (r: seq<T>)
    requires i <= j < |s|
    ensures |r| == |s|
  {
    s[..i] + s[i + 1..j + 1] + s[j..]
  }

  lemma ShiftToStep<T>(s: seq<T>, i: nat, j: nat)
    requires i <= j < |s| - 1
    ensures ShiftTo(s, i, j)[j + 1] == s[j + 1]
    ensures ShiftTo(s, i, j + 1) == ShiftTo(s, i, j)[j := s[j + 1]]
  {
  }

  lemma ShiftEnds<T>(s: seq<T>, i: nat, empty: T)
    requires i < |s|
    ensures ShiftTo(s, i, i) == s
    ensures ShiftTo(s, i, |s| - 1)[|s| - 1 := empty] == ShiftDown(s, i, empty)
  {
  }

  lemma TakesNone(ports: map<nat, Vcpi>)
    ensures !Takes(None, ports)
  {
  }

  lemma MaskEnds(mask: set<nat>, proposed: seq<Option<nat>>, ports: map<nat, Vcpi>, i: nat)
    requires i <= |proposed|
    ensures ShiftMaskTo(mask, proposed, ports, i, i) == mask
    ensures ShiftMaskTo(mask, proposed, ports, i, |proposed|) == ShiftMask(mask, proposed, ports, i)
  {
    assert forall b: nat ::
        b in ShiftMaskTo(mask, proposed, ports, i, |proposed|) <==> b in ShiftMask(mask, proposed, ports, i);
  }

  /** The mask after the inner loop has handled entries i up to j. */
  ghost function ShiftMaskTo(mask: set<nat>, proposed: seq<Option<nat>>, ports: map<nat, Vcpi>,
      i: nat, j: nat): set<nat>
    requires j <= |proposed|
  {
    (set b | b in mask && (b <= i || b > j)) + (set k | i <= k < j && Takes(proposed[k], ports) :: k + 1)
  }

  lemma MaskStep(mask: set<nat>, before: seq<Option<nat>>, after: seq<Option<nat>>, ports: map<nat, Vcpi>,
      i: nat, j: nat)
    requires i <= j < |before| == |after| && forall k :: i <= k < j ==> before[k] == after[k]
    ensures ShiftMaskTo(mask, after, ports, i, j + 1) ==
            if Takes(after[j], ports) then ShiftMaskTo(mask, before, ports, i, j) + {j + 1}
            else ShiftMaskTo(mask, before, ports, i, j) - {j + 1}
  {
    var l, r := ShiftMaskTo(mask, after, ports, i, j + 1), ShiftMaskTo(mask, before, ports, i, j);
    forall b: nat
      ensures b in l <==> (if b == j + 1 then Takes(after[j], ports) else b in r)
    {
      InMaskTo(mask, after, ports, i, j + 1, b);
      InMaskTo(mask, before, ports, i, j, b);
    }
  }

  lemma InMaskTo(mask: set<nat>, proposed: seq<Option<nat>>, ports: map<nat, Vcpi>, i: nat, j: nat, b: nat)
    requires i <= j <= |proposed|
    ensures b in ShiftMaskTo(mask, proposed, ports, i, j) <==>
            (if i < b <= j then Takes(proposed[b - 1], ports) else b in mask)
  {
  }

  /** The solved part grows by one entry. */
  lemma MoveBoundary<T>(before: seq<T>, after: seq<T>, orig: seq<T>, rest: seq<T>, i: nat)
    requires |before| == |after| == |orig| && i < |orig| && |rest| == |orig| - i
    requires after == before[i := rest[0]] && before[i..] == orig[i..]
    ensures before[..i] + rest == after[..i + 1] + rest[1..]
    ensures after[i + 1..] == orig[i + 1..]
  {
    assert before[i + 1..] == before[i..][1..] && orig[i + 1..] == orig[i..][1..];
    assert after[i + 1..] == before[i + 1..];
  }

  lemma SolveFirst(ps: seq<Payload>, want: seq<nat>, cur: nat, ok: seq<bool>, i: nat)
    requires |ps| == |want| == |ok| && i < |ps|
    ensures SolveAll(ps[i..], want[i..], cur, ok[i..]) ==
            [Solve(ps[i], want[i], cur, ok[i])] + SolveAll(ps[i + 1..], want[i + 1..], cur + want[i], ok[i + 1..])
  {
    assert ps[i..][1..] == ps[i + 1..] && want[i..][1..] == want[i + 1..] && ok[i..][1..] == ok[i + 1..];
  }
}
