/**
 The down-request queue of the MST topology manager: messages wait in a queue, the head of
 the queue is sent chunk by chunk under one of the two sequence numbers of its branch device,
 and a slot remembers it until the reply arrives or its sender gives up.

 Every step below is one section of code that runs with qlock held. Handling a reply takes
 two such sections, with the lock released in between.
 */
module DownQueue {
  import opened Options
  import opened Words
  import opened SidebandMsg
  import Slices

  datatype TxState = Queued | StartSend | Sent | Replied | TimedOut

  datatype Tx = Tx(dst: nat, msg: seq<Byte>, pathMsg: bool, offset: nat, state: TxState, seqno: int)

  /** A branch device: its address, its two message slots and the sequence number to use next. */
  datatype Branch = Branch(lct: nat, rad: seq<Byte>, slots: seq<Option<nat>>, lastSeqno: nat)

  /** A chunk that went out on the link. */
  datatype Chunk = Chunk(id: nat, route: Route, msg: seq<Byte>, offset: nat)

  /** A reply that has been matched to a message but not yet delivered. */
  datatype Pending = Pending(branch: nat, slot: nat, id: nat)

  datatype State = State(queue: seq<nat>, msgs: map<nat, Tx>, branches: map<nat, Branch>, inProgress: bool,
                         pending: Option<Pending>, next: nat, log: seq<Chunk>)

  // ----- the sections of code -----

  predicate ValidBranch(b: Branch) {
    1 <= b.lct < 16 && |b.rad| == b.lct / 2 && |b.slots| == 2 && b.lastSeqno < 2
  }

  predicate Typed(s: State) {
    (forall b :: b in s.branches ==> ValidBranch(s.branches[b])) &&
    (forall m :: m in s.msgs ==> s.msgs[m].dst in s.branches && s.msgs[m].offset <= |s.msgs[m].msg|)
  }

  predicate InFlight(t: Tx) {
    t.state == StartSend || t.state == Sent
  }

  function FreeSlot(b: Branch): Option<nat>
    requires ValidBranch(b)
  {
    if b.slots[0].Some? && b.slots[1].Some? then None
    else if b.slots[0] == None && b.slots[1] == None then Some(b.lastSeqno)
    else if b.slots[0] == None then Some(0)
    else Some(1)
  }

  function Occupy(b: Branch, seqno: nat, m: nat): (r: Branch)
    requires ValidBranch(b) && seqno < 2
    ensures ValidBranch(r)
  {
    b.(slots := b.slots[seqno := Some(m)],
       lastSeqno := if b.slots[0] == None && b.slots[1] == None then 1 - b.lastSeqno else b.lastSeqno)
  }

  function Vacate(b: Branch, seqno: nat): (r: Branch)
    requires ValidBranch(b) && seqno < 2
    ensures ValidBranch(r)
  {
    b.(slots := b.slots[seqno := None])
  }

  function RouteOf(b: Branch, t: Tx): (r: Route)
    requires ValidBranch(b) && 0 <= t.seqno < 2
    ensures ValidRoute(r)
  {
    Route(b.lct, b.rad, t.pathMsg, t.seqno)
  }

  function SetTx(s: State, m: nat, t: Tx): State {
    s.(msgs := s.msgs[m := t])
  }

  function SetBranch(s: State, b: nat, br: Branch): State {
    s.(branches := s.branches[b := br])
  }

  /** set_hdr_from_dst_qlock: a message without a sequence number takes a slot, or fails if both are taken. */
  function TakeSlot(s: State, m: nat): (State, bool)
    requires Typed(s) && m in s.msgs
  {
    var t := s.msgs[m];
    var b := s.branches[t.dst];
    if t.seqno != -1 then (s, true)
    else
      match FreeSlot(b)
      case None => (s, false)
      case Some(q) => (SetBranch(SetTx(s, m, t.(seqno := q)), t.dst, Occupy(b, q, m)), true)
  }

  function Begin(s: State, m: nat): State
    requires m in s.msgs
  {
    if s.msgs[m].state == Queued then SetTx(s, m, s.msgs[m].(seqno := -1, state := StartSend)) else s
  }

  /** The chunk has been written: advance, and leave the queue when it was the last one. */
  function Advance(s: State, m: nat): State
    requires Typed(s) && m in s.msgs && 0 <= s.msgs[m].seqno < 2 && |s.queue| > 0
  {
    var t := s.msgs[m];
    var r := RouteOf(s.branches[t.dst], t);
    var next := t.offset + ToSend(r, |t.msg| - t.offset);
    var s1 := s.(log := s.log + [Chunk(m, r, t.msg, t.offset)]);
    if next == |t.msg|
    then SetTx(s1, m, t.(offset := next, state := Sent)).(queue := s.queue[1..])
    else SetTx(s1, m, t.(offset := next))
  }

  /** Sending failed: the message leaves the queue and its slot. */
  function Drop(s: State, m: nat): State
    requires Typed(s) && m in s.msgs && -1 <= s.msgs[m].seqno < 2 && |s.queue| > 0
  {
    var t := s.msgs[m];
    var s1 := SetTx(s, m, t.(state := TimedOut)).(queue := s.queue[1..]);
    if t.seqno != -1 then SetBranch(s1, t.dst, Vacate(s.branches[t.dst], t.seqno)) else s1
  }

  function SettleProgress(s: State): State {
    s.(inProgress := s.queue != [])
  }

  /** Messages being sent have a sequence number or none yet; needed to index the slots. */
  predicate HeadOk(s: State) {
    Typed(s) && (s.queue != [] ==> s.queue[0] in s.msgs) &&
    (s.queue != [] && s.msgs[s.queue[0]].state != Queued ==> -1 <= s.msgs[s.queue[0]].seqno < 2)
  }

  /** The head starts being sent, if it can get a sequence number. */
  function Attempt(s: State): (r: (State, bool))
    requires HeadOk(s) && s.queue != []
    ensures Typed(r.0) && r.0.queue == s.queue && s.queue[0] in r.0.msgs
    ensures -1 <= r.0.msgs[s.queue[0]].seqno < 2 && (r.1 ==> r.0.msgs[s.queue[0]].seqno >= 0)
  {
    TakeSlot(Begin(s.(inProgress := true), s.queue[0]), s.queue[0])
  }

  /** process_single_down_tx_qlock, where `linkOk` says whether the chunk could be written. */
  function Process(s: State, linkOk: bool): State
    requires HeadOk(s)
  {
    if s.queue == [] then s.(inProgress := false)
    else
      var (s1, ok) := Attempt(s);
      SettleProgress(if ok && linkOk then Advance(s1, s.queue[0]) else Drop(s1, s.queue[0]))
  }

  function Enqueue(s: State, dst: nat, msg: seq<Byte>, pathMsg: bool, linkOk: bool): State
    requires HeadOk(s) && dst in s.branches && s.next !in s.msgs && s.next !in s.queue
  {
    var s1 := s.(queue := s.queue + [s.next], next := s.next + 1,
                 msgs := s.msgs[s.next := Tx(dst, msg, pathMsg, 0, Queued, 0)]);
    if s.inProgress then s1 else Process(s1, linkOk)
  }

  function Work(s: State, linkOk: bool): State
    requires HeadOk(s)
  {
    if s.inProgress then Process(s, linkOk) else s
  }

  function Without(q: seq<nat>, m: nat): seq<nat> {
    if q == [] then [] else if q[0] == m then q[1..] else [q[0]] + Without(q[1..], m)
  }

  /** The sender of m stops waiting: m leaves the queue and its slot, and is freed. */
  function GiveUp(s: State, m: nat): State
    requires Typed(s) && m in s.msgs && (InFlight(s.msgs[m]) ==> 0 <= s.msgs[m].seqno < 2)
  {
    var t := s.msgs[m];
    var s1 := s.(msgs := s.msgs - {m});
    var s2 := if t.state == Queued || t.state == StartSend then s1.(queue := Without(s.queue, m)) else s1;
    if InFlight(t) then SetBranch(s2, t.dst, Vacate(s.branches[t.dst], t.seqno)) else s2
  }

  function ReplyLookup(s: State, b: nat, slot: nat): State
    requires Typed(s) && b in s.branches && slot < 2
  {
    match s.branches[b].slots[slot]
    case None => s
    case Some(m) => s.(pending := Some(Pending(b, slot, m)))
  }

  /** The slot of the matched reply is cleared, whatever it holds by now. */
  function ClearSlot(s: State): State
    requires Typed(s) && s.pending.Some? && s.pending.value.branch in s.branches && s.pending.value.slot < 2
  {
    var p := s.pending.value;
    SetBranch(s, p.branch, Vacate(s.branches[p.branch], p.slot)).(pending := None)
  }

  /**
   The second section of a reply: the message is done and its slot is cleared. None if the message has
   been freed since the first section, because the section writes to it all the same.
   */
  function ReplyFinish(s: State): Option<State>
    requires Typed(s) && s.pending.Some? && s.pending.value.branch in s.branches && s.pending.value.slot < 2
  {
    var id := s.pending.value.id;
    if id in s.msgs then Some(SetTx(ClearSlot(s), id, s.msgs[id].(state := Replied))) else None
  }

  // ----- the invariant -----

  ghost predicate NoDup(q: seq<nat>) {
    forall i, j :: 0 <= i < j < |q| ==> q[i] != q[j]
  }

  /** Slot and message agree: a slot holds exactly the message in flight with that number on that branch. */
  ghost predicate SlotHolds(s: State, b: nat, q: nat, m: nat) {
    m in s.msgs && s.msgs[m].dst == b && s.msgs[m].seqno == q && InFlight(s.msgs[m])
  }

  ghost predicate SlotAgrees(s: State, b: nat, q: nat, m: nat)
    requires Typed(s) && b in s.branches && q < 2
  {
    s.branches[b].slots[q] == Some(m) <==> SlotHolds(s, b, q, m)
  }

  ghost predicate SlotsAgree(s: State)
    requires Typed(s)
  {
    forall b, q: nat, m: nat :: b in s.branches && q < 2 ==> SlotAgrees(s, b, q, m)
  }

  /** Where a message stands: queued ones are unsent, and only the head may be partly sent. */
  ghost predicate Placed(queue: seq<nat>, m: nat, t: Tx) {
    match t.state
    case Queued => m in queue && t.offset == 0
    case StartSend => queue != [] && m == queue[0] && 0 <= t.seqno < 2 && (t.offset > 0 ==> t.offset < |t.msg|)
    case Sent => m !in queue && 0 <= t.seqno < 2
    case _ => m !in queue
  }

  ghost predicate QueueOk(s: State) {
    NoDup(s.queue) && (s.queue != [] ==> s.inProgress) &&
    (forall m :: m in s.queue ==> m in s.msgs) &&
    (forall m :: m in s.msgs ==> m < s.next && Placed(s.queue, m, s.msgs[m]))
  }

  function NextOffset(c: Chunk): nat
    requires ValidRoute(c.route) && c.offset <= |c.msg|
  {
    c.offset + ToSend(c.route, |c.msg| - c.offset)
  }

  ghost predicate ValidChunk(c: Chunk) {
    ValidRoute(c.route) && c.offset <= |c.msg| && (c.offset > 0 ==> c.offset < |c.msg|)
  }

  ghost predicate Follows(c: Chunk, d: Chunk) {
    ValidChunk(c) && ValidChunk(d) && c.id == d.id && c.route == d.route && c.msg == d.msg &&
    NextOffset(c) == d.offset > 0
  }

  /** On the link a chunk that does not start a message follows the previous chunk of the same message. */
  ghost predicate Linked(log: seq<Chunk>, i: nat)
    requires i < |log|
  {
    ValidChunk(log[i]) && (log[i].offset == 0 || (i > 0 && Follows(log[i - 1], log[i])))
  }

  ghost predicate Chained(log: seq<Chunk>) {
    forall i :: 0 <= i < |log| ==> Linked(log, i)
  }

  ghost predicate Latest(branches: map<nat, Branch>, m: nat, t: Tx, c: Chunk) {
    t.dst in branches && ValidBranch(branches[t.dst]) && 0 <= t.seqno < 2 && ValidChunk(c) &&
    c.id == m && c.msg == t.msg && c.route == RouteOf(branches[t.dst], t) && NextOffset(c) == t.offset
  }

  /** The last chunk on the link is the latest one of the message being sent. */
  ghost predicate LogOk(s: State)
    requires Typed(s)
  {
    Chained(s.log) &&
    forall m :: m in s.msgs && s.msgs[m].state == StartSend && s.msgs[m].offset > 0 ==>
      |s.log| > 0 && Latest(s.branches, m, s.msgs[m], s.log[|s.log| - 1])
  }

  /** A matched reply belongs to a sent message that still owns its slot, unless its sender gave up. */
  ghost predicate PendingOk(s: State)
    requires Typed(s)
  {
    s.pending.Some? ==>
      var p := s.pending.value;
      p.branch in s.branches && p.slot < 2 && p.id < s.next &&
      (p.id in s.msgs ==> SlotHolds(s, p.branch, p.slot, p.id) && s.msgs[p.id].state == Sent)
  }

  ghost predicate Inv(s: State) {
    Typed(s) && SlotsAgree(s) && QueueOk(s) && LogOk(s) && PendingOk(s)
  }

  // ----- each section keeps it -----

  /** Whether the head of the queue has or can get a sequence number. */
  predicate CanSend(s: State)
    requires Typed(s) && s.queue != [] && s.queue[0] in s.msgs
  {
    var t := s.msgs[s.queue[0]];
    t.state != Queued || FreeSlot(s.branches[t.dst]).Some?
  }

  function Started(s: State): State
    requires Typed(s) && s.queue != [] && s.queue[0] in s.msgs
  {
    var m := s.queue[0];
    TakeSlot(Begin(s.(inProgress := true), m), m).0
  }

  lemma BranchSlots(b: Branch, q: nat, m: nat)
    requires ValidBranch(b) && FreeSlot(b) == Some(q)
    ensures q < 2 && b.slots[q] == None
    ensures Occupy(b, q, m).slots == b.slots[q := Some(m)]
  {
  }

  /**
   Only message m and slot q of branch d change, the slot was free or m's, and afterwards it
   holds m exactly if m is in flight there: then slots and messages still agree.
   */
  lemma SlotsFrame(s: State, s1: State, m: nat, d: nat, q: nat)
    requires Typed(s) && SlotsAgree(s) && Typed(s1) && q < 2
    requires d in s.branches && s1.branches.Keys == s.branches.Keys
    requires forall b :: b in s.branches && b != d ==> s1.branches[b].slots == s.branches[b].slots
    requires s1.branches[d].slots[1 - q] == s.branches[d].slots[1 - q]
    requires forall m0 :: m0 != m ==> (m0 in s1.msgs <==> m0 in s.msgs) &&
                                      (m0 in s.msgs ==> s1.msgs[m0] == s.msgs[m0])
    requires s.branches[d].slots[q] == None || s.branches[d].slots[q] == Some(m)
    requires m in s.msgs && InFlight(s.msgs[m]) ==> s.msgs[m].dst == d && s.msgs[m].seqno == q
    requires m in s1.msgs && InFlight(s1.msgs[m]) ==> s1.msgs[m].dst == d && s1.msgs[m].seqno == q
    requires s1.branches[d].slots[q] == if m in s1.msgs && InFlight(s1.msgs[m]) then Some(m) else None
    ensures SlotsAgree(s1)
  {
    forall b0, q0: nat, m0: nat | b0 in s1.branches && q0 < 2
      ensures SlotAgrees(s1, b0, q0, m0)
    {
      assert SlotAgrees(s, b0, q0, m0) && SlotAgrees(s, d, q, m0);
      if b0 == d && q0 == q {
        assert m0 != m ==> !SlotHolds(s, d, q, m0);
      } else if m0 == m {
        assert !SlotHolds(s, b0, q0, m) && !SlotHolds(s1, b0, q0, m);
      }
    }
  }

  /** Only message m changes, and not its place among the slots. */
  lemma SlotsSame(s: State, s1: State, m: nat)
    requires Typed(s) && SlotsAgree(s) && Typed(s1) && s1.branches == s.branches
    requires forall m0 :: m0 != m ==> (m0 in s1.msgs <==> m0 in s.msgs) &&
                                      (m0 in s.msgs ==> s1.msgs[m0] == s.msgs[m0])
    requires m in s.msgs && InFlight(s.msgs[m]) <==> m in s1.msgs && InFlight(s1.msgs[m])
    requires m in s.msgs && InFlight(s.msgs[m]) ==>
               s1.msgs[m].dst == s.msgs[m].dst && s1.msgs[m].seqno == s.msgs[m].seqno
    ensures SlotsAgree(s1)
  {
    forall b0, q0: nat, m0: nat | b0 in s1.branches && q0 < 2
      ensures SlotAgrees(s1, b0, q0, m0)
    {
      assert SlotAgrees(s, b0, q0, m0);
    }
  }

  function WithSlot(s: State, m: nat, q: nat): State
    requires Typed(s) && m in s.msgs && q < 2
  {
    var t := s.msgs[m];
    SetBranch(SetTx(s.(inProgress := true), m, t.(seqno := q, state := StartSend)),
              t.dst, Occupy(s.branches[t.dst], q, m))
  }

  /** The head as it stands once it has a slot. */
  lemma StartedIs(s: State)
    requires Inv(s) && s.queue != [] && CanSend(s)
    ensures var m := s.queue[0]; var t := s.msgs[m];
            if t.state == StartSend then Started(s) == s.(inProgress := true)
            else t.state == Queued && FreeSlot(s.branches[t.dst]).Some? &&
                 var q := FreeSlot(s.branches[t.dst]).value;
                 q < 2 && Started(s) == WithSlot(s, m, q)
  {
    hide SlotsAgree, LogOk, PendingOk, Occupy;
    var m := s.queue[0];
    var t := s.msgs[m];
    if t.state == Queued {
      var q := FreeSlot(s.branches[t.dst]).value;
      assert SetTx(SetTx(s.(inProgress := true), m, t.(seqno := -1, state := StartSend)), m,
                   t.(seqno := q, state := StartSend))
          == SetTx(s.(inProgress := true), m, t.(seqno := q, state := StartSend));
    }
  }

  /** Giving the head a slot keeps the invariant. */
  lemma StartKeepsInv(s: State)
    requires Inv(s) && s.queue != [] && CanSend(s)
    ensures Inv(Started(s)) && Started(s).queue == s.queue
    ensures s.queue[0] in Started(s).msgs && Started(s).msgs[s.queue[0]].state == StartSend
  {
    StartedIs(s);
    hide CanSend, Started;
    var m := s.queue[0];
    var t := s.msgs[m];
    if t.state == Queued {
      var q := FreeSlot(s.branches[t.dst]).value;
      BranchSlots(s.branches[t.dst], q, m);
      StartSlots(s, Started(s), m, q);
      StartRest(s, Started(s), m, q);
    }
  }

  ghost predicate StartsWith(s: State, s1: State, m: nat, q: nat) {
    Inv(s) && s.queue != [] && m == s.queue[0] && q < 2 && s.msgs[m].state == Queued &&
    s.branches[s.msgs[m].dst].slots[q] == None &&
    s1 == WithSlot(s, m, q)
  }

  lemma StartSlots(s: State, s1: State, m: nat, q: nat)
    requires StartsWith(s, s1, m, q)
    ensures Typed(s1) && SlotsAgree(s1)
  {
    hide SlotsAgree, LogOk, PendingOk;
    SlotsFrame(s, s1, m, s.msgs[m].dst, q);
  }

  lemma StartRest(s: State, s1: State, m: nat, q: nat)
    requires StartsWith(s, s1, m, q) && Typed(s1)
    ensures QueueOk(s1) && LogOk(s1) && PendingOk(s1)
  {
    hide SlotsAgree;
  }

  /** Taking the head off a queue without duplicates. */
  lemma Dequeue(q: seq<nat>)
    requires NoDup(q) && q != []
    ensures NoDup(q[1..]) && forall m :: m in q[1..] <==> m in q && m != q[0]
  {
  }

  /** Sending a chunk keeps the invariant and extends the chain on the link. */
  lemma AdvanceKeepsInv(s: State, m: nat)
    requires Inv(s) && s.queue != [] && m == s.queue[0] && s.msgs[m].state == StartSend
    ensures Inv(SettleProgress(Advance(s, m)))
  {
    hide LogOk, PendingOk, SlotsAgree;
    assert Placed(s.queue, m, s.msgs[m]);
    hide Advance, SettleProgress, NoDup;
    AdvanceTyped(s, m);
    AdvanceLog(s, m);
    AdvanceQueue(s, m);
    AdvancePending(s, m);
    AdvanceSlots(s, m);
  }

  lemma AdvanceSlots(s: State, m: nat)
    requires Inv(s) && s.queue != [] && m == s.queue[0] && s.msgs[m].state == StartSend && 0 <= s.msgs[m].seqno < 2
    requires Typed(SettleProgress(Advance(s, m)))
    ensures SlotsAgree(SettleProgress(Advance(s, m)))
  {
    hide LogOk, PendingOk, Chained, NoDup, SlotsAgree;
    SlotsSame(s, SettleProgress(Advance(s, m)), m);
  }

  lemma AdvanceLog(s: State, m: nat)
    requires Inv(s) && s.queue != [] && m == s.queue[0] && s.msgs[m].state == StartSend
    requires Typed(SettleProgress(Advance(s, m)))
    ensures LogOk(SettleProgress(Advance(s, m)))
  {
    hide SlotsAgree, PendingOk, ToSend, NoDup;
    var t := s.msgs[m];
    var c := Chunk(m, RouteOf(s.branches[t.dst], t), t.msg, t.offset);
    assert Placed(s.queue, m, t) && ValidChunk(c);
    NextFits(c);
    ChainExtends(s.log, c);
    hide Chained;
    forall m0 | m0 in s.msgs && m0 != m
      ensures s.msgs[m0].state != StartSend
    {
      assert Placed(s.queue, m0, s.msgs[m0]);
    }
  }

  lemma NextFits(c: Chunk)
    requires ValidRoute(c.route) && c.offset <= |c.msg|
    ensures c.offset <= NextOffset(c) <= |c.msg|
    ensures NextOffset(c) == c.offset ==> c.offset == |c.msg|
  {
  }

  lemma ChainExtends(log: seq<Chunk>, c: Chunk)
    requires Chained(log) && ValidChunk(c)
    requires c.offset == 0 || (|log| > 0 && Follows(log[|log| - 1], c))
    ensures Chained(log + [c])
  {
    forall i | 0 <= i < |log| + 1
      ensures Linked(log + [c], i)
    {
      if i < |log| { assert Linked(log, i); }
    }
  }

  lemma AdvanceTyped(s: State, m: nat)
    requires Typed(s) && m in s.msgs && 0 <= s.msgs[m].seqno < 2 && |s.queue| > 0
    ensures Typed(SettleProgress(Advance(s, m)))
  {
    hide ToSend;
    var t := s.msgs[m];
    NextFits(Chunk(m, RouteOf(s.branches[t.dst], t), t.msg, t.offset));
  }

  lemma AdvanceQueue(s: State, m: nat)
    requires Inv(s) && s.queue != [] && m == s.queue[0] && s.msgs[m].state == StartSend
    requires Typed(SettleProgress(Advance(s, m)))
    ensures QueueOk(SettleProgress(Advance(s, m)))
  {
    hide SlotsAgree, LogOk, PendingOk, ToSend;
    var t, s1 := s.msgs[m], SettleProgress(Advance(s, m));
    var c := Chunk(m, RouteOf(s.branches[t.dst], t), t.msg, t.offset);
    NextFits(c);
    Dequeue(s.queue);
    hide NoDup;
    forall m0 | m0 in s.msgs && m0 != m
      ensures Placed(s1.queue, m0, s.msgs[m0])
    {
      assert Placed(s.queue, m0, s.msgs[m0]);
    }
  }

  lemma AdvancePending(s: State, m: nat)
    requires Inv(s) && s.queue != [] && m == s.queue[0] && s.msgs[m].state == StartSend
    requires Typed(SettleProgress(Advance(s, m)))
    ensures PendingOk(SettleProgress(Advance(s, m)))
  {
    hide SlotsAgree, LogOk, ToSend, NoDup;
  }

  /** Dropping the head frees its slot. */
  lemma DropKeepsInv(s: State, m: nat)
    requires Inv(s) && s.queue != [] && m == s.queue[0] && s.msgs[m].state == StartSend
    ensures Inv(SettleProgress(Drop(s, m)))
  {
    hide LogOk, PendingOk;
    DropRest(s, m);
    var t := s.msgs[m];
    assert SlotAgrees(s, t.dst, t.seqno, m);
    SlotsFrame(s, SettleProgress(Drop(s, m)), m, t.dst, t.seqno);
  }

  /** The head leaves the queue timed out; what the queue, the log and the reply rely on stays. */
  lemma LeaveHead(s: State, s1: State, m: nat)
    requires Inv(s) && Typed(s1) && s.queue != [] && m == s.queue[0]
    requires s1.queue == s.queue[1..] && s1.inProgress == (s1.queue != []) && s1.next == s.next
    requires OthersStay(s, s1, m)
    requires s1.log == s.log && s1.pending == s.pending && s1.branches.Keys == s.branches.Keys
    ensures QueueOk(s1) && LogOk(s1) && PendingOk(s1)
  {
    hide SlotsAgree, LogOk, PendingOk, QueueOk, Placed;
    LeaveHeadQueue(s, s1, m);
    LeaveHeadLog(s, s1, m);
    LeaveHeadPending(s, s1, m);
  }

  /** What the messages other than the head rely on. */
  ghost predicate OthersStay(s: State, s1: State, m: nat) {
    s1.msgs.Keys == s.msgs.Keys && m in s1.msgs && s1.msgs[m].state == TimedOut &&
    forall m0 :: m0 in s.msgs && m0 != m ==> s1.msgs[m0] == s.msgs[m0]
  }

  lemma LeaveHeadQueue(s: State, s1: State, m: nat)
    requires QueueOk(s) && s.queue != [] && m == s.queue[0] && OthersStay(s, s1, m)
    requires s1.queue == s.queue[1..] && s1.inProgress == (s1.queue != []) && s1.next == s.next
    ensures QueueOk(s1) && forall m0 :: m0 in s1.msgs ==> s1.msgs[m0].state != StartSend
  {
    Dequeue(s.queue);
    hide NoDup;
    forall m0 | m0 in s1.msgs ensures Placed(s1.queue, m0, s1.msgs[m0]) && s1.msgs[m0].state != StartSend {
      assert Placed(s.queue, m0, s.msgs[m0]);
    }
  }

  lemma LeaveHeadLog(s: State, s1: State, m: nat)
    requires Typed(s) && Typed(s1) && LogOk(s) && s1.log == s.log
    requires forall m0 :: m0 in s1.msgs ==> s1.msgs[m0].state != StartSend
    ensures LogOk(s1)
  {
  }

  lemma LeaveHeadPending(s: State, s1: State, m: nat)
    requires Typed(s) && Typed(s1) && PendingOk(s) && QueueOk(s) && s.queue != [] && m == s.queue[0] &&
             OthersStay(s, s1, m)
    requires s1.pending == s.pending && s1.branches.Keys == s.branches.Keys && s1.next == s.next
    ensures PendingOk(s1)
  {
    hide NoDup;
    assert Placed(s.queue, m, s.msgs[m]);
  }

  lemma DropRest(s: State, m: nat)
    requires Inv(s) && s.queue != [] && m == s.queue[0] && s.msgs[m].state == StartSend
    ensures Typed(SettleProgress(Drop(s, m)))
    ensures var s1 := SettleProgress(Drop(s, m)); QueueOk(s1) && LogOk(s1) && PendingOk(s1)
  {
    assert Placed(s.queue, m, s.msgs[m]);
    hide SlotsAgree, LogOk, PendingOk;
    LeaveHead(s, SettleProgress(Drop(s, m)), m);
  }

  /** A message that finds both slots taken is dropped without touching them. */
  lemma NoSlotKeepsInv(s: State)
    requires Inv(s) && s.queue != [] && !CanSend(s)
    ensures Inv(Process(s, true)) && Process(s, false) == Process(s, true)
  {
    var m := s.queue[0];
    var t := s.msgs[m];
    var s1 := SetTx(s.(queue := s.queue[1..], inProgress := s.queue[1..] != []), m, t.(seqno := -1, state := TimedOut));
    NoSlotIs(s, s1);
    hide CanSend, Process;
    NoSlotRest(s, s1);
    hide LogOk, PendingOk;
    SlotsSame(s, s1, m);
  }

  lemma NoSlotIs(s: State, s1: State)
    requires Inv(s) && s.queue != [] && !CanSend(s)
    requires var m := s.queue[0];
             s1 == SetTx(s.(queue := s.queue[1..], inProgress := s.queue[1..] != []), m,
                         s.msgs[m].(seqno := -1, state := TimedOut))
    ensures Process(s, true) == Process(s, false) == s1
  {
    hide SlotsAgree, LogOk, PendingOk;
    var m := s.queue[0];
    var t := s.msgs[m];
    assert s.msgs[m := t.(seqno := -1, state := StartSend)][m := t.(seqno := -1, state := TimedOut)]
        == s.msgs[m := t.(seqno := -1, state := TimedOut)];
  }

  lemma NoSlotRest(s: State, s1: State)
    requires Inv(s) && s.queue != []
    requires var m := s.queue[0];
             s.msgs[m].state == Queued &&
             s1 == SetTx(s.(queue := s.queue[1..], inProgress := s.queue[1..] != []), m,
                         s.msgs[m].(seqno := -1, state := TimedOut))
    ensures Typed(s1) && QueueOk(s1) && LogOk(s1) && PendingOk(s1)
  {
    hide SlotsAgree, LogOk, PendingOk;
    LeaveHead(s, s1, s.queue[0]);
  }

  lemma ProcessIs(s: State, linkOk: bool)
    requires Inv(s) && s.queue != [] && CanSend(s) && Inv(Started(s)) && Started(s).queue == s.queue
    requires s.queue[0] in Started(s).msgs && Started(s).msgs[s.queue[0]].state == StartSend
    ensures HeadOk(s)
    ensures Process(s, linkOk) ==
            SettleProgress(if linkOk then Advance(Started(s), s.queue[0]) else Drop(Started(s), s.queue[0]))
  {
    hide SlotsAgree, LogOk, PendingOk;
  }

  lemma ProcessKeepsInv(s: State, linkOk: bool)
    requires Inv(s)
    ensures HeadOk(s) && Inv(Process(s, linkOk))
  {
    if s.queue != [] {
      hide Process, Started, SettleProgress, Advance, Drop;
      if CanSend(s) {
        StartKeepsInv(s);
        ProcessIs(s, linkOk);
        AdvanceKeepsInv(Started(s), s.queue[0]);
        DropKeepsInv(Started(s), s.queue[0]);
      } else {
        NoSlotKeepsInv(s);
      }
    } else {
      SlotsSame(s, s.(inProgress := false), 0);
    }
  }

  /** A queue that is not empty makes the previous value of inProgress irrelevant. */
  lemma ProcessForgets(s: State, linkOk: bool)
    requires HeadOk(s) && s.queue != []
    ensures Process(s, linkOk) == Process(s.(inProgress := true), linkOk)
  {
    assert s.(inProgress := true).(inProgress := true) == s.(inProgress := true);
    hide Advance, Drop;
  }

  function Appended(s: State, dst: nat, msg: seq<Byte>, pathMsg: bool): State {
    s.(queue := s.queue + [s.next], next := s.next + 1,
       msgs := s.msgs[s.next := Tx(dst, msg, pathMsg, 0, Queued, 0)], inProgress := true)
  }

  lemma AppendKeepsInv(s: State, dst: nat, msg: seq<Byte>, pathMsg: bool)
    requires Inv(s) && dst in s.branches
    ensures Inv(Appended(s, dst, msg, pathMsg))
  {
    var s1 := Appended(s, dst, msg, pathMsg);
    assert s.next !in s.msgs;
    AppendQueue(s, s1, dst, msg, pathMsg);
    hide Chained, QueueOk;
    SlotsSame(s, s1, s.next);
  }

  lemma AppendQueue(s: State, s1: State, dst: nat, msg: seq<Byte>, pathMsg: bool)
    requires Inv(s) && dst in s.branches && s1 == Appended(s, dst, msg, pathMsg)
    ensures Typed(s1) && QueueOk(s1)
  {
    hide SlotsAgree, LogOk, PendingOk;
    assert s.next !in s.queue;
    forall m | m in s1.msgs
      ensures m < s1.next && Placed(s1.queue, m, s1.msgs[m])
    {
      if m != s.next { assert Placed(s.queue, m, s.msgs[m]); }
    }
    forall m | m in s1.queue
      ensures m in s1.msgs
    {
      assert m in s.queue || m == s.next;
    }
  }

  lemma EnqueueKeepsInv(s: State, dst: nat, msg: seq<Byte>, pathMsg: bool, linkOk: bool)
    requires Inv(s) && dst in s.branches
    ensures HeadOk(s) && s.next !in s.msgs && s.next !in s.queue
    ensures Inv(Enqueue(s, dst, msg, pathMsg, linkOk))
  {
    hide Process, SlotsAgree, LogOk, PendingOk, NoDup;
    var s1 := Appended(s, dst, msg, pathMsg);
    AppendKeepsInv(s, dst, msg, pathMsg);
    assert s.next !in s.msgs && s.next !in s.queue;
    if !s.inProgress {
      ProcessKeepsInv(s1, linkOk);
      ProcessForgets(s1.(inProgress := false), linkOk);
      assert s1.(inProgress := false).(inProgress := true) == s1;
    }
  }

  lemma Requeue(x: nat, q: seq<nat>)
    requires NoDup(q) && x !in q
    ensures NoDup([x] + q) && forall y :: y in [x] + q <==> y == x || y in q
  {
  }

  lemma {:induction false} WithoutIs(q: seq<nat>, m: nat)
    requires NoDup(q)
    ensures NoDup(Without(q, m)) && forall x :: x in Without(q, m) <==> x in q && x != m
    ensures q != [] && q[0] != m ==> Without(q, m) != [] && Without(q, m)[0] == q[0]
  {
    if q != [] {
      if q[0] == m {
        Dequeue(q);
      } else {
        Dequeue(q);
        WithoutIs(q[1..], m);
        Requeue(q[0], Without(q[1..], m));
      }
    }
  }

  /** A sender that stops waiting takes its message out of queue and slot. */
  lemma GiveUpKeepsInv(s: State, m: nat)
    requires Inv(s) && m in s.msgs
    ensures InFlight(s.msgs[m]) ==> 0 <= s.msgs[m].seqno < 2
    ensures Inv(GiveUp(s, m))
  {
    hide LogOk, PendingOk, Without, NoDup;
    var t := s.msgs[m];
    assert Placed(s.queue, m, t);
    var s1 := GiveUp(s, m);
    GiveUpRest(s, s1, m);
    if InFlight(t) {
      assert SlotAgrees(s, t.dst, t.seqno, m);
      SlotsFrame(s, s1, m, t.dst, t.seqno);
    } else {
      SlotsSame(s, s1, m);
    }
  }

  /** A message that was given up is in no queue and in no slot any more. */
  lemma GoneAfterGivingUp(s: State, m: nat)
    requires Inv(s) && m in s.msgs && (InFlight(s.msgs[m]) ==> 0 <= s.msgs[m].seqno < 2)
    ensures var s1 := GiveUp(s, m);
            Inv(s1) && m !in s1.queue && forall b :: b in s1.branches ==> Some(m) !in s1.branches[b].slots
  {
    GiveUpKeepsInv(s, m);
    var s1 := GiveUp(s, m);
    assert m !in s1.msgs by { hide Without; }
    hide GiveUp, LogOk, PendingOk;
    forall b | b in s1.branches ensures Some(m) !in s1.branches[b].slots {
      assert SlotAgrees(s1, b, 0, m) && SlotAgrees(s1, b, 1, m);
    }
  }

  lemma GiveUpRest(s: State, s1: State, m: nat)
    requires Inv(s) && m in s.msgs && (InFlight(s.msgs[m]) ==> 0 <= s.msgs[m].seqno < 2)
    requires s1 == GiveUp(s, m)
    ensures Typed(s1) && QueueOk(s1) && LogOk(s1) && PendingOk(s1)
  {
    hide SlotsAgree, LogOk, PendingOk, QueueOk;
    GiveUpTyped(s, s1, m);
    GiveUpQueue(s, s1, m);
    GiveUpLog(s, s1, m);
    GiveUpPending(s, s1, m);
  }

  lemma GiveUpTyped(s: State, s1: State, m: nat)
    requires Typed(s) && m in s.msgs && (InFlight(s.msgs[m]) ==> 0 <= s.msgs[m].seqno < 2) && s1 == GiveUp(s, m)
    ensures Typed(s1) && s1.log == s.log && s1.pending == s.pending && s1.next == s.next && s1.msgs == s.msgs - {m}
    ensures s1.branches.Keys == s.branches.Keys
    ensures forall b :: b in s.branches ==>
              s1.branches[b].lct == s.branches[b].lct && s1.branches[b].rad == s.branches[b].rad
  {
    hide Without;
  }

  lemma GiveUpQueue(s: State, s1: State, m: nat)
    requires Typed(s) && QueueOk(s) && m in s.msgs && (InFlight(s.msgs[m]) ==> 0 <= s.msgs[m].seqno < 2)
    requires s1 == GiveUp(s, m)
    ensures QueueOk(s1)
  {
    hide Without;
    WithoutIs(s.queue, m);
    hide NoDup;
    assert Placed(s.queue, m, s.msgs[m]);
    forall m0 | m0 in s1.msgs ensures Placed(s1.queue, m0, s1.msgs[m0]) { assert Placed(s.queue, m0, s.msgs[m0]); }
  }

  lemma GiveUpLog(s: State, s1: State, m: nat)
    requires Typed(s) && Typed(s1) && LogOk(s) && s1.log == s.log && s1.msgs == s.msgs - {m}
    requires s1.branches.Keys == s.branches.Keys
    requires forall b :: b in s.branches ==>
               s1.branches[b].lct == s.branches[b].lct && s1.branches[b].rad == s.branches[b].rad
    ensures LogOk(s1)
  {
    hide Chained;
  }

  lemma GiveUpPending(s: State, s1: State, m: nat)
    requires Typed(s) && Typed(s1) && PendingOk(s) && s1.msgs == s.msgs - {m} && s1.pending == s.pending &&
             s1.next == s.next
    requires s1.branches.Keys == s.branches.Keys
    ensures PendingOk(s1)
  {
  }

  lemma LookupKeepsInv(s: State, b: nat, slot: nat)
    requires Inv(s) && b in s.branches && slot < 2
    requires s.branches[b].slots[slot].Some? ==>
               s.branches[b].slots[slot].value in s.msgs && s.msgs[s.branches[b].slots[slot].value].state == Sent
    ensures Inv(ReplyLookup(s, b, slot))
  {
    var s1 := ReplyLookup(s, b, slot);
    if s.branches[b].slots[slot].Some? {
      var m := s.branches[b].slots[slot].value;
      assert SlotAgrees(s, b, slot, m);
      SlotsSame(s, s1, m);
    }
  }

  /** The sender of the matched message has not given up since the reply was matched. */
  predicate SenderWaits(s: State)
    requires s.pending.Some?
  {
    s.pending.value.id in s.msgs
  }

  /**
   Delivering a matched reply is safe and keeps the invariant exactly when the sender still waits: the
   lock is dropped between the two sections, and the second one asks nothing.
   */
  lemma FinishKeepsInvIff(s: State)
    requires Inv(s) && s.pending.Some?
    ensures s.pending.value.branch in s.branches && s.pending.value.slot < 2
    ensures ReplyFinish(s).Some? && Inv(ReplyFinish(s).value) <==> SenderWaits(s)
  {
    if SenderWaits(s) {
      var p, s1 := s.pending.value, ReplyFinish(s).value;
      FinishRest(s, s1);
      hide LogOk, PendingOk, QueueOk;
      assert SlotAgrees(s, p.branch, p.slot, p.id);
      SlotsFrame(s, s1, p.id, p.branch, p.slot);
    }
  }

  lemma FinishRest(s: State, s1: State)
    requires Inv(s) && s.pending.Some? && SenderWaits(s) && ReplyFinish(s) == Some(s1)
    ensures Typed(s1) && QueueOk(s1) && LogOk(s1) && PendingOk(s1)
  {
    hide SlotsAgree, Chained, NoDup;
    var p := s.pending.value;
    assert Placed(s.queue, p.id, s.msgs[p.id]);
    forall m0 | m0 in s1.msgs
      ensures Placed(s1.queue, m0, s1.msgs[m0])
    {
      assert Placed(s.queue, m0, s.msgs[m0]);
    }
  }

  // ----- whole runs -----

  datatype Step =
    | DoEnqueue(dst: nat, msg: seq<Byte>, pathMsg: bool, linkOk: bool)
    | DoWork(linkOk: bool)
    | DoGiveUp(m: nat)
    | DoLookup(b: nat, slot: nat)
    | DoFinish

  /** A reply comes in only for a message that has been sent in full. */
  ghost predicate ReplyExpected(s: State, b: nat, slot: nat)
    requires Typed(s) && b in s.branches && slot < 2
  {
    s.pending == None &&
    forall m :: s.branches[b].slots[slot] == Some(m) ==> m in s.msgs && s.msgs[m].state == Sent
  }

  ghost predicate Transition(s: State, step: Step, s1: State) {
    Typed(s) &&
    match step
    case DoEnqueue(dst, msg, pathMsg, ok) =>
      HeadOk(s) && dst in s.branches && s.next !in s.msgs && s.next !in s.queue &&
      s1 == Enqueue(s, dst, msg, pathMsg, ok)
    case DoWork(ok) => HeadOk(s) && s1 == Work(s, ok)
    case DoGiveUp(m) =>
      m in s.msgs && (InFlight(s.msgs[m]) ==> 0 <= s.msgs[m].seqno < 2) && s1 == GiveUp(s, m)
    case DoLookup(b, slot) =>
      b in s.branches && slot < 2 && ReplyExpected(s, b, slot) && s1 == ReplyLookup(s, b, slot)
    case DoFinish =>
      s.pending.Some? && s.pending.value.branch in s.branches && s.pending.value.slot < 2 &&
      ReplyFinish(s) == Some(s1)
  }

  ghost predicate Initial(s: State) {
    s.queue == [] && s.msgs == map[] && !s.inProgress && s.pending == None && s.log == [] &&
    forall b :: b in s.branches ==> ValidBranch(s.branches[b]) && s.branches[b].slots == [None, None]
  }

  ghost predicate Run(states: seq<State>, steps: seq<Step>) {
    |states| == |steps| + 1 && Initial(states[0]) &&
    forall i :: 0 <= i < |steps| ==> Transition(states[i], steps[i], states[i + 1])
  }

  lemma TransitionKeepsInv(s: State, step: Step, s1: State)
    requires Inv(s) && Transition(s, step, s1)
    ensures Inv(s1)
  {
    hide Inv, Enqueue, Process, GiveUp, ReplyLookup;
    match step
    case DoEnqueue(dst, msg, pathMsg, ok) => EnqueueKeepsInv(s, dst, msg, pathMsg, ok);
    case DoWork(ok) => ProcessKeepsInv(s, ok);
    case DoGiveUp(m) => GiveUpKeepsInv(s, m);
    case DoLookup(b, slot) => LookupKeepsInv(s, b, slot);
    case DoFinish => FinishKeepsInvIff(s);
  }

  /** Every state of every run satisfies the invariant. */
  lemma {:induction false} RunKeepsInv(states: seq<State>, steps: seq<Step>, i: nat)
    requires Run(states, steps) && i < |states|
    ensures Inv(states[i])
  {
    hide Transition;
    if i == 0 {
      assert Inv(states[0]);
    } else {
      RunKeepsInv(states, steps, i - 1);
      hide Inv;
      TransitionKeepsInv(states[i - 1], steps[i - 1], states[i]);
    }
  }

  lemma AttemptKeys(s: State)
    requires HeadOk(s) && s.queue != []
    ensures var s1 := Attempt(s).0; s1.msgs.Keys == s.msgs.Keys && s1.pending == s.pending && s1.next == s.next
  {
  }

  lemma ProcessKeys(s: State, linkOk: bool)
    requires HeadOk(s)
    ensures var s1 := Process(s, linkOk); s1.msgs.Keys == s.msgs.Keys && s1.pending == s.pending && s1.next == s.next
  {
    hide Attempt;
    if s.queue != [] { AttemptKeys(s); }
  }

  /** What the messages were queued with. */
  ghost function Requests(s: State): map<nat, (nat, seq<Byte>, bool)> {
    map m | m in s.msgs :: (s.msgs[m].dst, s.msgs[m].msg, s.msgs[m].pathMsg)
  }

  /** One message has changed, but not what it was queued with. */
  lemma SameRequests(s: State, s1: State, m: nat, t: Tx)
    requires m in s.msgs && s1.msgs == s.msgs[m := t]
    requires t.dst == s.msgs[m].dst && t.msg == s.msgs[m].msg && t.pathMsg == s.msgs[m].pathMsg
    ensures Requests(s1) == Requests(s)
  {
  }

  lemma AttemptRequests(s: State)
    requires HeadOk(s) && s.queue != []
    ensures Requests(Attempt(s).0) == Requests(s)
  {
    var m, s0 := s.queue[0], s.(inProgress := true);
    var s1 := Begin(s0, m);
    assert s.msgs[m := s.msgs[m]] == s.msgs && s1.msgs[m := s1.msgs[m]] == s1.msgs;
    SameRequests(s, s1, m, s1.msgs[m]);
    SameRequests(s1, TakeSlot(s1, m).0, m, TakeSlot(s1, m).0.msgs[m]);
    hide Requests, Typed;
  }

  lemma AdvanceRequests(s: State, m: nat)
    requires Typed(s) && m in s.msgs && 0 <= s.msgs[m].seqno < 2 && |s.queue| > 0
    ensures Requests(SettleProgress(Advance(s, m))) == Requests(s)
  {
    hide ToSend, RouteOf;
    var s1 := SettleProgress(Advance(s, m));
    SameRequests(s, s1, m, s1.msgs[m]);
    hide Requests, Typed;
  }

  lemma DropRequests(s: State, m: nat)
    requires Typed(s) && m in s.msgs && -1 <= s.msgs[m].seqno < 2 && |s.queue| > 0
    ensures Requests(SettleProgress(Drop(s, m))) == Requests(s)
  {
    var s1 := SettleProgress(Drop(s, m));
    SameRequests(s, s1, m, s1.msgs[m]);
    hide Requests, Typed;
  }

  lemma ProcessRequests(s: State, linkOk: bool)
    requires HeadOk(s)
    ensures Requests(Process(s, linkOk)) == Requests(s)
  {
    hide Attempt, Typed, Advance, Drop, SettleProgress, Requests;
    if s.queue == [] {
      EmptyRequests(s, linkOk);
    } else {
      AttemptRequests(s);
      var (s1, ok) := Attempt(s);
      if ok && linkOk { AdvanceRequests(s1, s.queue[0]); } else { DropRequests(s1, s.queue[0]); }
    }
  }

  lemma EmptyRequests(s: State, linkOk: bool)
    requires HeadOk(s) && s.queue == []
    ensures Requests(Process(s, linkOk)) == Requests(s)
  {
  }

  lemma EnqueueRequests(s: State, s0: State, dst: nat, msg: seq<Byte>, pathMsg: bool, linkOk: bool)
    requires HeadOk(s) && dst in s.branches && s.next !in s.msgs && s.next !in s.queue
    requires s0 == s.(queue := s.queue + [s.next], next := s.next + 1,
                      msgs := s.msgs[s.next := Tx(dst, msg, pathMsg, 0, Queued, 0)])
    ensures HeadOk(s0) && Enqueue(s, dst, msg, pathMsg, linkOk) == (if s.inProgress then s0 else Process(s0, linkOk))
    ensures var s1 := Enqueue(s, dst, msg, pathMsg, linkOk);
            s1.next == s.next + 1 && Requests(s1) == Requests(s)[s.next := (dst, msg, pathMsg)]
  {
    hide Process, Requests, HeadOk;
    AppendRequests(s, s0, dst, msg, pathMsg);
    assert Enqueue(s, dst, msg, pathMsg, linkOk) == if s.inProgress then s0 else Process(s0, linkOk);
    hide Enqueue;
    ProcessRequests(s0, linkOk);
    ProcessKeys(s0, linkOk);
  }

  lemma AppendRequests(s: State, s0: State, dst: nat, msg: seq<Byte>, pathMsg: bool)
    requires HeadOk(s) && dst in s.branches && s.next !in s.msgs && s.next !in s.queue
    requires s0 == s.(queue := s.queue + [s.next], next := s.next + 1,
                      msgs := s.msgs[s.next := Tx(dst, msg, pathMsg, 0, Queued, 0)])
    ensures HeadOk(s0) && Requests(s0) == Requests(s)[s.next := (dst, msg, pathMsg)]
  {
    if s.queue != [] { assert s0.queue[0] == s.queue[0] && s.queue[0] != s.next; }
  }

  /**
   Messages appear by being queued and disappear by being given up, and a matched reply stays until
   it is delivered.
   */
  lemma TransitionKeys(s: State, step: Step, s1: State, m: nat)
    requires Transition(s, step, s1) && m < s.next
    ensures m in s1.msgs <==> m in s.msgs && step != DoGiveUp(m)
    ensures s1.next >= s.next
    ensures s.pending.Some? && step != DoFinish ==> s1.pending == s.pending
  {
    hide Process;
    match step
    case DoEnqueue(dst, msg, pathMsg, ok) => if !s.inProgress { EnqueueKeys(s, dst, msg, pathMsg, ok); }
    case DoWork(ok) => ProcessKeys(s, ok);
    case DoGiveUp(m0) =>
    case DoLookup(b, slot) =>
    case DoFinish =>
  }

  lemma EnqueueKeys(s: State, dst: nat, msg: seq<Byte>, pathMsg: bool, linkOk: bool)
    requires HeadOk(s) && dst in s.branches && s.next !in s.msgs && s.next !in s.queue
    ensures var s1 := Enqueue(s, dst, msg, pathMsg, linkOk);
            s1.msgs.Keys == s.msgs.Keys + {s.next} && s1.pending == s.pending && s1.next == s.next + 1
  {
    hide Process;
    var s1 := s.(queue := s.queue + [s.next], next := s.next + 1,
                 msgs := s.msgs[s.next := Tx(dst, msg, pathMsg, 0, Queued, 0)]);
    if !s.inProgress { ProcessKeys(s1, linkOk); }
  }

  /**
   In every run, a reply that was matched in state i can be delivered safely in a later state j if and
   only if the sender of its message has not given up in between.
   */
  lemma {:induction false} DeliverySafeIff(states: seq<State>, steps: seq<Step>, i: nat, j: nat)
    requires Run(states, steps) && i <= j < |states| && states[i].pending.Some? && SenderWaits(states[i])
    requires forall k :: i <= k < j ==> steps[k] != DoFinish
    ensures Inv(states[j]) && states[j].pending == states[i].pending
    ensures states[j].pending.value.branch in states[j].branches && states[j].pending.value.slot < 2
    ensures var r := ReplyFinish(states[j]);
            r.Some? && Inv(r.value) <==> forall k :: i <= k < j ==> steps[k] != DoGiveUp(states[i].pending.value.id)
  {
    hide Transition, Inv, ReplyFinish;
    RunKeepsInv(states, steps, j);
    Survives(states, steps, i, j);
    FinishKeepsInvIff(states[j]);
  }

  lemma {:induction false} Survives(states: seq<State>, steps: seq<Step>, i: nat, j: nat)
    requires Run(states, steps) && i <= j < |states| && states[i].pending.Some? && SenderWaits(states[i])
    requires forall k :: i <= k < j ==> steps[k] != DoFinish
    ensures states[j].pending == states[i].pending && states[i].pending.value.id < states[j].next
    ensures SenderWaits(states[j]) <==> forall k :: i <= k < j ==> steps[k] != DoGiveUp(states[i].pending.value.id)
  {
    hide Transition;
    if i == j {
      RunKeepsInv(states, steps, i);
    } else {
      Survives(states, steps, i, j - 1);
      TransitionKeys(states[j - 1], steps[j - 1], states[j], states[i].pending.value.id);
    }
  }

  /** What the invariant gives a reader: sequence numbers in flight are unique, and there are at most two. */
  lemma InFlightDistinct(states: seq<State>, steps: seq<Step>, i: nat, m1: nat, m2: nat)
    requires Run(states, steps) && i < |states|
    requires m1 in states[i].msgs && m2 in states[i].msgs && m1 != m2
    requires InFlight(states[i].msgs[m1]) && InFlight(states[i].msgs[m2])
    requires states[i].msgs[m1].dst == states[i].msgs[m2].dst
    ensures states[i].msgs[m1].seqno == 1 - states[i].msgs[m2].seqno
  {
    RunKeepsInv(states, steps, i);
    var s := states[i];
    assert Placed(s.queue, m1, s.msgs[m1]) && Placed(s.queue, m2, s.msgs[m2]);
    assert SlotAgrees(s, s.msgs[m1].dst, s.msgs[m1].seqno, m1);
    assert SlotAgrees(s, s.msgs[m2].dst, s.msgs[m2].seqno, m2);
  }

  // ----- what goes out on the link -----

  function Bytes(c: Chunk): seq<Byte>
    requires ValidRoute(c.route) && c.offset <= |c.msg|
  {
    ChunkAt(c.route, c.msg, c.offset)
  }

  ghost function AllBytes(log: seq<Chunk>): seq<seq<Byte>>
    requires Chained(log)
  {
    seq(|log|, i requires 0 <= i < |log| => assert Linked(log, i); Bytes(log[i]))
  }

  /** The chunk of one message that `log[i]` belongs to starts here. */
  lemma {:induction false} StartOf(log: seq<Chunk>, i: nat) returns (j: nat)
    requires Chained(log) && i < |log|
    ensures j <= i && log[j].offset == 0
    ensures forall k :: j < k <= i ==> Follows(log[k - 1], log[k])
    decreases i
  {
    if log[i].offset == 0 {
      j := i;
    } else {
      assert Linked(log, i);
      j := StartOf(log, i - 1);
    }
  }

  lemma {:induction false} RunOfChunks(log: seq<Chunk>, j: nat, i: nat)
    requires Chained(log) && j <= i < |log|
    requires forall k :: j < k <= i ==> Follows(log[k - 1], log[k])
    requires ValidChunk(log[i]) && NextOffset(log[i]) == |log[i].msg|
    ensures log[j].id == log[i].id && log[j].msg == log[i].msg && log[j].route == log[i].route
    ensures ValidChunk(log[j]) && AllBytes(log)[j..i + 1] == Fragments(log[j].route, log[j].msg, log[j].offset)
    decreases i - j
  {
    hide ChunkAt, ToSend;
    var c := log[j];
    assert Linked(log, j);
    if j == i {
      assert AllBytes(log)[j..i + 1] == [Bytes(c)];
    } else {
      RunOfChunks(log, j + 1, i);
      assert Follows(c, log[j + 1]);
      NextFits(c);
      Slices.Join(AllBytes(log), j, j + 1, i + 1);
      assert AllBytes(log)[j..j + 1] == [Bytes(c)];
    }
  }

  /**
   Whenever a run has sent the last chunk of a message, the chunks on the link up to it are
   exactly the fragments of that message in order, with nothing in between.
   */
  lemma MessagesUninterrupted(states: seq<State>, steps: seq<Step>, n: nat, i: nat) returns (j: nat)
    requires Run(states, steps) && n < |states| && i < |states[n].log|
    requires var c := states[n].log[i];
             ValidRoute(c.route) && c.offset <= |c.msg| && NextOffset(c) == |c.msg|
    ensures var log := states[n].log;
            j <= i && Chained(log) && ValidRoute(log[i].route) &&
            AllBytes(log)[j..i + 1] == Fragments(log[i].route, log[i].msg, 0)
  {
    RunKeepsInv(states, steps, n);
    hide Run, SlotsAgree, QueueOk, PendingOk;
    var log := states[n].log;
    j := StartOf(log, i);
    assert Linked(log, i);
    RunOfChunks(log, j, i);
  }

  /** So a peer that reads those chunks ends up with the message. */
  lemma PeerReceives(states: seq<State>, steps: seq<Step>, n: nat, i: nat, windows: seq<seq<Byte>>, max: nat)
    returns (j: nat)
    requires Run(states, steps) && n < |states| && i < |states[n].log|
    requires var c := states[n].log[i];
             ValidRoute(c.route) && c.offset <= |c.msg| <= 255 && NextOffset(c) == |c.msg| &&
             3 + c.route.lct / 2 <= max
    ensures j <= i && Chained(states[n].log)
    ensures Carries(windows, AllBytes(states[n].log)[j..i + 1]) ==>
              AllReadable(ZEROED, windows, max) &&
              ReceiveAll(ZEROED, windows, max).msg == states[n].log[i].msg
  {
    var c := states[n].log[i];
    j := MessagesUninterrupted(states, steps, n, i);
    hide Run, NextOffset;
    if Carries(windows, AllBytes(states[n].log)[j..i + 1]) {
      FragmentThenReassemble(c.route, c.msg, windows, max);
    }
  }

  // ----- the C routines -----

  class Manager {
    var downq: seq<nat>
    var msgs: map<nat, Tx>
    var branches: map<nat, Branch>
    var inProgress: bool
    var pending: Option<Pending>
    var next: nat
    ghost var log: seq<Chunk>

    ghost function View(): State
      reads this
    {
      State(downq, msgs, branches, inProgress, pending, next, log)
    }

    method SetHdrFromDst(m: nat) returns (ret: int)
      requires Typed(View()) && m in msgs
      modifies this`msgs, this`branches
      ensures (View(), ret == 0) == TakeSlot(old(View()), m)
      ensures ret <= 0
    {
      var t := msgs[m];
      var b := branches[t.dst];
      if t.seqno == -1 {
        if b.slots[0].Some? && b.slots[1].Some? {
          return -11;
        }
        var seqno: nat;
        var last := b.lastSeqno;
        if b.slots[0] == None && b.slots[1] == None {
          seqno := b.lastSeqno;
          last := 1 - last;
        } else if b.slots[0] == None {
          seqno := 0;
        } else {
          seqno := 1;
        }
        msgs := msgs[m := t.(seqno := seqno)];
        branches := branches[t.dst := b.(slots := b.slots[seqno := Some(m)], lastSeqno := last)];
      }
      ret := 0;
    }

    /** Sends one chunk of m; returns 1 after the last one, 0 if more remain, a negative number on failure. */
    method ProcessSingleTx(m: nat, linkOk: bool) returns (ret: int)
      requires HeadOk(View()) && inProgress && downq != [] && m == downq[0]
      modifies this`msgs, this`branches, this`log
      ensures ret <= 1
      ensures var (s1, ok) := Attempt(old(View()));
              if ok && linkOk
              then ret >= 0 && Advance(s1, m) == if ret == 1 then View().(queue := downq[1..]) else View()
              else ret < 0 && View() == s1
    {
      hide TakeSlot, Advance;
      ghost var s := View();
      assert s.(inProgress := true) == s;
      var t := msgs[m];
      if t.state == Queued {
        msgs := msgs[m := t.(seqno := -1, state := StartSend)];
      }
      assert View() == Begin(s, m);
      ret := SetHdrFromDst(m);
      assert (View(), ret == 0) == Attempt(s);
      if ret < 0 {
        return;
      }
      if !linkOk {
        return -5;
      }
      ret := ChunkSent(m);
    }

    method ChunkSent(m: nat) returns (ret: int)
      requires Typed(View()) && m in msgs && 0 <= msgs[m].seqno < 2 && |downq| > 0
      modifies this`msgs, this`log
      ensures 0 <= ret <= 1
      ensures Advance(old(View()), m) == if ret == 1 then View().(queue := downq[1..]) else View()
    {
      var t := msgs[m];
      var route := RouteOf(branches[t.dst], t);
      var tosend := Min(|t.msg| - t.offset, CHUNK_SIZE - 1 - (3 + route.lct / 2));
      log := log + [Chunk(m, route, t.msg, t.offset)];
      var offset := t.offset + tosend;
      if offset == |t.msg| {
        msgs := msgs[m := t.(offset := offset, state := Sent)];
        return 1;
      }
      msgs := msgs[m := t.(offset := offset)];
      ret := 0;
    }

    method ProcessSingleDown(linkOk: bool)
      requires HeadOk(View())
      modifies this
      ensures View() == Process(old(View()), linkOk)
    {
      if downq == [] {
        inProgress := false;
        return;
      }
      ghost var s := View();
      inProgress := true;
      ProcessForgets(s, linkOk);
      var m := downq[0];
      var ret := ProcessSingleTx(m, linkOk);
      if ret == 1 {
        downq := downq[1..];
      } else if ret != 0 {
        downq := downq[1..];
        var t := msgs[m];
        if t.seqno != -1 {
          branches := branches[t.dst := Vacate(branches[t.dst], t.seqno)];
        }
        msgs := msgs[m := t.(state := TimedOut)];
      }
      if downq == [] {
        inProgress := false;
      }
    }

    method QueueDown(dst: nat, msg: seq<Byte>, pathMsg: bool, linkOk: bool)
      requires HeadOk(View()) && dst in branches && next !in msgs && next !in downq
      modifies this
      ensures View() == Enqueue(old(View()), dst, msg, pathMsg, linkOk)
      ensures next == old(next) + 1 && Requests(View()) == Requests(old(View()))[old(next) := (dst, msg, pathMsg)]
      ensures old(inProgress) ==> downq == old(downq) + [old(next)] && log == old(log)
    {
      ghost var was := View();
      hide Process, Requests, HeadOk, Enqueue;
      msgs := msgs[next := Tx(dst, msg, pathMsg, 0, Queued, 0)];
      downq := downq + [next];
      next := next + 1;
      EnqueueRequests(was, View(), dst, msg, pathMsg, linkOk);
      if !inProgress {
        ProcessSingleDown(linkOk);
      }
    }

    /**
     The worker: no message appears or disappears, and afterwards sending is in progress only if
     something is queued.
     */
    method TxWork(linkOk: bool)
      requires HeadOk(View())
      modifies this
      ensures View() == Work(old(View()), linkOk)
      ensures Inv(old(View())) ==> Inv(View())
      ensures msgs.Keys == old(msgs).Keys && pending == old(pending)
      ensures old(inProgress) ==> (inProgress <==> downq != [])
    {
      ghost var s := View();
      if Inv(s) { ProcessKeepsInv(s, linkOk); }
      ProcessKeys(s, linkOk);
      if inProgress {
        ProcessSingleDown(linkOk);
      }
    }

    /** The part of drm_dp_mst_wait_tx_reply after the wait has timed out; the caller then frees m. */
    method WaitTimedOut(m: nat)
      requires Typed(View()) && m in msgs && (InFlight(msgs[m]) ==> 0 <= msgs[m].seqno < 2)
      modifies this
      ensures View() == GiveUp(old(View()), m)
      ensures Inv(old(View())) ==>
                Inv(View()) && m !in downq && forall b :: b in branches ==> Some(m) !in branches[b].slots
      ensures msgs == old(msgs) - {m} && pending == old(pending)
    {
      ghost var s := View();
      if Inv(s) { GoneAfterGivingUp(s, m); }
      var t := msgs[m];
      if t.state == Queued || t.state == StartSend {
        downq := Without(downq, m);
      }
      if t.state == StartSend || t.state == Sent {
        branches := branches[t.dst := Vacate(branches[t.dst], t.seqno)];
      }
      msgs := msgs - {m};
    }

    /** The first section of a reply finds the message in flight to that branch under that number, if there is one. */
    method FindReplyTarget(b: nat, slot: nat)
      requires Typed(View()) && b in branches && slot < 2
      modifies this`pending
      ensures View() == ReplyLookup(old(View()), b, slot)
      ensures Inv(old(View())) ==>
                forall m: nat :: SlotHolds(View(), b, slot, m) ==> pending == Some(Pending(b, slot, m))
      ensures Inv(old(View())) && (forall m: nat :: !SlotHolds(View(), b, slot, m)) ==> pending == old(pending)
    {
      ghost var s := View();
      var txmsg := branches[b].slots[slot];
      if txmsg.Some? {
        pending := Some(Pending(b, slot, txmsg.value));
      }
      if Inv(s) {
        forall m: nat ensures SlotHolds(View(), b, slot, m) <==> txmsg == Some(m) {
          assert SlotAgrees(s, b, slot, m);
          assert SlotHolds(View(), b, slot, m) <==> SlotHolds(s, b, slot, m);
        }
      }
    }

    /**
     The second section. fault stands for the write to a message that its sender has freed; what the
     section does then is not described.
     */
    method DeliverReply() returns (fault: bool)
      requires Typed(View()) && pending.Some? && pending.value.branch in branches && pending.value.slot < 2
      modifies this
      ensures fault <==> old(pending).value.id !in old(msgs)
      ensures !fault ==> ReplyFinish(old(View())) == Some(View())
      ensures !fault && Inv(old(View())) ==> Inv(View())
      ensures !fault ==> msgs[old(pending).value.id].state == Replied &&
                         branches[old(pending).value.branch].slots[old(pending).value.slot] == None
    {
      ghost var s := View();
      var p := pending.value;
      if p.id !in msgs { return true; }
      msgs := msgs[p.id := msgs[p.id].(state := Replied)];
      branches := branches[p.branch := Vacate(branches[p.branch], p.slot)];
      pending := None;
      fault := false;
      if Inv(s) { FinishKeepsInvIff(s); }
    }
  }

  // ----- the window between the two sections of a reply -----

  /** The states of the run below: one branch device with the given slots, and sent empty messages. */
  function Snapshot(msgs: map<nat, Tx>, slot0: Option<nat>, slot1: Option<nat>, last: nat,
                    pending: Option<Pending>, next: nat, log: seq<Chunk>): State
  {
    State([], msgs, map[0 := Branch(1, [], [slot0, slot1], last)], false, pending, next, log)
  }

  function SentTx(q: nat): Tx {
    Tx(0, [], false, 0, Sent, q)
  }

  function SentChunk(m: nat, q: nat): Chunk {
    Chunk(m, Route(1, [], false, q), [], 0)
  }

  /** An empty message queued on an idle link goes out at once and occupies slot q. */
  lemma SendsAtOnce(s: State, q: nat)
    requires Typed(s) && s.queue == [] && !s.inProgress && s.next !in s.msgs && 0 in s.branches
    requires s.branches[0].lct == 1 && FreeSlot(s.branches[0]) == Some(q)
    ensures HeadOk(s)
    ensures Enqueue(s, 0, [], false, true) ==
            s.(next := s.next + 1, msgs := s.msgs[s.next := SentTx(q)],
               branches := s.branches[0 := Occupy(s.branches[0], q, s.next)],
               log := s.log + [SentChunk(s.next, q)])
  {
    var t := Tx(0, [], false, 0, Queued, 0);
    var s1 := s.(queue := [s.next], next := s.next + 1, msgs := s.msgs[s.next := t]);
    assert s.queue + [s.next] == [s.next];
    assert [s.next][1..] == [];
    var s2 := Attempt(s1).0;
    assert s2.msgs == s.msgs[s.next := t.(seqno := q, state := StartSend)];
    assert Process(s1, true) == SettleProgress(Advance(s2, s.next));
    assert Advance(s2, s.next).msgs == s.msgs[s.next := SentTx(q)];
  }

  const Q: Step := DoEnqueue(0, [], false, true)
  const ANSWERED: Pending := Pending(0, 0, 0)

  lemma FirstThreeSteps(s0: State, s1: State, s2: State, s3: State)
    requires s0 == Snapshot(map[], None, None, 0, None, 0, [])
    requires s1 == Snapshot(map[0 := SentTx(0)], Some(0), None, 1, None, 1, [SentChunk(0, 0)])
    requires s2 == s1.(pending := Some(ANSWERED))
    requires s3 == Snapshot(map[], None, None, 1, Some(ANSWERED), 1, [SentChunk(0, 0)])
    ensures Transition(s0, Q, s1) && Transition(s1, DoLookup(0, 0), s2) && Transition(s2, DoGiveUp(0), s3)
  {
    hide Process;
    SendsAtOnce(s0, 0);
    assert [None, None][0 := Some(0)] == [Some(0), None];
    assert [] + [SentChunk(0, 0)] == [SentChunk(0, 0)];
    assert Transition(s0, Q, s1);
    assert Transition(s1, DoLookup(0, 0), s2);
    assert [Some(0), None][0 := None] == [None, None];
    assert s2.msgs - {0} == map[];
    assert s3 == GiveUp(s2, 0);
  }

  lemma LastTwoSteps(s3: State, s4: State, s5: State)
    requires s3 == Snapshot(map[], None, None, 1, Some(ANSWERED), 1, [SentChunk(0, 0)])
    requires s4 == Snapshot(map[1 := SentTx(1)], None, Some(1), 0, Some(ANSWERED), 2,
                            [SentChunk(0, 0), SentChunk(1, 1)])
    requires s5 == Snapshot(map[1 := SentTx(1), 2 := SentTx(0)], Some(2), Some(1), 0, Some(ANSWERED), 3,
                            [SentChunk(0, 0), SentChunk(1, 1), SentChunk(2, 0)])
    ensures Transition(s3, Q, s4) && Transition(s4, Q, s5)
  {
    hide Process;
    SendsAtOnce(s3, 1);
    assert [None, None][1 := Some(1)] == [None, Some(1)];
    SendsAtOnce(s4, 0);
    assert [None, Some(1)][0 := Some(2)] == [Some(2), Some(1)];
  }

  /** A reply is about to be delivered into the slot of another message that is still in flight. */
  ghost predicate WrongSlotNext(s: State) {
    Inv(s) && s.pending.Some? && !SenderWaits(s) && !Inv(ClearSlot(s)) &&
    exists m :: m in s.msgs && InFlight(s.msgs[m]) && m != s.pending.value.id &&
                SlotHolds(s, s.pending.value.branch, s.pending.value.slot, m)
  }

  lemma TakenOver(s: State, log: seq<Chunk>)
    requires s == Snapshot(map[1 := SentTx(1), 2 := SentTx(0)], Some(2), Some(1), 0, Some(ANSWERED), 3, log)
    requires Inv(s)
    ensures WrongSlotNext(s)
  {
    assert SlotHolds(s, 0, 0, 2);
    var s1 := ClearSlot(s);
    assert SlotHolds(s1, 0, 0, 2) && s1.branches[0].slots[0] == None;
    assert Typed(s1) ==> !SlotAgrees(s1, 0, 0, 2);
  }

  lemma FiveSteps(s0: State, s1: State, s2: State, s3: State, s4: State, s5: State)
    returns (states: seq<State>, steps: seq<Step>)
    requires Initial(s0) && Transition(s0, Q, s1) && Transition(s1, DoLookup(0, 0), s2)
    requires Transition(s2, DoGiveUp(0), s3) && Transition(s3, Q, s4) && Transition(s4, Q, s5)
    ensures Run(states, steps) && |states| == |steps| + 1 && states[|steps|] == s5
  {
    hide Initial, Transition;
    states, steps := [s0, s1, s2, s3, s4, s5], [Q, DoLookup(0, 0), DoGiveUp(0), Q, Q];
  }

  /**
   The window is real: message 0 is answered, its sender gives up before the answer is delivered,
   messages 1 and 2 go out, and the delivery would then clear the slot of message 2.
   */
  lemma LateReplyClearsWrongSlot() returns (states: seq<State>, steps: seq<Step>)
    ensures Run(states, steps) && |states| == |steps| + 1 && WrongSlotNext(states[|steps|])
  {
    var s0 := Snapshot(map[], None, None, 0, None, 0, []);
    assert Initial(s0);
    hide Snapshot, Transition, Inv, Initial, WrongSlotNext, Run;
    var s1 := Snapshot(map[0 := SentTx(0)], Some(0), None, 1, None, 1, [SentChunk(0, 0)]);
    var s2 := s1.(pending := Some(ANSWERED));
    var s3 := Snapshot(map[], None, None, 1, Some(ANSWERED), 1, [SentChunk(0, 0)]);
    var s4 := Snapshot(map[1 := SentTx(1)], None, Some(1), 0, Some(ANSWERED), 2,
                       [SentChunk(0, 0), SentChunk(1, 1)]);
    var log := [SentChunk(0, 0), SentChunk(1, 1), SentChunk(2, 0)];
    var s5 := Snapshot(map[1 := SentTx(1), 2 := SentTx(0)], Some(2), Some(1), 0, Some(ANSWERED), 3, log);
    FirstThreeSteps(s0, s1, s2, s3);
    LastTwoSteps(s3, s4, s5);
    states, steps := FiveSteps(s0, s1, s2, s3, s4, s5);
    RunKeepsInv(states, steps, |steps|);
    TakenOver(s5, log);
  }

  /** After the first three of these steps a delivery would write to the freed message 0. */
  lemma LateReplyWritesFreed() returns (states: seq<State>, steps: seq<Step>)
    ensures Run(states, steps) && |states| == |steps| + 1
    ensures var s := states[|steps|]; Inv(s) && s.pending.Some? && ReplyFinish(s) == None
  {
    var s0 := Snapshot(map[], None, None, 0, None, 0, []);
    assert Initial(s0);
    hide Transition, Inv, Initial, Run;
    var s1 := Snapshot(map[0 := SentTx(0)], Some(0), None, 1, None, 1, [SentChunk(0, 0)]);
    var s2 := s1.(pending := Some(ANSWERED));
    var s3 := Snapshot(map[], None, None, 1, Some(ANSWERED), 1, [SentChunk(0, 0)]);
    FirstThreeSteps(s0, s1, s2, s3);
    states, steps := ThreeSteps(s0, s1, s2, s3);
    RunKeepsInv(states, steps, |steps|);
    FinishKeepsInvIff(s3);
  }

  lemma ThreeSteps(s0: State, s1: State, s2: State, s3: State) returns (states: seq<State>, steps: seq<Step>)
    requires Initial(s0) && Transition(s0, Q, s1) && Transition(s1, DoLookup(0, 0), s2) &&
             Transition(s2, DoGiveUp(0), s3)
    ensures Run(states, steps) && |states| == |steps| + 1 && states[|steps|] == s3
  {
    hide Initial, Transition;
    states, steps := [s0, s1, s2, s3], [Q, DoLookup(0, 0), DoGiveUp(0)];
  }
}
