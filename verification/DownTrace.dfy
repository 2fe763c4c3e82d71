/**
 What the down queue does to the requests it is given, over whole runs: every request goes out
 unchanged, in the order of the calls, under the number of the slot that waits for its reply, and
 in full before it counts as sent.
 */
module DownTrace {
  import opened Options
  import opened Words
  import opened SidebandHeader
  import opened SidebandMsg
  import opened DownQueue

  // ----- one step -----

  ghost predicate SameRequest(t: Tx, t1: Tx) {
    t1.dst == t.dst && t1.msg == t.msg && t1.pathMsg == t.pathMsg
  }

  ghost predicate SameAddresses(s: State, s1: State) {
    s1.branches.Keys == s.branches.Keys &&
    forall b :: b in s.branches ==> s1.branches[b].lct == s.branches[b].lct && s1.branches[b].rad == s.branches[b].rad
  }

  /** A chunk on the link carries the request of a message, for its branch device and under its number. */
  ghost predicate CarriedFor(c: Chunk, branches: map<nat, Branch>, t: Tx) {
    t.dst in branches && c.msg == t.msg && c.route.pathMsg == t.pathMsg && c.route.seqno == t.seqno &&
    c.route.lct == branches[t.dst].lct && c.route.rad == branches[t.dst].rad
  }

  /** The states a message goes through; replied and timed out are final. */
  ghost predicate StateMoves(a: TxState, b: TxState) {
    a == b || (a == Queued && b != Replied) || (a == StartSend && (b == Sent || b == TimedOut)) ||
    (a == Sent && b == Replied)
  }

  ghost predicate Kept(t: Tx, t1: Tx) {
    SameRequest(t, t1) && StateMoves(t.state, t1.state) && (t.state != Queued ==> t1.seqno == t.seqno)
  }

  /** The chunk that takes a message from one offset to another. */
  ghost predicate Moves(c: Chunk, m: nat, branches: map<nat, Branch>, t: Tx, t1: Tx) {
    c.id == m && CarriedFor(c, branches, t1) && ValidChunk(c) && c.offset == t.offset && NextOffset(c) == t1.offset &&
    (t1.state == Sent <==> t1.offset == |t1.msg|)
  }

  /** The head has a slot already, or its branch device has one to give. */
  ghost predicate MaySend(s: State)
    requires s.queue != [] && s.queue[0] in s.msgs && s.msgs[s.queue[0]].dst in s.branches
  {
    var t := s.msgs[s.queue[0]];
    t.state == StartSend || None in s.branches[t.dst].slots
  }

  /** What one round on a queue does to its head and to the link: one chunk goes out, or the head times out. */
  ghost predicate HeadMoves(s: State, s1: State, t1: Tx, ok: bool) {
    s.queue != [] && s.queue[0] in s.msgs && s.msgs[s.queue[0]].dst in s.branches &&
    var m := s.queue[0];
    (t1.state == TimedOut <==> !ok || !MaySend(s)) &&
    s1.msgs == s.msgs[m := t1] && s1.next == s.next && s1.pending == s.pending && SameAddresses(s, s1) &&
    Kept(s.msgs[m], t1) && (t1.state == StartSend || t1.state == Sent || t1.state == TimedOut) &&
    s1.queue == (if t1.state == StartSend then s.queue else s.queue[1..]) &&
    (if t1.state == TimedOut then s1.log == s.log
     else |s1.log| == |s.log| + 1 && s1.log[..|s.log|] == s.log &&
          Moves(s1.log[|s.log|], m, s1.branches, s.msgs[m], t1))
  }

  /** The head as it stands before its chunk is written: only its number and state may be new. */
  ghost predicate Ready(s: State, s2: State, m: nat) {
    s.queue != [] && m == s.queue[0] && s2.queue == s.queue && m in s.msgs && m in s2.msgs &&
    s2.msgs == s.msgs[m := s2.msgs[m]] && s2.log == s.log && s2.next == s.next && s2.pending == s.pending &&
    SameAddresses(s, s2) && Kept(s.msgs[m], s2.msgs[m]) && s2.msgs[m].offset == s.msgs[m].offset &&
    s2.msgs[m].state == StartSend && 0 <= s2.msgs[m].seqno < 2
  }

  /** The parts of the state after a chunk has been written. */
  lemma AdvanceIs(s: State, m: nat, c: Chunk)
    requires Typed(s) && m in s.msgs && 0 <= s.msgs[m].seqno < 2 && |s.queue| > 0
    requires var t := s.msgs[m]; c == Chunk(m, RouteOf(s.branches[t.dst], t), t.msg, t.offset)
    ensures var s1, t, next := SettleProgress(Advance(s, m)), s.msgs[m], NextOffset(c);
            s1.log == s.log + [c] && s1.branches == s.branches && s1.next == s.next && s1.pending == s.pending &&
            s1.queue == (if next == |t.msg| then s.queue[1..] else s.queue) &&
            s1.msgs == s.msgs[m := t.(offset := next, state := if next == |t.msg| then Sent else t.state)]
  {
    hide ToSend;
  }

  lemma AdvanceMoves(s: State, s2: State, m: nat) returns (t1: Tx)
    requires Typed(s2) && Ready(s, s2, m) && (s.msgs[m].offset > 0 ==> s.msgs[m].offset < |s.msgs[m].msg|)
    requires m in s.msgs && s.msgs[m].dst in s.branches && MaySend(s)
    ensures HeadMoves(s, SettleProgress(Advance(s2, m)), t1, true)
  {
    hide ToSend, Advance, SettleProgress;
    var t := s2.msgs[m];
    var c := Chunk(m, RouteOf(s2.branches[t.dst], t), t.msg, t.offset);
    AdvanceIs(s2, m, c);
    NextFits(c);
    var next := NextOffset(c);
    t1 := t.(offset := next, state := if next == |t.msg| then Sent else StartSend);
    assert s.msgs[m := t][m := t1] == s.msgs[m := t1];
    assert Moves(c, m, s2.branches, s.msgs[m], t1);
    assert (s.log + [c])[..|s.log|] == s.log;
  }

  lemma DropMoves(s: State, s2: State, m: nat) returns (t1: Tx)
    requires Typed(s2) && Ready(s, s2, m) && s.msgs[m].dst in s.branches
    ensures HeadMoves(s, SettleProgress(Drop(s2, m)), t1, false)
  {
    t1 := s2.msgs[m].(state := TimedOut);
    assert s.msgs[m := s2.msgs[m]][m := t1] == s.msgs[m := t1];
  }

  lemma MaySendIff(s: State)
    requires Inv(s) && s.queue != []
    ensures MaySend(s) <==> CanSend(s)
  {
    hide SlotsAgree, LogOk, PendingOk, NoDup;
    var m := s.queue[0];
    assert Placed(s.queue, m, s.msgs[m]);
    var b := s.branches[s.msgs[m].dst];
    assert None in b.slots <==> b.slots[0] == None || b.slots[1] == None;
  }

  lemma StartedReady(s: State)
    requires Inv(s) && s.queue != [] && CanSend(s)
    ensures Typed(Started(s)) && Ready(s, Started(s), s.queue[0])
    ensures var t := s.msgs[s.queue[0]]; (t.offset > 0 ==> t.offset < |t.msg|) && t.dst in s.branches && MaySend(s)
  {
    MaySendIff(s);
    StartedIs(s);
    hide SlotsAgree, LogOk, PendingOk, NoDup, Started;
    var m := s.queue[0];
    assert Placed(s.queue, m, s.msgs[m]);
    assert s.msgs[m := s.msgs[m]] == s.msgs;
  }

  lemma ProcessMoves(s: State, ok: bool) returns (t1: Tx)
    requires Inv(s) && s.queue != []
    ensures HeadOk(s) && HeadMoves(s, Process(s, ok), t1, ok)
  {
    ProcessKeepsInv(s, ok);
    var m := s.queue[0];
    if CanSend(s) {
      StartedReady(s);
      StartKeepsInv(s);
      hide Inv, Started, CanSend, HeadMoves, Ready;
      ProcessIs(s, ok);
      if ok { t1 := AdvanceMoves(s, Started(s), m); } else { t1 := DropMoves(s, Started(s), m); }
    } else {
      MaySendIff(s);
      t1 := s.msgs[m].(seqno := -1, state := TimedOut);
      NoSlotIs(s, SetTx(s.(queue := s.queue[1..], inProgress := s.queue[1..] != []), m, t1));
    }
  }

  // ----- the trace invariant -----

  ghost predicate Ascending(q: seq<nat>) {
    forall i, j :: 0 <= i < j < |q| ==> q[i] < q[j]
  }

  /** Identities grow from call to call; the link and the queue follow that order. */
  ghost predicate Ordered(s: State) {
    Ascending(s.queue) && (forall m :: m in s.queue ==> m < s.next) && (forall m :: m in s.msgs ==> m < s.next) &&
    LogOrdered(s.log) && Below(s.log, s.next) && forall m :: m in s.queue ==> Below(s.log, m + 1)
  }

  ghost predicate LogOrdered(log: seq<Chunk>) {
    forall i, j :: 0 <= i < j < |log| ==> log[i].id <= log[j].id
  }

  ghost predicate Below(log: seq<Chunk>, n: nat) {
    forall i :: 0 <= i < |log| ==> log[i].id < n
  }

  lemma LogAppends(log: seq<Chunk>, c: Chunk)
    requires LogOrdered(log) && Below(log, c.id + 1)
    ensures LogOrdered(log + [c])
    ensures forall n: nat :: Below(log, n) && c.id < n ==> Below(log + [c], n)
  {
  }

  ghost predicate AllCarried(s: State) {
    forall i :: 0 <= i < |s.log| && s.log[i].id in s.msgs ==>
      CarriedFor(s.log[i], s.branches, s.msgs[s.log[i].id]) && s.msgs[s.log[i].id].state != Queued
  }

  /** The last chunk of message m is at place i of the link. */
  ghost predicate LastAt(log: seq<Chunk>, i: nat, m: nat) {
    i < |log| && log[i].id == m && ValidChunk(log[i]) && NextOffset(log[i]) == |log[i].msg|
  }

  ghost predicate SentInFull(s: State) {
    forall m :: m in s.msgs && (s.msgs[m].state == Sent || s.msgs[m].state == Replied) ==>
      exists i: nat :: LastAt(s.log, i, m)
  }

  ghost predicate Trace(s: State) {
    Ordered(s) && AllCarried(s) && SentInFull(s)
  }

  lemma HeadMovesOrder(s: State, s1: State, t1: Tx, ok: bool)
    requires Ordered(s) && HeadMoves(s, s1, t1, ok)
    ensures Ordered(s1)
  {
    hide Kept, SameAddresses, CarriedFor, MaySend;
    TailAscends(s.queue);
    var m := s.queue[0];
    assert m in s.queue;
    if t1.state != TimedOut {
      var c := s1.log[|s.log|];
      assert s1.log == s.log + [c];
      LogAppends(s.log, c);
    }
    hide Ascending, LogOrdered, Below;
  }

  lemma TailAscends(q: seq<nat>)
    requires Ascending(q) && q != []
    ensures Ascending(q[1..]) && (forall m :: m in q[1..] ==> m in q && q[0] < m) && forall m :: m in q ==> q[0] <= m
  {
  }

  lemma AppendAscends(q: seq<nat>, n: nat)
    requires Ascending(q) && forall m :: m in q ==> m < n
    ensures Ascending(q + [n])
  {
    forall i, j | 0 <= i < j < |q| + 1 ensures (q + [n])[i] < (q + [n])[j] {
      assert q[i] in q;
    }
  }

  lemma HeadMovesCarry(s: State, s1: State, t1: Tx, ok: bool)
    requires AllCarried(s) && HeadMoves(s, s1, t1, ok)
    ensures AllCarried(s1)
  {
    forall i | 0 <= i < |s1.log| && s1.log[i].id in s1.msgs
      ensures CarriedFor(s1.log[i], s1.branches, s1.msgs[s1.log[i].id]) && s1.msgs[s1.log[i].id].state != Queued
    {
      if i < |s.log| { assert s1.log[i] == s.log[i]; }
    }
  }

  lemma HeadMovesSent(s: State, s1: State, t1: Tx, ok: bool)
    requires SentInFull(s) && HeadMoves(s, s1, t1, ok)
    ensures SentInFull(s1)
  {
    hide SameAddresses;
    forall m | m in s1.msgs && (s1.msgs[m].state == Sent || s1.msgs[m].state == Replied)
      ensures exists i: nat :: LastAt(s1.log, i, m)
    {
      if m == s.queue[0] && s.msgs[m].state != Sent {
        assert LastAt(s1.log, |s.log|, m);
      } else {
        var i: nat :| LastAt(s.log, i, m);
        assert s.log[i] == s1.log[i];
        assert LastAt(s1.log, i, m);
      }
    }
  }

  /** A round on the queue. */
  lemma ProcessKeepsTrace(s: State, ok: bool)
    requires Inv(s) && Trace(s)
    ensures HeadOk(s) && Trace(Process(s, ok))
  {
    if s.queue == [] {
    } else {
      hide Inv, HeadMoves, Ordered, AllCarried, SentInFull, Process;
      var t1 := ProcessMoves(s, ok);
      HeadMovesOrder(s, Process(s, ok), t1, ok);
      HeadMovesCarry(s, Process(s, ok), t1, ok);
      HeadMovesSent(s, Process(s, ok), t1, ok);
    }
  }

  lemma AppendKeepsTrace(s: State, dst: nat, msg: seq<Byte>, pathMsg: bool)
    requires Trace(s)
    ensures Trace(Appended(s, dst, msg, pathMsg))
  {
    var s1 := Appended(s, dst, msg, pathMsg);
    assert s.next !in s.msgs;
    AppendAscends(s.queue, s.next);
    forall m | m in s1.msgs && (s1.msgs[m].state == Sent || s1.msgs[m].state == Replied)
      ensures exists i: nat :: LastAt(s1.log, i, m)
    {
      assert m in s.msgs && s1.msgs[m] == s.msgs[m];
    }
  }

  lemma {:induction false} WithoutAscends(q: seq<nat>, m: nat)
    requires Ascending(q)
    ensures Ascending(Without(q, m)) && forall x :: x in Without(q, m) ==> x in q
  {
    if q != [] {
      TailAscends(q);
      hide Ascending;
      if q[0] != m {
        WithoutAscends(q[1..], m);
        PrependAscends(q[0], Without(q[1..], m));
      }
    }
  }

  lemma PrependAscends(x: nat, q: seq<nat>)
    requires Ascending(q) && forall y :: y in q ==> x < y
    ensures Ascending([x] + q)
  {
    forall i, j | 0 <= i < j < |q| + 1 ensures ([x] + q)[i] < ([x] + q)[j] {
      assert q[j - 1] in q;
    }
  }

  lemma GiveUpKeepsTrace(s: State, m: nat)
    requires Inv(s) && Trace(s) && m in s.msgs && (InFlight(s.msgs[m]) ==> 0 <= s.msgs[m].seqno < 2)
    ensures Trace(GiveUp(s, m))
  {
    hide Without, SlotsAgree, QueueOk, LogOk, PendingOk;
    WithoutAscends(s.queue, m);
    var s1 := GiveUp(s, m);
    forall m0 | m0 in s1.msgs && (s1.msgs[m0].state == Sent || s1.msgs[m0].state == Replied)
      ensures exists i: nat :: LastAt(s1.log, i, m0)
    {
      assert m0 in s.msgs;
    }
  }

  lemma LookupKeepsTrace(s: State, b: nat, slot: nat)
    requires Typed(s) && b in s.branches && slot < 2 && Trace(s)
    ensures Trace(ReplyLookup(s, b, slot))
  {
  }

  /** Only the state of one message changes, and it does not become sent. */
  lemma FinishKeepsTrace(s: State, s1: State, m: nat)
    requires Trace(s) && m in s.msgs && s1.queue == s.queue && s1.next == s.next && s1.log == s.log
    requires s.msgs[m].state == Sent && s1.msgs == s.msgs[m := s.msgs[m].(state := Replied)] && SameAddresses(s, s1)
    ensures Trace(s1)
  {
    hide Ordered;
    assert Ordered(s1) by { FinishOrder(s, s1, m); }
    forall m0 | m0 in s1.msgs && (s1.msgs[m0].state == Sent || s1.msgs[m0].state == Replied)
      ensures exists i: nat :: LastAt(s1.log, i, m0)
    {
      assert m0 in s.msgs && (s.msgs[m0].state == Sent || s.msgs[m0].state == Replied);
    }
  }

  lemma FinishOrder(s: State, s1: State, m: nat)
    requires Ordered(s) && s1.queue == s.queue && s1.next == s.next && s1.log == s.log && s1.msgs.Keys == s.msgs.Keys
    ensures Ordered(s1)
  {
  }

  lemma ReplyMoves(s: State, s1: State)
    requires Inv(s) && Transition(s, DoFinish, s1)
    ensures var m := s.pending.value.id;
            m in s.msgs && s1.queue == s.queue && s1.next == s.next && s1.log == s.log && s.msgs[m].state == Sent &&
            s1.msgs == s.msgs[m := s.msgs[m].(state := Replied)] && SameAddresses(s, s1)
  {
    hide SlotsAgree, QueueOk, LogOk;
  }

  /** Queueing is appending, and then perhaps a round on the queue. */
  lemma EnqueueIs(s: State, dst: nat, msg: seq<Byte>, pathMsg: bool, ok: bool)
    requires Inv(s) && dst in s.branches
    ensures var s1 := Appended(s, dst, msg, pathMsg);
            HeadOk(s) && s.next !in s.msgs && s.next !in s.queue && Inv(s1) && HeadOk(s1) &&
            Enqueue(s, dst, msg, pathMsg, ok) == if s.inProgress then s1 else Process(s1, ok)
  {
    hide Process, SlotsAgree, LogOk, PendingOk, NoDup;
    var s1 := Appended(s, dst, msg, pathMsg);
    AppendKeepsInv(s, dst, msg, pathMsg);
    ProcessKeepsInv(s1, ok);
    if !s.inProgress {
      ProcessForgets(s1.(inProgress := false), ok);
      assert s1.(inProgress := false).(inProgress := true) == s1;
    }
  }

  lemma TransitionKeepsTrace(s: State, step: Step, s1: State)
    requires Inv(s) && Trace(s) && Transition(s, step, s1)
    ensures Trace(s1)
  {
    hide Inv, Trace, Enqueue, Process, GiveUp, ReplyLookup, ReplyFinish;
    match step
    case DoEnqueue(dst, msg, pathMsg, ok) =>
      EnqueueIs(s, dst, msg, pathMsg, ok);
      AppendKeepsTrace(s, dst, msg, pathMsg);
      ProcessKeepsTrace(Appended(s, dst, msg, pathMsg), ok);
    case DoWork(ok) => ProcessKeepsTrace(s, ok);
    case DoGiveUp(m) => GiveUpKeepsTrace(s, m);
    case DoLookup(b, slot) => LookupKeepsTrace(s, b, slot);
    case DoFinish =>
      ReplyMoves(s, s1);
      FinishKeepsTrace(s, s1, s.pending.value.id);
  }

  lemma {:induction false} RunKeepsTrace(states: seq<State>, steps: seq<Step>, i: nat)
    requires Run(states, steps) && i < |states|
    ensures Trace(states[i])
  {
    hide Transition, Inv;
    if i > 0 {
      RunKeepsTrace(states, steps, i - 1);
      RunKeepsInv(states, steps, i - 1);
      hide Trace;
      TransitionKeepsTrace(states[i - 1], steps[i - 1], states[i]);
    }
  }

  // ----- what stays from step to step -----

  ghost predicate LogGrows(s: State, s1: State) {
    |s.log| <= |s1.log| <= |s.log| + 1 && s1.log[..|s.log|] == s.log &&
    (|s1.log| > |s.log| ==> s1.log[|s.log|].id in s1.msgs)
  }

  /** Requests and addresses stay, states only move on, and the link only grows. */
  ghost predicate Continues(s: State, s1: State) {
    SameAddresses(s, s1) && LogGrows(s, s1) && s1.next >= s.next &&
    forall m :: m in s.msgs && m in s1.msgs ==> Kept(s.msgs[m], s1.msgs[m])
  }

  lemma ProcessContinues(s: State, ok: bool)
    requires Inv(s)
    ensures HeadOk(s) && Continues(s, Process(s, ok))
  {
    hide Inv, HeadMoves, Continues;
    if s.queue == [] {
      EmptyRound(s, ok);
    } else {
      hide Process;
      var t1 := ProcessMoves(s, ok);
      HeadMovesContinue(s, Process(s, ok), t1, ok);
    }
  }

  lemma EmptyRound(s: State, ok: bool)
    requires Inv(s) && s.queue == []
    ensures HeadOk(s) && Continues(s, Process(s, ok))
  {
  }

  lemma HeadMovesContinue(s: State, s1: State, t1: Tx, ok: bool)
    requires HeadMoves(s, s1, t1, ok)
    ensures Continues(s, s1)
  {
    hide Moves, MaySend, SameAddresses;
    if |s1.log| > |s.log| { MovesId(s, s1, t1, ok); }
  }

  lemma MovesId(s: State, s1: State, t1: Tx, ok: bool)
    requires HeadMoves(s, s1, t1, ok) && |s1.log| > |s.log|
    ensures s1.log[|s.log|].id == s.queue[0]
  {
  }

  lemma AppendContinues(s: State, dst: nat, msg: seq<Byte>, pathMsg: bool)
    requires s.next !in s.msgs
    ensures Continues(s, Appended(s, dst, msg, pathMsg))
  {
  }

  lemma ContinuesTrans(s: State, s1: State, s2: State)
    requires Continues(s, s1) && Continues(s1, s2) && s1.log == s.log
    requires forall m :: m in s.msgs ==> m in s1.msgs && s1.msgs[m] == s.msgs[m]
    ensures Continues(s, s2)
  {
  }

  lemma TransitionContinues(s: State, step: Step, s1: State)
    requires Inv(s) && Transition(s, step, s1)
    ensures Continues(s, s1) && (step.DoEnqueue? ==> s1.next == s.next + 1)
  {
    hide Inv, Enqueue, Process, GiveUp, ReplyLookup, ReplyFinish, Continues, Appended;
    match step
    case DoEnqueue(dst, msg, pathMsg, ok) =>
      EnqueueIs(s, dst, msg, pathMsg, ok);
      AppendContinues(s, dst, msg, pathMsg);
      var a := Appended(s, dst, msg, pathMsg);
      AppendedIs(s, dst, msg, pathMsg);
      ProcessContinues(a, ok);
      ProcessKeys(a, ok);
      Stays(a);
      ContinuesTrans(s, a, s1);
    case DoWork(ok) => ProcessContinues(s, ok); Stays(s);
    case DoGiveUp(m) => GiveUpContinues(s, m);
    case DoLookup(b, slot) => LookupContinues(s, b, slot);
    case DoFinish =>
      ReplyMoves(s, s1);
      FinishContinues(s, s1, s.pending.value.id);
  }

  lemma AppendedIs(s: State, dst: nat, msg: seq<Byte>, pathMsg: bool)
    requires s.next !in s.msgs
    ensures var a := Appended(s, dst, msg, pathMsg);
            a.next == s.next + 1 && a.log == s.log && s.next in a.msgs &&
            (forall m :: m in s.msgs ==> m in a.msgs && a.msgs[m] == s.msgs[m]) &&
            a.msgs[s.next].dst == dst && a.msgs[s.next].msg == msg && a.msgs[s.next].pathMsg == pathMsg
  {
  }

  lemma Stays(s: State)
    ensures Continues(s, s)
  {
  }

  lemma GiveUpContinues(s: State, m: nat)
    requires Typed(s) && m in s.msgs && (InFlight(s.msgs[m]) ==> 0 <= s.msgs[m].seqno < 2)
    ensures Continues(s, GiveUp(s, m))
  {
    hide Without;
  }

  lemma LookupContinues(s: State, b: nat, slot: nat)
    requires Typed(s) && b in s.branches && slot < 2
    ensures Continues(s, ReplyLookup(s, b, slot))
  {
  }

  lemma FinishContinues(s: State, s1: State, m: nat)
    requires m in s.msgs && s1.next == s.next && s1.log == s.log && s.msgs[m].state == Sent
    requires s1.msgs == s.msgs[m := s.msgs[m].(state := Replied)] && SameAddresses(s, s1)
    ensures Continues(s, s1)
  {
  }

  // ----- over every run -----

  /** Step k of the run is the call that queues a request. */
  ghost predicate Queues(steps: seq<Step>, k: nat, dst: nat, msg: seq<Byte>, pathMsg: bool) {
    k < |steps| && steps[k].DoEnqueue? && steps[k].dst == dst && steps[k].msg == msg && steps[k].pathMsg == pathMsg
  }

  lemma {:induction false} RunContinues(states: seq<State>, steps: seq<Step>, k: nat, j: nat)
    requires Run(states, steps) && k <= j < |states|
    ensures SameAddresses(states[k], states[j]) && states[k].next <= states[j].next
    ensures |states[k].log| <= |states[j].log| && states[j].log[..|states[k].log|] == states[k].log
    decreases j
  {
    hide Transition, Inv;
    if k < j {
      RunContinues(states, steps, k, j - 1);
      RunKeepsInv(states, steps, j - 1);
      TransitionContinues(states[j - 1], steps[j - 1], states[j]);
    }
  }

  /** A call queues what it was given, under a new identity. */
  lemma QueuedAsGiven(s: State, step: Step, s1: State)
    requires Inv(s) && Transition(s, step, s1) && step.DoEnqueue?
    ensures s.next !in s.msgs && s.next in s1.msgs && s1.next == s.next + 1
    ensures var t := s1.msgs[s.next]; t.dst == step.dst && t.msg == step.msg && t.pathMsg == step.pathMsg
  {
    hide Inv, Enqueue, Process, Appended;
    EnqueueIs(s, step.dst, step.msg, step.pathMsg, step.linkOk);
    var a := Appended(s, step.dst, step.msg, step.pathMsg);
    AppendedIs(s, step.dst, step.msg, step.pathMsg);
    ProcessContinues(a, step.linkOk);
    ProcessKeys(a, step.linkOk);
  }

  /** As long as a message is there, it is the request that was queued under its identity. */
  lemma {:induction false} RequestKept(states: seq<State>, steps: seq<Step>, k: nat, j: nat, dst: nat, msg: seq<Byte>,
      pathMsg: bool)
    requires Run(states, steps) && k < j < |states| && Queues(steps, k, dst, msg, pathMsg)
    ensures states[k].next < states[j].next
    ensures states[k].next in states[j].msgs ==>
              var t := states[j].msgs[states[k].next]; t.dst == dst && t.msg == msg && t.pathMsg == pathMsg
    decreases j
  {
    hide Transition, Inv;
    var i := j - 1;
    RunKeepsInv(states, steps, i);
    if i == k {
      QueuedAsGiven(states[k], steps[k], states[j]);
    } else {
      RequestKept(states, steps, k, i, dst, msg, pathMsg);
      TransitionContinues(states[i], steps[i], states[j]);
      NoReturn(states[i], steps[i], states[j], states[k].next);
    }
  }

  /** An identity that is gone does not come back. */
  lemma NoReturn(s: State, step: Step, s1: State, m: nat)
    requires Transition(s, step, s1) && m < s.next
    ensures m in s1.msgs ==> m in s.msgs
  {
    hide Transition;
    TransitionKeys(s, step, s1, m);
  }

  /** Every chunk that ever goes out for a call carries its request to its branch device. */
  lemma {:induction false} RequestOnLink(states: seq<State>, steps: seq<Step>, k: nat, j: nat, i: nat, dst: nat,
      msg: seq<Byte>, pathMsg: bool)
    requires Run(states, steps) && k < j < |states| && Queues(steps, k, dst, msg, pathMsg)
    requires i < |states[j].log| && states[j].log[i].id == states[k].next
    ensures dst in states[j].branches
    ensures var c, b := states[j].log[i], states[j].branches[dst];
            c.msg == msg && c.route.pathMsg == pathMsg && c.route.lct == b.lct && c.route.rad == b.rad
    decreases j
  {
    hide Transition, Inv, Ordered;
    var n := j - 1;
    RunKeepsInv(states, steps, n);
    TransitionContinues(states[n], steps[n], states[j]);
    RunKeepsTrace(states, steps, n);
    RunKeepsTrace(states, steps, j);
    if i < |states[n].log| {
      assert states[n].log[i] == states[j].log[i];
      if n == k { NotYet(states[k], i); } else { RequestOnLink(states, steps, k, n, i, dst, msg, pathMsg); }
    } else {
      RequestKept(states, steps, k, j, dst, msg, pathMsg);
    }
  }

  lemma NotYet(s: State, i: nat)
    requires Ordered(s) && i < |s.log|
    ensures s.log[i].id < s.next
  {
  }

  /**
   A peer that reads the chunks of a call up to the last one ends with the bytes the call was given, and
   with a first header that names the branch device and says whether the request is a path message.
   */
  lemma PeerGetsRequest(states: seq<State>, steps: seq<Step>, k: nat, n: nat, i: nat, dst: nat, msg: seq<Byte>,
      pathMsg: bool, windows: seq<seq<Byte>>, max: nat) returns (j: nat)
    requires Run(states, steps) && k < n < |states| && Queues(steps, k, dst, msg, pathMsg) && |msg| <= 255
    requires LastAt(states[n].log, i, states[k].next)
    requires dst in states[n].branches && 3 + states[n].branches[dst].lct / 2 <= max
    ensures j <= i && Chained(states[n].log)
    ensures Carries(windows, AllBytes(states[n].log)[j..i + 1]) ==>
              AllReadable(ZEROED, windows, max) &&
              var rx, b := ReceiveAll(ZEROED, windows, max), states[n].branches[dst];
              rx.msg == msg && rx.initial.lct == b.lct && rx.initial.rad == b.rad && rx.initial.pathMsg == pathMsg
  {
    hide Run, NextOffset;
    RequestOnLink(states, steps, k, n, i, dst, msg, pathMsg);
    var c := states[n].log[i];
    j := MessagesUninterrupted(states, steps, n, i);
    if Carries(windows, AllBytes(states[n].log)[j..i + 1]) {
      FragmentThenReassemble(c.route, c.msg, windows, max);
    }
  }

  /** Requests go out in the order of the calls: no chunk of a later call comes before one of an earlier call. */
  lemma InCallOrder(states: seq<State>, steps: seq<Step>, k1: nat, k2: nat, n: nat, i1: nat, i2: nat)
    requires Run(states, steps) && k1 < k2 < n < |states| && steps[k1].DoEnqueue? && steps[k2].DoEnqueue?
    requires i1 < |states[n].log| && states[n].log[i1].id == states[k1].next
    requires i2 < |states[n].log| && states[n].log[i2].id == states[k2].next
    ensures i1 < i2
  {
    hide Transition, Inv;
    RunKeepsTrace(states, steps, n);
    RequestKept(states, steps, k1, k2, steps[k1].dst, steps[k1].msg, steps[k1].pathMsg);
  }

  /** And they wait in that order. */
  lemma QueueInCallOrder(states: seq<State>, steps: seq<Step>, k1: nat, k2: nat, n: nat, i1: nat, i2: nat)
    requires Run(states, steps) && k1 < k2 < n < |states| && steps[k1].DoEnqueue? && steps[k2].DoEnqueue?
    requires i1 < |states[n].queue| && states[n].queue[i1] == states[k1].next
    requires i2 < |states[n].queue| && states[n].queue[i2] == states[k2].next
    ensures i1 < i2
  {
    hide Transition, Inv;
    RunKeepsTrace(states, steps, n);
    RequestKept(states, steps, k1, k2, steps[k1].dst, steps[k1].msg, steps[k1].pathMsg);
  }

  /**
   The number a chunk of a message in flight carries on the wire is the slot of the branch device, named
   in the same header, that holds the message: a reply under that number is matched to it.
   */
  lemma ReplyFinds(states: seq<State>, steps: seq<Step>, n: nat, i: nat) returns (h: Header)
    requires Run(states, steps) && n < |states| && i < |states[n].log|
    requires var s := states[n]; s.log[i].id in s.msgs && InFlight(s.msgs[s.log[i].id])
    ensures Typed(states[n]) && ValidChunk(states[n].log[i])
    ensures |Bytes(states[n].log[i])| > 0 && Decode(Bytes(states[n].log[i])) == Some(h) && h.seqno < 2
    ensures var s := states[n]; var m := s.log[i].id; var b := s.msgs[m].dst;
            b in s.branches && h.lct == s.branches[b].lct && h.rad == s.branches[b].rad &&
            ReplyLookup(s, b, h.seqno).pending == Some(Pending(b, h.seqno, m))
  {
    RunKeepsInv(states, steps, n);
    RunKeepsTrace(states, steps, n);
    hide Run, QueueOk, PendingOk, Ordered, SentInFull, Decode, ChunkAt;
    var s := states[n];
    var c := s.log[i];
    assert Linked(s.log, i);
    var payload;
    h, payload := ChunkOnWire(c.route, c.msg, c.offset);
    var t := s.msgs[c.id];
    assert CarriedFor(c, s.branches, t);
    assert SlotAgrees(s, t.dst, t.seqno, c.id);
  }

  /** A message that counts as sent has all its fragments on the link, one after the other. */
  lemma SentOnLink(states: seq<State>, steps: seq<Step>, n: nat, m: nat) returns (j: nat, i: nat)
    requires Run(states, steps) && n < |states| && m in states[n].msgs
    requires states[n].msgs[m].state == Sent || states[n].msgs[m].state == Replied
    ensures var s := states[n];
            j <= i < |s.log| && Chained(s.log) && ValidRoute(s.log[i].route) &&
            CarriedFor(s.log[i], s.branches, s.msgs[m]) &&
            AllBytes(s.log)[j..i + 1] == Fragments(s.log[i].route, s.msgs[m].msg, 0)
  {
    RunKeepsTrace(states, steps, n);
    hide Run, NextOffset, Ordered;
    var i0: nat :| LastAt(states[n].log, i0, m);
    i := i0;
    j := MessagesUninterrupted(states, steps, n, i);
  }

  /** Only the delivery of a reply matched to a message makes it replied. */
  lemma RepliedByDelivery(states: seq<State>, steps: seq<Step>, n: nat, m: nat)
    requires Run(states, steps) && n < |steps| && m in states[n].msgs && m in states[n + 1].msgs
    requires states[n].msgs[m].state != Replied && states[n + 1].msgs[m].state == Replied
    ensures steps[n] == DoFinish && states[n].pending.Some? && states[n].pending.value.id == m
    ensures states[n].msgs[m].state == Sent
  {
    RunKeepsInv(states, steps, n);
    var s, step, s1 := states[n], steps[n], states[n + 1];
    assert Transition(s, step, s1);
    hide Run;
    NewlyReplied(s, step, s1, m);
  }

  lemma NewlyReplied(s: State, step: Step, s1: State, m: nat)
    requires Inv(s) && Transition(s, step, s1) && m in s.msgs && m in s1.msgs
    requires s.msgs[m].state != Replied && s1.msgs[m].state == Replied
    ensures step == DoFinish && s.pending.Some? && s.pending.value.id == m && s.msgs[m].state == Sent
  {
    hide Inv, Enqueue, Process, GiveUp;
    if step.DoEnqueue? {
      EnqueueIs(s, step.dst, step.msg, step.pathMsg, step.linkOk);
      var a := Appended(s, step.dst, step.msg, step.pathMsg);
      ProcessNotReplied(a, step.linkOk, m);
    } else if step.DoWork? {
      ProcessNotReplied(s, step.linkOk, m);
    } else if step.DoGiveUp? {
      GiveUpSame(s, step.m, m);
    } else if step.DoFinish? {
      ReplyMoves(s, s1);
    }
  }

  lemma ProcessNotReplied(s: State, ok: bool, m: nat)
    requires Inv(s) && m in s.msgs && s.msgs[m].state != Replied
    ensures HeadOk(s) && (m in Process(s, ok).msgs ==> Process(s, ok).msgs[m].state != Replied)
  {
    if s.queue != [] {
      hide Process, Inv;
      var t1 := ProcessMoves(s, ok);
    }
  }

  lemma GiveUpSame(s: State, m0: nat, m: nat)
    requires Typed(s) && m0 in s.msgs && (InFlight(s.msgs[m0]) ==> 0 <= s.msgs[m0].seqno < 2) && m in s.msgs
    ensures m in GiveUp(s, m0).msgs ==> GiveUp(s, m0).msgs[m] == s.msgs[m]
  {
    hide Without;
  }
}
