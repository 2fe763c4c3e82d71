/**
 Progress of the down queue: the worker never leaves a waiting request behind, the queue empties
 after a bounded number of rounds, and a request that finds the queue empty goes out at once unless
 the manager still believes that it is busy.
 */
module DownProgress {
  import opened Options
  import opened Words
  import opened SidebandMsg
  import opened DownQueue
  import opened DownTrace

  // ----- the worker has something to do while a request waits -----

  ghost predicate Busy(s: State) {
    s.queue != [] ==> s.inProgress
  }

  lemma TransitionKeepsBusy(s: State, step: Step, s1: State)
    requires Inv(s) && Busy(s) && Transition(s, step, s1)
    ensures Busy(s1)
  {
    hide Inv, Attempt, Advance, Drop, Enqueue;
    match step
    case DoEnqueue(dst, msg, pathMsg, ok) => EnqueueIs(s, dst, msg, pathMsg, ok);
    case DoWork(ok) =>
    case DoGiveUp(m) =>
    case DoLookup(b, slot) =>
    case DoFinish => ReplyMoves(s, s1);
  }

  lemma {:induction false} RunStaysBusy(states: seq<State>, steps: seq<Step>, i: nat)
    requires Run(states, steps) && i < |states|
    ensures Busy(states[i])
  {
    hide Transition, Inv;
    if i > 0 {
      RunStaysBusy(states, steps, i - 1);
      RunKeepsInv(states, steps, i - 1);
      TransitionKeepsBusy(states[i - 1], steps[i - 1], states[i]);
    }
  }

  /** In every run a round of the worker moves the head of the queue, if there is one. */
  lemma WorkMoves(states: seq<State>, steps: seq<Step>, i: nat) returns (t1: Tx)
    requires Run(states, steps) && i < |steps| && steps[i].DoWork? && states[i].queue != []
    ensures HeadMoves(states[i], states[i + 1], t1, steps[i].linkOk)
  {
    hide Inv, Process, HeadMoves;
    RunStaysBusy(states, steps, i);
    RunKeepsInv(states, steps, i);
    t1 := ProcessMoves(states[i], steps[i].linkOk);
  }

  // ----- the queue empties -----

  ghost predicate Known(q: seq<nat>, msgs: map<nat, Tx>) {
    forall m :: m in q ==> m in msgs && msgs[m].offset <= |msgs[m].msg|
  }

  /** The requests that wait and the bytes that they still have to send. */
  ghost function Load(q: seq<nat>, msgs: map<nat, Tx>): nat
    requires Known(q, msgs)
  {
    if q == [] then 0 else 1 + |msgs[q[0]].msg| - msgs[q[0]].offset + Load(q[1..], msgs)
  }

  lemma {:induction false} LoadFrame(q: seq<nat>, msgs: map<nat, Tx>, m: nat, t: Tx)
    requires Known(q, msgs) && m !in q
    ensures Known(q, msgs[m := t]) && Load(q, msgs[m := t]) == Load(q, msgs)
  {
    if q != [] { LoadFrame(q[1..], msgs, m, t); }
  }

  lemma InvKnows(s: State)
    requires Inv(s)
    ensures Known(s.queue, s.msgs) && (s.queue != [] ==> s.queue[0] !in s.queue[1..])
  {
    hide SlotsAgree, LogOk, PendingOk;
    forall m | m in s.queue ensures m in s.msgs { assert Placed(s.queue, m, s.msgs[m]); }
  }

  /** A chunk that is not the last of its message carries at least one byte. */
  lemma ChunkCarries(c: Chunk)
    requires ValidChunk(c) && NextOffset(c) < |c.msg|
    ensures c.offset < NextOffset(c)
  {
  }

  lemma RoundLightens(s: State, s1: State, t1: Tx, ok: bool)
    requires Inv(s) && Inv(s1) && HeadMoves(s, s1, t1, ok)
    ensures Known(s.queue, s.msgs) && Known(s1.queue, s1.msgs)
    ensures Load(s1.queue, s1.msgs) < Load(s.queue, s.msgs)
  {
    InvKnows(s);
    InvKnows(s1);
    hide Inv, SameAddresses, MaySend, ValidChunk, NextOffset;
    var m := s.queue[0];
    LoadFrame(s.queue[1..], s.msgs, m, t1);
    if t1.state == StartSend {
      assert m in s1.queue;
      ChunkCarries(s1.log[|s.log|]);
    }
  }

  /** Rounds of the worker empty the queue: no more are needed than there are requests and bytes to send. */
  lemma {:induction false} Drains(states: seq<State>, steps: seq<Step>, i: nat, j: nat)
    requires Run(states, steps) && i <= j <= |steps|
    requires forall k :: i <= k < j ==> steps[k].DoWork?
    ensures Known(states[i].queue, states[i].msgs) && Known(states[j].queue, states[j].msgs)
    ensures Load(states[j].queue, states[j].msgs) == 0 ||
            Load(states[j].queue, states[j].msgs) + (j - i) <= Load(states[i].queue, states[i].msgs)
    ensures j - i >= Load(states[i].queue, states[i].msgs) ==> states[j].queue == []
  {
    hide Transition, Inv, HeadMoves;
    RunKeepsInv(states, steps, i);
    RunKeepsInv(states, steps, j);
    InvKnows(states[i]);
    InvKnows(states[j]);
    if i < j {
      Drains(states, steps, i, j - 1);
      RunKeepsInv(states, steps, j - 1);
      if states[j - 1].queue == [] {
        EmptyStays(states[j - 1], steps[j - 1], states[j]);
      } else {
        var t1 := WorkMoves(states, steps, j - 1);
        RoundLightens(states[j - 1], states[j], t1, steps[j - 1].linkOk);
      }
    }
  }

  lemma EmptyStays(s: State, step: Step, s1: State)
    requires Transition(s, step, s1) && step.DoWork? && s.queue == []
    ensures s1.queue == []
  {
  }

  // ----- a request that finds the queue empty -----

  /** It goes out at once if and only if the manager does not believe that it is busy. */
  lemma EmptyQueueSendsIff(s: State, dst: nat, msg: seq<Byte>, pathMsg: bool, ok: bool) returns (t1: Tx)
    requires Inv(s) && dst in s.branches && s.queue == [] && ok && None in s.branches[dst].slots
    ensures var s0, s1 := Appended(s, dst, msg, pathMsg), Enqueue(s, dst, msg, pathMsg, ok);
            s0.queue == [s.next] && (if s.inProgress then s1 == s0 else HeadMoves(s0, s1, t1, ok) && InFlight(t1)) &&
            (s1.log != s.log <==> !s.inProgress)
  {
    EnqueueIs(s, dst, msg, pathMsg, ok);
    var s0 := Appended(s, dst, msg, pathMsg);
    hide Inv, Process, Enqueue, SameAddresses;
    t1 := ProcessMoves(s0, ok);
  }

  /** It believes so wrongly after the sender of the only waiting request gave up. */
  lemma GivingUpLeavesBusy(s: State, m: nat)
    requires Inv(s) && Busy(s) && s.queue == [m]
    ensures m in s.msgs && (InFlight(s.msgs[m]) ==> 0 <= s.msgs[m].seqno < 2)
    ensures Transition(s, DoGiveUp(m), GiveUp(s, m))
    ensures GiveUp(s, m).queue == [] && GiveUp(s, m).inProgress
  {
    hide LogOk, PendingOk;
    assert m in s.queue;
    assert Placed(s.queue, m, s.msgs[m]);
  }

  /** A request of more than one chunk is still in the queue after its first chunk. */
  lemma LongRequestWaits(s: State, dst: nat, msg: seq<Byte>)
    requires Inv(s) && dst in s.branches && s.queue == [] && !s.inProgress && None in s.branches[dst].slots
    requires |msg| > CHUNK_SIZE
    ensures Enqueue(s, dst, msg, false, true).queue == [s.next]
  {
    hide Inv, Enqueue, SameAddresses;
    var t1 := EmptyQueueSendsIff(s, dst, msg, false, true);
  }

  /** So from every first state two steps make the manager believe that it is busy with an empty queue. */
  lemma BusyWithNothing(s: State, dst: nat, msg: seq<Byte>) returns (states: seq<State>, steps: seq<Step>)
    requires Initial(s) && dst in s.branches && |msg| > CHUNK_SIZE
    ensures steps == [DoEnqueue(dst, msg, false, true), DoGiveUp(s.next)] && Run(states, steps) && states[0] == s
    ensures states[2].queue == [] && states[2].inProgress
  {
    assert Run([s], []);
    RunKeepsInv([s], [], 0);
    hide Inv, Enqueue, GiveUp;
    EnqueueIs(s, dst, msg, false, true);
    LongRequestWaits(s, dst, msg);
    var s1 := Enqueue(s, dst, msg, false, true);
    assert Transition(s, DoEnqueue(dst, msg, false, true), s1);
    TransitionKeepsInv(s, DoEnqueue(dst, msg, false, true), s1);
    TransitionKeepsBusy(s, DoEnqueue(dst, msg, false, true), s1);
    GivingUpLeavesBusy(s1, s.next);
    states, steps := [s, s1, GiveUp(s1, s.next)], [DoEnqueue(dst, msg, false, true), DoGiveUp(s.next)];
  }

  // ----- the two numbers of a branch device -----

  ghost predicate Idle(b: Branch)
    requires ValidBranch(b)
  {
    b.slots == [None, None]
  }

  /** Whose turn it is on a branch device that has gone idle. */
  ghost function Turn(b: Branch): Option<nat>
    requires ValidBranch(b)
  {
    FreeSlot(Vacate(Vacate(b, 0), 1))
  }

  /** Giving out a number on an idle branch device passes the turn to the other one; otherwise the turn stays. */
  lemma NumbersTakeTurns(b: Branch, q: nat, m: nat)
    requires ValidBranch(b) && FreeSlot(b) == Some(q)
    ensures q < 2 && b.slots[q] == None && Occupy(b, q, m).slots == b.slots[q := Some(m)]
    ensures if Idle(b) then Turn(b) == Some(q) && Turn(Occupy(b, q, m)) == Some(1 - q)
            else Turn(Occupy(b, q, m)) == Turn(b)
  {
  }
}
