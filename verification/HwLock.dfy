/**
 The heavyweight hardware lock. User contexts and kernel idle-lock users compete for one lock
 word; the word is changed by compare-and-exchange, partly inside and partly outside a spinlock.

 A step of the machine is one spinlocked section or one successful compare-and-exchange outside
 of it, so every window in which the real threads can interleave lies between two steps.
 */
module HwLock {

  const KERNEL_CONTEXT: nat := 0

  /** The lock word: the held and contended flags and the locking context. */
  datatype Word = Word(held: bool, cont: bool, ctx: nat)

  /** A user context: outside, queueing for the lock, holding it, or between the two halves of unlock. */
  datatype UserPc = Outside | Trying | Taken | Owner | Freeing

  /** An idle-lock user: outside, about to try the lock, about to record the result, or done taking. */
  datatype KernelPc = Away | Try | Record(got: bool) | Waiting

  datatype State = State(word: Word, kernelWaiters: int, userWaiters: int, idleHasLock: bool,
                         users: map<nat, UserPc>, kernel: map<nat, KernelPc>)

  // ----- the routines of the lock -----

  /** drm_lock_take: the new word, and whether the context has got the lock. */
  function Take(w: Word, ctx: nat, waiters: int): (Word, bool) {
    if w.held then (w.(cont := true), false) else (Word(true, waiters > 1, ctx), true)
  }

  class LockData {
    var word: Word
    var kernelWaiters: int
    var userWaiters: int
    var idleHasLock: bool

    /** The fields are those of a state of the machine below. */
    ghost predicate Shows(s: State)
      reads this
    {
      s.word == word && s.kernelWaiters == kernelWaiters && s.userWaiters == userWaiters && s.idleHasLock == idleHasLock
    }

    method LockTake(context: nat) returns (ret: int)
      modifies this`word
      ensures (word, ret == 1) == Take(old(word), context, userWaiters + kernelWaiters)
    {
      var prev := word;
      var new_ := prev;
      if prev.held {
        new_ := prev.(cont := true);
      } else {
        new_ := Word(true, userWaiters + kernelWaiters > 1, context);
      }
      word := new_;
      if prev.ctx == context && prev.held {
        return 0;
      }
      if new_.ctx == context && new_.held {
        return 1;
      }
      ret := 0;
    }

    /** The spinlocked half of drm_legacy_lock_free; returns whether the lock went to the kernel. */
    method FreeToKernel(ghost s: State, ghost u: nat) returns (done: bool)
      requires Shows(s) && Enabled(s, UserUnlock(u))
      modifies this`word, this`idleHasLock
      ensures Shows(Apply(s, UserUnlock(u))) && done == (Apply(s, UserUnlock(u)).users[u] == Outside)
      ensures done == (kernelWaiters != 0)
      ensures done ==> word == Word(true, false, KERNEL_CONTEXT) && idleHasLock
      ensures !done ==> word == old(word) && idleHasLock == old(idleHasLock)
    {
      if kernelWaiters != 0 {
        word := Word(true, false, KERNEL_CONTEXT);
        idleHasLock := true;
        return true;
      }
      done := false;
    }

    /** The compare-and-exchange half; returns 1 when somebody else held the lock. */
    method FreeWord(context: nat, ghost s: State) returns (ret: int)
      requires Shows(s) && Enabled(s, UserFree(context))
      modifies this`word
      ensures Shows(Apply(s, UserFree(context)))
      ensures Inv(s) ==> ret == 0
      ensures word == Word(false, false, old(word).ctx)
      ensures ret == 1 <==> old(word).held && old(word).ctx != context
    {
      var prev := word;
      word := Word(false, false, prev.ctx);
      if prev.held && prev.ctx != context {
        return 1;
      }
      ret := 0;
    }

    /** drm_legacy_idlelock_take when nobody interferes between its sections. */
    method IdlelockTake(ghost s: State, ghost k: nat)
      requires Shows(s) && Enabled(s, KernelEnter(k))
      modifies this`word, this`kernelWaiters, this`idleHasLock
      ensures Shows(TakeSteps(s, k))
      ensures kernelWaiters == old(kernelWaiters) + 1
      ensures if old(idleHasLock) then word == old(word) && idleHasLock
              else (word, idleHasLock) == Take(old(word), KERNEL_CONTEXT, userWaiters + kernelWaiters)
    {
      kernelWaiters := kernelWaiters + 1;
      if !idleHasLock {
        var ret := LockTake(KERNEL_CONTEXT);
        if ret == 1 { idleHasLock := true; }
      }
    }

    method IdlelockRelease(ghost s: State, ghost k: nat)
      requires Shows(s) && Enabled(s, KernelRelease(k))
      modifies this`word, this`kernelWaiters, this`idleHasLock
      ensures Shows(Apply(s, KernelRelease(k)))
      ensures kernelWaiters == old(kernelWaiters) - 1
      ensures if kernelWaiters == 0 && old(idleHasLock)
              then word == Word(false, false, KERNEL_CONTEXT) && !idleHasLock
              else word == old(word) && idleHasLock == old(idleHasLock)
    {
      kernelWaiters := kernelWaiters - 1;
      if kernelWaiters == 0 {
        if idleHasLock {
          word := Word(false, false, KERNEL_CONTEXT);
          idleHasLock := false;
        }
      }
    }
  }

  // ----- the steps -----

  datatype Step =
    | UserEnter(u: nat)      // user_waiters++
    | UserTake(u: nat)       // drm_lock_take
    | UserLeave(u: nat)      // user_waiters--, with the lock or after a signal
    | UserUnlock(u: nat)     // the spinlocked check of drm_legacy_lock_free
    | UserFree(u: nat)       // its compare-and-exchange
    | KernelEnter(k: nat)    // kernel_waiters++ and the look at idle_has_lock
    | KernelTake(k: nat)     // drm_lock_take with the kernel context
    | KernelRecord(k: nat)   // idle_has_lock set from its result
    | KernelRelease(k: nat)  // drm_legacy_idlelock_release

  function SetUser(s: State, u: nat, pc: UserPc): State {
    s.(users := s.users[u := pc])
  }

  function SetKernel(s: State, k: nat, pc: KernelPc): State {
    s.(kernel := s.kernel[k := pc])
  }

  ghost predicate Enabled(s: State, step: Step) {
    match step
    case UserEnter(u) => u in s.users && s.users[u] == Outside
    case UserTake(u) => u in s.users && s.users[u] == Trying
    case UserLeave(u) => u in s.users && (s.users[u] == Trying || s.users[u] == Taken)
    case UserUnlock(u) => u in s.users && s.users[u] == Owner
    case UserFree(u) => u in s.users && s.users[u] == Freeing
    case KernelEnter(k) => k in s.kernel && s.kernel[k] == Away
    case KernelTake(k) => k in s.kernel && s.kernel[k] == Try
    case KernelRecord(k) => k in s.kernel && s.kernel[k].Record?
    case KernelRelease(k) => k in s.kernel && s.kernel[k] == Waiting
  }

  ghost function Apply(s: State, step: Step): State
    requires Enabled(s, step)
  {
    match step
    case UserEnter(u) => SetUser(s, u, Trying).(userWaiters := s.userWaiters + 1)
    case UserTake(u) =>
      var (w, got) := Take(s.word, u, s.userWaiters + s.kernelWaiters);
      SetUser(s, u, if got then Taken else Trying).(word := w)
    case UserLeave(u) =>
      SetUser(s, u, if s.users[u] == Taken then Owner else Outside).(userWaiters := s.userWaiters - 1)
    case UserUnlock(u) =>
      if s.kernelWaiters != 0
      then SetUser(s, u, Outside).(word := Word(true, false, KERNEL_CONTEXT), idleHasLock := true)
      else SetUser(s, u, Freeing)
    case UserFree(u) => SetUser(s, u, Outside).(word := Word(false, false, s.word.ctx))
    case KernelEnter(k) =>
      SetKernel(s, k, if s.idleHasLock then Waiting else Try).(kernelWaiters := s.kernelWaiters + 1)
    case KernelTake(k) =>
      var (w, got) := Take(s.word, KERNEL_CONTEXT, s.userWaiters + s.kernelWaiters);
      SetKernel(s, k, Record(got)).(word := w)
    case KernelRecord(k) =>
      SetKernel(s, k, Waiting).(idleHasLock := s.idleHasLock || s.kernel[k].got)
    case KernelRelease(k) =>
      var s1 := SetKernel(s, k, Away).(kernelWaiters := s.kernelWaiters - 1);
      if s1.kernelWaiters == 0 && s.idleHasLock
      then s1.(word := Word(false, false, KERNEL_CONTEXT), idleHasLock := false) else s1
  }

  /** The steps of an idle-lock user that nobody interrupts. */
  ghost function TakeSteps(s: State, k: nat): (t: State)
    requires Enabled(s, KernelEnter(k))
    ensures k in t.kernel && t.kernel[k] == Waiting
  {
    var s1 := Apply(s, KernelEnter(k));
    if s1.kernel[k] == Waiting then s1 else Apply(Apply(s1, KernelTake(k)), KernelRecord(k))
  }

  // ----- who owns the lock -----

  ghost predicate UserOwns(s: State, u: nat) {
    u in s.users && (s.users[u] == Taken || s.users[u] == Owner || s.users[u] == Freeing)
  }

  /** The kernel owns the lock through an idle-lock user that has got it, recorded or not. */
  ghost predicate Got(s: State, k: nat) {
    k in s.kernel && s.kernel[k] == Record(true)
  }

  ghost predicate KernelOwns(s: State) {
    s.idleHasLock || exists k :: Got(s, k)
  }

  ghost function KernelIn(s: State): set<nat> {
    set k | k in s.kernel && s.kernel[k] != Away
  }

  ghost function UsersIn(s: State): set<nat> {
    set u | u in s.users && (s.users[u] == Trying || s.users[u] == Taken)
  }

  ghost predicate WaitersOk(s: State) {
    s.kernelWaiters == |KernelIn(s)| && s.userWaiters == |UsersIn(s)| && KERNEL_CONTEXT !in s.users
  }

  /** The lock word tells who owns the lock. */
  ghost predicate WordOk(s: State) {
    (forall u :: u in s.users ==> (UserOwns(s, u) <==> s.word.held && s.word.ctx == u)) &&
    (s.word.held && s.word.ctx != KERNEL_CONTEXT ==> s.word.ctx in s.users) &&
    (s.idleHasLock ==> s.word.held && s.word.ctx == KERNEL_CONTEXT) &&
    (forall k :: Got(s, k) ==> s.word.held && s.word.ctx == KERNEL_CONTEXT && !s.idleHasLock) &&
    (forall j, k :: Got(s, j) && Got(s, k) ==> j == k) &&
    (s.word.held && s.word.ctx == KERNEL_CONTEXT ==> KernelOwns(s))
  }

  ghost predicate IdleOk(s: State) {
    s.idleHasLock ==> s.kernelWaiters > 0
  }

  ghost predicate Inv(s: State) {
    WaitersOk(s) && WordOk(s) && IdleOk(s)
  }

  // ----- every step keeps the invariant -----

  lemma KernelInAfter(s: State, k: nat, pc: KernelPc)
    requires k in s.kernel
    ensures KernelIn(SetKernel(s, k, pc)) == if pc == Away then KernelIn(s) - {k} else KernelIn(s) + {k}
    ensures |KernelIn(SetKernel(s, k, pc))| ==
            |KernelIn(s)| + (if pc != Away && s.kernel[k] == Away then 1
                             else if pc == Away && s.kernel[k] != Away then -1 else 0)
  {
    var s1 := SetKernel(s, k, pc);
    assert k in KernelIn(s) <==> s.kernel[k] != Away;
    assert KernelIn(s1) == if pc == Away then KernelIn(s) - {k} else KernelIn(s) + {k};
    OneMoreOrLess(KernelIn(s), k);
  }

  lemma OneMoreOrLess(a: set<nat>, x: nat)
    ensures |a + {x}| == if x in a then |a| else |a| + 1
    ensures |a - {x}| == if x in a then |a| - 1 else |a|
  {
    if x in a {
      assert a + {x} == a;
    } else {
      assert a - {x} == a;
    }
  }

  predicate Counted(pc: UserPc) {
    pc == Trying || pc == Taken
  }

  lemma UsersInAfter(s: State, u: nat, pc: UserPc)
    requires u in s.users
    ensures |UsersIn(SetUser(s, u, pc))| ==
            |UsersIn(s)| + (if Counted(pc) && !Counted(s.users[u]) then 1
                            else if !Counted(pc) && Counted(s.users[u]) then -1 else 0)
  {
    var s1 := SetUser(s, u, pc);
    assert u in UsersIn(s) <==> Counted(s.users[u]);
    UsersInIs(s, u, pc);
    hide UsersIn;
    OneMoreOrLess(UsersIn(s), u);
  }

  lemma UsersInIs(s: State, u: nat, pc: UserPc)
    requires u in s.users
    ensures UsersIn(SetUser(s, u, pc)) == if Counted(pc) then UsersIn(s) + {u} else UsersIn(s) - {u}
  {
  }

  lemma UserStepKeepsWaiters(s: State, step: Step)
    requires Inv(s) && Enabled(s, step)
    requires step.UserEnter? || step.UserTake? || step.UserLeave? || step.UserUnlock? || step.UserFree?
    ensures WaitersOk(Apply(s, step))
  {
    hide WordOk;
    var s1 := Apply(s, step);
    UsersInAfter(s, step.u, s1.users[step.u]);
    assert UsersIn(s1) == UsersIn(SetUser(s, step.u, s1.users[step.u])) && KernelIn(s1) == KernelIn(s);
  }

  lemma KernelStepKeepsWaiters(s: State, step: Step)
    requires Inv(s) && Enabled(s, step)
    requires step.KernelEnter? || step.KernelTake? || step.KernelRecord? || step.KernelRelease?
    ensures WaitersOk(Apply(s, step))
  {
    hide WordOk;
    var s1 := Apply(s, step);
    KernelInAfter(s, step.k, s1.kernel[step.k]);
    assert KernelIn(s1) == KernelIn(SetKernel(s, step.k, s1.kernel[step.k])) && UsersIn(s1) == UsersIn(s);
  }

  lemma UserStepKeepsWord(s: State, step: Step)
    requires Inv(s) && Enabled(s, step)
    requires step.UserEnter? || step.UserTake? || step.UserLeave? || step.UserUnlock? || step.UserFree?
    ensures WordOk(Apply(s, step)) && IdleOk(Apply(s, step))
  {
    var s1 := Apply(s, step);
    assert forall k :: Got(s1, k) <==> Got(s, k);
    assert UserOwns(s, step.u) <==> s.word.held && s.word.ctx == step.u;
    assert forall u :: u in s.users && u != step.u ==> (UserOwns(s1, u) <==> UserOwns(s, u));
  }

  lemma KernelStepKeepsWord(s: State, step: Step)
    requires Inv(s) && Enabled(s, step)
    requires step.KernelEnter? || step.KernelTake? || step.KernelRecord? || step.KernelRelease?
    ensures WordOk(Apply(s, step)) && IdleOk(Apply(s, step))
  {
    var s1 := Apply(s, step);
    assert forall u :: UserOwns(s1, u) <==> UserOwns(s, u);
    assert forall k :: k != step.k ==> (Got(s1, k) <==> Got(s, k));
    assert step.k in KernelIn(s1) || step.KernelRelease?;
    if step.KernelTake? && s1.kernel[step.k].got {
      assert Got(s1, step.k);
    } else if step.KernelRecord? && s.kernel[step.k].got {
      assert Got(s, step.k) && step.k in KernelIn(s);
    } else if s.word.held && s.word.ctx == KERNEL_CONTEXT && !s.idleHasLock {
      var k :| Got(s, k);
      assert Got(s1, k);
    }
  }

  lemma StepKeepsInv(s: State, step: Step)
    requires Inv(s) && Enabled(s, step)
    ensures Inv(Apply(s, step))
  {
    if step.KernelEnter? || step.KernelTake? || step.KernelRecord? || step.KernelRelease? {
      KernelStepKeepsWaiters(s, step);
      KernelStepKeepsWord(s, step);
    } else {
      UserStepKeepsWaiters(s, step);
      UserStepKeepsWord(s, step);
    }
  }

  // ----- the contended flag -----

  lemma MoreThanOne(a: set<nat>, x: nat)
    requires x in a
    ensures |a| > 1 <==> exists y :: y in a && y != x
  {
    OneMoreOrLess(a, x);
    if |a| > 1 {
      var y :| y in a - {x};
    }
    if y :| y in a && y != x { assert y in a - {x}; }
  }

  /** A user that takes the free lock marks it contended exactly if another user or an idle-lock user is waiting. */
  lemma ContendedIff(s: State, u: nat)
    requires Inv(s) && Enabled(s, UserTake(u)) && !s.word.held
    ensures var w := Apply(s, UserTake(u)).word;
            w.held && w.ctx == u &&
            (w.cont <==> (exists v :: v in UsersIn(s) && v != u) || exists k :: k in KernelIn(s))
  {
    hide WordOk;
    assert u in UsersIn(s);
    MoreThanOne(UsersIn(s), u);
    hide UsersIn, KernelIn;
    if |KernelIn(s)| > 0 { var k :| k in KernelIn(s); }
  }

  /** A failed attempt marks the lock, and the mark stays for as long as its holder has it. */
  lemma ContentionStays(s: State, step: Step)
    requires Inv(s) && Enabled(s, step) && s.word.held
    ensures (step.UserTake? || step.KernelTake?) ==> Apply(s, step).word == s.word.(cont := true)
    ensures s.word.cont && Apply(s, step).word.held && Apply(s, step).word.ctx == s.word.ctx ==>
              Apply(s, step).word.cont
  {
    if step.UserUnlock? { assert UserOwns(s, step.u); }
  }

  // ----- whole runs -----

  ghost predicate Initial(s: State) {
    s.word == Word(false, false, KERNEL_CONTEXT) && s.kernelWaiters == 0 && s.userWaiters == 0 && !s.idleHasLock &&
    KERNEL_CONTEXT !in s.users && (forall u :: u in s.users ==> s.users[u] == Outside) &&
    forall k :: k in s.kernel ==> s.kernel[k] == Away
  }

  ghost predicate Run(states: seq<State>, steps: seq<Step>) {
    |states| == |steps| + 1 && Initial(states[0]) &&
    forall i :: 0 <= i < |steps| ==> Enabled(states[i], steps[i]) && states[i + 1] == Apply(states[i], steps[i])
  }

  lemma {:induction false} RunKeepsInv(states: seq<State>, steps: seq<Step>, i: nat)
    requires Run(states, steps) && i < |states|
    ensures Inv(states[i])
  {
    if i == 0 {
      assert KernelIn(states[0]) == {} && UsersIn(states[0]) == {};
    } else {
      RunKeepsInv(states, steps, i - 1);
      hide Inv;
      StepKeepsInv(states[i - 1], steps[i - 1]);
    }
  }

  /**
   In every reachable state at most one party owns the lock, the held flag is set exactly when
   somebody does, and the context in the word is the owner's.
   */
  lemma MutualExclusion(states: seq<State>, steps: seq<Step>, i: nat)
    requires Run(states, steps) && i < |states|
    ensures var s := states[i];
            (forall u, v :: UserOwns(s, u) && UserOwns(s, v) ==> u == v) &&
            (forall u :: UserOwns(s, u) ==> !KernelOwns(s) && s.word.ctx == u) &&
            (s.word.held <==> KernelOwns(s) || exists u :: UserOwns(s, u)) &&
            (s.idleHasLock ==> s.word.held && s.word.ctx == KERNEL_CONTEXT && s.kernelWaiters > 0)
  {
    RunKeepsInv(states, steps, i);
    var s := states[i];
    forall u | UserOwns(s, u)
      ensures s.word.held && s.word.ctx == u && u != KERNEL_CONTEXT
    {
    }
    if s.word.held && s.word.ctx != KERNEL_CONTEXT {
      assert UserOwns(s, s.word.ctx);
    }
    hide Run;
  }

  // ----- the promise to idle-lock users -----

  ghost predicate SomebodyOwns(s: State) {
    KernelOwns(s) || exists u :: UserOwns(s, u)
  }

  ghost predicate Attempting(s: State) {
    exists k :: k in s.kernel && s.kernel[k] == Try
  }

  /**
   What drm_legacy_idlelock_take promises: while the kernel waits, it has the lock, or somebody who
   will hand it over has it, or an attempt to take it is still to come.
   */
  ghost predicate Promised(s: State) {
    s.kernelWaiters > 0 ==> SomebodyOwns(s) || Attempting(s)
  }

  lemma HeldIsOwned(s: State)
    requires Inv(s)
    ensures s.word.held <==> SomebodyOwns(s)
  {
    if s.word.held && s.word.ctx != KERNEL_CONTEXT {
      assert UserOwns(s, s.word.ctx);
    }
    if SomebodyOwns(s) && !KernelOwns(s) {
      var u :| UserOwns(s, u);
      assert s.word.held;
    }
  }

  /** Which steps take the lock away from its owner or finish the last attempt. */
  lemma StepKeepsHeld(s: State, step: Step)
    requires Inv(s) && Enabled(s, step)
    ensures s.word.held && !step.UserFree? && !Apply(s, step).word.held ==> Apply(s, step).kernelWaiters == 0
    ensures step.KernelTake? ==> Apply(s, step).word.held
    ensures step.KernelEnter? && !s.word.held ==> Apply(s, step).kernel[step.k] == Try
  {
  }

  /** The promise survives every step except the second half of an unlock. */
  lemma PromiseKept(s: State, step: Step)
    requires Inv(s) && Enabled(s, step) && Promised(s) && !step.UserFree?
    ensures Promised(Apply(s, step))
  {
    var s1 := Apply(s, step);
    StepKeepsInv(s, step);
    HeldIsOwned(s);
    HeldIsOwned(s1);
    StepKeepsHeld(s, step);
    hide Inv, SomebodyOwns;
    if s1.kernelWaiters > 0 && !s1.word.held {
      if step.KernelEnter? {
        assert s1.kernel[step.k] == Try;
      } else {
        assert s.kernelWaiters > 0 && !s.word.held;
        var k :| k in s.kernel && s.kernel[k] == Try;
        assert s1.kernel[k] == Try;
      }
    }
  }

  /**
   The second half of an unlock keeps the promise exactly when no idle-lock user has come and failed
   since the first half: the spinlocked check is not repeated.
   */
  lemma PromiseKeptByFreeIff(s: State, u: nat)
    requires Inv(s) && Enabled(s, UserFree(u))
    ensures Promised(Apply(s, UserFree(u))) <==> s.kernelWaiters == 0 || Attempting(s)
  {
    var s1 := Apply(s, UserFree(u));
    StepKeepsInv(s, UserFree(u));
    HeldIsOwned(s1);
    assert s1.kernel == s.kernel && !s1.word.held;
    hide SomebodyOwns;
  }

  // ----- the next unlock makes up for it -----

  /** An idle-lock user between its take and its release. */
  ghost predicate Inside(s: State, k: nat) {
    k in s.kernel && s.kernel[k] != Away
  }

  /** No step from the i-th on and before the j-th is a release by k. */
  ghost predicate KeepsWaiting(steps: seq<Step>, k: nat, i: nat, j: nat) {
    j <= |steps| && forall m :: i <= m < j ==> steps[m] != KernelRelease(k)
  }

  lemma TwoInside(s: State, k: nat, other: nat)
    requires WaitersOk(s) && Inside(s, k) && Inside(s, other) && k != other
    ensures s.kernelWaiters > 1
  {
    assert k in KernelIn(s) && other in KernelIn(s) - {k};
    OneMoreOrLess(KernelIn(s), k);
    assert |KernelIn(s) - {k}| > 0;
  }

  lemma StepKeepsInside(s: State, step: Step, k: nat)
    requires Inv(s) && Enabled(s, step) && Inside(s, k) && step != KernelRelease(k)
    ensures Inside(Apply(s, step), k)
    ensures s.idleHasLock ==> Apply(s, step).idleHasLock
  {
    if step.KernelRelease? { TwoInside(s, k, step.k); }
  }

  lemma {:induction false} StaysInside(states: seq<State>, steps: seq<Step>, k: nat, i: nat, j: nat)
    requires Run(states, steps) && i <= j && KeepsWaiting(steps, k, i, j)
    requires Inside(states[i], k)
    ensures Inside(states[j], k)
    ensures states[i].idleHasLock ==> states[j].idleHasLock
    decreases j
  {
    if i < j {
      StaysInside(states, steps, k, i, j - 1);
      RunKeepsInv(states, steps, j - 1);
      hide Inv, Inside, Apply, Enabled;
      StepKeepsInside(states[j - 1], steps[j - 1], k);
    }
  }

  /**
   Over every run: once an idle-lock user waits, the next unlock by any user gives the kernel the
   lock, and from then on until that waiter releases it the lock is the kernel's and no user's.
   */
  lemma NextUnlockDelivers(states: seq<State>, steps: seq<Step>, k: nat, i: nat, j: nat, m: nat)
    requires Run(states, steps) && i <= j < m && KeepsWaiting(steps, k, i, m)
    requires Inside(states[i], k) && steps[j].UserUnlock?
    ensures states[m].idleHasLock && states[m].word.held && states[m].word.ctx == KERNEL_CONTEXT
    ensures forall u :: !UserOwns(states[m], u)
  {
    var n := j + 1;
    StaysInside(states, steps, k, i, j);
    RunKeepsInv(states, steps, j);
    assert k in KernelIn(states[j]);
    assert states[j].kernelWaiters > 0;
    assert states[n].idleHasLock;
    StaysInside(states, steps, k, i, n);
    StaysInside(states, steps, k, n, m);
    RunKeepsInv(states, steps, m);
  }

  /** A run goes on with any enabled step. */
  lemma Extend(states: seq<State>, steps: seq<Step>, step: Step, s1: State)
    returns (states1: seq<State>, steps1: seq<Step>)
    requires Run(states, steps) && Enabled(states[|steps|], step) && s1 == Apply(states[|steps|], step)
    ensures Run(states1, steps1) && |states1| == |steps1| + 1 && states1[|steps1|] == s1
  {
    states1, steps1 := states + [s1], steps + [step];
    hide Apply, Enabled;
  }

  /** User 1 has the lock and is about to free it while idle-lock user 7 comes, fails and waits. */
  lemma BeforeTheWindow() returns (states: seq<State>, steps: seq<Step>)
    ensures Run(states, steps) && |states| == |steps| + 1
    ensures states[|steps|] == State(Word(true, false, 1), 0, 0, false, map[1 := Freeing], map[7 := Away])
  {
    hide Run;
    var s2 := State(Word(true, false, 1), 0, 1, false, map[1 := Taken], map[7 := Away]);
    var s3 := State(Word(true, false, 1), 0, 0, false, map[1 := Owner], map[7 := Away]);
    var s4 := State(Word(true, false, 1), 0, 0, false, map[1 := Freeing], map[7 := Away]);
    states, steps := UserTakes();
    assert Enabled(s2, UserLeave(1)) && Apply(s2, UserLeave(1)) == s3;
    states, steps := Extend(states, steps, UserLeave(1), s3);
    assert Enabled(s3, UserUnlock(1)) && Apply(s3, UserUnlock(1)) == s4;
    states, steps := Extend(states, steps, UserUnlock(1), s4);
  }

  lemma UserTakes() returns (states: seq<State>, steps: seq<Step>)
    ensures Run(states, steps) && |states| == |steps| + 1
    ensures states[|steps|] == State(Word(true, false, 1), 0, 1, false, map[1 := Taken], map[7 := Away])
  {
    hide Run;
    var s0 := State(Word(false, false, 0), 0, 0, false, map[1 := Outside], map[7 := Away]);
    var s1 := State(Word(false, false, 0), 0, 1, false, map[1 := Trying], map[7 := Away]);
    var s2 := State(Word(true, false, 1), 0, 1, false, map[1 := Taken], map[7 := Away]);
    states, steps := StartRun(s0);
    assert Enabled(s0, UserEnter(1)) && Apply(s0, UserEnter(1)) == s1;
    states, steps := Extend(states, steps, UserEnter(1), s1);
    assert Enabled(s1, UserTake(1)) && Apply(s1, UserTake(1)) == s2;
    states, steps := Extend(states, steps, UserTake(1), s2);
  }

  lemma StartRun(s0: State) returns (states: seq<State>, steps: seq<Step>)
    requires Initial(s0)
    ensures Run(states, steps) && |states| == |steps| + 1 && states[|steps|] == s0
  {
    states, steps := [s0], [];
  }

  /** The window is real: a run in which the kernel waits, nobody owns the lock and nobody will try. */
  lemma PromiseBroken() returns (states: seq<State>, steps: seq<Step>)
    ensures Run(states, steps) && |states| == |steps| + 1 && !Promised(states[|steps|])
  {
    hide Run;
    states, steps := InTheWindow();
    var s6 := states[|steps|];
    var s7 := State(Word(true, true, 1), 1, 0, false, map[1 := Freeing], map[7 := Waiting]);
    var s8 := State(Word(false, false, 1), 1, 0, false, map[1 := Outside], map[7 := Waiting]);
    assert Enabled(s6, KernelRecord(7)) && Apply(s6, KernelRecord(7)) == s7;
    states, steps := Extend(states, steps, KernelRecord(7), s7);
    assert Enabled(s7, UserFree(1)) && Apply(s7, UserFree(1)) == s8;
    states, steps := Extend(states, steps, UserFree(1), s8);
  }

  lemma InTheWindow() returns (states: seq<State>, steps: seq<Step>)
    ensures Run(states, steps) && |states| == |steps| + 1
    ensures states[|steps|] == State(Word(true, true, 1), 1, 0, false, map[1 := Freeing], map[7 := Record(false)])
  {
    hide Run;
    states, steps := BeforeTheWindow();
    var s4 := states[|steps|];
    var s5 := State(Word(true, false, 1), 1, 0, false, map[1 := Freeing], map[7 := Try]);
    var s6 := State(Word(true, true, 1), 1, 0, false, map[1 := Freeing], map[7 := Record(false)]);
    assert Enabled(s4, KernelEnter(7)) && Apply(s4, KernelEnter(7)) == s5;
    states, steps := Extend(states, steps, KernelEnter(7), s5);
    assert Enabled(s5, KernelTake(7)) && Apply(s5, KernelTake(7)) == s6;
    states, steps := Extend(states, steps, KernelTake(7), s6);
  }
}
