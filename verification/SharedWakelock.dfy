/** The wakelock fields and methods of the proxy, updated in place. */
module SharedWakelock {
  import opened Common
  import opened WakelockSpec

  class Wakelock {
    var refCount: nat
    var timeoutStartTime: int
    var timeoutResetTime: int
    var threadsRun: bool
    var kernelCalls: seq<KernelCall>
    const timeoutNs: int

    constructor (timeoutNs: int)
      ensures View() == Lock(0, 0, 0, []) && !threadsRun && this.timeoutNs == timeoutNs
    {
      refCount, timeoutStartTime, timeoutResetTime := 0, 0, 0;
      threadsRun, kernelCalls := false, [];
      this.timeoutNs := timeoutNs;
    }

    function View(): Lock
      reads this
    {
      Lock(refCount, timeoutStartTime, timeoutResetTime, kernelCalls)
    }

    method IncrementRefCountAndMaybeAcquireWakelock(delta: nat, now: int)
      returns (taken: bool, timeoutStart: int)
      modifies this
      ensures threadsRun == old(threadsRun)
      ensures View() == AfterIncrement(old(View()), delta, now, threadsRun)
      ensures taken == threadsRun && (taken ==> timeoutStart == now)
    {
      timeoutStart := NO_TOKEN;
      if !threadsRun {
        return false, timeoutStart;
      }
      if refCount == 0 {
        kernelCalls := kernelCalls + [Acquire];
      }
      timeoutStartTime := now;
      refCount := refCount + delta;
      timeoutStart := timeoutStartTime;
      taken := true;
    }

    method DecrementRefCountAndMaybeReleaseWakelock(delta: nat, timeoutStart: int)
      modifies this
      ensures threadsRun == old(threadsRun)
      ensures View() == AfterDecrement(old(View()), delta, timeoutStart, threadsRun)
    {
      if !threadsRun {
        return;
      }
      var start := timeoutStart;
      if start == NO_TOKEN {
        start := timeoutResetTime;
      }
      if refCount == 0 || start < timeoutResetTime {
        return;
      }
      refCount := refCount - Min(refCount, delta);
      if refCount == 0 {
        kernelCalls := kernelCalls + [Release];
      }
    }

    method ResetSharedWakelock(now: int)
      modifies this
      ensures threadsRun == old(threadsRun)
      ensures View() == AfterReset(old(View()), now, threadsRun)
      ensures threadsRun ==> refCount == 0
    {
      DecrementRefCountAndMaybeReleaseWakelock(refCount, NO_TOKEN);
      timeoutResetTime := now;
    }

    method SharedWakelockDidTimeout(now: int) returns (didTimeout: bool, timeLeft: int)
      ensures didTimeout <==> timeoutStartTime + timeoutNs < now
      ensures !didTimeout ==> timeLeft >= 0 && now + timeLeft == timeoutStartTime + timeoutNs
    {
      var duration := now - timeoutStartTime;
      timeLeft := 0;
      if duration > timeoutNs {
        didTimeout := true;
      } else {
        didTimeout := false;
        timeLeft := timeoutNs - duration;
      }
    }

    /** Other threads enter, one after the other. */
    method Interleave(ops: seq<Op>)
      requires threadsRun && forall i :: 0 <= i < |ops| ==> ops[i].running
      modifies this
      ensures threadsRun && View() == Run(old(View()), ops)
    {
      for i := 0 to |ops|
        invariant threadsRun && View() == Run(old(View()), ops[..i])
      {
        RunStep(old(View()), ops, i);
        match ops[i] {
          case Increment(delta, now, _) => var _, _ := IncrementRefCountAndMaybeAcquireWakelock(delta, now);
          case Decrement(delta, token, _) => DecrementRefCountAndMaybeReleaseWakelock(delta, token);
          case Reset(now, _) => ResetSharedWakelock(now);
        }
      }
      assert ops[..|ops|] == ops;
    }

    /** One iteration of the wakelock thread, with whatever the other threads do while it reads without
        the mutex: a timeout resets the count, at a second clock reading; otherwise the framework's acknowledgement, if one
        arrives in the time left, is taken off what the others leave. The kernel call law is kept
        unless one of the others makes an empty acquire. */
    method HandleWakelocksOnce(now: int, resetNow: int, success: bool, numWakeLocksProcessed: nat, others: seq<Op>)
      returns (didTimeout: bool, timeLeft: int)
      requires threadsRun && refCount > 0 && forall i :: 0 <= i < |others| ==> others[i].running
      modifies this
      ensures threadsRun && (didTimeout <==> old(timeoutStartTime) + timeoutNs < now)
      ensures didTimeout ==> refCount == 0 && timeoutResetTime == resetNow && timeoutStartTime == old(timeoutStartTime)
      ensures !didTimeout ==>
                && timeLeft >= 0 && now + timeLeft == old(timeoutStartTime) + timeoutNs
                && var left := Run(old(View()), others);
                   && timeoutStartTime == left.startTime && timeoutResetTime == left.resetTime
                   && refCount == left.count - (if success then Min(left.count, numWakeLocksProcessed) else 0)
      ensures old(Balanced(View())) && !didTimeout
                && (forall k :: 0 <= k < |others| ==> !EmptyAcquire(Run(old(View()), others[..k]), others[k]))
              ==> Balanced(View())
      ensures old(Balanced(View())) && didTimeout ==> Balanced(View())
    {
      ghost var l := View();
      didTimeout, timeLeft := SharedWakelockDidTimeout(now);
      if didTimeout {
        if Balanced(l) { BalancedStep(l, Reset(resetNow, true)); }
        ResetSharedWakelock(resetNow);
      } else {
        Interleave(others);
        ghost var left := View();
        if Balanced(l) && forall k :: 0 <= k < |others| ==> !EmptyAcquire(Run(l, others[..k]), others[k]) {
          TraceLaw(l, others);
          assert others[..|others|] == others;
          assert Balanced(left);
        }
        if success {
          if Balanced(left) { BalancedStep(left, Decrement(numWakeLocksProcessed, NO_TOKEN, true)); }
          DecrementRefCountAndMaybeReleaseWakelock(numWakeLocksProcessed, NO_TOKEN);
        }
      }
    }
  }
}

/** The wakelock thread, its condition variable and its clients as a step system. */
module WakelockThread {
  import opened Common
  import opened WakelockSpec

  datatype Thread = Ready | Sleeping(notified: bool) | Reading(timeLeft: int)

  /** `ops` is the history of everything that entered the wakelock code. */
  datatype System = System(lock: Lock, thread: Thread, ops: seq<Op>)

  datatype Step =
    | Client(op: Op)
    | Sleep
    | Wake
    | Check(now: int, resetNow: int)
    | ReadDone(success: bool, processed: nat)

  const INIT := System(Lock(0, 0, 0, []), Ready, [])

  function Enter(s: System, op: Op): System {
    s.(lock := Apply(s.lock, op), ops := s.ops + [op])
  }

  predicate Enabled(s: System, step: Step) {
    match step
    case Client(_) => true
    case Sleep => s.thread.Ready? && s.lock.count == 0
    case Wake => s.thread.Sleeping?
    case Check(_, _) => s.thread.Ready? && s.lock.count > 0
    case ReadDone(_, _) => s.thread.Reading?
  }

  function Next(timeoutNs: int, s: System, step: Step): System
    requires Enabled(s, step)
  {
    match step
    case Client(op) =>
      var notifies := op.Increment? && op.running && s.lock.count == 0;
      Enter(s, op).(thread := if notifies && s.thread.Sleeping? then Sleeping(true) else s.thread)
    case Sleep => s.(thread := Sleeping(false))
    case Wake => s.(thread := Ready)
    case Check(now, resetNow) =>
      // the reset reads the clock again
      var duration := now - s.lock.startTime;
      if duration > timeoutNs then Enter(s, Reset(resetNow, true))
      else s.(thread := Reading(timeoutNs - duration))
    case ReadDone(success, processed) =>
      (if success then Enter(s, Decrement(processed, NO_TOKEN, true)) else s).(thread := Ready)
  }

  /** A run: states visited from the initial one, and the step taken out of each but the last. */
  predicate IsRun(timeoutNs: int, states: seq<System>, steps: seq<Step>) {
    && |states| == |steps| + 1 && states[0] == INIT
    && forall i :: 0 <= i < |steps| ==>
         Enabled(states[i], steps[i]) && states[i + 1] == Next(timeoutNs, states[i], steps[i])
  }

  /** What holds at every point of every run. */
  predicate Inv(s: System) {
    && s.lock == Run(INIT.lock, s.ops)
    && (s.thread == Sleeping(false) ==> s.lock.count == 0)
  }

  lemma EnterKeepsHistory(s: System, op: Op)
    requires s.lock == Run(INIT.lock, s.ops)
    ensures var s' := Enter(s, op); s'.lock == Run(INIT.lock, s'.ops)
  {
    assert (s.ops + [op])[..|s.ops|] == s.ops;
  }

  lemma StepKeepsInv(timeoutNs: int, s: System, step: Step)
    requires Inv(s) && Enabled(s, step)
    ensures Inv(Next(timeoutNs, s, step))
  {
    match step
    case Client(op) => EnterKeepsHistory(s, op);
    case Check(_, resetNow) => EnterKeepsHistory(s, Reset(resetNow, true));
    case ReadDone(_, processed) => EnterKeepsHistory(s, Decrement(processed, NO_TOKEN, true));
    case Sleep =>
    case Wake =>
  }

  lemma {:induction false} InvInRun(timeoutNs: int, states: seq<System>, steps: seq<Step>, k: nat)
    requires IsRun(timeoutNs, states, steps) && k < |states|
    ensures Inv(states[k])
  {
    if k > 0 {
      InvInRun(timeoutNs, states, steps, k - 1);
      StepKeepsInv(timeoutNs, states[k - 1], steps[k - 1]);
      assert states[k] == Next(timeoutNs, states[k - 1], steps[k - 1]);
    }
  }

  /** No lost wake-up: if the thread sleeps while references are held, it has been notified
      since it went to sleep. */
  lemma NoLostWakeup(timeoutNs: int, states: seq<System>, steps: seq<Step>, k: nat)
    requires IsRun(timeoutNs, states, steps) && k < |states|
    ensures states[k].thread.Sleeping? && states[k].lock.count > 0 ==> states[k].thread.notified
  {
    InvInRun(timeoutNs, states, steps, k);
  }

  /** Step i is the latest increment that took effect. */
  predicate LatestIncrement(ops: seq<Op>, i: nat) {
    && i < |ops| && ops[i].Increment? && ops[i].running
    && forall j :: i < j < |ops| ==> !(ops[j].Increment? && ops[j].running)
  }

  lemma {:induction false} HeldSinceLatestIncrement(l: Lock, ops: seq<Op>) returns (i: nat)
    requires l.count == 0 && Run(l, ops).count > 0
    ensures LatestIncrement(ops, i) && Run(l, ops).startTime == ops[i].now
  {
    var n := |ops| - 1;
    if ops[n].Increment? && ops[n].running {
      i := n;
    } else {
      i := HeldSinceLatestIncrement(l, ops[..n]);
    }
  }

  /** The thread resets on timeout exactly when more than the timeout has passed since the latest
      increment; otherwise it reads for the rest of the timeout, which lies within 0..timeout. */
  lemma TimeoutLaw(timeoutNs: int, states: seq<System>, steps: seq<Step>, k: nat) returns (i: nat)
    requires IsRun(timeoutNs, states, steps) && k < |steps| && steps[k].Check?
    requires forall j :: 0 <= j < |states[k].ops| && ReadsClock(states[k].ops[j]) ==>
               states[k].ops[j].now <= steps[k].now
    ensures LatestIncrement(states[k].ops, i)
    ensures var s, s', now := states[k], states[k + 1], steps[k].now;
            if now - s.ops[i].now > timeoutNs
            then s'.lock.count == 0 && s'.lock.resetTime == steps[k].resetNow && s'.thread == Ready
            else && s'.lock == s.lock && s'.thread.Reading?
                 && 0 <= s'.thread.timeLeft <= timeoutNs
                 && s'.thread.timeLeft == s.ops[i].now + timeoutNs - now
  {
    InvInRun(timeoutNs, states, steps, k);
    i := HeldSinceLatestIncrement(INIT.lock, states[k].ops);
    assert ReadsClock(states[k].ops[i]);
  }

  /** What a step has enter the wakelock code: a client's operation, the reset of a timeout, or the
      release of what the framework acknowledged, without a token. */
  function EntersBy(timeoutNs: int, s: System, step: Step): seq<Op> {
    match step
    case Client(op) => [op]
    case Check(now, resetNow) => if s.lock.startTime + timeoutNs < now then [Reset(resetNow, true)] else []
    case ReadDone(success, processed) => if success then [Decrement(processed, -1, true)] else []
    case _ => []
  }

  function Entered(timeoutNs: int, states: seq<System>, steps: seq<Step>, k: nat): seq<Op>
    requires k <= |steps| < |states|
  {
    if k == 0 then [] else Entered(timeoutNs, states, steps, k - 1) + EntersBy(timeoutNs, states[k - 1], steps[k - 1])
  }

  /** The history of a run is what its steps had enter, and the lock is where that history leads. */
  lemma {:induction false} HistoryOfRun(timeoutNs: int, states: seq<System>, steps: seq<Step>, k: nat)
    requires IsRun(timeoutNs, states, steps) && k < |states|
    ensures states[k].ops == Entered(timeoutNs, states, steps, k)
    ensures states[k].lock == Run(Lock(0, 0, 0, []), Entered(timeoutNs, states, steps, k))
  {
    InvInRun(timeoutNs, states, steps, k);
    if k > 0 {
      HistoryOfRun(timeoutNs, states, steps, k - 1);
      assert states[k] == Next(timeoutNs, states[k - 1], steps[k - 1]);
    }
  }

  /** An acknowledgement takes what it counts off the references, as far as there are any, and moves no
      time; the end of a read without one changes nothing. Either way the thread goes round again. */
  lemma AcknowledgementLaw(timeoutNs: int, states: seq<System>, steps: seq<Step>, k: nat)
    requires IsRun(timeoutNs, states, steps) && k < |steps| && steps[k].ReadDone?
    ensures var s, s' := states[k], states[k + 1];
            && s'.thread == Ready
            && s'.lock.startTime == s.lock.startTime && s'.lock.resetTime == s.lock.resetTime
            && s'.lock.count == if steps[k].success then Max(s.lock.count - steps[k].processed, 0) else s.lock.count
  {
    assert states[k + 1] == Next(timeoutNs, states[k], steps[k]);
  }

  /** Every beginning of a state's history is the history of a state visited before. */
  lemma {:induction false} HistoriesVisited(timeoutNs: int, states: seq<System>, steps: seq<Step>, k: nat, m: nat)
    returns (j: nat)
    requires IsRun(timeoutNs, states, steps) && k < |states| && m <= |states[k].ops|
    ensures j <= k && states[j].ops == states[k].ops[..m]
  {
    if m == |states[k].ops| {
      j := k;
    } else {
      assert states[k] == Next(timeoutNs, states[k - 1], steps[k - 1]);
      assert states[k].ops[..m] == states[k - 1].ops[..m];
      j := HistoriesVisited(timeoutNs, states, steps, k - 1, m);
    }
  }

  lemma {:induction false} HistoryGrows(timeoutNs: int, states: seq<System>, steps: seq<Step>, j: nat, k: nat)
    requires IsRun(timeoutNs, states, steps) && j <= k < |states|
    ensures states[j].ops <= states[k].ops
  {
    if j < k {
      HistoryGrows(timeoutNs, states, steps, j, k - 1);
      assert states[k] == Next(timeoutNs, states[k - 1], steps[k - 1]);
    }
  }

  /** The history makes no acquire without counting. */
  predicate NoEmptyAcquire(ops: seq<Op>) {
    forall m :: 0 <= m < |ops| ==> !EmptyAcquire(Run(INIT.lock, ops[..m]), ops[m])
  }

  /** The kernel call law holds in every state of a run so far if and only if nothing that entered
      the wakelock code, from the thread or a client, was an increment by 0 at count 0. */
  lemma KernelCallsBalanced(timeoutNs: int, states: seq<System>, steps: seq<Step>, k: nat)
    requires IsRun(timeoutNs, states, steps) && k < |states|
    ensures (forall j :: 0 <= j <= k ==> Balanced(states[j].lock)) <==> NoEmptyAcquire(states[k].ops)
  {
    var ops := states[k].ops;
    TraceLaw(INIT.lock, ops);
    if NoEmptyAcquire(ops) {
      forall j | 0 <= j <= k ensures Balanced(states[j].lock) {
        InvInRun(timeoutNs, states, steps, j);
        HistoryGrows(timeoutNs, states, steps, j, k);
        assert states[j].ops == ops[..|states[j].ops|];
      }
    }
    if forall j :: 0 <= j <= k ==> Balanced(states[j].lock) {
      forall m | 0 <= m <= |ops| ensures Balanced(Run(INIT.lock, ops[..m])) {
        var j := HistoriesVisited(timeoutNs, states, steps, k, m);
        InvInRun(timeoutNs, states, steps, j);
      }
    }
  }

  /** In particular it holds throughout when clients count what they take. */
  lemma CountingClientsKeepBalance(timeoutNs: int, states: seq<System>, steps: seq<Step>, k: nat)
    requires IsRun(timeoutNs, states, steps) && k < |states|
    requires forall i :: 0 <= i < |steps| && steps[i].Client? && steps[i].op.Increment? ==> steps[i].op.delta > 0
    ensures Balanced(states[k].lock)
  {
    CountedInRun(timeoutNs, states, steps, k);
    KernelCallsBalanced(timeoutNs, states, steps, k);
  }

  lemma {:induction false} CountedInRun(timeoutNs: int, states: seq<System>, steps: seq<Step>, k: nat)
    requires IsRun(timeoutNs, states, steps) && k < |states|
    requires forall i :: 0 <= i < |steps| && steps[i].Client? && steps[i].op.Increment? ==> steps[i].op.delta > 0
    ensures forall m :: 0 <= m < |states[k].ops| && states[k].ops[m].Increment? ==> states[k].ops[m].delta > 0
  {
    if k > 0 {
      CountedInRun(timeoutNs, states, steps, k - 1);
      assert states[k] == Next(timeoutNs, states[k - 1], steps[k - 1]);
    }
  }
}
