/** The shared wakelock of the sensors proxy as a value: a saturating, timed reference count
    together with the calls it makes to the kernel, and the laws of every history of it. */
module WakelockSpec {
  import opened Common

  datatype KernelCall = Acquire | Release

  /** The proxy's wakelock fields and the kernel calls made so far, oldest first. */
  datatype Lock = Lock(count: nat, startTime: int, resetTime: int, calls: seq<KernelCall>)

  const NO_TOKEN: int := -1

  /** One entry into the wakelock code. `running` is what the caller read from the run flag
      before it took the mutex. `token` is the start time a scoped wakelock carries. */
  datatype Op =
    | Increment(delta: nat, now: int, running: bool)
    | Decrement(delta: nat, token: int, running: bool)
    | Reset(now: int, running: bool)

  function AfterIncrement(l: Lock, delta: nat, now: int, running: bool): Lock {
    if !running then l
    else l.(count := l.count + delta,
            startTime := now,
            calls := if l.count == 0 then l.calls + [Acquire] else l.calls)
  }

  function AfterDecrement(l: Lock, delta: nat, token: int, running: bool): Lock {
    var start := if token == NO_TOKEN then l.resetTime else token;
    if !running || l.count == 0 || start < l.resetTime then l
    else
      var left := l.count - Min(l.count, delta);
      l.(count := left, calls := if left == 0 then l.calls + [Release] else l.calls)
  }

  function AfterReset(l: Lock, now: int, running: bool): Lock {
    AfterDecrement(l, l.count, NO_TOKEN, running).(resetTime := now)
  }

  /** A scoped wakelock: unlocked, or holding one reference taken at the start time it carries. */
  datatype Scoped = Unlocked | Locked(token: int)

  /** The end of a scoped wakelock's life gives its reference back. */
  function AfterScope(l: Lock, w: Scoped, running: bool): Lock {
    if w.Unlocked? then l else AfterDecrement(l, 1, w.token, running)
  }

  function Apply(l: Lock, op: Op): Lock {
    match op
    case Increment(delta, now, running) => AfterIncrement(l, delta, now, running)
    case Decrement(delta, token, running) => AfterDecrement(l, delta, token, running)
    case Reset(now, running) => AfterReset(l, now, running)
  }

  function Run(l: Lock, ops: seq<Op>): Lock {
    if ops == [] then l else Apply(Run(l, ops[..|ops| - 1]), ops[|ops| - 1])
  }

  lemma RunStep(l: Lock, ops: seq<Op>, k: nat)
    requires k < |ops|
    ensures Run(l, ops[..k + 1]) == Apply(Run(l, ops[..k]), ops[k])
  {
    assert ops[..k + 1][..k] == ops[..k];
  }

  // ---------------------------------------------------------------- kernel call trace

  /** Acquire first, then strictly in turn. */
  predicate Alternating(calls: seq<KernelCall>) {
    forall i :: 0 <= i < |calls| ==> calls[i] == if i % 2 == 0 then Acquire else Release
  }

  /** The kernel holds the lock exactly when the last call it got was an acquire. */
  predicate Held(calls: seq<KernelCall>) {
    calls != [] && calls[|calls| - 1] == Acquire
  }

  predicate Balanced(l: Lock) {
    Alternating(l.calls) && (Held(l.calls) <==> l.count > 0)
  }

  /** An increment by nothing while nothing is held: it acquires without counting. */
  predicate EmptyAcquire(l: Lock, op: Op) {
    op.Increment? && op.running && op.delta == 0 && l.count == 0
  }

  lemma BalancedStep(l: Lock, op: Op)
    requires Balanced(l)
    ensures Balanced(Apply(l, op)) <==> !EmptyAcquire(l, op)
  {
    assert Held(l.calls) <==> |l.calls| % 2 == 1;
    var l' := Apply(l, op);
    if l'.calls != l.calls {
      assert l'.calls[..|l.calls|] == l.calls;
      assert Alternating(l'.calls);
    }
  }

  lemma {:induction false} BalancedUpTo(l: Lock, ops: seq<Op>, k: nat)
    requires Balanced(l) && k <= |ops|
    requires forall j :: 0 <= j < k ==> !EmptyAcquire(Run(l, ops[..j]), ops[j])
    ensures Balanced(Run(l, ops[..k]))
  {
    if k > 0 {
      BalancedUpTo(l, ops, k - 1);
      RunStep(l, ops, k - 1);
      BalancedStep(Run(l, ops[..k - 1]), ops[k - 1]);
    }
  }

  /** Over any history, kernel calls alternate and the lock is held exactly while the count is
      positive, at every point, if and only if the history never makes an empty acquire. */
  lemma TraceLaw(l: Lock, ops: seq<Op>)
    requires Balanced(l)
    ensures (forall k :: 0 <= k <= |ops| ==> Balanced(Run(l, ops[..k]))) <==>
            (forall k :: 0 <= k < |ops| ==> !EmptyAcquire(Run(l, ops[..k]), ops[k]))
  {
    if forall k :: 0 <= k <= |ops| ==> Balanced(Run(l, ops[..k])) {
      forall k | 0 <= k < |ops| ensures !EmptyAcquire(Run(l, ops[..k]), ops[k]) {
        assert Balanced(Run(l, ops[..k + 1]));
        RunStep(l, ops, k);
        BalancedStep(Run(l, ops[..k]), ops[k]);
      }
    }
    if forall k :: 0 <= k < |ops| ==> !EmptyAcquire(Run(l, ops[..k]), ops[k]) {
      forall k | 0 <= k <= |ops| ensures Balanced(Run(l, ops[..k])) {
        BalancedUpTo(l, ops, k);
      }
    }
  }

  /** In particular, callers that always count at least one reference keep the law. */
  lemma PositiveIncrementsKeepTraceLaw(l: Lock, ops: seq<Op>)
    requires Balanced(l)
    requires forall i :: 0 <= i < |ops| && ops[i].Increment? ==> ops[i].delta > 0
    ensures Balanced(Run(l, ops))
  {
    TraceLaw(l, ops);
    assert ops[..|ops|] == ops;
  }

  // ---------------------------------------------------------------- the count

  /** The signed amount an operation asks the count to move by; stale and stopped ones ask 0. */
  function Requested(l: Lock, op: Op): int {
    match op
    case Increment(delta, _, running) => if running then delta as int else 0
    case Decrement(delta, token, running) =>
      if running && (token == NO_TOKEN || token >= l.resetTime) then -(delta as int) else 0
    case Reset(_, running) => if running then -(l.count as int) else 0
  }

  function RequestedBy(l: Lock, ops: seq<Op>): seq<int>
    ensures |RequestedBy(l, ops)| == |ops|
  {
    if ops == [] then []
    else
      var front := ops[..|ops| - 1];
      RequestedBy(l, front) + [Requested(Run(l, front), ops[|ops| - 1])]
  }

  function Sum(xs: seq<int>): int {
    if xs == [] then 0 else Sum(xs[..|xs| - 1]) + xs[|xs| - 1]
  }

  /** The least running sum, the empty one included. */
  function LowestSum(xs: seq<int>): (low: int)
    ensures forall k :: 0 <= k <= |xs| ==> low <= Sum(xs[..k])
    ensures exists k :: 0 <= k <= |xs| && low == Sum(xs[..k])
  {
    if xs == [] then
      assert Sum(xs[..0]) == 0;
      0
    else
      var front := xs[..|xs| - 1];
      assert forall k :: 0 <= k <= |front| ==> front[..k] == xs[..k];
      assert xs[..|xs|] == xs;
      Min(LowestSum(front), Sum(xs))
  }

  lemma CountStep(l: Lock, op: Op)
    ensures Apply(l, op).count == l.count + Requested(l, op) - Min(l.count + Requested(l, op), 0)
  {
  }

  lemma SumStep(xs: seq<int>, x: int)
    ensures Sum(xs + [x]) == Sum(xs) + x && LowestSum(xs + [x]) == Min(LowestSum(xs), Sum(xs) + x)
  {
    assert (xs + [x])[..|xs|] == xs;
  }

  /** The count is the running sum of the requests lifted by its own lowest point: the count
      forgets exactly the releases that found nothing to release, and nothing else. */
  lemma {:induction false} CountLaw(l: Lock, ops: seq<Op>)
    requires l.count == 0
    ensures var xs := RequestedBy(l, ops); Run(l, ops).count == Sum(xs) - LowestSum(xs)
  {
    if ops != [] {
      var front, op := ops[..|ops| - 1], ops[|ops| - 1];
      var xs, x := RequestedBy(l, front), Requested(Run(l, front), op);
      assert RequestedBy(l, ops) == xs + [x];
      CountLaw(l, front);
      CountStep(Run(l, front), op);
      SumStep(xs, x);
      hide Apply, Requested, Sum, LowestSum;
    }
  }

  // ---------------------------------------------------------------- reset epochs

  predicate ReadsClock(op: Op) { !op.Decrement? }

  predicate ClockNeverGoesBack(ops: seq<Op>) {
    forall i, j :: 0 <= i < j < |ops| && ReadsClock(ops[i]) && ReadsClock(ops[j]) ==>
      ops[i].now <= ops[j].now
  }

  predicate ClockStrictlyIncreases(ops: seq<Op>) {
    forall i, j :: 0 <= i < j < |ops| && ReadsClock(ops[i]) && ReadsClock(ops[j]) ==>
      ops[i].now < ops[j].now
  }

  /** Every clock reading lies after the reset time the history starts from. */
  predicate StartsBefore(l: Lock, ops: seq<Op>) {
    forall i :: 0 <= i < |ops| && ReadsClock(ops[i]) ==> l.resetTime < ops[i].now && 0 <= ops[i].now
  }

  /** The reset time is at or above t exactly when the history resets at or above t. */
  lemma {:induction false} ResetTimeOf(l: Lock, ops: seq<Op>, t: int)
    requires ClockNeverGoesBack(ops) && StartsBefore(l, ops) && l.resetTime < t
    ensures Run(l, ops).resetTime >= t <==> exists j :: 0 <= j < |ops| && ops[j].Reset? && ops[j].now >= t
  {
    if ops != [] {
      var n := |ops| - 1;
      var front := ops[..n];
      ResetTimeOf(l, front, t);
      if ops[n].Reset? {
        assert Run(l, ops).resetTime == ops[n].now;
      } else {
        assert Run(l, ops).resetTime == Run(l, front).resetTime;
      }
      if j :| 0 <= j < |ops| && ops[j].Reset? && ops[j].now >= t {
        if j < n {
          assert front[j].Reset? && front[j].now >= t;
          assert ReadsClock(ops[j]);
          assert ops[n].Reset? ==> ReadsClock(ops[n]);
        }
      }
    }
  }

  /** A scoped reference taken by step i lowers the count, after any further history, if and
      only if no reset with a later clock reading has happened since. */
  lemma ScopedReleaseLaw(l: Lock, ops: seq<Op>, i: nat, delta: nat)
    requires ClockNeverGoesBack(ops) && StartsBefore(l, ops)
    requires i < |ops| && ops[i].Increment? && ops[i].running
    ensures var now := Run(l, ops);
            var after := Apply(now, Decrement(delta, ops[i].now, true));
            if exists j :: i < j < |ops| && ops[j].Reset? && ops[i].now < ops[j].now
            then after == now
            else after.count == now.count - Min(now.count, delta)
  {
    var t := ops[i].now + 1;
    ResetTimeOf(l, ops, t);
    if j :| 0 <= j < |ops| && ops[j].Reset? && ops[j].now >= t {
      assert ReadsClock(ops[i]) && ReadsClock(ops[j]);
    }
  }

  /** A batch's wakelock over its life: created at step i, carried through any history, then posted with
      n wake-up events. The post takes n references and its end gives back the batch's own one, unless a
      reset with a later clock reading has already done so; while anything else is held the kernel
      hears nothing of it. */
  lemma ScopedPostLaw(l: Lock, ops: seq<Op>, i: nat, n: nat, now: int)
    requires i < |ops| && ops[i].Increment? && ops[i].running
    requires ClockNeverGoesBack(ops + [Increment(n, now, true)]) && StartsBefore(l, ops + [Increment(n, now, true)])
    ensures var held := Run(l, ops);
            var after := AfterScope(AfterIncrement(held, n, now, true), Locked(ops[i].now), true);
            && after.count == held.count + n -
                 (if exists j :: i < j < |ops| && ops[j].Reset? && ops[i].now < ops[j].now then 0
                  else Min(held.count + n, 1))
            && (held.count > 0 && n > 0 ==> after.calls == held.calls)
  {
    var all := ops + [Increment(n, now, true)];
    assert all[..|ops|] == ops && all[i] == ops[i];
    ScopedReleaseLaw(l, all, i, 1);
    assert forall j :: i < j < |ops| ==> all[j] == ops[j];
    assert Run(l, all) == AfterIncrement(Run(l, ops), n, now, true);
  }

  /** With a strictly increasing clock the start time stands for the epoch: a reference from
      before a reset never lowers the count after it, and one from the same epoch always does. */
  lemma EpochLaw(l: Lock, ops: seq<Op>, i: nat, delta: nat)
    requires ClockStrictlyIncreases(ops) && StartsBefore(l, ops)
    requires i < |ops| && ops[i].Increment? && ops[i].running
    ensures var now := Run(l, ops);
            var after := Apply(now, Decrement(delta, ops[i].now, true));
            if exists j :: i < j < |ops| && ops[j].Reset? then after == now
            else after.count == now.count - Min(now.count, delta)
  {
    ScopedReleaseLaw(l, ops, i, delta);
    if j :| i < j < |ops| && ops[j].Reset? {
      assert ReadsClock(ops[i]) && ReadsClock(ops[j]);
    }
  }

  /** A clock that merely does not go back is not enough: a reset in the same nanosecond leaves
      the old reference able to release one that belongs to somebody else. */
  lemma SameInstantResetLeaksEpoch()
    ensures var l := Lock(0, 0, 0, []);
            var ops := [Increment(1, 5, true), Reset(5, true), Increment(1, 5, true)];
            && ClockNeverGoesBack(ops) && StartsBefore(l, ops)
            && Run(l, ops).count == 1
            && Apply(Run(l, ops), Decrement(1, ops[0].now, true)).count == 0
  {
    var l := Lock(0, 0, 0, []);
    var ops := [Increment(1, 5, true), Reset(5, true), Increment(1, 5, true)];
    assert ops[..3] == ops && ops[..0] == [];
    RunStep(l, ops, 0);
    RunStep(l, ops, 1);
    RunStep(l, ops, 2);
  }
}
