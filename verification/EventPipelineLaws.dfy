/** What holds in every run of the event pipeline. */
module EventPipelineLaws {
  import opened Common
  import opened SensorTypes
  import opened EventPipelineSpec
  import opened EventPipelineInv

  ghost predicate Inv(c: Config, s: State) {
    Core(c, s) && Order(s) && Conservation(s) && Tally(s) && Posts(s) && Logged(s.history)
  }

  lemma StepKeepsInv(c: Config, s: State, step: Step)
    requires Inv(c, s) && Enabled(c, s, step) && Defined(c, s, step)
    ensures Inv(c, Next(c, s, step))
  {
    hide Conservation, Tally, Posts, Core, Logged, Next;
    assert Increasing(s.history.written + s.history.pending);
    StepKeepsCore(c, s, step);
    StepKeepsOrder(c, s, step);
    StepKeepsConservation(c, s, step);
    StepKeepsTally(c, s, step);
    StepKeepsPosts(c, s, step);
    StepKeepsLogged(c, s, step);
  }

  lemma RunStep(c: Config, states: seq<State>, steps: seq<Step>, k: nat)
    requires IsRun(c, states, steps) && k < |steps|
    ensures k + 1 < |states| && Enabled(c, states[k], steps[k]) && Defined(c, states[k], steps[k])
    ensures states[k + 1] == Next(c, states[k], steps[k])
  {
  }

  lemma OrderInitially()
    ensures Order(INIT)
  {
    assert Sent(INIT) == [] && Unattempted(INIT) == [] && InHand(INIT) == [];
  }

  lemma ConservationInitially()
    ensures Conservation(INIT)
  {
    assert InHand(INIT) == [];
    forall i: nat ensures FateCount(INIT.history, i) == One(i < 0) {
    }
  }

  lemma HistoryInitially(c: Config)
    requires c.quantum > 0
    ensures Core(c, INIT) && Tally(INIT) && Logged(INIT.history)
  {
    assert InHand(INIT) == [];
  }

  lemma PostsInitially()
    ensures Posts(INIT)
  {
    assert InHand(INIT) == [];
  }

  lemma InvInitially(c: Config)
    requires c.quantum > 0
    ensures Inv(c, INIT)
  {
    hide Core, Order, Conservation, Tally, Posts, Logged;
    HistoryInitially(c);
    OrderInitially();
    ConservationInitially();
    PostsInitially();
  }

  lemma {:induction false} InvInRun(c: Config, states: seq<State>, steps: seq<Step>, k: nat)
    requires c.quantum > 0 && IsRun(c, states, steps) && k < |states|
    ensures Inv(c, states[k])
  {
    assert states[0] == INIT && |states| == |steps| + 1;
    hide *;
    if k == 0 {
      InvInitially(c);
    } else {
      InvInRun(c, states, steps, k - 1);
      RunStep(c, states, steps, k - 1);
      StepKeepsInv(c, states[k - 1], steps[k - 1]);
    }
  }

  /** No run gets stuck in undefined behaviour: in every reachable state every enabled step is
      defined. In particular the size counter never underflows, the front vector is there when the
      writer uses it, and the room a direct write saw is still there when it writes. */
  lemma EveryEnabledStepIsDefined(c: Config, states: seq<State>, steps: seq<Step>, k: nat, step: Step)
    requires c.quantum > 0 && IsRun(c, states, steps) && k < |states| && Enabled(c, states[k], step)
    ensures Defined(c, states[k], step)
  {
    InvInRun(c, states, steps, k);
    EnabledIsDefined(c, states[k], step);
  }

  /** Single writer: a direct write of a posting thread and the unlocked blocking write of the
      writer thread never overlap, and the batch the writer works on stays in front, unchanged,
      until the writer has the mutex again. */
  lemma SingleWriter(c: Config, states: seq<State>, steps: seq<Step>, k: nat)
    requires c.quantum > 0 && IsRun(c, states, steps) && k < |states|
    ensures var s := states[k];
            && !(s.poster.Direct? && s.writer.Writing?)
            && (s.writer.Writing? || s.writer.Attempted? ==> s.pending != [] && s.pending[0] == s.writer.front)
  {
    InvInRun(c, states, steps, k);
  }

  /** First in, first out: what reached the event queue, then the pending events not attempted yet,
      are posted events at increasing positions. */
  lemma FirstInFirstOut(c: Config, states: seq<State>, steps: seq<Step>, k: nat)
    requires c.quantum > 0 && IsRun(c, states, steps) && k < |states|
    ensures var s := states[k]; var h := s.history;
            && Increasing(h.written + h.pending)
            && At(h.posted, h.written, s.consumed + s.queue)
            && At(h.posted, h.pending, Unattempted(s))
  {
    InvInRun(c, states, steps, k);
    var s := states[k];
    OrderedParts(s.history, InHand(s), Sent(s), Unattempted(s));
  }

  /** Conservation: between posts, every posted event has exactly one fate, and has it once: no list
      of positions repeats one, and together they are as many as were posted. */
  lemma EveryEventHasOneFate(c: Config, states: seq<State>, steps: seq<Step>, k: nat, i: nat)
    requires c.quantum > 0 && IsRun(c, states, steps) && k < |states| && states[k].poster.Outside?
    ensures var h := states[k].history;
            && FateCount(h, i) == (if i < |h.posted| then 1 else 0)
            && Increasing(h.written + h.pending) && Increasing(h.failed + h.pending) && Increasing(h.overflowed)
            && |h.written| + |h.pending| + |h.overflowed| + |h.failed| == |h.posted|
            && At(h.posted, h.overflowed, h.dropped) && At(h.posted, h.failed, h.lost)
  {
    InvInRun(c, states, steps, k);
  }

  /** An event is dropped on overflow only with the whole remainder of its post, and then the rest
      of that post was written directly. */
  lemma OverflowDropsWholeRemainder(c: Config, states: seq<State>, steps: seq<Step>, k: nat, i: nat)
    returns (p: Posting)
    requires c.quantum > 0 && IsRun(c, states, steps) && k < |states| && i in states[k].history.overflowed
    ensures var h := states[k].history;
            && p in h.postings && p.direct <= i < p.end
            && (forall j :: p.first <= j < p.direct ==> j in h.written)
            && (forall j :: p.direct <= j < p.end ==> j in h.overflowed)
  {
    InvInRun(c, states, steps, k);
    var s := states[k];
    var h := s.history;
    assert i < |h.posted| - |InHand(s)|;
    assert FateCount(h, i) == 1;
    assert i < |h.posted| - InProgress(s);
    var at := FindPosting(h.postings, |h.posted| - InProgress(s), i, |h.postings| - 1);
    p := h.postings[at];
    assert Settled(h, p);
    assert i in h.written <==> i < p.direct;
  }

  lemma {:induction false} FindPosting(postings: seq<Posting>, end: nat, i: nat, n: nat) returns (k: nat)
    requires Tiled(postings, end) && n < |postings| && i < postings[n].end
    ensures k < |postings| && postings[k].first <= i < postings[k].end
  {
    if postings[n].first <= i {
      k := n;
    } else {
      k := FindPosting(postings, end, i, n - 1);
    }
  }

  /** The size counter is the number of pending events and stays within the bound, no pending batch
      is empty, and the event queue never holds more than its quantum. */
  lemma SizeIsExact(c: Config, states: seq<State>, steps: seq<Step>, k: nat)
    requires c.quantum > 0 && IsRun(c, states, steps) && k < |states|
    ensures var s := states[k];
            && s.size == |Flatten(s.pending)| <= c.maxPending && |s.queue| <= c.quantum
            && (s.size == 0 <==> s.pending == [])
  {
    InvInRun(c, states, steps, k);
  }

  /** The recorded maximum is the largest size there has been. */
  lemma {:induction false} MostIsPeak(c: Config, states: seq<State>, steps: seq<Step>, k: nat)
    requires c.quantum > 0 && IsRun(c, states, steps) && k < |states|
    ensures forall j :: 0 <= j <= k ==> states[j].size <= states[k].most
    ensures exists j :: 0 <= j <= k && states[j].size == states[k].most
  {
    if k == 0 {
      assert states[0].size == states[0].most;
    } else {
      assert k - 1 < |steps|;
      hide *;
      MostIsPeak(c, states, steps, k - 1);
      CoreInRun(c, states, steps, k - 1);
      RunStep(c, states, steps, k - 1);
      PeakStep(c, states[k - 1], steps[k - 1]);
    }
  }

  lemma CoreInRun(c: Config, states: seq<State>, steps: seq<Step>, k: nat)
    requires c.quantum > 0 && IsRun(c, states, steps) && k < |states|
    ensures Core(c, states[k])
  {
    InvInRun(c, states, steps, k);
  }

  lemma PeakStep(c: Config, s: State, step: Step)
    requires Core(c, s) && Enabled(c, s, step) && Defined(c, s, step)
    ensures var s' := Next(c, s, step);
            s'.most == if s'.size > s.most then s'.size else s.most
  {
  }

  /** No lost wake-up: a writer asleep on a non-empty pending queue has been notified since. */
  lemma NoLostWakeup(c: Config, states: seq<State>, steps: seq<Step>, k: nat)
    requires c.quantum > 0 && IsRun(c, states, steps) && k < |states|
    ensures states[k].writer.Sleeping? && states[k].pending != [] ==> states[k].writer.notified
  {
    InvInRun(c, states, steps, k);
  }

  // ---------------------------------------------------------------- what the run is made of

  /** The corrected batches entered by the steps, one after the other. */
  function PostedBy(steps: seq<Step>): seq<Event> {
    if steps == [] then []
    else
      var last := steps[|steps| - 1];
      PostedBy(steps[..|steps| - 1]) + if last.PostEnter? then last.corrected else []
  }

  /** The number of events the framework read. */
  function ReadBy(steps: seq<Step>): nat {
    if steps == [] then 0
    else
      var last := steps[|steps| - 1];
      ReadBy(steps[..|steps| - 1]) + if last.Read? then last.n else 0
  }

  /** The wake-up events of the batches entered with a locked wakelock, counted before correction. */
  function TakenBy(wake: set<Int32>, steps: seq<Step>): nat {
    if steps == [] then 0
    else
      var last := steps[|steps| - 1];
      TakenBy(wake, steps[..|steps| - 1]) +
      if last.PostEnter? && last.locked then CountWakeUps(wake, last.raw) else 0
  }

  /** What counts as posted, read and taken is what the steps of the run posted, read and took. */
  lemma {:induction false} HistoryOfRun(c: Config, states: seq<State>, steps: seq<Step>, k: nat)
    requires IsRun(c, states, steps) && k < |states|
    ensures states[k].history.posted == PostedBy(steps[..k])
    ensures |states[k].consumed| == ReadBy(steps[..k])
    ensures states[k].wakes.taken == TakenBy(c.wake, steps[..k])
  {
    if k > 0 {
      RunStep(c, states, steps, k - 1);
      StepHistory(c, states[k - 1], steps[k - 1]);
      assert steps[..k][..k - 1] == steps[..k - 1];
      hide IsRun, Next, Enabled, Defined, CountWakeUps;
      HistoryOfRun(c, states, steps, k - 1);
    }
  }

  lemma StepHistory(c: Config, s: State, step: Step)
    requires Enabled(c, s, step) && Defined(c, s, step)
    ensures var s' := Next(c, s, step);
            && s'.history.posted == s.history.posted + (if step.PostEnter? then step.corrected else [])
            && |s'.consumed| == |s.consumed| + (if step.Read? then step.n else 0)
            && s'.wakes.taken == s.wakes.taken +
                 if step.PostEnter? && step.locked then CountWakeUps(c.wake, step.raw) else 0
  {
    hide CountWakeUps;
  }

  // ---------------------------------------------------------------- draining

  lemma RoundsStep(n: nat, q: nat)
    requires q > 0 && n > 0
    ensures n <= q ==> Rounds(n, q) == 1
    ensures n > q ==> Rounds(n, q) == 1 + Rounds(n - q, q)
  {
    if n <= q {
      DivUnique(n + q - 1, q, 1, n - 1);
    } else {
      var a := n - 1;
      DivUnique(a + q, q, a / q + 1, a % q);
    }
  }

  lemma DivUnique(a: nat, q: nat, x: nat, r: nat)
    requires q > 0 && a == q * x + r && r < q
    ensures a / q == x
  {
    var d := x - a / q;
    assert q * d == a % q - r;
    assert d >= 1 ==> q * d >= q;
    assert d <= -1 ==> q * d + q <= 0;
  }

  /** Each finished writer iteration takes exactly one round off the pending queue; nothing else
      but a post changes its rounds. */
  lemma IterationsStep(c: Config, s: State, step: Step)
    requires Core(c, s) && Enabled(c, s, step) && Defined(c, s, step) && !step.PostLeave?
    ensures Iterations(s.pending, c.quantum) ==
            Iterations(Next(c, s, step).pending, c.quantum) + if step.WriterFinish? then 1 else 0
  {
    if step.WriterFinish? {
      RoundsStep(|s.pending[0].events|, c.quantum);
    }
  }

  lemma RunIterations(c: Config, states: seq<State>, steps: seq<Step>, k: nat)
    requires c.quantum > 0 && IsRun(c, states, steps) && k < |steps| && !steps[k].PostLeave?
    ensures Iterations(states[k].pending, c.quantum) ==
            Iterations(states[k + 1].pending, c.quantum) + if steps[k].WriterFinish? then 1 else 0
  {
    CoreInRun(c, states, steps, k);
    IterationsStep(c, states[k], steps[k]);
  }

  function Finishes(steps: seq<Step>): nat {
    if steps == [] then 0
    else Finishes(steps[..|steps| - 1]) + if steps[|steps| - 1].WriterFinish? then 1 else 0
  }

  lemma {:induction false} DrainCount(c: Config, states: seq<State>, steps: seq<Step>, from: nat, to: nat)
    requires c.quantum > 0 && IsRun(c, states, steps) && from <= to <= |steps| < |states|
    requires forall k :: from <= k < to ==> !steps[k].PostLeave?
    ensures Iterations(states[from].pending, c.quantum) ==
            Iterations(states[to].pending, c.quantum) + Finishes(steps[from..to])
  {
    hide *;
    RunShape(c, states, steps);
    NoFinishes(steps, from);
    if from < to {
      var n := to - 1;
      FinishesStep(steps, from, n);
      DrainCount(c, states, steps, from, n);
      RunIterations(c, states, steps, n);
    }
  }

  lemma RunShape(c: Config, states: seq<State>, steps: seq<Step>)
    requires IsRun(c, states, steps)
    ensures |states| == |steps| + 1 && states[0] == INIT
  {
  }

  lemma NoFinishes(steps: seq<Step>, at: nat)
    requires at <= |steps|
    ensures Finishes(steps[at..at]) == 0
  {
  }

  lemma FinishesStep(steps: seq<Step>, from: nat, to: nat)
    requires from <= to < |steps|
    ensures Finishes(steps[from..to + 1]) == Finishes(steps[from..to]) + if steps[to].WriterFinish? then 1 else 0
  {
    assert steps[from..to + 1][..to - from] == steps[from..to];
  }

  /** With no further post the pending queue is empty after, and only after, as many finished writer
      iterations as its batches take rounds of at most one quantum. */
  lemma DrainsExactly(c: Config, states: seq<State>, steps: seq<Step>, from: nat, to: nat)
    requires c.quantum > 0 && IsRun(c, states, steps) && from <= to < |states|
    requires forall k :: from <= k < to ==> !steps[k].PostLeave?
    ensures Finishes(steps[from..to]) <= Iterations(states[from].pending, c.quantum)
    ensures states[to].pending == [] <==> Finishes(steps[from..to]) == Iterations(states[from].pending, c.quantum)
  {
    RunShape(c, states, steps);
    DrainCount(c, states, steps, from, to);
    CoreInRun(c, states, steps, to);
    hide IsRun;
    var pending := states[to].pending;
    if pending != [] {
      RoundsStep(|pending[0].events|, c.quantum);
    }
  }

  // ---------------------------------------------------------------- draining while posts go on

  /** The pending queue after one finished writer iteration. */
  function OneRound(batches: seq<Batch>, q: nat): seq<Batch>
    requires q > 0
  {
    if batches == [] then []
    else if |batches[0].events| <= q then batches[1..]
    else [batches[0].(events := batches[0].events[q..])] + batches[1..]
  }

  function AfterRounds(batches: seq<Batch>, q: nat, n: nat): seq<Batch>
    requires q > 0
  {
    if n == 0 then batches else OneRound(AfterRounds(batches, q, n - 1), q)
  }

  predicate NoneEmpty(batches: seq<Batch>) {
    forall i :: 0 <= i < |batches| ==> batches[i].events != []
  }

  /** What a step queues behind the pending batches. */
  function QueuedBy(c: Config, s: State, step: Step): seq<Batch> {
    if step.PostLeave? && s.poster.Remainder? && s.poster.count < |s.poster.events|
       && s.size + |s.poster.events| - s.poster.count <= c.maxPending
    then [Batch(s.poster.events[s.poster.count..], s.poster.wakeUps)] else []
  }

  /** The batches queued between two points of a run, in order. */
  function Queued(c: Config, states: seq<State>, steps: seq<Step>, from: nat, to: nat): seq<Batch>
    requires from <= to <= |steps| < |states|
  {
    if from == to then []
    else Queued(c, states, steps, from, to - 1) + QueuedBy(c, states[to - 1], steps[to - 1])
  }

  lemma PendingStep(c: Config, s: State, step: Step)
    requires Core(c, s) && Enabled(c, s, step) && Defined(c, s, step)
    ensures var s' := Next(c, s, step);
            s'.pending == if step.WriterFinish? then OneRound(s.pending, c.quantum)
                          else s.pending + QueuedBy(c, s, step)
    ensures c.quantum > 0 && (step.WriterFinish? ==> s.pending != [] && QueuedBy(c, s, step) == [])
    ensures NoneEmpty(s.pending) && NoneEmpty(QueuedBy(c, s, step))
  {
  }

  /** A round takes one iteration off and leaves what is behind alone. */
  lemma OneRoundStep(batches: seq<Batch>, more: seq<Batch>, q: nat)
    requires q > 0 && batches != [] && NoneEmpty(batches)
    ensures NoneEmpty(OneRound(batches, q))
    ensures Iterations(batches, q) == Iterations(OneRound(batches, q), q) + 1
    ensures OneRound(batches + more, q) == OneRound(batches, q) + more
  {
    RoundsStep(|batches[0].events|, q);
    assert (batches + more)[1..] == batches[1..] + more;
    var next := OneRound(batches, q);
    if |batches[0].events| > q {
      assert next[1..] == batches[1..];
    }
  }

  lemma IterationsLeft(batches: seq<Batch>, q: nat)
    requires q > 0 && NoneEmpty(batches)
    ensures Iterations(batches, q) == 0 <==> batches == []
  {
    if batches != [] {
      RoundsStep(|batches[0].events|, q);
    }
  }

  /** As many rounds as the batches take reach nothing behind them. */
  lemma {:induction false} RoundsInFront(batches: seq<Batch>, more: seq<Batch>, q: nat, n: nat)
    requires q > 0 && NoneEmpty(batches) && n <= Iterations(batches, q)
    ensures NoneEmpty(AfterRounds(batches, q, n))
    ensures Iterations(AfterRounds(batches, q, n), q) == Iterations(batches, q) - n
    ensures AfterRounds(batches + more, q, n) == AfterRounds(batches, q, n) + more
  {
    if n > 0 {
      RoundsInFront(batches, more, q, n - 1);
      var before := AfterRounds(batches, q, n - 1);
      IterationsLeft(before, q);
      OneRoundStep(before, more, q);
      hide OneRound, Iterations, NoneEmpty;
    }
  }

  lemma {:induction false} RoundsInTurn(batches: seq<Batch>, q: nat, m: nat, n: nat)
    requires q > 0
    ensures AfterRounds(batches, q, m + n) == AfterRounds(AfterRounds(batches, q, m), q, n)
  {
    if n > 0 {
      RoundsInTurn(batches, q, m, n - 1);
    }
  }

  /** The pending queue is these batches less n rounds. */
  predicate Stands(pending: seq<Batch>, all: seq<Batch>, q: nat, n: nat)
    requires q > 0
  {
    NoneEmpty(all) && n <= Iterations(all, q) && pending == AfterRounds(all, q, n)
  }

  /** One more finish. */
  lemma FinishInRounds(pending: seq<Batch>, all: seq<Batch>, q: nat, n: nat)
    requires q > 0 && Stands(pending, all, q, n) && pending != []
    ensures Stands(OneRound(pending, q), all, q, n + 1)
  {
    RoundsInFront(all, [], q, n);
    IterationsLeft(pending, q);
  }

  /** More batches behind. */
  lemma QueueInRounds(pending: seq<Batch>, all: seq<Batch>, more: seq<Batch>, q: nat, n: nat)
    requires q > 0 && Stands(pending, all, q, n) && NoneEmpty(more)
    ensures Stands(pending + more, all + more, q, n)
  {
    RoundsInFront(all, more, q, n);
    IterationsGrow(all, more, q);
  }

  lemma {:induction false} IterationsGrow(batches: seq<Batch>, more: seq<Batch>, q: nat)
    requires q > 0
    ensures Iterations(batches + more, q) >= Iterations(batches, q)
  {
    if batches != [] {
      assert (batches + more)[1..] == batches[1..] + more;
      IterationsGrow(batches[1..], more, q);
    }
  }

  lemma StandsStep(c: Config, s: State, step: Step, all: seq<Batch>, n: nat)
    requires Core(c, s) && Enabled(c, s, step) && Defined(c, s, step) && Stands(s.pending, all, c.quantum, n)
    ensures Stands(Next(c, s, step).pending, all + QueuedBy(c, s, step), c.quantum,
                   n + if step.WriterFinish? then 1 else 0)
  {
    hide *;
    PendingStep(c, s, step);
    if step.WriterFinish? {
      assert all + [] == all;
      FinishInRounds(s.pending, all, c.quantum, n);
    } else {
      QueueInRounds(s.pending, all, QueuedBy(c, s, step), c.quantum, n);
    }
  }

  lemma StandsAtOnce(c: Config, s: State)
    requires Core(c, s)
    ensures Stands(s.pending, s.pending + [], c.quantum, 0)
  {
    assert s.pending + [] == s.pending;
  }

  lemma QueuedStep(c: Config, states: seq<State>, steps: seq<Step>, from: nat, k: nat)
    requires from <= k < |steps| < |states|
    ensures Queued(c, states, steps, from, k + 1) ==
            Queued(c, states, steps, from, k) + QueuedBy(c, states[k], steps[k])
  {
  }

  /** The pending queue is what was pending and what was queued since, less the finished rounds. */
  lemma {:induction false} PendingInRun(c: Config, states: seq<State>, steps: seq<Step>, from: nat, to: nat)
    requires c.quantum > 0 && IsRun(c, states, steps) && from <= to <= |steps| < |states|
    ensures Stands(states[to].pending, states[from].pending + Queued(c, states, steps, from, to), c.quantum,
                   Finishes(steps[from..to]))
  {
    hide *;
    NoFinishes(steps, from);
    if from == to {
      CoreInRun(c, states, steps, from);
      StandsAtOnce(c, states[from]);
      NothingQueued(c, states, steps, from);
    } else {
      var k := to - 1;
      var all := states[from].pending + Queued(c, states, steps, from, k);
      PendingInRun(c, states, steps, from, k);
      CoreInRun(c, states, steps, k);
      RunStep(c, states, steps, k);
      StandsStep(c, states[k], steps[k], all, Finishes(steps[from..k]));
      FinishesStep(steps, from, k);
      QueuedStep(c, states, steps, from, k);
      assert all + QueuedBy(c, states[k], steps[k])
          == states[from].pending + (Queued(c, states, steps, from, k) + QueuedBy(c, states[k], steps[k]));
    }
  }

  lemma NothingQueued(c: Config, states: seq<State>, steps: seq<Step>, at: nat)
    requires at <= |steps| < |states|
    ensures Queued(c, states, steps, at, at) == []
  {
  }

  /** Bounded wait, whatever is posted meanwhile: what was pending is off the queue after exactly as
      many finished iterations as it takes rounds; until then the newer batches wait untouched behind
      it, afterwards only they are left. */
  lemma ServedInTurn(c: Config, states: seq<State>, steps: seq<Step>, from: nat, to: nat)
    requires c.quantum > 0 && IsRun(c, states, steps) && from <= to < |states|
    ensures |states| == |steps| + 1
    ensures var was, since, n := states[from].pending, Queued(c, states, steps, from, to), Finishes(steps[from..to]);
            var rounds := Iterations(was, c.quantum);
            if n < rounds then
              && AfterRounds(was, c.quantum, n) != []
              && states[to].pending == AfterRounds(was, c.quantum, n) + since
            else
              && AfterRounds(was, c.quantum, rounds) == []
              && states[to].pending == AfterRounds(since, c.quantum, n - rounds)
  {
    hide *;
    RunShape(c, states, steps);
    PendingInRun(c, states, steps, from, to);
    CoreInRun(c, states, steps, from);
    PendingNoneEmpty(c, states[from]);
    var since, n := Queued(c, states, steps, from, to), Finishes(steps[from..to]);
    StandsIs(states[to].pending, states[from].pending + since, c.quantum, n);
    RoundsSplit(states[from].pending, since, c.quantum, n);
  }

  lemma PendingNoneEmpty(c: Config, s: State)
    requires Core(c, s)
    ensures NoneEmpty(s.pending)
  {
  }

  lemma StandsIs(pending: seq<Batch>, all: seq<Batch>, q: nat, n: nat)
    requires q > 0 && Stands(pending, all, q, n)
    ensures pending == AfterRounds(all, q, n)
  {
  }

  /** Rounds go to the batches in front first, then to those behind. */
  lemma RoundsSplit(was: seq<Batch>, since: seq<Batch>, q: nat, n: nat)
    requires q > 0 && NoneEmpty(was)
    ensures var rounds := Iterations(was, q);
            if n < rounds then
              AfterRounds(was, q, n) != [] && AfterRounds(was + since, q, n) == AfterRounds(was, q, n) + since
            else
              AfterRounds(was, q, rounds) == [] && AfterRounds(was + since, q, n) == AfterRounds(since, q, n - rounds)
  {
    hide Iterations, NoneEmpty, OneRound, AfterRounds;
    var rounds := Iterations(was, q);
    var m := Min(n, rounds);
    RoundsInFront(was, since, q, m);
    IterationsLeft(AfterRounds(was, q, m), q);
    if n >= rounds {
      RoundsInTurn(was + since, q, rounds, n - rounds);
      assert [] + since == since;
    }
  }
}
