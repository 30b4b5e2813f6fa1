/** The invariants of the event pipeline, each kept by every step. */
module EventPipelineInv {
  import opened Common
  import opened SensorTypes
  import opened EventPipelineSpec

  // ---------------------------------------------------------------- control and accounting

  /** The size counter is the number of pending events, within its bound; no batch is empty. */
  predicate Accounting(c: Config, s: State) {
    && s.size == TotalLength(s.pending)
    && s.size <= s.most <= c.maxPending
    && (forall i :: 0 <= i < |s.pending| ==> s.pending[i].events != [])
    && |s.queue| <= c.quantum
  }

  /** Who is where. The batch the writer works on is still the front of the pending queue, as it
      was when the writer took it; a direct write goes on only while nothing is pending. */
  predicate Control(c: Config, s: State) {
    && (s.writer.Writing? || s.writer.Attempted? ==>
          && s.pending != [] && s.pending[0] == s.writer.front
          && s.writer.count == Min(|s.pending[0].events|, c.quantum))
    && (s.writer == Sleeping(false) ==> s.pending == [])
    && (s.poster.Direct? ==>
          && s.pending == [] && 0 < s.poster.count <= |s.poster.events|
          && |s.queue| + s.poster.count <= c.quantum)
    && (s.poster.Remainder? ==>
          && s.poster.count <= |s.poster.events| && (s.poster.count > 0 ==> s.pending == []))
    && (!s.poster.Outside? ==> |s.poster.events| <= |s.history.posted|)
  }

  predicate Core(c: Config, s: State) {
    c.quantum > 0 && Accounting(c, s) && Control(c, s)
  }

  lemma {:induction false} FlattenAppend(batches: seq<Batch>, b: Batch)
    ensures Flatten(batches + [b]) == Flatten(batches) + b.events
  {
    if batches == [] {
    } else {
      assert (batches + [b])[1..] == batches[1..] + [b];
      FlattenAppend(batches[1..], b);
    }
  }

  lemma EnabledIsDefined(c: Config, s: State, step: Step)
    requires Core(c, s) && Enabled(c, s, step)
    requires |s.history.pending| == |Unattempted(s)|
    ensures Defined(c, s, step)
  {
  }

  lemma PostLeaveKeepsCore(c: Config, s: State)
    requires Core(c, s) && Enabled(c, s, PostLeave) && Defined(c, s, PostLeave)
    ensures Core(c, AfterPostLeave(c, s))
  {
    var s' := AfterPostLeave(c, s);
    if |s'.pending| != |s.pending| {
      FlattenAppend(s.pending, s'.pending[|s.pending|]);
    }
  }

  lemma StepKeepsCore(c: Config, s: State, step: Step)
    requires Core(c, s) && Enabled(c, s, step) && Defined(c, s, step)
    ensures Core(c, Next(c, s, step))
  {
    if step.PostLeave? {
      PostLeaveKeepsCore(c, s);
    }
  }

  // ---------------------------------------------------------------- order

  predicate Increasing(xs: seq<nat>) {
    forall i, j :: 0 <= i < j < |xs| ==> xs[i] < xs[j]
  }

  predicate Below(xs: seq<nat>, n: nat) {
    forall i :: 0 <= i < |xs| ==> xs[i] < n
  }

  /** `events` are the posted events at the positions `at`, in that order. */
  predicate At(posted: seq<Event>, at: seq<nat>, events: seq<Event>) {
    && |at| == |events|
    && forall i :: 0 <= i < |at| ==> at[i] < |posted| && events[i] == posted[at[i]]
  }

  /** Events that reached the event queue, read by the framework or not. */
  function Sent(s: State): seq<Event> {
    s.consumed + s.queue
  }

  /** Pending events no write has been attempted on yet. */
  function Unattempted(s: State): seq<Event> {
    if s.writer.Attempted? && s.writer.count <= TotalLength(s.pending)
    then Flatten(s.pending)[s.writer.count..] else Flatten(s.pending)
  }

  /** Events of the post in progress that are neither written nor queued yet. */
  function InHand(s: State): seq<Event> {
    match s.poster
    case Outside => []
    case Direct(events, _, _) => events
    case Remainder(events, _, count) => if count <= |events| then events[count..] else []
  }

  /** Positions below base have left the poster's hand; the rest are what it still holds. */
  predicate Ordered(h: History, inHand: seq<Event>, sent: seq<Event>, unattempted: seq<Event>) {
    && |inHand| <= |h.posted| && inHand == h.posted[|h.posted| - |inHand|..]
    && Below(h.written + h.pending, |h.posted| - |inHand|)
    && Increasing(h.written + h.pending)
    && At(h.posted, h.written + h.pending, sent + unattempted)
    && |h.written| == |sent|
  }

  predicate Order(s: State) {
    Ordered(s.history, InHand(s), Sent(s), Unattempted(s))
  }

  lemma OrderedParts(h: History, inHand: seq<Event>, sent: seq<Event>, unattempted: seq<Event>)
    requires Ordered(h, inHand, sent, unattempted)
    ensures At(h.posted, h.written, sent) && At(h.posted, h.pending, unattempted)
  {
    var at, events := h.written + h.pending, sent + unattempted;
    assert forall i :: 0 <= i < |h.written| ==> h.written[i] == at[i] && sent[i] == events[i];
    assert forall i :: 0 <= i < |h.pending| ==>
      h.pending[i] == at[|h.written| + i] && unattempted[i] == events[|h.written| + i];
  }

  lemma OrderedPost(h: History, h': History, events: seq<Event>, sent: seq<Event>, unattempted: seq<Event>)
    requires Ordered(h, [], sent, unattempted)
    requires h' == h.(posted := h.posted + events)
    ensures Ordered(h', events, sent, unattempted)
  {
  }

  /** Behind everything sent or pending comes what the poster holds. */
  lemma OrderedHandOver(h: History, at: seq<nat>, inHand: seq<Event>, n: nat, events: seq<Event>)
    requires |inHand| <= |h.posted| && inHand == h.posted[|h.posted| - |inHand|..] && n <= |inHand|
    requires Below(at, |h.posted| - |inHand|) && Increasing(at) && At(h.posted, at, events)
    ensures var base := |h.posted| - |inHand|;
            var now := at + Range(base, base + n);
            Below(now, base + n) && Increasing(now) && At(h.posted, now, events + inHand[..n])
  {
    var base := |h.posted| - |inHand|;
    var now, moved := at + Range(base, base + n), events + inHand[..n];
    forall i | |at| <= i < |now| ensures now[i] == base + (i - |at|) && moved[i] == h.posted[now[i]] {
      assert now[i] == Range(base, base + n)[i - |at|];
    }
  }

  lemma OrderedWriteDirect(h: History, h': History, inHand: seq<Event>, n: nat, sent: seq<Event>)
    requires Ordered(h, inHand, sent, []) && n <= |inHand| && h.pending == []
    requires h' == h.(written := h.written + Range(|h.posted| - |inHand|, |h.posted| - |inHand| + n))
    ensures Ordered(h', inHand[n..], sent + inHand[..n], [])
  {
    assert h.written + h.pending == h.written && h'.written + h'.pending == h'.written;
    assert sent + [] == sent && sent + inHand[..n] + [] == sent + inHand[..n];
    OrderedHandOver(h, h.written, inHand, n, sent);
  }

  lemma OrderedQueue(h: History, h': History, inHand: seq<Event>, sent: seq<Event>, unattempted: seq<Event>)
    requires Ordered(h, inHand, sent, unattempted)
    requires h'.posted == h.posted && h'.written == h.written
    requires h'.pending == h.pending + Range(|h.posted| - |inHand|, |h.posted|)
    ensures Ordered(h', [], sent, unattempted + inHand)
  {
    assert inHand[..|inHand|] == inHand;
    assert h'.written + h'.pending == (h.written + h.pending) + Range(|h.posted| - |inHand|, |h.posted|);
    assert sent + (unattempted + inHand) == (sent + unattempted) + inHand;
    OrderedHandOver(h, h.written + h.pending, inHand, |inHand|, sent + unattempted);
  }

  lemma OrderedDrop(h: History, h': History, inHand: seq<Event>, sent: seq<Event>, unattempted: seq<Event>)
    requires Ordered(h, inHand, sent, unattempted)
    requires h'.posted == h.posted && h'.written == h.written && h'.pending == h.pending
    ensures Ordered(h', [], sent, unattempted)
  {
  }

  lemma OrderedCut(h: History, h': History, inHand: seq<Event>, sent: seq<Event>, unattempted: seq<Event>, n: nat)
    requires Ordered(h, inHand, sent, unattempted) && n <= |h.pending|
    requires h'.posted == h.posted && h'.written == h.written && h'.pending == h.pending[n..]
    ensures Ordered(h', inHand, sent, unattempted[n..])
  {
    var was, now, w := h.written + h.pending, h'.written + h'.pending, |h.written|;
    var events, events' := sent + unattempted, sent + unattempted[n..];
    forall i | 0 <= i < |now|
      ensures var k := if i < w then i else i + n; now[i] == was[k] && events'[i] == events[k]
    {
    }
  }

  lemma OrderedSend(h: History, h': History, inHand: seq<Event>, sent: seq<Event>, unattempted: seq<Event>, n: nat)
    requires Ordered(h, inHand, sent, unattempted) && n <= |h.pending|
    requires h'.posted == h.posted
    requires h'.written == h.written + h.pending[..n] && h'.pending == h.pending[n..]
    ensures Ordered(h', inHand, sent + unattempted[..n], unattempted[n..])
  {
    assert (sent + unattempted[..n]) + unattempted[n..] == sent + unattempted;
    assert h'.written + h'.pending == h.written + h.pending;
  }

  // What the steps do to the three views. These lemmas do not look at positions.

  lemma DirectWriteViews(c: Config, s: State)
    requires Core(c, s) && Enabled(c, s, DirectWrite(true)) && Defined(c, s, DirectWrite(true))
    ensures var s', n := AfterDirectWrite(c, s, true), s.poster.count;
            && Unattempted(s) == [] == Unattempted(s')
            && InHand(s') == InHand(s)[n..]
            && Sent(s') == Sent(s) + InHand(s)[..n]
  {
  }

  /** Queueing behind what is pending adds to the unattempted events. */
  lemma UnattemptedAppend(s: State, s': State, b: Batch)
    requires s.writer.Attempted? ==> s.writer.count <= TotalLength(s.pending)
    requires s'.pending == s.pending + [b]
    requires s'.writer == if s.writer.Sleeping? then Sleeping(true) else s.writer
    ensures Unattempted(s') == Unattempted(s) + b.events
  {
    FlattenAppend(s.pending, b);
    assert |Flatten(s'.pending)| == TotalLength(s'.pending);
  }

  /** The end of a post queues what is in hand, or nothing. */
  lemma PostLeaveQueues(c: Config, s: State)
    requires Enabled(c, s, PostLeave) && Defined(c, s, PostLeave)
    ensures var s', left := AfterPostLeave(c, s), InHand(s);
            && s'.poster == Outside
            && if left != [] && s.size + |left| <= c.maxPending then
                 && s'.pending == s.pending + [Batch(left, s.poster.wakeUps)]
                 && s'.writer == (if s.writer.Sleeping? then Sleeping(true) else s.writer)
               else s'.pending == s.pending && s'.writer == s.writer
  {
    var p := s.poster;
    assert InHand(s) == p.events[p.count..] && |InHand(s)| == |p.events| - p.count;
    assert InHand(s) != [] <==> p.count < |p.events|;
    hide InHand;
  }

  lemma PostLeaveViews(c: Config, s: State)
    requires Control(c, s) && Enabled(c, s, PostLeave) && Defined(c, s, PostLeave)
    requires s.writer.Attempted? ==> s.writer.count <= TotalLength(s.pending)
    ensures var s' := AfterPostLeave(c, s);
            && InHand(s') == []
            && Unattempted(s') == (if s'.pending == s.pending then Unattempted(s) else Unattempted(s) + InHand(s))
            && (s'.pending != s.pending <==> InHand(s) != [] && s.size + |InHand(s)| <= c.maxPending)
  {
    PostLeaveQueues(c, s);
    var s', left := AfterPostLeave(c, s), InHand(s);
    assert InHand(s') == [];
    if left != [] && s.size + |left| <= c.maxPending {
      hide Control, AfterPostLeave, InHand, Unattempted;
      UnattemptedAppend(s, s', Batch(left, s.poster.wakeUps));
      assert |s'.pending| != |s.pending|;
    } else {
      hide Control, AfterPostLeave, InHand, Flatten;
    }
  }

  lemma FrontOfFlatten(batches: seq<Batch>, n: nat)
    requires batches != [] && n <= |batches[0].events|
    ensures Flatten(batches)[..n] == batches[0].events[..n]
    ensures Flatten(batches)[n..] == batches[0].events[n..] + Flatten(batches[1..])
  {
  }

  lemma WriterWriteViews(c: Config, s: State, ok: bool)
    requires Enabled(c, s, WriterWrite(ok)) && Defined(c, s, WriterWrite(ok))
    ensures var s', n, u := AfterWriterWrite(c, s, ok), s.writer.count, Unattempted(s);
            && n <= |u| && Unattempted(s') == u[n..]
            && Sent(s') == Sent(s) + if ok then u[..n] else []
  {
    FrontOfFlatten(s.pending, s.writer.count);
  }

  lemma WriterFinishViews(c: Config, s: State)
    requires Core(c, s) && Enabled(c, s, WriterFinish) && Defined(c, s, WriterFinish)
    ensures Unattempted(AfterWriterFinish(c, s)) == Unattempted(s)
  {
    FrontOfFlatten(s.pending, s.writer.count);
  }

  lemma ReadViews(s: State, n: nat)
    requires n <= |s.queue|
    ensures s.consumed + s.queue[..n] + s.queue[n..] == Sent(s)
  {
  }

  lemma DirectWriteKeepsOrder(c: Config, s: State)
    requires Core(c, s) && Order(s) && Enabled(c, s, DirectWrite(true)) && Defined(c, s, DirectWrite(true))
    ensures Order(AfterDirectWrite(c, s, true))
  {
    DirectWriteViews(c, s);
    var s' := AfterDirectWrite(c, s, true);
    assert s.history.pending == [];
    OrderedWriteDirect(s.history, s'.history, InHand(s), s.poster.count, Sent(s));
  }

  /** What the end of a post does to the history. */
  lemma PostLeaveHistory(c: Config, s: State)
    requires Control(c, s) && Enabled(c, s, PostLeave) && Defined(c, s, PostLeave)
    ensures var s' := AfterPostLeave(c, s); var h, h', left := s.history, s'.history, |InHand(s)|;
            && Sent(s') == Sent(s) && h'.posted == h.posted && h'.written == h.written && left <= |h.posted|
            && h'.pending == if s'.pending == s.pending then h.pending
                             else h.pending + Range(|h.posted| - left, |h.posted|)
  {
    var s' := AfterPostLeave(c, s);
    assert |s'.pending| == |s.pending| ==> s'.pending == s.pending;
  }

  lemma PostLeaveKeepsOrder(c: Config, s: State)
    requires Core(c, s) && Order(s) && Enabled(c, s, PostLeave) && Defined(c, s, PostLeave)
    ensures Order(AfterPostLeave(c, s))
  {
    hide *;
    OrderSpelledOut(s);
    CoreControl(c, s);
    PostLeaveViews(c, s);
    PostLeaveHistory(c, s);
    var s' := AfterPostLeave(c, s);
    if s'.pending != s.pending {
      OrderedQueue(s.history, s'.history, InHand(s), Sent(s), Unattempted(s));
    } else {
      OrderedDrop(s.history, s'.history, InHand(s), Sent(s), Unattempted(s));
    }
    OrderFrom(s');
  }

  lemma CoreControl(c: Config, s: State)
    requires Core(c, s)
    ensures Control(c, s) && (s.writer.Attempted? ==> s.writer.count <= TotalLength(s.pending))
  {
  }

  lemma OrderSpelledOut(s: State)
    requires Order(s)
    ensures Ordered(s.history, InHand(s), Sent(s), Unattempted(s))
  {
  }

  lemma OrderFrom(s: State)
    requires Ordered(s.history, InHand(s), Sent(s), Unattempted(s))
    ensures Order(s)
  {
  }

  lemma WriterWriteKeepsOrder(c: Config, s: State, ok: bool)
    requires Order(s) && Enabled(c, s, WriterWrite(ok)) && Defined(c, s, WriterWrite(ok))
    ensures Order(AfterWriterWrite(c, s, ok))
  {
    WriterWriteViews(c, s, ok);
    var s' := AfterWriterWrite(c, s, ok);
    if ok {
      OrderedSend(s.history, s'.history, InHand(s), Sent(s), Unattempted(s), s.writer.count);
    } else {
      OrderedCut(s.history, s'.history, InHand(s), Sent(s), Unattempted(s), s.writer.count);
    }
  }

  lemma StepKeepsOrder(c: Config, s: State, step: Step)
    requires Core(c, s) && Order(s) && Enabled(c, s, step) && Defined(c, s, step)
    ensures Order(Next(c, s, step))
  {
    match step
    case PostEnter(_, corrected, _) =>
      OrderedPost(s.history, Next(c, s, step).history, corrected, Sent(s), Unattempted(s));
    case DirectWrite(ok) => if ok { DirectWriteKeepsOrder(c, s); }
    case PostLeave => PostLeaveKeepsOrder(c, s);
    case WriterWrite(ok) => WriterWriteKeepsOrder(c, s, ok);
    case WriterFinish => WriterFinishViews(c, s);
    case Read(n) => ReadViews(s, n);
    case _ =>
  }

  // ---------------------------------------------------------------- conservation

  function One(b: bool): nat { if b then 1 else 0 }

  /** In how many of the four lists a position is. */
  function FateCount(h: History, i: nat): nat {
    One(i in h.written) + One(i in h.pending) + One(i in h.overflowed) + One(i in h.failed)
  }

  /** Positions below base have exactly one fate, the others none yet. */
  ghost predicate Conserved(h: History, base: nat) {
    forall i: nat :: FateCount(h, i) == One(i < base)
  }

  ghost predicate Conservation(s: State) {
    |InHand(s)| <= |s.history.posted| && Conserved(s.history, |s.history.posted| - |InHand(s)|)
  }

  lemma InRange(from: nat, to: nat, i: nat)
    requires from <= to
    ensures i in Range(from, to) <==> from <= i < to
  {
    if from <= i < to {
      assert Range(from, to)[i - from] == i;
    }
  }

  /** The next positions are given one fate. */
  lemma ConservedAppend(h: History, h': History, base: nat, to: nat)
    requires base <= to && Conserved(h, base) && h'.failed == h.failed
    requires var more := Range(base, to);
             || (h'.written == h.written + more && h'.pending == h.pending && h'.overflowed == h.overflowed)
             || (h'.written == h.written && h'.pending == h.pending + more && h'.overflowed == h.overflowed)
             || (h'.written == h.written && h'.pending == h.pending && h'.overflowed == h.overflowed + more)
    ensures Conserved(h', to)
  {
    forall i: nat ensures FateCount(h', i) == One(i < to) {
      assert FateCount(h, i) == One(i < base);
      InRange(base, to, i);
    }
  }

  /** The oldest pending positions are written or lost. */
  lemma ConservedMove(h: History, h': History, base: nat, n: nat)
    requires Conserved(h, base) && n <= |h.pending| && Increasing(h.written + h.pending)
    requires h'.pending == h.pending[n..] && h'.overflowed == h.overflowed
    requires var moved := h.pending[..n];
             || (h'.written == h.written + moved && h'.failed == h.failed)
             || (h'.written == h.written && h'.failed == h.failed + moved)
    ensures Conserved(h', base)
  {
    IncreasingSuffix(h.written, h.pending);
    forall i: nat ensures FateCount(h', i) == One(i < base) {
      assert FateCount(h, i) == One(i < base);
      InOnePart(h.pending, n, i);
    }
  }

  /** An element of an increasing list is in one part of it. */
  lemma InOnePart(xs: seq<nat>, n: nat, i: nat)
    requires n <= |xs| && Increasing(xs)
    ensures One(i in xs) == One(i in xs[..n]) + One(i in xs[n..])
  {
    assert xs == xs[..n] + xs[n..];
    if i in xs[..n] {
      var j :| 0 <= j < n && xs[j] == i;
      assert forall k :: n <= k < |xs| ==> xs[j] < xs[k];
    }
  }

  lemma IncreasingSuffix(a: seq<nat>, b: seq<nat>)
    requires Increasing(a + b)
    ensures Increasing(b)
  {
    forall i, j | 0 <= i < j < |b| ensures b[i] < b[j] {
      assert (a + b)[|a| + i] < (a + b)[|a| + j];
    }
  }

  lemma ConservedSame(h: History, h': History, base: nat)
    requires Conserved(h, base) && h'.written == h.written && h'.pending == h.pending
    requires h'.overflowed == h.overflowed && h'.failed == h.failed
    ensures Conserved(h', base)
  {
    forall i: nat ensures FateCount(h', i) == One(i < base) {
      assert FateCount(h, i) == One(i < base);
    }
  }

  lemma StepKeepsConservation(c: Config, s: State, step: Step)
    requires Increasing(s.history.written + s.history.pending)
    requires Conservation(s) && Enabled(c, s, step) && Defined(c, s, step)
    ensures Conservation(Next(c, s, step))
  {
    var h, h' := s.history, Next(c, s, step).history;
    var base := |h.posted| - |InHand(s)|;
    match step
    case DirectWrite(ok) => if ok { ConservedAppend(h, h', base, base + s.poster.count); }
    case PostLeave => ConservedAppend(h, h', base, |h.posted|);
    case WriterWrite(_) => ConservedMove(h, h', base, s.writer.count);
    case _ => ConservedSame(h, h', base);
  }

  // ---------------------------------------------------------------- conservation in numbers

  /** Lost and pending positions, and those dropped, each come once and in order, below base; the four
      lists together hold as many positions as there are below base. */
  predicate Tallied(h: History, base: nat) {
    && Increasing(h.failed + h.pending) && Below(h.failed + h.pending, base)
    && Increasing(h.overflowed) && Below(h.overflowed, base)
    && |h.written| + |h.pending| + |h.overflowed| + |h.failed| == base
  }

  predicate Tally(s: State) {
    |InHand(s)| <= |s.history.posted| && Tallied(s.history, |s.history.posted| - |InHand(s)|)
  }

  /** Fresh positions go behind all others. */
  lemma IncreasingAppend(xs: seq<nat>, base: nat, to: nat)
    requires base <= to && Increasing(xs) && Below(xs, base)
    ensures Increasing(xs + Range(base, to)) && Below(xs + Range(base, to), to)
  {
    var more := xs + Range(base, to);
    assert forall i :: |xs| <= i < |more| ==> more[i] == base + (i - |xs|);
    assert forall i :: 0 <= i < |xs| ==> more[i] == xs[i] < base;
  }

  lemma TalliedAppend(h: History, h': History, base: nat, to: nat)
    requires base <= to && Tallied(h, base) && h'.failed == h.failed
    requires var more := Range(base, to);
             || (h'.written == h.written + more && h'.pending == h.pending && h'.overflowed == h.overflowed)
             || (h'.written == h.written && h'.pending == h.pending + more && h'.overflowed == h.overflowed)
             || (h'.written == h.written && h'.pending == h.pending && h'.overflowed == h.overflowed + more)
    ensures Tallied(h', to)
  {
    assert h.failed + (h.pending + Range(base, to)) == (h.failed + h.pending) + Range(base, to);
    IncreasingAppend(h.failed + h.pending, base, to);
    IncreasingAppend(h.overflowed, base, to);
    BelowMore(h.failed + h.pending, base, to);
    BelowMore(h.overflowed, base, to);
    hide Increasing, Below;
  }

  lemma BelowMore(xs: seq<nat>, base: nat, to: nat)
    requires base <= to && Below(xs, base)
    ensures Below(xs, to)
  {
  }

  lemma TalliedMove(h: History, h': History, base: nat, n: nat)
    requires Tallied(h, base) && n <= |h.pending|
    requires h'.pending == h.pending[n..] && h'.overflowed == h.overflowed
    requires var moved := h.pending[..n];
             || (h'.written == h.written + moved && h'.failed == h.failed)
             || (h'.written == h.written && h'.failed == h.failed + moved)
    ensures Tallied(h', base)
  {
    assert h.failed + h.pending[..n] + h.pending[n..] == h.failed + h.pending;
    var was, now, f := h.failed + h.pending, h.failed + h.pending[n..], |h.failed|;
    assert forall i :: 0 <= i < |now| ==> now[i] == was[if i < f then i else i + n];
    assert Increasing(now) && Below(now, base);
    hide Increasing, Below;
  }

  lemma StepKeepsTally(c: Config, s: State, step: Step)
    requires Tally(s) && Enabled(c, s, step) && Defined(c, s, step)
    ensures Tally(Next(c, s, step))
  {
    hide Tallied;
    var h, h' := s.history, Next(c, s, step).history;
    var base := |h.posted| - |InHand(s)|;
    match step
    case PostEnter(_, _, _) => TalliedSame(h, h', base);
    case DirectWrite(ok) => if ok { TalliedAppend(h, h', base, base + s.poster.count); }
    case PostLeave => TalliedAppend(h, h', base, |h.posted|);
    case WriterWrite(_) => TalliedMove(h, h', base, s.writer.count);
    case _ =>
  }

  lemma TalliedSame(h: History, h': History, base: nat)
    requires Tallied(h, base) && h'.written == h.written && h'.pending == h.pending
    requires h'.overflowed == h.overflowed && h'.failed == h.failed
    ensures Tallied(h', base)
  {
  }

  // ---------------------------------------------------------------- posts

  function InProgress(s: State): nat {
    if s.poster.Outside? then 0 else |s.poster.events|
  }

  /** The finished posts cover the positions up to `end`, in order and without gaps. */
  predicate Tiled(postings: seq<Posting>, end: nat) {
    && (forall k :: 0 <= k < |postings| ==>
          postings[k].first <= postings[k].direct <= postings[k].end <= end)
    && (forall k :: 0 < k < |postings| ==> postings[k].first == postings[k - 1].end)
    && (postings != [] ==> postings[0].first == 0)
    && end == if postings == [] then 0 else postings[|postings| - 1].end
  }

  /** The direct part of a post is written; its remainder is dropped for lack of space either
      as a whole or not at all. */
  predicate Settled(h: History, p: Posting) {
    && (forall i :: p.first <= i < p.direct ==> i in h.written)
    && (forall i :: p.direct <= i < p.end ==> (i in h.overflowed <==> !p.queued))
  }

  /** The post in progress has `length` events, of which `left` are still in hand. */
  predicate Posted(h: History, length: nat, left: nat) {
    && left <= length <= |h.posted|
    && Tiled(h.postings, |h.posted| - length)
    && (forall k :: 0 <= k < |h.postings| ==> Settled(h, h.postings[k]))
    && (forall i :: |h.posted| - length <= i < |h.posted| - left ==> i in h.written)
    && Below(h.overflowed, |h.posted| - left)
  }

  predicate Posts(s: State) {
    Posted(s.history, InProgress(s), |InHand(s)|)
  }

  lemma PostedMonotone(h: History, h': History, length: nat, left: nat)
    requires Posted(h, length, left)
    requires h'.posted == h.posted && h'.postings == h.postings && h'.overflowed == h.overflowed
    requires forall i :: i in h.written ==> i in h'.written
    ensures Posted(h', length, left)
  {
    forall k | 0 <= k < |h.postings| ensures Settled(h', h.postings[k]) {
      assert Settled(h, h.postings[k]);
    }
  }

  lemma PostedEnter(h: History, h': History, events: seq<Event>)
    requires Posted(h, 0, 0) && h' == h.(posted := h.posted + events)
    ensures Posted(h', |events|, |events|)
  {
    forall k | 0 <= k < |h.postings| ensures Settled(h', h.postings[k]) {
      assert Settled(h, h.postings[k]);
    }
  }

  lemma PostedDirect(h: History, h': History, length: nat, n: nat)
    requires n <= length && Posted(h, length, length)
    requires h' == h.(written := h.written + Range(|h.posted| - length, |h.posted| - length + n))
    ensures Posted(h', length, length - n)
  {
    PostedMonotone(h, h', length, length);
    var first := |h.posted| - length;
    forall i | first <= i < first + n ensures i in h'.written {
      assert Range(first, first + n)[i - first] == i;
    }
  }

  lemma TiledAppend(postings: seq<Posting>, end: nat, posting: Posting)
    requires Tiled(postings, end) && posting.first == end && end <= posting.direct <= posting.end
    ensures Tiled(postings + [posting], posting.end)
  {
  }

  /** Positions in hand are in the remainder and not dropped before. */
  lemma InHandIsFresh(h: History, base: nat, i: nat)
    requires Below(h.overflowed, base) && base <= i < |h.posted|
    ensures i in Range(base, |h.posted|) && i !in h.overflowed
  {
    assert Range(base, |h.posted|)[i - base] == i;
  }

  /** Dropping fresh positions unsettles no earlier post. */
  lemma SettledStays(h: History, h': History, p: Posting, base: nat)
    requires Settled(h, p) && p.end <= base <= |h.posted| && h'.written == h.written
    requires h'.overflowed == h.overflowed || h'.overflowed == h.overflowed + Range(base, |h.posted|)
    ensures Settled(h', p)
  {
    assert forall i :: i in Range(base, |h.posted|) ==> i >= base;
  }

  lemma SettledNow(h: History, h': History, p: Posting)
    requires p.direct <= p.end == |h.posted| && Below(h.overflowed, p.direct) && h'.written == h.written
    requires forall i :: p.first <= i < p.direct ==> i in h.written
    requires h'.overflowed == if p.queued then h.overflowed else h.overflowed + Range(p.direct, |h.posted|)
    ensures Settled(h', p)
  {
    forall i | p.direct <= i < p.end ensures i in h'.overflowed <==> !p.queued {
      InHandIsFresh(h, p.direct, i);
    }
  }

  lemma PostedLeave(h: History, h': History, length: nat, left: nat, queued: bool)
    requires Posted(h, length, left)
    requires var remainder := Range(|h.posted| - left, |h.posted|);
             var posting := Posting(|h.posted| - length, |h.posted| - left, |h.posted|, queued);
             && h'.postings == h.postings + [posting] && h'.posted == h.posted && h'.written == h.written
             && h'.overflowed == if queued then h.overflowed else h.overflowed + remainder
    ensures Posted(h', 0, 0)
  {
    hide Tiled, Settled;
    var base, posting := |h.posted| - left, h'.postings[|h.postings|];
    TiledAppend(h.postings, |h.posted| - length, posting);
    SettledNow(h, h', posting);
    EarlierStaySettled(h, h', |h.posted| - length, base);
    assert Below(h'.overflowed, |h.posted|);
  }

  /** What the end of a post does unsettles no earlier post. */
  lemma EarlierStaySettled(h: History, h': History, end: nat, base: nat)
    requires Tiled(h.postings, end) && end <= base <= |h.posted| && h'.written == h.written
    requires forall k :: 0 <= k < |h.postings| ==> Settled(h, h.postings[k])
    requires h'.overflowed == h.overflowed || h'.overflowed == h.overflowed + Range(base, |h.posted|)
    ensures forall k :: 0 <= k < |h.postings| ==> Settled(h', h.postings[k])
  {
    hide Tiled, Settled;
    forall k | 0 <= k < |h.postings| ensures Settled(h', h.postings[k]) {
      PostingEnds(h.postings, end, k);
      SettledStays(h, h', h.postings[k], base);
    }
  }

  lemma PostingEnds(postings: seq<Posting>, end: nat, k: nat)
    requires Tiled(postings, end) && k < |postings|
    ensures postings[k].end <= end
  {
  }

  lemma PostEnterKeepsPosts(c: Config, s: State, raw: seq<Event>, corrected: seq<Event>, locked: bool)
    requires Posts(s)
    requires Enabled(c, s, PostEnter(raw, corrected, locked)) && Defined(c, s, PostEnter(raw, corrected, locked))
    ensures Posts(AfterPostEnter(c, s, raw, corrected, locked))
  {
    var s' := AfterPostEnter(c, s, raw, corrected, locked);
    PostedEnter(s.history, s'.history, corrected);
    assert InProgress(s') == |corrected| == |InHand(s')| && InProgress(s) == 0 == |InHand(s)|;
    hide Posted, AfterPostEnter;
  }

  lemma DirectWriteKeepsPosts(c: Config, s: State, ok: bool)
    requires Posts(s) && Enabled(c, s, DirectWrite(ok)) && Defined(c, s, DirectWrite(ok))
    ensures Posts(AfterDirectWrite(c, s, ok))
  {
    var s' := AfterDirectWrite(c, s, ok);
    if ok { PostedDirect(s.history, s'.history, InProgress(s), s.poster.count); }
    hide Posted;
  }

  lemma PostLeaveKeepsPosts(c: Config, s: State)
    requires Posts(s) && Enabled(c, s, PostLeave) && Defined(c, s, PostLeave)
    ensures Posts(AfterPostLeave(c, s))
  {
    hide Posted;
    var h, h' := s.history, AfterPostLeave(c, s).history;
    PostedLeave(h, h', InProgress(s), |InHand(s)|, h'.postings[|h.postings|].queued);
  }

  lemma StepKeepsPosts(c: Config, s: State, step: Step)
    requires Posts(s) && Enabled(c, s, step) && Defined(c, s, step)
    ensures Posts(Next(c, s, step))
  {
    hide Posted;
    match step
    case PostEnter(raw, corrected, locked) => PostEnterKeepsPosts(c, s, raw, corrected, locked);
    case DirectWrite(ok) => DirectWriteKeepsPosts(c, s, ok);
    case PostLeave => PostLeaveKeepsPosts(c, s);
    case _ => PostedMonotone(s.history, Next(c, s, step).history, InProgress(s), |InHand(s)|);
  }

  // ---------------------------------------------------------------- dropped and lost events

  /** The logs of dropped and lost events are the events at those positions. */
  predicate Logged(h: History) {
    At(h.posted, h.overflowed, h.dropped) && At(h.posted, h.failed, h.lost)
  }

  lemma AtConcat(posted: seq<Event>, a: seq<nat>, x: seq<Event>, b: seq<nat>, y: seq<Event>)
    requires At(posted, a, x) && At(posted, b, y)
    ensures At(posted, a + b, x + y)
  {
    var at, events := a + b, x + y;
    forall i | 0 <= i < |at| ensures at[i] < |posted| && events[i] == posted[at[i]] {
      if i >= |a| {
        assert at[i] == b[i - |a|] && events[i] == y[i - |a|];
      }
    }
  }

  lemma AtRange(posted: seq<Event>, from: nat)
    requires from <= |posted|
    ensures At(posted, Range(from, |posted|), posted[from..])
  {
  }

  lemma AtPrefix(posted: seq<Event>, at: seq<nat>, events: seq<Event>, n: nat)
    requires At(posted, at, events) && n <= |at|
    ensures At(posted, at[..n], events[..n])
  {
  }

  /** The end of a post drops what was in hand, or nothing. */
  lemma PostLeaveLogs(c: Config, s: State)
    requires Enabled(c, s, PostLeave) && Defined(c, s, PostLeave)
    ensures var h, h', left := s.history, AfterPostLeave(c, s).history, InHand(s);
            && |left| <= |h.posted| && h'.posted == h.posted && h'.failed == h.failed && h'.lost == h.lost
            && ((h'.overflowed == h.overflowed && h'.dropped == h.dropped)
                || (h'.overflowed == h.overflowed + Range(|h.posted| - |left|, |h.posted|)
                    && h'.dropped == h.dropped + left))
  {
  }

  lemma PostLeaveKeepsLogged(c: Config, s: State)
    requires Order(s) && Logged(s.history) && Enabled(c, s, PostLeave) && Defined(c, s, PostLeave)
    ensures Logged(AfterPostLeave(c, s).history)
  {
    var h, left := s.history, InHand(s);
    PostLeaveLogs(c, s);
    assert left == h.posted[|h.posted| - |left|..];
    hide Order, Logged, At, AfterPostLeave, InHand;
    AtRange(h.posted, |h.posted| - |left|);
    var h' := AfterPostLeave(c, s).history;
    if h'.overflowed == h.overflowed && h'.dropped == h.dropped {
      LoggedSame(h, h');
    } else {
      LoggedDrop(h, h', left);
    }
  }

  lemma LoggedDrop(h: History, h': History, events: seq<Event>)
    requires Logged(h) && |events| <= |h.posted|
    requires At(h.posted, Range(|h.posted| - |events|, |h.posted|), events)
    requires h'.posted == h.posted && h'.failed == h.failed && h'.lost == h.lost
    requires h'.overflowed == h.overflowed + Range(|h.posted| - |events|, |h.posted|)
    requires h'.dropped == h.dropped + events
    ensures Logged(h')
  {
    AtConcat(h.posted, h.overflowed, h.dropped, Range(|h.posted| - |events|, |h.posted|), events);
  }

  lemma WriterWriteKeepsLogged(c: Config, s: State, ok: bool)
    requires Order(s) && Logged(s.history) && Enabled(c, s, WriterWrite(ok)) && Defined(c, s, WriterWrite(ok))
    ensures Logged(AfterWriterWrite(c, s, ok).history)
  {
    var h, n, u := s.history, s.writer.count, Unattempted(s);
    OrderedParts(h, InHand(s), Sent(s), u);
    FrontOfFlatten(s.pending, n);
    assert u[..n] == s.pending[0].events[..n];
    hide Order, Ordered;
    AtPrefix(h.posted, h.pending, u, n);
    AtConcat(h.posted, h.failed, h.lost, h.pending[..n], u[..n]);
    hide At;
  }

  lemma StepKeepsLogged(c: Config, s: State, step: Step)
    requires Order(s) && Logged(s.history) && Enabled(c, s, step) && Defined(c, s, step)
    ensures Logged(Next(c, s, step).history)
  {
    hide Order, Logged;
    match step
    case PostEnter(_, corrected, _) => LoggedPost(s.history, corrected);
    case PostLeave => PostLeaveKeepsLogged(c, s);
    case WriterWrite(ok) => WriterWriteKeepsLogged(c, s, ok);
    case DirectWrite(ok) => LoggedSame(s.history, Next(c, s, step).history);
    case _ =>
  }

  lemma LoggedSame(h: History, h': History)
    requires Logged(h) && h'.posted == h.posted && h'.overflowed == h.overflowed && h'.failed == h.failed
    requires h'.dropped == h.dropped && h'.lost == h.lost
    ensures Logged(h')
  {
  }

  lemma LoggedPost(h: History, events: seq<Event>)
    requires Logged(h)
    ensures forall h' :: h' == h.(posted := h.posted + events) ==> Logged(h')
  {
  }
}
