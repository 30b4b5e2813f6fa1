/** The debounce of the pop-up camera motor: camera events, the handler's delayed messages and the
    motor commands they end in. Times are milliseconds of one clock. */
module CameraMotorSpec {

  const DELAY: int := 100
  const FRONT_CAMERA_ID: string := "1"

  /** Open raises the camera, Closed lowers it. */
  datatype What = Closed | Open

  function Opposite(w: What): What { if w == Open then Closed else Open }

  /** A front-camera event and the clock readings its callback takes, in order: the time stamp it
      stores, the reading it compares, and the one the handler adds the delay to. */
  datatype Event = Event(what: What, stamp: int, check: int, send: int) {
    predicate InOrder() { stamp <= check <= send }

    /** How long the callback took from the event's time stamp to the sending of its message. */
    function Lag(): int { send - stamp }
  }

  /** A message on the handler's queue; `event` is the position of the event that sent it. */
  datatype Message = Message(what: What, event: nat, due: int)

  /** A motor command, the event behind it and the time of delivery. */
  datatype Command = Command(direction: What, event: nat, at: int)

  datatype State = State(closedEvent: int, openEvent: int, queue: seq<Message>,
                         history: seq<Event>, commands: seq<Command>, clock: int)

  datatype Step = Camera(id: string, event: Event) | Deliver(now: int)

  const INIT := State(0, 0, [], [], [], 0)

  predicate HasMessages(queue: seq<Message>, what: What) {
    exists i :: 0 <= i < |queue| && queue[i].what == what
  }

  function RemoveMessages(queue: seq<Message>, what: What): seq<Message> {
    if queue == [] then []
    else
      RemoveMessages(queue[..|queue| - 1], what) +
      if queue[|queue| - 1].what == what then [] else [queue[|queue| - 1]]
  }

  /** The handler keeps its queue by due time, later arrivals behind. */
  function Enqueue(queue: seq<Message>, m: Message): seq<Message> {
    if queue == [] || queue[|queue| - 1].due <= m.due then queue + [m]
    else Enqueue(queue[..|queue| - 1], m) + [queue[|queue| - 1]]
  }

  function LastEvent(s: State, what: What): int {
    if what == Open then s.openEvent else s.closedEvent
  }

  /** An event within the delay of the last opposite one cancels the opposite messages. */
  function Kept(s: State, e: Event): seq<Message> {
    var other := Opposite(e.what);
    if e.check - LastEvent(s, other) < DELAY && HasMessages(s.queue, other)
    then RemoveMessages(s.queue, other) else s.queue
  }

  function AfterEvent(s: State, e: Event): State {
    s.(closedEvent := if e.what == Closed then e.stamp else s.closedEvent,
       openEvent := if e.what == Open then e.stamp else s.openEvent,
       queue := Enqueue(Kept(s, e), Message(e.what, |s.history|, e.send + DELAY)),
       history := s.history + [e],
       clock := e.send)
  }

  function AfterDelivery(s: State, now: int): State
    requires s.queue != []
  {
    var m := s.queue[0];
    s.(queue := s.queue[1..], commands := s.commands + [Command(m.what, m.event, now)], clock := now)
  }

  /** The clock does not go back, and the handler delivers its first message once it is due. */
  predicate Enabled(s: State, step: Step) {
    match step
    case Camera(_, e) => s.clock <= e.stamp && e.InOrder()
    case Deliver(now) => s.clock <= now && s.queue != [] && s.queue[0].due <= now
  }

  function Next(s: State, step: Step): State
    requires Enabled(s, step)
  {
    match step
    case Camera(id, e) => if id == FRONT_CAMERA_ID then AfterEvent(s, e) else s.(clock := e.send)
    case Deliver(now) => AfterDelivery(s, now)
  }

  predicate IsRun(states: seq<State>, steps: seq<Step>) {
    && |states| == |steps| + 1 && states[0] == INIT
    && forall i :: 0 <= i < |steps| ==>
         Enabled(states[i], steps[i]) && states[i + 1] == Next(states[i], steps[i])
  }
}

/** What holds in every run of the debounce. */
module CameraMotorLaws {
  import opened Common
  import opened CameraMotorSpec

  /** Every opposite event since was compared with the stamp of event i at a clock reading at least the
      delay after that stamp. */
  predicate Quiet(history: seq<Event>, i: nat) {
    && i < |history|
    && forall j :: i < j < |history| && history[j].what != history[i].what ==>
         history[j].check - history[i].stamp >= DELAY
  }

  /** Callbacks run one after the other. */
  predicate InTurn(history: seq<Event>) {
    forall i, j :: 0 <= i < j < |history| ==> history[i].send <= history[j].stamp
  }

  predicate Clocked(s: State) {
    && (forall i :: 0 <= i < |s.history| ==> s.history[i].InOrder() && s.history[i].send <= s.clock)
    && (forall i :: 0 <= i < |s.history| ==> s.history[i].stamp <= LastEvent(s, s.history[i].what))
    && InTurn(s.history)
    && (forall i :: 0 <= i < |s.queue| ==> s.queue[i].due <= s.clock + DELAY)
  }

  /** The messages belong to their events, which nothing has contradicted so far. */
  predicate Queued(s: State) {
    forall i :: 0 <= i < |s.queue| ==>
      && s.queue[i].event < |s.history| && Quiet(s.history, s.queue[i].event)
      && s.queue[i].what == s.history[s.queue[i].event].what
      && s.queue[i].due == s.history[s.queue[i].event].send + DELAY
  }

  predicate Commanded(s: State) {
    forall i :: 0 <= i < |s.commands| ==>
      && s.commands[i].event < |s.history| && Quiet(s.history, s.commands[i].event)
      && s.commands[i].direction == s.history[s.commands[i].event].what
      && s.history[s.commands[i].event].send + DELAY <= s.commands[i].at <= s.clock
  }

  /** The last event is the last one commanded, or still the last one queued. */
  predicate Latest(s: State) {
    s.history != [] ==>
      var n := |s.history| - 1;
      if s.queue == [] then s.commands != [] && s.commands[|s.commands| - 1].event == n
      else s.queue[|s.queue| - 1].event == n
  }

  predicate Inv(s: State) {
    Clocked(s) && Queued(s) && Commanded(s) && Latest(s)
  }

  lemma {:induction false} Removed(queue: seq<Message>, what: What)
    ensures forall m :: m in RemoveMessages(queue, what) <==> m in queue && m.what != what
  {
    if queue != [] {
      var n := |queue| - 1;
      Removed(queue[..n], what);
      assert queue == queue[..n] + [queue[n]];
    }
  }

  /** Members of the queue after an event. */
  lemma KeptMembers(s: State, e: Event)
    requires Clocked(s)
    ensures forall m :: m in Kept(s, e) ==> m in s.queue
    ensures forall m :: m in Kept(s, e) && m.what != e.what ==> e.check - LastEvent(s, m.what) >= DELAY
  {
    Removed(s.queue, Opposite(e.what));
  }

  lemma QuietExtends(history: seq<Event>, e: Event, i: nat)
    requires Quiet(history, i)
    requires e.what != history[i].what ==> e.check - history[i].stamp >= DELAY
    ensures Quiet(history + [e], i)
  {
    assert (history + [e])[..|history|] == history;
  }

  /** An event's message goes to the end of the queue. */
  lemma EnqueuedLast(s: State, e: Event)
    requires Clocked(s) && s.clock <= e.stamp && e.InOrder()
    ensures AfterEvent(s, e).queue == Kept(s, e) + [Message(e.what, |s.history|, e.send + DELAY)]
  {
    KeptMembers(s, e);
    var kept := Kept(s, e);
    assert kept != [] ==> kept[|kept| - 1] in s.queue;
  }

  lemma EventKeepsClocked(s: State, e: Event)
    requires Clocked(s) && s.clock <= e.stamp && e.InOrder()
    ensures Clocked(AfterEvent(s, e))
  {
    EnqueuedLast(s, e);
    KeptMembers(s, e);
    var kept := Kept(s, e);
    forall i | 0 <= i < |kept| ensures kept[i].due <= s.clock + DELAY {
      assert kept[i] in s.queue;
    }
  }

  lemma EventKeepsQueued(s: State, e: Event)
    requires Clocked(s) && Queued(s) && s.clock <= e.stamp && e.InOrder()
    ensures Queued(AfterEvent(s, e))
  {
    EnqueuedLast(s, e);
    KeptMembers(s, e);
    var s', kept := AfterEvent(s, e), Kept(s, e);
    forall i | 0 <= i < |kept|
      ensures kept[i].event < |s.history| && Quiet(s'.history, kept[i].event)
      ensures kept[i].what == s.history[kept[i].event].what
      ensures kept[i].due == s.history[kept[i].event].send + DELAY
    {
      assert kept[i] in s.queue;
      QuietExtends(s.history, e, kept[i].event);
    }
    assert Quiet(s'.history, |s.history|);
  }

  lemma EventKeepsCommanded(s: State, e: Event)
    requires Clocked(s) && Commanded(s) && s.clock <= e.stamp && e.InOrder()
    ensures Commanded(AfterEvent(s, e))
  {
    forall i | 0 <= i < |s.commands| ensures Quiet(s.history + [e], s.commands[i].event) {
      QuietExtends(s.history, e, s.commands[i].event);
    }
  }

  lemma EventKeepsInv(s: State, e: Event)
    requires Inv(s) && s.clock <= e.stamp && e.InOrder()
    ensures Inv(AfterEvent(s, e))
  {
    EventKeepsClocked(s, e);
    EventKeepsQueued(s, e);
    EventKeepsCommanded(s, e);
    EnqueuedLast(s, e);
    hide Clocked, Queued, Commanded, Kept;
  }

  lemma DeliveryKeepsInv(s: State, now: int)
    requires Inv(s) && Enabled(s, Deliver(now))
    ensures Inv(AfterDelivery(s, now))
  {
    var s' := AfterDelivery(s, now);
    assert forall w :: LastEvent(s', w) == LastEvent(s, w);
    hide Quiet, InTurn;
  }

  lemma ClockKeepsClocked(s: State, now: int)
    requires Clocked(s) && s.clock <= now
    ensures Clocked(s.(clock := now))
  {
    hide InTurn;
  }

  lemma ClockKeepsMessages(s: State, now: int)
    requires Queued(s) && Commanded(s) && s.clock <= now
    ensures Queued(s.(clock := now)) && Commanded(s.(clock := now))
  {
    hide Quiet;
  }

  /** Other cameras only let time pass. */
  lemma ClockKeepsInv(s: State, now: int)
    requires Inv(s) && s.clock <= now
    ensures Inv(s.(clock := now))
  {
    ClockKeepsClocked(s, now);
    ClockKeepsMessages(s, now);
    hide Clocked, Queued, Commanded;
  }

  lemma StepKeepsInv(s: State, step: Step)
    requires Inv(s) && Enabled(s, step)
    ensures Inv(Next(s, step))
  {
    hide Inv, AfterEvent, AfterDelivery;
    match step
    case Deliver(now) => DeliveryKeepsInv(s, now);
    case Camera(id, e) =>
      if id == FRONT_CAMERA_ID { EventKeepsInv(s, e); } else { ClockKeepsInv(s, e.send); }
  }

  lemma {:induction false} InvInRun(states: seq<State>, steps: seq<Step>, k: nat)
    requires IsRun(states, steps) && k < |states|
    ensures Inv(states[k])
  {
    if k > 0 {
      InvInRun(states, steps, k - 1);
      StepKeepsInv(states[k - 1], steps[k - 1]);
      assert states[k] == Next(states[k - 1], steps[k - 1]);
    }
  }

  /** What the code compares: every command ever given stands for an event of its direction, every
      opposite event since took its second clock reading at least the delay after that event's time
      stamp, and the command came no sooner than the delay after the message was sent. */
  lemma Debounced(states: seq<State>, steps: seq<Step>, k: nat, i: nat)
    requires IsRun(states, steps) && k < |states| && i < |states[k].commands|
    ensures var s := states[k]; var c := s.commands[i];
            && Quiet(s.history, c.event) && c.direction == s.history[c.event].what
            && c.at >= s.history[c.event].send + DELAY
  {
    InvInRun(states, steps, k);
  }

  // ---------------------------------------------------------------- the quiet time around a command

  /** Event j is opposite to the i-th command and came after the event the command stands for. */
  predicate Opposes(s: State, i: nat, j: nat) {
    && i < |s.commands| && s.commands[i].event < j < |s.history|
    && s.history[j].what != s.commands[i].direction
  }

  /** From the sending of a commanded message it takes at least `gap` until an opposite event. */
  ghost predicate QuietFor(s: State, gap: int) {
    forall i: nat, j: nat :: Opposes(s, i, j) ==>
      s.history[j].stamp >= s.history[s.commands[i].event].send + gap
  }

  /** No callback of the run takes longer than `lag`. */
  predicate Prompt(steps: seq<Step>, lag: int) {
    forall i :: 0 <= i < |steps| && steps[i].Camera? ==> steps[i].event.Lag() <= lag
  }

  /** Callbacks within `lag` keep `gap`, in every state of every run. */
  ghost predicate Guaranteed(lag: int, gap: int) {
    forall states, steps, k :: IsRun(states, steps) && Prompt(steps, lag) && 0 <= k < |states| ==>
      QuietFor(states[k], gap)
  }

  /** An opposite event falls short of the delay after the sending by no more than the two callbacks
      took before they sent and before they compared, and never comes before the sending. */
  lemma DebouncedSinceSending(states: seq<State>, steps: seq<Step>, k: nat, i: nat, j: nat)
    requires IsRun(states, steps) && k < |states| && Opposes(states[k], i, j)
    ensures var s := states[k]; var e, o := s.history[s.commands[i].event], s.history[j];
            && o.stamp - e.send >= DELAY - e.Lag() - (o.check - o.stamp)
            && o.stamp >= e.send && s.commands[i].at >= e.send + DELAY
  {
    InvInRun(states, steps, k);
  }

  /** That bound is met: whatever the two callbacks take, there is a run in which the camera is raised
      and the close event came exactly this short a time after the open message was sent. */
  lemma SlowCallbacksShortenDelay(a: nat, b: nat) returns (states: seq<State>, steps: seq<Step>)
    ensures IsRun(states, steps) && |states| == 4 && |states[3].history| == 2 && Opposes(states[3], 0, 1)
    ensures var e, o := states[3].history[0], states[3].history[1];
            && states[3].commands[0].direction == Open && states[3].commands[0].event == 0
            && e.Lag() == a && o.Lag() == o.check - o.stamp == b
            && o.stamp - e.send == Max(0, DELAY - a - b)
    ensures Prompt(steps, Max(a, b))
  {
    var stamp := a + Max(0, DELAY - a - b);
    var at := Max(a + DELAY, stamp + b);
    var open, close := Event(Open, 0, a, a), Event(Closed, stamp, stamp + b, stamp + b);
    steps := [Camera(FRONT_CAMERA_ID, open), Camera(FRONT_CAMERA_ID, close), Deliver(at)];
    var s1 := AfterEvent(INIT, open);
    assert s1.queue == [Message(Open, 0, a + DELAY)];
    var s2 := AfterEvent(s1, close);
    assert Kept(s1, close) == s1.queue;
    assert s2.queue == [Message(Open, 0, a + DELAY), Message(Closed, 1, stamp + b + DELAY)];
    states := [INIT, s1, s2, AfterDelivery(s2, at)];
  }

  lemma {:induction false} LagsInRun(states: seq<State>, steps: seq<Step>, lag: int, k: nat)
    requires IsRun(states, steps) && Prompt(steps, lag) && k < |states|
    ensures forall i :: 0 <= i < |states[k].history| ==> states[k].history[i].Lag() <= lag
  {
    if k > 0 {
      LagsInRun(states, steps, lag, k - 1);
      assert states[k] == Next(states[k - 1], steps[k - 1]);
    }
  }

  lemma GuaranteedGap(states: seq<State>, steps: seq<Step>, lag: int, k: nat)
    requires IsRun(states, steps) && Prompt(steps, lag) && k < |states|
    ensures QuietFor(states[k], Max(0, DELAY - 2 * lag))
  {
    InvInRun(states, steps, k);
    LagsInRun(states, steps, lag, k);
    forall i: nat, j: nat | Opposes(states[k], i, j)
      ensures var e, o := states[k].history[states[k].commands[i].event], states[k].history[j];
              o.stamp >= e.send + Max(0, DELAY - 2 * lag)
    {
      DebouncedSinceSending(states, steps, k, i, j);
    }
  }

  /** What callbacks that take at most `lag` guarantee, exactly: the delay less twice the lag. */
  lemma GuaranteedExactly(lag: nat, gap: int)
    ensures Guaranteed(lag, gap) <==> gap <= Max(0, 100 - 2 * lag)
  {
    if gap <= Max(0, DELAY - 2 * lag) {
      forall states, steps, k | IsRun(states, steps) && Prompt(steps, lag) && 0 <= k < |states|
        ensures QuietFor(states[k], gap)
      {
        GuaranteedGap(states, steps, lag, k);
      }
    } else {
      var states, steps := SlowCallbacksShortenDelay(lag, lag);
      assert !QuietFor(states[3], gap);
    }
  }

  /** Debounce: a commanded message is followed by a full delay without an opposite event, in every
      run, if and only if callbacks take no time between their clock readings. */
  lemma DebouncedExactly(lag: nat)
    ensures Guaranteed(lag, 100) <==> lag == 0
  {
    GuaranteedExactly(lag, 100);
  }

  // ---------------------------------------------------------------- what the run is made of

  /** The events of camera 1 among the steps. */
  function FrontEvents(steps: seq<Step>): seq<Event> {
    if steps == [] then []
    else
      var last := steps[|steps| - 1];
      FrontEvents(steps[..|steps| - 1]) + if last.Camera? && last.id == "1" then [last.event] else []
  }

  function DeliveryTimes(steps: seq<Step>): seq<int> {
    if steps == [] then []
    else
      var last := steps[|steps| - 1];
      DeliveryTimes(steps[..|steps| - 1]) + if last.Deliver? then [last.now] else []
  }

  predicate CommandedAt(commands: seq<Command>, times: seq<int>) {
    |commands| == |times| && forall i :: 0 <= i < |commands| ==> commands[i].at == times[i]
  }

  /** The events the service goes by are those of camera 1 and no others, and the commands it gives are
      the messages delivered, one each, at the time of delivery. */
  lemma {:induction false} OnlyFrontCameraCounts(states: seq<State>, steps: seq<Step>, k: nat)
    requires IsRun(states, steps) && k < |states|
    ensures states[k].history == FrontEvents(steps[..k])
    ensures CommandedAt(states[k].commands, DeliveryTimes(steps[..k]))
  {
    if k > 0 {
      OnlyFrontCameraCounts(states, steps, k - 1);
      assert steps[..k][..k - 1] == steps[..k - 1];
      assert states[k] == Next(states[k - 1], steps[k - 1]);
      hide Kept, Enqueue, FrontEvents;
      FrontEventsStep(steps, k - 1);
    }
  }

  lemma FrontEventsStep(steps: seq<Step>, k: nat)
    requires k < |steps|
    ensures FrontEvents(steps[..k + 1]) ==
            FrontEvents(steps[..k]) + if steps[k].Camera? && steps[k].id == "1" then [steps[k].event] else []
  {
    assert steps[..k + 1][..k] == steps[..k];
  }

  /** A message is due exactly 100 ms after its event's callback sent it, and has that event's kind. */
  lemma DueExactly(states: seq<State>, steps: seq<Step>, k: nat, i: nat)
    requires IsRun(states, steps) && k < |states| && i < |states[k].queue|
    ensures var s := states[k]; var m := s.queue[i];
            m.event < |s.history| && m.due == s.history[m.event].send + 100 && m.what == s.history[m.event].what
  {
    InvInRun(states, steps, k);
  }

  /** The motor follows the camera: whenever nothing is queued, the last command has the direction of
      the last front-camera event. */
  lemma SettlesOnLastEvent(states: seq<State>, steps: seq<Step>, k: nat)
    requires IsRun(states, steps) && k < |states| && states[k].queue == [] && states[k].history != []
    ensures var s := states[k];
            && s.commands != []
            && s.commands[|s.commands| - 1].direction == s.history[|s.history| - 1].what
  {
    InvInRun(states, steps, k);
  }

  // ---------------------------------------------------------------- no event is lost for nothing

  /** Event k, at or after i, is of the kind of i and left its time stamp. */
  predicate Renews(history: seq<Event>, closedEvent: int, openEvent: int, i: nat, k: nat) {
    && i <= k < |history| && history[k].what == history[i].what
    && history[k].stamp == if history[i].what == Open then openEvent else closedEvent
  }

  ghost predicate Renewed(history: seq<Event>, closedEvent: int, openEvent: int, i: nat) {
    exists k :: Renews(history, closedEvent, openEvent, i, k)
  }

  /** The stored time stamp of a kind is that of an event no earlier than any of its kind. */
  ghost predicate Stamped(history: seq<Event>, closedEvent: int, openEvent: int) {
    forall i: nat :: i < |history| ==> Renewed(history, closedEvent, openEvent, i)
  }

  /** Event j contradicts i within the delay after k, an event of the kind of i. */
  predicate Contradicts(history: seq<Event>, i: nat, k: nat, j: nat) {
    && i <= k < j < |history| && history[k].what == history[i].what
    && history[j].what != history[i].what && history[j].check - history[k].stamp < DELAY
  }

  /** An opposite event came within the delay after event i or a later one of its kind. */
  ghost predicate Superseded(history: seq<Event>, i: nat) {
    exists k, j :: Contradicts(history, i, k, j)
  }

  predicate InQueue(queue: seq<Message>, i: nat) {
    exists q :: 0 <= q < |queue| && queue[q].event == i
  }

  predicate InCommands(commands: seq<Command>, i: nat) {
    exists c :: 0 <= c < |commands| && commands[c].event == i
  }

  ghost predicate Accounted(s: State) {
    forall i: nat :: i < |s.history| ==>
      InQueue(s.queue, i) || InCommands(s.commands, i) || Superseded(s.history, i)
  }

  lemma StampedStep(s: State, e: Event)
    requires Stamped(s.history, s.closedEvent, s.openEvent)
    ensures var s' := AfterEvent(s, e); Stamped(s'.history, s'.closedEvent, s'.openEvent)
  {
    var h, h', n := s.history, s.history + [e], |s.history|;
    var closed := if e.what == Closed then e.stamp else s.closedEvent;
    var open := if e.what == Open then e.stamp else s.openEvent;
    forall i: nat | i < |h'|
      ensures Renewed(h', closed, open, i)
    {
      if h'[i].what == e.what {
        assert Renews(h', closed, open, i, n);
      } else {
        assert Renewed(h, s.closedEvent, s.openEvent, i);
        var k :| Renews(h, s.closedEvent, s.openEvent, i, k);
        assert Renews(h', closed, open, i, k);
      }
    }
  }

  lemma SupersededExtends(history: seq<Event>, e: Event, i: nat)
    requires Superseded(history, i)
    ensures Superseded(history + [e], i)
  {
    var k, j :| Contradicts(history, i, k, j);
    assert Contradicts(history + [e], i, k, j);
  }

  /** A message an event takes off the queue is superseded by it. */
  lemma CancelledIsSuperseded(s: State, e: Event, m: Message)
    requires m in s.queue && m !in Kept(s, e) && m.event < |s.history|
    requires m.what == s.history[m.event].what && Stamped(s.history, s.closedEvent, s.openEvent)
    ensures Superseded(s.history + [e], m.event)
  {
    Removed(s.queue, Opposite(e.what));
    assert Renewed(s.history, s.closedEvent, s.openEvent, m.event);
    var k :| Renews(s.history, s.closedEvent, s.openEvent, m.event, k);
    assert Contradicts(s.history + [e], m.event, k, |s.history|);
  }

  lemma EventKeepsAccounted(s: State, e: Event)
    requires Inv(s) && Accounted(s) && s.clock <= e.stamp && e.InOrder()
    requires Stamped(s.history, s.closedEvent, s.openEvent)
    ensures Accounted(AfterEvent(s, e))
  {
    EnqueuedLast(s, e);
    hide Inv, Stamped, Superseded;
    var s', n, kept := AfterEvent(s, e), |s.history|, Kept(s, e);
    forall i: nat | i < |s'.history|
      ensures InQueue(s'.queue, i) || InCommands(s'.commands, i) || Superseded(s'.history, i)
    {
      if i == n {
        assert s'.queue[|kept|].event == n;
      } else if InQueue(s.queue, i) {
        var q :| 0 <= q < |s.queue| && s.queue[q].event == i;
        if s.queue[q] in kept {
          var r :| 0 <= r < |kept| && kept[r] == s.queue[q];
          assert s'.queue[r].event == i;
        } else {
          QueuedMessage(s, q);
          CancelledIsSuperseded(s, e, s.queue[q]);
        }
      } else if Superseded(s.history, i) {
        SupersededExtends(s.history, e, i);
      }
    }
  }

  lemma QueuedMessage(s: State, q: nat)
    requires Inv(s) && q < |s.queue|
    ensures s.queue[q].event < |s.history| && s.queue[q].what == s.history[s.queue[q].event].what
  {
  }

  lemma DeliveryKeepsAccounted(s: State, now: int)
    requires Accounted(s) && s.queue != []
    ensures Accounted(AfterDelivery(s, now))
  {
    var s' := AfterDelivery(s, now);
    forall i: nat | i < |s'.history|
      ensures InQueue(s'.queue, i) || InCommands(s'.commands, i) || Superseded(s'.history, i)
    {
      if InQueue(s.queue, i) {
        var q :| 0 <= q < |s.queue| && s.queue[q].event == i;
        if q == 0 {
          assert s'.commands[|s.commands|].event == i;
        } else {
          assert s'.queue[q - 1] == s.queue[q];
        }
      } else if InCommands(s.commands, i) {
        var c :| 0 <= c < |s.commands| && s.commands[c].event == i;
        assert s'.commands[c] == s.commands[c];
      }
    }
  }

  lemma StepKeepsAccounted(s: State, step: Step)
    requires Inv(s) && Accounted(s) && Enabled(s, step)
    requires Stamped(s.history, s.closedEvent, s.openEvent)
    ensures var s' := Next(s, step); Accounted(s') && Stamped(s'.history, s'.closedEvent, s'.openEvent)
  {
    if step.Deliver? {
      DeliveryKeepsAccounted(s, step.now);
    } else if step.id == FRONT_CAMERA_ID {
      EventKeepsAccounted(s, step.event);
      StampedStep(s, step.event);
    }
  }

  lemma {:induction false} AccountedInRun(states: seq<State>, steps: seq<Step>, k: nat)
    requires IsRun(states, steps) && k < |states|
    ensures Stamped(states[k].history, states[k].closedEvent, states[k].openEvent) && Accounted(states[k])
  {
    if k > 0 {
      assert Enabled(states[k - 1], steps[k - 1]) && states[k - 1 + 1] == Next(states[k - 1], steps[k - 1]);
      hide *;
      AccountedInRun(states, steps, k - 1);
      InvInRun(states, steps, k - 1);
      StepKeepsAccounted(states[k - 1], steps[k - 1]);
    }
  }

  /** A front-camera event is commanded or still queued, unless an opposite event came within the
      delay after it or after a later event of its own kind. */
  lemma EventsAnswered(states: seq<State>, steps: seq<Step>, k: nat, i: nat)
    requires IsRun(states, steps) && k < |states| && i < |states[k].history|
    ensures var s := states[k];
            InQueue(s.queue, i) || InCommands(s.commands, i) || Superseded(s.history, i)
  {
    AccountedInRun(states, steps, k);
  }

  // ---------------------------------------------------------------- order of commands

  /** Commands, then queued messages, answer events in the order the events came. */
  predicate Sequential(s: State) {
    && EventsAscend(s.queue)
    && (forall i, j :: 0 <= i < j < |s.commands| ==> s.commands[i].event < s.commands[j].event)
    && (forall i, j :: 0 <= i < |s.commands| && 0 <= j < |s.queue| ==> s.commands[i].event < s.queue[j].event)
  }

  predicate EventsAscend(queue: seq<Message>) {
    forall i, j :: 0 <= i < j < |queue| ==> queue[i].event < queue[j].event
  }

  lemma {:induction false} RemoveKeepsOrder(queue: seq<Message>, what: What)
    requires EventsAscend(queue)
    ensures EventsAscend(RemoveMessages(queue, what))
  {
    if queue != [] {
      var n := |queue| - 1;
      RemoveKeepsOrder(queue[..n], what);
      Removed(queue[..n], what);
      var r := RemoveMessages(queue[..n], what);
      forall i | 0 <= i < |r| ensures r[i].event < queue[n].event {
        assert r[i] in queue[..n];
      }
    }
  }

  /** What an event keeps on the queue is in order, behind the commands and before the event. */
  lemma KeptInOrder(s: State, e: Event)
    requires Clocked(s) && Queued(s) && Sequential(s)
    ensures EventsAscend(Kept(s, e))
    ensures forall m :: m in Kept(s, e) ==> m.event < |s.history|
    ensures forall m, i :: m in Kept(s, e) && 0 <= i < |s.commands| ==> s.commands[i].event < m.event
  {
    KeptMembers(s, e);
    RemoveKeepsOrder(s.queue, Opposite(e.what));
    hide Quiet, Clocked;
  }

  lemma EventKeepsSequential(s: State, e: Event)
    requires Inv(s) && Sequential(s) && s.clock <= e.stamp && e.InOrder()
    ensures Sequential(AfterEvent(s, e))
  {
    EnqueuedLast(s, e);
    KeptInOrder(s, e);
    var kept := Kept(s, e);
    assert forall i :: 0 <= i < |kept| ==> kept[i] in kept;
    hide Kept, Quiet, Clocked, Queued, Latest, Enqueue;
  }

  lemma StepKeepsSequential(s: State, step: Step)
    requires Inv(s) && Sequential(s) && Enabled(s, step)
    ensures Sequential(Next(s, step))
  {
    if step.Camera? && step.id == FRONT_CAMERA_ID {
      EventKeepsSequential(s, step.event);
    }
  }

  /** Commands come in event order, no event is commanded twice. */
  lemma {:induction false} CommandsInEventOrder(states: seq<State>, steps: seq<Step>, k: nat)
    requires IsRun(states, steps) && k < |states|
    ensures Sequential(states[k])
  {
    if k > 0 {
      CommandsInEventOrder(states, steps, k - 1);
      InvInRun(states, steps, k - 1);
      StepKeepsSequential(states[k - 1], steps[k - 1]);
      assert states[k] == Next(states[k - 1], steps[k - 1]);
    }
  }
}

/** The service: its callbacks and its message handler, updating the fields in place. */
module CameraMotorService {
  import opened CameraMotorSpec

  class Service {
    var closedEvent: int
    var openEvent: int
    /** The handler's message queue. */
    var queue: seq<Message>
    /** Directions written to the motor, with the event and time of each. */
    var commands: seq<Command>
    /** Front-camera events so far and the latest clock reading. */
    var history: seq<Event>
    var clock: int

    function View(): State
      reads this
    {
      State(closedEvent, openEvent, queue, history, commands, clock)
    }

    constructor ()
      ensures View() == INIT
    {
      closedEvent, openEvent := 0, 0;
      queue, commands := [], [];
      history, clock := [], 0;
    }

    method OnCameraAvailable(cameraId: string, now: Event)
      requires now.what == Closed && Enabled(View(), Camera(cameraId, now))
      modifies this
      ensures View() == Next(old(View()), Camera(cameraId, now))
      ensures cameraId != "1" ==>
                && closedEvent == old(closedEvent) && openEvent == old(openEvent) && queue == old(queue)
                && history == old(history) && commands == old(commands)
      ensures cameraId == "1" ==>
                && closedEvent == now.stamp && openEvent == old(openEvent)
                && history == old(history) + [now] && commands == old(commands)
    {
      hide Enqueue, RemoveMessages, HasMessages;
      if cameraId == FRONT_CAMERA_ID {
        closedEvent := now.stamp;
        if now.check - openEvent < DELAY && HasMessages(queue, Open) {
          queue := RemoveMessages(queue, Open);
        }
        queue := Enqueue(queue, Message(Closed, |history|, now.send + DELAY));
        history := history + [now];
      }
      clock := now.send;
    }

    method OnCameraUnavailable(cameraId: string, now: Event)
      requires now.what == Open && Enabled(View(), Camera(cameraId, now))
      modifies this
      ensures View() == Next(old(View()), Camera(cameraId, now))
      ensures cameraId != "1" ==>
                && closedEvent == old(closedEvent) && openEvent == old(openEvent) && queue == old(queue)
                && history == old(history) && commands == old(commands)
      ensures cameraId == "1" ==>
                && openEvent == now.stamp && closedEvent == old(closedEvent)
                && history == old(history) + [now] && commands == old(commands)
    {
      hide Enqueue, RemoveMessages, HasMessages;
      if cameraId == FRONT_CAMERA_ID {
        openEvent := now.stamp;
        if now.check - closedEvent < DELAY && HasMessages(queue, Closed) {
          queue := RemoveMessages(queue, Closed);
        }
        queue := Enqueue(queue, Message(Open, |history|, now.send + DELAY));
        history := history + [now];
      }
      clock := now.send;
    }

    /** The handler delivers its first message, which is due. */
    method HandleMessage(now: int)
      requires Enabled(View(), Deliver(now))
      modifies this
      ensures View() == Next(old(View()), Deliver(now))
      ensures queue == old(queue)[1..] && history == old(history)
      ensures commands == old(commands) + [Command(old(queue)[0].what, old(queue)[0].event, now)]
    {
      var msg := queue[0];
      queue := queue[1..];
      match msg.what {
        case Closed => commands := commands + [Command(Closed, msg.event, now)];
        case Open => commands := commands + [Command(Open, msg.event, now)];
      }
      clock := now;
    }
  }
}
