/** Connect and disconnect calls of any number of threads: each updates the map in its critical section
    and announces the change after the mutex is dropped, so announcements may overtake each other. */
module DynamicSensorRuns {
  import opened Common
  import opened SensorTypes
  import opened DynamicSensors
  import opened SensorHandle

  /** The map, the announcements in the order of the critical sections, and the positions of those
      delivered to the framework, in the order of delivery. */
  datatype State = State(table: SensorTable, made: seq<Announcement>, delivered: seq<nat>)

  datatype Step = Section(call: Call) | Deliver(n: nat)

  const INIT := State(map[], [], [])

  predicate Enabled(s: State, step: Step) {
    match step
    case Section(_) => true
    case Deliver(n) => n < |s.made| && n !in s.delivered
  }

  function Next(s: State, step: Step): State
    requires Enabled(s, step)
  {
    match step
    case Section(call) =>
      var a := Announces(s.table, call);
      s.(table := After(s.table, a), made := s.made + [a])
    case Deliver(n) => s.(delivered := s.delivered + [n])
  }

  predicate IsRun(states: seq<State>, steps: seq<Step>) {
    && |states| == |steps| + 1 && states[0] == INIT
    && forall i :: 0 <= i < |steps| ==>
         Enabled(states[i], steps[i]) && states[i + 1] == Next(states[i], steps[i])
  }

  /** An order in which announcements are delivered: each at most once. */
  predicate IsOrder(made: seq<Announcement>, order: seq<nat>) {
    && (forall i :: 0 <= i < |order| ==> order[i] < |made|)
    && forall i, j :: 0 <= i < j < |order| ==> order[i] != order[j]
  }

  /** The announcements at the given positions, in that order. */
  function Pick(made: seq<Announcement>, order: seq<nat>): seq<Announcement>
    requires IsOrder(made, order)
  {
    seq(|order|, i requires 0 <= i < |order| => made[order[i]])
  }

  /** The map is what the announcements say in the order they were made, and none of them removes
      what was not there. */
  predicate Inv(s: State) {
    Replay(s.made) == s.table && RemovalsPresent(s.made) && IsOrder(s.made, s.delivered)
  }

  lemma StepKeepsInv(s: State, step: Step)
    requires Inv(s) && Enabled(s, step)
    ensures Inv(Next(s, step))
  {
    if step.Section? {
      var a := Announces(s.table, step.call);
      if step.call.Disconnect? {
        RemovedPresent(s.table, step.call.handles, step.call.subHalIndex);
      }
      AnnounceStep(s.made, a);
    }
  }

  /** However critical sections and deliveries interleave, the map is what the announcements say in
      the order of the sections, each of their removals was present, and none is delivered twice. */
  lemma {:induction false} TableIsReplay(states: seq<State>, steps: seq<Step>, k: nat)
    requires IsRun(states, steps) && k < |states|
    ensures var s := states[k];
            Replay(s.made) == s.table && RemovalsPresent(s.made) && IsOrder(s.made, s.delivered)
  {
    if k > 0 {
      TableIsReplay(states, steps, k - 1);
      StepKeepsInv(states[k - 1], steps[k - 1]);
      assert states[k] == Next(states[k - 1], steps[k - 1]);
    }
  }

  /** The deliveries among the steps. */
  function DeliveredBy(steps: seq<Step>): seq<nat> {
    if steps == [] then []
    else
      var last := steps[|steps| - 1];
      DeliveredBy(steps[..|steps| - 1]) + if last.Deliver? then [last.n] else []
  }

  /** What has been delivered is what the delivery steps delivered, in their order. */
  lemma {:induction false} DeliveriesOfRun(states: seq<State>, steps: seq<Step>, k: nat)
    requires IsRun(states, steps) && k < |states|
    ensures states[k].delivered == DeliveredBy(steps[..k])
  {
    if k > 0 {
      DeliveriesOfRun(states, steps, k - 1);
      assert steps[..k][..k - 1] == steps[..k - 1];
      assert states[k] == Next(states[k - 1], steps[k - 1]);
    }
  }

  /** Exactly the targeted keys are gone, and nothing else changed. */
  ghost predicate Disconnects(before: SensorTable, handles: seq<Int32>, subHalIndex: nat, after: SensorTable) {
    forall key: Int32 :: (key in after <==> key in before && !Targets(handles, subHalIndex, key))
                         && (key in after ==> after[key] == before[key])
  }

  lemma DisconnectSpelledOut(before: SensorTable, handles: seq<Int32>, subHalIndex: nat)
    ensures Disconnects(before, handles, subHalIndex, RemoveAll(before, Removed(before, handles, subHalIndex)))
  {
    var removed := Removed(before, handles, subHalIndex);
    RemovedKeys(before, handles, subHalIndex);
    RemoveAllKeys(before, removed);
    RemoveAllValues(before, removed);
    hide RemoveAll, Removed, Targets;
  }

  /** What a critical section does to the map, and the one announcement it leaves to be delivered. */
  lemma SectionsOfRun(states: seq<State>, steps: seq<Step>, i: nat)
    requires IsRun(states, steps) && i < |steps| && steps[i].Section?
    ensures var s, s', call := states[i], states[i + 1], steps[i].call;
            && s'.delivered == s.delivered && |s'.made| == |s.made| + 1 && s'.made[..|s.made|] == s.made
            && match call
               case Connect(added, subHalIndex) =>
                 && s'.made[|s.made|].Connected? && AnnouncesClear(added, subHalIndex, s'.made[|s.made|].added)
                 && Connects(s.table, added, subHalIndex, s'.table)
               case Disconnect(handles, subHalIndex) =>
                 && s'.made[|s.made|].Disconnected?
                 && AnnouncesFound(s.table, handles, subHalIndex, s'.made[|s.made|].removed)
                 && Disconnects(s.table, handles, subHalIndex, s'.table)
  {
    var s, call := states[i], steps[i].call;
    assert states[i + 1] == Next(s, steps[i]);
    hide Connects, AnnouncedFrom, RemovedFrom, Disconnects, Tagged, Removed, AddAll, RemoveAll;
    match call
    case Connect(added, subHalIndex) =>
      ConnectSpelledOut(s.table, added, subHalIndex);
      var _ := AnnouncedPositions(added, subHalIndex);
    case Disconnect(handles, subHalIndex) =>
      DisconnectSpelledOut(s.table, handles, subHalIndex);
      var _ := RemovedPositions(s.table, handles, subHalIndex);
  }

  // ---------------------------------------------------------------- the last word on a handle

  function Entry(table: SensorTable, h: Int32): Option<SensorInfo> {
    if h in table then Some(table[h]) else None
  }

  /** The last of the sensors with this handle. */
  function LastOf(added: seq<SensorInfo>, h: Int32): Option<SensorInfo> {
    if added == [] then None
    else
      var last := added[|added| - 1];
      if last.sensorHandle == h then Some(last) else LastOf(added[..|added| - 1], h)
  }

  /** The announcement names the handle. */
  predicate Names(a: Announcement, h: Int32) {
    match a
    case Connected(added) => LastOf(added, h).Some?
    case Disconnected(removed) => h in removed
  }

  /** What an announcement that names the handle says of it. */
  function Says(a: Announcement, h: Int32): Option<SensorInfo> {
    if a.Connected? then LastOf(a.added, h) else None
  }

  lemma {:induction false} AddedEntry(table: SensorTable, added: seq<SensorInfo>, h: Int32)
    ensures Entry(AddAll(table, added), h) == if LastOf(added, h).Some? then LastOf(added, h) else Entry(table, h)
  {
    if added != [] {
      AddedEntry(table, added[..|added| - 1], h);
    }
  }

  lemma {:induction false} RemovedEntry(table: SensorTable, removed: seq<Int32>, h: Int32)
    ensures Entry(RemoveAll(table, removed), h) == if h in removed then None else Entry(table, h)
  {
    if removed != [] {
      var n := |removed| - 1;
      RemovedEntry(table, removed[..n], h);
      assert removed == removed[..n] + [removed[n]];
    }
  }

  lemma AfterEntry(table: SensorTable, a: Announcement, h: Int32)
    ensures Entry(After(table, a), h) == if Names(a, h) then Says(a, h) else Entry(table, h)
  {
    match a
    case Connected(added) => AddedEntry(table, added, h);
    case Disconnected(removed) => RemovedEntry(table, removed, h);
  }

  /** The last announcement to name the handle, -1 if there is none. */
  function LastNaming(announcements: seq<Announcement>, h: Int32): (n: int)
    ensures -1 <= n < |announcements| && (n >= 0 ==> Names(announcements[n], h))
    ensures forall m :: n < m < |announcements| ==> !Names(announcements[m], h)
  {
    if announcements == [] then -1
    else if Names(announcements[|announcements| - 1], h) then |announcements| - 1
    else LastNaming(announcements[..|announcements| - 1], h)
  }

  /** What the last announcement to name the handle says; without one, the sensor is not there. */
  function Word(announcements: seq<Announcement>, h: Int32): Option<SensorInfo> {
    var n := LastNaming(announcements, h);
    if n < 0 then None else Says(announcements[n], h)
  }

  /** The last announcement to name a handle decides its entry, whatever came before. */
  lemma {:induction false} LastWord(announcements: seq<Announcement>, h: Int32)
    ensures Entry(Replay(announcements), h) == Word(announcements, h)
  {
    if announcements != [] {
      var k := |announcements| - 1;
      LastWord(announcements[..k], h);
      AfterEntry(Replay(announcements[..k]), announcements[k], h);
      hide Entry, After, Names, Says;
    }
  }

  // ---------------------------------------------------------------- what the framework concludes

  /** What has been delivered at any point of any run agrees with the map on a handle exactly if the
      last delivered announcement to name it says what the last one made says. */
  lemma AgreesExactly(states: seq<State>, steps: seq<Step>, k: nat, h: Int32)
    requires IsRun(states, steps) && k < |states|
    ensures var s := states[k];
            && IsOrder(s.made, s.delivered)
            && (Entry(Replay(Pick(s.made, s.delivered)), h) == Entry(s.table, h) <==>
                Word(Pick(s.made, s.delivered), h) == Word(s.made, h))
  {
    TableIsReplay(states, steps, k);
    var s := states[k];
    LastWord(s.made, h);
    LastWord(Pick(s.made, s.delivered), h);
    hide Replay, Entry, Word;
  }

  /** Deliveries in the order of the critical sections: at every point the framework has rebuilt the
      map as it was after the last delivered section, and every removal it was told of was present. */
  lemma InOrderRebuilds(states: seq<State>, steps: seq<Step>, k: nat)
    requires IsRun(states, steps) && k < |states|
    requires forall i :: 0 <= i < |states[k].delivered| ==> states[k].delivered[i] == i
    ensures var s := states[k]; var n := |s.delivered|;
            && n <= |s.made| && IsOrder(s.made, s.delivered)
            && Pick(s.made, s.delivered) == s.made[..n]
            && RemovalsPresent(Pick(s.made, s.delivered))
            && (n == |s.made| ==> Replay(Pick(s.made, s.delivered)) == s.table)
  {
    TableIsReplay(states, steps, k);
    var s := states[k];
    var n := |s.delivered|;
    assert n > 0 ==> s.delivered[n - 1] < |s.made|;
    assert forall i :: 0 <= i <= n ==> s.made[..n][..i] == s.made[..i];
    assert n == |s.made| ==> s.made[..n] == s.made;
    hide Replay, Present;
  }

  // ---------------------------------------------------------------- what overtaking may do

  /** An order in which all announcements made so far may end up delivered. */
  predicate Completes(s: State, order: seq<nat>) {
    && s.delivered <= order && IsOrder(s.made, order)
    && forall n :: 0 <= n < |s.made| ==> n in order
  }

  /** Every such order is that of a run: the announcements are delivered with nobody else calling. */
  lemma {:induction false} OrderIsRun(states: seq<State>, steps: seq<Step>, order: seq<nat>)
    returns (states': seq<State>, steps': seq<Step>)
    requires IsRun(states, steps) && states[|steps|].delivered <= order && IsOrder(states[|steps|].made, order)
    ensures IsRun(states', steps') && states <= states'
    ensures states'[|steps'|] == states[|steps|].(delivered := order)
    decreases |order|
  {
    var s := states[|steps|];
    if |order| == |s.delivered| {
      states', steps' := states, steps;
    } else {
      var n := |order| - 1;
      assert order == order[..n] + [order[n]];
      assert s.delivered <= order[..n];
      var states1, steps1 := OrderIsRun(states, steps, order[..n]);
      var s1 := states1[|steps1|];
      assert Enabled(s1, Deliver(order[n]));
      states', steps' := states1 + [Next(s1, Deliver(order[n]))], steps1 + [Deliver(order[n])];
    }
  }

  /** The positions below n that are not delivered yet and are not the given one. */
  function Outstanding(delivered: seq<nat>, but: int, n: nat): (order: seq<nat>)
    ensures forall i: nat :: i in order <==> i < n && i !in delivered && i != but
    ensures forall i, j :: 0 <= i < j < |order| ==> order[i] < order[j]
  {
    if n == 0 then []
    else
      var front := Outstanding(delivered, but, n - 1);
      assert forall i :: 0 <= i < |front| ==> front[i] in front;
      if n - 1 in delivered || n - 1 == but then front else front + [n - 1]
  }

  /** Everything outstanding can be delivered, with any one of it last. */
  lemma Completion(s: State, last: int) returns (order: seq<nat>)
    requires IsOrder(s.made, s.delivered)
    requires last == -1 || (0 <= last < |s.made| && last !in s.delivered)
    ensures Completes(s, order) && (last != -1 ==> order != [] && order[|order| - 1] == last)
  {
    var rest := Outstanding(s.delivered, last, |s.made|);
    order := s.delivered + rest + if last == -1 then [] else [last];
    assert forall i :: 0 <= i < |rest| ==> rest[i] in rest;
    assert forall i :: 0 <= i < |s.delivered| ==> s.delivered[i] in s.delivered;
    forall n | 0 <= n < |s.made| ensures n in order {
      assert n in s.delivered || n in rest || n == last;
    }
  }

  /** In whatever order the outstanding announcements arrive, the framework ends up right. */
  ghost predicate EndsRight(s: State, h: Int32)
    requires Inv(s)
  {
    forall order :: Completes(s, order) ==> Entry(Replay(Pick(s.made, order)), h) == Entry(s.table, h)
  }

  predicate IsOutstanding(s: State, h: Int32, n: nat) {
    n < |s.made| && n !in s.delivered && Names(s.made[n], h)
  }

  /** Every outstanding announcement that names the handle says the last word on it; without any, the
      last word has been delivered. */
  ghost predicate CannotMislead(s: State, h: Int32)
    requires IsOrder(s.made, s.delivered)
  {
    && (forall n: nat :: IsOutstanding(s, h, n) ==> Says(s.made[n], h) == Word(s.made, h))
    && ((forall n: nat :: !IsOutstanding(s, h, n)) ==> Word(Pick(s.made, s.delivered), h) == Word(s.made, h))
  }

  /** An outstanding announcement delivered last has the last word. */
  lemma OutstandingMayBeLast(s: State, h: Int32, n: nat)
    requires Inv(s) && IsOutstanding(s, h, n) && EndsRight(s, h)
    ensures Says(s.made[n], h) == Entry(s.table, h)
  {
    var order := Completion(s, n);
    var picked := Pick(s.made, order);
    assert LastNaming(picked, h) == |order| - 1;
    LastWord(picked, h);
    hide Replay, Completes, Names, Says;
  }

  /** Announcements that do not name a handle change nothing about it. */
  lemma UnnamedTail(a: seq<Announcement>, b: seq<Announcement>, h: Int32)
    requires a <= b && forall n :: |a| <= n < |b| ==> !Names(b[n], h)
    ensures Entry(Replay(b), h) == Entry(Replay(a), h)
  {
    LastWord(a, h);
    LastWord(b, h);
    var n, m := LastNaming(a, h), LastNaming(b, h);
    assert n >= 0 ==> b[n] == a[n];
    assert 0 <= m < |a| ==> b[m] == a[m];
    hide Replay, Names, Says, Entry, LastNaming;
  }

  lemma TailIsOutstanding(s: State, order: seq<nat>, i: nat)
    requires Inv(s) && Completes(s, order) && |s.delivered| <= i < |order|
    ensures order[i] < |s.made| && order[i] !in s.delivered
  {
    assert forall j :: 0 <= j < |s.delivered| ==> s.delivered[j] == order[j];
  }

  lemma CompletionAgrees(s: State, h: Int32, order: seq<nat>)
    requires Inv(s) && CannotMislead(s, h) && Completes(s, order)
    ensures Entry(Replay(Pick(s.made, order)), h) == Entry(s.table, h)
  {
    var picked, before := Pick(s.made, order), Pick(s.made, s.delivered);
    assert before <= picked;
    LastWord(picked, h);
    Words(s, h);
    hide Replay, Names, Says, Entry, Completes, Word;
    var n := LastNaming(picked, h);
    if n >= |s.delivered| {
      TailIsOutstanding(s, order, n);
      assert IsOutstanding(s, h, order[n]);
    } else {
      NoneOutstanding(s, h, order);
      UnnamedTail(before, picked, h);
    }
  }

  /** If the tail of a completion does not name the handle, nothing outstanding does. */
  lemma NoneOutstanding(s: State, h: Int32, order: seq<nat>)
    requires Inv(s) && Completes(s, order)
    requires LastNaming(Pick(s.made, order), h) < |s.delivered|
    ensures forall n :: |s.delivered| <= n < |order| ==> !Names(Pick(s.made, order)[n], h)
    ensures forall n: nat :: !IsOutstanding(s, h, n)
  {
    var picked, d := Pick(s.made, order), |s.delivered|;
    hide Replay, Names, RemovalsPresent;
    forall n: nat | n < |s.made| && n !in s.delivered ensures !Names(s.made[n], h) {
      assert n in order;
      var i :| 0 <= i < |order| && order[i] == n;
      assert forall j :: 0 <= j < d ==> s.delivered[j] == order[j];
      assert picked[i] == s.made[n];
    }
  }

  /** With nothing outstanding for a handle, what was delivered is final. */
  lemma DeliveredDecides(s: State, h: Int32)
    requires Inv(s) && EndsRight(s, h) && forall n: nat :: !IsOutstanding(s, h, n)
    ensures Entry(Replay(Pick(s.made, s.delivered)), h) == Entry(s.table, h)
  {
    var order := Completion(s, -1);
    var picked, before := Pick(s.made, order), Pick(s.made, s.delivered);
    forall n | |before| <= n < |picked| ensures !Names(picked[n], h) {
      TailIsOutstanding(s, order, n);
      assert !IsOutstanding(s, h, order[n]);
    }
    assert before <= picked;
    hide Replay, Names, Entry;
    UnnamedTail(before, picked, h);
  }

  /** The last words of both lists in terms of the map and of what the listener has. */
  lemma Words(s: State, h: Int32)
    requires Inv(s)
    ensures Word(s.made, h) == Entry(s.table, h)
    ensures Word(Pick(s.made, s.delivered), h) == Entry(Replay(Pick(s.made, s.delivered)), h)
  {
    LastWord(s.made, h);
    LastWord(Pick(s.made, s.delivered), h);
  }

  lemma RightExactly(s: State, h: Int32)
    requires Inv(s)
    ensures EndsRight(s, h) <==> CannotMislead(s, h)
  {
    Words(s, h);
    hide Replay, Names, Says, Entry, Word, LastNaming, RemovalsPresent;
    if EndsRight(s, h) {
      forall n: nat | IsOutstanding(s, h, n) ensures Says(s.made[n], h) == Word(s.made, h) {
        OutstandingMayBeLast(s, h, n);
      }
      if forall n: nat :: !IsOutstanding(s, h, n) {
        DeliveredDecides(s, h);
      }
    }
    if CannotMislead(s, h) {
      forall order | Completes(s, order) ensures Entry(Replay(Pick(s.made, order)), h) == Entry(s.table, h) {
        CompletionAgrees(s, h, order);
      }
    }
  }

  /** Overtaking, exactly, at any point of any run and for any handle: the framework is sure to end up
      right about it if and only if each outstanding announcement that names it says the last word, or
      none is outstanding and the last word has been delivered. */
  lemma EndsRightExactly(states: seq<State>, steps: seq<Step>, k: nat, h: Int32)
    requires IsRun(states, steps) && k < |states|
    ensures Inv(states[k]) && (EndsRight(states[k], h) <==> CannotMislead(states[k], h))
  {
    TableIsReplay(states, steps, k);
    RightExactly(states[k], h);
  }

  // ---------------------------------------------------------------- what callers can do about it

  /** The step starts no section that contradicts an outstanding announcement about the handle. */
  ghost predicate Agrees(s: State, step: Step, h: Int32) {
    step.Section? && Names(Announces(s.table, step.call), h) ==>
      forall n: nat :: IsOutstanding(s, h, n) ==> Says(s.made[n], h) == Says(Announces(s.table, step.call), h)
  }

  lemma WordStep(announcements: seq<Announcement>, a: Announcement, h: Int32)
    ensures Word(announcements + [a], h) == if Names(a, h) then Says(a, h) else Word(announcements, h)
  {
    assert (announcements + [a])[..|announcements|] == announcements;
  }

  lemma PickStep(made: seq<Announcement>, a: Announcement, order: seq<nat>, n: nat)
    requires IsOrder(made, order)
    ensures IsOrder(made + [a], order) && Pick(made + [a], order) == Pick(made, order)
    ensures n < |made| && n !in order ==> IsOrder(made, order + [n]) && Pick(made, order + [n]) == Pick(made, order) + [made[n]]
  {
  }

  lemma SectionOutstanding(s: State, call: Call, h: Int32, n: nat)
    requires IsOrder(s.made, s.delivered)
    ensures var a := Announces(s.table, call);
            IsOutstanding(Next(s, Section(call)), h, n) <==>
              IsOutstanding(s, h, n) || (n == |s.made| && Names(a, h))
  {
    assert |s.made| !in s.delivered;
    hide Names, Announces;
  }

  lemma DeliverOutstanding(s: State, d: nat, h: Int32, n: nat)
    requires IsOrder(s.made, s.delivered) && Enabled(s, Deliver(d))
    ensures IsOutstanding(Next(s, Deliver(d)), h, n) <==> IsOutstanding(s, h, n) && n != d
  {
    hide Names;
  }

  lemma SectionKeepsRight(s: State, call: Call, h: Int32)
    requires IsOrder(s.made, s.delivered) && CannotMislead(s, h)
    ensures IsOrder(Next(s, Section(call)).made, s.delivered)
    ensures CannotMislead(Next(s, Section(call)), h) <==> Agrees(s, Section(call), h)
  {
    var a, s' := Announces(s.table, call), Next(s, Section(call));
    WordStep(s.made, a, h);
    PickStep(s.made, a, s.delivered, 0);
    forall n: nat
      ensures IsOutstanding(s', h, n) <==> IsOutstanding(s, h, n) || (n == |s.made| && Names(a, h))
    {
      SectionOutstanding(s, call, h, n);
    }
    assert forall n: nat :: n < |s.made| ==> s'.made[n] == s.made[n];
    assert IsOutstanding(s', h, |s.made|) <==> Names(a, h);
    hide IsOutstanding, Names, Says, Word, Announces, Pick;
  }

  lemma DeliverKeepsRight(s: State, d: nat, h: Int32)
    requires IsOrder(s.made, s.delivered) && Enabled(s, Deliver(d)) && CannotMislead(s, h)
    ensures IsOrder(s.made, s.delivered + [d]) && CannotMislead(Next(s, Deliver(d)), h)
  {
    var s', picked := Next(s, Deliver(d)), Pick(s.made, s.delivered);
    WordStep(picked, s.made[d], h);
    PickStep(s.made, s.made[d], s.delivered, d);
    forall n: nat
      ensures IsOutstanding(s', h, n) <==> IsOutstanding(s, h, n) && n != d
    {
      DeliverOutstanding(s, d, h, n);
    }
    assert IsOutstanding(s, h, d) <==> Names(s.made[d], h);
    hide IsOutstanding, Names, Says, Word, Pick;
  }

  lemma StepKeepsRight(s: State, step: Step, h: Int32)
    requires Inv(s) && Enabled(s, step) && EndsRight(s, h)
    ensures Inv(Next(s, step)) && (EndsRight(Next(s, step), h) <==> Agrees(s, step, h))
  {
    StepKeepsInv(s, step);
    RightExactly(s, h);
    RightExactly(Next(s, step), h);
    hide EndsRight, CannotMislead, Replay, RemovalsPresent;
    match step
    case Section(call) => SectionKeepsRight(s, call, h);
    case Deliver(d) => DeliverKeepsRight(s, d, h);
  }

  lemma RightInitially(h: Int32)
    ensures EndsRight(INIT, h)
  {
    RightExactly(INIT, h);
    assert forall n: nat :: !IsOutstanding(INIT, h, n);
    assert Pick(INIT.made, INIT.delivered) == INIT.made;
  }

  /** In every state up to the k-th the framework is sure to end up right about the handle. */
  ghost predicate RightSoFar(states: seq<State>, steps: seq<Step>, k: nat, h: Int32)
    requires IsRun(states, steps) && k < |states|
  {
    forall j: nat :: j <= k ==> Inv(states[j]) && EndsRight(states[j], h)
  }

  ghost predicate AgreeSoFar(states: seq<State>, steps: seq<Step>, k: nat, h: Int32)
    requires IsRun(states, steps) && k < |states|
  {
    forall j: nat :: j < k ==> Agrees(states[j], steps[j], h)
  }

  /** What keeps the framework right, exactly: throughout a run it is sure to end up right about a
      handle if and only if no critical section that names it starts while an announcement that says
      something else of it is outstanding. */
  lemma {:induction false} RightThroughoutExactly(states: seq<State>, steps: seq<Step>, k: nat, h: Int32)
    requires IsRun(states, steps) && k < |states|
    ensures RightSoFar(states, steps, k, h) <==> AgreeSoFar(states, steps, k, h)
  {
    if k == 0 {
      RightInitially(h);
    } else {
      var s, step := states[k - 1], steps[k - 1];
      assert Enabled(s, step) && states[k] == Next(s, step);
      RightThroughoutExactly(states, steps, k - 1, h);
      TableIsReplay(states, steps, k - 1);
      hide IsRun, Inv, EndsRight, Agrees, Next;
      if EndsRight(s, h) {
        StepKeepsRight(s, step, h);
      }
      SoFarStep(states, steps, k, h);
    }
  }

  lemma SoFarStep(states: seq<State>, steps: seq<Step>, k: nat, h: Int32)
    requires IsRun(states, steps) && 0 < k < |states| && Inv(states[k - 1])
    ensures RightSoFar(states, steps, k, h) <==>
            RightSoFar(states, steps, k - 1, h) && Inv(states[k]) && EndsRight(states[k], h)
    ensures AgreeSoFar(states, steps, k, h) <==>
            AgreeSoFar(states, steps, k - 1, h) && Agrees(states[k - 1], steps[k - 1], h)
    ensures RightSoFar(states, steps, k - 1, h) ==> EndsRight(states[k - 1], h)
  {
    hide IsRun, Inv, EndsRight, Agrees;
  }

  /** In particular, callers are safe that start no call about a sensor while an announcement about it
      is outstanding. */
  lemma SeparateCallsEndRight(states: seq<State>, steps: seq<Step>, k: nat, h: Int32)
    requires IsRun(states, steps) && k < |states|
    requires forall j: nat, n: nat :: j < k && steps[j].Section? && Names(Announces(states[j].table, steps[j].call), h)
               ==> !IsOutstanding(states[j], h, n)
    ensures Inv(states[k]) && EndsRight(states[k], h)
  {
    RightThroughoutExactly(states, steps, k, h);
    assert RightSoFar(states, steps, k, h);
  }

  lemma ConnectOne(x: SensorInfo, subHalIndex: nat)
    requires SubHalIndexIsClear(x.sensorHandle)
    ensures var tagged := x.(sensorHandle := SetSubHalIndex(x.sensorHandle, subHalIndex));
            && Announces(map[], Connect([x], subHalIndex)) == Connected([tagged])
            && After(map[], Connected([tagged])) == map[tagged.sensorHandle := tagged]
  {
    hide SetSubHalIndex, SubHalIndexIsClear;
    var tagged := x.(sensorHandle := SetSubHalIndex(x.sensorHandle, subHalIndex));
    assert [x][..0] == [] && Tagged([], subHalIndex) == [];
    assert Tagged([x], subHalIndex) == [] + [tagged] == [tagged];
    NothingAdded(map[]);
    AddStep(map[], [], tagged);
    assert [] + [tagged] == [tagged];
  }

  lemma DisconnectOne(table: SensorTable, h: Int32, subHalIndex: nat)
    requires SubHalIndexIsClear(h) && SetSubHalIndex(h, subHalIndex) in table
    ensures var key := SetSubHalIndex(h, subHalIndex);
            && Announces(table, Disconnect([h], subHalIndex)) == Disconnected([key])
            && After(table, Disconnected([key])) == table - {key}
  {
    hide SetSubHalIndex, SubHalIndexIsClear, Present;
    var key := SetSubHalIndex(h, subHalIndex);
    assert [h][..0] == [] && Removed(table, [], subHalIndex) == [];
    NothingRemoved(table);
    assert Removed(table, [h], subHalIndex) == [] + [key] == [key];
    RemoveStep(table, [], key);
    assert [] + [key] == [key];
  }

  /** And calls that are not separated do mislead: a sensor connects and disconnects, the announcements
      overtake each other, and the framework is left with a sensor that is gone. */
  lemma OvertakingMisleads(x: SensorInfo, subHalIndex: nat) returns (states: seq<State>, steps: seq<Step>, key: Int32)
    requires SubHalIndexIsClear(x.sensorHandle)
    ensures IsRun(states, steps) && |steps| == 4 && key == SetSubHalIndex(x.sensorHandle, subHalIndex)
    ensures steps == [Section(Connect([x], subHalIndex)), Section(Disconnect([x.sensorHandle], subHalIndex)),
                      Deliver(1), Deliver(0)]
    ensures var s := states[4];
            && s.table == map[] && IsOrder(s.made, s.delivered)
            && (forall n :: 0 <= n < |s.made| ==> n in s.delivered)
            && key in Replay(Pick(s.made, s.delivered))
  {
    key := SetSubHalIndex(x.sensorHandle, subHalIndex);
    var tagged := x.(sensorHandle := key);
    var call, call' := Connect([x], subHalIndex), Disconnect([x.sensorHandle], subHalIndex);
    var a, b := Connected([tagged]), Disconnected([key]);
    ConnectOne(x, subHalIndex);
    DisconnectOne(map[key := tagged], x.sensorHandle, subHalIndex);
    assert map[key := tagged] - {key} == map[];
    hide SetSubHalIndex, SubHalIndexIsClear;
    steps := [Section(call), Section(call'), Deliver(1), Deliver(0)];
    states := [INIT, State(map[key := tagged], [a], []), State(map[], [a, b], []),
               State(map[], [a, b], [1]), State(map[], [a, b], [1, 0])];
    hide Announces, After;
    assert Pick([a, b], [1, 0]) == [b, a];
    LastWord([b, a], key);
    assert LastNaming([b, a], key) == 1;
  }
}
