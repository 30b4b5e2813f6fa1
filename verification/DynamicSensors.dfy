/** Dynamic sensors: the stored map and what is announced to the framework. */
module DynamicSensors {
  import opened SensorTypes
  import opened SensorHandle

  datatype Announcement = Connected(added: seq<SensorInfo>) | Disconnected(removed: seq<Int32>)

  // ---------------------------------------------------------------- what the framework concludes

  function AddAll(table: SensorTable, added: seq<SensorInfo>): SensorTable {
    if added == [] then table
    else
      var last := added[|added| - 1];
      AddAll(table, added[..|added| - 1])[last.sensorHandle := last]
  }

  function RemoveAll(table: SensorTable, removed: seq<Int32>): SensorTable {
    if removed == [] then table
    else RemoveAll(table, removed[..|removed| - 1]) - {removed[|removed| - 1]}
  }

  function After(table: SensorTable, a: Announcement): SensorTable {
    match a
    case Connected(added) => AddAll(table, added)
    case Disconnected(removed) => RemoveAll(table, removed)
  }

  /** The map a listener builds that starts empty and applies every announcement. */
  function Replay(announcements: seq<Announcement>): SensorTable {
    if announcements == [] then map[]
    else After(Replay(announcements[..|announcements| - 1]), announcements[|announcements| - 1])
  }

  /** Each handle is there when its turn comes; in particular none is removed twice. */
  predicate Present(table: SensorTable, removed: seq<Int32>) {
    forall i :: 0 <= i < |removed| ==> removed[i] in RemoveAll(table, removed[..i])
  }

  /** Every announced removal was of a sensor the listener knows at that point. */
  predicate RemovalsPresent(announcements: seq<Announcement>) {
    forall i :: 0 <= i < |announcements| && announcements[i].Disconnected? ==>
      Present(Replay(announcements[..i]), announcements[i].removed)
  }

  lemma AddStep(table: SensorTable, added: seq<SensorInfo>, s: SensorInfo)
    ensures AddAll(table, added + [s]) == AddAll(table, added)[s.sensorHandle := s]
  {
    assert (added + [s])[..|added|] == added;
  }

  lemma NothingAdded(table: SensorTable)
    ensures AddAll(table, []) == table
  {
  }

  lemma RemoveStep(table: SensorTable, removed: seq<Int32>, h: Int32)
    requires Present(table, removed) && h in RemoveAll(table, removed)
    ensures RemoveAll(table, removed + [h]) == RemoveAll(table, removed) - {h}
    ensures Present(table, removed + [h])
  {
    var more := removed + [h];
    assert more[..|removed|] == removed;
    hide RemoveAll;
    forall i | 0 <= i < |more| ensures more[i] in RemoveAll(table, more[..i]) {
      if i < |removed| { assert more[..i] == removed[..i]; }
    }
  }

  lemma NothingRemoved(table: SensorTable)
    ensures Present(table, []) && RemoveAll(table, []) == table
  {
  }

  /** One more announcement. */
  lemma AnnounceStep(announcements: seq<Announcement>, a: Announcement)
    requires RemovalsPresent(announcements)
    requires a.Disconnected? ==> Present(Replay(announcements), a.removed)
    ensures RemovalsPresent(announcements + [a])
    ensures Replay(announcements + [a]) == After(Replay(announcements), a)
  {
    var more := announcements + [a];
    assert more[..|announcements|] == announcements;
    assert forall i :: 0 <= i < |announcements| ==> more[..i] == announcements[..i];
  }

  // ---------------------------------------------------------------- the proxy

  /** The accepted sensors of a connect call, tagged, in order. */
  function Tagged(sensors: seq<SensorInfo>, subHalIndex: nat): seq<SensorInfo> {
    if sensors == [] then []
    else
      var last := sensors[|sensors| - 1];
      Tagged(sensors[..|sensors| - 1], subHalIndex) +
      if SubHalIndexIsClear(last.sensorHandle)
      then [last.(sensorHandle := SetSubHalIndex(last.sensorHandle, subHalIndex))] else []
  }

  /** The tagged handles a disconnect call finds in the map, in order; each is found once. */
  function Removed(table: SensorTable, handles: seq<Int32>, subHalIndex: nat): seq<Int32> {
    if handles == [] then []
    else
      var found, last := Removed(table, handles[..|handles| - 1], subHalIndex), handles[|handles| - 1];
      var key := SetSubHalIndex(last, subHalIndex);
      found + if SubHalIndexIsClear(last) && key in RemoveAll(table, found) then [key] else []
  }

  /** A call of a sub-HAL's callback. */
  datatype Call = Connect(added: seq<SensorInfo>, subHalIndex: nat) | Disconnect(handles: seq<Int32>, subHalIndex: nat)

  /** What a call announces; the map is updated as the announcement says. */
  function Announces(table: SensorTable, call: Call): Announcement {
    match call
    case Connect(added, subHalIndex) => Connected(Tagged(added, subHalIndex))
    case Disconnect(handles, subHalIndex) => Disconnected(Removed(table, handles, subHalIndex))
  }

  lemma {:induction false} RemovedPresent(table: SensorTable, handles: seq<Int32>, subHalIndex: nat)
    ensures Present(table, Removed(table, handles, subHalIndex))
  {
    hide SetSubHalIndex, SubHalIndexIsClear, RemoveAll, Present;
    NothingRemoved(table);
    if handles != [] {
      var front := handles[..|handles| - 1];
      RemovedPresent(table, front, subHalIndex);
      var found, key := Removed(table, front, subHalIndex), SetSubHalIndex(handles[|handles| - 1], subHalIndex);
      assert found + [] == found;
      if key in RemoveAll(table, found) {
        RemoveStep(table, found, key);
      }
    }
  }

  /** The keys a disconnect call names. */
  predicate Targets(handles: seq<Int32>, subHalIndex: nat, key: Int32) {
    exists i :: 0 <= i < |handles| && SubHalIndexIsClear(handles[i])
                && SetSubHalIndex(handles[i], subHalIndex) == key
  }

  // ---------------------------------------------------------------- what the calls do, sensor by sensor

  predicate Clear(h: Int32) { 0 <= h < 0x100_0000 }

  predicate Increasing(at: seq<nat>) {
    forall m, n :: 0 <= m < n < |at| ==> at[m] < at[n]
  }

  function KeyOf(added: seq<SensorInfo>, subHalIndex: nat, i: nat): Int32
    requires i < |added|
  {
    SetSubHalIndex(added[i].sensorHandle, subHalIndex)
  }

  /** A clear sensor of the call, and no later clear one has its key. */
  predicate LastOfItsKey(added: seq<SensorInfo>, subHalIndex: nat, i: nat) {
    && i < |added| && Clear(added[i].sensorHandle)
    && forall j :: i < j < |added| && Clear(added[j].sensorHandle) ==>
         KeyOf(added, subHalIndex, j) != KeyOf(added, subHalIndex, i)
  }

  /** Every key the call names goes to the last clear sensor that names it, all others stay. */
  ghost predicate Connects(before: SensorTable, added: seq<SensorInfo>, subHalIndex: nat, after: SensorTable) {
    && (forall i: nat :: LastOfItsKey(added, subHalIndex, i) ==>
          && KeyOf(added, subHalIndex, i) in after
          && after[KeyOf(added, subHalIndex, i)] == added[i].(sensorHandle := KeyOf(added, subHalIndex, i)))
    && (forall key: Int32 :: !NamedBy(added, subHalIndex, key) ==>
          (key in after <==> key in before) && (key in before ==> after[key] == before[key]))
  }

  /** Some clear sensor of the call has the key. */
  predicate NamedBy(added: seq<SensorInfo>, subHalIndex: nat, key: Int32) {
    exists i :: 0 <= i < |added| && Clear(added[i].sensorHandle) && KeyOf(added, subHalIndex, i) == key
  }

  /** The announced sensors are the clear ones of the call, each at its turn, with the key as handle. */
  predicate AnnouncedFrom(added: seq<SensorInfo>, subHalIndex: nat, announced: seq<SensorInfo>, at: seq<nat>) {
    && Increasing(at) && |announced| == |at|
    && (forall m :: 0 <= m < |at| ==>
          at[m] < |added| && announced[m] == added[at[m]].(sensorHandle := KeyOf(added, subHalIndex, at[m])))
    && (forall i: nat :: i < |added| ==> (i in at <==> Clear(added[i].sensorHandle)))
  }

  ghost predicate AnnouncesClear(added: seq<SensorInfo>, subHalIndex: nat, announced: seq<SensorInfo>) {
    exists at: seq<nat> :: AnnouncedFrom(added, subHalIndex, announced, at)
  }

  lemma NamedByStep(added: seq<SensorInfo>, last: SensorInfo, subHalIndex: nat, key: Int32)
    ensures NamedBy(added + [last], subHalIndex, key) <==>
            NamedBy(added, subHalIndex, key)
            || (Clear(last.sensorHandle) && SetSubHalIndex(last.sensorHandle, subHalIndex) == key)
  {
    hide SetSubHalIndex, Clear;
    var more := added + [last];
    assert more[|added|] == last;
    assert forall i :: 0 <= i < |added| ==> more[i] == added[i];
    if i :| 0 <= i < |added| && Clear(added[i].sensorHandle) && KeyOf(added, subHalIndex, i) == key {
      assert Clear(more[i].sensorHandle) && KeyOf(more, subHalIndex, i) == key;
    }
    if Clear(last.sensorHandle) && SetSubHalIndex(last.sensorHandle, subHalIndex) == key {
      assert Clear(more[|added|].sensorHandle) && KeyOf(more, subHalIndex, |added|) == key;
    }
  }

  lemma LastOfItsKeyStep(added: seq<SensorInfo>, last: SensorInfo, subHalIndex: nat, i: nat)
    requires i <= |added| && LastOfItsKey(added + [last], subHalIndex, i)
    ensures i == |added| ==> Clear(last.sensorHandle)
    ensures i < |added| ==>
              && LastOfItsKey(added, subHalIndex, i)
              && (Clear(last.sensorHandle) ==>
                    KeyOf(added, subHalIndex, i) != SetSubHalIndex(last.sensorHandle, subHalIndex))
  {
    hide SetSubHalIndex, Clear;
    var more := added + [last];
    assert more[|added|] == last;
    assert forall j :: 0 <= j < |added| ==> more[j] == added[j] && KeyOf(more, subHalIndex, j) == KeyOf(added, subHalIndex, j);
    assert KeyOf(more, subHalIndex, |added|) == SetSubHalIndex(last.sensorHandle, subHalIndex);
  }

  lemma ConnectsStep(before: SensorTable, added: seq<SensorInfo>, last: SensorInfo, subHalIndex: nat, after: SensorTable)
    requires Connects(before, added, subHalIndex, after)
    ensures var key := SetSubHalIndex(last.sensorHandle, subHalIndex);
            Connects(before, added + [last], subHalIndex,
                     if Clear(last.sensorHandle) then after[key := last.(sensorHandle := key)] else after)
  {
    hide SetSubHalIndex, Clear, LastOfItsKey, NamedBy;
    var more, key := added + [last], SetSubHalIndex(last.sensorHandle, subHalIndex);
    var after' := if Clear(last.sensorHandle) then after[key := last.(sensorHandle := key)] else after;
    forall i: nat | LastOfItsKey(more, subHalIndex, i)
      ensures i < |more| && KeyOf(more, subHalIndex, i) in after'
      ensures after'[KeyOf(more, subHalIndex, i)] == more[i].(sensorHandle := KeyOf(more, subHalIndex, i))
    {
      LastInRange(more, subHalIndex, i);
      LastOfItsKeyStep(added, last, subHalIndex, i);
    }
    forall k: Int32 | !NamedBy(more, subHalIndex, k)
      ensures (k in after' <==> k in before) && (k in before ==> after'[k] == before[k])
    {
      NamedByStep(added, last, subHalIndex, k);
    }
    LastsInRange(more, subHalIndex);
  }

  lemma LastInRange(added: seq<SensorInfo>, subHalIndex: nat, i: nat)
    requires LastOfItsKey(added, subHalIndex, i)
    ensures i < |added|
  {
  }

  lemma LastsInRange(added: seq<SensorInfo>, subHalIndex: nat)
    ensures forall i: nat :: LastOfItsKey(added, subHalIndex, i) ==> i < |added|
  {
  }

  lemma {:induction false} ConnectSpelledOut(before: SensorTable, added: seq<SensorInfo>, subHalIndex: nat)
    ensures Connects(before, added, subHalIndex, AddAll(before, Tagged(added, subHalIndex)))
  {
    if added == [] {
      NothingAdded(before);
    } else {
      var front, last := added[..|added| - 1], added[|added| - 1];
      ConnectSpelledOut(before, front, subHalIndex);
      ConnectsStep(before, front, last, subHalIndex, AddAll(before, Tagged(front, subHalIndex)));
      assert front + [last] == added;
      ClearIsLow(last.sensorHandle);
      AddStep(before, Tagged(front, subHalIndex),
              last.(sensorHandle := SetSubHalIndex(last.sensorHandle, subHalIndex)));
      assert Tagged(front, subHalIndex) + [] == Tagged(front, subHalIndex);
      hide Connects, AddAll, SetSubHalIndex, SubHalIndexIsClear;
    }
  }

  lemma AnnouncedStep(front: seq<SensorInfo>, last: SensorInfo, subHalIndex: nat, announced: seq<SensorInfo>, at: seq<nat>)
    requires AnnouncedFrom(front, subHalIndex, announced, at)
    ensures var tagged := last.(sensorHandle := SetSubHalIndex(last.sensorHandle, subHalIndex));
            if Clear(last.sensorHandle)
            then AnnouncedFrom(front + [last], subHalIndex, announced + [tagged], at + [|front|])
            else AnnouncedFrom(front + [last], subHalIndex, announced, at)
  {
    hide SetSubHalIndex, Clear;
    var added, n := front + [last], |front|;
    assert added[n] == last && KeyOf(added, subHalIndex, n) == SetSubHalIndex(last.sensorHandle, subHalIndex);
    assert forall i :: 0 <= i < n ==> added[i] == front[i] && KeyOf(added, subHalIndex, i) == KeyOf(front, subHalIndex, i);
    hide KeyOf;
    assert forall m :: 0 <= m < |at| ==> at[m] < n;
    assert forall i: nat :: i in at + [n] <==> i in at || i == n;
    assert n !in at;
  }

  lemma NothingAnnounced(subHalIndex: nat)
    ensures Tagged([], subHalIndex) == [] && AnnouncedFrom([], subHalIndex, [], [])
  {
  }

  lemma TaggedStep(added: seq<SensorInfo>, subHalIndex: nat)
    requires added != []
    ensures var last := added[|added| - 1];
            Tagged(added, subHalIndex) == Tagged(added[..|added| - 1], subHalIndex) +
              if Clear(last.sensorHandle)
              then [last.(sensorHandle := SetSubHalIndex(last.sensorHandle, subHalIndex))] else []
  {
    ClearIsLow(added[|added| - 1].sensorHandle);
    hide SetSubHalIndex, SubHalIndexIsClear;
  }

  lemma {:induction false} AnnouncedPositions(added: seq<SensorInfo>, subHalIndex: nat) returns (at: seq<nat>)
    ensures AnnouncedFrom(added, subHalIndex, Tagged(added, subHalIndex), at)
  {
    hide *;
    if added == [] {
      at := [];
      NothingAnnounced(subHalIndex);
    } else {
      TaggedStep(added, subHalIndex);
      var n := |added| - 1;
      var before := AnnouncedPositions(added[..n], subHalIndex);
      AnnouncedStep(added[..n], added[n], subHalIndex, Tagged(added[..n], subHalIndex), before);
      assert added[..n] + [added[n]] == added;
      assert Tagged(added[..n], subHalIndex) + [] == Tagged(added[..n], subHalIndex);
      at := if Clear(added[n].sensorHandle) then before + [n] else before;
    }
  }

  /** A handle of the call with a clear top byte and a key in the map, and the first of its key. */
  predicate FirstFound(table: SensorTable, handles: seq<Int32>, subHalIndex: nat, i: nat) {
    && i < |handles| && Clear(handles[i]) && SetSubHalIndex(handles[i], subHalIndex) in table
    && forall j :: 0 <= j < i && Clear(handles[j]) ==>
         SetSubHalIndex(handles[j], subHalIndex) != SetSubHalIndex(handles[i], subHalIndex)
  }

  /** The announced removals are the keys found, each at its first turn. */
  ghost predicate RemovedFrom(table: SensorTable, handles: seq<Int32>, subHalIndex: nat, removed: seq<Int32>, at: seq<nat>) {
    && Increasing(at) && |removed| == |at|
    && (forall m :: 0 <= m < |at| ==> at[m] < |handles| && removed[m] == SetSubHalIndex(handles[at[m]], subHalIndex))
    && (forall i: nat :: i in at <==> FirstFound(table, handles, subHalIndex, i))
  }

  ghost predicate AnnouncesFound(table: SensorTable, handles: seq<Int32>, subHalIndex: nat, removed: seq<Int32>) {
    exists at: seq<nat> :: RemovedFrom(table, handles, subHalIndex, removed, at)
  }

  lemma {:induction false} RemoveAllKeys(table: SensorTable, removed: seq<Int32>)
    ensures forall key :: key in RemoveAll(table, removed) <==> key in table && key !in removed
  {
    if removed != [] {
      var n := |removed| - 1;
      RemoveAllKeys(table, removed[..n]);
      assert removed == removed[..n] + [removed[n]];
    }
  }

  lemma {:induction false} RemoveAllValues(table: SensorTable, removed: seq<Int32>)
    ensures forall key :: key in RemoveAll(table, removed) ==> key in table && RemoveAll(table, removed)[key] == table[key]
  {
    if removed != [] {
      RemoveAllValues(table, removed[..|removed| - 1]);
    }
  }

  /** A handle is found if its key is in the map and was not found before. */
  lemma {:induction false} RemovedKeys(table: SensorTable, handles: seq<Int32>, subHalIndex: nat)
    ensures forall key :: key in Removed(table, handles, subHalIndex) <==>
              key in table && Targets(handles, subHalIndex, key)
  {
    if handles != [] {
      var n := |handles| - 1;
      RemovedKeys(table, handles[..n], subHalIndex);
      RemoveAllKeys(table, Removed(table, handles[..n], subHalIndex));
      TargetsStep(handles, n, subHalIndex);
      assert handles[..n + 1] == handles;
      hide SetSubHalIndex, SubHalIndexIsClear, Targets, RemoveAll;
    }
  }

  lemma FirstFoundLast(table: SensorTable, handles: seq<Int32>, subHalIndex: nat)
    requires handles != []
    ensures var n := |handles| - 1;
            FirstFound(table, handles, subHalIndex, n) <==>
              && SubHalIndexIsClear(handles[n]) && SetSubHalIndex(handles[n], subHalIndex) in table
              && !Targets(handles[..n], subHalIndex, SetSubHalIndex(handles[n], subHalIndex))
  {
    var n := |handles| - 1;
    forall j | 0 <= j <= n ensures Clear(handles[j]) <==> SubHalIndexIsClear(handles[j]) {
      ClearIsLow(handles[j]);
    }
    hide SetSubHalIndex, SubHalIndexIsClear, Clear;
    assert forall j :: 0 <= j < n ==> handles[..n][j] == handles[j];
  }

  lemma FirstFoundBefore(table: SensorTable, handles: seq<Int32>, subHalIndex: nat, i: nat)
    requires handles != [] && i < |handles| - 1
    ensures FirstFound(table, handles, subHalIndex, i) <==> FirstFound(table, handles[..|handles| - 1], subHalIndex, i)
  {
    hide SetSubHalIndex, Clear;
    assert forall j :: 0 <= j <= i ==> handles[..|handles| - 1][j] == handles[j];
  }

  lemma RemovedFromStep(table: SensorTable, handles: seq<Int32>, subHalIndex: nat, found: seq<Int32>, at: seq<nat>)
    requires handles != [] && RemovedFrom(table, handles[..|handles| - 1], subHalIndex, found, at)
    ensures var n := |handles| - 1;
            if FirstFound(table, handles, subHalIndex, n)
            then RemovedFrom(table, handles, subHalIndex, found + [SetSubHalIndex(handles[n], subHalIndex)], at + [n])
            else RemovedFrom(table, handles, subHalIndex, found, at)
  {
    var n := |handles| - 1;
    var front := handles[..n];
    forall i: nat | i < n
      ensures FirstFound(table, handles, subHalIndex, i) <==> FirstFound(table, front, subHalIndex, i)
    {
      FirstFoundBefore(table, handles, subHalIndex, i);
    }
    FoundInRange(table, front, subHalIndex);
    FoundInRange(table, handles, subHalIndex);
    hide FirstFound, SetSubHalIndex;
    var more := at + [n];
    forall i: nat ensures i in more <==> i in at || i == n {
    }
  }

  lemma {:induction false} RemovedPositions(table: SensorTable, handles: seq<Int32>, subHalIndex: nat) returns (at: seq<nat>)
    ensures RemovedFrom(table, handles, subHalIndex, Removed(table, handles, subHalIndex), at)
  {
    hide SetSubHalIndex, SubHalIndexIsClear, RemoveAll, Targets, FirstFound, RemovedFrom;
    if handles == [] {
      at := [];
      NothingFound(table, subHalIndex);
    } else {
      var n := |handles| - 1;
      var found := Removed(table, handles[..n], subHalIndex);
      var before := RemovedPositions(table, handles[..n], subHalIndex);
      FirstFoundLast(table, handles, subHalIndex);
      RemovedKeys(table, handles[..n], subHalIndex);
      RemoveAllKeys(table, found);
      RemovedFromStep(table, handles, subHalIndex, found, before);
      assert found + [] == found;
      at := if FirstFound(table, handles, subHalIndex, n) then before + [n] else before;
    }
  }

  lemma NothingFound(table: SensorTable, subHalIndex: nat)
    ensures RemovedFrom(table, [], subHalIndex, [], [])
  {
  }

  lemma FoundInRange(table: SensorTable, handles: seq<Int32>, subHalIndex: nat)
    ensures forall i: nat :: FirstFound(table, handles, subHalIndex, i) ==> i < |handles|
  {
  }

  class DynamicSensorList {
    var dynamicSensors: SensorTable
    /** Calls of the framework's callback since the last initialization. */
    var announcements: seq<Announcement>

    /** Replaying the announcements rebuilds the map, and no removal was news. */
    predicate Valid()
      reads this
    {
      Replay(announcements) == dynamicSensors && RemovalsPresent(announcements)
    }

    constructor ()
      ensures Valid() && announcements == []
    {
      dynamicSensors, announcements := map[], [];
    }

    method OnDynamicSensorsConnected(dynamicSensorsAdded: seq<SensorInfo>, subHalIndex: nat)
      requires Valid()
      modifies this
      ensures Valid()
      ensures Connects(old(dynamicSensors), dynamicSensorsAdded, subHalIndex, dynamicSensors)
      ensures |announcements| == |old(announcements)| + 1 && announcements[|old(announcements)|].Connected?
      ensures AnnouncesClear(dynamicSensorsAdded, subHalIndex, announcements[|old(announcements)|].added)
      ensures var a := Announces(old(dynamicSensors), Connect(dynamicSensorsAdded, subHalIndex));
              announcements == old(announcements) + [a] && dynamicSensors == After(old(dynamicSensors), a)
    {
      hide SetSubHalIndex, SubHalIndexIsClear, AddAll, Replay, RemovalsPresent, Connects, AnnouncedFrom;
      var sensors: seq<SensorInfo> := [];
      NothingAdded(dynamicSensors);
      for i := 0 to |dynamicSensorsAdded|
        invariant announcements == old(announcements)
        invariant sensors == Tagged(dynamicSensorsAdded[..i], subHalIndex)
        invariant dynamicSensors == AddAll(old(dynamicSensors), sensors)
      {
        var sensor := dynamicSensorsAdded[i];
        assert dynamicSensorsAdded[..i + 1][..i] == dynamicSensorsAdded[..i];
        if SubHalIndexIsClear(sensor.sensorHandle) {
          sensor := sensor.(sensorHandle := SetSubHalIndex(sensor.sensorHandle, subHalIndex));
          AddStep(old(dynamicSensors), sensors, sensor);
          dynamicSensors := dynamicSensors[sensor.sensorHandle := sensor];
          sensors := sensors + [sensor];
        }
      }
      assert dynamicSensorsAdded[..|dynamicSensorsAdded|] == dynamicSensorsAdded;
      ConnectSpelledOut(old(dynamicSensors), dynamicSensorsAdded, subHalIndex);
      var _ := AnnouncedPositions(dynamicSensorsAdded, subHalIndex);
      AnnounceStep(announcements, Connected(sensors));
      announcements := announcements + [Connected(sensors)];
    }

    method OnDynamicSensorsDisconnected(dynamicSensorHandlesRemoved: seq<Int32>, subHalIndex: nat)
      requires Valid()
      modifies this
      ensures Valid()
      ensures |announcements| == |old(announcements)| + 1 && announcements[|old(announcements)|].Disconnected?
      ensures AnnouncesFound(old(dynamicSensors), dynamicSensorHandlesRemoved, subHalIndex,
                             announcements[|old(announcements)|].removed)
      ensures var a := Announces(old(dynamicSensors), Disconnect(dynamicSensorHandlesRemoved, subHalIndex));
              announcements == old(announcements) + [a] && dynamicSensors == After(old(dynamicSensors), a)
      ensures dynamicSensors == map key | key in old(dynamicSensors)
                && !Targets(dynamicSensorHandlesRemoved, subHalIndex, key) :: old(dynamicSensors)[key]
    {
      hide SetSubHalIndex, SubHalIndexIsClear, RemoveAll, Present, RemovedFrom, Replay, RemovalsPresent;
      var sensorHandles: seq<Int32> := [];
      NothingRemoved(dynamicSensors);
      for i := 0 to |dynamicSensorHandlesRemoved|
        invariant announcements == old(announcements)
        invariant sensorHandles == Removed(old(dynamicSensors), dynamicSensorHandlesRemoved[..i], subHalIndex)
        invariant dynamicSensors == RemoveAll(old(dynamicSensors), sensorHandles)
        invariant dynamicSensors == map key | key in old(dynamicSensors)
          && !Targets(dynamicSensorHandlesRemoved[..i], subHalIndex, key) :: old(dynamicSensors)[key]
      {
        var sensorHandle := dynamicSensorHandlesRemoved[i];
        ghost var before := dynamicSensors;
        TargetsStep(dynamicSensorHandlesRemoved, i, subHalIndex);
        RemovedPresent(old(dynamicSensors), dynamicSensorHandlesRemoved[..i], subHalIndex);
        assert dynamicSensorHandlesRemoved[..i + 1][..i] == dynamicSensorHandlesRemoved[..i];
        if SubHalIndexIsClear(sensorHandle) {
          sensorHandle := SetSubHalIndex(sensorHandle, subHalIndex);
          if sensorHandle in dynamicSensors {
            RemoveStep(old(dynamicSensors), sensorHandles, sensorHandle);
            dynamicSensors := dynamicSensors - {sensorHandle};
            sensorHandles := sensorHandles + [sensorHandle];
          }
        }
      }
      assert dynamicSensorHandlesRemoved[..|dynamicSensorHandlesRemoved|] == dynamicSensorHandlesRemoved;
      RemovedPresent(old(dynamicSensors), dynamicSensorHandlesRemoved, subHalIndex);
      var _ := RemovedPositions(old(dynamicSensors), dynamicSensorHandlesRemoved, subHalIndex);
      AnnounceStep(announcements, Disconnected(sensorHandles));
      announcements := announcements + [Disconnected(sensorHandles)];
    }
  }

  lemma TargetsStep(handles: seq<Int32>, i: nat, subHalIndex: nat)
    requires i < |handles|
    ensures forall key :: Targets(handles[..i + 1], subHalIndex, key) <==>
              Targets(handles[..i], subHalIndex, key)
              || (SubHalIndexIsClear(handles[i]) && SetSubHalIndex(handles[i], subHalIndex) == key)
  {
    hide SetSubHalIndex, SubHalIndexIsClear;
    assert forall j :: 0 <= j < i ==> handles[..i + 1][j] == handles[..i][j];
    assert handles[..i + 1][i] == handles[i];
    forall key | Targets(handles[..i], subHalIndex, key) ensures Targets(handles[..i + 1], subHalIndex, key) {
      var j :| 0 <= j < i && SubHalIndexIsClear(handles[..i][j]) && SetSubHalIndex(handles[..i][j], subHalIndex) == key;
      assert SubHalIndexIsClear(handles[..i + 1][j]);
    }
  }
}
