/** The scan of all sub-HALs' sensors, the election of the direct-channel sub-HAL on the way, and
    the routing that relies on both. */
module SensorList {
  import opened Common
  import opened SensorTypes
  import opened SensorHandle

  predicate DirectCapable(flags: SensorFlags) {
    flags.directReport != 0 || flags.directChannel != 0
  }

  function WithoutDirect(flags: SensorFlags): SensorFlags {
    flags.(directReport := 0, directChannel := 0)
  }

  // ---------------------------------------------------------------- the two-pass specification

  /** A sensor as sub-HAL `subHal` reports it. */
  datatype Report = Report(sensor: SensorInfo, subHal: nat) {
    function Key(): Int32 { SetSubHalIndex(sensor.sensorHandle, subHal) }

    predicate Accepted() { SubHalIndexIsClear(sensor.sensorHandle) }

    predicate Eligible() { Accepted() && DirectCapable(sensor.flags) }

    /** The listed form once the election is known: only the elected sub-HAL keeps direct flags. */
    function Listed(elected: Option<nat>): SensorInfo {
      SensorInfo(Key(),
                 if sensor.sensorType == QtiWiseLight then Light else sensor.sensorType,
                 if elected == Some(subHal) then sensor.flags else WithoutDirect(sensor.flags))
    }
  }

  /** All reports in scan order: list after list. */
  function Reports(lists: seq<seq<SensorInfo>>): seq<Report> {
    if lists == [] then []
    else
      var n := |lists| - 1;
      Reports(lists[..n]) + ReportsOf(lists[n], n)
  }

  function ReportsOf(list: seq<SensorInfo>, subHal: nat): seq<Report> {
    seq(|list|, j requires 0 <= j < |list| => Report(list[j], subHal))
  }

  /** The election: the sub-HAL of the first eligible report, nobody if there is none. */
  predicate IsElected(reports: seq<Report>, elected: Option<nat>) {
    match elected
    case None => forall n :: 0 <= n < |reports| ==> !reports[n].Eligible()
    case Some(k) =>
      exists n :: 0 <= n < |reports| && reports[n].Eligible() && reports[n].subHal == k
                  && forall m :: 0 <= m < n ==> !reports[m].Eligible()
  }

  /** Report n is accepted and the last accepted one of its key. */
  predicate LastOfKey(reports: seq<Report>, n: nat) {
    && n < |reports| && reports[n].Accepted()
    && forall m :: n < m < |reports| && reports[m].Accepted() ==> reports[m].Key() != reports[n].Key()
  }

  /** The table holds the listed form of the last report of every key, and nothing else. */
  predicate IsTable(reports: seq<Report>, elected: Option<nat>, table: SensorTable) {
    && (forall n :: 0 <= n < |reports| && LastOfKey(reports, n) ==>
          reports[n].Key() in table && table[reports[n].Key()] == reports[n].Listed(elected))
    && (forall key :: key in table ==>
          exists n :: 0 <= n < |reports| && LastOfKey(reports, n) && reports[n].Key() == key)
  }

  // ---------------------------------------------------------------- the one-pass scan

  /** Appending a report takes its key over if it is accepted, and does nothing else. */
  lemma LastOfKeyStep(reports: seq<Report>, r: Report, n: nat)
    requires n < |reports|
    ensures LastOfKey(reports + [r], n) <==>
            LastOfKey(reports, n) && (r.Accepted() ==> reports[n].Key() != r.Key())
  {
    hide SetSubHalIndex, SubHalIndexIsClear;
    var more := reports + [r];
    assert forall m :: 0 <= m < |reports| ==> more[m] == reports[m];
    assert more[|reports|] == r;
  }

  lemma RejectedTable(reports: seq<Report>, r: Report, elected: Option<nat>, table: SensorTable)
    requires !r.Accepted() && IsTable(reports, elected, table)
    ensures IsTable(reports + [r], elected, table)
  {
    hide SetSubHalIndex, SubHalIndexIsClear;
    var more := reports + [r];
    assert forall n :: 0 <= n < |reports| ==> more[n] == reports[n];
    assert more[|reports|] == r;
    forall n | 0 <= n < |reports| ensures LastOfKey(more, n) <==> LastOfKey(reports, n) {
      LastOfKeyStep(reports, r, n);
    }
    forall key | key in table
      ensures exists n :: 0 <= n < |more| && LastOfKey(more, n) && more[n].Key() == key
    {
      var n :| 0 <= n < |reports| && LastOfKey(reports, n) && reports[n].Key() == key;
      assert LastOfKey(more, n) && more[n].Key() == key;
    }
  }

  /** Electing on the first eligible report changes no earlier entry: none had direct flags. */
  lemma LateElection(reports: seq<Report>, table: SensorTable, k: nat)
    requires IsElected(reports, None) && IsTable(reports, None, table)
    ensures IsTable(reports, Some(k), table)
  {
    forall n | 0 <= n < |reports| && LastOfKey(reports, n)
      ensures reports[n].Listed(Some(k)) == reports[n].Listed(None)
    {
      assert !reports[n].Eligible();
    }
  }

  lemma ElectionStep(reports: seq<Report>, r: Report, elected: Option<nat>)
    requires IsElected(reports, elected)
    ensures IsElected(reports + [r], if elected == None && r.Eligible() then Some(r.subHal) else elected)
  {
    var more := reports + [r];
    assert forall n :: 0 <= n < |reports| ==> more[n] == reports[n];
    if elected == None && r.Eligible() {
      assert more[|reports|].Eligible();
    }
  }

  lemma TableStep(reports: seq<Report>, r: Report, elected: Option<nat>, table: SensorTable)
    requires r.Accepted() && IsTable(reports, elected, table)
    ensures IsTable(reports + [r], elected, table[r.Key() := r.Listed(elected)])
  {
    hide SetSubHalIndex, SubHalIndexIsClear;
    var more, table' := reports + [r], table[r.Key() := r.Listed(elected)];
    assert more[|reports|] == r && LastOfKey(more, |reports|);
    forall n | 0 <= n < |more| && LastOfKey(more, n)
      ensures more[n].Key() in table' && table'[more[n].Key()] == more[n].Listed(elected)
    {
      if n < |reports| { LastOfKeyStep(reports, r, n); }
    }
    forall key | key in table'
      ensures exists n :: 0 <= n < |more| && LastOfKey(more, n) && more[n].Key() == key
    {
      if key != r.Key() {
        var n :| 0 <= n < |reports| && LastOfKey(reports, n) && reports[n].Key() == key;
        LastOfKeyStep(reports, r, n);
        assert LastOfKey(more, n) && more[n].Key() == key;
      }
    }
  }

  lemma NothingScanned()
    ensures IsElected([], None) && IsTable([], None, map[])
  {
  }

  // ---------------------------------------------------------------- what the scan yields, list by list

  /** Sensor j of list k, with a handle whose top byte is clear. */
  predicate ClearAt(lists: seq<seq<SensorInfo>>, k: nat, j: nat) {
    k < |lists| && j < |lists[k]| && 0 <= lists[k][j].sensorHandle < 0x100_0000
  }

  predicate DirectAt(lists: seq<seq<SensorInfo>>, k: nat, j: nat) {
    ClearAt(lists, k, j) && (lists[k][j].flags.directReport != 0 || lists[k][j].flags.directChannel != 0)
  }

  /** Sensor j of list k comes before sensor j' of list k'. */
  predicate Earlier(k: nat, j: nat, k': nat, j': nat) {
    k < k' || (k == k' && j < j')
  }

  function KeyAt(lists: seq<seq<SensorInfo>>, k: nat, j: nat): Int32
    requires ClearAt(lists, k, j)
  {
    SetSubHalIndex(lists[k][j].sensorHandle, k)
  }

  /** The first sensor with direct flags elects its sub-HAL, nobody is elected if there is none. */
  ghost predicate ElectsFirst(lists: seq<seq<SensorInfo>>, elected: Option<nat>) {
    match elected
    case None => forall k: nat, j: nat :: !DirectAt(lists, k, j)
    case Some(e) =>
      exists j: nat :: DirectAt(lists, e, j) && forall k: nat, i: nat :: Earlier(k, i, e, j) ==> !DirectAt(lists, k, i)
  }

  /** The entry of a sensor, field by field: its key as handle, LIGHT for a wise-light sensor, and the
      direct fields kept only for the elected sub-HAL. */
  predicate EntryOf(entry: SensorInfo, key: Int32, sensor: SensorInfo, keepsDirect: bool) {
    && entry.sensorHandle == key
    && entry.sensorType == (if sensor.sensorType == QtiWiseLight then Light else sensor.sensorType)
    && entry.flags.wakeUp == sensor.flags.wakeUp && entry.flags.others == sensor.flags.others
    && entry.flags.directReport == (if keepsDirect then sensor.flags.directReport else 0)
    && entry.flags.directChannel == (if keepsDirect then sensor.flags.directChannel else 0)
  }

  /** No later sensor with a clear handle has the same key. */
  ghost predicate LastAt(lists: seq<seq<SensorInfo>>, k: nat, j: nat) {
    && ClearAt(lists, k, j)
    && forall k': nat, j': nat :: Earlier(k, j, k', j') && ClearAt(lists, k', j') ==>
         KeyAt(lists, k', j') != KeyAt(lists, k, j)
  }

  /** The table holds the entry of the last sensor of every key, and nothing else. */
  ghost predicate ListsLast(lists: seq<seq<SensorInfo>>, elected: Option<nat>, table: SensorTable) {
    && (forall k: nat, j: nat :: LastAt(lists, k, j) ==>
          && KeyAt(lists, k, j) in table
          && EntryOf(table[KeyAt(lists, k, j)], KeyAt(lists, k, j), lists[k][j], elected == Some(k)))
    && (forall key :: key in table ==> exists k: nat, j: nat :: LastAt(lists, k, j) && KeyAt(lists, k, j) == key)
  }

  /** The position of sensor j of list k in scan order. */
  function PositionOf(lists: seq<seq<SensorInfo>>, k: nat, j: nat): nat
    requires k < |lists|
  {
    |Reports(lists[..k])| + j
  }

  lemma ReportsPrefix(lists: seq<seq<SensorInfo>>, k: nat)
    requires k < |lists|
    ensures Reports(lists[..k + 1]) == Reports(lists[..k]) + ReportsOf(lists[k], k)
  {
    assert lists[..k + 1][..k] == lists[..k];
  }

  lemma {:induction false} ReportsGrow(lists: seq<seq<SensorInfo>>, k: nat, m: nat)
    requires k <= m <= |lists|
    ensures Reports(lists[..k]) <= Reports(lists[..m])
  {
    if k < m {
      ReportsGrow(lists, k, m - 1);
      ReportsPrefix(lists, m - 1);
    }
  }

  lemma ReportAt(lists: seq<seq<SensorInfo>>, k: nat, j: nat)
    requires k < |lists| && j < |lists[k]|
    ensures PositionOf(lists, k, j) < |Reports(lists)|
    ensures Reports(lists)[PositionOf(lists, k, j)] == Report(lists[k][j], k)
  {
    ReportsPrefix(lists, k);
    ReportsGrow(lists, k + 1, |lists|);
    assert lists[..|lists|] == lists;
    assert Reports(lists[..k + 1])[PositionOf(lists, k, j)] == Report(lists[k][j], k);
    hide Reports;
  }

  lemma {:induction false} Locate(lists: seq<seq<SensorInfo>>, n: nat) returns (k: nat, j: nat)
    requires n < |Reports(lists)|
    ensures k < |lists| && j < |lists[k]| && PositionOf(lists, k, j) == n
  {
    var last := |lists| - 1;
    var front := Reports(lists[..last]);
    if n < |front| {
      k, j := Locate(lists[..last], n);
      assert lists[..last][..k] == lists[..k];
    } else {
      k, j := last, n - |front|;
    }
  }

  lemma PositionsInOrder(lists: seq<seq<SensorInfo>>, k: nat, j: nat, k': nat, j': nat)
    requires k < |lists| && j < |lists[k]| && k' < |lists| && j' < |lists[k']|
    ensures Earlier(k, j, k', j') <==> PositionOf(lists, k, j) < PositionOf(lists, k', j')
    ensures PositionOf(lists, k, j) == PositionOf(lists, k', j') ==> k == k' && j == j'
  {
    if k < k' {
      ReportsPrefix(lists, k);
      ReportsGrow(lists, k + 1, k');
    } else if k' < k {
      ReportsPrefix(lists, k');
      ReportsGrow(lists, k' + 1, k);
    }
    hide Reports;
  }

  lemma ReportTerms(lists: seq<seq<SensorInfo>>, k: nat, j: nat)
    requires k < |lists| && j < |lists[k]|
    ensures var n := PositionOf(lists, k, j);
            && n < |Reports(lists)|
            && (Reports(lists)[n].Accepted() <==> ClearAt(lists, k, j))
            && (Reports(lists)[n].Eligible() <==> DirectAt(lists, k, j))
            && (ClearAt(lists, k, j) ==> Reports(lists)[n].Key() == KeyAt(lists, k, j))
  {
    ReportAt(lists, k, j);
    ClearIsLow(lists[k][j].sensorHandle);
    hide Reports, SetSubHalIndex, SubHalIndexIsClear;
  }

  lemma ElectionByList(lists: seq<seq<SensorInfo>>, elected: Option<nat>)
    requires IsElected(Reports(lists), elected)
    ensures ElectsFirst(lists, elected)
  {
    var reports := Reports(lists);
    if elected.None? {
      forall k: nat, j: nat | k < |lists| && j < |lists[k]| ensures !DirectAt(lists, k, j) {
        ReportTerms(lists, k, j);
      }
    } else {
      var n :| 0 <= n < |reports| && reports[n].Eligible() && reports[n].subHal == elected.value
               && forall m :: 0 <= m < n ==> !reports[m].Eligible();
      var e, j := Locate(lists, n);
      ReportAt(lists, e, j);
      ReportTerms(lists, e, j);
      forall k: nat, i: nat | k < |lists| && i < |lists[k]| && Earlier(k, i, e, j) ensures !DirectAt(lists, k, i) {
        ReportTerms(lists, k, i);
        PositionsInOrder(lists, k, i, e, j);
      }
    }
  }

  lemma LastByList(lists: seq<seq<SensorInfo>>, k: nat, j: nat)
    requires k < |lists| && j < |lists[k]|
    ensures LastAt(lists, k, j) <==> LastOfKey(Reports(lists), PositionOf(lists, k, j))
  {
    var reports, n := Reports(lists), PositionOf(lists, k, j);
    ReportTerms(lists, k, j);
    hide Reports, SetSubHalIndex, SubHalIndexIsClear, PositionOf, Earlier, ClearAt, KeyAt, Report.Accepted, Report.Key;
    if LastAt(lists, k, j) {
      forall m | n < m < |reports| && reports[m].Accepted() ensures reports[m].Key() != reports[n].Key() {
        var k', j' := Locate(lists, m);
        ReportTerms(lists, k', j');
        PositionsInOrder(lists, k, j, k', j');
      }
    }
    if LastOfKey(reports, n) {
      forall k': nat, j': nat | Earlier(k, j, k', j') && ClearAt(lists, k', j')
        ensures KeyAt(lists, k', j') != KeyAt(lists, k, j)
      {
        InLists(lists, k', j');
        ReportTerms(lists, k', j');
        PositionsInOrder(lists, k, j, k', j');
      }
    }
  }

  lemma InLists(lists: seq<seq<SensorInfo>>, k: nat, j: nat)
    requires ClearAt(lists, k, j)
    ensures k < |lists| && j < |lists[k]|
  {
  }

  lemma TableByList(lists: seq<seq<SensorInfo>>, elected: Option<nat>, table: SensorTable)
    requires IsTable(Reports(lists), elected, table)
    ensures ListsLast(lists, elected, table)
  {
    var reports := Reports(lists);
    forall k: nat, j: nat | LastAt(lists, k, j)
      ensures KeyAt(lists, k, j) in table
      ensures EntryOf(table[KeyAt(lists, k, j)], KeyAt(lists, k, j), lists[k][j], elected == Some(k))
    {
      LastByList(lists, k, j);
      ReportTerms(lists, k, j);
      ReportAt(lists, k, j);
      hide Reports, SetSubHalIndex, SubHalIndexIsClear, PositionOf, LastAt, LastOfKey;
    }
    forall key | key in table
      ensures exists k: nat, j: nat :: LastAt(lists, k, j) && KeyAt(lists, k, j) == key
    {
      var n :| 0 <= n < |reports| && LastOfKey(reports, n) && reports[n].Key() == key;
      var k, j := Locate(lists, n);
      LastByList(lists, k, j);
      ReportTerms(lists, k, j);
      assert LastAt(lists, k, j) && KeyAt(lists, k, j) == key;
    }
  }

  class SensorRegistry {
    var sensors: SensorTable
    var directChannelSubHal: Option<nat>
    var subHals: nat

    /** Scans the lists the sub-HALs report; a sub-HAL whose call fails reports nothing. */
    constructor (lists: seq<seq<SensorInfo>>)
      ensures subHals == |lists|
      ensures ElectsFirst(lists, directChannelSubHal) && ListsLast(lists, directChannelSubHal, sensors)
      ensures IsElected(Reports(lists), directChannelSubHal)
      ensures IsTable(Reports(lists), directChannelSubHal, sensors)
    {
      subHals := |lists|;
      sensors := map[];
      directChannelSubHal := None;
      new;
      InitializeSensorList(lists);
    }

    method InitializeSensorList(lists: seq<seq<SensorInfo>>)
      requires sensors == map[] && directChannelSubHal == None
      modifies `sensors, `directChannelSubHal
      ensures ElectsFirst(lists, directChannelSubHal) && ListsLast(lists, directChannelSubHal, sensors)
      ensures IsElected(Reports(lists), directChannelSubHal)
      ensures IsTable(Reports(lists), directChannelSubHal, sensors)
    {
      NothingScanned();
      hide IsElected, IsTable, ElectsFirst, ListsLast;
      for subHalIndex := 0 to |lists|
        invariant IsElected(Reports(lists[..subHalIndex]), directChannelSubHal)
        invariant IsTable(Reports(lists[..subHalIndex]), directChannelSubHal, sensors)
      {
        var list := lists[subHalIndex];
        ghost var before := Reports(lists[..subHalIndex]);
        assert before + ReportsOf(list[..0], subHalIndex) == before;
        for j := 0 to |list|
          invariant IsElected(before + ReportsOf(list[..j], subHalIndex), directChannelSubHal)
          invariant IsTable(before + ReportsOf(list[..j], subHalIndex), directChannelSubHal, sensors)
        {
          AddSensor(list[j], subHalIndex, before + ReportsOf(list[..j], subHalIndex));
          assert before + ReportsOf(list[..j], subHalIndex) + [Report(list[j], subHalIndex)]
              == before + ReportsOf(list[..j + 1], subHalIndex);
        }
        assert list[..|list|] == list;
        assert lists[..subHalIndex + 1][..subHalIndex] == lists[..subHalIndex];
      }
      assert lists[..|lists|] == lists;
      ElectionByList(lists, directChannelSubHal);
      TableByList(lists, directChannelSubHal, sensors);
    }

    /** The body of the scan for one reported sensor. */
    method AddSensor(reported: SensorInfo, subHalIndex: nat, ghost reports: seq<Report>)
      requires IsElected(reports, directChannelSubHal) && IsTable(reports, directChannelSubHal, sensors)
      modifies `sensors, `directChannelSubHal
      ensures var more := reports + [Report(reported, subHalIndex)];
              IsElected(more, directChannelSubHal) && IsTable(more, directChannelSubHal, sensors)
      ensures var key := SetSubHalIndex(reported.sensorHandle, subHalIndex);
              if 0 <= reported.sensorHandle < 0x100_0000 then
                && key in sensors && EntryOf(sensors[key], key, reported, directChannelSubHal == Some(subHalIndex))
                && sensors - {key} == old(sensors) - {key}
              else sensors == old(sensors) && directChannelSubHal == old(directChannelSubHal)
    {
      ClearIsLow(reported.sensorHandle);
      hide IsElected, IsTable, SetSubHalIndex, SubHalIndexIsClear;
      var sensor := reported;
      ghost var r := Report(reported, subHalIndex);
      ElectionStep(reports, r, directChannelSubHal);
      if !SubHalIndexIsClear(sensor.sensorHandle) {
        RejectedTable(reports, r, directChannelSubHal, sensors);
      } else {
        if directChannelSubHal == None && r.Eligible() {
          LateElection(reports, sensors, subHalIndex);
        }
        sensor := sensor.(sensorHandle := SetSubHalIndex(sensor.sensorHandle, subHalIndex));
        var flags := SetDirectChannelFlags(sensor.flags, subHalIndex);
        sensor := sensor.(flags := flags);
        if sensor.sensorType == QtiWiseLight {
          sensor := sensor.(sensorType := Light);
        }
        TableStep(reports, r, directChannelSubHal, sensors);
        assert sensor == r.Listed(directChannelSubHal);
        sensors := sensors[sensor.sensorHandle := sensor];
      }
    }

    method SetDirectChannelFlags(flags: SensorFlags, subHal: nat) returns (kept: SensorFlags)
      modifies `directChannelSubHal
      ensures directChannelSubHal ==
        if old(directChannelSubHal) == None && DirectCapable(flags) then Some(subHal) else old(directChannelSubHal)
      ensures kept == if directChannelSubHal == Some(subHal) then flags else WithoutDirect(flags)
    {
      kept := flags;
      var sensorSupportsDirectChannel := flags.directReport != 0 || flags.directChannel != 0;
      if directChannelSubHal == None && sensorSupportsDirectChannel {
        directChannelSubHal := Some(subHal);
      } else if directChannelSubHal != None && directChannelSubHal != Some(subHal) {
        kept := flags.(directReport := 0, directChannel := 0);
      }
    }
  }

  // ---------------------------------------------------------------- routing

  /** Where a request ends: refused, or at a sub-HAL with a handle. */
  datatype Destination = InvalidOperation | BadValue | At(subHal: nat, handle: Int32)

  /** Ordinary requests: activate, batch, flush, inject. */
  function Route(h: Int32, subHals: nat): Destination {
    if SubHalIndexValid(h, subHals) then At(ExtractSubHalIndex(h), ClearSubHalIndex(h)) else BadValue
  }

  function ConfigDirectReport(h: Int32, stop: bool, elected: Option<nat>): Destination {
    if elected == None then InvalidOperation
    else if h == -1 && !stop then BadValue
    else At(elected.value, if h != -1 then ClearSubHalIndex(h) else h)
  }

  /** An ordinary request goes by the bytes of its handle: to the sub-HAL in the top byte, if the list
      has it, with the low three bytes. A negative handle goes nowhere. */
  lemma RouteExactly(h: Int32, subHals: nat)
    requires subHals <= SIZE_T / 2
    ensures Route(h, subHals) ==
            if 0 <= h && h / 0x100_0000 < subHals then At(h / 0x100_0000, h % 0x100_0000) else BadValue
  {
    BytesOf(h);
  }

  /** A direct request goes to the elected sub-HAL, if there is one, with the low three bytes of its
      handle; -1 stands for all sensors and is good for stopping only. */
  lemma DirectRequestExactly(h: Int32, stop: bool, elected: Option<nat>)
    ensures elected.None? ==> ConfigDirectReport(h, stop, elected) == InvalidOperation
    ensures elected.Some? && h != -1 ==> ConfigDirectReport(h, stop, elected) == At(elected.value, h % 0x100_0000)
    ensures elected.Some? && h == -1 ==>
              ConfigDirectReport(h, stop, elected) == if stop then At(elected.value, -1) else BadValue
  {
  }

  /** Every listed sensor routes back to the sub-HAL and the handle that reported it exactly when
      that sub-HAL's index is below 128. */
  lemma ListedSensorsRoute(lists: seq<seq<SensorInfo>>, elected: Option<nat>, table: SensorTable, key: Int32)
    returns (r: Report)
    requires |lists| <= SIZE_T / 2 && IsTable(Reports(lists), elected, table) && key in table
    ensures r in Reports(lists) && r.Accepted() && r.Key() == key && table[key] == r.Listed(elected)
    ensures Route(key, |lists|) == At(r.subHal, r.sensor.sensorHandle) <==> r.subHal < 128
  {
    var reports := Reports(lists);
    var n :| 0 <= n < |reports| && LastOfKey(reports, n) && reports[n].Key() == key;
    r := reports[n];
    ReportsInRange(lists, n);
    RoundTrip(r.sensor.sensorHandle, r.subHal, |lists|);
  }

  lemma {:induction false} ReportsInRange(lists: seq<seq<SensorInfo>>, n: nat)
    requires n < |Reports(lists)|
    ensures Reports(lists)[n].subHal < |lists|
    ensures Reports(lists)[n].sensor in lists[Reports(lists)[n].subHal]
  {
    var k := |lists| - 1;
    var front := Reports(lists[..k]);
    if n < |front| {
      ReportsInRange(lists[..k], n);
    } else {
      assert Reports(lists)[n] == ReportsOf(lists[k], k)[n - |front|];
    }
  }

  /** Only the elected sub-HAL's sensors keep direct flags. A direct request for such a sensor reaches
      the sub-HAL and local handle that reported it unless its key is -1, the value that stands for
      all sensors; it reaches what ordinary routing reaches exactly when the index is below 128. */
  lemma DirectAgreesWithRouting(lists: seq<seq<SensorInfo>>, elected: Option<nat>, table: SensorTable,
                                key: Int32, stop: bool) returns (r: Report)
    requires |lists| <= SIZE_T / 2 && IsTable(Reports(lists), elected, table)
    requires key in table && DirectCapable(table[key].flags)
    ensures r in Reports(lists) && r.Key() == key && elected == Some(r.subHal)
    ensures ConfigDirectReport(key, stop, elected) == At(r.subHal, r.sensor.sensorHandle) <==> key != -1
    ensures (ConfigDirectReport(key, stop, elected) == Route(key, |lists|) == At(r.subHal, r.sensor.sensorHandle))
            <==> r.subHal < 128
    ensures ConfigDirectReport(key, stop, elected) == Route(key, |lists|)
            <==> r.subHal < 128 || (key == -1 && !stop)
  {
    r := ListedSensorsRoute(lists, elected, table, key);
    var n :| 0 <= n < |Reports(lists)| && Reports(lists)[n] == r;
    ReportsInRange(lists, n);
    TaggedClear(r.sensor.sensorHandle, r.subHal);
    BytesOf(key);
  }
}
