/** The switch of all sub-HALs to an operation mode, with rollback. */
module OperationMode {

  datatype Mode = Normal | DataInjection
  datatype Result = OK | Error(code: int)

  /** How a sub-HAL takes a request: what it returns and whether its mode changed. */
  datatype Reply = Reply(result: Result, applied: bool)

  /** One call: the requested mode, each sub-HAL's reply to it should it be asked, and whether a
      rollback request to it would take effect. */
  datatype Call = Call(mode: Mode, replies: seq<Reply>, rollsBack: seq<bool>) {
    predicate Fits(n: nat) { |replies| == n && |rollsBack| == n }
  }

  /** The index of the first reply that is not OK, or the number of replies. */
  function FirstFailure(replies: seq<Reply>): (k: nat)
    ensures k <= |replies| && (k < |replies| ==> replies[k].result != OK)
    ensures forall i :: 0 <= i < k ==> replies[i].result == OK
  {
    if replies == [] || replies[0].result != OK then 0 else 1 + FirstFailure(replies[1..])
  }

  /** A sub-HAL obeys: OK means the mode changed, failure means it did not, rollbacks take effect. */
  predicate Obedient(c: Call) {
    && (forall i :: 0 <= i < |c.replies| ==> (c.replies[i].result == OK <==> c.replies[i].applied))
    && (forall i :: 0 <= i < |c.rollsBack| ==> c.rollsBack[i])
  }

  predicate AllIn(modes: seq<Mode>, mode: Mode) {
    forall i :: 0 <= i < |modes| ==> modes[i] == mode
  }

  /** What the switch needs of the sub-HALs it asks to change from `current`: on success every
      sub-HAL changed; on failure the failing one did not, and those before it that changed can be
      changed back. */
  predicate Faithful(c: Call, current: Mode) {
    var k := FirstFailure(c.replies);
    c.mode != current ==>
      if k == |c.replies| then forall i :: 0 <= i < k ==> c.replies[i].applied
      else !c.replies[k].applied
           && forall i :: 0 <= i < k && i < |c.rollsBack| ==> c.replies[i].applied ==> c.rollsBack[i]
  }

  class Switch {
    /** The mode each sub-HAL is really in. */
    var modes: seq<Mode>
    var currentOperationMode: Mode

    constructor (n: nat)
      ensures |modes| == n && AllIn(modes, currentOperationMode)
    {
      modes := seq(n, _ => Normal);
      currentOperationMode := Normal;
    }

    /** All or nothing: the recorded mode changes exactly when every sub-HAL said OK, the first error
        is returned, no sub-HAL behind the failing one is asked, and the sub-HALs all are in the
        recorded mode afterwards, given that they were before, exactly when they were faithful. */
    method SetOperationMode(c: Call) returns (result: Result)
      requires c.Fits(|modes|)
      modifies this
      ensures |modes| == |old(modes)|
      ensures var k := FirstFailure(c.replies);
              && result == (if k < |modes| then c.replies[k].result else OK)
              && currentOperationMode == (if k < |modes| then old(currentOperationMode) else c.mode)
              && forall i :: k < i < |modes| ==> modes[i] == old(modes[i])
      ensures var k := FirstFailure(c.replies);
              forall i :: 0 <= i <= k && i < |modes| ==>
                modes[i] == if i < k < |modes| && c.rollsBack[i] then old(currentOperationMode)
                            else if c.replies[i].applied then c.mode else old(modes)[i]
      ensures AllIn(old(modes), old(currentOperationMode)) ==>
                (AllIn(modes, currentOperationMode) <==> Faithful(c, old(currentOperationMode)))
    {
      result := OK;
      ghost var k := FirstFailure(c.replies);
      var subHalIndex := 0;
      while subHalIndex < |modes|
        invariant 0 <= subHalIndex <= k && |modes| == |old(modes)| && result == OK
        invariant currentOperationMode == old(currentOperationMode)
        invariant forall i :: 0 <= i < |modes| ==>
          modes[i] == if i < subHalIndex && c.replies[i].applied then c.mode else old(modes)[i]
      {
        var reply := c.replies[subHalIndex];
        result := reply.result;
        if reply.applied {
          modes := modes[subHalIndex := c.mode];
        }
        if result != OK {
          break;
        }
        subHalIndex := subHalIndex + 1;
      }
      assert subHalIndex == k;
      if result != OK {
        ghost var flipped := modes;
        for i := 0 to subHalIndex
          invariant |modes| == |flipped| && currentOperationMode == old(currentOperationMode)
          invariant forall j :: 0 <= j < |modes| ==>
            modes[j] == if j < i && c.rollsBack[j] then currentOperationMode else flipped[j]
        {
          if c.rollsBack[i] {
            modes := modes[i := currentOperationMode];
          }
        }
        if AllIn(old(modes), currentOperationMode) {
          assert modes[k] == if c.replies[k].applied then c.mode else currentOperationMode;
        }
      } else {
        currentOperationMode := c.mode;
      }
    }

    /** After any sequence of calls to obedient sub-HALs every sub-HAL is in the recorded mode. */
    method SetOperationModes(calls: seq<Call>)
      requires AllIn(modes, currentOperationMode)
      requires forall i :: 0 <= i < |calls| ==> calls[i].Fits(|modes|) && Obedient(calls[i])
      modifies this
      ensures |modes| == |old(modes)| && AllIn(modes, currentOperationMode)
    {
      for i := 0 to |calls|
        invariant |modes| == |old(modes)| && AllIn(modes, currentOperationMode)
      {
        ObedientIsFaithful(calls[i], currentOperationMode);
        var _ := SetOperationMode(calls[i]);
      }
    }
  }

  lemma ObedientIsFaithful(c: Call, current: Mode)
    requires Obedient(c)
    ensures Faithful(c, current)
  {
  }
}
