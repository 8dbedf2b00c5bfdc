/**
 * The entry point of a Lachain contract: the `start` function that
 * function_dispatch adds, its prelude (runtime_prelude) and the predicate
 * that tells the dispatcher which functions must refuse a value transfer.
 */
module Entry {
  import opened Bytes
  import opened Registry
  import opened Host
  import opened Termination

  /**
   * The predicate function_dispatch hands to the dispatcher: a function
   * checks for a value transfer itself exactly when it is nonpayable and the
   * prelude does not already abort every value transfer.
   */
  predicate ChecksValue(abortValueTransfers: bool, nonpayable: bool)
  {
    !abortValueTransfers && nonpayable
  }

  /**
   * Where a value sent to a function is refused: by the prelude for every
   * function, or by the dispatcher for one that checks; a payable function in
   * a contract whose prelude does not abort accepts it.
   */
  lemma ValueRefusedOnce(abortValueTransfers: bool, nonpayable: bool)
    ensures nonpayable ==> abortValueTransfers || ChecksValue(abortValueTransfers, nonpayable)
    ensures !(abortValueTransfers && ChecksValue(abortValueTransfers, nonpayable))
    ensures !nonpayable ==> !ChecksValue(abortValueTransfers, nonpayable)
  {
  }

  /**
   * The calls runtime_prelude makes when it runs to the end: the
   * value-transfer check when it is enabled, then __init_heap, get_call_size,
   * a __malloc of exactly the call size and copy_call_value(0, size, buffer).
   */
  function PreludeCalls(abortValueTransfers: bool, size: nat): seq<Event>
  {
    (if abortValueTransfers then [Event.ValueTransferAbort] else []) + HeapCalls(size)
  }

  /** The calls after the value-transfer check: __init_heap, get_call_size, __malloc(size), copy_call_value(0, size, buffer). */
  function HeapCalls(size: nat): seq<Event>
  {
    [Call(InitHeap, []), Call(GetCallSize, []), Call(Malloc, [Word(size)]), Call(CopyCallValue, [Word(0), Word(size)])]
  }

  /**
   * The shape of a prelude that runs to the end: the check first exactly
   * when it is enabled, __init_heap, a __malloc of exactly the call size,
   * copy_call_value(0, size) last, and no halt anywhere.
   */
  lemma PreludeCallsShape(abortValueTransfers: bool, size: nat)
    ensures var t := PreludeCalls(abortValueTransfers, size);
      && |t| == (if abortValueTransfers then 5 else 4)
      && ((t[0] == Event.ValueTransferAbort) <==> abortValueTransfers)
      && t[|t| - 4] == Call(InitHeap, [])
      && t[|t| - 2] == Call(Malloc, [Word(size)]) && t[|t| - 1] == Call(CopyCallValue, [Word(0), Word(size)])
      && forall i :: 0 <= i < |t| ==> !IsHalt(t[i])
  {
  }

  /** The calls of a prelude whose value-transfer abort fires: the abort, then assert_failure(null, 0). */
  function AbortCalls(): (t: seq<Event>)
    ensures |t| == 3 && t[0] == Event.ValueTransferAbort && IsHalt(t[2])
  {
    [Event.ValueTransferAbort] + HaltCalls([], 1)
  }

  /**
   * runtime_prelude: abort value transfers if enabled, initialise the heap,
   * then copy the whole call data into a fresh heap buffer of exactly its
   * size. The size and the buffer are recorded in the module globals
   * calldata_len and calldata_data before they are returned to the
   * dispatcher. When the abort is enabled and the transaction carries value
   * (`valueSent`), the host halts with code 1 and no data before anything
   * else runs; no buffer is returned then.
   */
  method RuntimePrelude(h: Host, abortValueTransfers: bool, valueSent: bool) returns (args: array?<Byte>, argsLength: nat)
    requires h.Valid() && h.status == Running
    modifies h
    ensures h.Valid() && (h.status == Running <==> !(abortValueTransfers && valueSent))
    ensures abortValueTransfers && valueSent ==>
              args == null && h.State() == old(h.State()).(output := [], status := Halted(1), trace := old(h.trace) + AbortCalls())
    ensures !(abortValueTransfers && valueSent) ==>
              args != null && fresh(args) && argsLength == |h.callData| && args[..] == h.callData
              && h.State() == old(h.State()).(heapReady := true, calldataLen := argsLength, calldataData := args,
                                              trace := old(h.trace) + PreludeCalls(abortValueTransfers, |h.callData|))
  {
    if abortValueTransfers {
      AbortIfValueTransfer(h, valueSent);
      if valueSent {
        return null, 0;
      }
    }
    args, argsLength := HeapAndCallData(h);
  }

  /**
   * abort_if_value_transfer, as the prelude uses it: the check, then, when
   * the transaction carries value, assert_failure(null, 0).
   */
  method AbortIfValueTransfer(h: Host, valueSent: bool)
    requires h.Valid() && h.status == Running
    modifies h
    ensures h.Valid()
    ensures valueSent ==> h.State() == old(h.State()).(output := [], status := Halted(1), trace := old(h.trace) + AbortCalls())
    ensures !valueSent ==> h.State() == old(h.State()).(trace := old(h.trace) + [Event.ValueTransferAbort])
  {
    h.ValueTransferAbort();
    if valueSent {
      AssertFailure(h, null, 0);
    }
  }

  /** What runtime_prelude does after the value-transfer check: __init_heap, then the call data is copied. */
  method HeapAndCallData(h: Host) returns (args: array<Byte>, argsLength: nat)
    requires h.Valid() && h.status == Running
    modifies h
    ensures fresh(args) && argsLength == |h.callData| && args[..] == h.callData
    ensures h.Valid() && h.State() == old(h.State()).(heapReady := true, calldataLen := argsLength, calldataData := args,
              trace := old(h.trace) + HeapCalls(argsLength))
  {
    h.InitHeap();
    args, argsLength := CopyCallData(h);
  }

  /**
   * The copy of the call data in runtime_prelude: get_call_size, recorded in
   * calldata_len; a __malloc of that size, recorded in calldata_data; and
   * copy_call_value(0, size, buffer).
   */
  method CopyCallData(h: Host) returns (args: array<Byte>, argsLength: nat)
    requires h.Valid() && h.status == Running && h.heapReady
    modifies h
    ensures fresh(args) && argsLength == |h.callData| && args[..] == h.callData
    ensures h.Valid() && h.State() == old(h.State()).(calldataLen := argsLength, calldataData := args,
              trace := old(h.trace) + [Call(GetCallSize, []), Call(Malloc, [Word(argsLength)]),
                                       Call(CopyCallValue, [Word(0), Word(argsLength)])])
  {
    ghost var st := h.State();
    argsLength := h.GetCallSize();
    h.StoreCalldataLen(argsLength);
    assert h.State() == st.(calldataLen := argsLength, trace := st.trace + [Call(GetCallSize, [])]);
    args := h.Malloc(argsLength);
    h.StoreCalldataData(args);
    assert h.State() == st.(calldataLen := argsLength, calldataData := args,
                            trace := st.trace + [Call(GetCallSize, []), Call(Malloc, [Word(argsLength)])]);
    h.CopyCallValue(0, argsLength, args);
    assert h.callData[0..argsLength] == h.callData;
  }

  /**
   * function_dispatch: the `start` function runs the prelude; what the
   * dispatcher then does with the call data is not part of this model. Its
   * result is the call data the dispatcher decodes (none when the prelude
   * aborted) and, for each function of the contract, whether that function is
   * to check for a value transfer.
   */
  method FunctionDispatch(h: Host, abortValueTransfers: bool, valueSent: bool, nonpayable: seq<bool>)
    returns (argsdata: array?<Byte>, argslen: nat, checks: seq<bool>)
    requires h.Valid() && h.status == Running
    modifies h
    ensures |checks| == |nonpayable|
    ensures forall i :: 0 <= i < |checks| ==> (checks[i] <==> !abortValueTransfers && nonpayable[i])
    ensures h.Valid() && (h.status == Running <==> !(abortValueTransfers && valueSent))
    ensures abortValueTransfers && valueSent ==>
              argsdata == null && h.State() == old(h.State()).(output := [], status := Halted(1), trace := old(h.trace) + AbortCalls())
    ensures !(abortValueTransfers && valueSent) ==>
              argsdata != null && fresh(argsdata) && argslen == |h.callData| && argsdata[..] == h.callData
              && h.State() == old(h.State()).(heapReady := true, calldataLen := argslen, calldataData := argsdata,
                                              trace := old(h.trace) + PreludeCalls(abortValueTransfers, |h.callData|))
  {
    argsdata, argslen := RuntimePrelude(h, abortValueTransfers, valueSent);
    checks := seq(|nonpayable|, i requires 0 <= i < |nonpayable| => ChecksValue(abortValueTransfers, nonpayable[i]));
  }
}
