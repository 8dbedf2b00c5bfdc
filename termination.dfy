/**
 * How emitted code ends a transaction: set_return with the return data, then
 * system_halt with the code (0 for a normal return, 1 for a failure), after
 * which the code is unreachable.
 */
module Termination {
  import opened Bytes
  import opened Registry
  import opened Host

  /** The two calls every termination makes. */
  function HaltCalls(data: seq<Byte>, code: int): (t: seq<Event>)
    ensures |t| == 2 && !IsHalt(t[0]) && IsHalt(t[1])
  {
    [Call(Symbol.SetReturn, [Mem(data), Word(|data|)]), Call(Symbol.SystemHalt, [Word(code)])]
  }

  /**
   * Once a valid host has halted, the halt is the last entry of its trace and
   * no earlier entry is a halt: nothing ran after system_halt.
   */
  lemma HaltIsFinal(h: Host)
    requires h.Valid() && h.status.Halted?
    ensures IsHalt(h.trace[|h.trace| - 1])
    ensures forall i :: 0 <= i < |h.trace| - 1 ==> !IsHalt(h.trace[i])
  {
    assert NoHalt(h.trace[..|h.trace| - 1]);
    forall i | 0 <= i < |h.trace| - 1
      ensures !IsHalt(h.trace[i])
    {
      NoHaltAt(h.trace[..|h.trace| - 1], i);
      assert h.trace[i] == h.trace[..|h.trace| - 1][i];
    }
  }

  method Terminate(h: Host, data: seq<Byte>, code: int)
    requires h.Valid() && h.status == Running
    modifies h
    ensures h.Valid() && h.status == Halted(code) && h.output == data
    ensures h.State() == old(h.State()).(output := data, status := Halted(code), trace := old(h.trace) + HaltCalls(data, code))
  {
    h.SetReturn(data);
    h.SystemHalt(code);
  }

  /** return_empty_abi: set_return(null, 0), then system_halt(0). */
  method ReturnEmptyAbi(h: Host)
    requires h.Valid() && h.status == Running
    modifies h
    ensures h.Valid() && h.status == Halted(0) && h.output == []
    ensures h.State() == old(h.State()).(output := [], status := Halted(0), trace := old(h.trace) + HaltCalls([], 0))
  {
    Terminate(h, [], 0);
  }

  /** return_abi(data, length): set_return(data, length), then system_halt(0). */
  method ReturnAbi(h: Host, data: array<Byte>, length: nat)
    requires h.Valid() && h.status == Running && length <= data.Length
    modifies h
    ensures h.Valid() && h.status == Halted(0) && h.output == data[..length]
    ensures h.State() == old(h.State()).(output := data[..length], status := Halted(0),
                                         trace := old(h.trace) + HaltCalls(data[..length], 0))
  {
    Terminate(h, data[..length], 0);
  }

  /** The bytes set_return reads from (data, len); a null pointer stands for no data. */
  function ReturnBytes(data: array?<Byte>, len: nat): seq<Byte>
    requires data == null ==> len == 0
    requires data != null ==> len <= data.Length
    reads data
  {
    if data == null then [] else data[..len]
  }

  /** assert_failure(data, len): set_return(data, len), then system_halt(1). */
  method AssertFailure(h: Host, data: array?<Byte>, len: nat)
    requires h.Valid() && h.status == Running
    requires data == null ==> len == 0
    requires data != null ==> len <= data.Length
    modifies h
    ensures h.Valid() && h.status == Halted(1) && h.output == ReturnBytes(data, len)
    ensures h.State() == old(h.State()).(output := ReturnBytes(data, len), status := Halted(1),
                                         trace := old(h.trace) + HaltCalls(ReturnBytes(data, len), 1))
  {
    Terminate(h, ReturnBytes(data, len), 1);
  }

  /** return_code: the start function cannot return a value, so the code is ignored: assert_failure(null, 0). */
  method ReturnCode(h: Host, ret: int)
    requires h.Valid() && h.status == Running
    modifies h
    ensures h.Valid() && h.status == Halted(1) && h.output == []
    ensures h.State() == old(h.State()).(output := [], status := Halted(1), trace := old(h.trace) + HaltCalls([], 1))
  {
    AssertFailure(h, null, 0);
  }
}
