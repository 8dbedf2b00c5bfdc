/**
 * external_call, value_transfer and create_contract. The value of a call or
 * transfer is staged little-endian and byte-reversed with __be32toleN before
 * the host sees it; create_contract passes its value as staged. A call
 * succeeds when the host returns status 0; with a success flag the outcome is
 * handed back, without one a failure ends the transaction with
 * assert_failure(null, 0).
 */
module Calls {
  import opened Bytes
  import opened Registry
  import opened Host
  import opened Abi
  import opened Termination

  datatype CallTy = Regular | Static | Delegate

  /** The invoke primitive for each kind of call. */
  function CallPrimitive(ty: CallTy): (s: Symbol)
    ensures HostSignature(s) == Some(InvokeSig)
    ensures s == InvokeContract || s == InvokeStaticContract || s == InvokeDelegateContract
  {
    match ty
    case Regular => InvokeContract
    case Static => InvokeStaticContract
    case Delegate => InvokeDelegateContract
  }

  /** Each kind of call reaches a different primitive. */
  lemma CallPrimitiveInjective(a: CallTy, b: CallTy)
    ensures CallPrimitive(a) == CallPrimitive(b) ==> a == b
  {
  }

  /** The bytes the host is given for a value: its little-endian staging, reversed, which is big-endian. */
  function ValueBytes(value: nat, n: nat): seq<Byte>
  {
    Reverse(ToLe(value, n))
  }

  /** Read big-endian, the reversed staging is the value again. */
  lemma {:induction false} ValueBytesBigEndian(value: nat, n: nat)
    requires value < Pow256(n)
    ensures |ValueBytes(value, n)| == n && FromBe(ValueBytes(value, n)) == value
  {
    var le := ToLe(value, n);
    FromLeReverse(Reverse(le));
    ReverseInvolution(le);
    FromLeToLe(value, n);
  }

  /**
   * The host after a call's status has been tested: unchanged, or, on a
   * failure without a success flag, halted by assert_failure(null, 0).
   */
  function AfterBranch(st: HostState, flag: bool, success: bool): HostState
  {
    if flag || success then st
    else st.(output := [], status := Halted(1), trace := st.trace + HaltCalls([], 1))
  }

  /**
   * Stage `value` as a 32-byte integer and byte-reverse it into a second
   * buffer with __be32toleN; returns the reversed buffer.
   */
  method StageValue(h: Host, value: nat) returns (le: array<Byte>)
    requires h.Valid() && h.status == Running
    modifies h
    ensures fresh(le) && le[..] == ValueBytes(value, ValueLength)
    ensures h.Valid() && h.State() == old(h.State()).(trace := old(h.trace) + [Call(Be32ToLeN, [Word(ValueLength)])])
  {
    var be := Alloca(ValueLength);
    Store(be, 0, ToLe(value, ValueLength));
    le := Alloca(ValueLength);
    h.ByteSwap(Be32ToLeN, be, le, ValueLength);
  }

  /** An alloca of n bytes holding `v`, stored little-endian. */
  method StageInt(v: nat, n: nat) returns (p: array<Byte>)
    ensures fresh(p) && p[..] == ToLe(v, n)
  {
    p := Alloca(n);
    Store(p, 0, ToLe(v, n));
  }

  /** After a call's status, continue or, without a flag and on failure, assert_failure(null, 0). */
  method Branch(h: Host, flag: bool, success: bool)
    requires h.Valid() && h.status == Running
    modifies h
    ensures h.Valid() && h.State() == AfterBranch(old(h.State()), flag, success)
  {
    if !flag && !success {
      AssertFailure(h, null, 0);
    }
  }

  /** The invoke call of external_call, as the host records it. */
  function InvokeCall(ty: CallTy, address: seq<Byte>, input: seq<Byte>, value: nat, gas: nat): Event
  {
    Call(CallPrimitive(ty), [Mem(address), Word(|input|), Mem(input), Mem(ValueBytes(value, ValueLength)), Mem(ToLe(gas, 8))])
  }

  /** Stage value and gas, then call the invoke primitive for `ty`. */
  method StagedInvoke(h: Host, payload: seq<Byte>, address: seq<Byte>, gas: nat, value: nat, ty: CallTy,
                      hostStatus: int, result: seq<Byte>) returns (ret: int)
    requires h.Valid() && h.status == Running && |result| + 8 < MemoryLimit
    modifies h
    ensures ret == hostStatus
    ensures h.Valid() && h.State() == old(h.State()).(returnData := result,
              trace := old(h.trace) + [Call(Be32ToLeN, [Word(ValueLength)]), InvokeCall(ty, address, payload, value, gas)])
  {
    ghost var st0 := h.State();
    var valueLe := StageValue(h, value);
    var gasPtr := StageInt(gas, 8);
    ghost var st1 := h.State();
    assert st1 == st0.(trace := st0.trace + [Call(Be32ToLeN, [Word(ValueLength)])]);
    ret := h.Invoke(CallPrimitive(ty), address, payload, valueLe[..], gasPtr[..], hostStatus, result);
  }

  /**
   * external_call: the value (32 bytes) big-endian, the gas as a u64, the
   * payload and the address go to the invoke primitive of `ty`; the host's
   * status and return data are `hostStatus` and `result`.
   */
  method ExternalCall(h: Host, flag: bool, payload: array<Byte>, payloadLen: nat, address: array<Byte>,
                      gas: nat, value: nat, ty: CallTy, hostStatus: int, result: seq<Byte>)
    returns (success: bool)
    requires h.Valid() && h.status == Running && payloadLen <= payload.Length && |result| + 8 < MemoryLimit
    modifies h
    ensures success == (hostStatus == 0)
    ensures h.Valid() && h.State() == AfterBranch(old(h.State()).(returnData := result,
              trace := old(h.trace) + [Call(Be32ToLeN, [Word(ValueLength)]),
                                       InvokeCall(ty, address[..], payload[..payloadLen], value, gas)]), flag, success)
  {
    var ret := StagedInvoke(h, payload[..payloadLen], address[..], gas, value, ty, hostStatus, result);
    success := ret == 0;
    Branch(h, flag, success);
  }

  /** Stage the value, then call transfer. */
  method StagedTransfer(h: Host, address: seq<Byte>, value: nat, hostStatus: int) returns (ret: int)
    requires h.Valid() && h.status == Running
    modifies h
    ensures ret == hostStatus
    ensures h.Valid() && h.State() == old(h.State()).(trace := old(h.trace) + [Call(Be32ToLeN, [Word(ValueLength)]),
              Call(Symbol.Transfer, [Mem(address), Mem(ValueBytes(value, ValueLength))])])
  {
    var valueLe := StageValue(h, value);
    ret := h.Transfer(address, valueLe[..], hostStatus);
  }

  /** value_transfer: the value big-endian and the address go to transfer. */
  method ValueTransfer(h: Host, flag: bool, address: array<Byte>, value: nat, hostStatus: int)
    returns (success: bool)
    requires h.Valid() && h.status == Running
    modifies h
    ensures success == (hostStatus == 0)
    ensures h.Valid() && h.State() == AfterBranch(old(h.State()).(
              trace := old(h.trace) + [Call(Be32ToLeN, [Word(ValueLength)]),
                                       Call(Symbol.Transfer, [Mem(address[..]), Mem(ValueBytes(value, ValueLength))])]), flag, success)
  {
    var ret := StagedTransfer(h, address[..], value, hostStatus);
    success := ret == 0;
    Branch(h, flag, success);
  }

  /**
   * return_data: ask for the return data's size, allocate exactly a vector
   * header plus that many bytes, fill in len and size, and copy the return
   * data after the header with copy_return_value(data, 0, len).
   */
  method ReturnData(h: Host) returns (v: array<Byte>)
    requires h.Valid() && h.status == Running && h.heapReady
    modifies h
    ensures h.Valid() && fresh(v) && v[..] == VectorOf(h.returnData)
    ensures h.State() == old(h.State()).(trace := old(h.trace) + [
              Call(Symbol.GetReturnSize, []), Call(Symbol.Malloc, [Word(8 + |h.returnData|)]),
              Call(Symbol.CopyReturnValue, [Word(0), Word(|h.returnData|)])])
  {
    ghost var rd := h.returnData;
    var n;
    v, n := ReturnVector(h);
    ghost var header := v[..8];
    ghost var t := h.trace;
    h.CopyReturnValue(v, 8, 0, n);
    assert rd[0..n] == rd;
    assert v[..8] == header && v[8..] == rd;
    VectorFilled(v[..], rd);
    assert h.trace == t + [Call(Symbol.CopyReturnValue, [Word(0), Word(|rd|)])];
  }

  /** The first half of return_data: get_return_size, then a vector of that length with its header filled in. */
  method ReturnVector(h: Host) returns (v: array<Byte>, n: nat)
    requires h.Valid() && h.status == Running && h.heapReady
    modifies h
    ensures n == |h.returnData| && fresh(v) && v.Length == 8 + n && v[..8] == ToLe(n, 4) + ToLe(n, 4)
    ensures h.Valid() && h.State() == old(h.State()).(trace := old(h.trace) + [
              Call(Symbol.GetReturnSize, []), Call(Symbol.Malloc, [Word(8 + n)])])
  {
    n := h.GetReturnSize();
    v := NewVector(h, n);
  }

  /**
   * After any external call that leaves the host running (one with a success
   * flag, or one the host answered with status 0), the vector return_data
   * builds holds the call's return data, with len = size = its length.
   */
  method CallThenReturnData(h: Host, flag: bool, payload: array<Byte>, payloadLen: nat, address: array<Byte>,
                            gas: nat, value: nat, ty: CallTy, hostStatus: int, result: seq<Byte>) returns (v: array<Byte>)
    requires h.Valid() && h.status == Running && h.heapReady && payloadLen <= payload.Length
    requires |result| + 8 < MemoryLimit && (flag || hostStatus == 0)
    modifies h
    ensures fresh(v) && IsVector(v[..]) && VectorData(v[..]) == result
    ensures VectorLen(v[..]) == FromLe(v[4..8]) == |result|
    ensures h.Valid() && h.status == Running
  {
    var ok := ExternalCall(h, flag, payload, payloadLen, address, gas, value, ty, hostStatus, result);
    v := ReturnData(h);
    VectorRoundTrip(result);
    assert v[4..8] == v[..][4..8];
  }

  /** The create or create2 call of create_contract, and the encode calls before it. */
  function CreateCalls(code: seq<Byte>, encoded: seq<Byte>, value: Option<nat>, salt: Option<nat>): seq<Event>
  {
    var input := code + encoded;
    var v := ToLe(if value.Some? then value.value else 0, ValueLength);
    [Call(Symbol.Malloc, [Word(|input|)]), Call(Symbol.Memcpy, [Mem(code)])]
    + [if salt.Some? then Call(Create2, [Mem(v), Mem(input), Word(|input|), Mem(ToLe(salt.value, ValueLength))])
       else Call(Symbol.Create, [Mem(v), Mem(input), Word(|input|)])]
  }

  /**
   * The staging and the create or create2 call that both versions of
   * create_contract share: the input is the contract's code followed by the
   * encoded constructor arguments, the value (0 when absent) is staged as is,
   * and a salt selects create2.
   */
  method CreateCall(h: Host, code: seq<Byte>, encoded: seq<Byte>, value: Option<nat>, salt: Option<nat>,
                    address: array<Byte>, hostStatus: int, created: seq<Byte>) returns (ret: int)
    requires h.Valid() && h.status == Running && h.heapReady
    requires |code| + |encoded| < MemoryLimit && |created| == address.Length
    modifies h, address
    ensures ret == hostStatus && address[..] == created
    ensures h.Valid() && h.State() == old(h.State()).(trace := old(h.trace) + CreateCalls(code, encoded, value, salt))
  {
    var input, inputLen := Encode(h, Some(code), encoded);
    ghost var t := h.trace;
    assert t == old(h.trace) + [Call(Symbol.Malloc, [Word(|code + encoded|)]), Call(Symbol.Memcpy, [Mem(code)])];
    var valuePtr := StageInt(if value.Some? then value.value else 0, ValueLength);
    var saltBytes: Option<seq<Byte>> := None;
    if salt.Some? {
      var saltPtr := StageInt(salt.value, ValueLength);
      saltBytes := Some(saltPtr[..]);
    }
    ret := h.Create(valuePtr[..], input[..], saltBytes, address, hostStatus, created);
  }

  /**
   * create_contract as written: the status of create or create2 is bound to
   * an inner `ret` that shadows the outer `ret`, the constant 0, and the
   * success test reads the outer one. So the call always counts as
   * successful, and without a flag the bail block is never entered.
   */
  method CreateContractAsWritten(h: Host, flag: bool, code: seq<Byte>, encoded: seq<Byte>, value: Option<nat>,
                                 salt: Option<nat>, address: array<Byte>, hostStatus: int, created: seq<Byte>)
    returns (success: bool)
    requires h.Valid() && h.status == Running && h.heapReady
    requires |code| + |encoded| < MemoryLimit && |created| == address.Length
    modifies h, address
    ensures success && address[..] == created
    ensures h.Valid() && h.State() == old(h.State()).(trace := old(h.trace) + CreateCalls(code, encoded, value, salt))
  {
    var ret := 0;
    var innerRet := CreateCall(h, code, encoded, value, salt, address, hostStatus, created);
    var isSuccess := CreateSucceededAsWritten(innerRet);
    if !flag && !isSuccess {
      assert false;
    }
    success := isSuccess;
  }

  /** create_contract as evidently intended: the success test reads the status of create or create2. */
  method CreateContract(h: Host, flag: bool, code: seq<Byte>, encoded: seq<Byte>, value: Option<nat>,
                        salt: Option<nat>, address: array<Byte>, hostStatus: int, created: seq<Byte>)
    returns (success: bool)
    requires h.Valid() && h.status == Running && h.heapReady
    requires |code| + |encoded| < MemoryLimit && |created| == address.Length
    modifies h, address
    ensures success == (hostStatus == 0) && address[..] == created
    ensures h.Valid() && h.State() == AfterBranch(old(h.State()).(
              trace := old(h.trace) + CreateCalls(code, encoded, value, salt)), flag, success)
  {
    var ret := CreateCall(h, code, encoded, value, salt, address, hostStatus, created);
    success := CreateSucceeded(ret);
    Branch(h, flag, success);
  }

  /**
   * The success test of create_contract as written: the outer `ret`, the
   * constant 0, is compared, whatever the host returned.
   */
  function CreateSucceededAsWritten(hostStatus: int): bool
  {
    var ret := 0;
    ret == 0
  }

  /** The success test as intended: the host's status is 0. */
  function CreateSucceeded(hostStatus: int): bool
  {
    hostStatus == 0
  }

  /** Every create the host fails counts as a success as written, and as a failure as intended. */
  lemma CreateFailureIgnored(hostStatus: int)
    requires hostStatus != 0
    ensures CreateSucceededAsWritten(hostStatus) && !CreateSucceeded(hostStatus)
  {
  }
}
