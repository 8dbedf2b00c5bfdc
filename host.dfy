/**
 * The abstract Lachain host that the emitted wasm code runs against.
 *
 * The host keeps fixed-word storage (a 32-byte key to a 32-byte word), string
 * storage (a 32-byte key to a byte string), the call data of the running
 * transaction, the return data of the last contract call, the data recorded by
 * set_return, and a halt status. Every call the emitted code makes, to a host
 * primitive or to a helper of the linked runtime library, is appended to a
 * trace. Linear memory is modelled by byte arrays: one array per allocation.
 *
 * What the host itself decides (a call status, the data a getter writes, a
 * digest) is a parameter of the primitive that produces it.
 */
module Host {
  import opened Bytes
  import opened Registry

  datatype Status = Running | Halted(code: int)

  /** Lachain values are always 256 bits: 32 bytes. */
  const ValueLength: nat := 32

  /** An argument of a recorded call: bytes read from memory, or an i32/i8 passed by value. */
  datatype Arg = Mem(bytes: seq<Byte>) | Word(n: int)

  /**
   * One entry of the trace: a call of a declared or linked function, or the
   * value-transfer abort that the prelude emits for non-payable contracts.
   */
  datatype Event = Call(sym: Symbol, args: seq<Arg>) | ValueTransferAbort

  predicate IsHalt(e: Event)
  {
    e.Call? && e.sym == Symbol.SystemHalt
  }

  /** No event of `t` is a call of system_halt (stated from the last event back). */
  predicate NoHalt(t: seq<Event>)
  {
    t == [] || (NoHalt(t[..|t| - 1]) && !IsHalt(t[|t| - 1]))
  }

  lemma {:induction false} NoHaltAt(t: seq<Event>, i: nat)
    requires NoHalt(t) && i < |t|
    ensures !IsHalt(t[i])
  {
    if i < |t| - 1 {
      NoHaltAt(t[..|t| - 1], i);
    }
  }

  /** Every recorded call is of a name that resolves in the module the backend builds. */
  predicate AllResolved(t: seq<Event>)
  {
    forall i :: 0 <= i < |t| ==> (t[i].Call? ==> Resolvable(t[i].sym))
  }

  /** The fields of a host, as one value, so that a method can say what it leaves unchanged. */
  datatype HostState = HostState(
    words: map<seq<Byte>, seq<Byte>>,
    strings: map<seq<Byte>, seq<Byte>>,
    returnData: seq<Byte>,
    output: seq<Byte>,
    status: Status,
    trace: seq<Event>,
    heapReady: bool,
    calldataLen: int,
    calldataData: array?<Byte>)

  /** A 32-byte word whose first `|s|` bytes are `s` and whose other bytes are zero. */
  function ZeroExtend(s: seq<Byte>): (w: seq<Byte>)
    requires |s| <= 32
    ensures |w| == 32 && w[..|s|] == s
    ensures forall i :: |s| <= i < 32 ==> w[i] == 0
  {
    s + Zeros(32 - |s|)
  }

  /** `s` with the bytes from `off` on overwritten by `b`. */
  function Splice(s: seq<Byte>, off: nat, b: seq<Byte>): (r: seq<Byte>)
    requires off + |b| <= |s|
    ensures |r| == |s| && r[off..off + |b|] == b
    ensures forall i :: 0 <= i < |s| && !(off <= i < off + |b|) ==> r[i] == s[i]
    ensures off == 0 && |b| == |s| ==> r == b
  {
    s[..off] + b + s[off + |b|..]
  }

  /**
   * The runtime's `struct.vector` holding `s`: an i32 length, an i32 size and
   * the data, eight header bytes in all, integers little-endian.
   */
  function VectorOf(s: seq<Byte>): (v: seq<Byte>)
    requires |s| < MemoryLimit
    ensures |v| == 8 + |s|
  {
    ToLe(|s|, 4) + ToLe(|s|, 4) + s
  }

  /** The len field, read as the runtime reads it. */
  function VectorLen(v: seq<Byte>): nat
    requires |v| >= 8
  {
    FromLe(v[..4])
  }

  predicate IsVector(v: seq<Byte>)
  {
    |v| >= 8 && 8 + VectorLen(v) <= |v|
  }

  /** The data of a vector: the len bytes after the header. */
  function VectorData(v: seq<Byte>): (d: seq<Byte>)
    requires IsVector(v)
    ensures |d| == VectorLen(v)
  {
    v[8..8 + VectorLen(v)]
  }

  /** Reading back the vector built from `s` gives its length and `s` again. */
  lemma VectorRoundTrip(s: seq<Byte>)
    requires |s| < MemoryLimit
    ensures IsVector(VectorOf(s))
    ensures VectorLen(VectorOf(s)) == |s| && VectorData(VectorOf(s)) == s
    ensures FromLe(VectorOf(s)[4..8]) == |s|
  {
    var v := VectorOf(s);
    assert Pow256(4) == MemoryLimit;
    FromLeToLe(|s|, 4);
    assert v[..4] == ToLe(|s|, 4);
    assert v[4..8] == ToLe(|s|, 4);
    assert v[8..8 + |s|] == s;
  }

  /** build_alloca: a fresh stack buffer of n bytes; its contents are unspecified. */
  method Alloca(n: nat) returns (p: array<Byte>)
    ensures fresh(p) && p.Length == n
  {
    p := new Byte[n];
  }

  /** build_store of a value whose little-endian bytes are `b`, at byte offset `off`. */
  method Store(p: array<Byte>, off: nat, b: seq<Byte>)
    requires off + |b| <= p.Length
    modifies p
    ensures p[..] == Splice(old(p[..]), off, b)
  {
    forall i | off <= i < off + |b| {
      p[i] := b[i - off];
    }
    assert p[..] == Splice(old(p[..]), off, b);
  }

  /**
   * The start of get_storage_string and return_data: __malloc a vector
   * header plus n bytes, then store n as both its len and its size.
   */
  method NewVector(h: Host, n: nat) returns (v: array<Byte>)
    requires h.Valid() && h.status == Running && h.heapReady && n + 8 < MemoryLimit
    modifies h
    ensures fresh(v) && v.Length == 8 + n && v[..8] == ToLe(n, 4) + ToLe(n, 4)
    ensures h.Valid() && h.State() == old(h.State()).(trace := old(h.trace) + [Call(Symbol.Malloc, [Word(8 + n)])])
  {
    v := h.Malloc(n + 8);
    Store(v, 0, ToLe(n, 4));
    Store(v, 4, ToLe(n, 4));
  }

  /** A vector whose header holds |s| and whose data is s is the vector of s. */
  lemma VectorFilled(v: seq<Byte>, s: seq<Byte>)
    requires |s| < MemoryLimit && |v| == 8 + |s|
    requires v[..8] == ToLe(|s|, 4) + ToLe(|s|, 4) && v[8..] == s
    ensures v == VectorOf(s)
  {
    assert v == v[..8] + v[8..];
  }

  class Host {
    var words: map<seq<Byte>, seq<Byte>>
    var strings: map<seq<Byte>, seq<Byte>>
    /** The call data of the running transaction. */
    const callData: seq<Byte>
    /** The return data of the last contract call. */
    var returnData: seq<Byte>
    /** What the last set_return recorded. */
    var output: seq<Byte>
    var status: Status
    var trace: seq<Event>
    /** Whether __init_heap has run, which __malloc needs. */
    var heapReady: bool
    /** The module globals calldata_len and calldata_data. */
    var calldataLen: int
    var calldataData: array?<Byte>

    function State(): HostState
      reads this
    {
      HostState(words, strings, returnData, output, status, trace, heapReady, calldataLen, calldataData)
    }

    /**
     * Stored words are 32 bytes; every stored string, the call data and the
     * return data fit, with a vector header, in the 32-bit linear memory; only
     * the last entry of the trace can be a system_halt, and it is there
     * exactly when the host has halted, with the halt's code; every recorded
     * call resolves.
     */
    ghost predicate Valid()
      reads this
    {
      (forall k :: k in words ==> |words[k]| == 32)
      && (forall k :: k in strings ==> |strings[k]| + 8 < MemoryLimit)
      && |callData| + 8 < MemoryLimit
      && |returnData| + 8 < MemoryLimit
      && (status == Running ==> NoHalt(trace))
      && (status.Halted? ==>
            |trace| > 0 && NoHalt(trace[..|trace| - 1])
            && trace[|trace| - 1] == Call(Symbol.SystemHalt, [Word(status.code)]))
      && AllResolved(trace)
    }

    constructor (input: seq<Byte>)
      requires |input| + 8 < MemoryLimit
      ensures Valid() && status == Running && callData == input
      ensures words == map[] && strings == map[] && returnData == [] && output == []
      ensures trace == [] && !heapReady
    {
      words := map[];
      strings := map[];
      callData := input;
      returnData := [];
      output := [];
      status := Running;
      trace := [];
      heapReady := false;
      calldataLen := 0;
      calldataData := null;
    }

    /** The word load_storage yields for a key: what was saved, or 32 zero bytes. */
    function WordAt(key: seq<Byte>): (w: seq<Byte>)
      requires Valid()
      reads this
      ensures |w| == 32
    {
      if key in words then words[key] else Zeros(32)
    }

    /** The string load_storage_string yields for a key: what was saved, or nothing. */
    function StringAt(key: seq<Byte>): (s: seq<Byte>)
      requires Valid()
      reads this
      ensures |s| + 8 < MemoryLimit
    {
      if key in strings then strings[key] else []
    }

    /** Appending an event that is no halt to a running host keeps it valid. */
    lemma AppendKeepsValid(t: seq<Event>, e: Event)
      requires NoHalt(t) && AllResolved(t) && !IsHalt(e) && (e.Call? ==> Resolvable(e.sym))
      ensures NoHalt(t + [e]) && AllResolved(t + [e])
    {
      assert (t + [e])[..|t|] == t;
    }

    // ---- the value-transfer check and the runtime-library helpers ----

    /**
     * The value-transfer check abort_if_value_transfer emits, recorded at its
     * place in the trace; whether it fires is decided by Entry.AbortIfValueTransfer.
     */
    method ValueTransferAbort()
      requires Valid() && status == Running
      modifies this
      ensures Valid() && State() == old(State()).(trace := old(trace) + [Event.ValueTransferAbort])
    {
      AppendKeepsValid(trace, Event.ValueTransferAbort);
      trace := trace + [Event.ValueTransferAbort];
    }

    method InitHeap()
      requires Valid() && status == Running
      modifies this
      ensures Valid() && State() == old(State()).(heapReady := true, trace := old(trace) + [Call(Symbol.InitHeap, [])])
    {
      AppendKeepsValid(trace, Call(Symbol.InitHeap, []));
      trace := trace + [Call(Symbol.InitHeap, [])];
      heapReady := true;
    }

    /** __malloc: a fresh heap block of exactly n bytes; its contents are unspecified. */
    method Malloc(n: nat) returns (p: array<Byte>)
      requires Valid() && status == Running && heapReady && n < MemoryLimit
      modifies this
      ensures fresh(p) && p.Length == n
      ensures Valid() && State() == old(State()).(trace := old(trace) + [Call(Symbol.Malloc, [Word(n)])])
    {
      AppendKeepsValid(trace, Call(Symbol.Malloc, [Word(n)]));
      trace := trace + [Call(Symbol.Malloc, [Word(n)])];
      p := new Byte[n];
    }

    /** __memcpy(dst + off, src, |src|). */
    method Memcpy(dst: array<Byte>, off: nat, src: seq<Byte>)
      requires Valid() && status == Running && off + |src| <= dst.Length
      modifies this, dst
      ensures dst[..] == Splice(old(dst[..]), off, src)
      ensures Valid() && State() == old(State()).(trace := old(trace) + [Call(Symbol.Memcpy, [Mem(src)])])
    {
      AppendKeepsValid(trace, Call(Symbol.Memcpy, [Mem(src)]));
      trace := trace + [Call(Symbol.Memcpy, [Mem(src)])];
      Store(dst, off, src);
    }

    /** __bzero8(p, n): zero the first 8 * n bytes. */
    method Bzero8(p: array<Byte>, n: nat)
      requires Valid() && status == Running && 8 * n <= p.Length
      modifies this, p
      ensures p[..] == Splice(old(p[..]), 0, Zeros(8 * n))
      ensures Valid() && State() == old(State()).(trace := old(trace) + [Call(Symbol.Bzero8, [Word(n)])])
    {
      AppendKeepsValid(trace, Call(Symbol.Bzero8, [Word(n)]));
      trace := trace + [Call(Symbol.Bzero8, [Word(n)])];
      Store(p, 0, Zeros(8 * n));
    }

    /**
     * __be32toleN and __beNtoleN(src, dst, n): write the n bytes of src to dst
     * in reverse order, converting between big- and little-endian.
     */
    method ByteSwap(helper: Symbol, src: array<Byte>, dst: array<Byte>, n: nat)
      requires helper == Be32ToLeN || helper == BeNToLeN
      requires Valid() && status == Running && src.Length == n && dst.Length == n
      modifies this, dst
      ensures dst[..] == Reverse(old(src[..]))
      ensures Valid() && State() == old(State()).(trace := old(trace) + [Call(helper, [Word(n)])])
    {
      var r := Reverse(src[..]);
      AppendKeepsValid(trace, Call(helper, [Word(n)]));
      trace := trace + [Call(helper, [Word(n)])];
      Store(dst, 0, r);
    }

    // ---- call data and return data ----

    /** build_store into the module global calldata_len. */
    method StoreCalldataLen(n: int)
      requires Valid()
      modifies this
      ensures Valid() && State() == old(State()).(calldataLen := n)
    {
      calldataLen := n;
    }

    /** build_store into the module global calldata_data. */
    method StoreCalldataData(p: array?<Byte>)
      requires Valid()
      modifies this
      ensures Valid() && State() == old(State()).(calldataData := p)
    {
      calldataData := p;
    }

    method GetCallSize() returns (n: nat)
      requires Valid() && status == Running
      modifies this
      ensures n == |callData|
      ensures Valid() && State() == old(State()).(trace := old(trace) + [Call(Symbol.GetCallSize, [])])
    {
      AppendKeepsValid(trace, Call(Symbol.GetCallSize, []));
      trace := trace + [Call(Symbol.GetCallSize, [])];
      n := |callData|;
    }

    /** copy_call_value(from, to, dst): the call data bytes from `from` up to `to`, written at dst. */
    method CopyCallValue(from: nat, to: nat, dst: array<Byte>)
      requires Valid() && status == Running && from <= to <= |callData| && to - from <= dst.Length
      modifies this, dst
      ensures dst[..] == Splice(old(dst[..]), 0, callData[from..to])
      ensures Valid() && State() == old(State()).(trace := old(trace) + [Call(Symbol.CopyCallValue, [Word(from), Word(to)])])
    {
      AppendKeepsValid(trace, Call(Symbol.CopyCallValue, [Word(from), Word(to)]));
      trace := trace + [Call(Symbol.CopyCallValue, [Word(from), Word(to)])];
      Store(dst, 0, callData[from..to]);
    }

    method GetReturnSize() returns (n: nat)
      requires Valid() && status == Running
      modifies this
      ensures n == |returnData|
      ensures Valid() && State() == old(State()).(trace := old(trace) + [Call(Symbol.GetReturnSize, [])])
    {
      AppendKeepsValid(trace, Call(Symbol.GetReturnSize, []));
      trace := trace + [Call(Symbol.GetReturnSize, [])];
      n := |returnData|;
    }

    /**
     * copy_return_value(dst + off, dataOffset, length): the `length` bytes of
     * the return data from `dataOffset` on, written at dst + off.
     */
    method CopyReturnValue(dst: array<Byte>, off: nat, dataOffset: nat, length: nat)
      requires Valid() && status == Running && dataOffset + length <= |returnData| && off + length <= dst.Length
      modifies this, dst
      ensures dst[..] == Splice(old(dst[..]), off, old(returnData[dataOffset..dataOffset + length]))
      ensures Valid() && State() == old(State()).(trace := old(trace) + [Call(Symbol.CopyReturnValue, [Word(dataOffset), Word(length)])])
    {
      AppendKeepsValid(trace, Call(Symbol.CopyReturnValue, [Word(dataOffset), Word(length)]));
      trace := trace + [Call(Symbol.CopyReturnValue, [Word(dataOffset), Word(length)])];
      Store(dst, off, returnData[dataOffset..dataOffset + length]);
    }

    // ---- fixed and string storage ----

    /** save_storage(key, value): both point at 32 bytes. */
    method SaveStorage(key: array<Byte>, value: array<Byte>)
      requires Valid() && status == Running && key.Length == 32 && value.Length == 32
      modifies this
      ensures Valid()
      ensures State() == old(State()).(words := old(words)[key[..] := value[..]],
                                       trace := old(trace) + [Call(Symbol.SaveStorage, [Mem(key[..]), Mem(value[..])])])
    {
      AppendKeepsValid(trace, Call(Symbol.SaveStorage, [Mem(key[..]), Mem(value[..])]));
      trace := trace + [Call(Symbol.SaveStorage, [Mem(key[..]), Mem(value[..])])];
      words := words[key[..] := value[..]];
    }

    /** load_storage(key, dst): the word stored under key, written to the 32 bytes at dst. */
    method LoadStorage(key: array<Byte>, dst: array<Byte>)
      requires Valid() && status == Running && key.Length == 32 && dst.Length == 32
      modifies this, dst
      ensures dst[..] == old(WordAt(key[..]))
      ensures Valid() && State() == old(State()).(trace := old(trace) + [Call(Symbol.LoadStorage, [Mem(old(key[..]))])])
    {
      var k := key[..];
      AppendKeepsValid(trace, Call(Symbol.LoadStorage, [Mem(k)]));
      trace := trace + [Call(Symbol.LoadStorage, [Mem(k)])];
      Store(dst, 0, WordAt(k));
      assert dst[..] == WordAt(k);
    }

    /** save_storage_string(key, data, len): the len bytes at data, stored under key. */
    method SaveStorageString(key: array<Byte>, data: array<Byte>, off: nat, len: nat)
      requires Valid() && status == Running && key.Length == 32
      requires off + len <= data.Length && len + 8 < MemoryLimit
      modifies this
      ensures Valid()
      ensures State() == old(State()).(strings := old(strings)[key[..] := data[off..off + len]],
                                       trace := old(trace) + [Call(Symbol.SaveStorageString, [Mem(key[..]), Mem(data[off..off + len])])])
    {
      var e := Call(Symbol.SaveStorageString, [Mem(key[..]), Mem(data[off..off + len])]);
      AppendKeepsValid(trace, e);
      trace := trace + [e];
      strings := strings[key[..] := data[off..off + len]];
    }

    method GetStorageStringSize(key: array<Byte>) returns (n: nat)
      requires Valid() && status == Running && key.Length == 32
      modifies this
      ensures n == |old(StringAt(key[..]))|
      ensures Valid() && State() == old(State()).(trace := old(trace) + [Call(Symbol.GetStorageStringSize, [Mem(key[..])])])
    {
      AppendKeepsValid(trace, Call(Symbol.GetStorageStringSize, [Mem(key[..])]));
      trace := trace + [Call(Symbol.GetStorageStringSize, [Mem(key[..])])];
      n := |StringAt(key[..])|;
    }

    /** load_storage_string(key, dst + off): the string stored under key, written from dst + off on. */
    method LoadStorageString(key: array<Byte>, dst: array<Byte>, off: nat)
      requires Valid() && status == Running && key.Length == 32 && key != dst
      requires off + |StringAt(key[..])| <= dst.Length
      modifies this, dst
      ensures dst[..] == Splice(old(dst[..]), off, old(StringAt(key[..])))
      ensures Valid() && State() == old(State()).(trace := old(trace) + [Call(Symbol.LoadStorageString, [Mem(key[..])])])
    {
      AppendKeepsValid(trace, Call(Symbol.LoadStorageString, [Mem(key[..])]));
      trace := trace + [Call(Symbol.LoadStorageString, [Mem(key[..])])];
      Store(dst, off, StringAt(key[..]));
    }

    // ---- calls, transfers and creation ----

    /**
     * invoke_contract, invoke_static_contract or invoke_delegate_contract:
     * returns the host's status and makes `result` the return data.
     */
    method Invoke(primitive: Symbol, address: seq<Byte>, input: seq<Byte>, value: seq<Byte>, gas: seq<Byte>,
                  hostStatus: int, result: seq<Byte>) returns (ret: int)
      requires primitive == InvokeContract || primitive == InvokeStaticContract || primitive == InvokeDelegateContract
      requires Valid() && status == Running && |result| + 8 < MemoryLimit
      modifies this
      ensures ret == hostStatus
      ensures Valid()
      ensures State() == old(State()).(returnData := result,
                                       trace := old(trace) + [Call(primitive, [Mem(address), Word(|input|), Mem(input), Mem(value), Mem(gas)])])
    {
      var e := Call(primitive, [Mem(address), Word(|input|), Mem(input), Mem(value), Mem(gas)]);
      AppendKeepsValid(trace, e);
      trace := trace + [e];
      returnData := result;
      ret := hostStatus;
    }

    method Transfer(address: seq<Byte>, value: seq<Byte>, hostStatus: int) returns (ret: int)
      requires Valid() && status == Running
      modifies this
      ensures ret == hostStatus
      ensures Valid() && State() == old(State()).(trace := old(trace) + [Call(Symbol.Transfer, [Mem(address), Mem(value)])])
    {
      AppendKeepsValid(trace, Call(Symbol.Transfer, [Mem(address), Mem(value)]));
      trace := trace + [Call(Symbol.Transfer, [Mem(address), Mem(value)])];
      ret := hostStatus;
    }

    /**
     * create(value, input, len, address) or, with a salt, create2(value,
     * input, len, salt, address): writes the new contract's address at
     * `address` and returns the host's status.
     */
    method Create(value: seq<Byte>, input: seq<Byte>, salt: Option<seq<Byte>>, address: array<Byte>,
                  hostStatus: int, created: seq<Byte>) returns (ret: int)
      requires Valid() && status == Running && |created| == address.Length
      modifies this, address
      ensures ret == hostStatus && address[..] == created
      ensures Valid()
      ensures State() == old(State()).(trace := old(trace) + [
                if salt.Some? then Call(Create2, [Mem(value), Mem(input), Word(|input|), Mem(salt.value)])
                else Call(Symbol.Create, [Mem(value), Mem(input), Word(|input|)])])
    {
      var e := if salt.Some? then Call(Create2, [Mem(value), Mem(input), Word(|input|), Mem(salt.value)])
               else Call(Symbol.Create, [Mem(value), Mem(input), Word(|input|)]);
      AppendKeepsValid(trace, e);
      trace := trace + [e];
      Store(address, 0, created);
      ret := hostStatus;
    }

    // ---- context getters, hashing, logs ----

    /** A getter that writes the host's value for it, `result`, at dst. */
    method Getter(getter: Symbol, args: seq<Arg>, dst: array<Byte>, result: seq<Byte>)
      requires getter in {GetMsgvalue, GetAddress, GetSender, GetExternalBalance, GetGasLeft, GetTxGasPrice,
                          GetTxOrigin, GetBlockNumber, GetBlockHash, GetBlockGasLimit, GetBlockDifficulty,
                          GetBlockCoinbaseAddress, GetBlockTimestamp, GetChainId}
      requires Valid() && status == Running && |result| == dst.Length
      modifies this, dst
      ensures dst[..] == result
      ensures Valid() && State() == old(State()).(trace := old(trace) + [Call(getter, args)])
    {
      AppendKeepsValid(trace, Call(getter, args));
      trace := trace + [Call(getter, args)];
      Store(dst, 0, result);
    }

    /**
     * crypto_keccak256, crypto_ripemd160, crypto_sha256 and crypto_recover:
     * the host writes `digest` at dst.
     */
    method Crypto(primitive: Symbol, args: seq<Arg>, dst: array<Byte>, digest: seq<Byte>)
      requires primitive == CryptoKeccak256 || primitive == CryptoRipemd160 || primitive == CryptoSha256 || primitive == CryptoRecover
      requires Valid() && status == Running && |digest| <= dst.Length
      modifies this, dst
      ensures dst[..] == Splice(old(dst[..]), 0, digest)
      ensures Valid() && State() == old(State()).(trace := old(trace) + [Call(primitive, args)])
    {
      AppendKeepsValid(trace, Call(primitive, args));
      trace := trace + [Call(primitive, args)];
      Store(dst, 0, digest);
    }

    method WriteLog(data: seq<Byte>)
      requires Valid() && status == Running
      modifies this
      ensures Valid() && State() == old(State()).(trace := old(trace) + [Call(Symbol.WriteLog, [Mem(data), Word(|data|)])])
    {
      AppendKeepsValid(trace, Call(Symbol.WriteLog, [Mem(data), Word(|data|)]));
      trace := trace + [Call(Symbol.WriteLog, [Mem(data), Word(|data|)])];
    }

    // ---- termination ----

    /** set_return(data, len): a null pointer with length 0 records no data. */
    method SetReturn(data: seq<Byte>)
      requires Valid() && status == Running
      modifies this
      ensures Valid() && State() == old(State()).(output := data, trace := old(trace) + [Call(Symbol.SetReturn, [Mem(data), Word(|data|)])])
    {
      AppendKeepsValid(trace, Call(Symbol.SetReturn, [Mem(data), Word(|data|)]));
      trace := trace + [Call(Symbol.SetReturn, [Mem(data), Word(|data|)])];
      output := data;
    }

    /** system_halt(code): declared noreturn; after it the host runs nothing (every primitive requires Running). */
    method SystemHalt(code: int)
      requires Valid() && status == Running
      modifies this
      ensures Valid() && status == Halted(code)
      ensures State() == old(State()).(status := Halted(code), trace := old(trace) + [Call(Symbol.SystemHalt, [Word(code)])])
    {
      assert Resolvable(Symbol.SystemHalt);
      var t := trace + [Call(Symbol.SystemHalt, [Word(code)])];
      assert t[..|t| - 1] == trace;
      trace := t;
      status := Halted(code);
    }
  }
}
