/**
 * What the Lachain emitters do at compile time: each operation of the
 * TargetRuntime interface either emits code that calls a fixed list of
 * functions, every one of them looked up by name in the module, or stops
 * compilation. A name get_function does not find makes `.unwrap()` panic;
 * the storage shapes this target does not support and the builtins it does
 * not know are `unimplemented!()`; a hash other than keccak256, ripemd160
 * and sha256 is `unreachable!()`. All three are compile errors here.
 */
module Lowering {
  import opened Bytes
  import opened Registry
  import opened Builtins
  import opened Calls
  import Host
  import Storage
  import Termination
  import Entry

  datatype CompileError =
    | Undeclared(name: string)
    | Unsupported(operation: string)
    | Unreachable(operation: string)

  datatype Outcome<T> = Emitted(value: T) | Failed(error: CompileError)

  /** get_function(name).unwrap(): the symbol when it resolves, a compile error naming it when not. */
  function GetFunction(s: Symbol): (r: Outcome<Symbol>)
    ensures r.Emitted? <==> Resolvable(s)
    ensures r.Emitted? ==> r.value == s
    ensures r.Failed? ==> r.error == Undeclared(Name(s))
  {
    if Resolvable(s) then Emitted(s) else Failed(Undeclared(Name(s)))
  }

  /**
   * Looking up the names an emitter uses, one after the other: all of them,
   * or the error of the first one that does not resolve.
   */
  function ResolveAll(names: seq<Symbol>): (r: Outcome<seq<Symbol>>)
    ensures r.Emitted? <==> forall i :: 0 <= i < |names| ==> Resolvable(names[i])
    ensures r.Emitted? ==> r.value == names
    ensures r.Failed? ==> exists i :: 0 <= i < |names| && !Resolvable(names[i]) && r.error == Undeclared(Name(names[i]))
                                     && forall j :: 0 <= j < i ==> Resolvable(names[j])
  {
    if names == [] then Emitted([])
    else match GetFunction(names[0])
      case Failed(e) => Failed(e)
      case Emitted(s) =>
        match ResolveAll(names[1..])
        case Failed(e) => Failed(e)
        case Emitted(rest) => Emitted([s] + rest)
  }

  datatype StorageShape = Extfunc | BytesSubscript | ArrayPushPop

  /** The operations of the TargetRuntime interface that the Lachain backend implements. */
  datatype Op =
    | RuntimePrelude(abortValueTransfers: bool)
    | Encode(withConstant: bool)
    | StorageDeleteSingleSlot
    | SetStorage(bits: nat)
    | GetStorageInt
    | SetStorageString
    | GetStorageString
    | UnsupportedStorage(shape: StorageShape)
    | Keccak256Hash
    | ReturnEmptyAbi
    | ReturnAbi
    | ReturnCode
    | AssertFailure
    | Print
    | CreateContract(salted: bool, successFlag: bool)
    | ExternalCall(ty: CallTy, successFlag: bool)
    | ValueTransfer(successFlag: bool)
    | ReturnData
    | ValueTransferred
    | Selfdestruct
    | Hash(hashTy: HashTy)
    | SendEvent
    | BuiltinExpr(builtin: Builtin)

  /** set_return and system_halt, the two calls of every termination. */
  const Halt: seq<Symbol> := [SetReturn, SystemHalt]

  /** The bail block of a call without a success flag: assert_failure(null, 0). */
  function Bail(successFlag: bool): seq<Symbol>
  {
    if successFlag then [] else Halt
  }

  /**
   * The functions an operation's emitted code calls, in the order they are
   * emitted, when the operation is one the backend supports.
   */
  function Uses(op: Op): seq<Symbol>
  {
    match op
    case RuntimePrelude(abort) => (if abort then Halt else []) + [InitHeap, GetCallSize, Malloc, CopyCallValue]
    case Encode(c) => [Malloc] + (if c then [Memcpy] else [])
    case StorageDeleteSingleSlot => [Bzero8, SaveStorage]
    case SetStorage(bits) => (if bits == 256 then [] else [Bzero8]) + [SaveStorage]
    case GetStorageInt => [LoadStorage]
    case SetStorageString => [SaveStorageString]
    case GetStorageString => [GetStorageStringSize, Malloc, LoadStorageString]
    case UnsupportedStorage(_) => []
    case Keccak256Hash => [CryptoKeccak256]
    case ReturnEmptyAbi => Halt
    case ReturnAbi => Halt
    case ReturnCode => Halt
    case AssertFailure => Halt
    case Print => [PrintMem]
    case CreateContract(salted, flag) => [Malloc, Memcpy] + [if salted then Create2 else Symbol.Create] + Bail(flag)
    case ExternalCall(ty, flag) => [Be32ToLeN, CallPrimitive(ty)] + Bail(flag)
    case ValueTransfer(flag) => [Be32ToLeN, Symbol.Transfer] + Bail(flag)
    case ReturnData => [GetReturnSize, Malloc, CopyReturnValue]
    case ValueTransferred => [GetMsgvalue]
    case Selfdestruct => [SelfDestruct]
    case Hash(ty) => if HashPrimitive(ty).Some? then [HashPrimitive(ty).value.0, BeNToLeN] else []
    case SendEvent => [WriteLog]
    case BuiltinExpr(b) =>
      match b
      case GetAddress => [Registry.GetAddress]
      case BlockHash => [GetBlockHash]
      case Balance => [GetExternalBalance]
      case Ecrecover => [CryptoRecover]
      case _ => if SingleValueGetter(b, 1, 1).Some? then [SingleValueGetter(b, 1, 1).value.0] else []
  }

  /** Compiling one operation: the unimplemented and unreachable arms first, then the name lookups. */
  function Lower(op: Op): Outcome<seq<Symbol>>
  {
    match op
    case UnsupportedStorage(_) => Failed(Unsupported("storage shape"))
    case Hash(ty) => if HashPrimitive(ty).None? then Failed(Unreachable("hash")) else ResolveAll(Uses(op))
    case BuiltinExpr(b) => if b.OtherBuiltin? then Failed(Unsupported("builtin")) else ResolveAll(Uses(op))
    case _ => ResolveAll(Uses(op))
  }

  /** The operations that stop compilation: exactly these five kinds. */
  predicate FailsToCompile(op: Op)
  {
    op.UnsupportedStorage? || op == Print || op == Selfdestruct
    || (op.Hash? && HashPrimitive(op.hashTy).None?) || (op.BuiltinExpr? && op.builtin.OtherBuiltin?)
  }

  /**
   * The operations that stop compilation do: print and selfdestruct on the
   * one name that declare_externals never declares.
   */
  lemma LowerFails(op: Op)
    requires FailsToCompile(op)
    ensures Lower(op).Failed?
    ensures op == Print ==> Lower(op) == Failed(Undeclared("printMem"))
    ensures op == Selfdestruct ==> Lower(op) == Failed(Undeclared("selfDestruct"))
  {
    if op == Print {
      PrintFails();
    } else if op == Selfdestruct {
      SelfdestructFails();
    }
  }

  /** print fails on printMem, which is neither a host function nor a helper. */
  lemma PrintFails()
    ensures Lower(Print) == Failed(Undeclared("printMem"))
  {
    assert !Resolvable(PrintMem);
    assert Lower(Print) == ResolveAll([PrintMem]);
  }

  /** selfdestruct fails on selfDestruct, which is neither a host function nor a helper. */
  lemma SelfdestructFails()
    ensures Lower(Selfdestruct) == Failed(Undeclared("selfDestruct"))
  {
    assert !Resolvable(SelfDestruct);
    assert Lower(Selfdestruct) == ResolveAll([SelfDestruct]);
  }

  /**
   * Every other operation compiles, and the code it emits calls only
   * functions that are declared or linked.
   */
  lemma LowerEmits(op: Op)
    requires !FailsToCompile(op)
    ensures Lower(op) == Emitted(Uses(op))
    ensures forall s :: s in Uses(op) ==> Resolvable(s)
  {
    UsesDeclared(op);
    ResolveAllDeclared(Uses(op));
    assert Lower(op) == ResolveAll(Uses(op));
  }

  /** Compilation fails exactly for the operations FailsToCompile names. */
  lemma LowerFailsExactly(op: Op)
    ensures Lower(op).Failed? <==> FailsToCompile(op)
  {
    if FailsToCompile(op) {
      LowerFails(op);
    } else {
      LowerEmits(op);
    }
  }

  /** A list of names none of which is selfDestruct or printMem resolves as a whole. */
  lemma ResolveAllDeclared(names: seq<Symbol>)
    requires SelfDestruct !in names && PrintMem !in names
    ensures ResolveAll(names) == Emitted(names) && forall s :: s in names ==> Resolvable(s)
  {
    forall i | 0 <= i < |names|
      ensures Resolvable(names[i])
    {
      OnlyTwoNamesUnresolved();
    }
  }

  /** The code of an operation that compiles never uses selfDestruct or printMem. */
  lemma UsesDeclared(op: Op)
    requires !FailsToCompile(op)
    ensures SelfDestruct !in Uses(op) && PrintMem !in Uses(op)
  {
    SelfDestructUnused(op);
    PrintMemUnused(op);
  }

  /** The code of an operation that compiles never calls selfDestruct. */
  lemma SelfDestructUnused(op: Op)
    requires !FailsToCompile(op)
    ensures SelfDestruct !in Uses(op)
  {
    if op.BuiltinExpr? && SingleValueGetter(op.builtin, 1, 1).Some? {
      SingleValueGettersDeclared(op.builtin, 1, 1);
    } else if op.Hash? {
      HashPrimitivesDeclared(op.hashTy);
    }
  }

  /** The code of an operation that compiles never calls printMem. */
  lemma PrintMemUnused(op: Op)
    requires !FailsToCompile(op)
    ensures PrintMem !in Uses(op)
  {
    if op.BuiltinExpr? && SingleValueGetter(op.builtin, 1, 1).Some? {
      SingleValueGettersDeclared(op.builtin, 1, 1);
    } else if op.Hash? {
      HashPrimitivesDeclared(op.hashTy);
    }
  }

  /**
   * The code of a call without a success flag ends in the bail block's
   * set_return and system_halt; with a flag, no halt is emitted.
   */
  lemma BailOnlyWithoutFlag(op: Op)
    requires op.CreateContract? || op.ExternalCall? || op.ValueTransfer?
    ensures (SystemHalt in Uses(op)) <==> !op.successFlag
    ensures !op.successFlag ==> Uses(op)[|Uses(op)| - 2..] == Halt
  {
    var b := Bail(op.successFlag);
    if op.CreateContract? {
      var pre := [Malloc, Memcpy] + [if op.salted then Create2 else Symbol.Create];
      assert Uses(op) == pre + b;
      assert SystemHalt !in pre;
    } else if op.ExternalCall? {
      var pre := [Be32ToLeN, CallPrimitive(op.ty)];
      assert Uses(op) == pre + b;
      assert SystemHalt !in pre;
    } else {
      var pre := [Be32ToLeN, Symbol.Transfer];
      assert Uses(op) == pre + b;
      assert SystemHalt !in pre;
    }
  }

  /** Every termination emits set_return then system_halt, and system_halt is its last call. */
  lemma TerminationsEndInHalt(op: Op)
    requires op == ReturnEmptyAbi || op == ReturnAbi || op == ReturnCode || op == AssertFailure
    ensures Lower(op) == Emitted([SetReturn, SystemHalt])
  {
    assert Resolvable(SetReturn) && Resolvable(SystemHalt);
  }

  /** The functions a trace calls, in order; the value-transfer check is no call. */
  function Symbols(t: seq<Host.Event>): (r: seq<Symbol>)
    ensures |r| <= |t|
  {
    if t == [] then []
    else (if t[0].Call? then [t[0].sym] else []) + Symbols(t[1..])
  }

  lemma SymbolsCons(e: Host.Event, t: seq<Host.Event>)
    ensures Symbols([e] + t) == (if e.Call? then [e.sym] else []) + Symbols(t)
  {
    assert ([e] + t)[1..] == t;
  }

  lemma {:induction false} SymbolsAppend(a: seq<Host.Event>, b: seq<Host.Event>)
    ensures Symbols(a + b) == Symbols(a) + Symbols(b)
  {
    if a == [] {
      assert a + b == b;
    } else {
      assert a + b == [a[0]] + (a[1..] + b);
      assert a == [a[0]] + a[1..];
      SymbolsCons(a[0], a[1..] + b);
      SymbolsCons(a[0], a[1..]);
      SymbolsAppend(a[1..], b);
    }
  }

  /** The symbols of two calls. */
  lemma SymbolsPair(e1: Host.Event, e2: Host.Event)
    requires e1.Call? && e2.Call?
    ensures Symbols([e1, e2]) == [e1.sym, e2.sym]
  {
    assert [e1, e2] == [e1] + [e2];
    SymbolsCons(e1, [e2]);
    assert [e2] == [e2] + [];
    SymbolsCons(e2, []);
  }

  /** The two calls of every termination are the Halt list. */
  lemma HaltSymbols(data: seq<Byte>, code: int)
    ensures Symbols(Termination.HaltCalls(data, code)) == Halt
  {
    var t := Termination.HaltCalls(data, code);
    SymbolsPair(t[0], t[1]);
    assert t == [t[0], t[1]];
  }

  /**
   * The calls the prelude model records, on its aborting path and on its
   * running path, are the ones Uses lists for it, in the same order.
   */
  lemma PreludeUses(abort: bool, size: nat)
    ensures Uses(RuntimePrelude(abort))
         == (if abort then Symbols(Entry.AbortCalls()) else []) + Symbols(Entry.PreludeCalls(abort, size))
  {
    PreludeSymbols(abort, size);
    if abort {
      AbortSymbols();
    }
  }

  /** The prelude's running path calls __init_heap, get_call_size, __malloc and copy_call_value. */
  lemma PreludeSymbols(abort: bool, size: nat)
    ensures Symbols(Entry.PreludeCalls(abort, size)) == [InitHeap, GetCallSize, Malloc, CopyCallValue]
  {
    var e1, e2 := Host.Call(InitHeap, []), Host.Call(GetCallSize, []);
    var e3, e4 := Host.Call(Malloc, [Host.Word(size)]), Host.Call(CopyCallValue, [Host.Word(0), Host.Word(size)]);
    SymbolsPair(e1, e2);
    SymbolsPair(e3, e4);
    SymbolsAppend([e1, e2], [e3, e4]);
    var tail := [e1, e2] + [e3, e4];
    if abort {
      SymbolsCons(Host.Event.ValueTransferAbort, tail);
      assert Entry.PreludeCalls(abort, size) == [Host.Event.ValueTransferAbort] + tail;
    } else {
      assert Entry.PreludeCalls(abort, size) == tail;
    }
  }

  /** The aborting prelude calls set_return and system_halt after its check. */
  lemma AbortSymbols()
    ensures Symbols(Entry.AbortCalls()) == Halt
  {
    SymbolsCons(Host.Event.ValueTransferAbort, Termination.HaltCalls([], 1));
    HaltSymbols([], 1);
  }

  /** The calls set_storage records are the ones Uses lists for it. */
  lemma SetStorageUses(w: nat, key: seq<Byte>, word: seq<Byte>)
    ensures Symbols(Storage.SetStorageCalls(w, key, word)) == Uses(SetStorage(w))
  {
    var save := Host.Call(Symbol.SaveStorage, [Host.Mem(key), Host.Mem(word)]);
    var zero := Host.Call(Symbol.Bzero8, [Host.Word(4)]);
    if w == 256 {
      SymbolsCons(save, []);
      assert Storage.SetStorageCalls(w, key, word) == [save] + [];
    } else {
      SymbolsPair(zero, save);
      assert Storage.SetStorageCalls(w, key, word) == [zero, save];
    }
  }

  /**
   * The calls create_contract records are the ones Uses lists for it; the
   * bail block adds the termination's two calls when there is no success flag.
   */
  lemma CreateUses(code: seq<Byte>, encoded: seq<Byte>, value: Option<nat>, salt: Option<nat>, flag: bool)
    ensures Uses(CreateContract(salt.Some?, flag))
         == Symbols(CreateCalls(code, encoded, value, salt)) + (if flag then [] else Symbols(Termination.HaltCalls([], 1)))
  {
    var t := CreateCalls(code, encoded, value, salt);
    SymbolsPair(t[0], t[1]);
    SymbolsCons(t[2], []);
    SymbolsAppend([t[0], t[1]], [t[2]] + []);
    assert t == [t[0], t[1]] + ([t[2]] + []);
    HaltSymbols([], 1);
  }

  /** The calls external_call records are the ones Uses lists for it, bail block included. */
  lemma ExternalCallUses(ty: CallTy, address: seq<Byte>, input: seq<Byte>, value: nat, gas: nat, flag: bool)
    ensures Uses(ExternalCall(ty, flag))
         == Symbols([Host.Call(Be32ToLeN, [Host.Word(Host.ValueLength)]), InvokeCall(ty, address, input, value, gas)])
            + (if flag then [] else Symbols(Termination.HaltCalls([], 1)))
  {
    SymbolsPair(Host.Call(Be32ToLeN, [Host.Word(Host.ValueLength)]), InvokeCall(ty, address, input, value, gas));
    HaltSymbols([], 1);
  }

  /** The calls value_transfer records are the ones Uses lists for it, bail block included. */
  lemma ValueTransferUses(address: seq<Byte>, value: nat, flag: bool)
    ensures Uses(ValueTransfer(flag))
         == Symbols([Host.Call(Be32ToLeN, [Host.Word(Host.ValueLength)]),
                     Host.Call(Symbol.Transfer, [Host.Mem(address), Host.Mem(ValueBytes(value, Host.ValueLength))])])
            + (if flag then [] else Symbols(Termination.HaltCalls([], 1)))
  {
    SymbolsPair(Host.Call(Be32ToLeN, [Host.Word(Host.ValueLength)]),
                Host.Call(Symbol.Transfer, [Host.Mem(address), Host.Mem(ValueBytes(value, Host.ValueLength))]));
    HaltSymbols([], 1);
  }
}
