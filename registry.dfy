/**
 * The host-primitive registry of the generated LLVM module.
 *
 * declare_externals adds every Lachain host primitive to the module once,
 * with its signature, and marks system_halt as non-returning. Every emitter
 * later finds a function by name (`get_function(name).unwrap()`), so a name
 * that was never declared is a compile-time panic, modelled here as a lookup
 * that yields None.
 */
module Registry {

  datatype Option<T> = None | Some(value: T)

  /** Parameter and return types of a declared function: i8*, i32 and i8. */
  datatype ParamTy = Ptr | I32 | I8
  datatype RetTy = Void | RetI32

  datatype Signature = Signature(params: seq<ParamTy>, ret: RetTy, noreturn: bool)

  /**
   * Every function name the Lachain emitters look up, as an enumeration: the
   * 36 host primitives, the six runtime-library helpers, and the two names
   * that are used but never declared. Name gives the symbol's LLVM name.
   */
  datatype Symbol =
    SaveStorage | LoadStorage | SaveStorageString | LoadStorageString | GetStorageStringSize | GetCallSize | GetReturnSize | CopyCallValue | CopyReturnValue | InvokeContract | InvokeStaticContract | InvokeDelegateContract | Transfer 
    | GetMsgvalue | GetAddress | GetSender | GetExternalBalance | GetGasLeft | GetTxGasPrice | GetTxOrigin | GetBlockNumber | GetBlockHash | GetBlockGasLimit | GetBlockDifficulty | GetBlockCoinbaseAddress | GetBlockTimestamp | GetChainId 
    | Create | Create2 | WriteLog | SetReturn | CryptoKeccak256 | CryptoRipemd160 | CryptoSha256 | CryptoRecover | SystemHalt
    | InitHeap | Malloc | Memcpy | Bzero8 | Be32ToLeN | BeNToLeN
    | SelfDestruct | PrintMem

  function Name(s: Symbol): string
  {
    match s
    case SaveStorage => "save_storage"
    case LoadStorage => "load_storage"
    case SaveStorageString => "save_storage_string"
    case LoadStorageString => "load_storage_string"
    case GetStorageStringSize => "get_storage_string_size"
    case GetCallSize => "get_call_size"
    case GetReturnSize => "get_return_size"
    case CopyCallValue => "copy_call_value"
    case CopyReturnValue => "copy_return_value"
    case InvokeContract => "invoke_contract"
    case InvokeStaticContract => "invoke_static_contract"
    case InvokeDelegateContract => "invoke_delegate_contract"
    case Transfer => "transfer"
    case GetMsgvalue => "get_msgvalue"
    case GetAddress => "get_address"
    case GetSender => "get_sender"
    case GetExternalBalance => "get_external_balance"
    case GetGasLeft => "get_gas_left"
    case GetTxGasPrice => "get_tx_gas_price"
    case GetTxOrigin => "get_tx_origin"
    case GetBlockNumber => "get_block_number"
    case GetBlockHash => "get_block_hash"
    case GetBlockGasLimit => "get_block_gas_limit"
    case GetBlockDifficulty => "get_block_difficulty"
    case GetBlockCoinbaseAddress => "get_block_coinbase_address"
    case GetBlockTimestamp => "get_block_timestamp"
    case GetChainId => "get_chain_id"
    case Create => "create"
    case Create2 => "create2"
    case WriteLog => "write_log"
    case SetReturn => "set_return"
    case CryptoKeccak256 => "crypto_keccak256"
    case CryptoRipemd160 => "crypto_ripemd160"
    case CryptoSha256 => "crypto_sha256"
    case CryptoRecover => "crypto_recover"
    case SystemHalt => "system_halt"
    case InitHeap => "__init_heap"
    case Malloc => "__malloc"
    case Memcpy => "__memcpy"
    case Bzero8 => "__bzero8"
    case Be32ToLeN => "__be32toleN"
    case BeNToLeN => "__beNtoleN"
    case SelfDestruct => "selfDestruct"
    case PrintMem => "printMem"
  }

  /** Position of a symbol in the enumeration, which lists the primitives in declaration order. */
  function Ordinal(s: Symbol): nat
  {
    match s
    case SaveStorage => 0
    case LoadStorage => 1
    case SaveStorageString => 2
    case LoadStorageString => 3
    case GetStorageStringSize => 4
    case GetCallSize => 5
    case GetReturnSize => 6
    case CopyCallValue => 7
    case CopyReturnValue => 8
    case InvokeContract => 9
    case InvokeStaticContract => 10
    case InvokeDelegateContract => 11
    case Transfer => 12
    case GetMsgvalue => 13
    case GetAddress => 14
    case GetSender => 15
    case GetExternalBalance => 16
    case GetGasLeft => 17
    case GetTxGasPrice => 18
    case GetTxOrigin => 19
    case GetBlockNumber => 20
    case GetBlockHash => 21
    case GetBlockGasLimit => 22
    case GetBlockDifficulty => 23
    case GetBlockCoinbaseAddress => 24
    case GetBlockTimestamp => 25
    case GetChainId => 26
    case Create => 27
    case Create2 => 28
    case WriteLog => 29
    case SetReturn => 30
    case CryptoKeccak256 => 31
    case CryptoRipemd160 => 32
    case CryptoSha256 => 33
    case CryptoRecover => 34
    case SystemHalt => 35
    case InitHeap => 36
    case Malloc => 37
    case Memcpy => 38
    case Bzero8 => 39
    case Be32ToLeN => 40
    case BeNToLeN => 41
    case SelfDestruct => 42
    case PrintMem => 43
  }

  const VoidPtrPtr := Signature([Ptr, Ptr], Void, false)
  const VoidPtr := Signature([Ptr], Void, false)
  const InvokeSig := Signature([Ptr, I32, Ptr, Ptr, Ptr], RetI32, false)
  const HashSig := Signature([Ptr, I32, Ptr], Void, false)

  /** Number of host primitives declare_externals adds. */
  const DeclarationCount := 36

  /**
   * The signature declare_externals gives a symbol; None for the library
   * helpers and for the two names it never declares. system_halt is the only
   * one marked noreturn.
   */
  function HostSignature(s: Symbol): Option<Signature>
  {
    match s
    case SaveStorage => Some(VoidPtrPtr)
    case LoadStorage => Some(VoidPtrPtr)
    case SaveStorageString => Some(Signature([Ptr, Ptr, I32], Void, false))
    case LoadStorageString => Some(VoidPtrPtr)
    case GetStorageStringSize => Some(Signature([Ptr], RetI32, false))
    case GetCallSize => Some(Signature([], RetI32, false))
    case GetReturnSize => Some(Signature([], RetI32, false))
    case CopyCallValue => Some(Signature([I32, I32, Ptr], Void, false))
    case CopyReturnValue => Some(Signature([Ptr, I32, I32], Void, false))
    case InvokeContract => Some(InvokeSig)
    case InvokeStaticContract => Some(InvokeSig)
    case InvokeDelegateContract => Some(InvokeSig)
    case Transfer => Some(Signature([Ptr, Ptr], RetI32, false))
    case GetMsgvalue => Some(VoidPtr)
    case GetAddress => Some(VoidPtr)
    case GetSender => Some(VoidPtr)
    case GetExternalBalance => Some(VoidPtrPtr)
    case GetGasLeft => Some(VoidPtr)
    case GetTxGasPrice => Some(VoidPtr)
    case GetTxOrigin => Some(VoidPtr)
    case GetBlockNumber => Some(VoidPtr)
    case GetBlockHash => Some(VoidPtrPtr)
    case GetBlockGasLimit => Some(VoidPtr)
    case GetBlockDifficulty => Some(VoidPtr)
    case GetBlockCoinbaseAddress => Some(VoidPtr)
    case GetBlockTimestamp => Some(VoidPtr)
    case GetChainId => Some(VoidPtr)
    case Create => Some(Signature([Ptr, Ptr, I32, Ptr], RetI32, false))
    case Create2 => Some(Signature([Ptr, Ptr, I32, Ptr, Ptr], RetI32, false))
    case WriteLog => Some(Signature([Ptr, I32], Void, false))
    case SetReturn => Some(Signature([Ptr, I32], Void, false))
    case CryptoKeccak256 => Some(HashSig)
    case CryptoRipemd160 => Some(HashSig)
    case CryptoSha256 => Some(HashSig)
    case CryptoRecover => Some(Signature([Ptr, I8, Ptr, Ptr, Ptr], Void, false))
    case SystemHalt => Some(Signature([I32], Void, true))
    case _ => None
  }

  /** The i-th primitive declare_externals adds. */
  function DeclarationOrder(i: nat): Symbol
    requires i < DeclarationCount
  {
    match i
    case 0 => SaveStorage
    case 1 => LoadStorage
    case 2 => SaveStorageString
    case 3 => LoadStorageString
    case 4 => GetStorageStringSize
    case 5 => GetCallSize
    case 6 => GetReturnSize
    case 7 => CopyCallValue
    case 8 => CopyReturnValue
    case 9 => InvokeContract
    case 10 => InvokeStaticContract
    case 11 => InvokeDelegateContract
    case 12 => Transfer
    case 13 => GetMsgvalue
    case 14 => GetAddress
    case 15 => GetSender
    case 16 => GetExternalBalance
    case 17 => GetGasLeft
    case 18 => GetTxGasPrice
    case 19 => GetTxOrigin
    case 20 => GetBlockNumber
    case 21 => GetBlockHash
    case 22 => GetBlockGasLimit
    case 23 => GetBlockDifficulty
    case 24 => GetBlockCoinbaseAddress
    case 25 => GetBlockTimestamp
    case 26 => GetChainId
    case 27 => Create
    case 28 => Create2
    case 29 => WriteLog
    case 30 => SetReturn
    case 31 => CryptoKeccak256
    case 32 => CryptoRipemd160
    case 33 => CryptoSha256
    case 34 => CryptoRecover
    case _ => SystemHalt
  }

  /** The i-th declaration is of the symbol with ordinal i, so no symbol is declared twice. */
  lemma DeclarationOrdinal(i: nat)
    requires i < DeclarationCount
    ensures Ordinal(DeclarationOrder(i)) == i
  {
  }

  /** The declared symbols are exactly those whose ordinal is below DeclarationCount. */
  lemma DeclaredFirst(s: Symbol)
    ensures HostSignature(s).Some? <==> Ordinal(s) < DeclarationCount
  {
  }

  /**
   * Helpers of the runtime library that is linked into every module before
   * declare_externals runs (their code and signatures are not part of this
   * model); the emitters look them up by name too.
   */
  const LibraryHelpers: set<Symbol> := {InitHeap, Malloc, Memcpy, Bzero8, Be32ToLeN, BeNToLeN}

  /** The function table of one LLVM module under construction. */
  class Module {
    /** Functions linked in from the runtime library. */
    const linked: set<Symbol>
    /** Functions declared by this backend, with their signatures. */
    var functions: map<Symbol, Signature>

    constructor (library: set<Symbol>)
      ensures linked == library && functions == map[]
    {
      linked := library;
      functions := map[];
    }

    /** What `get_function(name)` finds: a declared signature, if any. */
    function Declared(name: Symbol): Option<Signature>
      reads this
    {
      if name in functions then Some(functions[name]) else None
    }

    /** Whether `get_function(name).unwrap()` succeeds. */
    predicate Resolves(name: Symbol)
      reads this
    {
      name in linked || name in functions
    }

    /** add_function: the name must not be declared yet. */
    method AddFunction(name: Symbol, sig: Signature)
      requires name !in functions
      modifies this
      ensures functions == old(functions)[name := sig]
    {
      functions := functions[name := sig];
    }

    /**
     * declare_externals: add the host primitives one after the other, each
     * to a table that does not hold it yet.
     */
    method DeclareExternals()
      requires functions == map[]
      modifies this
      ensures forall s :: Declared(s) == HostSignature(s)
    {
      for i := 0 to DeclarationCount
        invariant forall s :: s in functions <==> Ordinal(s) < i
        invariant forall s :: s in functions ==> Some(functions[s]) == HostSignature(s)
      {
        var name := DeclarationOrder(i);
        DeclarationOrdinal(i);
        DeclaredFirst(name);
        AddFunction(name, HostSignature(name).value);
      }
      forall s ensures Declared(s) == HostSignature(s) {
        DeclaredFirst(s);
      }
    }
  }

  /** Exactly the library helpers and the declared primitives can be looked up. */
  predicate Resolvable(s: Symbol)
  {
    s in LibraryHelpers || HostSignature(s).Some?
  }

  /**
   * Every name the emitters use resolves after declare_externals, except for
   * selfDestruct (used by selfdestruct) and printMem (used by print).
   */
  lemma OnlyTwoNamesUnresolved()
    ensures forall s :: !Resolvable(s) <==> s == SelfDestruct || s == PrintMem
  {
  }

  lemma OnlyHaltIsNoreturn()
    ensures forall s :: HostSignature(s).Some? && HostSignature(s).value.noreturn <==> s == SystemHalt
  {
  }

  /** A module built the way the Lachain backend builds one resolves exactly the Resolvable names. */
  method BuildModule() returns (m: Module)
    ensures fresh(m)
    ensures forall s :: m.Resolves(s) <==> Resolvable(s)
    ensures forall s :: m.Declared(s) == HostSignature(s)
  {
    m := new Module(LibraryHelpers);
    m.DeclareExternals();
  }
}
