# Lachain backend: a model of the emitted host calls

This project models the Lachain backend of a Solidity-to-wasm compiler
(`src/emit/lachain.rs`). The backend lowers abstract contract operations
(storage access, calls, value transfers, contract creation, hashing, context
builtins, termination) to fixed sequences of calls into the Lachain host and
into a small runtime library (`__malloc`, `__memcpy`, `__bzero8`,
`__be32toleN`, `__beNtoleN`, `__init_heap`).

The model is a host plus what the emitted code does to it:

- **`Host.Host`** is the abstract host. It holds:
  - a fixed-word storage map (32-byte key to 32-byte word);
  - a string storage map (32-byte key to bytes);
  - the call data;
  - the return data of the last contract call;
  - the data recorded by `set_return`;
  - a halt status;
  - the module globals `calldata_len` and `calldata_data`;
  - a trace of every call made.

  Each primitive is a method that appends one event to the trace. Every primitive requires a running host. `system_halt` halts the host, so nothing can follow it (`Termination.HaltIsFinal`).
- **Linear memory** is one Dafny `array<Byte>` per allocation:
  - `Alloca` gives unspecified contents, so the `__bzero8` step matters;
  - `Store` writes an integer's little-endian bytes, as wasm32 does.
- **Emitter operations** are module-level methods over the host (`Storage`, `Abi`, `Calls`, `Builtins`, `Termination`, `Entry`). Each follows the emitted steps in order: allocate scratch, zero it, store, call the primitive, load.
- **Selection tables** are functions:
  - hash algorithm to primitive and digest length;
  - `CallTy` to invoke primitive;
  - builtin to getter and width;
  - the `abi_encode` type list;
  - the payability predicate.
- **Registry** models `declare_externals` as a `Module` class whose function table is filled one declaration at a time.
- **Lowering** models what happens at compile time. `get_function(..).unwrap()` of an undeclared name, `unimplemented!()` and `unreachable!()` become a `Failed` outcome instead of a panic.

Where the description of the system and the code disagree, the model follows the code:

- A fixed storage word holds a narrow value in its first bytes, little-endian. It is not a big-endian 256-bit word.
- `create_contract` stages its value without the `__be32toleN` reversal that calls and transfers use.
- The hash passed to `ecrecover` is stored as it is, not byte-reversed.

## Model

| member | source | states |
|---|---|---|
| `Registry.Module.DeclareExternals` | src/emit/lachain.rs:136-563 | adds the 36 host primitives one at a time to a table that does not hold them yet; afterwards each name's declared signature is the one in the table |
| `Registry.Module.AddFunction` | src/emit/lachain.rs:146-149 | one add_function: the name is new and is bound to its signature |
| `Registry.BuildModule` | src/emit/lachain.rs:48-52 | a module with the runtime library linked and declare_externals run resolves exactly the library helpers and the declared primitives |
| `Registry.HostSignature` | src/emit/lachain.rs:136-563 | the signature each of the 36 primitives is declared with: its parameter kinds, its result and whether it is noreturn; no signature for the library helpers or the never-declared names |
| `Registry.DeclarationOrder` | src/emit/lachain.rs:136-563 | the primitive declared at each of the 36 positions, in the order `declare_externals` adds them |
| `Registry.DeclarationOrdinal` | src/emit/lachain.rs:136-563 | the i-th declaration is of the i-th symbol, so no primitive is declared twice |
| `Registry.DeclaredFirst` | src/emit/lachain.rs:136-563 | a symbol has a declared signature iff it is one of the 36 declared primitives |
| `Registry.OnlyTwoNamesUnresolved` | src/emit/lachain.rs:1778-1798 | every name the emitters look up resolves, except `selfDestruct` (selfdestruct) and `printMem` (print) |
| `Registry.OnlyHaltIsNoreturn` | src/emit/lachain.rs:541-562 | system_halt is the only primitive marked noreturn |
| `Lowering.GetFunction` | src/emit/lachain.rs:1210-1216 | `get_function(name).unwrap()`: the symbol iff it resolves, otherwise a compile error naming it |
| `Lowering.ResolveAll` | src/emit/lachain.rs:1778-1798 | looking up an emitter's names succeeds iff each resolves and then returns them; otherwise it fails on the first one that does not resolve |
| `Lowering.Lower` | src/emit/lachain.rs:665-2129 | the compile-time outcome of each operation: `unimplemented!()` and `unreachable!()` arms fail, every other operation looks up its names in emission order; its properties are the Lowering lemmas below |
| `Lowering.LowerFails` | src/emit/lachain.rs:864-921 | unsupported storage shapes, unknown builtins and Blake2 hashes stop compilation; print and selfdestruct fail on `printMem` and `selfDestruct` |
| `Lowering.PrintFails` | src/emit/lachain.rs:1210-1216 | print fails on `printMem`, which is neither a host function nor a helper |
| `Lowering.SelfdestructFails` | src/emit/lachain.rs:1778-1797 | selfdestruct fails on `selfDestruct`, which is neither a host function nor a helper |
| `Lowering.LowerEmits` | src/emit/lachain.rs:665-1051 | every other operation compiles, and its code calls only declared or linked functions |
| `Lowering.LowerFailsExactly` | src/emit/lachain.rs:2042-2129 | compilation fails exactly for the five failing kinds of operation |
| `Lowering.UsesDeclared` | src/emit/lachain.rs:1911-1944 | no operation that compiles uses `selfDestruct` or `printMem` |
| `Lowering.SelfDestructUnused` | src/emit/lachain.rs:1911-1944 | no operation that compiles uses `selfDestruct` |
| `Lowering.PrintMemUnused` | src/emit/lachain.rs:1911-1944 | no operation that compiles uses `printMem` |
| `Lowering.BailOnlyWithoutFlag` | src/emit/lachain.rs:1512-1537 | a call, transfer or creation emits the set_return/system_halt bail block iff no success flag was requested, and the block comes last |
| `Lowering.TerminationsEndInHalt` | src/emit/lachain.rs:1086-1160 | every termination emits exactly set_return then system_halt |
| `Lowering.HaltSymbols` | src/emit/lachain.rs:1143-1160 | the calls a termination records are set_return then system_halt, the list Lower gives for it |
| `Lowering.PreludeUses` | src/emit/lachain.rs:64-134 | the calls the prelude records, on its aborting path and on its running path, are the list Lower gives for it, in order |
| `Lowering.PreludeSymbols` | src/emit/lachain.rs:78-125 | the prelude's running path calls `__init_heap`, `get_call_size`, `__malloc`, `copy_call_value` |
| `Lowering.AbortSymbols` | src/emit/lachain.rs:74-77 | the aborting prelude calls set_return then system_halt after its check |
| `Lowering.SetStorageUses` | src/emit/lachain.rs:923-1004 | the calls set_storage records are the list Lower gives for it, at every width |
| `Lowering.CreateUses` | src/emit/lachain.rs:1218-1399 | the calls create_contract records, with the bail block without a flag, are the list Lower gives for it |
| `Lowering.ExternalCallUses` | src/emit/lachain.rs:1402-1538 | the calls external_call records, with the bail block without a flag, are the list Lower gives for it |
| `Lowering.ValueTransferUses` | src/emit/lachain.rs:1540-1646 | the calls value_transfer records, with the bail block without a flag, are the list Lower gives for it |
| `Entry.ChecksValue` | src/emit/lachain.rs:588 | the predicate handed to the dispatcher: a function checks for a value transfer iff the prelude does not abort and the function is nonpayable; its properties are `Entry.ValueRefusedOnce` |
| `Entry.ValueRefusedOnce` | src/emit/lachain.rs:588 | a nonpayable function refuses value either in the prelude or by its own check, never both; a payable one never checks |
| `Entry.PreludeCallsShape` | src/emit/lachain.rs:64-134 | the calls of a prelude that runs to the end: the value-transfer check exactly when enabled, before `__init_heap`; a `__malloc` of exactly the call size; `copy_call_value(0, size)` last; no halt |
| `Entry.AbortCalls` | src/emit/lachain.rs:74-77 | the calls of a prelude whose abort fires: the check, then set_return and system_halt, the halt last |
| `Entry.RuntimePrelude` | src/emit/lachain.rs:64-134 | when the abort is enabled and value is sent: halts with code 1 and no data, storage unchanged, no buffer. Otherwise: returns a fresh buffer holding the whole call data and its length, both recorded in `calldata_len`/`calldata_data`; storage unchanged; the host still running |
| `Entry.AbortIfValueTransfer` | src/emit/lachain.rs:74-77 | the value-transfer check; when value is sent, `assert_failure(null, 0)` halts with code 1 and no data, and otherwise nothing else changes |
| `Entry.HeapAndCallData` | src/emit/lachain.rs:79-125 | `__init_heap`, which makes the heap ready, then the copy of the call data |
| `Entry.CopyCallData` | src/emit/lachain.rs:82-127 | `get_call_size`, a store to `calldata_len`, a `__malloc` of that size, a store to `calldata_data`, `copy_call_value`; the buffer equals the call data |
| `Entry.FunctionDispatch` | src/emit/lachain.rs:565-590 | runs the prelude (halting when it aborts) and gives each function the predicate `!abort && nonpayable` |
| `Abi.EncoderInput` | src/emit/lachain.rs:1184-1191 | with a selector: the selector is the only packed value and `Uint(32)` is inserted at type index 0. Without one: nothing is packed and the types are unchanged |
| `Abi.Encode` | src/emit/lachain.rs:592-661 | one `__malloc` of the payload length plus the constant's length; the buffer is constant prefix ++ payload; the returned pointer is the buffer start |
| `Abi.AbiEncode` | src/emit/lachain.rs:1174-1194 | encode without a constant, of what the encoder makes of `EncoderInput` |
| `Storage.SetStorage` | src/emit/lachain.rs:923-1004 | an i256 is saved as it is. A narrower value is stored over a zeroed word (`__bzero8` × 4), which is then saved. The slot then holds the value's bytes followed by zeros |
| `Storage.ExtendedWord` | src/emit/lachain.rs:960-981 | for a value narrower than 256 bits: a fresh 32-byte word holding the value's bytes followed by zeros, after one `__bzero8(value, 4)` |
| `Storage.GetStorageInt` | src/emit/lachain.rs:1006-1051 | `load_storage` into a 32-byte buffer, then the low `w` bits of its first bytes, little-endian |
| `Storage.LoadedInt` | src/emit/lachain.rs:1043-1050 | the value loaded at width w is below 2^w |
| `Storage.StorageRoundTrip` | src/emit/lachain.rs:923-1051 | a width-w value zero-extended into a word reads back as itself at width w, and the whole word read as an i256 is the value too |
| `Storage.DeletedSlotReadsZero` | src/emit/lachain.rs:665-705 | an all-zero word reads as 0 at every width |
| `Storage.StoreOverZeros` | src/emit/lachain.rs:976-990 | storing a value's bytes over a zeroed word leaves it zero-extended |
| `Storage.StorageDeleteSingleSlot` | src/emit/lachain.rs:665-705 | the slot is set to 32 zero bytes, after `__bzero8(value, 4)` |
| `Storage.SetStorageString` | src/emit/lachain.rs:707-740 | the slot's string becomes the vector's data (its `len` bytes) |
| `Storage.GetStorageString` | src/emit/lachain.rs:742-862 | a fresh vector of header + stored length, with len = size = that length and the stored bytes as data |
| `Storage.StringVector` | src/emit/lachain.rs:742-826 | `get_storage_string_size`, then a `__malloc` of header + size with len and size set |
| `Storage.FillVector` | src/emit/lachain.rs:827-859 | `load_storage_string` writes the stored bytes after the header, which makes the buffer the vector of the stored string |
| `Storage.SetThenGetInt` | src/emit/lachain.rs:923-1051 | set_storage then get_storage_int at the same width returns the value |
| `Storage.DeleteThenGetInt` | src/emit/lachain.rs:665-1051 | storage_delete_single_slot then get_storage_int returns 0 at any width |
| `Storage.SetThenGetString` | src/emit/lachain.rs:707-862 | set_storage_string then get_storage_string gives len = size = \|b\| and data = b |
| `Host.VectorRoundTrip` | src/emit/lachain.rs:800-826 | the vector built for s has len = size = \|s\| and data s |
| `Host.NewVector` | src/emit/lachain.rs:762-826 | one `__malloc` of exactly header + n bytes with len and size set to n |
| `Host.VectorFilled` | src/emit/lachain.rs:827-859 | a header for \|s\| followed by s is the vector of s |
| `Host.Host.InitHeap` | src/emit/lachain.rs:76-80 | `__init_heap` readies the heap and changes nothing else |
| `Host.Host.Malloc` | src/emit/lachain.rs:98-110 | `__malloc(n)`: a fresh block of exactly n bytes |
| `Host.Host.Memcpy` | src/emit/lachain.rs:627-650 | `__memcpy` writes the source bytes at the offset |
| `Host.Host.Bzero8` | src/emit/lachain.rs:683-690 | `__bzero8(p, n)` zeroes the first 8n bytes |
| `Host.Host.ByteSwap` | src/emit/lachain.rs:1426-1451 | `__be32toleN`/`__beNtoleN` write the source bytes reversed |
| `Host.Host.ValueTransferAbort` | src/emit/lachain.rs:74-77 | the value-transfer check's place in the trace; it changes nothing else |
| `Host.Host.StoreCalldataLen` | src/emit/lachain.rs:96-99 | the store to `calldata_len` |
| `Host.Host.StoreCalldataData` | src/emit/lachain.rs:113-115 | the store to `calldata_data` |
| `Host.Host.GetCallSize` | src/emit/lachain.rs:187-191 | `get_call_size` is the call data's length |
| `Host.Host.CopyCallValue` | src/emit/lachain.rs:199-210 | `copy_call_value(from, to, dst)` writes that range of the call data |
| `Host.Host.GetReturnSize` | src/emit/lachain.rs:193-197 | `get_return_size` is the return data's length |
| `Host.Host.CopyReturnValue` | src/emit/lachain.rs:212-223 | `copy_return_value(resultOffset, dataOffset, length)` writes the `length` bytes of the return data from `dataOffset` on at `resultOffset` |
| `Host.Host.SaveStorage` | src/emit/lachain.rs:141-146 | `save_storage` binds the key to the 32-byte word |
| `Host.Host.LoadStorage` | src/emit/lachain.rs:148-149 | `load_storage` writes the word stored under the key, or 32 zero bytes |
| `Host.Host.SaveStorageString` | src/emit/lachain.rs:151-162 | `save_storage_string(key, data, len)` binds the key to those bytes |
| `Host.Host.GetStorageStringSize` | src/emit/lachain.rs:176-185 | the stored string's length, 0 when none |
| `Host.Host.LoadStorageString` | src/emit/lachain.rs:164-174 | writes the stored string at the destination |
| `Host.Host.Invoke` | src/emit/lachain.rs:225-268 | the invoke primitives return the host's status and replace the return data |
| `Host.Host.Transfer` | src/emit/lachain.rs:270-280 | `transfer(address, value)` returns the host's status |
| `Host.Host.Create` | src/emit/lachain.rs:438-465 | `create` has no salt argument and `create2` has one; both write the new address and return the status |
| `Host.Host.Getter` | src/emit/lachain.rs:282-436 | a context getter writes the host's value at its destination |
| `Host.Host.Crypto` | src/emit/lachain.rs:491-543 | the crypto primitives write the host's digest or recovered address at the destination |
| `Host.Host.WriteLog` | src/emit/lachain.rs:467-477 | `write_log(data, len)` is recorded |
| `Host.Host.SetReturn` | src/emit/lachain.rs:479-489 | `set_return(data, len)` records the return data |
| `Host.Host.SystemHalt` | src/emit/lachain.rs:545-562 | `system_halt(code)` halts the host with the code; after it no primitive can run |
| `Termination.HaltCalls` | src/emit/lachain.rs:1086-1160 | a termination makes two calls, and only the second is a halt |
| `Termination.HaltIsFinal` | src/emit/lachain.rs:1100-1110 | on a halted host the halt is the trace's last entry and no earlier entry is a halt |
| `Termination.Terminate` | src/emit/lachain.rs:1143-1160 | `set_return(data)`, then `system_halt(code)` |
| `Termination.ReturnEmptyAbi` | src/emit/lachain.rs:1086-1110 | halts with code 0 and no data |
| `Termination.ReturnAbi` | src/emit/lachain.rs:1112-1129 | halts with code 0 and data (ptr, len) |
| `Termination.AssertFailure` | src/emit/lachain.rs:1143-1160 | halts with code 1 and the given data, empty for a null pointer |
| `Termination.ReturnCode` | src/emit/lachain.rs:1131-1141 | ignores its argument; halts with code 1 and no data |
| `Calls.CallPrimitive` | src/emit/lachain.rs:1466-1470 | Regular, Static and Delegate select invoke_contract, invoke_static_contract and invoke_delegate_contract, all with the invoke signature |
| `Calls.CallPrimitiveInjective` | src/emit/lachain.rs:1466-1470 | different call kinds reach different primitives |
| `Calls.ValueBytesBigEndian` | src/emit/lachain.rs:1419-1451 | the value handed to the host is its staging reversed, i.e. its big-endian bytes |
| `Calls.StageValue` | src/emit/lachain.rs:1416-1451 | two 32-byte allocas of the value type, the value stored into the first, `__be32toleN` into the second |
| `Calls.StageInt` | src/emit/lachain.rs:1453-1459 | an alloca holding the value's little-endian bytes (gas as a u64) |
| `Calls.Branch` | src/emit/lachain.rs:1512-1537 | with a flag, or on success, the host is unchanged; otherwise `assert_failure(null, 0)` halts it with code 1 |
| `Calls.StagedInvoke` | src/emit/lachain.rs:1413-1510 | value conversion, then the invoke primitive of the call kind with address, payload, reversed value and 64-bit gas |
| `Calls.ExternalCall` | src/emit/lachain.rs:1402-1538 | success ⇔ status == 0; the flag case continues, otherwise failure halts with code 1 and empty data |
| `Calls.StagedTransfer` | src/emit/lachain.rs:1549-1606 | value conversion, then `transfer(address, reversed value)` |
| `Calls.ValueTransfer` | src/emit/lachain.rs:1540-1646 | success ⇔ status == 0, with the same flag/bail branching |
| `Calls.ReturnVector` | src/emit/lachain.rs:1648-1720 | `get_return_size`, then a vector of header + that size with len and size set |
| `Calls.ReturnData` | src/emit/lachain.rs:1648-1751 | a fresh vector holding the return data after `copy_return_value(data, 0, len)` |
| `Calls.CallThenReturnData` | src/emit/lachain.rs:1648-1751 | after any call that leaves the host running (a flagged call, or status 0), return_data gives len = size = \|result\| and the host's result as data |
| `Calls.CreateCall` | src/emit/lachain.rs:1262-1372 | input = code ++ encoded arguments; the value (0 when absent) is staged unreversed; a salt selects create2 with a salt pointer, no salt selects create without one |
| `Calls.CreateContractAsWritten` | src/emit/lachain.rs:1218-1399 | as written, the success test reads the constant-zero `ret`, so success is always true and the bail path is dead |
| `Calls.CreateContract` | src/emit/lachain.rs:1218-1399 | with the test on the host's status: success ⇔ status == 0, with the same flag/bail branching as calls |
| `Calls.CreateFailureIgnored` | src/emit/lachain.rs:1289-1374 | every nonzero create status counts as success under the success test as written and as failure under the intended one; the two create methods use these tests |
| `Builtins.HashPrimitive` | src/emit/lachain.rs:1810-1815 | Keccak256→32, Ripemd160→20, Sha256→32 bytes; the other hash kinds are unreachable |
| `Builtins.HashPrimitivesDeclared` | src/emit/lachain.rs:491-529 | each hash primitive is declared as (input, length, output) |
| `Builtins.HashPrimitiveInjective` | src/emit/lachain.rs:1810-1815 | the three hashes use three different primitives |
| `Builtins.Hash` | src/emit/lachain.rs:1800-1857 | the result is the byte-reversal of the host digest, i.e. the digest read big-endian |
| `Builtins.ReversedDigest` | src/emit/lachain.rs:1817-1855 | the digest buffer, then `__beNtoleN` into a temporary holding the reversed digest |
| `Builtins.DigestBuffer` | src/emit/lachain.rs:1817-1831 | an alloca of the digest length into which the primitive writes the digest |
| `Builtins.Keccak256Hash` | src/emit/lachain.rs:1053-1084 | `crypto_keccak256` writes the digest to dest's first 32 bytes, unreversed, and leaves the rest of dest |
| `Builtins.SingleValueGetter` | src/emit/lachain.rs:1911-1944 | the getter and width of each single-value builtin: 64-bit, 256-bit, address- and value-length |
| `Builtins.SingleValueGettersDeclared` | src/emit/lachain.rs:282-436 | each such getter is declared as taking one pointer |
| `Builtins.SingleValueGetterInjective` | src/emit/lachain.rs:1911-1944 | different builtins call different getters |
| `Builtins.SingleValue` | src/emit/lachain.rs:1890-1910 | an alloca of the width, the getter, then the loaded little-endian value, which fits the width |
| `Builtins.SelfAddress` | src/emit/lachain.rs:1945-1964 | `get_address` into an address-length buffer, loaded |
| `Builtins.BlockHashOf` | src/emit/lachain.rs:1965-2001 | the block number is staged as an i64; the 256-bit hash is loaded unreversed |
| `Builtins.BalanceOf` | src/emit/lachain.rs:2002-2041 | the address is staged, then the value-length balance is loaded, and fits the value length |
| `Builtins.Ecrecover` | src/emit/lachain.rs:2042-2127 | hash, r and s are staged unreversed, v is passed by value, and the recovered address is loaded unreversed |
| `Builtins.ValueTransferred` | src/emit/lachain.rs:1752-1776 | `get_msgvalue` into a 32-byte buffer, loaded; the value is below 2^256 |
| `Builtins.SendEvent` | src/emit/lachain.rs:1860-1877 | `write_log(data, len)`; the topics are not passed on |
| `Bytes.FromLeReverse` | src/emit/lachain.rs:1834-1857 | loading a reversed buffer little-endian reads it big-endian |
| `Bytes.ReverseInvolution` | src/emit/lachain.rs:1426-1451 | reversing twice gives the bytes back |
| `Bytes.FromLeToLe` | src/emit/lachain.rs:976-990 | storing a value little-endian and loading it gives the value |

## Findings

| source | as written | input that shows it | evidently intended | confidence | as-written member | corrected member |
|---|---|---|---|---|---|---|
| src/emit/lachain.rs:1289-1374 | the success test compares the outer `ret`, the constant 0; the `let ret` bindings holding the create/create2 status shadow it inside their blocks | host status 1 from `create` with no success flag: execution continues as if the contract was created | `is_success` compares the status returned by create/create2, and a nonzero status bails with `assert_failure(null, 0)` | high; not executed | `Calls.CreateContractAsWritten` | `Calls.CreateContract` |

## Left out

- LLVM/inkwell mechanics (types, pointer casts, GEPs, basic blocks, `internalize`) appear only through their effect on host state and on the order of calls.
- The generic ABI encoder and decoder (`EncoderBuilder`, `EthAbiDecoder`, `abi_decode`, `abi_encode_to_vector`): the encoder's output bytes are a parameter, and its encoded length is their length.
- `emit_function_dispatch` is not part of this model; only the payability predicate handed to the dispatcher is modelled.
- Entry.AbortIfValueTransfer: `abort_if_value_transfer` is not part of this model. How it reads the transferred value is abstract: whether value was sent is a parameter, and the check is one trace event. When it fires, the prelude halts as `assert_failure(null, 0)` does.
- Compilation of the created contract (`Binary::build`, `code(Generate::Linked)`): the wasm blob is an arbitrary byte sequence.
- Cryptography, context values, call statuses, created addresses and callee return data come from the host. They are parameters of the primitives that produce them, so the digests have no standard test vectors here.
- `print` and `selfdestruct` call names that are never declared. They are modelled only as compile-time failures (`Lowering.LowerFails`).
- The `unimplemented!()` storage shapes (external-function storage, bytes subscripts, push/pop) and the `_ => unimplemented!()` builtin arm are modelled only as compile-time failures.
- Gas, resource budgets, re-entrancy and on-chain rollback are outside the emitted code.
- Wasm memory addresses: each allocation is a separate array. The model does not capture pointer arithmetic or aliasing between buffers. A null pointer with length 0 stands for empty data.
- Storage.SetStorage: the value's width is 1..256 bits, given as the bytes of an `iN`; integer types wider than 256 bits do not reach this path.
- Calls.ExternalCall: the address is always present; the source unwraps it and would panic at compile time on `None`.
