/**
 * Hashing and the builtin expressions: which primitive each one calls, how
 * wide its result is, and in which byte order the result is read.
 */
module Builtins {
  import opened Bytes
  import opened Registry
  import opened Host

  datatype HashTy = Keccak256 | Ripemd160 | Sha256 | Blake2_128 | Blake2_256

  /** The primitive and digest length `hash` uses; the Blake2 hashes have none (unreachable!). */
  function HashPrimitive(ty: HashTy): (r: Option<(Symbol, nat)>)
    ensures r.None? <==> ty == Blake2_128 || ty == Blake2_256
    ensures r.Some? ==> 0 < r.value.1 <= 32
  {
    match ty
    case Keccak256 => Some((CryptoKeccak256, 32))
    case Ripemd160 => Some((CryptoRipemd160, 20))
    case Sha256 => Some((CryptoSha256, 32))
    case _ => None
  }

  /** Every hash primitive is declared with the (input, length, output) signature. */
  lemma HashPrimitivesDeclared(ty: HashTy)
    requires HashPrimitive(ty).Some?
    ensures HostSignature(HashPrimitive(ty).value.0) == Some(HashSig)
  {
    match ty
    case Keccak256 =>
    case Ripemd160 =>
    case Sha256 =>
  }

  /** The three supported hashes call three different primitives. */
  lemma HashPrimitiveInjective(a: HashTy, b: HashTy)
    requires HashPrimitive(a).Some? && HashPrimitive(b).Some?
    ensures HashPrimitive(a).value.0 == HashPrimitive(b).value.0 ==> a == b
  {
  }

  /**
   * hash: the primitive writes its digest into a buffer of the digest's
   * length, __beNtoleN reverses it into a bytesN value, and that value is
   * loaded. The result is the digest read big-endian.
   */
  method Hash(h: Host, ty: HashTy, input: array<Byte>, len: nat, digest: seq<Byte>) returns (r: nat)
    requires HashPrimitive(ty).Some? && |digest| == HashPrimitive(ty).value.1
    requires h.Valid() && h.status == Running && len <= input.Length
    modifies h
    ensures r == FromLe(Reverse(digest)) == FromBe(digest)
    ensures h.Valid() && h.State() == old(h.State()).(trace := old(h.trace) + [
              Call(HashPrimitive(ty).value.0, [Mem(input[..len]), Word(len)]),
              Call(BeNToLeN, [Word(|digest|)])])
  {
    var temp := ReversedDigest(h, HashPrimitive(ty).value.0, input[..len], digest);
    r := FromLe(temp[..]);
    FromLeReverse(digest);
  }

  /** The digest buffer of hash and its byte-reversed copy. */
  method ReversedDigest(h: Host, primitive: Symbol, input: seq<Byte>, digest: seq<Byte>) returns (temp: array<Byte>)
    requires primitive == CryptoKeccak256 || primitive == CryptoRipemd160 || primitive == CryptoSha256
    requires h.Valid() && h.status == Running
    modifies h
    ensures temp[..] == Reverse(digest)
    ensures h.Valid() && h.State() == old(h.State()).(trace := old(h.trace) + [
              Call(primitive, [Mem(input), Word(|input|)]),
              Call(BeNToLeN, [Word(|digest|)])])
  {
    var res := DigestBuffer(h, primitive, [Mem(input), Word(|input|)], digest);
    temp := Alloca(|digest|);
    h.ByteSwap(BeNToLeN, res, temp, |digest|);
  }

  /** A fresh buffer of the digest's length, into which the crypto primitive writes the digest. */
  method DigestBuffer(h: Host, primitive: Symbol, args: seq<Arg>, digest: seq<Byte>) returns (res: array<Byte>)
    requires primitive == CryptoKeccak256 || primitive == CryptoRipemd160 || primitive == CryptoSha256 || primitive == CryptoRecover
    requires h.Valid() && h.status == Running
    modifies h
    ensures fresh(res) && res[..] == digest
    ensures h.Valid() && h.State() == old(h.State()).(trace := old(h.trace) + [Call(primitive, args)])
  {
    res := Alloca(|digest|);
    h.Crypto(primitive, args, res, digest);
  }

  /** keccak256_hash: crypto_keccak256 writes the digest to dest, unreversed. */
  method Keccak256Hash(h: Host, src: array<Byte>, length: nat, dest: array<Byte>, digest: seq<Byte>)
    requires h.Valid() && h.status == Running && length <= src.Length && |digest| == 32 <= dest.Length
    modifies h, dest
    ensures dest[..32] == digest && dest[32..] == old(dest[32..])
    ensures h.Valid() && h.State() == old(h.State()).(trace := old(h.trace) + [
              Call(CryptoKeccak256, [Mem(old(src[..length])), Word(length)])])
  {
    h.Crypto(CryptoKeccak256, [Mem(src[..length]), Word(length)], dest, digest);
  }

  /** The builtin expressions the Lachain backend handles, and one for all the others. */
  datatype Builtin =
    | BlockNumber | GasLimit | Timestamp | ChainId | BlockDifficulty | BlockCoinbase | Gasleft
    | Sender | Value | Origin | Gasprice | GetAddress | BlockHash | Balance | Ecrecover
    | OtherBuiltin(name: string)

  /**
   * The single-value builtins: the getter each calls and the bit width of the
   * integer it loads. Addresses are addressLength bytes wide, values
   * valueLength bytes.
   */
  function SingleValueGetter(b: Builtin, addressLength: nat, valueLength: nat): (r: Option<(Symbol, nat)>)
    ensures r.None? <==> b.OtherBuiltin? || b == Builtin.GetAddress || b == Builtin.BlockHash || b == Builtin.Balance || b == Builtin.Ecrecover
    ensures r.Some? ==> r.value.1 % 8 == 0 && (addressLength > 0 && valueLength > 0 ==> r.value.1 > 0)
  {
    match b
    case BlockNumber => Some((GetBlockNumber, 64))
    case GasLimit => Some((GetBlockGasLimit, 64))
    case Timestamp => Some((GetBlockTimestamp, 64))
    case ChainId => Some((GetChainId, 64))
    case BlockDifficulty => Some((GetBlockDifficulty, 256))
    case BlockCoinbase => Some((GetBlockCoinbaseAddress, addressLength * 8))
    case Gasleft => Some((GetGasLeft, 64))
    case Sender => Some((GetSender, addressLength * 8))
    case Value => Some((GetMsgvalue, valueLength * 8))
    case Origin => Some((GetTxOrigin, addressLength * 8))
    case Gasprice => Some((GetTxGasPrice, valueLength * 8))
    case _ => None
  }

  /** Every single-value getter is a declared primitive that takes one pointer and returns nothing. */
  lemma SingleValueGettersDeclared(b: Builtin, addressLength: nat, valueLength: nat)
    requires SingleValueGetter(b, addressLength, valueLength).Some?
    ensures HostSignature(SingleValueGetter(b, addressLength, valueLength).value.0) == Some(VoidPtr)
  {
    match b
    case BlockNumber =>
    case GasLimit =>
    case Timestamp =>
    case ChainId =>
    case BlockDifficulty =>
    case BlockCoinbase =>
    case Gasleft =>
    case Sender =>
    case Value =>
    case Origin =>
    case Gasprice =>
  }

  /** Different single-value builtins call different getters. */
  lemma SingleValueGetterInjective(a: Builtin, b: Builtin, addressLength: nat, valueLength: nat)
    requires SingleValueGetter(a, addressLength, valueLength).Some? && SingleValueGetter(b, addressLength, valueLength).Some?
    ensures SingleValueGetter(a, addressLength, valueLength).value.0 == SingleValueGetter(b, addressLength, valueLength).value.0 ==> a == b
  {
  }

  /**
   * single_value_stack: an alloca of the result's width, the getter writes
   * the host's value there, and the integer is loaded from it.
   */
  method SingleValue(h: Host, b: Builtin, addressLength: nat, valueLength: nat, result: seq<Byte>) returns (r: nat)
    requires SingleValueGetter(b, addressLength, valueLength).Some?
    requires |result| == SingleValueGetter(b, addressLength, valueLength).value.1 / 8
    requires h.Valid() && h.status == Running
    modifies h
    ensures r == FromLe(result) && r < Pow256(|result|)
    ensures h.Valid() && h.State() == old(h.State()).(trace := old(h.trace) + [
              Call(SingleValueGetter(b, addressLength, valueLength).value.0, [])])
  {
    var (getter, width) := SingleValueGetter(b, addressLength, valueLength).value;
    var value := Alloca(width / 8);
    h.Getter(getter, [], value, result);
    r := FromLe(value[..]);
    FromLeBound(result);
  }

  /** address(this): get_address writes the contract's addressLength-byte address. */
  method SelfAddress(h: Host, addressLength: nat, result: seq<Byte>) returns (r: nat)
    requires h.Valid() && h.status == Running && |result| == addressLength
    modifies h
    ensures r == FromLe(result)
    ensures h.Valid() && h.State() == old(h.State()).(trace := old(h.trace) + [Call(Registry.GetAddress, [])])
  {
    var value := Alloca(addressLength);
    h.Getter(Registry.GetAddress, [], value, result);
    r := FromLe(value[..]);
  }

  /** blockhash(n): the block number is staged as an i64, the 256-bit hash is loaded unreversed. */
  method BlockHashOf(h: Host, number: nat, result: seq<Byte>) returns (r: nat)
    requires h.Valid() && h.status == Running && |result| == 32
    modifies h
    ensures r == FromLe(result)
    ensures h.Valid() && h.State() == old(h.State()).(trace := old(h.trace) + [Call(GetBlockHash, [Mem(ToLe(number, 8))])])
  {
    var numberPtr := Alloca(8);
    Store(numberPtr, 0, ToLe(number, 8));
    var value := Alloca(32);
    h.Getter(GetBlockHash, [Mem(numberPtr[..])], value, result);
    r := FromLe(value[..]);
  }

  /** addr.balance: the address is staged little-endian, the balance is a valueLength-byte integer. */
  method BalanceOf(h: Host, addr: nat, addressLength: nat, valueLength: nat, result: seq<Byte>) returns (r: nat)
    requires h.Valid() && h.status == Running && |result| == valueLength
    modifies h
    ensures r == FromLe(result) && r < Pow256(valueLength)
    ensures h.Valid() && h.State() == old(h.State()).(trace := old(h.trace) + [
              Call(GetExternalBalance, [Mem(ToLe(addr, addressLength))])])
  {
    var address := Alloca(addressLength);
    Store(address, 0, ToLe(addr, addressLength));
    var balance := Alloca(valueLength);
    h.Getter(GetExternalBalance, [Mem(address[..])], balance, result);
    r := FromLe(balance[..]);
    FromLeBound(result);
  }

  /**
   * ecrecover(hash, v, r, s): hash, r and s are staged as valueLength-byte
   * integers, little-endian and not reversed, v is passed as an i8, and the
   * recovered address is loaded as it was written, again not reversed.
   */
  method Ecrecover(h: Host, hash: nat, v: nat, r: nat, s: nat, addressLength: nat, valueLength: nat,
                   recovered: seq<Byte>) returns (a: nat)
    requires h.Valid() && h.status == Running && |recovered| == addressLength
    modifies h
    ensures a == FromLe(recovered)
    ensures h.Valid() && h.State() == old(h.State()).(trace := old(h.trace) + [
              Call(CryptoRecover, [Mem(ToLe(hash, valueLength)), Word(v), Mem(ToLe(r, valueLength)), Mem(ToLe(s, valueLength))])])
  {
    var hashPtr := Alloca(valueLength);
    Store(hashPtr, 0, ToLe(hash, valueLength));
    var rPtr := Alloca(valueLength);
    Store(rPtr, 0, ToLe(r, valueLength));
    var sPtr := Alloca(valueLength);
    Store(sPtr, 0, ToLe(s, valueLength));
    var result := Alloca(addressLength);
    h.Crypto(CryptoRecover, [Mem(hashPtr[..]), Word(v), Mem(rPtr[..]), Mem(sPtr[..])], result, recovered);
    a := FromLe(result[..]);
  }

  /** value_transferred: get_msgvalue writes the value, always 256 bits on Lachain, which is loaded. */
  method ValueTransferred(h: Host, result: seq<Byte>) returns (r: nat)
    requires h.Valid() && h.status == Running && |result| == ValueLength
    modifies h
    ensures r == FromLe(result) && r < Pow256(ValueLength)
    ensures h.Valid() && h.State() == old(h.State()).(trace := old(h.trace) + [Call(GetMsgvalue, [])])
  {
    var value := Alloca(ValueLength);
    h.Getter(GetMsgvalue, [], value, result);
    r := FromLe(value[..]);
    FromLeBound(result);
  }

  /** send_event: write_log of the event data; the topics are not passed on. */
  method SendEvent(h: Host, data: array<Byte>, len: nat, topics: seq<seq<Byte>>)
    requires h.Valid() && h.status == Running && len <= data.Length
    modifies h
    ensures h.Valid() && h.State() == old(h.State()).(trace := old(h.trace) + [Call(Symbol.WriteLog, [Mem(data[..len]), Word(len)])])
  {
    h.WriteLog(data[..len]);
  }
}
