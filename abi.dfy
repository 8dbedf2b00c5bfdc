/**
 * The encode adapter and abi_encode. The ABI encoder itself is opaque: it is
 * a function from its input to the encoded bytes, and its encoded_length is
 * the length of that output.
 */
module Abi {
  import opened Bytes
  import opened Registry
  import opened Host

  /** The solidity types the encoder is given; only uint32 matters to this backend. */
  datatype AbiType = Uint(bits: nat) | OtherType(name: string)

  /** What the encoder encodes: packed values, then the arguments, with one type per value. */
  datatype AbiInput = AbiInput(packed: seq<nat>, args: seq<int>, tys: seq<AbiType>)

  function Prefix(constant: Option<seq<Byte>>): seq<Byte>
  {
    if constant.Some? then constant.value else []
  }

  /**
   * The encoder input abi_encode builds: with a selector it is the only packed
   * value and a uint32 type goes in front of the argument types; without one
   * nothing is packed.
   */
  function EncoderInput(selector: Option<nat>, args: seq<int>, tys: seq<AbiType>): (input: AbiInput)
    ensures input.args == args && |input.packed| == (if selector.Some? then 1 else 0)
    ensures |input.tys| == |input.packed| + |tys| && input.tys[|input.packed|..] == tys
    ensures forall i :: 0 <= i < |input.packed| ==> input.tys[i] == Uint(32) && input.packed[i] == selector.value
  {
    if selector.Some? then AbiInput([selector.value], args, [Uint(32)] + tys) else AbiInput([], args, tys)
  }

  /**
   * encode: one __malloc of the encoded length plus the constant's length;
   * the constant, when there is one, is copied to the start with __memcpy and
   * the encoding is written right after it. Returns the start of the buffer
   * and the total length.
   */
  method Encode(h: Host, constant: Option<seq<Byte>>, encoded: seq<Byte>) returns (p: array<Byte>, len: nat)
    requires h.Valid() && h.status == Running && h.heapReady
    requires |Prefix(constant)| + |encoded| < MemoryLimit
    modifies h
    ensures fresh(p) && len == p.Length == |Prefix(constant)| + |encoded|
    ensures p[..] == Prefix(constant) + encoded
    ensures h.Valid() && h.State() == old(h.State()).(trace := old(h.trace) + [Call(Symbol.Malloc, [Word(len)])]
              + (if constant.Some? then [Call(Symbol.Memcpy, [Mem(constant.value)])] else []))
  {
    var length := |encoded|;
    if constant.Some? {
      length := length + |constant.value|;
    }
    p := h.Malloc(length);
    var off := 0;
    if constant.Some? {
      h.Memcpy(p, 0, constant.value);
      off := |constant.value|;
    }
    Store(p, off, encoded);
    len := length;
  }

  /** abi_encode: encode, without a constant, what the encoder makes of EncoderInput. */
  method AbiEncode(h: Host, selector: Option<nat>, args: seq<int>, tys: seq<AbiType>, encoder: AbiInput -> seq<Byte>)
    returns (p: array<Byte>, len: nat)
    requires h.Valid() && h.status == Running && h.heapReady
    requires |encoder(EncoderInput(selector, args, tys))| < MemoryLimit
    modifies h
    ensures fresh(p) && p[..] == encoder(EncoderInput(selector, args, tys)) && len == p.Length
    ensures h.Valid() && h.State() == old(h.State()).(trace := old(h.trace) + [Call(Symbol.Malloc, [Word(len)])])
  {
    p, len := Encode(h, None, encoder(EncoderInput(selector, args, tys)));
  }
}
