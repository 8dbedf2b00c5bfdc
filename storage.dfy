/**
 * Fixed-word and string storage as the Lachain backend emits it
 * (set_storage, get_storage_int, storage_delete_single_slot,
 * set_storage_string, get_storage_string). A storage slot is addressed by the
 * 32 bytes of its i256 slot number. An iN value goes into the low bytes of a
 * word that is zero elsewhere; a string is stored as the data of a vector.
 */
module Storage {
  import opened Bytes
  import opened Registry
  import opened Host

  /** The value get_storage_int loads at width w: the word's first ByteWidth(w) bytes, read as an iw. */
  function LoadedInt(word: seq<Byte>, w: nat): (v: nat)
    requires 1 <= w <= 256 && |word| == 32
    ensures v < Pow2(w)
  {
    FromLe(word[..ByteWidth(w)]) % Pow2(w)
  }

  /** The events set_storage emits: for a narrow value, the zeroing of its scratch word first. */
  function SetStorageCalls(w: nat, key: seq<Byte>, word: seq<Byte>): seq<Event>
  {
    (if w == 256 then [] else [Call(Symbol.Bzero8, [Word(4)])]) + [Call(Symbol.SaveStorage, [Mem(key), Mem(word)])]
  }

  /**
   * A width-w value saved by set_storage is what get_storage_int at width w
   * reads back, and the whole slot, read as an i256, is the value too.
   */
  lemma {:induction false} StorageRoundTrip(v: nat, w: nat)
    requires 1 <= w <= 256 && v < Pow2(w)
    ensures LoadedInt(ZeroExtend(ToLe(v, ByteWidth(w))), w) == v
    ensures FromLe(ZeroExtend(ToLe(v, ByteWidth(w)))) == v
  {
    var nb := ByteWidth(w);
    var word := ZeroExtend(ToLe(v, nb));
    FromLeZeroExtend(ToLe(v, nb), 32 - nb);
    assert word[..nb] == ToLe(v, nb);
    Pow2WithinBytes(w);
    FromLeToLe(v, nb);
    assert FromLe(word[..nb]) == v;
    SmallMod(v, Pow2(w));
  }

  lemma SmallMod(v: nat, m: nat)
    requires v < m
    ensures v % m == v
  {
  }

  /** A deleted slot holds 32 zero bytes, which read as 0 at every width. */
  lemma DeletedSlotReadsZero(w: nat)
    requires 1 <= w <= 256
    ensures LoadedInt(Zeros(32), w) == 0
  {
    assert Zeros(32)[..ByteWidth(w)] == Zeros(ByteWidth(w));
    FromLeZeros(ByteWidth(w));
  }

  /**
   * set_storage(slot, dest) for an iw at dest: a 256-bit value is saved as it
   * is; a narrower one is loaded, stored over a zeroed 32-byte scratch word
   * and that word is saved.
   */
  method SetStorage(h: Host, slot: array<Byte>, dest: array<Byte>, w: nat)
    requires h.Valid() && h.status == Running && slot.Length == 32
    requires 1 <= w <= 256 && dest.Length == ByteWidth(w) && FromLe(dest[..]) < Pow2(w)
    modifies h
    ensures h.Valid()
    ensures h.words == old(h.words)[slot[..] := ZeroExtend(dest[..])]
    ensures h.trace == old(h.trace) + SetStorageCalls(w, slot[..], ZeroExtend(dest[..]))
    ensures h.State() == old(h.State()).(words := h.words, trace := h.trace)
  {
    ghost var key, word := slot[..], ZeroExtend(dest[..]);
    if w == 256 {
      assert word == dest[..];
      h.SaveStorage(slot, dest);
      assert SetStorageCalls(w, key, word) == [Call(Symbol.SaveStorage, [Mem(key), Mem(word)])];
    } else {
      var value := ExtendedWord(h, dest, w);
      h.SaveStorage(slot, value);
      assert SetStorageCalls(w, key, word) == [Call(Symbol.Bzero8, [Word(4)]), Call(Symbol.SaveStorage, [Mem(key), Mem(word)])];
    }
  }

  /** The word set_storage saves for a value narrower than 256 bits: a zeroed 32-byte alloca with the value stored at its start. */
  method ExtendedWord(h: Host, dest: array<Byte>, w: nat) returns (value: array<Byte>)
    requires h.Valid() && h.status == Running
    requires 1 <= w < 256 && dest.Length == ByteWidth(w) && FromLe(dest[..]) < Pow2(w)
    modifies h
    ensures fresh(value) && value.Length == 32 && value[..] == ZeroExtend(dest[..])
    ensures h.Valid() && h.State() == old(h.State()).(trace := old(h.trace) + [Call(Symbol.Bzero8, [Word(4)])])
  {
    value := Alloca(32);
    h.Bzero8(value, 4);
    var v := FromLe(dest[..]);
    assert value[..] == Zeros(32);
    Store(value, 0, ToLe(v, ByteWidth(w)));
    ToLeFromLe(dest[..]);
    StoreOverZeros(dest[..]);
  }

  /** Storing the bytes of a value over a zeroed word leaves the value zero-extended. */
  lemma StoreOverZeros(b: seq<Byte>)
    requires |b| <= 32
    ensures Splice(Zeros(32), 0, b) == ZeroExtend(b)
  {
    assert Splice(Zeros(32), 0, b) == b + Zeros(32)[|b|..];
    assert Zeros(32)[|b|..] == Zeros(32 - |b|);
  }

  /** get_storage_int(slot, iw): load_storage into a 32-byte buffer, then load an iw from its start. */
  method GetStorageInt(h: Host, slot: array<Byte>, w: nat) returns (r: nat)
    requires h.Valid() && h.status == Running && slot.Length == 32 && 1 <= w <= 256
    modifies h
    ensures r == LoadedInt(old(h.WordAt(slot[..])), w)
    ensures h.Valid() && h.State() == old(h.State()).(trace := old(h.trace) + [Call(Symbol.LoadStorage, [Mem(slot[..])])])
  {
    var dest := Alloca(32);
    h.LoadStorage(slot, dest);
    r := FromLe(dest[..ByteWidth(w)]) % Pow2(w);
  }

  /** storage_delete_single_slot: zero a 32-byte scratch word with __bzero8(value, 4) and save it. */
  method StorageDeleteSingleSlot(h: Host, slot: array<Byte>)
    requires h.Valid() && h.status == Running && slot.Length == 32
    modifies h
    ensures h.Valid()
    ensures h.words == old(h.words)[slot[..] := Zeros(32)]
    ensures h.trace == old(h.trace) + [Call(Symbol.Bzero8, [Word(4)]), Call(Symbol.SaveStorage, [Mem(slot[..]), Mem(Zeros(32))])]
    ensures h.State() == old(h.State()).(words := h.words, trace := h.trace)
  {
    var value := Alloca(32);
    h.Bzero8(value, 4);
    assert value[..] == Zeros(32);
    h.SaveStorage(slot, value);
  }

  /** set_storage_string(slot, v): save_storage_string of the vector's data and len. */
  method SetStorageString(h: Host, slot: array<Byte>, v: array<Byte>)
    requires h.Valid() && h.status == Running && slot.Length == 32
    requires IsVector(v[..]) && v.Length < MemoryLimit
    modifies h
    ensures h.Valid()
    ensures h.strings == old(h.strings)[slot[..] := VectorData(v[..])]
    ensures h.trace == old(h.trace) + [Call(Symbol.SaveStorageString, [Mem(slot[..]), Mem(VectorData(v[..]))])]
    ensures h.State() == old(h.State()).(strings := h.strings, trace := h.trace)
  {
    var len := VectorLen(v[..]);
    assert v[8..8 + len] == VectorData(v[..]);
    h.SaveStorageString(slot, v, 8, len);
  }

  /**
   * get_storage_string(slot): ask for the stored length, allocate exactly a
   * vector header plus that many bytes, fill in len and size, and let
   * load_storage_string write the data after the header.
   */
  method GetStorageString(h: Host, slot: array<Byte>) returns (v: array<Byte>)
    requires h.Valid() && h.status == Running && h.heapReady && slot.Length == 32
    modifies h
    ensures fresh(v) && v[..] == VectorOf(old(h.StringAt(slot[..])))
    ensures h.Valid()
    ensures h.State() == old(h.State()).(trace := old(h.trace) + [
              Call(Symbol.GetStorageStringSize, [Mem(slot[..])]),
              Call(Symbol.Malloc, [Word(8 + |old(h.StringAt(slot[..]))|)]),
              Call(Symbol.LoadStorageString, [Mem(slot[..])])])
  {
    var n;
    v, n := StringVector(h, slot);
    FillVector(h, slot, v);
  }

  /** The second half of get_storage_string: load_storage_string into the vector past its 8-byte header. */
  method FillVector(h: Host, slot: array<Byte>, v: array<Byte>)
    requires h.Valid() && h.status == Running && slot.Length == 32 && slot != v
    requires v.Length == 8 + |h.StringAt(slot[..])| && v[..8] == ToLe(|h.StringAt(slot[..])|, 4) + ToLe(|h.StringAt(slot[..])|, 4)
    modifies h, v
    ensures v[..] == VectorOf(old(h.StringAt(slot[..])))
    ensures h.Valid() && h.State() == old(h.State()).(trace := old(h.trace) + [Call(Symbol.LoadStorageString, [Mem(slot[..])])])
  {
    ghost var s := h.StringAt(slot[..]);
    ghost var header := v[..8];
    h.LoadStorageString(slot, v, 8);
    assert v[..8] == header && v[8..] == s;
    VectorFilled(v[..], s);
  }

  /** The first half of get_storage_string: get_storage_string_size, then a vector of that length with its header filled in. */
  method StringVector(h: Host, slot: array<Byte>) returns (v: array<Byte>, n: nat)
    requires h.Valid() && h.status == Running && h.heapReady && slot.Length == 32
    modifies h
    ensures h.Valid() && n == |h.StringAt(slot[..])| && fresh(v) && v.Length == 8 + n && v[..8] == ToLe(n, 4) + ToLe(n, 4)
    ensures h.State() == old(h.State()).(trace := old(h.trace) + [
              Call(Symbol.GetStorageStringSize, [Mem(slot[..])]), Call(Symbol.Malloc, [Word(8 + n)])])
  {
    n := h.GetStorageStringSize(slot);
    v := NewVector(h, n);
  }

  /** A value saved with set_storage reads back with get_storage_int at the same width. */
  method SetThenGetInt(h: Host, slot: array<Byte>, dest: array<Byte>, w: nat) returns (r: nat)
    requires h.Valid() && h.status == Running && slot.Length == 32
    requires 1 <= w <= 256 && dest.Length == ByteWidth(w) && FromLe(dest[..]) < Pow2(w)
    modifies h
    ensures r == FromLe(dest[..])
    ensures h.Valid() && h.words == old(h.words)[slot[..] := ZeroExtend(dest[..])]
  {
    SetStorage(h, slot, dest, w);
    r := GetStorageInt(h, slot, w);
    ToLeFromLe(dest[..]);
    StorageRoundTrip(FromLe(dest[..]), w);
  }

  /** After storage_delete_single_slot, get_storage_int reads 0 at any width. */
  method DeleteThenGetInt(h: Host, slot: array<Byte>, w: nat) returns (r: nat)
    requires h.Valid() && h.status == Running && slot.Length == 32 && 1 <= w <= 256
    modifies h
    ensures r == 0
    ensures h.Valid() && h.words == old(h.words)[slot[..] := Zeros(32)]
  {
    StorageDeleteSingleSlot(h, slot);
    r := GetStorageInt(h, slot, w);
    DeletedSlotReadsZero(w);
  }

  /** A string saved with set_storage_string comes back from get_storage_string with len = size = its length. */
  method SetThenGetString(h: Host, slot: array<Byte>, v: array<Byte>) returns (r: array<Byte>)
    requires h.Valid() && h.status == Running && h.heapReady && slot.Length == 32
    requires IsVector(v[..]) && v.Length < MemoryLimit
    modifies h
    ensures fresh(r) && IsVector(r[..]) && VectorData(r[..]) == VectorData(v[..])
    ensures VectorLen(r[..]) == FromLe(r[4..8]) == |VectorData(v[..])|
    ensures h.Valid() && h.strings == old(h.strings)[slot[..] := VectorData(v[..])]
  {
    SetStorageString(h, slot, v);
    r := GetStorageString(h, slot);
    VectorRoundTrip(VectorData(v[..]));
    assert r[4..8] == r[..][4..8];
  }
}
