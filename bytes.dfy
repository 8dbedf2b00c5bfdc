/**
 * Bytes as they sit in the 32-bit little-endian linear memory of the wasm
 * target: little-endian and big-endian integer encodings, zero runs and the
 * byte reversal that the library helpers __be32toleN and __beNtoleN perform.
 */
module Bytes {

  type Byte = x: int | 0 <= x < 256

  /** Size of the wasm32 linear memory: every buffer is shorter than this. */
  const MemoryLimit: nat := 0x1_0000_0000

  function Zeros(n: nat): (z: seq<Byte>)
    ensures |z| == n
    ensures forall i :: 0 <= i < n ==> z[i] == 0
  {
    seq(n, _ => 0)
  }

  function Pow256(n: nat): (p: nat)
    ensures p >= 1
  {
    if n == 0 then 1 else 256 * Pow256(n - 1)
  }

  function Pow2(n: nat): (p: nat)
    ensures p >= 1
  {
    if n == 0 then 1 else 2 * Pow2(n - 1)
  }

  /** Number of bytes an LLVM iN occupies in memory. */
  function ByteWidth(bits: nat): nat
  {
    (bits + 7) / 8
  }

  /** The n bytes of v, least significant first (how wasm stores an integer). */
  function ToLe(v: nat, n: nat): (s: seq<Byte>)
    ensures |s| == n
  {
    if n == 0 then [] else [v % 256] + ToLe(v / 256, n - 1)
  }

  /** The integer whose little-endian bytes are s (how wasm loads an integer). */
  function FromLe(s: seq<Byte>): nat
  {
    if s == [] then 0 else s[0] + 256 * FromLe(s[1..])
  }

  /** The integer whose big-endian bytes are s. */
  function FromBe(s: seq<Byte>): nat
  {
    if s == [] then 0 else 256 * FromBe(s[..|s| - 1]) + s[|s| - 1]
  }

  function Reverse(s: seq<Byte>): (r: seq<Byte>)
    ensures |r| == |s|
  {
    if s == [] then [] else [s[|s| - 1]] + Reverse(s[..|s| - 1])
  }

  lemma {:induction false} ReverseAt(s: seq<Byte>, k: nat)
    requires k < |s|
    ensures Reverse(s)[k] == s[|s| - 1 - k]
  {
    if k > 0 {
      ReverseAt(s[..|s| - 1], k - 1);
    }
  }

  lemma ReverseInvolution(s: seq<Byte>)
    ensures Reverse(Reverse(s)) == s
  {
    forall k | 0 <= k < |s|
      ensures Reverse(Reverse(s))[k] == s[k]
    {
      ReverseAt(Reverse(s), k);
      ReverseAt(s, |s| - 1 - k);
    }
  }

  lemma {:induction false} FromLeBound(s: seq<Byte>)
    ensures FromLe(s) < Pow256(|s|)
  {
    if s != [] {
      FromLeBound(s[1..]);
    }
  }

  lemma {:induction false} FromLeToLe(v: nat, n: nat)
    requires v < Pow256(n)
    ensures FromLe(ToLe(v, n)) == v
  {
    if n > 0 {
      assert v / 256 < Pow256(n - 1);
      FromLeToLe(v / 256, n - 1);
      assert ToLe(v, n)[1..] == ToLe(v / 256, n - 1);
    }
  }

  lemma {:induction false} ToLeFromLe(s: seq<Byte>)
    ensures ToLe(FromLe(s), |s|) == s
  {
    if s != [] {
      ToLeFromLe(s[1..]);
      var v := FromLe(s);
      assert v % 256 == s[0] && v / 256 == FromLe(s[1..]);
    }
  }

  lemma {:induction false} FromLeZeros(n: nat)
    ensures FromLe(Zeros(n)) == 0
  {
    if n > 0 {
      assert Zeros(n)[1..] == Zeros(n - 1);
      FromLeZeros(n - 1);
    }
  }

  /** Zero bytes appended at the high end do not change a little-endian value. */
  lemma {:induction false} FromLeZeroExtend(s: seq<Byte>, k: nat)
    ensures FromLe(s + Zeros(k)) == FromLe(s)
  {
    if s == [] {
      assert s + Zeros(k) == Zeros(k);
      FromLeZeros(k);
    } else {
      assert (s + Zeros(k))[1..] == s[1..] + Zeros(k);
      FromLeZeroExtend(s[1..], k);
    }
  }

  /** Loading a byte-reversed buffer little-endian reads it big-endian. */
  lemma {:induction false} FromLeReverse(s: seq<Byte>)
    ensures FromLe(Reverse(s)) == FromBe(s)
  {
    if s != [] {
      assert Reverse(s)[1..] == Reverse(s[..|s| - 1]);
      FromLeReverse(s[..|s| - 1]);
    }
  }

  lemma {:induction false} Pow256IsPow2(n: nat)
    ensures Pow256(n) == Pow2(8 * n)
  {
    if n > 0 {
      Pow256IsPow2(n - 1);
      Pow2Add8(8 * (n - 1));
    }
  }

  lemma Pow2Add8(a: nat)
    ensures Pow2(a + 8) == 256 * Pow2(a)
  {
    assert Pow2(a + 8) == 2 * Pow2(a + 7) == 4 * Pow2(a + 6) == 8 * Pow2(a + 5)
      == 16 * Pow2(a + 4) == 32 * Pow2(a + 3) == 64 * Pow2(a + 2) == 128 * Pow2(a + 1);
  }

  lemma {:induction false} Pow2Monotone(a: nat, b: nat)
    requires a <= b
    ensures Pow2(a) <= Pow2(b)
  {
    if a < b {
      Pow2Monotone(a, b - 1);
    }
  }

  /** An iN value fits in the ByteWidth(N) bytes it occupies. */
  lemma Pow2WithinBytes(bits: nat)
    ensures Pow2(bits) <= Pow256(ByteWidth(bits))
  {
    Pow256IsPow2(ByteWidth(bits));
    Pow2Monotone(bits, 8 * ByteWidth(bits));
  }
}
