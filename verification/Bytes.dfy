/** Bytes and the little-endian layout that `memcpy` of a scalar produces. */
module Bytes {

  type byte = x: int | 0 <= x < 256

  const TWO32: nat := 0x1_0000_0000
  const TWO64: nat := 0x1_0000_0000_0000_0000

  type uint64 = x: int | 0 <= x < 0x1_0000_0000_0000_0000
  type int32 = x: int | -0x8000_0000 <= x < 0x8000_0000

  function Pow2(n: nat): (r: nat)
    ensures r >= 1
  {
    if n == 0 then 1 else 2 * Pow2(n - 1)
  }

  function Pow256(n: nat): (r: nat)
    ensures r >= 1
  {
    if n == 0 then 1 else 256 * Pow256(n - 1)
  }

  /** The `n` low-order bytes of `v`, least significant first. */
  function LittleEndian(v: nat, n: nat): (s: seq<byte>)
    ensures |s| == n
  {
    if n == 0 then [] else [v % 256] + LittleEndian(v / 256, n - 1)
  }

  function FromLittleEndian(s: seq<byte>): nat {
    if s == [] then 0 else s[0] + 256 * FromLittleEndian(s[1..])
  }

  lemma {:induction false} LittleEndianRoundTrip(v: nat, n: nat)
    requires v < Pow256(n)
    ensures FromLittleEndian(LittleEndian(v, n)) == v
  {
    if n > 0 {
      LittleEndianRoundTrip(v / 256, n - 1);
      assert LittleEndian(v, n)[1..] == LittleEndian(v / 256, n - 1);
    }
  }

  lemma {:induction false} FromLittleEndianBound(s: seq<byte>)
    ensures FromLittleEndian(s) < Pow256(|s|)
  {
    if s != [] {
      FromLittleEndianBound(s[1..]);
    }
  }

  /** The conversion `int` to `uint64_t`: sign extension, that is, the residue modulo 2^64. */
  function Extend(x: int32): uint64 {
    if x < 0 then x + TWO64 else x
  }

  /** The conversion `uint64_t` to `int`: the low 32 bits read as two's complement. */
  function Truncate(x: uint64): int32 {
    var low := x % TWO32;
    if low < 0x8000_0000 then low else low - TWO32
  }

  /** The four bytes of an `int`. */
  function Int32Bytes(x: int32): (s: seq<byte>)
    ensures |s| == 4
  {
    LittleEndian(if x < 0 then x + TWO32 else x, 4)
  }

  function Int32From(s: seq<byte>): int32
    requires |s| == 4
  {
    FromLittleEndianBound(s);
    assert Pow256(4) == TWO32 by { PowersOf256(); }
    Truncate(FromLittleEndian(s))
  }

  lemma PowersOf256()
    ensures Pow256(2) == 0x1_0000 && Pow256(4) == TWO32 && Pow256(8) == TWO64
  {
    assert Pow256(1) == 256;
    assert Pow256(3) == 256 * Pow256(2);
    assert Pow256(5) == 256 * Pow256(4);
    assert Pow256(7) == 256 * Pow256(6);
  }

  /** An `int` survives being stored as four bytes and read back. */
  lemma Int32RoundTrip(x: int32)
    ensures Int32From(Int32Bytes(x)) == x
  {
    PowersOf256();
    LittleEndianRoundTrip(if x < 0 then x + TWO32 else x, 4);
  }

  /** A request id survives widening to 64 bits on the way out and narrowing on the way in. */
  lemma RequestIdRoundTrip(x: int32)
    ensures Truncate(Extend(x)) == x
  {
    if x < 0 {
      assert (x + TWO64) % TWO32 == x + TWO32;
    }
  }

  /** `mem` after `memcpy(mem + at, data, |data|)`. */
  function Overlay(mem: seq<byte>, at: nat, data: seq<byte>): (r: seq<byte>)
    requires at + |data| <= |mem|
    ensures |r| == |mem|
  {
    mem[..at] + data + mem[at + |data|..]
  }

  /** Two adjacent copies are one copy. */
  lemma OverlayTwice(mem: seq<byte>, at: nat, a: seq<byte>, b: seq<byte>)
    requires at + |a| + |b| <= |mem|
    ensures Overlay(Overlay(mem, at, a), at + |a|, b) == Overlay(mem, at, a + b)
  {
  }

  lemma Regroup<T>(a: seq<T>, b: seq<T>, c: seq<T>)
    ensures a + (b + c) == (a + b) + c
  {
  }
}
