/** Bytes and the little-endian integer fields every on-disk structure is made of. */
module Bytes {
  type byte = n: int | 0 <= n < 0x100
  type bytes = seq<byte>
  type u16 = n: int | 0 <= n < 0x1_0000
  type u32 = n: int | 0 <= n < 0x1_0000_0000
  type u64 = n: int | 0 <= n < 0x1_0000_0000_0000_0000

  const U64_MAX: u64 := 0xFFFF_FFFF_FFFF_FFFF

  function Pow256(k: nat): (p: nat)
    ensures p > 0
  {
    if k == 0 then 1 else 256 * Pow256(k - 1)
  }

  /** The low k bytes of n, least significant first: the stores of HostToLe16/32/64. */
  function LE(n: nat, k: nat): (s: bytes)
    ensures |s| == k
  {
    if k == 0 then [] else [n % 256] + LE(n / 256, k - 1)
  }

  function Nat(s: bytes): nat {
    if s == [] then 0 else s[0] + 256 * Nat(s[1..])
  }

  lemma {:induction false} NatOfLE(n: nat, k: nat)
    ensures n < Pow256(k) ==> Nat(LE(n, k)) == n
  {
    if k > 0 {
      NatOfLE(n / 256, k - 1);
      assert LE(n, k)[1..] == LE(n / 256, k - 1);
    }
  }

  lemma {:induction false} LEOfNat(s: bytes)
    ensures Nat(s) < Pow256(|s|)
    ensures LE(Nat(s), |s|) == s
  {
    if s != [] {
      LEOfNat(s[1..]);
      assert Nat(s) % 256 == s[0] && Nat(s) / 256 == Nat(s[1..]);
      assert s == [s[0]] + s[1..];
    }
  }

  lemma Widths()
    ensures Pow256(1) == 0x100
    ensures Pow256(2) == 0x1_0000
    ensures Pow256(4) == 0x1_0000_0000
    ensures Pow256(8) == 0x1_0000_0000_0000_0000
  {
    assert Pow256(3) == 256 * Pow256(2);
    assert Pow256(5) == 256 * Pow256(4);
    assert Pow256(6) == 256 * Pow256(5);
    assert Pow256(7) == 256 * Pow256(6);
  }

  function U16(s: bytes): u16
    requires |s| == 2
  {
    Widths(); LEOfNat(s); Nat(s)
  }

  function U32(s: bytes): u32
    requires |s| == 4
  {
    Widths(); LEOfNat(s); Nat(s)
  }

  function U64(s: bytes): u64
    requires |s| == 8
  {
    Widths(); LEOfNat(s); Nat(s)
  }

  lemma StoreBack(a: bytes, b: bytes, c: bytes)
    requires |a| == 2 && |b| == 4 && |c| == 8
    ensures LE(U16(a), 2) == a && LE(U32(b), 4) == b && LE(U64(c), 8) == c
  {
    LEOfNat(a); LEOfNat(b); LEOfNat(c);
  }

  lemma ReadBack(a: u16, b: u32, c: u64)
    ensures U16(LE(a, 2)) == a && U32(LE(b, 4)) == b && U64(LE(c, 8)) == c
  {
    Widths(); NatOfLE(a, 2); NatOfLE(b, 4); NatOfLE(c, 8);
  }
}
