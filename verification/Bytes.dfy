/** Bytes, little-endian integers and UTF-8 text, the vocabulary of every on-disk format. */
module Bytes {
  import opened Options

  type Byte = x: int | 0 <= x < 256

  const U32_LIMIT: nat := 0x1_0000_0000
  const U64_LIMIT: nat := 0x1_0000_0000_0000_0000

  function Pow256(k: nat): (r: nat)
    ensures r > 0
  {
    if k == 0 then 1 else 256 * Pow256(k - 1)
  }

  lemma Pow256Constants()
    ensures Pow256(4) == U32_LIMIT
    ensures Pow256(8) == U64_LIMIT
  {
    assert Pow256(2) == 65536;
    assert Pow256(4) == 65536 * Pow256(2);
    assert Pow256(6) == 65536 * Pow256(4);
    assert Pow256(8) == 65536 * Pow256(6);
  }

  /** `k` little-endian bytes of `n`; higher bits are dropped, as `to_le_bytes` of a cast does. */
  function Le(n: nat, k: nat): (b: seq<Byte>)
    ensures |b| == k
  {
    if k == 0 then [] else [n % 256] + Le(n / 256, k - 1)
  }

  function FromLe(b: seq<Byte>): (n: nat)
    ensures n < Pow256(|b|)
  {
    if b == [] then 0 else b[0] + 256 * FromLe(b[1..])
  }

  lemma {:induction false} FromLeOfLe(n: nat, k: nat)
    requires n < Pow256(k)
    ensures FromLe(Le(n, k)) == n
  {
    if k > 0 {
      FromLeOfLe(n / 256, k - 1);
      assert Le(n, k)[1..] == Le(n / 256, k - 1);
    }
  }

  lemma {:induction false} LeOfFromLe(b: seq<Byte>)
    ensures Le(FromLe(b), |b|) == b
  {
    if b != [] {
      LeOfFromLe(b[1..]);
    }
  }

  /** Different byte strings of one length are different numbers. */
  lemma FromLeInjective(a: seq<Byte>, b: seq<Byte>)
    requires |a| == |b| && a != b
    ensures FromLe(a) != FromLe(b)
  {
    LeOfFromLe(a);
    LeOfFromLe(b);
  }

  function U32(n: nat): (b: seq<Byte>)
    ensures |b| == 4
  {
    Le(n, 4)
  }

  function U64(n: nat): (b: seq<Byte>)
    ensures |b| == 8
  {
    Le(n, 8)
  }

  lemma U32RoundTrip(n: nat)
    requires n < U32_LIMIT
    ensures FromLe(U32(n)) == n
  {
    Pow256Constants();
    FromLeOfLe(n, 4);
  }

  lemma U64RoundTrip(n: nat)
    requires n < U64_LIMIT
    ensures FromLe(U64(n)) == n
  {
    Pow256Constants();
    FromLeOfLe(n, 8);
  }

  /** The `read_u32`/`read_u64` accessors: the slice is always in range at their call sites. */
  function ReadU32(b: seq<Byte>, at: nat): (n: nat)
    requires at + 4 <= |b|
    ensures n < U32_LIMIT
  {
    Pow256Constants();
    FromLe(b[at..at + 4])
  }

  function ReadU64(b: seq<Byte>, at: nat): (n: nat)
    requires at + 8 <= |b|
    ensures n < U64_LIMIT
  {
    Pow256Constants();
    FromLe(b[at..at + 8])
  }

  function Zeros(n: nat): (z: seq<Byte>)
    ensures |z| == n
    ensures forall i :: 0 <= i < n ==> z[i] == 0
  {
    seq(n, _ => 0)
  }

  predicate AllZero(b: seq<Byte>)
  {
    forall i :: 0 <= i < |b| ==> b[i] == 0
  }

  function Min(a: int, b: int): int
  {
    if a < b then a else b
  }

  function Max(a: int, b: int): int
  {
    if a < b then b else a
  }

  predicate Continuation(b: Byte)
  {
    0x80 <= b <= 0xbf
  }

  /** Length of the well-formed scalar value at the front of `b`, 0 if there is none. */
  function ScalarLength(b: seq<Byte>): (n: nat)
    requires b != []
    ensures n <= |b|
  {
    var lead := b[0];
    if lead <= 0x7f then 1
    else if |b| < 2 then 0
    else if 0xc2 <= lead <= 0xdf then if Continuation(b[1]) then 2 else 0
    else if |b| < 3 then 0
    else if 0xe0 <= lead <= 0xef then
      if (if lead == 0xe0 then 0xa0 <= b[1] <= 0xbf
          else if lead == 0xed then 0x80 <= b[1] <= 0x9f
          else Continuation(b[1])) && Continuation(b[2]) then 3 else 0
    else if |b| < 4 then 0
    else if 0xf0 <= lead <= 0xf4 then
      if (if lead == 0xf0 then 0x90 <= b[1] <= 0xbf
          else if lead == 0xf4 then 0x80 <= b[1] <= 0x8f
          else Continuation(b[1])) && Continuation(b[2]) && Continuation(b[3]) then 4 else 0
    else 0
  }

  predicate Utf8(b: seq<Byte>)
    decreases |b|
  {
    b == [] || (ScalarLength(b) > 0 && Utf8(b[ScalarLength(b)..]))
  }

  /** A string value: a byte sequence that is well-formed UTF-8. */
  type Text = b: seq<Byte> | Utf8(b) witness []
}
