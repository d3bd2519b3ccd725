/** The 64-bit FNV-1a checksum that guards headers, pages, payloads and the write-ahead log. */
module Checksum {
  import opened Bytes

  const OFFSET_BASIS: nat := 0xcbf2_9ce4_8422_2325
  const PRIME: nat := 0x100_0000_01b3
  /** The inverse of the prime modulo 2^64, and the quotient that shows it. */
  const INVERSE: nat := 0xce96_5057_aff6_957b
  const QUOTIENT: nat := 887285111055

  type Word = n: nat | n < U64_LIMIT

  /** Exclusive or, bit by bit. */
  function Xor(a: nat, b: nat): (r: nat)
  {
    if a == 0 && b == 0 then 0 else (a % 2 + b % 2) % 2 + 2 * Xor(a / 2, b / 2)
  }

  function Pow2(k: nat): (r: nat)
    ensures r > 0
  {
    if k == 0 then 1 else 2 * Pow2(k - 1)
  }

  lemma {:induction false} XorBound(a: nat, b: nat, k: nat)
    requires a < Pow2(k) && b < Pow2(k)
    ensures Xor(a, b) < Pow2(k)
    decreases k
  {
    if k > 0 {
      XorBound(a / 2, b / 2, k - 1);
    }
  }

  lemma Pow2Constants()
    ensures Pow2(64) == U64_LIMIT
  {
    assert Pow2(4) == 16;
    assert Pow2(8) == 16 * Pow2(4);
    assert Pow2(12) == 16 * Pow2(8) && Pow2(16) == 16 * Pow2(12);
    assert Pow2(20) == 16 * Pow2(16) && Pow2(24) == 16 * Pow2(20);
    assert Pow2(28) == 16 * Pow2(24) && Pow2(32) == 16 * Pow2(28);
    assert Pow2(36) == 16 * Pow2(32) && Pow2(40) == 16 * Pow2(36);
    assert Pow2(44) == 16 * Pow2(40) && Pow2(48) == 16 * Pow2(44);
    assert Pow2(52) == 16 * Pow2(48) && Pow2(56) == 16 * Pow2(52);
    assert Pow2(60) == 16 * Pow2(56) && Pow2(64) == 16 * Pow2(60);
  }

  lemma XorWord(a: Word, b: Byte)
    ensures Xor(a, b) < U64_LIMIT
  {
    Pow2Constants();
    XorBound(a, b, 64);
  }

  lemma {:induction false} XorCancel(a: nat, b: nat, c: nat)
    requires Xor(a, c) == Xor(b, c)
    ensures a == b
    decreases a + b + c
  {
    if a != 0 || b != 0 || c != 0 {
      XorHalves(a, c);
      XorHalves(b, c);
      hide Xor;
      assert Xor(a / 2, c / 2) == Xor(b / 2, c / 2) && a % 2 == b % 2;
      XorCancel(a / 2, b / 2, c / 2);
    }
  }

  /** The lowest bit and the rest. */
  lemma XorHalves(a: nat, b: nat)
    ensures Xor(a, b) / 2 == Xor(a / 2, b / 2) && Xor(a, b) % 2 == (a % 2 + b % 2) % 2
  {
  }

  lemma {:induction false} XorCommutes(a: nat, b: nat)
    ensures Xor(a, b) == Xor(b, a)
    decreases a + b
  {
    if a != 0 || b != 0 {
      XorCommutes(a / 2, b / 2);
    }
  }

  function Mix(hash: Word, byte: Byte): Word
  {
    Xor(hash, byte) * PRIME % U64_LIMIT
  }

  function Fold(hash: Word, b: seq<Byte>): Word
    decreases |b|
  {
    if b == [] then hash else Fold(Mix(hash, b[0]), b[1..])
  }

  function Fnv1a(b: seq<Byte>): Word
  {
    Fold(OFFSET_BASIS, b)
  }

  /** Multiplication by the odd prime modulo 2^64 is injective, because it has an inverse. */
  lemma PrimeCancels(x: Word, y: Word)
    requires x * PRIME % U64_LIMIT == y * PRIME % U64_LIMIT
    ensures x == y
  {
    var a, b := x * PRIME / U64_LIMIT, y * PRIME / U64_LIMIT;
    var d := x - y;
    assert d * PRIME == U64_LIMIT * (a - b);
    assert PRIME * INVERSE == 1 + QUOTIENT * U64_LIMIT;
    calc {
      d;
      d * PRIME * INVERSE - U64_LIMIT * (d * QUOTIENT);
      U64_LIMIT * ((a - b) * INVERSE - d * QUOTIENT);
    }
  }

  lemma MixInjectiveInHash(h1: Word, h2: Word, byte: Byte)
    requires h1 != h2
    ensures Mix(h1, byte) != Mix(h2, byte)
  {
    XorWord(h1, byte);
    XorWord(h2, byte);
    if Mix(h1, byte) == Mix(h2, byte) {
      PrimeCancels(Xor(h1, byte), Xor(h2, byte));
      XorCancel(h1, h2, byte);
    }
  }

  lemma MixInjectiveInByte(hash: Word, a: Byte, b: Byte)
    requires a != b
    ensures Mix(hash, a) != Mix(hash, b)
  {
    XorWord(hash, a);
    XorWord(hash, b);
    if Mix(hash, a) == Mix(hash, b) {
      PrimeCancels(Xor(hash, a), Xor(hash, b));
      XorCommutes(hash, a);
      XorCommutes(hash, b);
      XorCancel(a, b, hash);
    }
  }

  lemma {:induction false} FoldInjectiveInHash(h1: Word, h2: Word, b: seq<Byte>)
    requires h1 != h2
    ensures Fold(h1, b) != Fold(h2, b)
    decreases |b|
  {
    if b != [] {
      MixInjectiveInHash(h1, h2, b[0]);
      FoldInjectiveInHash(Mix(h1, b[0]), Mix(h2, b[0]), b[1..]);
    }
  }

  lemma {:induction false} FoldDetectsChange(hash: Word, b: seq<Byte>, i: nat, v: Byte)
    requires i < |b| && v != b[i]
    ensures Fold(hash, b[i := v]) != Fold(hash, b)
    decreases |b|
  {
    var c := b[i := v];
    if i == 0 {
      assert c[1..] == b[1..];
      MixInjectiveInByte(hash, v, b[0]);
      FoldInjectiveInHash(Mix(hash, v), Mix(hash, b[0]), b[1..]);
    } else {
      assert c[1..] == b[1..][i - 1 := v];
      FoldDetectsChange(Mix(hash, b[0]), b[1..], i - 1, v);
    }
  }

  /** Changing any one byte changes the checksum. */
  lemma Fnv1aDetectsChange(b: seq<Byte>, i: nat, v: Byte)
    requires i < |b| && v != b[i]
    ensures Fnv1a(b[i := v]) != Fnv1a(b)
  {
    FoldDetectsChange(OFFSET_BASIS, b, i, v);
  }

  lemma {:induction false} FoldAppend(hash: Word, a: seq<Byte>, v: Byte)
    ensures Fold(hash, a + [v]) == Mix(Fold(hash, a), v)
    decreases |a|
  {
    if a == [] {
      assert [] + [v] == [v];
    } else {
      assert (a + [v])[1..] == a[1..] + [v];
      FoldAppend(Mix(hash, a[0]), a[1..], v);
    }
  }

  /** The running fold over the bytes, in order, computes the checksum. */
  method Compute(b: seq<Byte>) returns (hash: Word)
    ensures hash == Fnv1a(b)
  {
    hash := OFFSET_BASIS;
    for i := 0 to |b|
      invariant hash == Fold(OFFSET_BASIS, b[..i])
    {
      FoldAppend(OFFSET_BASIS, b[..i], b[i]);
      assert b[..i + 1] == b[..i] + [b[i]];
      hash := Mix(hash, b[i]);
    }
    assert b[..|b|] == b;
  }
}
