/**
 * The arithmetic sequences the two backends emit, on register contents, and the proof that both
 * implement the same checked operation on every kind.
 */
module CheckedArithmetic {
  import opened Kinds

  type Word = n: int | 0 <= n < 0x1_0000_0000

  function Low(r: Word): Word
  {
    r % TWO_16
  }

  /** Writing a 16-bit register keeps the upper half of the 32-bit one. */
  function SetLow(r: Word, v: int): Word
    requires 0 <= v < TWO_16
  {
    r - r % TWO_16 + v
  }

  /** The value read as a two's complement number. */
  function AsSigned(r: Word): int
  {
    if r < TWO_31 then r else r - TWO_32
  }

  function Pattern(v: int): Word
  {
    v % TWO_32
  }

  /** The register represents the value: its low half for narrow kinds, all of it for wide ones. */
  predicate Represents(k: Kind, v: int, r: Word)
  {
    if Wide(k) then r == Pattern(v) else Low(r) == v
  }

  predicate Negative(r: Word)
  {
    r >= TWO_31
  }

  datatype Result = Trap | Done(eax: Word)

  // ----- x86: eax op ebx, leaving the result in eax -----

  function X86Narrow8(op: Operator, eax: Word, ebx: Word): Result
  {
    var (a, b) := (Low(eax), Low(ebx));
    match op
    case Add => var s := (a + b) % TWO_16; if s > 255 then Trap else Done(SetLow(eax, s))
    case Subtract => if a < b then Trap else Done(SetLow(eax, a - b))
    case Multiply => var p := (a * b) % TWO_16; if p > 255 then Trap else Done(SetLow(eax, p))
    case Divide => if b == 0 then Trap else DivisionFacts(a, b); Done(SetLow(eax, a / b))
    case Remainder => if b == 0 then Trap else DivisionFacts(a, b); Done(SetLow(eax, a % b))
  }

  function X86Narrow16(op: Operator, eax: Word, ebx: Word): Result
  {
    var (a, b) := (Low(eax), Low(ebx));
    match op
    case Add => if a + b >= TWO_16 then Trap else Done(SetLow(eax, a + b))
    case Subtract => if a < b then Trap else Done(SetLow(eax, a - b))
    case Multiply =>
      var product := a * b;
      assert 0 <= product;
      if product / TWO_16 != 0 then Trap else Done(SetLow(eax, product % TWO_16))
    case Divide => if b == 0 then Trap else DivisionFacts(a, b); Done(SetLow(eax, a / b))
    case Remainder => if b == 0 then Trap else DivisionFacts(a, b); Done(SetLow(eax, a % b))
  }

  function X86Unsigned32(op: Operator, eax: Word, ebx: Word): Result
  {
    match op
    case Add => if eax + ebx >= TWO_32 then Trap else Done(eax + ebx)
    case Subtract => if eax < ebx then Trap else Done(eax - ebx)
    case Multiply =>
      var product := eax * ebx;
      assert 0 <= product;
      if product / TWO_32 != 0 then Trap else Done(product % TWO_32)
    case Divide => if ebx == 0 then Trap else DivisionFacts(eax, ebx); Done(eax / ebx)
    case Remainder => if ebx == 0 then Trap else DivisionFacts(eax, ebx); Done(eax % ebx)
  }

  /** The overflow flag of an addition and of a subtraction. */
  predicate OverflowAdd(a: Word, b: Word)
  {
    Negative(a) == Negative(b) && Negative((a + b) % TWO_32) != Negative(a)
  }

  predicate OverflowSubtract(a: Word, b: Word)
  {
    Negative(a) != Negative(b) && Negative((a - b) % TWO_32) != Negative(a)
  }

  /** The high and low halves of the signed 64-bit product. */
  function ProductLow(a: Word, b: Word): Word
  {
    (AsSigned(a) * AsSigned(b)) % TWO_32
  }

  function ProductHigh(a: Word, b: Word): Word
  {
    ((AsSigned(a) * AsSigned(b)) / TWO_32) % TWO_32
  }

  /** The sign of a word spread over a whole word (`sar ecx, 31`). */
  function SignSpread(r: Word): Word
  {
    if Negative(r) then TWO_32 - 1 else 0
  }

  function X86Signed32(op: Operator, eax: Word, ebx: Word): Result
  {
    match op
    case Add => if OverflowAdd(eax, ebx) then Trap else Done((eax + ebx) % TWO_32)
    case Subtract => if OverflowSubtract(eax, ebx) then Trap else Done((eax - ebx) % TWO_32)
    case Multiply =>
      if ProductHigh(eax, ebx) != SignSpread(ProductLow(eax, ebx)) then Trap else Done(ProductLow(eax, ebx))
    case Divide =>
      if ebx == 0 || (eax == TWO_31 && ebx == TWO_32 - 1) then Trap
      else Done(Pattern(Quotient(AsSigned(eax), AsSigned(ebx))))
    case Remainder =>
      if ebx == 0 || (eax == TWO_31 && ebx == TWO_32 - 1) then Trap
      else Done(Pattern(AsSigned(eax) - AsSigned(ebx) * Quotient(AsSigned(eax), AsSigned(ebx))))
  }

  function X86(op: Operator, k: Kind, eax: Word, ebx: Word): Result
  {
    match k
    case U8 => X86Narrow8(op, eax, ebx)
    case U16 => X86Narrow16(op, eax, ebx)
    case I32 => X86Signed32(op, eax, ebx)
    case U32 => X86Unsigned32(op, eax, ebx)
    case Bool => Trap
  }

  /** Negation: `neg eax` with a jump on overflow. */
  function X86Negate(eax: Word): Result
  {
    if eax == TWO_31 then Trap else Done((TWO_32 - eax) % TWO_32)
  }

  datatype Flags = Flags(carry: bool, zero: bool, sign: bool, overflow: bool)

  /** The flags a comparison of two registers sets, at 16 or 32 bits. */
  function Subtracted(wide: bool, a: int, b: int): Flags
  {
    var r := if wide then (a - b) % TWO_32 else (a - b) % TWO_16;
    Flags(a < b, r == 0, TopBit(wide, r), TopBit(wide, a) != TopBit(wide, b) && TopBit(wide, r) != TopBit(wide, a))
  }

  predicate TopBit(wide: bool, a: int)
  {
    a >= if wide then TWO_31 else TWO_16 / 2
  }

  /** The condition byte of the `setcc` instruction. */
  function ConditionByte(c: Comparison, signed: bool): int
  {
    match c
    case Equal => 0x94
    case NotEqual => 0x95
    case Less => if signed then 0x9C else 0x92
    case LessEqual => if signed then 0x9E else 0x96
    case Greater => if signed then 0x9F else 0x97
    case GreaterEqual => if signed then 0x9D else 0x93
  }

  predicate Condition(byte: int, f: Flags)
  {
    if byte == 0x92 then f.carry
    else if byte == 0x93 then !f.carry
    else if byte == 0x94 then f.zero
    else if byte == 0x95 then !f.zero
    else if byte == 0x96 then f.carry || f.zero
    else if byte == 0x97 then !f.carry && !f.zero
    else if byte == 0x9C then f.sign != f.overflow
    else if byte == 0x9D then f.sign == f.overflow
    else if byte == 0x9E then f.zero || f.sign != f.overflow
    else byte == 0x9F && !f.zero && f.sign == f.overflow
  }

  /** Compare at the width of the kind, then set on the condition its sign asks for. */
  predicate X86Compare(c: Comparison, k: Kind, eax: Word, ebx: Word)
  {
    Condition(ConditionByte(c, Signed(k)),
              if Wide(k) then Subtracted(true, eax, ebx) else Subtracted(false, Low(eax), Low(ebx)))
  }

  // ----- AArch64: w1 op w0, leaving the result in w0; narrow values are zero-extended -----

  function Narrowed(k: Kind, w: Word): Result
  {
    if k == U8 && w > 255 then Trap else if k == U16 && w > 65535 then Trap else Done(w)
  }

  function A64Unsigned(op: Operator, k: Kind, w1: Word, w0: Word): Result
  {
    match op
    case Add => if w1 + w0 >= TWO_32 then Trap else Narrowed(k, w1 + w0)
    case Subtract => if w1 < w0 then Trap else Done(w1 - w0)
    case Multiply =>
      var product := w1 * w0;
      assert 0 <= product;
      if product / TWO_32 != 0 then Trap else Narrowed(k, product % TWO_32)
    case Divide => if w0 == 0 then Trap else DivisionFacts(w1, w0); Done(w1 / w0)
    case Remainder => if w0 == 0 then Trap else Done((w1 - (w1 / w0) * w0) % TWO_32)
  }

  /** `smull` then comparison with the sign-extended low word. */
  predicate ProductFits(w1: Word, w0: Word)
  {
    var product := AsSigned(w1) * AsSigned(w0);
    product == AsSigned(product % TWO_32)
  }

  function A64Signed(op: Operator, w1: Word, w0: Word): Result
  {
    match op
    case Add => if OverflowAdd(w1, w0) then Trap else Done((w1 + w0) % TWO_32)
    case Subtract => if OverflowSubtract(w1, w0) then Trap else Done((w1 - w0) % TWO_32)
    case Multiply => if !ProductFits(w1, w0) then Trap else Done((AsSigned(w1) * AsSigned(w0)) % TWO_32)
    case Divide =>
      if w0 == 0 || (w1 == TWO_31 && w0 == TWO_32 - 1) then Trap
      else Done(Pattern(Quotient(AsSigned(w1), AsSigned(w0))))
    case Remainder =>
      if w0 == 0 || (w1 == TWO_31 && w0 == TWO_32 - 1) then Trap
      else Done((w1 - Pattern(Quotient(AsSigned(w1), AsSigned(w0))) * w0) % TWO_32)
  }

  function A64(op: Operator, k: Kind, w1: Word, w0: Word): Result
  {
    if k == Bool then Trap else if Signed(k) then A64Signed(op, w1, w0) else A64Unsigned(op, k, w1, w0)
  }

  // ----- both implement the checked operation -----

  /** A machine result agrees with the checked result: traps exactly on failure, else represents it. */
  predicate Agrees(k: Kind, machine: Result, spec: Fitted)
  {
    match spec
    case NoFit => machine == Trap
    case Fits(v) => machine.Done? && Represents(k, v, machine.eax)
  }

  lemma SignedOf(v: int, r: Word)
    requires InRange(I32, v) && r == Pattern(v)
    ensures AsSigned(r) == v
  {
  }

  function Abs(x: int): int
  {
    if x < 0 then -x else x
  }

  lemma TimesAtLeast(y: int, k: int)
    requires y >= 0 && k >= 1
    ensures y * k >= y
  {
    assert y * k == y * (k - 1) + y;
    assert y * (k - 1) >= 0;
  }

  /** Division of a non-negative number by a positive one. */
  lemma DivisionFacts(x: int, y: int)
    requires x >= 0 && y > 0
    ensures 0 <= x / y <= x && 0 <= x % y < y && x % y <= x
    ensures x == y * (x / y) + x % y
    ensures Quotient(x, y) == x / y
  {
    var q := x / y;
    assert x == y * q + x % y;
    assert y * q == -(y * -q) && q * y == y * q;
    if q < 0 {
      TimesAtLeast(y, -q);
    } else if q > 0 {
      TimesAtLeast(q, y);
    }
  }

  lemma {:induction false} ProductNonNegative(x: nat, y: nat)
    ensures x * y >= 0
    decreases x
  {
    if x > 0 {
      ProductNonNegative(x - 1, y);
      assert x * y == (x - 1) * y + y;
    }
  }

  lemma ProductBound(x: int, y: int, m: int)
    requires 0 <= x < m && 0 <= y < m
    ensures 0 <= x * y <= (m - 1) * (m - 1)
  {
    ProductNonNegative(x, y);
    ProductNonNegative(m - 1 - x, y);
    ProductNonNegative(m - 1, m - 1 - y);
    assert (m - 1) * (m - 1) - x * y == (m - 1 - x) * y + (m - 1) * (m - 1 - y);
  }

  lemma LowOfSetLow(r: Word, v: int)
    requires 0 <= v < TWO_16
    ensures Low(SetLow(r, v)) == v
  {
  }

  lemma UnsignedDivision(k: Kind, x: int, y: int)
    requires (k == U8 || k == U16 || k == U32) && InRange(k, x) && InRange(k, y) && y != 0
    ensures Checked(Divide, k, x, y) == Fits(x / y)
    ensures Checked(Remainder, k, x, y) == Fits(x % y)
  {
    DivisionFacts(x, y);
  }

  lemma X86Narrow8Correct(op: Operator, x: int, y: int, eax: Word, ebx: Word)
    requires InRange(U8, x) && InRange(U8, y) && Low(eax) == x && Low(ebx) == y
    ensures Agrees(U8, X86Narrow8(op, eax, ebx), Checked(op, U8, x, y))
  {
    hide SetLow, Low, X86Narrow8, Checked;
    if op == Divide || op == Remainder { X86Narrow8Division(op, x, y, eax, ebx); }
    else if op == Multiply { X86Narrow8Product(x, y, eax, ebx); }
    else { X86Narrow8Sum(op, x, y, eax, ebx); }
  }

  lemma X86Narrow8Sum(op: Operator, x: int, y: int, eax: Word, ebx: Word)
    requires InRange(U8, x) && InRange(U8, y) && Low(eax) == x && Low(ebx) == y && (op == Add || op == Subtract)
    ensures Agrees(U8, X86Narrow8(op, eax, ebx), Checked(op, U8, x, y))
  {
    hide SetLow;
    if op == Add { LowOfSetLow(eax, (x + y) % TWO_16); } else if x >= y { LowOfSetLow(eax, x - y); }
    hide Low;
  }

  lemma X86Narrow8Product(x: int, y: int, eax: Word, ebx: Word)
    requires InRange(U8, x) && InRange(U8, y) && Low(eax) == x && Low(ebx) == y
    ensures Agrees(U8, X86Narrow8(Multiply, eax, ebx), Checked(Multiply, U8, x, y))
  {
    hide SetLow;
    var p := x * y;
    ProductBound(x, y, TWO_8);
    assert p % TWO_16 == p;
    LowOfSetLow(eax, p);
    hide Low;
    assert X86Narrow8(Multiply, eax, ebx) == if p > 255 then Trap else Done(SetLow(eax, p));
  }

  lemma X86Narrow8Division(op: Operator, x: int, y: int, eax: Word, ebx: Word)
    requires InRange(U8, x) && InRange(U8, y) && Low(eax) == x && Low(ebx) == y && (op == Divide || op == Remainder)
    ensures Agrees(U8, X86Narrow8(op, eax, ebx), Checked(op, U8, x, y))
  {
    hide SetLow, Checked;
    if y == 0 {
      ZeroDivisor(U8, x);
    } else {
      UnsignedDivision(U8, x, y);
      DivisionFacts(x, y);
      LowOfSetLow(eax, x / y);
      LowOfSetLow(eax, x % y);
      hide Low;
    }
  }

  lemma ZeroDivisor(k: Kind, x: int)
    ensures Checked(Divide, k, x, 0) == NoFit && Checked(Remainder, k, x, 0) == NoFit
  {
  }

  lemma X86Narrow16Correct(op: Operator, x: int, y: int, eax: Word, ebx: Word)
    requires InRange(U16, x) && InRange(U16, y) && Low(eax) == x && Low(ebx) == y
    ensures Agrees(U16, X86Narrow16(op, eax, ebx), Checked(op, U16, x, y))
  {
    hide SetLow;
    forall v | 0 <= v < TWO_16 ensures Low(SetLow(eax, v)) == v { LowOfSetLow(eax, v); }
    match op
    case Add =>
    case Subtract =>
    case Multiply => ProductBound(x, y, TWO_16);
    case Divide =>
      hide Checked; if y != 0 { UnsignedDivision(U16, x, y); DivisionFacts(x, y); } else { ZeroDivisor(U16, x); }
    case Remainder =>
      hide Checked; if y != 0 { UnsignedDivision(U16, x, y); DivisionFacts(x, y); } else { ZeroDivisor(U16, x); }
  }

  lemma X86Product32Correct(x: int, y: int)
    requires InRange(U32, x) && InRange(U32, y)
    ensures Agrees(U32, X86Unsigned32(Multiply, x, y), Fit(U32, x * y))
  {
    ProductBound(x, y, TWO_32);
  }

  lemma X86Unsigned32Correct(op: Operator, x: int, y: int)
    requires InRange(U32, x) && InRange(U32, y)
    ensures Agrees(U32, X86Unsigned32(op, x, y), Checked(op, U32, x, y))
  {
    match op
    case Add =>
    case Subtract =>
    case Multiply => hide X86Unsigned32; X86Product32Correct(x, y);
    case Divide => hide X86Unsigned32, Checked; X86Division32Correct(op, x, y);
    case Remainder => hide X86Unsigned32, Checked; X86Division32Correct(op, x, y);
  }

  lemma X86Division32Correct(op: Operator, x: int, y: int)
    requires InRange(U32, x) && InRange(U32, y) && (op == Divide || op == Remainder)
    ensures Agrees(U32, X86Unsigned32(op, x, y), Checked(op, U32, x, y))
  {
    hide Checked;
    if y != 0 { UnsignedDivision(U32, x, y); DivisionFacts(x, y); } else { ZeroDivisor(U32, x); }
  }

  lemma PatternOf(v: int)
    requires -TWO_32 <= v < TWO_32
    ensures Pattern(v) == if v < 0 then v + TWO_32 else v
  {
  }

  lemma SignedSum(x: int, y: int)
    requires InRange(I32, x) && InRange(I32, y)
    ensures (Pattern(x) + Pattern(y)) % TWO_32 == Pattern(x + y)
    ensures OverflowAdd(Pattern(x), Pattern(y)) <==> !InRange(I32, x + y)
  {
    PatternOf(x);
    PatternOf(y);
    PatternOf(x + y);
  }

  lemma SignedDifference(x: int, y: int)
    requires InRange(I32, x) && InRange(I32, y)
    ensures (Pattern(x) - Pattern(y)) % TWO_32 == Pattern(x - y)
    ensures OverflowSubtract(Pattern(x), Pattern(y)) <==> !InRange(I32, x - y)
  {
    PatternOf(x);
    PatternOf(y);
    PatternOf(x - y);
  }

  /** The high half equals the spread sign of the low half exactly when the product fits in 32 bits. */
  lemma HighHalfTest(p: int)
    requires -TWO_31 * TWO_31 <= p <= TWO_31 * TWO_31
    ensures (p / TWO_32) % TWO_32 == SignSpread(p % TWO_32) <==> InRange(I32, p)
  {
    var hi, lo := p / TWO_32, p % TWO_32;
    assert p == hi * TWO_32 + lo;
    assert -TWO_31 <= hi <= TWO_31;
  }

  lemma SignedProductBound(x: int, y: int)
    requires InRange(I32, x) && InRange(I32, y)
    ensures -TWO_31 * TWO_31 <= x * y <= TWO_31 * TWO_31
  {
    ProductBound(Abs(x), Abs(y), TWO_31 + 1);
    ProductOfSigns(x, y);
  }

  lemma ProductOfSigns(x: int, y: int)
    ensures x * y == Abs(x) * Abs(y) || x * y == -(Abs(x) * Abs(y))
  {
    assert (-x) * y == -(x * y) && x * (-y) == -(x * y) && (-x) * (-y) == x * y;
  }

  /** The sign of a truncated quotient and its remainder, through magnitudes. */
  lemma QuotientMagnitude(x: int, y: int)
    requires y != 0
    ensures Abs(Quotient(x, y)) == Abs(x) / Abs(y)
    ensures Abs(x - y * Quotient(x, y)) == Abs(x) % Abs(y)
  {
    var (a, b) := (Abs(x), Abs(y));
    DivisionFacts(a, b);
    NegativeDivisor(a, b);
    var (q, r) := (a / b, a % b);
    assert Quotient(x, y) == if (x < 0) == (y < 0) then q else -q;
    SignedProducts(b, q);
    assert y * Quotient(x, y) == if x < 0 then -(b * q) else b * q;
  }

  lemma SignedProducts(b: int, q: int)
    ensures (-b) * (-q) == b * q && b * (-q) == -(b * q) && (-b) * q == -(b * q)
  {
  }

  lemma NegativeDivisor(a: int, b: int)
    requires a >= 0 && b > 0
    ensures a / (-b) == -(a / b)
  {
    DivisionFacts(a, b);
    assert a == (-b) * (a / (-b)) + a % (-b);
    assert 0 <= a % (-b) < b;
    UniqueQuotient(a, b, -(a / (-b)), a % (-b));
  }

  lemma UniqueQuotient(a: int, b: int, q: int, r: int)
    requires b > 0 && 0 <= r < b && a == b * q + r && a >= 0
    ensures q == a / b && r == a % b
  {
    DivisionFacts(a, b);
    var d := q - a / b;
    assert b * d == b * q - b * (a / b);
    assert b * d == a % b - r && b * -d == -(b * d);
    if d >= 1 { TimesAtLeast(b, d); } else if d <= -1 { TimesAtLeast(b, -d); }
  }

  lemma SignedQuotient(x: int, y: int)
    requires InRange(I32, x) && InRange(I32, y) && y != 0
    ensures InRange(I32, Quotient(x, y)) <==> !(x == -TWO_31 && y == -1)
    ensures InRange(I32, x - y * Quotient(x, y))
  {
    QuotientMagnitude(x, y);
    DivisionFacts(Abs(x), Abs(y));
    var q := Abs(x) / Abs(y);
    if Abs(y) >= 2 && q >= 1 {
      TimesAtLeast(q, Abs(y) - 1);
      assert Abs(y) * q == q * (Abs(y) - 1) + q;
    }
    QuotientByOne(x);
  }

  lemma QuotientByOne(x: int)
    ensures Quotient(x, 1) == x && Quotient(x, -1) == -x
  {
  }

  lemma X86Signed32Correct(op: Operator, x: int, y: int)
    requires InRange(I32, x) && InRange(I32, y)
    ensures Agrees(I32, X86Signed32(op, Pattern(x), Pattern(y)), Checked(op, I32, x, y))
  {
    SignedOf(x, Pattern(x));
    SignedOf(y, Pattern(y));
    match op
    case Add => SignedSum(x, y);
    case Subtract => SignedDifference(x, y);
    case Multiply =>
      SignedProductBound(x, y);
      HighHalfTest(x * y);
    case Divide => if y != 0 { SignedQuotient(x, y); }
    case Remainder => if y != 0 { SignedQuotient(x, y); }
  }

  /** x86: for every kind and operands, the emitted sequence traps exactly when the operation fails. */
  lemma X86Correct(op: Operator, k: Kind, x: int, y: int, eax: Word, ebx: Word)
    requires Numeric(k) && InRange(k, x) && InRange(k, y)
    requires Represents(k, x, eax) && Represents(k, y, ebx)
    ensures Agrees(k, X86(op, k, eax, ebx), Checked(op, k, x, y))
  {
    hide X86Narrow8, X86Narrow16, X86Signed32, X86Unsigned32, Checked;
    match k
    case U8 => X86Narrow8Correct(op, x, y, eax, ebx);
    case U16 => X86Narrow16Correct(op, x, y, eax, ebx);
    case U32 => X86Unsigned32Correct(op, x, y);
    case I32 => X86Signed32Correct(op, x, y);
  }

  /** The machine multiplies modulo 2^32; the remainder it computes is still the true one. */
  lemma WrappedRemainder(x: int, y: int, q: int)
    ensures (Pattern(x) - Pattern(q) * Pattern(y)) % TWO_32 == Pattern(x - y * q)
  {
    var (a, b, c) := (x / TWO_32, y / TWO_32, q / TWO_32);
    assert x == a * TWO_32 + Pattern(x) && y == b * TWO_32 + Pattern(y) && q == c * TWO_32 + Pattern(q);
    var t := a - (b * q + Pattern(y) * c);
    assert x - y * q == (Pattern(x) - Pattern(q) * Pattern(y)) + t * TWO_32 by {
      assert y * q == (b * q) * TWO_32 + Pattern(y) * q;
      assert Pattern(y) * q == (Pattern(y) * c) * TWO_32 + Pattern(y) * Pattern(q);
    }
    ModShift(Pattern(x) - Pattern(q) * Pattern(y), t);
  }

  lemma ModShift(v: int, t: int)
    ensures (v + t * TWO_32) % TWO_32 == v % TWO_32
  {
  }

  lemma ProductFitsMeaning(p: int)
    ensures p == AsSigned(p % TWO_32) <==> InRange(I32, p)
  {
  }

  lemma A64SignedCorrect(op: Operator, x: int, y: int)
    requires InRange(I32, x) && InRange(I32, y)
    ensures Agrees(I32, A64Signed(op, Pattern(x), Pattern(y)), Checked(op, I32, x, y))
  {
    SignedOf(x, Pattern(x));
    SignedOf(y, Pattern(y));
    match op
    case Add => SignedSum(x, y);
    case Subtract => SignedDifference(x, y);
    case Multiply => ProductFitsMeaning(x * y);
    case Divide => if y != 0 { SignedQuotient(x, y); }
    case Remainder =>
      if y != 0 {
        SignedQuotient(x, y);
        WrappedRemainder(x, y, Quotient(x, y));
      }
  }

  lemma UnsignedRemainder(x: int, y: int)
    requires 0 <= x < TWO_32 && 0 < y
    ensures (x - (x / y) * y) % TWO_32 == x % y
  {
    DivisionFacts(x, y);
  }

  lemma A64ProductCorrect(k: Kind, x: int, y: int)
    requires (k == U8 || k == U16 || k == U32) && InRange(k, x) && InRange(k, y)
    ensures Agrees(k, A64Unsigned(Multiply, k, x, y), Fit(k, x * y))
  {
    ProductBound(x, y, TWO_32);
  }

  lemma A64DivisionCorrect(op: Operator, k: Kind, x: int, y: int)
    requires (k == U8 || k == U16 || k == U32) && InRange(k, x) && InRange(k, y)
    requires op == Divide || op == Remainder
    ensures Agrees(k, A64Unsigned(op, k, x, y), Checked(op, k, x, y))
  {
    hide Checked;
    if y == 0 {
      ZeroDivisor(k, x);
    } else {
      UnsignedDivision(k, x, y);
      DivisionFacts(x, y);
      UnsignedRemainder(x, y);
    }
  }

  lemma A64UnsignedCorrect(op: Operator, k: Kind, x: int, y: int)
    requires k == U8 || k == U16 || k == U32
    requires InRange(k, x) && InRange(k, y)
    ensures Agrees(k, A64Unsigned(op, k, x, y), Checked(op, k, x, y))
  {
    match op
    case Add =>
    case Subtract =>
    case Multiply => hide A64Unsigned; A64ProductCorrect(k, x, y);
    case Divide => A64DivisionCorrect(op, k, x, y);
    case Remainder => A64DivisionCorrect(op, k, x, y);
  }

  /** AArch64: the same, for the whole zero- or two's-complement word. */
  lemma A64Correct(op: Operator, k: Kind, x: int, y: int)
    requires Numeric(k) && InRange(k, x) && InRange(k, y)
    ensures Agrees(k, A64(op, k, Pattern(x), Pattern(y)), Checked(op, k, x, y))
  {
    hide A64Unsigned, A64Signed, Checked;
    if k == I32 { A64SignedCorrect(op, x, y); } else { A64UnsignedCorrect(op, k, x, y); }
  }

  lemma NegateCorrect(x: int, eax: Word)
    requires InRange(I32, x) && eax == Pattern(x)
    ensures X86Negate(eax) == if InRange(I32, -x) then Done(Pattern(-x)) else Trap
  {
  }

  lemma CompareCorrect(c: Comparison, k: Kind, x: int, y: int, eax: Word, ebx: Word)
    requires InRange(k, x) && InRange(k, y) && Represents(k, x, eax) && Represents(k, y, ebx)
    ensures X86Compare(c, k, eax, ebx) == Holds(c, x, y)
  {
    hide Subtracted;
    if Wide(k) {
      WideFlags(eax, ebx);
    } else {
      NarrowFlags(Low(eax), Low(ebx));
    }
  }

  /** Carry and zero order the registers, sign and overflow their two's-complement readings. */
  lemma WideFlags(a: Word, b: Word)
    ensures var f := Subtracted(true, a, b);
            && (f.zero <==> a == b) && (f.carry <==> a < b)
            && (f.sign != f.overflow <==> AsSigned(a) < AsSigned(b))
  {
    assert (a - b) % TWO_32 == if a < b then a - b + TWO_32 else a - b;
  }

  lemma NarrowFlags(a: int, b: int)
    requires 0 <= a < TWO_16 && 0 <= b < TWO_16
    ensures var f := Subtracted(false, a, b); (f.zero <==> a == b) && (f.carry <==> a < b)
  {
    assert (a - b) % TWO_16 == if a < b then a - b + TWO_16 else a - b;
  }
}
