/** The integers of a running program: pairing, checked operators and retagging by type name. */
module RuntimeIntegers {
  import opened Options
  import opened OrPatterns
  import opened Folding
  import Kinds

  const TWO_63: int := 0x8000_0000_0000_0000
  const TWO_64: int := 0x1_0000_0000_0000_0000
  const TWO_127: int := 0x8000_0000_0000_0000_0000_0000_0000_0000
  const TWO_128: int := 0x1_0000_0000_0000_0000_0000_0000_0000_0000

  // ----- types -----

  /** Two to the power of a width. */
  function Power(width: nat): nat
  {
    if width == 8 then 0x100
    else if width == 16 then 0x1_0000
    else if width == 32 then 0x1_0000_0000
    else if width == 64 then TWO_64
    else TWO_128
  }

  predicate Admits(tag: Tag, n: int)
  {
    match tag
    case Int => n < TWO_63 && -n <= TWO_63
    case UInt => 0 <= n < TWO_64
    case SignedOf(width) => n < Power(width) / 2 && -n <= Power(width) / 2
    case UnsignedOf(width) => 0 <= n < Power(width)
  }

  /** The integer types by name, with the names of C. */
  function Named(name: string): Option<Tag>
  {
    if name == "i8" || name == "CChar" then Some(SignedOf(8))
    else if name == "i16" || name == "CShort" then Some(SignedOf(16))
    else if name == "i32" || name == "CInt" then Some(SignedOf(32))
    else if name == "i64" || name == "CLongLong" then Some(SignedOf(64))
    else if name == "i128" then Some(SignedOf(128))
    else if name == "u8" || name == "CUChar" then Some(UnsignedOf(8))
    else if name == "u16" || name == "CUShort" then Some(UnsignedOf(16))
    else if name == "u32" || name == "CUInt" then Some(UnsignedOf(32))
    else if name == "u64" || name == "CULongLong" then Some(UnsignedOf(64))
    else if name == "u128" then Some(UnsignedOf(128))
    else if name == "uint" then Some(UInt)
    else if name == "int" then Some(Int)
    else None
  }

  predicate Floating(name: string)
  {
    name in {"f32", "f64", "CFloat", "CDouble"}
  }

  /** The integer in another type. The default types only take integers from each other. */
  function Retag(v: Value, tag: Tag): Option<Value>
    requires v.Whole?
  {
    match tag
    case Int => if v.tag == UInt && v.number < TWO_63 then Some(Whole(Int, v.number)) else Some(v)
    case UInt => if v.tag == Int && v.number >= 0 then Some(Whole(UInt, v.number)) else Some(v)
    case _ => if Admits(tag, v.number) then Some(Whole(tag, v.number)) else None
  }

  /** The value as an annotation makes it, for values that hold no floating-point number. */
  function Retagged(v: Value, name: string): Option<Value>
  {
    match Named(name)
    case None => if Floating(name) then None else Some(v)
    case Some(tag) => if v.Whole? then Retag(v, tag) else if tag.SignedOf? || tag.UnsignedOf? then None else Some(v)
  }

  // ----- operators -----

  function OneSide(a: Option<Value>, b: Option<Value>): Option<(Value, Value)>
  {
    if a.None? || b.None? then None else Some((a.value, b.value))
  }

  /** Brings two integers to one type where there is a rule for it. */
  function Paired(a: Value, b: Value): (r: Option<(Value, Value)>)
    requires a.Whole? && b.Whole?
    ensures r.Some? ==> r.value.0.Whole? && r.value.1.Whole?
  {
    match (a.tag, b.tag)
    case (SignedOf(x), SignedOf(y)) =>
      if x < y then OneSide(Retag(a, b.tag), Some(b)) else if y < x then OneSide(Some(a), Retag(b, a.tag))
      else Some((a, b))
    case (UnsignedOf(x), UnsignedOf(y)) =>
      if x < y then OneSide(Retag(a, b.tag), Some(b)) else if y < x then OneSide(Some(a), Retag(b, a.tag))
      else Some((a, b))
    case (UnsignedOf(x), SignedOf(y)) => if y > x then OneSide(Retag(a, b.tag), Some(b)) else Some((a, b))
    case (SignedOf(x), UnsignedOf(y)) => if x > y then OneSide(Some(a), Retag(b, a.tag)) else Some((a, b))
    case (Int, SignedOf(y)) => if y >= 128 then OneSide(Retag(a, b.tag), Some(b)) else Some((a, b))
    case (UInt, UnsignedOf(y)) => if y >= 128 then OneSide(Retag(a, b.tag), Some(b)) else Some((a, b))
    case (UnsignedOf(x), UInt) => if x >= 128 then OneSide(Some(a), Retag(b, a.tag)) else Some((a, b))
    case (SignedOf(_), Int) => OneSide(Some(a), Retag(b, a.tag))
    case (UnsignedOf(_), Int) => OneSide(Some(a), Retag(b, a.tag))
    case (UInt, Int) => OneSide(Some(a), Retag(b, a.tag))
    case _ => Some((a, b))
  }

  /** Arithmetic on numbers; nothing on division by zero. */
  function Exact(op: Operation, a: int, b: int): Option<int>
  {
    match op
    case Add => Some(a + b)
    case Subtract => Some(a - b)
    case Multiply => Some(a * b)
    case Divide => if b == 0 then None else Some(Kinds.Quotient(a, b))
    case Modulo => if b == 0 then None else Some(a - b * Kinds.Quotient(a, b))
    case _ => None
  }

  /** The remainder that overflows: the least number of the widest signed types by minus one. */
  predicate LeastByMinusOne(op: Operation, tag: Tag, a: int, b: int)
  {
    op == Modulo && b == -1 && ((tag == Int && -a == TWO_63) || (tag == SignedOf(128) && -a == TWO_127))
  }

  predicate Ordered(op: Operation)
  {
    op in {Less, LessEqual, Greater, GreaterEqual}
  }

  predicate HoldsOf(op: Operation, a: int, b: int)
    requires Ordered(op)
  {
    match op
    case Less => a < b
    case LessEqual => a <= b
    case Greater => a > b
    case GreaterEqual => a >= b
  }

  /** An operator on two integers that were brought to one type, if they could be. */
  function OnPair(op: Operation, a: Value, b: Value): Option<Value>
    requires a.Whole? && b.Whole?
  {
    if op == EqualTo then Some(Truthful(a == b))
    else if op == NotEqual then Some(Truthful(a != b))
    else if a.tag != b.tag then None
    else if Ordered(op) then Some(Truthful(HoldsOf(op, a.number, b.number)))
    else if LeastByMinusOne(op, a.tag, a.number, b.number) then None
    else match Exact(op, a.number, b.number)
         case None => None
         case Some(n) => if Admits(a.tag, n) then Some(Whole(a.tag, n)) else None
  }

  function OnWholes(op: Operation, a: Value, b: Value): Option<Value>
    requires a.Whole? && b.Whole?
  {
    match Paired(a, b) case None => None case Some((x, y)) => OnPair(op, x, y)
  }

  /** The negative of a 128-bit number is signed; other unsigned types have none. */
  function Negated(v: Value): Option<Value>
    requires v.Whole?
  {
    match v.tag
    case Int => if Admits(Int, -v.number) then Some(Whole(Int, -v.number)) else None
    case SignedOf(_) => if Admits(v.tag, -v.number) then Some(Whole(v.tag, -v.number)) else None
    case UnsignedOf(width) =>
      if width == 128 && v.number <= TWO_127 then Some(Whole(SignedOf(128), -v.number)) else None
    case UInt => None
  }

  /** An operator on two scalars. Text, characters and truth values can only be compared for equality. */
  function OnPlain(op: Operation, a: Value, b: Value): Option<Value>
    requires (a.Scalar? || a.Whole?) && (b.Scalar? || b.Whole?)
  {
    if a.Whole? && b.Whole? then OnWholes(op, a, b)
    else if op == EqualTo then Some(Truthful(a == b))
    else if op == NotEqual then Some(Truthful(a != b))
    else None
  }

  // ----- literals -----

  /** The type of a number written in a program: `int` where that holds it, and 128 bits otherwise. */
  function LiteralTag(n: int): Tag
  {
    if n >= TWO_63 then UnsignedOf(128) else if -n >= TWO_63 then SignedOf(128) else Int
  }

  function Literally(n: int): Value
  {
    Whole(LiteralTag(n), n)
  }
}
