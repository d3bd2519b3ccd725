/** The exact-width scalars of the freestanding profile and what checked arithmetic on them means. */
module Kinds {

  datatype Kind = U8 | U16 | U32 | I32 | Bool

  datatype Operator = Add | Subtract | Multiply | Divide | Remainder

  datatype Comparison = Equal | NotEqual | Less | LessEqual | Greater | GreaterEqual

  const TWO_8: int := 0x100
  const TWO_16: int := 0x1_0000
  const TWO_31: int := 0x8000_0000
  const TWO_32: int := 0x1_0000_0000

  function Bytes(k: Kind): (n: nat)
    ensures n == 1 || n == 2 || n == 4
  {
    match k
    case U8 => 1
    case U16 => 2
    case Bool => 2
    case U32 => 4
    case I32 => 4
  }

  predicate Numeric(k: Kind)
  {
    k != Bool
  }

  predicate Wide(k: Kind)
  {
    k == U32 || k == I32
  }

  predicate Signed(k: Kind)
  {
    k == I32
  }

  function StackBytes(k: Kind): nat
  {
    if Wide(k) then 4 else 2
  }

  predicate InRange(k: Kind, v: int)
  {
    match k
    case U8 => 0 <= v < TWO_8
    case U16 => 0 <= v < TWO_16
    case U32 => 0 <= v < TWO_32
    case I32 => -TWO_31 <= v < TWO_31
    case Bool => 0 <= v < 2
  }

  /** Division rounding toward zero. */
  function Quotient(x: int, y: int): int
    requires y != 0
  {
    if x >= 0 then x / y else -((-x) / y)
  }

  /** The one meaning of checked arithmetic: the exact result, or nothing. */
  function Checked(op: Operator, k: Kind, x: int, y: int): Fitted
  {
    match op
    case Add => Fit(k, x + y)
    case Subtract => Fit(k, x - y)
    case Multiply => Fit(k, x * y)
    case Divide => if y == 0 then NoFit else Fit(k, Quotient(x, y))
    case Remainder =>
      if y == 0 || !InRange(k, Quotient(x, y)) then NoFit else Fit(k, x - y * Quotient(x, y))
  }

  datatype Fitted = NoFit | Fits(value: int)

  function Fit(k: Kind, v: int): Fitted
  {
    if InRange(k, v) then Fits(v) else NoFit
  }

  predicate Holds(c: Comparison, x: int, y: int)
  {
    match c
    case Equal => x == y
    case NotEqual => x != y
    case Less => x < y
    case LessEqual => x <= y
    case Greater => x > y
    case GreaterEqual => x >= y
  }
}
