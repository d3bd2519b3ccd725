/**
 * The AArch64 target: registers, one flat data memory that holds the static slots below the stack,
 * and the instruction sequences of the scalar compiler, each as one step. Addresses are counted from
 * the start of the slots, where `x19` points.
 */
module A64Machine {
  import opened Kinds
  import opened CheckedArithmetic
  import B = Bytes

  type Quad = n: int | 0 <= n < 0x1_0000_0000_0000_0000

  const STACK_BYTES: nat := 16384

  function Width(k: Kind): (n: nat)
    ensures n == 1 || n == 2 || n == 4
  {
    match k
    case U8 => 1
    case U16 => 2
    case _ => 4
  }

  datatype Slot = Slot(at: nat, kind: Kind)

  /** A fixed array. */
  datatype Vector = Vector(at: nat, element: Kind, length: nat)

  function Element(v: Vector, i: nat): Slot
  {
    Slot(v.at + i * Width(v.element), v.element)
  }

  datatype Register = X0 | X1 | X3 | X30

  datatype Instr =
    | Imm(word: Word)
    | LoadSlot(slot: Slot, r: Register)
    | StoreSlot(slot: Slot, r: Register)
    | Invert
    | NegateW
    | Arith(op: Operator, kind: Kind)
    | Test(comparison: Comparison, kind: Kind)
    | BranchZero(to: nat)
    | BranchNonzero(to: nat)
    | Branch(to: nat)
    | CheckIndex(length: nat)
    | Address(vector: Vector, r: Register)
    | LoadIndexed(kind: Kind, r: Register)
    | StoreIndexed(kind: Kind)
    | Push(r: Register)
    | Pop(r: Register)
    | Call(to: nat)
    | Ret
    | Keep
    | Recall
    | Print
    | Halt
    | Fault

  type Code = seq<Instr>

  datatype Machine = Machine(pc: nat, x0: Quad, x1: Quad, x2: nat, x3: Quad, x8: Quad, x30: Quad, sp: int,
                             mem: seq<B.Byte>, out: seq<Quad>)

  datatype Reason = Halted | ArithmeticFault | StackExhausted | OutOfBounds

  /** `Broken` stands for an access outside the data memory or outside the code. */
  datatype Outcome = On(m: Machine) | Off(reason: Reason, m: Machine) | Broken

  function W(x: Quad): Word
  {
    x % TWO_32
  }

  function Get(m: Machine, r: Register): Quad
  {
    match r
    case X0 => m.x0
    case X1 => m.x1
    case X3 => m.x3
    case X30 => m.x30
  }

  function Set(m: Machine, r: Register, v: Quad): Machine
  {
    match r
    case X0 => m.(x0 := v)
    case X1 => m.(x1 := v)
    case X3 => m.(x3 := v)
    case X30 => m.(x30 := v)
  }

  // ----- memory -----

  function Bytes'(mem: seq<B.Byte>, at: nat, n: nat): seq<B.Byte>
    requires at + n <= |mem|
  {
    mem[at..at + n]
  }

  function Put(mem: seq<B.Byte>, at: nat, b: seq<B.Byte>): (r: seq<B.Byte>)
    requires at + |b| <= |mem|
    ensures |r| == |mem|
    ensures forall i :: 0 <= i < |mem| ==> r[i] == if at <= i < at + |b| then b[i - at] else mem[i]
  {
    mem[..at] + b + mem[at + |b|..]
  }

  function ReadQuad(mem: seq<B.Byte>, at: nat): Quad
    requires at + 8 <= |mem|
  {
    B.ReadU64(mem, at)
  }

  function WriteQuad(mem: seq<B.Byte>, at: nat, v: Quad): (r: seq<B.Byte>)
    requires at + 8 <= |mem|
    ensures |r| == |mem|
  {
    Put(mem, at, B.U64(v))
  }

  /** A scalar, zero-extended. */
  function ReadScalar(mem: seq<B.Byte>, at: nat, k: Kind): Word
    requires at + Width(k) <= |mem|
  {
    ScalarBound(Bytes'(mem, at, Width(k)));
    B.FromLe(Bytes'(mem, at, Width(k)))
  }

  lemma ScalarBound(b: seq<B.Byte>)
    requires |b| <= 4
    ensures 0 <= B.FromLe(b) < TWO_32
  {
    assert B.Pow256(1) == 256 && B.Pow256(2) == 65536 && B.Pow256(3) == 16777216;
    B.Pow256Constants();
  }

  function WriteScalar(mem: seq<B.Byte>, at: nat, k: Kind, v: Word): (r: seq<B.Byte>)
    requires at + Width(k) <= |mem|
    ensures |r| == |mem|
  {
    Put(mem, at, B.Le(v, Width(k)))
  }

  // ----- steps -----

  function Next(m: Machine): Machine
  {
    m.(pc := m.pc + 1)
  }

  predicate Compared(c: Comparison, k: Kind, a: Word, b: Word)
  {
    if Signed(k) then Holds(c, AsSigned(a), AsSigned(b)) else Holds(c, a, b)
  }

  function Flag(b: bool): Quad
  {
    if b then 1 else 0
  }

  /** Stores below the stack pointer unless it has reached the floor. */
  function Pushed(m: Machine, floor: nat, r: Register): Outcome
  {
    if m.sp <= floor then Off(StackExhausted, m)
    else if m.sp < 16 || m.sp - 8 > |m.mem| then Broken
    else On(Next(m.(sp := m.sp - 16, mem := WriteQuad(m.mem, m.sp - 16, Get(m, r)))))
  }

  function Popped(m: Machine, r: Register): Outcome
  {
    if m.sp < 0 || m.sp + 8 > |m.mem| then Broken
    else On(Next(Set(m.(sp := m.sp + 16), r, ReadQuad(m.mem, m.sp))))
  }

  function Execute(i: Instr, floor: nat, m: Machine): Outcome
  {
    match i
    case Imm(word) => On(Next(m.(x0 := word)))
    case LoadSlot(s, r) =>
      if s.at + Width(s.kind) > |m.mem| then Broken else On(Next(Set(m, r, ReadScalar(m.mem, s.at, s.kind))))
    case StoreSlot(s, r) =>
      if s.at + Width(s.kind) > |m.mem| then Broken
      else On(Next(m.(mem := WriteScalar(m.mem, s.at, s.kind, W(Get(m, r))))))
    case Invert => On(Next(m.(x0 := Flag(W(m.x0) == 0))))
    case NegateW =>
      if W(m.x0) == TWO_31 then Off(ArithmeticFault, m) else On(Next(m.(x0 := (TWO_32 - W(m.x0)) % TWO_32)))
    case Arith(op, k) =>
      // the sequences use x2 and x3 on the way
      (match A64(op, k, W(m.x1), W(m.x0))
       case Trap => Off(ArithmeticFault, m)
       case Done(w) => On(Next(m.(x0 := w, x2 := 0, x3 := 0))))
    case Test(c, k) => On(Next(m.(x0 := Flag(Compared(c, k, W(m.x1), W(m.x0))))))
    case BranchZero(to) => On(if W(m.x0) == 0 then m.(pc := to) else Next(m))
    case BranchNonzero(to) => On(if W(m.x0) != 0 then m.(pc := to) else Next(m))
    case Branch(to) => On(m.(pc := to))
    case CheckIndex(length) => if W(m.x0) >= length then Off(OutOfBounds, m) else On(Next(m))
    case Address(v, r) => On(Next(m.(x2 := v.at + Get(m, r) * Width(v.element))))
    case LoadIndexed(k, r) =>
      if m.x2 + Width(k) > |m.mem| then Broken else On(Next(Set(m, r, ReadScalar(m.mem, m.x2, k))))
    case StoreIndexed(k) =>
      if m.x2 + Width(k) > |m.mem| then Broken else On(Next(m.(mem := WriteScalar(m.mem, m.x2, k, W(m.x0)))))
    case Push(r) => Pushed(m, floor, r)
    case Pop(r) => Popped(m, r)
    case Call(to) => if m.pc + 1 >= 0x1_0000_0000_0000_0000 then Broken else On(m.(pc := to, x30 := m.pc + 1))
    case Ret => On(m.(pc := m.x30))
    case Keep => On(Next(m.(x8 := W(m.x0))))
    case Recall => On(Next(m.(x0 := W(m.x8))))
    case Print => On(Next(m.(x0 := 0, x1 := 0, x2 := 0, x3 := 0, out := m.out + [m.x0])))
    case Halt => Off(Halted, m)
    case Fault => Off(ArithmeticFault, m)
  }

  function Step(code: Code, floor: nat, m: Machine): Outcome
  {
    if m.pc < |code| then Execute(code[m.pc], floor, m) else Broken
  }

  /** What `n` steps lead to; a machine that is off stays off. */
  function Run(code: Code, floor: nat, m: Machine, n: nat): Outcome
  {
    if n == 0 then On(m)
    else match Run(code, floor, m, n - 1)
         case On(k) => Step(code, floor, k)
         case other => other
  }
}
