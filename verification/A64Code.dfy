/**
 * The AArch64 scalar compiler. Names are already resolved: a variable is the number of its binding in
 * the function, parameters first. Every instruction is emitted together with the stack it expects, a
 * comment for the proofs that the machine never sees.
 */
module A64Code {
  import opened Kinds
  import opened CheckedArithmetic
  import opened A64Machine

  // ----- the source -----

  datatype Storage = Scalar(kind: Kind) | Fixed(element: Kind, length: nat)

  datatype Expr =
    | Literal(word: Word)
    | Variable(binding: nat)
    | Index(binding: nat, index: Expr)
    | Not(operand: Expr)
    | Negate(operand: Expr)
    | Arithmetic(op: Operator, kind: Kind, left: Expr, right: Expr)
    | Compare(comparison: Comparison, kind: Kind, left: Expr, right: Expr)
    | And(left: Expr, right: Expr)
    | Or(left: Expr, right: Expr)
    | Invoke(callee: nat, arguments: seq<Expr>)

  datatype Assigning = Simply | With(op: Operator)

  datatype Stmt =
    | Let(binding: nat, value: Expr)
    | LetArray(binding: nat, values: seq<Expr>)
    | Assign(binding: nat, assigning: Assigning, value: Expr)
    | AssignElement(binding: nat, index: Expr, assigning: Assigning, value: Expr)
    | Perform(callee: nat, arguments: seq<Expr>)
    | Show(value: Expr)
    | ShowText
    | If(condition: Expr, thenBranch: seq<Stmt>, elseBranch: seq<Stmt>)
    | While(condition: Expr, body: seq<Stmt>)
    | Loop(body: seq<Stmt>)
    | Break
    | Continue
    | Return(result: seq<Expr>)

  datatype Function = Function(parameters: nat, storages: seq<Storage>, returning: bool, body: seq<Stmt>)

  // ----- where bindings live -----

  datatype Place = One(slot: Slot) | Many(vector: Vector)

  function Slots(p: Place): (r: seq<Slot>)
    ensures p.One? ==> r == [p.slot]
    ensures p.Many? ==> |r| == p.vector.length && forall i :: 0 <= i < |r| ==> r[i] == Element(p.vector, i)
  {
    match p
    case One(s) => [s]
    case Many(v) => seq(v.length, i requires 0 <= i < v.length => Element(v, i))
  }

  /** What a call saves and restores: all slots of the callee. */
  function Frame(places: seq<Place>): seq<Slot>
  {
    if places == [] then [] else Slots(places[0]) + Frame(places[1..])
  }

  function SlotOf(places: seq<Place>, i: nat): Slot
  {
    if i < |places| && places[i].One? then places[i].slot else Slot(0, U8)
  }

  function VectorOf(places: seq<Place>, i: nat): Vector
  {
    if i < |places| && places[i].Many? then places[i].vector else Vector(0, U8, 0)
  }

  function SlotsOf(places: seq<Place>, n: nat): (r: seq<Slot>)
    ensures |r| == n
  {
    seq(n, i requires 0 <= i < n => SlotOf(places, i))
  }

  /** What the callers of a function know of it. */
  datatype Signature = Signature(parameters: nat, places: seq<Place>, returning: bool)

  datatype Linkage = Linkage(signatures: seq<Signature>, entries: seq<nat>)

  function SignatureOf(g: Linkage, f: nat): Signature
  {
    if f < |g.signatures| then g.signatures[f] else Signature(0, [], false)
  }

  function EntryOf(g: Linkage, f: nat): nat
  {
    if f < |g.entries| then g.entries[f] else 0
  }

  // ----- annotated code -----

  /** What a stack entry holds: any word, a checked index, or the return address. */
  datatype Entry = Value | Below(n: nat) | Link

  type Shape = seq<Entry>

  /** What is known of the registers: a 32-bit word in x0, a checked index in x0 or x3, an element's address in
      x2, or the return address in x30. `kept` says that the index waits on the stack as well. */
  datatype Fact = Plain | Word0 | Linked | Index0(n: nat) | Index3(n: nat, kept: bool)
      | Pointing(vector: Vector, kept: bool)

  /** An instruction, the entries the function has on the stack before it, and the fact before it. */
  datatype Cell = Cell(instr: Instr, shape: Shape, fact: Fact)

  function Values(n: nat): (s: Shape)
    ensures |s| == n && forall i :: 0 <= i < n ==> s[i] == Value
  {
    seq(n, _ => Value)
  }

  function Plainly(i: Instr, shape: Shape): Cell
  {
    Cell(i, shape, Plain)
  }

  // ----- expressions -----

  function ExprSize(g: Linkage, e: Expr): (n: nat)
    ensures n > 0
    decreases e, 1
  {
    match e
    case Literal(_) => 1
    case Variable(_) => 1
    case Index(_, index) => ExprSize(g, index) + 3
    case Not(a) => ExprSize(g, a) + 1
    case Negate(a) => ExprSize(g, a) + 1
    case Arithmetic(_, _, a, b) => ExprSize(g, a) + ExprSize(g, b) + 3
    case Compare(_, _, a, b) => ExprSize(g, a) + ExprSize(g, b) + 3
    case And(a, b) => ExprSize(g, a) + ExprSize(g, b) + 3
    case Or(a, b) => ExprSize(g, a) + ExprSize(g, b) + 3
    case Invoke(f, arguments) => ArgumentsSize(g, arguments) + CallSize(SignatureOf(g, f))
  }

  function ArgumentsSize(g: Linkage, es: seq<Expr>): nat
    decreases es, 0
  {
    if es == [] then 0 else ExprSize(g, es[0]) + 1 + ArgumentsSize(g, es[1..])
  }

  /** A call without its arguments. */
  function CallSize(s: Signature): (n: nat)
    ensures n > 0
  {
    4 * |Frame(s.places)| + 2 * s.parameters + 1 + if s.returning then 2 else 0
  }

  function SaveAll(slots: seq<Slot>, shape: Shape): (r: seq<Cell>)
    ensures |r| == 2 * |slots|
    decreases |slots|
  {
    if slots == [] then []
    else [Plainly(LoadSlot(slots[0], X0), shape), Plainly(Push(X0), shape)] + SaveAll(slots[1..], shape + [Value])
  }

  /** Pops into the slots, last first; `shape` is what is below. */
  function PopAll(slots: seq<Slot>, r: Register, shape: Shape): (c: seq<Cell>)
    ensures |c| == 2 * |slots|
    decreases |slots|
  {
    if slots == [] then []
    else
      var n := |slots| - 1;
      [Plainly(Pop(r), shape + Values(n + 1)), Plainly(StoreSlot(slots[n], r), shape + Values(n))]
          + PopAll(slots[..n], r, shape)
  }

  function Optional(b: bool, c: Cell): seq<Cell>
  {
    if b then [c] else []
  }

  function CodeExpr(g: Linkage, places: seq<Place>, e: Expr, at: nat, shape: Shape): (r: seq<Cell>)
    ensures |r| == ExprSize(g, e)
    decreases e, 1
  {
    match e
    case Literal(word) => [Plainly(Imm(word), shape)]
    case Variable(i) => [Plainly(LoadSlot(SlotOf(places, i), X0), shape)]
    case Index(i, index) =>
      var v := VectorOf(places, i);
      CodeExpr(g, places, index, at, shape) +
      [Cell(CheckIndex(v.length), shape, Word0), Cell(Address(v, X0), shape, Index0(v.length)),
       Cell(LoadIndexed(v.element, X0), shape, Pointing(v, false))]
    case Not(a) => CodeExpr(g, places, a, at, shape) + [Plainly(Invert, shape)]
    case Negate(a) => CodeExpr(g, places, a, at, shape) + [Plainly(NegateW, shape)]
    case Arithmetic(op, k, a, b) =>
      Binary(CodeExpr(g, places, a, at, shape), CodeExpr(g, places, b, at + ExprSize(g, a) + 1, shape + [Value]),
             Arith(op, k), shape)
    case Compare(c, k, a, b) =>
      Binary(CodeExpr(g, places, a, at, shape), CodeExpr(g, places, b, at + ExprSize(g, a) + 1, shape + [Value]),
             Test(c, k), shape)
    case And(a, b) =>
      Short(CodeExpr(g, places, a, at, shape), CodeExpr(g, places, b, at + ExprSize(g, a) + 1, shape), false, at, shape)
    case Or(a, b) =>
      Short(CodeExpr(g, places, a, at, shape), CodeExpr(g, places, b, at + ExprSize(g, a) + 1, shape), true, at, shape)
    case Invoke(f, arguments) => CodeCall(g, places, f, arguments, at, shape)
  }

  /** The left operand waits on the stack. */
  function Binary(a: seq<Cell>, b: seq<Cell>, i: Instr, shape: Shape): (r: seq<Cell>)
    ensures |r| == |a| + |b| + 3
  {
    a + [Plainly(Push(X0), shape)] + b + [Plainly(Pop(X1), shape + [Value]), Plainly(i, shape)]
  }

  function Short(a: seq<Cell>, b: seq<Cell>, or: bool, at: nat, shape: Shape): (r: seq<Cell>)
    ensures |r| == |a| + |b| + 3
  {
    var shortcut := at + |a| + |b| + 2;
    a + [Plainly(if or then BranchNonzero(shortcut) else BranchZero(shortcut), shape)] +
    b + [Cell(Branch(shortcut + 1), shape, Word0), Plainly(Imm(if or then 1 else 0), shape)]
  }

  function CodeArguments(g: Linkage, places: seq<Place>, es: seq<Expr>, at: nat, shape: Shape): (r: seq<Cell>)
    ensures |r| == ArgumentsSize(g, es)
    decreases es, 0
  {
    if es == [] then []
    else
      CodeExpr(g, places, es[0], at, shape) + [Plainly(Push(X0), shape)] +
      CodeArguments(g, places, es[1..], at + ExprSize(g, es[0]) + 1, shape + [Value])
  }

  /** Saves the callee's slots, passes the arguments through the stack, calls, and restores. */
  function CodeCall(g: Linkage, places: seq<Place>, f: nat, arguments: seq<Expr>, at: nat, shape: Shape): (r: seq<Cell>)
    ensures |r| == ArgumentsSize(g, arguments) + CallSize(SignatureOf(g, f))
    decreases arguments, 1
  {
    var s := SignatureOf(g, f);
    var frame := Frame(s.places);
    var saved := shape + Values(|frame|);
    SaveAll(frame, shape) + CodeArguments(g, places, arguments, at + 2 * |frame|, saved) +
    PopAll(SlotsOf(s.places, s.parameters), X0, saved) + [Plainly(Call(EntryOf(g, f)), saved)] +
    Optional(s.returning, Plainly(Keep, saved)) + PopAll(frame, X1, shape)
        + Optional(s.returning, Plainly(Recall, shape))
  }

  // ----- statements -----

  /** Where a statement stands: the function's places, whether it is `main`, where loops start and end,
      and where the program halts. */
  datatype Context = Context(g: Linkage, places: seq<Place>, main: bool, returning: bool, halt: nat,
                             inLoop: bool, continueTo: nat, breakTo: nat)

  function Base(c: Context): Shape
  {
    if c.main then [] else [Link]
  }

  function StmtSize(c: Context, s: Stmt): nat
    decreases s, 1
  {
    match s
    case Let(_, e) => ExprSize(c.g, e) + 1
    case LetArray(_, es) => ArgumentsSize(c.g, es)
    case Assign(_, a, e) => ExprSize(c.g, e) + if a.Simply? then 1 else 3
    case AssignElement(_, index, a, e) => ExprSize(c.g, index) + ExprSize(c.g, e) + if a.Simply? then 5 else 10
    case Perform(f, arguments) => ArgumentsSize(c.g, arguments) + CallSize(SignatureOf(c.g, f))
    case Show(e) => ExprSize(c.g, e) + 1
    case ShowText => 1
    case If(e, a, b) => ExprSize(c.g, e) + BlockSize(c, a) + BlockSize(c, b) + 2
    case While(e, body) => ExprSize(c.g, e) + BlockSize(c, body) + 2
    case Loop(body) => BlockSize(c, body) + 1
    case Break => 1
    case Continue => 1
    case Return(es) => if c.main then 1 else if es == [] then 2 else ExprSize(c.g, es[0]) + 2
  }

  function BlockSize(c: Context, ss: seq<Stmt>): nat
    decreases ss, 0
  {
    if ss == [] then 0 else StmtSize(c, ss[0]) + BlockSize(c, ss[1..])
  }

  /** Elements are stored one after the other. */
  function CodeElements(c: Context, v: Vector, es: seq<Expr>, k: nat, at: nat): (r: seq<Cell>)
    ensures |r| == ArgumentsSize(c.g, es)
    decreases es
  {
    if es == [] then []
    else
      CodeExpr(c.g, c.places, es[0], at, Base(c)) + [Plainly(StoreSlot(Element(v, k), X0), Base(c))] +
      CodeElements(c, v, es[1..], k + 1, at + ExprSize(c.g, es[0]) + 1)
  }

  /** The checked index waits on the stack while the value is computed, and again during arithmetic. */
  function CodeElementStore(v: Vector, index: seq<Cell>, value: seq<Cell>, a: Assigning, base: Shape): (r: seq<Cell>)
    ensures |r| == |index| + |value| + if a.Simply? then 5 else 10
  {
    var held := base + [Below(v.length)];
    index + [Cell(CheckIndex(v.length), base, Word0), Cell(Push(X0), base, Index0(v.length))] + value
        + [Plainly(Pop(X3), held)] +
    (if a.Simply? then []
     else [Cell(Push(X3), base, Index3(v.length, false)), Cell(Address(v, X3), held, Index3(v.length, true)),
           Cell(LoadIndexed(v.element, X1), held, Pointing(v, true)), Plainly(Arith(a.op, v.element), held),
           Plainly(Pop(X3), held)]) +
    [Cell(Address(v, X3), base, Index3(v.length, false)), Cell(StoreIndexed(v.element), base, Pointing(v, false))]
  }

  function InLoop(c: Context, start: nat, end: nat): Context
  {
    c.(inLoop := true, continueTo := start, breakTo := end)
  }

  lemma {:induction false} StmtSizeInLoop(c: Context, s: Stmt, start: nat, end: nat)
    ensures StmtSize(InLoop(c, start, end), s) == StmtSize(c, s)
    decreases s, 1
  {
    match s
    case If(_, a, b) => BlockSizeInLoop(c, a, start, end); BlockSizeInLoop(c, b, start, end);
    case While(_, body) => BlockSizeInLoop(c, body, start, end);
    case Loop(body) => BlockSizeInLoop(c, body, start, end);
    case _ =>
  }

  lemma {:induction false} BlockSizeInLoop(c: Context, ss: seq<Stmt>, start: nat, end: nat)
    ensures BlockSize(InLoop(c, start, end), ss) == BlockSize(c, ss)
    decreases ss, 0
  {
    if ss != [] {
      StmtSizeInLoop(c, ss[0], start, end);
      BlockSizeInLoop(c, ss[1..], start, end);
    }
  }

  /** Pops the return address and returns. */
  const LEAVE: seq<Cell> := [Plainly(Pop(X30), [Link]), Cell(Ret, [], Linked)]

  function CodeReturn(c: Context, es: seq<Expr>, at: nat): (r: seq<Cell>)
    ensures |r| == StmtSize(c, Return(es))
  {
    if c.main then [Plainly(Branch(c.halt), [])]
    else if es == [] then LEAVE
    else CodeExpr(c.g, c.places, es[0], at, [Link]) + LEAVE
  }

  function CodeAssign(c: Context, i: nat, a: Assigning, value: seq<Cell>): (r: seq<Cell>)
    ensures |r| == |value| + if a.Simply? then 1 else 3
  {
    var s := SlotOf(c.places, i);
    value + (if a.Simply? then [] else [Plainly(LoadSlot(s, X1), Base(c)), Plainly(Arith(a.op, s.kind), Base(c))]) +
    [Plainly(StoreSlot(s, X0), Base(c))]
  }

  function Branching(e: seq<Cell>, a: seq<Cell>, b: seq<Cell>, at: nat, base: Shape): (r: seq<Cell>)
    ensures |r| == |e| + |a| + |b| + 2
  {
    var second := at + |e| + |a| + 2;
    e + [Plainly(BranchZero(second), base)] + a + [Plainly(Branch(second + |b|), base)] + b
  }

  function Repeating(test: seq<Cell>, body: seq<Cell>, at: nat, base: Shape): (r: seq<Cell>)
    ensures |r| == |test| + |body| + 1
  {
    test + body + [Plainly(Branch(at), base)]
  }

  function CodeStmt(c: Context, s: Stmt, at: nat): seq<Cell>
    decreases s, 1
  {
    var base := Base(c);
    match s
    case Let(i, e) => CodeExpr(c.g, c.places, e, at, base) + [Plainly(StoreSlot(SlotOf(c.places, i), X0), base)]
    case LetArray(i, es) => CodeElements(c, VectorOf(c.places, i), es, 0, at)
    case Assign(i, a, e) => CodeAssign(c, i, a, CodeExpr(c.g, c.places, e, at, base))
    case AssignElement(i, index, a, e) =>
      var v := VectorOf(c.places, i);
      CodeElementStore(v, CodeExpr(c.g, c.places, index, at, base),
                       CodeExpr(c.g, c.places, e, at + ExprSize(c.g, index) + 2, base + [Below(v.length)]), a, base)
    case Perform(f, arguments) => CodeCall(c.g, c.places, f, arguments, at, base)
    case Show(e) => CodeExpr(c.g, c.places, e, at, base) + [Plainly(Print, base)]
    case ShowText => [Plainly(Print, base)]
    case If(e, a, b) =>
      var first := at + ExprSize(c.g, e) + 1;
      Branching(CodeExpr(c.g, c.places, e, at, base), CodeBlock(c, a, first),
                CodeBlock(c, b, first + BlockSize(c, a) + 1), at, base)
    case While(e, body) =>
      var first := at + ExprSize(c.g, e) + 1;
      var end := first + BlockSize(c, body) + 1;
      Repeating(CodeExpr(c.g, c.places, e, at, base) + [Plainly(BranchZero(end), base)],
                CodeBlock(InLoop(c, at, end), body, first), at, base)
    case Loop(body) =>
      Repeating([], CodeBlock(InLoop(c, at, at + BlockSize(c, body) + 1), body, at), at, base)
    case Break => [Plainly(Branch(c.breakTo), base)]
    case Continue => [Plainly(Branch(c.continueTo), base)]
    case Return(es) => CodeReturn(c, es, at)
  }

  function CodeBlock(c: Context, ss: seq<Stmt>, at: nat): seq<Cell>
    decreases ss, 0
  {
    if ss == [] then [] else CodeStmt(c, ss[0], at) + CodeBlock(c, ss[1..], at + StmtSize(c, ss[0]))
  }

  lemma {:induction false} StmtLength(c: Context, s: Stmt, at: nat)
    ensures |CodeStmt(c, s, at)| == StmtSize(c, s)
    decreases s, 1
  {
    hide CodeExpr, ExprSize, CodeCall, ArgumentsSize, CallSize, CodeElements, CodeElementStore, CodeAssign, CodeReturn,
         Branching, Repeating,
         CodeBlock, BlockSize, SlotOf, VectorOf;
    match s
    case If(e, a, b) =>
      var first := at + ExprSize(c.g, e) + 1;
      BlockLength(c, a, first);
      BlockLength(c, b, first + BlockSize(c, a) + 1);
    case While(e, body) =>
      var first := at + ExprSize(c.g, e) + 1;
      var end := first + BlockSize(c, body) + 1;
      BlockLength(InLoop(c, at, end), body, first);
      BlockSizeInLoop(c, body, at, end);
    case Loop(body) =>
      var end := at + BlockSize(c, body) + 1;
      BlockLength(InLoop(c, at, end), body, at);
      BlockSizeInLoop(c, body, at, end);
    case _ =>
  }

  lemma {:induction false} BlockLength(c: Context, ss: seq<Stmt>, at: nat)
    ensures |CodeBlock(c, ss, at)| == BlockSize(c, ss)
    decreases ss, 0
  {
    hide CodeStmt, StmtSize;
    if ss != [] {
      StmtLength(c, ss[0], at);
      BlockLength(c, ss[1..], at + StmtSize(c, ss[0]));
    }
  }

  // ----- functions -----

  /** A function pushes the return address first; falling off the end of one with a result is a fault. */
  function CodeFunction(c: Context, body: seq<Stmt>, at: nat): seq<Cell>
  {
    [Cell(Push(X30), [], Linked)] + CodeBlock(c, body, at + 1) + if c.returning then [Plainly(Fault, [Link])] else LEAVE
  }

  function FunctionSize(c: Context, body: seq<Stmt>): nat
  {
    1 + BlockSize(c, body) + if c.returning then 1 else 2
  }

  lemma FunctionLength(c: Context, body: seq<Stmt>, at: nat)
    ensures |CodeFunction(c, body, at)| == FunctionSize(c, body)
  {
    hide CodeBlock, BlockSize;
    BlockLength(c, body, at + 1);
  }
}
