/** The code generator: what is accepted, what is emitted, and where the labels end up. */
module CodeGen {
  import opened Kinds
  import opened CheckedArithmetic
  import opened Source
  import opened Machine

  /** What is known of a function when calls to it are compiled. */
  datatype Info = Info(tag: nat, parameters: seq<Local>, frame: seq<Local>, returning: Returning)

  type Functions = map<string, Info>

  datatype Context = Context(fns: Functions, frame: seq<Local>, scopes: Scopes<Local>, inLoop: bool,
                             continueTo: nat, breakTo: nat, main: bool, returning: Returning)

  // ----- counting -----

  function Tags(e: Expr): nat
    decreases e, 1
  {
    match e
    case Not(a) => Tags(a)
    case Negate(a) => if a.Literal? && a.value == TWO_31 then 0 else Tags(a)
    case Arithmetic(_, _, a, b) => Tags(a) + Tags(b)
    case Compare(_, _, a, b) => Tags(a) + Tags(b)
    case And(a, b) => Tags(a) + 2 + Tags(b)
    case Or(a, b) => Tags(a) + 2 + Tags(b)
    case Call(_, arguments) => TagsAll(arguments)
    case _ => 0
  }

  function TagsAll(es: seq<Expr>): nat
    decreases es, 0
  {
    if es == [] then 0 else Tags(es[0]) + TagsAll(es[1..])
  }

  /** Labels allocated for a statement, and bindings in it in the order they are laid out. */
  function StmtTags(s: Stmt): nat
    decreases s, 1
  {
    match s
    case Let(_, _, e) => Tags(e)
    case Assign(_, _, _, e) => Tags(e)
    case Print(e, _) => Tags(e)
    case PrintText(_) => 0
    case Perform(_, arguments) => TagsAll(arguments)
    case If(c, a, b) => Tags(c) + 2 + BlockTags(a) + BlockTags(b)
    case While(c, body) => 2 + Tags(c) + BlockTags(body)
    case Loop(body) => 2 + BlockTags(body)
    case Break => 0
    case Continue => 0
    case Return(r) => if r == [] then 0 else Tags(r[0])
  }

  function BlockTags(ss: seq<Stmt>): nat
    decreases ss, 0
  {
    if ss == [] then 0 else StmtTags(ss[0]) + BlockTags(ss[1..])
  }

  function StmtLets(s: Stmt): seq<Kind>
    decreases s, 1
  {
    match s
    case Let(_, k, _) => [k]
    case If(_, a, b) => BlockLets(a) + BlockLets(b)
    case While(_, body) => BlockLets(body)
    case Loop(body) => BlockLets(body)
    case _ => []
  }

  function BlockLets(ss: seq<Stmt>): seq<Kind>
    decreases ss, 0
  {
    if ss == [] then [] else StmtLets(ss[0]) + BlockLets(ss[1..])
  }

  function SlotBytes(ls: seq<Local>): nat
  {
    if ls == [] then 0 else SlotBytes(ls[..|ls| - 1]) + StackBytes(ls[|ls| - 1].kind)
  }

  /** What the stack guard of a call demands: saved slots, arguments and the return address. */
  function Required(info: Info): nat
  {
    SlotBytes(info.frame) + SlotBytes(info.parameters) + 2
  }

  // ----- acceptance -----

  function LiteralLimit(k: Kind): int
  {
    match k
    case U8 => TWO_8
    case U16 => TWO_16
    case U32 => TWO_32
    case I32 => TWO_31
    case Bool => 0
  }

  /** The kind an expression is compiled at, `Unit` where compilation is refused. */
  function KindOf(fns: Functions, scopes: Scopes<Local>, e: Expr): Returning
    decreases e, 1
  {
    match e
    case Literal(v, k) => if v < LiteralLimit(k) then Scalar(k) else Unit
    case Truth(_) => Scalar(Bool)
    case Variable(x) => var found := Lookup(scopes, x); if found == [] then Unit else Scalar(found[0].kind)
    case Not(a) => if KindOf(fns, scopes, a) == Scalar(Bool) then Scalar(Bool) else Unit
    case Negate(a) =>
      if (a.Literal? && a.value == TWO_31) || KindOf(fns, scopes, a) == Scalar(I32) then Scalar(I32) else Unit
    case Arithmetic(_, k, a, b) =>
      if Numeric(k) && KindOf(fns, scopes, a) == Scalar(k) && KindOf(fns, scopes, b) == Scalar(k) then Scalar(k)
      else Unit
    case Compare(c, k, a, b) =>
      if (Numeric(k) || c == Equal || c == NotEqual) && KindOf(fns, scopes, a) == Scalar(k)
         && KindOf(fns, scopes, b) == Scalar(k) then Scalar(Bool) else Unit
    case And(a, b) =>
      if KindOf(fns, scopes, a) == Scalar(Bool) && KindOf(fns, scopes, b) == Scalar(Bool) then Scalar(Bool) else Unit
    case Or(a, b) =>
      if KindOf(fns, scopes, a) == Scalar(Bool) && KindOf(fns, scopes, b) == Scalar(Bool) then Scalar(Bool) else Unit
    case Call(f, arguments) =>
      if Callable(fns, f, |arguments|) && ArgumentsOk(fns, scopes, arguments, fns[f].parameters) then fns[f].returning
      else Unit
  }

  predicate Callable(fns: Functions, f: string, count: nat)
  {
    && f in fns && f != "main" && |fns[f].parameters| == count
    && EXPRESSION_RESERVE + Required(fns[f]) < STACK_BYTES
  }

  predicate ArgumentsOk(fns: Functions, scopes: Scopes<Local>, es: seq<Expr>, parameters: seq<Local>)
    decreases es, 0
  {
    |es| == |parameters| && (es != [] ==>
      KindOf(fns, scopes, es[0]) == Scalar(parameters[0].kind) && ArgumentsOk(fns, scopes, es[1..], parameters[1..]))
  }

  /** Stack bytes an expression holds between guards while it is evaluated. */
  function Temporaries(e: Expr): nat
  {
    match e
    case Not(a) => Temporaries(a)
    case Negate(a) => Temporaries(a)
    case Arithmetic(_, k, a, b) => Larger(Temporaries(a), StackBytes(k) + Temporaries(b))
    case Compare(_, k, a, b) => Larger(Temporaries(a), StackBytes(k) + Temporaries(b))
    case And(a, b) => Larger(Temporaries(a), Temporaries(b))
    case Or(a, b) => Larger(Temporaries(a), Temporaries(b))
    case _ => 0
  }

  function Larger(a: nat, b: nat): nat
  {
    if a < b then b else a
  }

  /** No expression, and no argument inside one, holds more than the reserve. */
  predicate WithinReserve(e: Expr)
    decreases e, 1
  {
    && Temporaries(e) <= EXPRESSION_RESERVE
    && match e
       case Not(a) => WithinReserve(a)
       case Negate(a) => WithinReserve(a)
       case Arithmetic(_, _, a, b) => WithinReserve(a) && WithinReserve(b)
       case Compare(_, _, a, b) => WithinReserve(a) && WithinReserve(b)
       case And(a, b) => WithinReserve(a) && WithinReserve(b)
       case Or(a, b) => WithinReserve(a) && WithinReserve(b)
       case Call(_, arguments) => AllWithinReserve(arguments)
       case _ => true
  }

  predicate AllWithinReserve(es: seq<Expr>)
    decreases es, 0
  {
    es == [] || (WithinReserve(es[0]) && AllWithinReserve(es[1..]))
  }

  predicate StmtWithin(s: Stmt)
    decreases s, 1
  {
    match s
    case Let(_, _, e) => WithinReserve(e)
    case Assign(_, _, _, e) => WithinReserve(e)
    case Print(e, _) => WithinReserve(e)
    case Perform(_, arguments) => AllWithinReserve(arguments)
    case If(e, a, b) => WithinReserve(e) && BlockWithin(a) && BlockWithin(b)
    case While(e, body) => WithinReserve(e) && BlockWithin(body)
    case Loop(body) => BlockWithin(body)
    case Return(r) => r == [] || WithinReserve(r[0])
    case _ => true
  }

  predicate BlockWithin(ss: seq<Stmt>)
    decreases ss, 0
  {
    ss == [] || (StmtWithin(ss[0]) && BlockWithin(ss[1..]))
  }

  predicate ExprOk(c: Context, e: Expr, k: Kind)
  {
    KindOf(c.fns, c.scopes, e) == Scalar(k)
  }

  /** The context for the statements after `s`, whose first binding sits in slot `k`. */
  function After(c: Context, s: Stmt, k: nat): Context
  {
    if s.Let? && k < |c.frame| && c.scopes != [] then c.(scopes := Declare(c.scopes, s.name, c.frame[k])) else c
  }

  function Enter(c: Context): Context
  {
    c.(scopes := c.scopes + [map[]])
  }

  function InLoop(c: Context, t: nat): Context
  {
    c.(inLoop := true, continueTo := t, breakTo := t + 1)
  }

  predicate StmtOk(c: Context, s: Stmt, k: nat)
    decreases s, 1
  {
    match s
    case Let(_, kind, e) => k < |c.frame| && c.frame[k].kind == kind && ExprOk(c, e, kind) && c.scopes != []
    case Assign(x, kind, assigning, e) =>
      && Lookup(c.scopes, x) != [] && Lookup(c.scopes, x)[0].kind == kind && ExprOk(c, e, kind)
      && (assigning.Compound? ==> Numeric(kind) && assigning.op != Remainder)
    case Print(e, kind) => ExprOk(c, e, kind)
    case PrintText(_) => true
    case Perform(f, arguments) =>
      Callable(c.fns, f, |arguments|) && ArgumentsOk(c.fns, c.scopes, arguments, c.fns[f].parameters)
    case If(e, a, b) => ExprOk(c, e, Bool) && BlockOk(Enter(c), a, k) && BlockOk(Enter(c), b, k + |BlockLets(a)|)
    case While(e, body) => ExprOk(c, e, Bool) && BlockOk(Enter(InLoop(c, 0)), body, k)
    case Loop(body) => BlockOk(Enter(InLoop(c, 0)), body, k)
    case Break => c.inLoop
    case Continue => c.inLoop
    case Return(r) =>
      if c.main || c.returning.Unit? then r == [] else |r| == 1 && ExprOk(c, r[0], c.returning.kind)
  }

  predicate BlockOk(c: Context, ss: seq<Stmt>, k: nat)
    decreases ss, 0
  {
    ss == [] || (StmtOk(c, ss[0], k) && BlockOk(After(c, ss[0], k), ss[1..], k + |StmtLets(ss[0])|))
  }

  // ----- emission -----

  function SaveAll(ls: seq<Local>): Code
  {
    if ls == [] then [] else SaveAll(ls[..|ls| - 1]) + [Load(ls[|ls| - 1]), Push(Wide(ls[|ls| - 1].kind))]
  }

  /** Pops into the slots, last one first. */
  function UnloadAll(ls: seq<Local>): Code
  {
    if ls == [] then [] else [Pop(Wide(ls[|ls| - 1].kind)), Save(ls[|ls| - 1])] + UnloadAll(ls[..|ls| - 1])
  }

  function CodeExpr(fns: Functions, scopes: Scopes<Local>, e: Expr, t: nat): Code
    decreases e, 1
  {
    match e
    case Literal(v, k) => [if Wide(k) then Full(v) else Narrow(v)]
    case Truth(b) => [Narrow(Numeral(b))]
    case Variable(x) => var found := Lookup(scopes, x); if found == [] then [] else [Load(found[0])]
    case Not(a) => CodeExpr(fns, scopes, a, t) + [Invert]
    case Negate(a) =>
      if a.Literal? && a.value == TWO_31 then [Full(TWO_31)] else CodeExpr(fns, scopes, a, t) + [Minus]
    case Arithmetic(op, k, a, b) =>
      BinaryCode(CodeExpr(fns, scopes, a, t), CodeExpr(fns, scopes, b, t + Tags(a)), Wide(k), Operate(op, k))
    case Compare(c, k, a, b) =>
      BinaryCode(CodeExpr(fns, scopes, a, t), CodeExpr(fns, scopes, b, t + Tags(a)), Wide(k), Test(c, k))
    case And(a, b) =>
      ShortCode(CodeExpr(fns, scopes, a, t), CodeExpr(fns, scopes, b, t + Tags(a) + 2), false, t + Tags(a))
    case Or(a, b) =>
      ShortCode(CodeExpr(fns, scopes, a, t), CodeExpr(fns, scopes, b, t + Tags(a) + 2), true, t + Tags(a))
    case Call(f, arguments) => if f in fns then CodeCall(fns, scopes, fns[f], arguments, t) else []
  }

  /** Two operands and an instruction that combines them. */
  function BinaryCode(a: Code, b: Code, wide: bool, last: Instr): (r: Code)
    ensures |r| == |a| + |b| + 4
  {
    a + ([Push(wide)] + (b + [ToSecondary(wide), Pop(wide), last]))
  }

  /** Short circuit: the left operand decides, or the right one is evaluated. */
  function ShortCode(a: Code, b: Code, either: bool, shortcut: nat): (r: Code)
    ensures |r| == |a| + |b| + 5
  {
    a + ([if either then JumpIfNonzero(shortcut) else JumpIfZero(shortcut)] +
      (b + [Jump(shortcut + 1), Mark(shortcut), Narrow(Numeral(either)), Mark(shortcut + 1)]))
  }

  function CodeArguments(fns: Functions, scopes: Scopes<Local>, es: seq<Expr>, parameters: seq<Local>, t: nat): Code
    decreases es, 0
  {
    if es == [] || parameters == [] then []
    else CodeExpr(fns, scopes, es[0], t) + ([Push(Wide(parameters[0].kind))] +
           CodeArguments(fns, scopes, es[1..], parameters[1..], t + Tags(es[0])))
  }

  function Keep(info: Info): Code
  {
    if info.returning.Scalar? then [ToTertiary(Wide(info.returning.kind))] else []
  }

  function Yield(info: Info): Code
  {
    if info.returning.Scalar? then [FromTertiary(Wide(info.returning.kind))] else []
  }

  /** Guard, save the callee's slots, evaluate and move the arguments, call, restore. */
  function CallCode(info: Info, arguments: Code): Code
  {
    [Guard(Required(info))] + (SaveAll(info.frame) + (arguments +
      (UnloadAll(info.parameters) + ([CallLabel(info.tag)] + (Keep(info) + (UnloadAll(info.frame) + Yield(info)))))))
  }

  function CodeCall(fns: Functions, scopes: Scopes<Local>, info: Info, arguments: seq<Expr>, t: nat): Code
    decreases arguments, 1
  {
    CallCode(info, CodeArguments(fns, scopes, arguments, info.parameters, t))
  }

  function IfCode(condition: Code, a: Code, b: Code, other: nat): Code
  {
    condition + ([JumpIfZero(other)] + (a + ([Jump(other + 1), Mark(other)] + (b + [Mark(other + 1)]))))
  }

  /** `condition` is empty for an endless loop and ends with the exit jump otherwise. */
  function LoopCode(condition: Code, body: Code, t: nat): Code
  {
    [Mark(t)] + (condition + (body + [Jump(t), Mark(t + 1)]))
  }

  function AssignCode(value: Code, l: Local, kind: Kind, assigning: Assigning): Code
  {
    value + match assigning
            case Plain => [Save(l)]
            case Compound(op) => [ToSecondary(Wide(kind))] + ([Load(l)] + ([Operate(op, kind)] + [Save(l)]))
  }

  function CodeStmt(c: Context, s: Stmt, k: nat, t: nat): Code
    decreases s, 1
  {
    match s
    case Let(_, _, e) => CodeExpr(c.fns, c.scopes, e, t) + (if k < |c.frame| then [Save(c.frame[k])] else [])
    case Assign(x, kind, assigning, e) =>
      var found := Lookup(c.scopes, x);
      if found == [] then [] else AssignCode(CodeExpr(c.fns, c.scopes, e, t), found[0], kind, assigning)
    case Print(e, kind) => CodeExpr(c.fns, c.scopes, e, t) + [Show(kind)]
    case PrintText(text) => [ShowText(text)]
    case Perform(f, arguments) => if f in c.fns then CodeCall(c.fns, c.scopes, c.fns[f], arguments, t) else []
    case If(e, a, b) =>
      var other := t + Tags(e);
      IfCode(CodeExpr(c.fns, c.scopes, e, t), CodeBlock(Enter(c), a, k, other + 2),
             CodeBlock(Enter(c), b, k + |BlockLets(a)|, other + 2 + BlockTags(a)), other)
    case While(e, body) =>
      LoopCode(CodeExpr(c.fns, c.scopes, e, t + 2) + [JumpIfZero(t + 1)],
               CodeBlock(Enter(InLoop(c, t)), body, k, t + 2 + Tags(e)), t)
    case Loop(body) => LoopCode([], CodeBlock(Enter(InLoop(c, t)), body, k, t + 2), t)
    case Break => [Jump(c.breakTo)]
    case Continue => [Jump(c.continueTo)]
    case Return(r) =>
      if c.main then [Jump(HALT_LABEL)]
      else if r == [] then [Ret] else CodeExpr(c.fns, c.scopes, r[0], t) + [Ret]
  }

  function CodeBlock(c: Context, ss: seq<Stmt>, k: nat, t: nat): Code
    decreases ss, 0
  {
    if ss == [] then []
    else CodeStmt(c, ss[0], k, t)
         + CodeBlock(After(c, ss[0], k), ss[1..], k + |StmtLets(ss[0])|, t + StmtTags(ss[0]))
  }

  function ParameterScope(parameters: seq<Parameter>, frame: seq<Local>): map<string, Local>
  {
    if parameters == [] || |frame| < |parameters| then map[]
    else ParameterScope(parameters[..|parameters| - 1],
                        frame)[parameters[|parameters| - 1].name := frame[|parameters| - 1]]
  }

  function BodyContext(fns: Functions, f: Function, info: Info, main: bool): Context
  {
    Context(fns, info.frame, [ParameterScope(f.parameters, info.frame)], false, 0, 0, main, info.returning)
  }

  /** Falling off the end fails in a function that owes a value and returns from one that does not. */
  function Epilogue(info: Info, main: bool): Code
  {
    if main then [] else if info.returning.Scalar? then [Jump(ARITHMETIC_LABEL)] else [Ret]
  }

  function FunctionCode(fns: Functions, f: Function, info: Info, main: bool, t: nat): Code
  {
    [Mark(info.tag)] + (CodeBlock(Enter(BodyContext(fns, f, info, main)), f.body, |f.parameters|, t)
                        + Epilogue(info, main))
  }

  const ROUTINES: Code :=
    [Mark(ARITHMETIC_LABEL), Stop(ArithmeticFailure), Mark(STACK_LABEL), Stop(StackFailure), Mark(HALT_LABEL),
     Stop(Halted)]

  // ----- labels are bound at most once -----

  /** Every label bound in the code lies in the range, and none is bound twice. */
  predicate MarksIn(code: Code, lo: nat, hi: nat)
  {
    UniqueMarks(code) && forall i :: 0 <= i < |code| && code[i].Mark? ==> lo <= code[i].tag < hi
  }

  lemma MarksJoin(a: Code, b: Code, lo: nat, mid: nat, hi: nat)
    requires lo <= mid <= hi
    requires (MarksIn(a, lo, mid) && MarksIn(b, mid, hi)) || (MarksIn(a, mid, hi) && MarksIn(b, lo, mid))
    ensures MarksIn(a + b, lo, hi)
  {
  }

  predicate Markless(code: Code)
  {
    forall i :: 0 <= i < |code| ==> !code[i].Mark?
  }

  lemma MarklessJoin(a: Code, b: Code, lo: nat, hi: nat)
    requires (MarksIn(a, lo, hi) && Markless(b)) || (Markless(a) && MarksIn(b, lo, hi))
    ensures MarksIn(a + b, lo, hi)
  {
  }

  lemma MarklessIn(a: Code, lo: nat, hi: nat)
    requires Markless(a)
    ensures MarksIn(a, lo, hi)
  {
  }

  lemma {:induction false} MoversMarkless(ls: seq<Local>)
    ensures Markless(SaveAll(ls)) && Markless(UnloadAll(ls))
  {
    if ls != [] {
      MoversMarkless(ls[..|ls| - 1]);
    }
  }

  lemma BinaryMarks(a: Code, b: Code, wide: bool, last: Instr, lo: nat, mid: nat, hi: nat)
    requires lo <= mid <= hi && MarksIn(a, lo, mid) && MarksIn(b, mid, hi) && !last.Mark?
    ensures MarksIn(BinaryCode(a, b, wide, last), lo, hi)
  {
    hide MarksIn;
    var tail := [ToSecondary(wide), Pop(wide), last];
    MarklessJoin(b, tail, mid, hi);
    MarklessJoin([Push(wide)], b + tail, mid, hi);
    MarksJoin(a, [Push(wide)] + (b + tail), lo, mid, hi);
  }

  lemma ShortMarks(a: Code, b: Code, either: bool, lo: nat, shortcut: nat, hi: nat)
    requires lo <= shortcut && shortcut + 2 <= hi && MarksIn(a, lo, shortcut) && MarksIn(b, shortcut + 2, hi)
    ensures MarksIn(ShortCode(a, b, either, shortcut), lo, hi)
  {
    var tail := [Jump(shortcut + 1), Mark(shortcut), Narrow(Numeral(either)), Mark(shortcut + 1)];
    var jump := [if either then JumpIfNonzero(shortcut) else JumpIfZero(shortcut)];
    assert MarksIn(tail, shortcut, shortcut + 2);
    hide MarksIn;
    MarksJoin(b, tail, shortcut, shortcut + 2, hi);
    MarklessJoin(jump, b + tail, shortcut, hi);
    MarksJoin(a, jump + (b + tail), lo, shortcut, hi);
  }

  lemma CallMarks(info: Info, arguments: Code, lo: nat, hi: nat)
    requires MarksIn(arguments, lo, hi)
    ensures MarksIn(CallCode(info, arguments), lo, hi)
  {
    hide MarksIn, SaveAll, UnloadAll, Required;
    MoversMarkless(info.frame);
    MoversMarkless(info.parameters);
    var head := [Guard(Required(info))];
    var last := UnloadAll(info.frame) + Yield(info);
    var tail := UnloadAll(info.parameters) + ([CallLabel(info.tag)] + (Keep(info) + last));
    assert Markless(last) && Markless(tail);
    MarklessJoin(arguments, tail, lo, hi);
    MarklessJoin(SaveAll(info.frame), arguments + tail, lo, hi);
    MarklessJoin(head, SaveAll(info.frame) + (arguments + tail), lo, hi);
  }

  lemma {:induction false} ExprMarks(fns: Functions, scopes: Scopes<Local>, e: Expr, t: nat)
    ensures MarksIn(CodeExpr(fns, scopes, e, t), t, t + Tags(e))
    decreases e, 1
  {
    hide MarksIn, BinaryCode, ShortCode, CallCode, CodeCall, Lookup, TagsAll;
    match e
    case Literal(_, _) => MarklessIn(CodeExpr(fns, scopes, e, t), t, t);
    case Truth(_) => MarklessIn(CodeExpr(fns, scopes, e, t), t, t);
    case Variable(_) => MarklessIn(CodeExpr(fns, scopes, e, t), t, t);
    case Not(a) =>
      ExprMarks(fns, scopes, a, t);
      MarklessJoin(CodeExpr(fns, scopes, a, t), [Invert], t, t + Tags(a));
    case Negate(a) =>
      if a.Literal? && a.value == TWO_31 {
        MarklessIn([Full(TWO_31)], t, t);
      } else {
        ExprMarks(fns, scopes, a, t);
        MarklessJoin(CodeExpr(fns, scopes, a, t), [Minus], t, t + Tags(a));
      }
    case Arithmetic(op, k, a, b) => OperationMarks(fns, scopes, e, t);
    case Compare(c, k, a, b) => OperationMarks(fns, scopes, e, t);
    case And(a, b) => ShortcutMarks(fns, scopes, e, t);
    case Or(a, b) => ShortcutMarks(fns, scopes, e, t);
    case Call(f, arguments) =>
      if f in fns { CallMarksIn(fns, scopes, fns[f], arguments, t); } else { MarklessIn([], t, t + Tags(e)); }
  }

  lemma {:induction false} OperationMarks(fns: Functions, scopes: Scopes<Local>, e: Expr, t: nat)
    requires e.Arithmetic? || e.Compare?
    ensures MarksIn(CodeExpr(fns, scopes, e, t), t, t + Tags(e))
    decreases e, 0
  {
    hide MarksIn, BinaryCode;
    var last := if e.Arithmetic? then Operate(e.op, e.kind) else Test(e.comparison, e.kind);
    assert Tags(e) == Tags(e.left) + Tags(e.right);
    assert CodeExpr(fns, scopes, e, t) ==
           BinaryCode(CodeExpr(fns, scopes, e.left, t), CodeExpr(fns, scopes, e.right, t + Tags(e.left)), Wide(e.kind),
                      last);
    hide CodeExpr, Tags;
    ExprMarks(fns, scopes, e.left, t);
    ExprMarks(fns, scopes, e.right, t + Tags(e.left));
    BinaryMarks(CodeExpr(fns, scopes, e.left, t), CodeExpr(fns, scopes, e.right, t + Tags(e.left)), Wide(e.kind), last,
                t, t + Tags(e.left), t + Tags(e));
  }

  lemma ShortcutCode(fns: Functions, scopes: Scopes<Local>, e: Expr, t: nat)
    requires e.And? || e.Or?
    ensures Tags(e) == Tags(e.left) + 2 + Tags(e.right)
    ensures CodeExpr(fns, scopes, e, t) ==
            ShortCode(CodeExpr(fns, scopes, e.left, t), CodeExpr(fns, scopes, e.right, t + Tags(e.left) + 2), e.Or?,
                      t + Tags(e.left))
  {
    hide ShortCode;
  }

  lemma {:induction false} ShortcutMarks(fns: Functions, scopes: Scopes<Local>, e: Expr, t: nat)
    requires e.And? || e.Or?
    ensures MarksIn(CodeExpr(fns, scopes, e, t), t, t + Tags(e))
    decreases e, 0
  {
    hide *;
    ShortcutCode(fns, scopes, e, t);
    ExprMarks(fns, scopes, e.left, t);
    ExprMarks(fns, scopes, e.right, t + Tags(e.left) + 2);
    ShortMarks(CodeExpr(fns, scopes, e.left, t), CodeExpr(fns, scopes, e.right, t + Tags(e.left) + 2), e.Or?, t,
               t + Tags(e.left), t + Tags(e));
  }

  lemma {:induction false} CallMarksIn(fns: Functions, scopes: Scopes<Local>, info: Info, arguments: seq<Expr>, t: nat)
    ensures MarksIn(CodeCall(fns, scopes, info, arguments, t), t, t + TagsAll(arguments))
    decreases arguments, 1
  {
    hide MarksIn, CallCode;
    ArgumentMarks(fns, scopes, arguments, info.parameters, t);
    CallMarks(info, CodeArguments(fns, scopes, arguments, info.parameters, t), t, t + TagsAll(arguments));
  }

  lemma {:induction false} ArgumentMarks(fns: Functions, scopes: Scopes<Local>, es: seq<Expr>, parameters: seq<Local>,
                                         t: nat)
    ensures MarksIn(CodeArguments(fns, scopes, es, parameters, t), t, t + TagsAll(es))
    decreases es, 0
  {
    hide MarksIn, CodeExpr;
    if es == [] || parameters == [] {
      MarklessIn([], t, t + TagsAll(es));
    } else {
      var (mid, hi) := (t + Tags(es[0]), t + TagsAll(es));
      var rest := CodeArguments(fns, scopes, es[1..], parameters[1..], mid);
      ExprMarks(fns, scopes, es[0], t);
      ArgumentMarks(fns, scopes, es[1..], parameters[1..], mid);
      MarklessJoin([Push(Wide(parameters[0].kind))], rest, mid, hi);
      MarksJoin(CodeExpr(fns, scopes, es[0], t), [Push(Wide(parameters[0].kind))] + rest, t, mid, hi);
    }
  }

  lemma IfMarks(condition: Code, a: Code, b: Code, lo: nat, other: nat, mid: nat, hi: nat)
    requires lo <= other && other + 2 <= mid <= hi
    requires MarksIn(condition, lo, other) && MarksIn(a, other + 2, mid) && MarksIn(b, mid, hi)
    ensures MarksIn(IfCode(condition, a, b, other), lo, hi)
  {
    assert MarksIn([Mark(other + 1)], other + 1, other + 2)
           && MarksIn([Jump(other + 1), Mark(other)], other, other + 1);
    hide MarksIn;
    var end, turn := [Mark(other + 1)], [Jump(other + 1), Mark(other)];
    // a + (turn + (b + end)): the two marks lie below both branches
    MarksSandwich(a, turn, b, end, other, mid, hi);
    MarklessJoin([JumpIfZero(other)], a + (turn + (b + end)), other, hi);
    MarksJoin(condition, [JumpIfZero(other)] + (a + (turn + (b + end))), lo, other, hi);
  }

  lemma MarksSandwich(a: Code, turn: Code, b: Code, end: Code, other: nat, mid: nat, hi: nat)
    requires other + 2 <= mid <= hi
    requires MarksIn(a, other + 2, mid) && MarksIn(b, mid, hi)
    requires MarksIn(turn, other, other + 1) && MarksIn(end, other + 1, other + 2)
    ensures MarksIn(a + (turn + (b + end)), other, hi)
  {
    var whole := a + (turn + (b + end));
    var (p, q, r) := (|a|, |a| + |turn|, |a| + |turn| + |b|);
    forall i | 0 <= i < |whole| && whole[i].Mark? ensures other <= whole[i].tag < hi {
      SandwichAt(a, turn, b, end, i);
    }
    forall i, j | 0 <= i < j < |whole| && whole[i].Mark? && whole[j].Mark? ensures whole[i].tag != whole[j].tag {
      SandwichAt(a, turn, b, end, i);
      SandwichAt(a, turn, b, end, j);
    }
  }

  lemma SandwichAt(a: Code, turn: Code, b: Code, end: Code, i: nat)
    requires i < |a + (turn + (b + end))|
    ensures var (p, q, r) := (|a|, |a| + |turn|, |a| + |turn| + |b|);
            (a + (turn + (b + end)))[i] == if i < p then a[i] else if i < q then turn[i - p] else if i < r then b[i - q]
                                           else end[i - r]
  {
  }

  lemma LoopMarks(condition: Code, body: Code, t: nat, mid: nat, hi: nat)
    requires t + 2 <= mid <= hi && MarksIn(condition, t + 2, mid) && MarksIn(body, mid, hi)
    ensures MarksIn(LoopCode(condition, body, t), t, hi)
  {
    assert MarksIn([Mark(t)], t, t + 1) && MarksIn([Jump(t), Mark(t + 1)], t + 1, t + 2);
    hide MarksIn;
    var tail := [Jump(t), Mark(t + 1)];
    MarksJoin(condition, body, t + 2, mid, hi);
    MarksJoin(condition + body, tail, t + 1, t + 2, hi);
    assert condition + (body + tail) == (condition + body) + tail;
    MarksJoin([Mark(t)], condition + (body + tail), t, t + 1, hi);
  }

  lemma {:induction false} StmtMarks(c: Context, s: Stmt, k: nat, t: nat)
    ensures MarksIn(CodeStmt(c, s, k, t), t, t + StmtTags(s))
    decreases s, 1
  {
    hide MarksIn, CodeExpr, CodeBlock, BlockTags, Tags, TagsAll, BlockLets, IfCode, LoopCode, CallCode, CodeCall,
         Lookup;
    match s
    case Let(_, _, e) =>
      ExprMarks(c.fns, c.scopes, e, t);
      MarklessJoin(CodeExpr(c.fns, c.scopes, e, t), if k < |c.frame| then [Save(c.frame[k])] else [], t, t + Tags(e));
    case Assign(x, kind, assigning, e) =>
      ExprMarks(c.fns, c.scopes, e, t);
      var found := Lookup(c.scopes, x);
      if found == [] { MarklessIn([], t, t + Tags(e)); } else {
        MarklessJoin(CodeExpr(c.fns, c.scopes, e, t), AssignCode([], found[0], kind, assigning), t, t + Tags(e));
        assert AssignCode(CodeExpr(c.fns, c.scopes, e, t), found[0], kind, assigning)
            == CodeExpr(c.fns, c.scopes, e, t) + AssignCode([], found[0], kind, assigning);
      }
    case Print(e, kind) =>
      ExprMarks(c.fns, c.scopes, e, t);
      MarklessJoin(CodeExpr(c.fns, c.scopes, e, t), [Show(kind)], t, t + Tags(e));
    case PrintText(_) => MarklessIn(CodeStmt(c, s, k, t), t, t);
    case Perform(f, arguments) =>
      if f in c.fns { CallMarksIn(c.fns, c.scopes, c.fns[f], arguments, t); }
      else { MarklessIn([], t, t + TagsAll(arguments)); }
    case If(_, _, _) => BranchMarks(c, s, k, t);
    case While(_, _) => RepeatMarks(c, s, k, t);
    case Loop(_) => RepeatMarks(c, s, k, t);
    case Break => MarklessIn(CodeStmt(c, s, k, t), t, t);
    case Continue => MarklessIn(CodeStmt(c, s, k, t), t, t);
    case Return(r) =>
      if c.main || r == [] {
        MarklessIn(CodeStmt(c, s, k, t), t, t + StmtTags(s));
      } else {
        ExprMarks(c.fns, c.scopes, r[0], t);
        MarklessJoin(CodeExpr(c.fns, c.scopes, r[0], t), [Ret], t, t + Tags(r[0]));
      }
  }

  lemma {:induction false} BranchMarks(c: Context, s: Stmt, k: nat, t: nat)
    requires s.If?
    ensures MarksIn(CodeStmt(c, s, k, t), t, t + StmtTags(s))
    decreases s, 0
  {
    hide MarksIn, CodeExpr, CodeBlock, BlockTags, Tags, BlockLets, IfCode;
    var (e, a, b, other) := (s.condition, s.thenBranch, s.elseBranch, t + Tags(s.condition));
    ExprMarks(c.fns, c.scopes, e, t);
    BlockMarks(Enter(c), a, k, other + 2);
    BlockMarks(Enter(c), b, k + |BlockLets(a)|, other + 2 + BlockTags(a));
    IfMarks(CodeExpr(c.fns, c.scopes, e, t), CodeBlock(Enter(c), a, k, other + 2),
            CodeBlock(Enter(c), b, k + |BlockLets(a)|, other + 2 + BlockTags(a)), t, other, other + 2 + BlockTags(a),
            t + StmtTags(s));
  }

  lemma {:induction false} RepeatMarks(c: Context, s: Stmt, k: nat, t: nat)
    requires s.While? || s.Loop?
    ensures MarksIn(CodeStmt(c, s, k, t), t, t + StmtTags(s))
    decreases s, 0
  {
    hide MarksIn, CodeExpr, CodeBlock, BlockTags, Tags, LoopCode;
    if s.While? {
      ExprMarks(c.fns, c.scopes, s.condition, t + 2);
      MarklessJoin(CodeExpr(c.fns, c.scopes, s.condition, t + 2), [JumpIfZero(t + 1)], t + 2,
                   t + 2 + Tags(s.condition));
      BlockMarks(Enter(InLoop(c, t)), s.body, k, t + 2 + Tags(s.condition));
      LoopMarks(CodeExpr(c.fns, c.scopes, s.condition, t + 2) + [JumpIfZero(t + 1)],
                CodeBlock(Enter(InLoop(c, t)), s.body, k, t + 2 + Tags(s.condition)), t, t + 2 + Tags(s.condition),
                t + StmtTags(s));
    } else {
      MarklessIn([], t + 2, t + 2);
      BlockMarks(Enter(InLoop(c, t)), s.body, k, t + 2);
      LoopMarks([], CodeBlock(Enter(InLoop(c, t)), s.body, k, t + 2), t, t + 2, t + StmtTags(s));
    }
  }

  lemma {:induction false} BlockMarks(c: Context, ss: seq<Stmt>, k: nat, t: nat)
    ensures MarksIn(CodeBlock(c, ss, k, t), t, t + BlockTags(ss))
    decreases ss, 0
  {
    hide MarksIn, CodeStmt, StmtTags;
    if ss == [] {
      MarklessIn([], t, t);
    } else {
      StmtMarks(c, ss[0], k, t);
      BlockMarks(After(c, ss[0], k), ss[1..], k + |StmtLets(ss[0])|, t + StmtTags(ss[0]));
      MarksJoin(CodeStmt(c, ss[0], k, t),
                CodeBlock(After(c, ss[0], k), ss[1..], k + |StmtLets(ss[0])|, t + StmtTags(ss[0])),
                t, t + StmtTags(ss[0]), t + BlockTags(ss));
    }
  }
}
