/**
 * Compile-time evaluation of constants and their substitution. What a scope stack knows about a name is
 * one map here: a block starts from the map around it, and that map is in force again behind it.
 */
module Folding {
  import opened Options
  import opened ConstantArithmetic
  import opened TextOrder
  import opened OrPatterns
  import Lexing

  // ----- programs -----

  /** The operators that take the values of their operands, from left to right. */
  datatype Operation =
    | Collect
    | Build(owner: string, names: seq<string>)
    | Member(field: string)
    | Negate | Not
    | Add | Subtract | Multiply | Divide | Modulo
    | EqualTo | NotEqual | Less | LessEqual | Greater | GreaterEqual
    | Index | Slice

  datatype Expr =
    | Number(magnitude: Magnitude)
    | Quote(text: string)
    | Letter(character: char)
    | Flag(truth: bool)
    | Name(name: string)
    | Operate(op: Operation, operands: seq<Expr>)
    | Both(left: Expr, right: Expr)
    | Either(left: Expr, right: Expr)
    | Choose(subject: Expr, arms: seq<Case>)
    | Call(callee: Expr, operands: seq<Expr>)

  datatype Case = Case(pattern: Pattern, guard: Option<Expr>, value: Expr)

  /** A missing `else` is an empty one. The span tells the constants of one function apart. */
  datatype Stmt =
    | Const(name: string, annotation: Option<string>, value: Expr, span: nat)
    | Bind(name: string, annotation: Option<string>, initial: Option<Expr>)
    | Assign(name: string, compound: Option<Operation>, value: Expr)
    | Store(target: Expr, compound: Option<Operation>, value: Expr)
    | Do(value: Expr)
    | Return(result: Option<Expr>)
    | If(condition: Expr, yes: seq<Stmt>, no: seq<Stmt>)
    | While(condition: Expr, body: seq<Stmt>)
    | For(name: string, start: Expr, end: Expr, inclusive: bool, body: seq<Stmt>)
    | Each(name: string, iterable: Expr, body: seq<Stmt>)
    | Loop(body: seq<Stmt>)
    | Unsafe(body: seq<Stmt>)
    | Break
    | Continue

  /** Methods are functions named after their implementation block. */
  datatype Function =
    Function(name: string, parameters: seq<string>, types: seq<string>, returning: Option<string>, body: seq<Stmt>,
             external: bool)

  // ----- operators on constants -----

  predicate Comparison(op: Operation)
  {
    op in {EqualTo, NotEqual, Less, LessEqual, Greater, GreaterEqual}
  }

  predicate Holds(op: Operation, o: Ordering)
    requires Comparison(op)
  {
    match op
    case EqualTo => o == Equal
    case NotEqual => o != Equal
    case Less => o == Lower
    case LessEqual => o != Higher
    case Greater => o == Higher
    case GreaterEqual => o != Lower
  }

  function Arithmetic(op: Operation, a: Signed, b: Signed): Option<Signed>
  {
    match op
    case Add => Sum(a, b)
    case Subtract => Sum(a, Opposite(b))
    case Multiply => Product(a, b)
    case Divide => Quotient(a, b)
    case Modulo => Remainder(a, b)
    case _ => None
  }

  function Truthful(b: bool): Value
  {
    Scalar(Truth(b))
  }

  function OnIntegers(op: Operation, a: int, b: int): Option<Value>
  {
    if !InRange(a) || !InRange(b) then None
    else if Comparison(op) then Some(Truthful(Holds(op, Compared(Represented(a), Represented(b)))))
    else match Arithmetic(op, Represented(a), Represented(b))
         case None => None
         case Some(i) => Some(Scalar(Integer(Denoted(i))))
  }

  function OnScalars(op: Operation, a: Literal, b: Literal): Option<Value>
  {
    if a.Integer? && b.Integer? then OnIntegers(op, a.value, b.value)
    else if a.Text? && b.Text? && op == Add then Some(Scalar(Text(a.text + b.text)))
    else if a.Text? && b.Text? && Comparison(op) then Some(Truthful(Holds(op, Order(a.text, b.text))))
    else if a.Character? && b.Character? && Comparison(op) then
      Some(Truthful(Holds(op, Natural(a.character as int, b.character as int))))
    else if a.Truth? && b.Truth? && op == EqualTo then Some(Truthful(a.truth == b.truth))
    else if a.Truth? && b.Truth? && op == NotEqual then Some(Truthful(a.truth != b.truth))
    else None
  }

  /** The fields of a record in the order they are given; the last of two with one name counts. */
  function Built(names: seq<string>, vs: seq<Value>): map<string, Value>
    requires |names| == |vs|
  {
    if names == [] then map[] else Built(names[..|names| - 1], vs[..|names| - 1])[names[|names| - 1] := vs[|names| - 1]]
  }

  /** The value of an operator applied to constants; nothing where evaluation reports an error. */
  function Fixed(op: Operation, vs: seq<Value>): Option<Value>
  {
    match op
    case Collect => Some(Sequence(vs))
    case Build(owner, names) => if |names| == |vs| then Some(Record(owner, Built(names, vs))) else None
    case Member(field) =>
      if |vs| == 1 && vs[0].Record? && field in vs[0].fields then Some(vs[0].fields[field]) else None
    case Negate =>
      if |vs| == 1 && vs[0].Scalar? && vs[0].literal.Integer? && InRange(vs[0].literal.value)
      then Some(Scalar(Integer(Denoted(Opposite(Represented(vs[0].literal.value)))))) else None
    case Not =>
      if |vs| == 1 && vs[0].Scalar? && vs[0].literal.Truth? then Some(Truthful(!vs[0].literal.truth)) else None
    case Index => None
    case Slice => None
    case _ => if |vs| == 2 && vs[0].Scalar? && vs[1].Scalar? then OnScalars(op, vs[0].literal, vs[1].literal) else None
  }

  // ----- constants as expressions -----

  /** What compile-time evaluation can produce. */
  predicate Constant(v: Value)
  {
    match v
    case Scalar(l) => l.Integer? ==> InRange(l.value)
    case Record(_, fields) => forall k :: k in fields ==> Constant(fields[k])
    case Sequence(items) => forall i :: 0 <= i < |items| ==> Constant(items[i])
    case _ => false
  }

  ghost function Reified(v: Value): Expr
    requires Constant(v)
    decreases v, 0
  {
    match v
    case Scalar(l) => ReifiedScalar(l)
    case Record(owner, fields) =>
      var names := Listed(fields.Keys);
      Operate(Build(owner, names), ReifiedFields(v, names))
    case Sequence(items) => Operate(Collect, seq(|items|, i requires 0 <= i < |items| => Reified(items[i])))
  }

  function ReifiedScalar(l: Literal): Expr
    requires l.Integer? ==> InRange(l.value)
  {
    match l
    case Integer(n) => if n < 0 then Operate(Negate, [Number(-n)]) else Number(n)
    case Text(t) => Quote(t)
    case Character(c) => Letter(c)
    case Truth(b) => Flag(b)
  }

  ghost function ReifiedFields(v: Value, names: seq<string>): (r: seq<Expr>)
    requires Constant(v) && v.Record? && (forall x :: x in names ==> x in v.fields)
    ensures |r| == |names|
    decreases v, 0, names
  {
    if names == [] then []
    else
      assert names[0] in names;
      [Reified(v.fields[names[0]])] + ReifiedFields(v, names[1..])
  }

  // ----- evaluation -----

  datatype Limits = Limits(steps: nat, depth: nat, nodes: nat, bytes: nat)

  /** What is known about a name: nothing about a variable, and its value for a constant. */
  type Static = map<string, Option<Value>>

  function Known(known: Static, x: string): Option<Value>
  {
    if x in known then known[x] else None
  }

  function Unknown(names: set<string>): Static
  {
    map x | x in names :: None
  }

  function Bound(b: Bindings): Static
  {
    map x | x in b :: Some(b[x])
  }

  /** The value of an expression and the steps used up to then; nothing after an error. */
  function Eval(l: Limits, known: Static, e: Expr, depth: nat, steps: nat): (r: Option<(Value, nat)>)
    decreases e, 1
  {
    if steps + 1 > l.steps || depth > l.depth then None else EvalInner(l, known, e, depth, steps + 1)
  }

  function EvalInner(l: Limits, known: Static, e: Expr, depth: nat, steps: nat): (r: Option<(Value, nat)>)
    decreases e, 0
  {
    match e
    case Number(n) => Some((Scalar(Integer(n)), steps))
    case Quote(t) => Some((Scalar(Text(t)), steps))
    case Letter(c) => Some((Scalar(Character(c)), steps))
    case Flag(b) => Some((Truthful(b), steps))
    case Name(x) => (match Known(known, x) case None => None case Some(v) => Some((v, steps)))
    case Operate(op, operands) =>
      (match EvalAll(l, known, operands, depth + 1, steps)
       case None => None
       case Some((vs, n)) => match Fixed(op, vs) case None => None case Some(v) => Some((v, n)))
    case Both(left, right) => EvalLogic(l, known, e, true, depth, steps)
    case Either(left, right) => EvalLogic(l, known, e, false, depth, steps)
    case Choose(subject, arms) =>
      (match Eval(l, known, subject, depth + 1, steps)
       case None => None
       case Some((v, n)) => EvalArms(l, known, v, arms, depth + 1, n))
    case Call(_, _) => None
  }

  function EvalLogic(l: Limits, known: Static, e: Expr, and: bool, depth: nat, steps: nat): (r: Option<(Value, nat)>)
    requires e.Both? || e.Either?
    decreases e, 0, 0
  {
    match Eval(l, known, e.left, depth + 1, steps)
    case None => None
    case Some((a, n)) =>
      if a == Truthful(!and) then Some((a, n))
      else match Eval(l, known, e.right, depth + 1, n)
           case None => None
           case Some((b, m)) => if a == Truthful(and) && b.Scalar? && b.literal.Truth? then Some((b, m)) else None
  }

  function EvalAll(l: Limits, known: Static, es: seq<Expr>, depth: nat, steps: nat): (r: Option<(seq<Value>, nat)>)
    ensures r.Some? ==> |r.value.0| == |es|
    decreases es, 0
  {
    if es == [] then Some(([], steps))
    else match Eval(l, known, es[0], depth, steps)
         case None => None
         case Some((v, n)) =>
           match EvalAll(l, known, es[1..], depth, n)
           case None => None
           case Some((vs, m)) => Some(([v] + vs, m))
  }

  /** Runs an arm whose pattern matched; no value if its guard fails. */
  function EvalArm(l: Limits, known: Static, arm: Case, depth: nat, steps: nat): (r: Option<(Option<Value>, nat)>)
    decreases arm, 1
  {
    match EvalGuard(l, known, arm, depth, steps)
    case None => None
    case Some((ok, n)) =>
      if !ok then Some((None, n))
      else match Eval(l, known, arm.value, depth, n)
           case None => None
           case Some((v, m)) => Some((Some(v), m))
  }

  function EvalGuard(l: Limits, known: Static, arm: Case, depth: nat, steps: nat): (r: Option<(bool, nat)>)
    decreases arm, 0
  {
    match arm.guard
    case None => Some((true, steps))
    case Some(g) =>
      match Eval(l, known, g, depth, steps) case None => None case Some((t, n)) => Some((t == Truthful(true), n))
  }

  function EvalArms(l: Limits, known: Static, v: Value, arms: seq<Case>, depth: nat, steps: nat)
    : (r: Option<(Value, nat)>)
    decreases arms, 0
  {
    if arms == [] then None
    else match Match(arms[0].pattern, v, map[])
         case None => EvalArms(l, known, v, arms[1..], depth, steps)
         case Some(b) =>
           match EvalArm(l, known + Bound(b), arms[0], depth, steps)
           case None => None
           case Some((None, n)) => EvalArms(l, known, v, arms[1..], depth, n)
           case Some((Some(r), n)) => Some((r, n))
  }

  // ----- the constants of a program -----

  const USIZE_MAX: nat := 0xFFFF_FFFF_FFFF_FFFF

  datatype Entry = Entry(home: string, name: string, span: nat, value: Value)

  datatype Progress = Progress(entries: seq<Entry>, steps: nat, nodes: nat, bytes: nat)

  ghost function Nodes(v: Value): nat
    decreases v, 0
  {
    match v
    case Sequence(items) => 1 + NodesOf(v, items)
    case Record(_, fields) => 1 + NodesIn(v, Listed(fields.Keys))
    case _ => 1
  }

  ghost function NodesOf(v: Value, items: seq<Value>): nat
    requires v.Sequence? && (forall x :: x in items ==> x in v.items)
    decreases v, 0, items
  {
    if items == [] then 0 else assert items[0] in items; Nodes(items[0]) + NodesOf(v, items[1..])
  }

  ghost function NodesIn(v: Value, names: seq<string>): nat
    requires v.Record? && (forall x :: x in names ==> x in v.fields)
    decreases v, 0, names
  {
    if names == [] then 0 else assert names[0] in names; Nodes(v.fields[names[0]]) + NodesIn(v, names[1..])
  }

  ghost function TextBytes(v: Value): nat
    decreases v, 0
  {
    match v
    case Scalar(l) => if l.Text? then Lexing.Utf8Length(l.text) else 0
    case Sequence(items) => TextBytesOf(v, items)
    case Record(_, fields) => TextBytesIn(v, Listed(fields.Keys))
    case _ => 0
  }

  ghost function TextBytesOf(v: Value, items: seq<Value>): nat
    requires v.Sequence? && (forall x :: x in items ==> x in v.items)
    decreases v, 0, items
  {
    if items == [] then 0 else assert items[0] in items; TextBytes(items[0]) + TextBytesOf(v, items[1..])
  }

  ghost function TextBytesIn(v: Value, names: seq<string>): nat
    requires v.Record? && (forall x :: x in names ==> x in v.fields)
    decreases v, 0, names
  {
    if names == [] then 0 else assert names[0] in names; TextBytes(v.fields[names[0]]) + TextBytesIn(v, names[1..])
  }

  /** A saturating total is over a limit only if the limit can be exceeded. */
  predicate Over(total: nat, limit: nat)
  {
    total > limit && limit < USIZE_MAX
  }

  ghost function Charged(l: Limits, p: Progress, entry: Entry): Option<Progress>
  {
    var (nodes, bytes) := (p.nodes + Nodes(entry.value), p.bytes + TextBytes(entry.value));
    if Over(nodes, l.nodes) || Over(bytes, l.bytes) then None
    else Some(Progress(p.entries + [entry], p.steps, nodes, bytes))
  }

  ghost function VisitStmt(l: Limits, f: string, known: Static, s: Stmt, p: Progress): (r: Option<(Static, Progress)>)
    decreases s, 1
  {
    match s
    case Const(x, _, value, span) =>
      (match Eval(l, known, value, 0, p.steps)
       case None => None
       case Some((v, n)) =>
         match Charged(l, p.(steps := n), Entry(f, x, span, v))
         case None => None
         case Some(q) => Some((known[x := Some(v)], q)))
    case Bind(x, _, _) => Some((known[x := None], p))
    case If(_, yes, no) =>
      (match VisitBlock(l, f, known, yes, p)
       case None => None
       case Some(q) => match VisitBlock(l, f, known, no, q) case None => None case Some(r) => Some((known, r)))
    case While(_, body) => (match VisitBlock(l, f, known, body, p) case None => None case Some(q) => Some((known, q)))
    case For(x, _, _, _, body) =>
      (match VisitBlock(l, f, known[x := None], body, p) case None => None case Some(q) => Some((known, q)))
    case Each(x, _, body) =>
      (match VisitBlock(l, f, known[x := None], body, p) case None => None case Some(q) => Some((known, q)))
    case Loop(body) => (match VisitBlock(l, f, known, body, p) case None => None case Some(q) => Some((known, q)))
    case Unsafe(body) => (match VisitBlock(l, f, known, body, p) case None => None case Some(q) => Some((known, q)))
    case _ => Some((known, p))
  }

  ghost function VisitAll(l: Limits, f: string, known: Static, ss: seq<Stmt>,
                          p: Progress): (r: Option<(Static, Progress)>)
    decreases ss, 0
  {
    if ss == [] then Some((known, p))
    else match VisitStmt(l, f, known, ss[0], p)
         case None => None
         case Some((t, q)) => VisitAll(l, f, t, ss[1..], q)
  }

  ghost function VisitBlock(l: Limits, f: string, known: Static, ss: seq<Stmt>, p: Progress): (r: Option<Progress>)
    decreases ss, 1
  {
    match VisitAll(l, f, known, ss, p) case None => None case Some((_, q)) => Some(q)
  }

  function Parameters(f: Function): Static
  {
    Unknown(set x | x in f.parameters)
  }

  ghost function Visit(l: Limits, fs: seq<Function>, p: Progress): Option<Progress>
  {
    if fs == [] then Some(p)
    else if fs[0].external then Visit(l, fs[1..], p)
    else match VisitBlock(l, fs[0].name, Parameters(fs[0]), fs[0].body, p)
         case None => None
         case Some(q) => Visit(l, fs[1..], q)
  }

  /** All constants of a program with their values; nothing after an error. */
  ghost function Evaluate(l: Limits, fs: seq<Function>): Option<seq<Entry>>
  {
    match Visit(l, fs, Progress([], 0, 0, 0)) case None => None case Some(p) => Some(p.entries)
  }

  // ----- folding -----

  /** The first constant of that function, name and span. */
  function Found(entries: seq<Entry>, f: string, x: string, span: nat): Option<Value>
  {
    if entries == [] then None
    else if entries[0].home == f && entries[0].name == x && entries[0].span == span then Some(entries[0].value)
    else Found(entries[1..], f, x, span)
  }

  /** The names a pattern binds, read off the first alternative. */
  function FirstNames(p: Pattern): set<string>
    decreases p, 1
  {
    match p
    case Binding(x) => {x}
    case Or(alternatives) => if alternatives == [] then {} else FirstNames(alternatives[0])
    case Struct(_, _, patterns, _) => FirstNamesAll(patterns)
    case Variant(_, _, arguments) => FirstNamesAll(arguments)
    case _ => {}
  }

  function FirstNamesAll(ps: seq<Pattern>): set<string>
    decreases ps, 0
  {
    if ps == [] then {} else FirstNamesAll(ps[..|ps| - 1]) + FirstNames(ps[|ps| - 1])
  }

  predicate Sure(known: Static)
  {
    forall x :: x in known && known[x].Some? ==> Constant(known[x].value)
  }

  lemma SureHidden(known: Static, names: set<string>)
    requires Sure(known)
    ensures Sure(known + Unknown(names))
  {
  }

  ghost function FoldExpr(known: Static, e: Expr): (r: Expr)
    requires Sure(known)
    decreases e, 1
  {
    match e
    case Name(x) => if Known(known, x).Some? then Reified(Known(known, x).value) else e
    case Operate(op, operands) => Operate(op, FoldExprs(known, operands))
    case Both(left, right) => Both(FoldExpr(known, left), FoldExpr(known, right))
    case Either(left, right) => Either(FoldExpr(known, left), FoldExpr(known, right))
    case Choose(subject, arms) => Choose(FoldExpr(known, subject), FoldArms(known, arms))
    case Call(callee, operands) => Call(FoldExpr(known, callee), FoldExprs(known, operands))
    case _ => e
  }

  ghost function FoldExprs(known: Static, es: seq<Expr>): (r: seq<Expr>)
    requires Sure(known)
    ensures |r| == |es|
    decreases es, 0
  {
    if es == [] then [] else [FoldExpr(known, es[0])] + FoldExprs(known, es[1..])
  }

  ghost function FoldArm(known: Static, arm: Case): (r: Case)
    requires Sure(known)
    decreases arm, 0
  {
    var names := FirstNames(arm.pattern);
    SureHidden(known, names);
    var guard := match arm.guard case None => None case Some(g) => Some(FoldExpr(known + Unknown(names), g));
    Case(arm.pattern, guard, FoldExpr(known + Unknown(names), arm.value))
  }

  ghost function FoldArms(known: Static, arms: seq<Case>): (r: seq<Case>)
    requires Sure(known)
    ensures |r| == |arms|
    decreases arms, 0
  {
    if arms == [] then [] else [FoldArm(known, arms[0])] + FoldArms(known, arms[1..])
  }

  ghost predicate Recorded(entries: seq<Entry>)
  {
    forall i :: 0 <= i < |entries| ==> Constant(entries[i].value)
  }

  lemma {:induction false} FoundRecorded(entries: seq<Entry>, f: string, x: string, span: nat)
    requires Recorded(entries)
    ensures Found(entries, f, x, span).Some? ==> Constant(Found(entries, f, x, span).value)
    decreases entries
  {
    if entries != [] {
      FoundRecorded(entries[1..], f, x, span);
    }
  }

  /** What is known after a statement. */
  function After(entries: seq<Entry>, f: string, known: Static, s: Stmt): Static
  {
    match s
    case Const(x, _, _, span) => known[x := Found(entries, f, x, span)]
    case Bind(x, _, _) => known[x := None]
    case _ => known
  }

  lemma AfterSure(entries: seq<Entry>, f: string, known: Static, s: Stmt)
    requires Sure(known) && Recorded(entries)
    ensures Sure(After(entries, f, known, s))
  {
    if s.Const? {
      FoundRecorded(entries, f, s.name, s.span);
    }
  }

  ghost function FoldInitial(known: Static, initial: Option<Expr>): Option<Expr>
    requires Sure(known)
  {
    match initial case None => None case Some(e) => Some(FoldExpr(known, e))
  }

  ghost function FoldStmt(entries: seq<Entry>, f: string, known: Static, s: Stmt): (r: Stmt)
    requires Sure(known) && Recorded(entries)
    decreases s, 1
  {
    match s
    case Const(x, annotation, value, span) =>
      FoundRecorded(entries, f, x, span);
      (match Found(entries, f, x, span)
       case None => Const(x, annotation, FoldExpr(known, value), span)
       case Some(v) => Const(x, annotation, Reified(v), span))
    case Bind(x, annotation, initial) => Bind(x, annotation, FoldInitial(known, initial))
    case Assign(x, compound, value) => Assign(x, compound, FoldExpr(known, value))
    case Store(target, compound, value) => Store(FoldExpr(known, target), compound, FoldExpr(known, value))
    case Do(value) => Do(FoldExpr(known, value))
    case Return(result) => Return(FoldInitial(known, result))
    case If(condition, yes, no) =>
      If(FoldExpr(known, condition), FoldAll(entries, f, known, yes), FoldAll(entries, f, known, no))
    case While(condition, body) => While(FoldExpr(known, condition), FoldAll(entries, f, known, body))
    case For(x, start, end, inclusive, body) =>
      For(x, FoldExpr(known, start), FoldExpr(known, end), inclusive, FoldAll(entries, f, known[x := None], body))
    case Each(x, iterable, body) => Each(x, FoldExpr(known, iterable), FoldAll(entries, f, known[x := None], body))
    case Loop(body) => Loop(FoldAll(entries, f, known, body))
    case Unsafe(body) => Unsafe(FoldAll(entries, f, known, body))
    case Break => s
    case Continue => s
  }

  ghost function FoldAll(entries: seq<Entry>, f: string, known: Static, ss: seq<Stmt>): (r: seq<Stmt>)
    requires Sure(known) && Recorded(entries)
    ensures |r| == |ss|
    decreases ss, 0
  {
    if ss == [] then []
    else
      AfterSure(entries, f, known, ss[0]);
      [FoldStmt(entries, f, known, ss[0])] + FoldAll(entries, f, After(entries, f, known, ss[0]), ss[1..])
  }

  ghost function FoldFunction(entries: seq<Entry>, f: Function): Function
    requires Recorded(entries)
  {
    if f.external then f else f.(body := FoldAll(entries, f.name, Parameters(f), f.body))
  }

  /** The program with every use of a constant replaced by its value. */
  ghost function Fold(entries: seq<Entry>, fs: seq<Function>): (r: seq<Function>)
    requires Recorded(entries)
    ensures |r| == |fs|
  {
    if fs == [] then [] else [FoldFunction(entries, fs[0])] + Fold(entries, fs[1..])
  }
}
