/**
 * The freestanding source language and its meaning: every activation has its own fresh locals, and
 * arithmetic is checked. Expressions carry the kind their operands were given.
 */
module Source {
  import opened Kinds

  datatype Expr =
    | Literal(value: nat, kind: Kind)
    | Truth(truth: bool)
    | Variable(name: string)
    | Not(operand: Expr)
    | Negate(operand: Expr)
    | Arithmetic(op: Operator, kind: Kind, left: Expr, right: Expr)
    | Compare(comparison: Comparison, kind: Kind, left: Expr, right: Expr)
    | And(left: Expr, right: Expr)
    | Or(left: Expr, right: Expr)
    | Call(callee: string, arguments: seq<Expr>)

  datatype Assigning = Plain | Compound(op: Operator)

  datatype Stmt =
    | Let(name: string, kind: Kind, value: Expr)
    | Assign(name: string, kind: Kind, assigning: Assigning, value: Expr)
    | Print(value: Expr, kind: Kind)
    | PrintText(text: string)
    | Perform(callee: string, arguments: seq<Expr>)
    | If(condition: Expr, thenBranch: seq<Stmt>, elseBranch: seq<Stmt>)
    | While(condition: Expr, body: seq<Stmt>)
    | Loop(body: seq<Stmt>)
    | Break
    | Continue
    | Return(result: seq<Expr>)

  datatype Parameter = Parameter(name: string, kind: Kind)

  datatype Returning = Unit | Scalar(kind: Kind)

  datatype Function = Function(name: string, parameters: seq<Parameter>, returning: Returning, body: seq<Stmt>)

  type Program = map<string, Function>

  datatype Printed = Number(kind: Kind, value: int) | Text(text: string)

  type Output = seq<Printed>

  /** Nested scopes, innermost last. */
  type Scopes<T> = seq<map<string, T>>

  function Lookup<T>(scopes: Scopes<T>, name: string): seq<T>
  {
    if scopes == [] then []
    else if name in scopes[|scopes| - 1] then [scopes[|scopes| - 1][name]]
    else Lookup(scopes[..|scopes| - 1], name)
  }

  /** Declares a name in the innermost scope. */
  function Declare<T>(scopes: Scopes<T>, name: string, value: T): (r: Scopes<T>)
    requires scopes != []
    ensures |r| == |scopes|
  {
    scopes[|scopes| - 1 := scopes[|scopes| - 1][name := value]]
  }

  /** Assigns the innermost declaration of a name. */
  function Update<T>(scopes: Scopes<T>, name: string, value: T): (r: Scopes<T>)
    ensures |r| == |scopes|
  {
    if scopes == [] then []
    else if name in scopes[|scopes| - 1] then Declare(scopes, name, value)
    else Update(scopes[..|scopes| - 1], name, value) + [scopes[|scopes| - 1]]
  }

  type Environment = Scopes<int>

  // ----- results, each with what was printed on the way -----

  datatype Valued = Value(value: int, out: Output) | Wrong(out: Output) | Timeout(out: Output)

  datatype Listed = Values(values: seq<int>, out: Output) | WrongList(out: Output) | TimeoutList(out: Output)

  /** How a statement ends: falling through, leaving or restarting a loop, returning, failing. */
  datatype Ended =
    | Normal(env: Environment, out: Output)
    | Broke(env: Environment, out: Output)
    | Continued(env: Environment, out: Output)
    | Returned(result: seq<int>, out: Output)
    | Failed(out: Output)
    | OutOfTime(out: Output)

  function Before(out: Output, r: Valued): Valued
  {
    match r
    case Value(v, o) => Value(v, out + o)
    case Wrong(o) => Wrong(out + o)
    case Timeout(o) => Timeout(out + o)
  }

  function Then(out: Output, e: Ended): Ended
  {
    match e
    case Normal(env, o) => Normal(env, out + o)
    case Broke(env, o) => Broke(env, out + o)
    case Continued(env, o) => Continued(env, out + o)
    case Returned(v, o) => Returned(v, out + o)
    case Failed(o) => Failed(out + o)
    case OutOfTime(o) => OutOfTime(out + o)
  }

  /** Leaving a block drops its scope. */
  function Leave(e: Ended): Ended
  {
    match e
    case Normal(env, o) => if env == [] then e else Normal(env[..|env| - 1], o)
    case Broke(env, o) => if env == [] then e else Broke(env[..|env| - 1], o)
    case Continued(env, o) => if env == [] then e else Continued(env[..|env| - 1], o)
    case _ => e
  }

  function Numeral(b: bool): int
  {
    if b then 1 else 0
  }

  // ----- evaluation; `fuel` bounds calls and loop iterations -----

  function Eval(p: Program, fuel: nat, e: Expr, env: Environment): Valued
    decreases fuel, e, 1
  {
    match e
    case Literal(v, _) => Value(v, [])
    case Truth(b) => Value(Numeral(b), [])
    case Variable(x) => var found := Lookup(env, x); if found == [] then Wrong([]) else Value(found[0], [])
    case Not(a) =>
      (match Eval(p, fuel, a, env)
       case Value(v, o) => Value(1 - v, o)
       case other => other)
    case Negate(a) =>
      if a.Literal? && a.value == TWO_31 then Value(-TWO_31, []) else
      (match Eval(p, fuel, a, env)
       case Value(v, o) => if InRange(I32, -v) then Value(-v, o) else Wrong(o)
       case other => other)
    case Arithmetic(op, k, a, b) =>
      (match Eval(p, fuel, a, env)
       case Value(x, o) =>
         (match Eval(p, fuel, b, env)
          case Value(y, o') =>
            (match Checked(op, k, x, y)
             case Fits(v) => Value(v, o + o')
             case NoFit => Wrong(o + o'))
          case other => Before(o, other))
       case other => other)
    case Compare(c, _, a, b) =>
      (match Eval(p, fuel, a, env)
       case Value(x, o) =>
         (match Eval(p, fuel, b, env)
          case Value(y, o') => Value(Numeral(Holds(c, x, y)), o + o')
          case other => Before(o, other))
       case other => other)
    case And(a, b) =>
      (match Eval(p, fuel, a, env)
       case Value(x, o) => if x == 0 then Value(0, o) else Before(o, Eval(p, fuel, b, env))
       case other => other)
    case Or(a, b) =>
      (match Eval(p, fuel, a, env)
       case Value(x, o) => if x != 0 then Value(1, o) else Before(o, Eval(p, fuel, b, env))
       case other => other)
    case Call(f, arguments) =>
      match Invoke(p, fuel, f, arguments, env)
      case Values(vs, o) => if |vs| == 1 then Value(vs[0], o) else Wrong(o)
      case WrongList(o) => Wrong(o)
      case TimeoutList(o) => Timeout(o)
  }

  /** Arguments are evaluated from left to right. */
  function EvalAll(p: Program, fuel: nat, es: seq<Expr>, env: Environment): Listed
    decreases fuel, es, 0
  {
    if es == [] then Values([], [])
    else
      match Eval(p, fuel, es[0], env)
      case Wrong(o) => WrongList(o)
      case Timeout(o) => TimeoutList(o)
      case Value(v, o) =>
        match EvalAll(p, fuel, es[1..], env)
        case WrongList(o') => WrongList(o + o')
        case TimeoutList(o') => TimeoutList(o + o')
        case Values(vs, o') => Values([v] + vs, o + o')
  }

  function Bind(parameters: seq<Parameter>, values: seq<int>): map<string, int>
    requires |parameters| == |values|
  {
    if parameters == [] then map[]
    else Bind(parameters[..|parameters| - 1],
              values[..|values| - 1])[parameters[|parameters| - 1].name := values[|values| - 1]]
  }

  /** A call: a result list of one value, or none for a function that returns nothing. */
  function Invoke(p: Program, fuel: nat, f: string, arguments: seq<Expr>, env: Environment): Listed
    decreases fuel, arguments, 1
  {
    match EvalAll(p, fuel, arguments, env)
    case WrongList(o) => WrongList(o)
    case TimeoutList(o) => TimeoutList(o)
    case Values(vs, o) =>
      if f !in p || |p[f].parameters| != |vs| then WrongList(o)
      else if fuel == 0 then TimeoutList(o)
      else
        match Activate(p, fuel - 1, p[f], vs)
        case Values(r, o') => Values(r, o + o')
        case WrongList(o') => WrongList(o + o')
        case TimeoutList(o') => TimeoutList(o + o')
  }

  /** One activation: fresh locals holding only the parameters. */
  function Activate(p: Program, fuel: nat, f: Function, values: seq<int>): Listed
    requires |f.parameters| == |values|
    decreases fuel, f.body, 2
  {
    match ExecBlock(p, fuel, f.body, [Bind(f.parameters, values)])
    case Returned(r, o) => Values(r, o)
    case Normal(_, o) => if f.returning.Unit? then Values([], o) else WrongList(o)
    case Broke(_, o) => WrongList(o)
    case Continued(_, o) => WrongList(o)
    case Failed(o) => WrongList(o)
    case OutOfTime(o) => TimeoutList(o)
  }

  function ExecBlock(p: Program, fuel: nat, ss: seq<Stmt>, env: Environment): Ended
    decreases fuel, ss, 1
  {
    Leave(ExecAll(p, fuel, ss, env + [map[]]))
  }

  function ExecAll(p: Program, fuel: nat, ss: seq<Stmt>, env: Environment): Ended
    decreases fuel, ss, 0
  {
    if ss == [] then Normal(env, [])
    else
      match Exec(p, fuel, ss[0], env)
      case Normal(env', o) => Then(o, ExecAll(p, fuel, ss[1..], env'))
      case other => other
  }

  function Exec(p: Program, fuel: nat, s: Stmt, env: Environment): Ended
    decreases fuel, s, 1
  {
    match s
    case Let(x, k, e) =>
      (match Eval(p, fuel, e, env)
       case Value(v, o) => if env == [] then Failed(o) else Normal(Declare(env, x, v), o)
       case Wrong(o) => Failed(o)
       case Timeout(o) => OutOfTime(o))
    case Assign(x, k, assigning, e) =>
      (match Eval(p, fuel, e, env)
       case Value(v, o) =>
         (match Assigned(env, x, k, assigning, v)
          case Fits(w) => Normal(Update(env, x, w), o)
          case NoFit => Failed(o))
       case Wrong(o) => Failed(o)
       case Timeout(o) => OutOfTime(o))
    case Print(e, k) =>
      (match Eval(p, fuel, e, env)
       case Value(v, o) => Normal(env, o + [Number(k, v)])
       case Wrong(o) => Failed(o)
       case Timeout(o) => OutOfTime(o))
    case PrintText(t) => Normal(env, [Text(t)])
    case Perform(f, arguments) =>
      (match Invoke(p, fuel, f, arguments, env)
       case Values(_, o) => Normal(env, o)
       case WrongList(o) => Failed(o)
       case TimeoutList(o) => OutOfTime(o))
    case If(c, a, b) =>
      (match Eval(p, fuel, c, env)
       case Value(v, o) => Then(o, ExecBlock(p, fuel, if v != 0 then a else b, env))
       case Wrong(o) => Failed(o)
       case Timeout(o) => OutOfTime(o))
    case While(c, body) => ExecLoop(p, fuel, [c], body, env)
    case Loop(body) => ExecLoop(p, fuel, [], body, env)
    case Break => Broke(env, [])
    case Continue => Continued(env, [])
    case Return(result) =>
      if result == [] then Returned([], []) else
      match Eval(p, fuel, result[0], env)
      case Value(v, o) => Returned([v], o)
      case Wrong(o) => Failed(o)
      case Timeout(o) => OutOfTime(o)
  }

  /** The value an assignment stores; a compound one combines it with the variable's own. */
  function Assigned(env: Environment, x: string, k: Kind, assigning: Assigning, v: int): Fitted
  {
    match assigning
    case Plain => Fits(v)
    case Compound(op) => var found := Lookup(env, x); if found == [] then NoFit else Checked(op, k, found[0], v)
  }

  /** A loop with a condition, or an endless one; each iteration costs one unit of fuel. */
  function ExecLoop(p: Program, fuel: nat, condition: seq<Expr>, body: seq<Stmt>, env: Environment): Ended
    decreases fuel, body, 3
  {
    if fuel == 0 then OutOfTime([])
    else
      match (if condition == [] then Value(1, []) else Eval(p, fuel - 1, condition[0], env))
      case Wrong(o) => Failed(o)
      case Timeout(o) => OutOfTime(o)
      case Value(v, o) =>
        if v == 0 then Normal(env, o) else
        match ExecBlock(p, fuel - 1, body, env)
        case Normal(env', o') => Then(o + o', ExecLoop(p, fuel - 1, condition, body, env'))
        case Continued(env', o') => Then(o + o', ExecLoop(p, fuel - 1, condition, body, env'))
        case Broke(env', o') => Normal(env', o + o')
        case other => Then(o, other)
  }

  /** A whole program: run `main` until it falls through or returns. */
  datatype Behaviour = Finished(out: Output) | Trapped(out: Output) | Unfinished(out: Output)

  function RunProgram(p: Program, fuel: nat): Behaviour
    requires "main" in p
  {
    match ExecBlock(p, fuel, p["main"].body, [map[]])
    case Normal(_, o) => Finished(o)
    case Returned(_, o) => Finished(o)
    case Broke(_, o) => Trapped(o)
    case Continued(_, o) => Trapped(o)
    case Failed(o) => Trapped(o)
    case OutOfTime(o) => Unfinished(o)
  }
}
