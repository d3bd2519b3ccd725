/**
 * Running programs. Integers, scalars, arrays and records are computed here; a host computes with the other
 * values and holds the state of the world. Fuel bounds the iterations and calls of a run, so a run without
 * end is the sequence of its bounded runs.
 */
module FoldingRuns {
  import opened Options
  import opened OrPatterns
  import opened Folding
  import opened RuntimeIntegers

  datatype Reply<+W> = Got(value: Value, world: W) | Trap(world: W) | Spent

  /** A step from a variable into the value it holds. */
  datatype Step = Field(field: string) | Element(index: Value) | Range(from: Value, to: Value)

  /** The declared types of the fields of structs. */
  type Fields = (string, string) -> Option<string>

  datatype Host<!W> = Host(
    fields: Fields,
    apply: (Operation, seq<Value>, W) -> Reply<W>,
    call: (Value, seq<Value>, W) -> Reply<W>,
    target: (Value, seq<Value>) -> Option<(string, seq<Value>)>,
    external: (string, seq<Value>, W) -> Reply<W>,
    global: string -> Option<Value>,
    coerce: (Value, string) -> Option<Value>,
    resemble: (Value, Value) -> Option<Value>,
    read: (Value, seq<Step>) -> Option<Value>,
    write: (Value, seq<Step>, Value) -> Option<Value>,
    items: Value -> Option<seq<Value>>)

  /** The scopes of one activation, the innermost last. */
  type Env = seq<Bindings>

  datatype Flow<+W> =
    | Next(env: Env, world: W)
    | Broken(env: Env, world: W)
    | Continued(env: Env, world: W)
    | Returned(value: Value, world: W)
    | Fault(world: W)
    | Halted

  /** The value of a function that returns none, and of a variable that has none yet. */
  const UNIT: Value := Opaque(1)

  const UNINITIALIZED: Value := Opaque(0)

  function Find(env: Env, x: string): Option<Value>
  {
    if env == [] then None
    else if x in env[|env| - 1] then Some(env[|env| - 1][x])
    else Find(env[..|env| - 1], x)
  }

  /** Changes the innermost variable of that name. */
  function Update(env: Env, x: string, v: Value): (r: Env)
    ensures |r| == |env|
  {
    if env == [] then []
    else
      var n := |env| - 1;
      if x in env[n] then env[n := env[n][x := v]] else Update(env[..n], x, v) + [env[n]]
  }

  function Declare(env: Env, x: string, v: Value): (r: Env)
    ensures |r| == |env|
  {
    if env == [] then [] else env[|env| - 1 := env[|env| - 1][x := v]]
  }

  // ----- types and operators -----

  /** Conversions from and to floating-point numbers are the host's. */
  predicate Hosted(v: Value, name: string)
  {
    v.Opaque? || (v.Whole? && Floating(name))
  }

  function Coerced<W>(h: Host<W>, annotation: Option<string>, v: Value): Option<Value>
  {
    match annotation
    case None => Some(v)
    case Some(t) => if Hosted(v, t) then h.coerce(v, t) else Retagged(v, t)
  }

  /** Every value in the type given for its position; positions beyond the types are free. */
  function CoercedAll<W>(h: Host<W>, types: seq<Option<string>>, vs: seq<Value>): (r: Option<seq<Value>>)
    requires |types| == |vs|
    ensures r.Some? ==> |r.value| == |vs|
  {
    if vs == [] then Some([])
    else
      var n := |vs| - 1;
      match CoercedAll(h, types[..n], vs[..n])
      case None => None
      case Some(rest) => match Coerced(h, types[n], vs[n]) case None => None case Some(v) => Some(rest + [v])
  }

  /** A new value for a variable, in the type of the value it has. */
  function Resembling<W>(h: Host<W>, v: Value, like: Value): Option<Value>
  {
    if v.Whole? && like.Whole? then Retag(v, like.tag) else h.resemble(v, like)
  }

  function FieldTypes(d: Fields, owner: string, names: seq<string>): (r: seq<Option<string>>)
    ensures |r| == |names| && forall i :: 0 <= i < |r| ==> r[i] == d(owner, names[i])
  {
    seq(|names|, i requires 0 <= i < |names| => d(owner, names[i]))
  }

  function Replied<W>(r: Option<Value>, w: W): Reply<W>
  {
    match r case None => Trap(w) case Some(v) => Got(v, w)
  }

  predicate Plainly(v: Value)
  {
    v.Scalar? || v.Whole?
  }

  /** The operators of a running program. */
  function Applied<W>(h: Host<W>, op: Operation, vs: seq<Value>, w: W): Reply<W>
  {
    match op
    case Collect => Got(Sequence(vs), w)
    case Build(owner, names) =>
      if |names| != |vs| then Trap(w)
      else (match CoercedAll(h, FieldTypes(h.fields, owner, names), vs)
            case None => Trap(w)
            case Some(us) => Got(Record(owner, Built(names, us)), w))
    case Member(field) =>
      if |vs| == 1 && vs[0].Record? && field in vs[0].fields then Got(vs[0].fields[field], w) else h.apply(op, vs, w)
    case Negate => if |vs| == 1 && vs[0].Whole? then Replied(Negated(vs[0]), w) else h.apply(op, vs, w)
    case Not =>
      if |vs| == 1 && vs[0].Scalar? && vs[0].literal.Truth? then Got(Truthful(!vs[0].literal.truth), w)
      else h.apply(op, vs, w)
    case Index => h.apply(op, vs, w)
    case Slice => h.apply(op, vs, w)
    case _ =>
      if |vs| == 2 && Plainly(vs[0]) && Plainly(vs[1]) then Replied(OnPlain(op, vs[0], vs[1]), w)
      else h.apply(op, vs, w)
  }

  // ----- expressions -----

  function RunExpr<W>(h: Host<W>, fs: seq<Function>, fuel: nat, e: Expr, env: Env, w: W): Reply<W>
    decreases fuel, 1, e, 1
  {
    match e
    case Number(n) => Got(Literally(n), w)
    case Quote(t) => Got(Scalar(Text(t)), w)
    case Letter(c) => Got(Scalar(Character(c)), w)
    case Flag(b) => Got(Truthful(b), w)
    case Name(x) =>
      (match Find(env, x)
       case Some(v) => Got(v, w)
       case None => match h.global(x) case None => Trap(w) case Some(v) => Got(v, w))
    case Operate(op, operands) =>
      (match RunAll(h, fs, fuel, operands, env, w)
       case Got(vs, u) => Applied(h, op, vs.items, u)
       case other => other)
    case Both(_, _) => RunLogic(h, fs, fuel, e, true, env, w)
    case Either(_, _) => RunLogic(h, fs, fuel, e, false, env, w)
    case Choose(subject, arms) =>
      (match RunExpr(h, fs, fuel, subject, env, w)
       case Got(v, u) => RunArms(h, fs, fuel, v, arms, env, u)
       case other => other)
    case Call(callee, operands) => RunCall(h, fs, fuel, e, env, w)
  }

  function RunLogic<W>(h: Host<W>, fs: seq<Function>, fuel: nat, e: Expr, and: bool, env: Env, w: W): Reply<W>
    requires e.Both? || e.Either?
    decreases fuel, 1, e, 0
  {
    match RunExpr(h, fs, fuel, e.left, env, w)
    case Got(a, u) =>
      if a == Truthful(!and) then Got(a, u)
      else if a != Truthful(and) then Trap(u)
      else (match RunExpr(h, fs, fuel, e.right, env, u)
            case Got(b, x) => if b.Scalar? && b.literal.Truth? then Got(b, x) else Trap(x)
            case other => other)
    case other => other
  }

  /** The values of the operands, in a sequence. */
  function RunAll<W>(h: Host<W>, fs: seq<Function>, fuel: nat, es: seq<Expr>, env: Env, w: W): (r: Reply<W>)
    ensures r.Got? ==> r.value.Sequence? && |r.value.items| == |es|
    decreases fuel, 1, es, 0
  {
    if es == [] then Got(Sequence([]), w)
    else match RunExpr(h, fs, fuel, es[0], env, w)
         case Got(v, u) =>
           (match RunAll(h, fs, fuel, es[1..], env, u)
            case Got(vs, x) => Got(Sequence([v] + vs.items), x)
            case other => other)
         case other => other
  }

  function RunArms<W>(h: Host<W>, fs: seq<Function>, fuel: nat, v: Value, arms: seq<Case>, env: Env, w: W): Reply<W>
    decreases fuel, 1, arms, 0
  {
    if arms == [] then Trap(w)
    else match Match(arms[0].pattern, v, map[])
         case None => RunArms(h, fs, fuel, v, arms[1..], env, w)
         case Some(b) =>
           match RunGuard(h, fs, fuel, arms[0], env + [b], w)
           case Got(t, u) =>
             if t == Truthful(true) then RunBody(h, fs, fuel, arms[0], env + [b], u)
             else if t == Truthful(false) then RunArms(h, fs, fuel, v, arms[1..], env, u)
             else Trap(u)
           case other => other
  }

  function RunGuard<W>(h: Host<W>, fs: seq<Function>, fuel: nat, arm: Case, env: Env, w: W): Reply<W>
    decreases fuel, 1, arm, 0
  {
    match arm.guard case None => Got(Truthful(true), w) case Some(g) => RunExpr(h, fs, fuel, g, env, w)
  }

  function RunBody<W>(h: Host<W>, fs: seq<Function>, fuel: nat, arm: Case, env: Env, w: W): Reply<W>
    decreases fuel, 1, arm, 0
  {
    RunExpr(h, fs, fuel, arm.value, env, w)
  }

  /** A name that is no variable calls a function; anything else is a value to call. */
  function RunCall<W>(h: Host<W>, fs: seq<Function>, fuel: nat, e: Expr, env: Env, w: W): Reply<W>
    requires e.Call?
    decreases fuel, 1, e, 0
  {
    if e.callee.Name? && Find(env, e.callee.name).None? then
      match RunAll(h, fs, fuel, e.operands, env, w)
      case Got(vs, u) => if fuel == 0 then Spent else Invoke(h, fs, fuel - 1, e.callee.name, vs.items, u)
      case other => other
    else
      match RunExpr(h, fs, fuel, e.callee, env, w)
      case Got(v, u) =>
        (match RunAll(h, fs, fuel, e.operands, env, u)
         case Got(vs, x) => RunValue(h, fs, fuel, v, vs.items, x)
         case other => other)
      case other => other
  }

  /** A function value or bound method stands for a function of the program; the host runs any other value. */
  function RunValue<W>(h: Host<W>, fs: seq<Function>, fuel: nat, v: Value, vs: seq<Value>, w: W): Reply<W>
    decreases fuel, 0
  {
    match h.target(v, vs)
    case None => h.call(v, vs, w)
    case Some((f, all)) => if fuel == 0 then Spent else Invoke(h, fs, fuel - 1, f, all, w)
  }

  function Chosen(fs: seq<Function>, f: string): Option<Function>
  {
    if fs == [] then None else if fs[0].name == f then Some(fs[0]) else Chosen(fs[1..], f)
  }

  function Activation(names: seq<string>, vs: seq<Value>): Bindings
    requires |names| == |vs|
  {
    Built(names, vs)
  }

  function ParameterTypes(f: Function): (r: seq<Option<string>>)
    ensures |r| == |f.parameters|
  {
    seq(|f.parameters|, i requires 0 <= i => if i < |f.types| then Some(f.types[i]) else None)
  }

  /** What a call replies, given how the body ended. */
  function Answered<W>(h: Host<W>, f: Function, flow: Flow<W>): Reply<W>
  {
    match flow
    case Next(_, w) => Got(UNIT, w)
    case Returned(v, w) => Replied(Coerced(h, f.returning, v), w)
    case Halted => Spent
    case Broken(_, w) => Trap(w)
    case Continued(_, w) => Trap(w)
    case Fault(w) => Trap(w)
  }

  /** A call of a function of the program, or of one outside it. */
  function Invoke<W>(h: Host<W>, fs: seq<Function>, fuel: nat, f: string, vs: seq<Value>, w: W): Reply<W>
    decreases fuel, 2
  {
    match Chosen(fs, f)
    case None => h.external(f, vs, w)
    case Some(g) =>
      if g.external then h.external(f, vs, w)
      else if |g.parameters| != |vs| then Trap(w)
      else match CoercedAll(h, ParameterTypes(g), vs)
           case None => Trap(w)
           case Some(us) => Answered(h, g, RunStmts(h, fs, fuel, g.body, [Activation(g.parameters, us)], w))
  }

  // ----- statements -----

  function Stopped<W>(r: Reply<W>): Flow<W>
  {
    match r case Got(_, w) => Fault(w) case Trap(w) => Fault(w) case Spent => Halted
  }

  function RunStmts<W>(h: Host<W>, fs: seq<Function>, fuel: nat, ss: seq<Stmt>, env: Env, w: W): Flow<W>
    decreases fuel, 1, ss, 2
  {
    if ss == [] then Next(env, w)
    else match RunStmt(h, fs, fuel, ss[0], env, w)
         case Next(inner, u) => RunStmts(h, fs, fuel, ss[1..], inner, u)
         case other => other
  }

  function Popped(env: Env): Env
  {
    if env == [] then [] else env[..|env| - 1]
  }

  function Left<W>(flow: Flow<W>): Flow<W>
  {
    match flow
    case Next(env, w) => Next(Popped(env), w)
    case Broken(env, w) => Broken(Popped(env), w)
    case Continued(env, w) => Continued(Popped(env), w)
    case other => other
  }

  /** Runs a block in a scope that starts with the given variables. */
  function RunBlock<W>(h: Host<W>, fs: seq<Function>, fuel: nat, ss: seq<Stmt>, scope: Bindings, env: Env,
                       w: W): Flow<W>
    decreases fuel, 1, ss, 3
  {
    Left(RunStmts(h, fs, fuel, ss, env + [scope], w))
  }

  function RunStmt<W>(h: Host<W>, fs: seq<Function>, fuel: nat, s: Stmt, env: Env, w: W): Flow<W>
    decreases fuel, 1, s, 2
  {
    match s
    case Const(x, annotation, value, _) => Declared(h, x, annotation, RunExpr(h, fs, fuel, value, env, w), env)
    case Bind(x, annotation, initial) =>
      (match initial
       case None => Next(Declare(env, x, UNINITIALIZED), w)
       case Some(e) => Declared(h, x, annotation, RunExpr(h, fs, fuel, e, env, w), env))
    case Assign(x, compound, value) =>
      (match RunExpr(h, fs, fuel, value, env, w)
       case Got(v, u) => Assigned(h, x, compound, v, env, u)
       case other => Stopped(other))
    case Store(target, compound, value) =>
      (match Locate(h, fs, fuel, target, env, w)
       case At(x, path, u) =>
         (match RunExpr(h, fs, fuel, value, env, u)
          case Got(v, y) => Stored(h, x, path, compound, v, env, y)
          case other => Stopped(other))
       case Elsewhere(r) => Stopped(r))
    case Do(value) =>
      (match RunExpr(h, fs, fuel, value, env, w)
       case Got(_, u) => Next(env, u)
       case other => Stopped(other))
    case Return(result) =>
      (match result
       case None => Returned(UNIT, w)
       case Some(e) =>
         match RunExpr(h, fs, fuel, e, env, w) case Got(v, u) => Returned(v, u) case other => Stopped(other))
    case If(condition, yes, no) =>
      (match RunExpr(h, fs, fuel, condition, env, w)
       case Got(v, u) =>
         if v == Truthful(true) then RunBlock(h, fs, fuel, yes, map[], env, u)
         else if v == Truthful(false) then RunBlock(h, fs, fuel, no, map[], env, u)
         else Fault(u)
       case other => Stopped(other))
    case While(_, _) => RunLoop(h, fs, fuel, s, env, w)
    case Loop(_) => RunLoop(h, fs, fuel, s, env, w)
    case For(_, _, _, _, _) => RunFor(h, fs, fuel, s, env, w)
    case Each(x, iterable, body) =>
      (match RunExpr(h, fs, fuel, iterable, env, w)
       case Got(v, u) =>
         (match h.items(v) case None => Fault(u) case Some(vs) => RunEach(h, fs, fuel, x, vs, body, env, u))
       case other => Stopped(other))
    case Unsafe(body) => RunBlock(h, fs, fuel, body, map[], env, w)
    case Break => Broken(env, w)
    case Continue => Continued(env, w)
  }

  function Declared<W>(h: Host<W>, x: string, annotation: Option<string>, r: Reply<W>, env: Env): Flow<W>
  {
    match r
    case Got(v, w) =>
      (match Coerced(h, annotation, v) case None => Fault(w) case Some(u) => Next(Declare(env, x, u), w))
    case other => Stopped(other)
  }

  /** A plain assignment to a name that is no variable declares one. */
  function Assigned<W>(h: Host<W>, x: string, compound: Option<Operation>, v: Value, env: Env, w: W): Flow<W>
  {
    match Find(env, x)
    case None => if compound.None? then Next(Declare(env, x, v), w) else Fault(w)
    case Some(was) =>
      match Resembling(h, v, was)
      case None => Fault(w)
      case Some(right) =>
        match Combined(h, compound, was, right, w)
        case Got(u, y) => Next(Update(env, x, u), y)
        case other => Stopped(other)
  }

  function Combined<W>(h: Host<W>, compound: Option<Operation>, was: Value, right: Value, w: W): Reply<W>
  {
    match compound case None => Got(right, w) case Some(op) =>
      if was.Whole? && right.Whole? then Replied(OnPair(op, was, right), w) else Applied(h, op, [was, right], w)
  }

  datatype Place<+W> = At(root: string, path: seq<Step>, world: W) | Elsewhere(reply: Reply<W>)

  /** The place an expression stands for on the left of an assignment. */
  function Locate<W>(h: Host<W>, fs: seq<Function>, fuel: nat, e: Expr, env: Env, w: W): Place<W>
    decreases fuel, 1, e, 2
  {
    if e.Name? && Find(env, e.name).Some? then At(e.name, [], w)
    else if e.Operate? && e.op.Member? && |e.operands| == 1 then
      match Locate(h, fs, fuel, e.operands[0], env, w)
      case At(x, path, u) => At(x, path + [Field(e.op.field)], u)
      case other => other
    else if e.Operate? && e.op == Index && |e.operands| == 2 then
      match Locate(h, fs, fuel, e.operands[0], env, w)
      case At(x, path, u) =>
        (match RunExpr(h, fs, fuel, e.operands[1], env, u)
         case Got(i, y) => Inside(h, x, path + [Element(i)], env, y)
         case other => Elsewhere(other))
      case other => other
    else if e.Operate? && e.op == Slice && |e.operands| == 3 then
      match Locate(h, fs, fuel, e.operands[0], env, w)
      case At(x, path, u) =>
        (match RunExpr(h, fs, fuel, e.operands[1], env, u)
         case Got(i, y) =>
           (match RunExpr(h, fs, fuel, e.operands[2], env, y)
            case Got(j, z) => Inside(h, x, path + [Range(i, j)], env, z)
            case other => Elsewhere(other))
         case other => Elsewhere(other))
      case other => other
    else Elsewhere(Trap(w))
  }

  function Inside<W>(h: Host<W>, x: string, path: seq<Step>, env: Env, w: W): Place<W>
  {
    match Find(env, x)
    case None => Elsewhere(Trap(w))
    case Some(v) => if h.read(v, path).None? then Elsewhere(Trap(w)) else At(x, path, w)
  }

  function Stored<W>(h: Host<W>, x: string, path: seq<Step>, compound: Option<Operation>, v: Value, env: Env,
                     w: W): Flow<W>
  {
    match Find(env, x)
    case None => Fault(w)
    case Some(root) =>
      match h.read(root, path)
      case None => Fault(w)
      case Some(was) =>
        match Combined(h, compound, was, v, w)
        case Got(u, y) =>
          (match h.write(root, path, u) case None => Fault(y) case Some(r) => Next(Update(env, x, r), y))
        case other => Stopped(other)
  }

  // ----- loops -----

  function RunLoop<W>(h: Host<W>, fs: seq<Function>, fuel: nat, s: Stmt, env: Env, w: W): Flow<W>
    requires s.While? || s.Loop?
    decreases fuel, 1, s, 1
  {
    if fuel == 0 then Halted
    else match (if s.Loop? then Got(Truthful(true), w) else RunExpr(h, fs, fuel, s.condition, env, w))
         case Got(v, u) =>
           if v == Truthful(true) then
             match RunBlock(h, fs, fuel - 1, s.body, map[], env, u)
             case Next(inner, y) => RunLoop(h, fs, fuel - 1, s, inner, y)
             case Continued(inner, y) => RunLoop(h, fs, fuel - 1, s, inner, y)
             case Broken(inner, y) => Next(inner, y)
             case other => other
           else if v == Truthful(false) then Next(env, u)
           else Fault(u)
         case other => Stopped(other)
  }

  function RunFor<W>(h: Host<W>, fs: seq<Function>, fuel: nat, s: Stmt, env: Env, w: W): Flow<W>
    requires s.For?
    decreases fuel, 1, s, 1
  {
    match RunExpr(h, fs, fuel, s.start, env, w)
    case Got(a, u) =>
      if !a.Whole? || a.tag != Int then Fault(u)
      else (match RunExpr(h, fs, fuel, s.end, env, u)
            case Got(b, y) =>
              if !b.Whole? || b.tag != Int then Fault(y)
              else RunRange(h, fs, fuel, s.name, a.number, b.number, s.inclusive, s.body, env, y)
            case other => Stopped(other))
    case other => Stopped(other)
  }

  function RunRange<W>(h: Host<W>, fs: seq<Function>, fuel: nat, x: string, i: int, end: int, inclusive: bool,
                       body: seq<Stmt>, env: Env, w: W): Flow<W>
    decreases fuel, 0
  {
    if i > end || (i == end && !inclusive) then Next(env, w)
    else if fuel == 0 then Halted
    else match RunBlock(h, fs, fuel - 1, body, map[x := Whole(Int, i)], env, w)
         case Next(inner, u) => RunRange(h, fs, fuel - 1, x, i + 1, end, inclusive, body, inner, u)
         case Continued(inner, u) => RunRange(h, fs, fuel - 1, x, i + 1, end, inclusive, body, inner, u)
         case Broken(inner, u) => Next(inner, u)
         case other => other
  }

  function RunEach<W>(h: Host<W>, fs: seq<Function>, fuel: nat, x: string, vs: seq<Value>, body: seq<Stmt>, env: Env,
                      w: W): Flow<W>
    decreases fuel, 0
  {
    if vs == [] then Next(env, w)
    else if fuel == 0 then Halted
    else match RunBlock(h, fs, fuel - 1, body, map[x := vs[0]], env, w)
         case Next(inner, u) => RunEach(h, fs, fuel - 1, x, vs[1..], body, inner, u)
         case Continued(inner, u) => RunEach(h, fs, fuel - 1, x, vs[1..], body, inner, u)
         case Broken(inner, u) => Next(inner, u)
         case other => other
  }
}
