/** Folding keeps the behaviour of a program. */
module FoldingKeeps {
  import opened Options
  import opened OrPatterns
  import opened Folding
  import opened FoldingRuns
  import opened RuntimeIntegers
  import opened FoldingLaws
  import opened ConstantKinds
  import opened FoldingScopes

  // ----- what earlier passes guarantee -----

  /** All alternatives of every pattern bind the same names. */
  predicate ExprProper(e: Expr)
    decreases e, 1
  {
    match e
    case Operate(_, operands) => ExprsProper(operands)
    case Both(left, right) => ExprProper(left) && ExprProper(right)
    case Either(left, right) => ExprProper(left) && ExprProper(right)
    case Choose(subject, arms) => ExprProper(subject) && ArmsProper(arms)
    case Call(callee, operands) => ExprProper(callee) && ExprsProper(operands)
    case _ => true
  }

  predicate ExprsProper(es: seq<Expr>)
    decreases es, 0
  {
    es == [] || (ExprProper(es[0]) && ExprsProper(es[1..]))
  }

  predicate ArmProper(arm: Case)
    decreases arm, 0
  {
    Consistent(arm.pattern) && (arm.guard.Some? ==> ExprProper(arm.guard.value)) && ExprProper(arm.value)
  }

  predicate ArmsProper(arms: seq<Case>)
    decreases arms, 0
  {
    arms == [] || (ArmProper(arms[0]) && ArmsProper(arms[1..]))
  }

  predicate OptionProper(e: Option<Expr>)
  {
    e.Some? ==> ExprProper(e.value)
  }

  /** The variable an assigned place is in, if it is in one. */
  function Root(e: Expr): Option<string>
  {
    if e.Name? then Some(e.name)
    else if e.Operate? && |e.operands| > 0 && (e.op.Member? || e.op == Index || e.op == Slice) then Root(e.operands[0])
    else None
  }

  /** No assignment is to a constant or into one; `consts` are the constants in force. */
  predicate Proper(consts: set<string>, s: Stmt)
    decreases s, 1
  {
    match s
    case Const(_, _, value, _) => ExprProper(value)
    case Bind(_, _, initial) => OptionProper(initial)
    case Assign(x, _, value) => x !in consts && ExprProper(value)
    case Store(target, _, value) =>
      (Root(target).Some? ==> Root(target).value !in consts) && ExprProper(target) && ExprProper(value)
    case Do(value) => ExprProper(value)
    case Return(result) => OptionProper(result)
    case If(condition, yes, no) => ExprProper(condition) && AllProper(consts, yes) && AllProper(consts, no)
    case While(condition, body) => ExprProper(condition) && AllProper(consts, body)
    case For(x, start, end, _, body) => ExprProper(start) && ExprProper(end) && AllProper(consts - {x}, body)
    case Each(x, iterable, body) => ExprProper(iterable) && AllProper(consts - {x}, body)
    case Loop(body) => AllProper(consts, body)
    case Unsafe(body) => AllProper(consts, body)
    case Break => true
    case Continue => true
  }

  predicate AllProper(consts: set<string>, ss: seq<Stmt>)
    decreases ss, 0
  {
    ss == [] || (Proper(consts, ss[0]) && AllProper(Constants(consts, ss[0]), ss[1..]))
  }

  function Constants(consts: set<string>, s: Stmt): set<string>
  {
    match s
    case Const(x, _, _, _) => consts + {x}
    case Bind(x, _, _) => consts - {x}
    case _ => consts
  }

  predicate ProgramProper(fs: seq<Function>)
  {
    forall i :: 0 <= i < |fs| ==> AllProper({}, fs[i].body)
  }

  // ----- what evaluation settles -----

  /** Every constant statement has, among the entries, the value its initializer has where it stands, and the
      running program agrees on it: all operations are in kind, and the annotation keeps it. */
  ghost predicate Resolved(d: Fields, entries: seq<Entry>, f: string, known: Static, s: Stmt)
    decreases s, 1
  {
    match s
    case Const(x, annotation, value, span) =>
      && Found(entries, f, x, span).Some?
      && Worth(known, value) == Found(entries, f, x, span)
      && Agreed(d, known, annotation, value)
    case If(_, yes, no) => ResolvedAll(d, entries, f, known, yes) && ResolvedAll(d, entries, f, known, no)
    case While(_, body) => ResolvedAll(d, entries, f, known, body)
    case For(x, _, _, _, body) => ResolvedAll(d, entries, f, known[x := None], body)
    case Each(x, _, body) => ResolvedAll(d, entries, f, known[x := None], body)
    case Loop(body) => ResolvedAll(d, entries, f, known, body)
    case Unsafe(body) => ResolvedAll(d, entries, f, known, body)
    case _ => true
  }

  ghost predicate ResolvedAll(d: Fields, entries: seq<Entry>, f: string, known: Static, ss: seq<Stmt>)
    decreases ss, 0
  {
    ss == [] || (Resolved(d, entries, f, known, ss[0])
                 && ResolvedAll(d, entries, f, After(entries, f, known, ss[0]), ss[1..]))
  }

  /** The operations of an initializer are in kind and its annotation keeps its value. */
  predicate Agreed(d: Fields, known: Static, annotation: Option<string>, value: Expr)
  {
    && Steady(d, known, value)
    && (annotation.Some? && Worth(known, value).Some? ==> Keeps(annotation.value, Worth(known, value).value))
  }

  ghost predicate ProgramResolved(d: Fields, entries: seq<Entry>, fs: seq<Function>)
  {
    forall i :: 0 <= i < |fs| && !fs[i].external ==> ResolvedAll(d, entries, fs[i].name, Parameters(fs[i]), fs[i].body)
  }

  // ----- expressions -----

  datatype Setting<!W> = Setting(h: Host<W>, entries: seq<Entry>, fs: seq<Function>)

  ghost predicate Ready<W>(c: Setting<W>)
  {
    && Recorded(c.entries)
    && ProgramProper(c.fs)
    && ProgramResolved(c.h.fields, c.entries, c.fs)
  }

  ghost function Folded<W>(c: Setting<W>): seq<Function>
    requires Ready(c)
  {
    Fold(c.entries, c.fs)
  }

  lemma ReadyParts<W>(c: Setting<W>)
    requires Ready(c)
    ensures Recorded(c.entries)
  {
  }

  ghost predicate InStep<W>(c: Setting<W>, levels: seq<Static>, env: Env)
  {
    Ready(c) && Agree(c.h.fields, levels, env) && Sure(Flattened(levels))
  }

  lemma {:induction false} ExprKept<W>(c: Setting<W>, fuel: nat, levels: seq<Static>, e: Expr, env: Env, w: W)
    requires InStep(c, levels, env) && ExprProper(e)
    ensures RunExpr(c.h, Folded(c), fuel, FoldExpr(Flattened(levels), e), env, w) == RunExpr(c.h, c.fs, fuel, e, env, w)
    decreases fuel, 1, e, 1
  {
    hide Ready, Folded, Agree, Sure, Flattened, Known, Find, Reified, RunLogic, RunCall, RunArms, RunAll, FoldArms,
         FoldExprs;
    var known := Flattened(levels);
    match e
    case Name(x) =>
      if Known(known, x).Some? {
        AgreeFind(c.h.fields, levels, env, x);
        ReifiedRuns(c.h, Folded(c), fuel, Known(known, x).value, env, w);
      }
    case Operate(op, operands) => ExprsKept(c, fuel, levels, operands, env, w);
    case Both(left, right) => LogicKept(c, fuel, levels, e, true, env, w);
    case Either(left, right) => LogicKept(c, fuel, levels, e, false, env, w);
    case Choose(subject, arms) =>
      ExprKept(c, fuel, levels, subject, env, w);
      var r := RunExpr(c.h, c.fs, fuel, subject, env, w);
      if r.Got? {
        ArmsKept(c, fuel, levels, r.value, arms, env, r.world);
      }
    case Call(callee, operands) => CallKept(c, fuel, levels, e, env, w);
    case _ =>
  }

  lemma {:induction false} LogicKept<W>(c: Setting<W>, fuel: nat, levels: seq<Static>, e: Expr, and: bool,
                                              env: Env, w: W)
    requires InStep(c, levels, env) && ExprProper(e) && (e.Both? || e.Either?)
    ensures RunLogic(c.h, Folded(c), fuel, FoldExpr(Flattened(levels), e), and, env, w)
            == RunLogic(c.h, c.fs, fuel, e, and, env, w)
    decreases fuel, 1, e, 0
  {
    hide Ready, Folded, Agree, Sure, Flattened, RunExpr;
    ExprKept(c, fuel, levels, e.left, env, w);
    var r := RunExpr(c.h, c.fs, fuel, e.left, env, w);
    if r.Got? {
      ExprKept(c, fuel, levels, e.right, env, r.world);
    }
  }

  lemma {:induction false} ExprsKept<W>(c: Setting<W>, fuel: nat, levels: seq<Static>, es: seq<Expr>, env: Env,
                                              w: W)
    requires InStep(c, levels, env) && ExprsProper(es)
    ensures RunAll(c.h, Folded(c), fuel, FoldExprs(Flattened(levels), es), env, w)
            == RunAll(c.h, c.fs, fuel, es, env, w)
    decreases fuel, 1, es, 0
  {
    hide Ready, Folded, Agree, Sure, Flattened, RunExpr, FoldExpr;
    if es != [] {
      var known := Flattened(levels);
      assert FoldExprs(known, es)[1..] == FoldExprs(known, es[1..]);
      ExprKept(c, fuel, levels, es[0], env, w);
      var r := RunExpr(c.h, c.fs, fuel, es[0], env, w);
      if r.Got? {
        ExprsKept(c, fuel, levels, es[1..], env, r.world);
      }
    }
  }

  lemma {:induction false} ArmsKept<W>(c: Setting<W>, fuel: nat, levels: seq<Static>, v: Value, arms: seq<Case>,
                                             env: Env, w: W)
    requires InStep(c, levels, env) && ArmsProper(arms)
    ensures RunArms(c.h, Folded(c), fuel, v, FoldArms(Flattened(levels), arms), env, w)
            == RunArms(c.h, c.fs, fuel, v, arms, env, w)
    decreases fuel, 1, arms, 0
  {
    hide Ready, Folded, Agree, Sure, Flattened, Match, RunGuard, RunBody, FoldArm, Fits, ArmProper;
    if arms != [] {
      var (known, arm) := (Flattened(levels), arms[0]);
      assert FoldArms(known, arms)[1..] == FoldArms(known, arms[1..]);
      assert FoldArm(known, arm).pattern == arm.pattern && Consistent(arm.pattern) by { PatternStays(known, arm); }
      match Match(arm.pattern, v, map[])
      case None => ArmsKept(c, fuel, levels, v, arms[1..], env, w);
      case Some(b) =>
        ArmHides(c.h.fields, arm.pattern, v, known);
        GuardKept(c, fuel, levels, arm, b, env, w);
        var r := RunGuard(c.h, c.fs, fuel, arm, env + [b], w);
        if r.Got? {
          BodyKept(c, fuel, levels, arm, b, env, r.world);
          ArmsKept(c, fuel, levels, v, arms[1..], env, r.world);
        }
    }
  }

  lemma PatternStays(known: Static, arm: Case)
    requires Sure(known) && ArmProper(arm)
    ensures FoldArm(known, arm).pattern == arm.pattern && Consistent(arm.pattern)
  {
  }

  lemma ArmInStep<W>(c: Setting<W>, levels: seq<Static>, names: set<string>, b: Bindings, env: Env)
    requires InStep(c, levels, env) && Fits(c.h.fields, Flattened(levels), Unknown(names), b)
    ensures InStep(c, levels + [Unknown(names)], env + [b])
    ensures Flattened(levels + [Unknown(names)]) == Flattened(levels) + Unknown(names)
  {
    hide Ready, Agree, Flattened, Fits;
    AgreePush(c.h.fields, levels, env, Unknown(names), b);
  }

  lemma {:induction false} GuardKept<W>(c: Setting<W>, fuel: nat, levels: seq<Static>, arm: Case, b: Bindings,
                                              env: Env, w: W)
    requires InStep(c, levels, env) && ArmProper(arm)
             && Fits(c.h.fields, Flattened(levels), Unknown(FirstNames(arm.pattern)), b)
    ensures RunGuard(c.h, Folded(c), fuel, FoldArm(Flattened(levels), arm), env + [b], w)
            == RunGuard(c.h, c.fs, fuel, arm, env + [b], w)
    decreases fuel, 1, arm, 0
  {
    hide Ready, Folded, Agree, Sure, Flattened, Fits, RunExpr;
    var names := FirstNames(arm.pattern);
    ArmInStep(c, levels, names, b, env);
    if arm.guard.Some? {
      ExprKept(c, fuel, levels + [Unknown(names)], arm.guard.value, env + [b], w);
    }
  }

  lemma {:induction false} BodyKept<W>(c: Setting<W>, fuel: nat, levels: seq<Static>, arm: Case, b: Bindings,
                                             env: Env, w: W)
    requires InStep(c, levels, env) && ArmProper(arm)
             && Fits(c.h.fields, Flattened(levels), Unknown(FirstNames(arm.pattern)), b)
    ensures RunBody(c.h, Folded(c), fuel, FoldArm(Flattened(levels), arm), env + [b], w)
            == RunBody(c.h, c.fs, fuel, arm, env + [b], w)
    decreases fuel, 1, arm, 0
  {
    hide Ready, Folded, Agree, Sure, Flattened, Fits, RunExpr;
    var names := FirstNames(arm.pattern);
    ArmInStep(c, levels, names, b, env);
    ExprKept(c, fuel, levels + [Unknown(names)], arm.value, env + [b], w);
  }

  // ----- calls -----

  lemma {:induction false} CallKept<W>(c: Setting<W>, fuel: nat, levels: seq<Static>, e: Expr, env: Env, w: W)
    requires InStep(c, levels, env) && ExprProper(e) && e.Call?
    ensures RunCall(c.h, Folded(c), fuel, FoldExpr(Flattened(levels), e), env, w) == RunCall(c.h, c.fs, fuel, e, env, w)
    decreases fuel, 1, e, 0
  {
    hide Ready, Folded, Agree, Sure, Flattened, RunExpr, RunAll, RunValue, Find, Invoke, FoldExprs, Reified;
    var known := Flattened(levels);
    var named := e.callee.Name? && Find(env, e.callee.name).None?;
    assert named ==> FoldExpr(known, e.callee) == e.callee by {
      if named && Known(known, e.callee.name).Some? {
        AgreeFind(c.h.fields, levels, env, e.callee.name);
      }
    }
    if named {
      ExprsKept(c, fuel, levels, e.operands, env, w);
      var r := RunAll(c.h, c.fs, fuel, e.operands, env, w);
      if r.Got? && fuel > 0 {
        InvokeKept(c, fuel - 1, e.callee.name, r.value.items, r.world);
      }
    } else {
      assert !(FoldExpr(known, e.callee).Name?
               && Find(env, FoldExpr(known, e.callee).name).None?) by { StaysUnnamed(known, e.callee); }
      ExprKept(c, fuel, levels, e.callee, env, w);
      var r := RunExpr(c.h, c.fs, fuel, e.callee, env, w);
      if r.Got? {
        ExprsKept(c, fuel, levels, e.operands, env, r.world);
        var q := RunAll(c.h, c.fs, fuel, e.operands, env, r.world);
        if q.Got? {
          ValueKept(c, fuel, r.value, q.value.items, q.world);
        }
      }
    }
  }

  lemma StaysUnnamed(known: Static, e: Expr)
    requires Sure(known)
    ensures FoldExpr(known, e).Name? ==> e == FoldExpr(known, e)
  {
  }

  lemma {:induction false} ValueKept<W>(c: Setting<W>, fuel: nat, v: Value, vs: seq<Value>, w: W)
    requires Ready(c)
    ensures RunValue(c.h, Folded(c), fuel, v, vs, w) == RunValue(c.h, c.fs, fuel, v, vs, w)
    decreases fuel, 0
  {
    hide Ready, Folded, Invoke;
    match c.h.target(v, vs)
    case None =>
    case Some((f, all)) =>
      if fuel > 0 {
        InvokeKept(c, fuel - 1, f, all, w);
      }
  }

  lemma {:induction false} FoldChosen(entries: seq<Entry>, fs: seq<Function>, f: string)
    requires Recorded(entries)
    ensures Chosen(fs, f).None? ==> Chosen(Fold(entries, fs), f).None?
    ensures Chosen(fs, f).Some? ==> Chosen(Fold(entries, fs), f) == Some(FoldFunction(entries, Chosen(fs, f).value))
    ensures Chosen(fs, f).Some? ==> Chosen(fs, f).value in fs && Chosen(fs, f).value.name == f
    decreases fs
  {
    hide FoldAll, Recorded;
    if fs != [] {
      FoldChosen(entries, fs[1..], f);
      assert Fold(entries, fs)[1..] == Fold(entries, fs[1..]);
    }
  }

  lemma SureParameters(f: Function)
    ensures Sure(Parameters(f))
  {
  }

  /** A call starts with its parameters as the only names, and none of them constant. */
  lemma Entering<W>(c: Setting<W>, g: Function, vs: seq<Value>)
    requires Ready(c) && g in c.fs && !g.external && |g.parameters| == |vs|
    ensures InStep(c, [Parameters(g)], [Activation(g.parameters, vs)]) && Flattened([Parameters(g)]) == Parameters(g)
    ensures AllProper(Consts(Parameters(g)), g.body)
            && ResolvedAll(c.h.fields, c.entries, g.name, Parameters(g), g.body)
  {
    var (level, scope) := (Parameters(g), Activation(g.parameters, vs));
    assert [level][..0] == [] && [scope][..0] == [];
    assert Flattened([level]) == map[] + level == level;
    BuiltKeys(g.parameters, vs);
    assert Fits(c.h.fields, map[], level, scope);
    assert Consts(level) == {};
    var i :| 0 <= i < |c.fs| && c.fs[i] == g;
  }

  lemma {:induction false} BuiltKeys(names: seq<string>, vs: seq<Value>)
    requires |names| == |vs|
    ensures Built(names, vs).Keys == (set x | x in names)
    decreases names
  {
    if names != [] {
      BuiltKeys(names[..|names| - 1], vs[..|names| - 1]);
      assert names == names[..|names| - 1] + [names[|names| - 1]];
    }
  }

  lemma {:induction false} InvokeKept<W>(c: Setting<W>, fuel: nat, f: string, vs: seq<Value>, w: W)
    requires Ready(c)
    ensures Invoke(c.h, Folded(c), fuel, f, vs, w) == Invoke(c.h, c.fs, fuel, f, vs, w)
    decreases fuel, 2
  {
    assert Folded(c) == Fold(c.entries, c.fs);
    ReadyParts(c);
    hide Ready, Folded, RunStmts, FoldAll, Agree, Sure, Flattened, Recorded, ResolvedAll, AllProper, Fold;
    FoldChosen(c.entries, c.fs, f);
    if Chosen(c.fs, f).Some? {
      var g := Chosen(c.fs, f).value;
      if !g.external && |g.parameters| == |vs| && CoercedAll(c.h, ParameterTypes(g), vs).Some? {
        var us := CoercedAll(c.h, ParameterTypes(g), vs).value;
        Entering(c, g, us);
        StmtsKept(c, fuel, g.name, [Parameters(g)], g.body, [Activation(g.parameters, us)], w);
      }
    }
  }

  // ----- statements -----

  /** The names that are constants. */
  function Consts(known: Static): set<string>
  {
    set x | x in known && known[x].Some?
  }

  function LevelsAfter(entries: seq<Entry>, f: string, levels: seq<Static>, s: Stmt): (r: seq<Static>)
    requires levels != []
    ensures |r| == |levels| && r[..|levels| - 1] == levels[..|levels| - 1]
  {
    match s
    case Const(x, _, _, span) => Topped(levels, x, Found(entries, f, x, span))
    case Bind(x, _, _) => Topped(levels, x, None)
    case _ => levels
  }

  lemma LevelsFollow(entries: seq<Entry>, f: string, levels: seq<Static>, s: Stmt)
    requires levels != []
    ensures Flattened(LevelsAfter(entries, f, levels, s)) == After(entries, f, Flattened(levels), s)
  {
    var n := |levels| - 1;
    assert Flattened(levels) == Flattened(levels[..n]) + levels[n];
  }

  lemma ConstsFollow(entries: seq<Entry>, f: string, known: Static, s: Stmt)
    requires s.Const? ==> Found(entries, f, s.name, s.span).Some?
    ensures Consts(After(entries, f, known, s)) == Constants(Consts(known), s)
  {
  }

  /** After a statement that completes, or leaves its block, constants still have their values. */
  predicate Leaves<W>(d: Fields, flow: Flow<W>, levels: seq<Static>, later: seq<Static>)
    requires levels != []
  {
    match flow
    case Next(env, _) => Agree(d, later, env)
    case Broken(env, _) => Agree(d, levels[..|levels| - 1], Popped(env))
    case Continued(env, _) => Agree(d, levels[..|levels| - 1], Popped(env))
    case _ => true
  }

  /** After a block. */
  predicate Kept<W>(d: Fields, flow: Flow<W>, levels: seq<Static>)
  {
    match flow
    case Next(env, _) => Agree(d, levels, env)
    case Broken(env, _) => Agree(d, levels, env)
    case Continued(env, _) => Agree(d, levels, env)
    case _ => true
  }

  lemma KeptLeaves<W>(d: Fields, flow: Flow<W>, levels: seq<Static>)
    requires levels != [] && Kept(d, flow, levels)
    ensures Leaves(d, flow, levels, levels)
  {
    match flow
    case Broken(env, _) => AgreePop(d, levels, env);
    case Continued(env, _) => AgreePop(d, levels, env);
    case _ =>
  }

  ghost predicate Entered<W>(c: Setting<W>, f: string, levels: seq<Static>, s: Stmt, env: Env)
  {
    && InStep(c, levels, env) && levels != []
    && Proper(Consts(Flattened(levels)), s) && Resolved(c.h.fields, c.entries, f, Flattened(levels), s)
  }

  lemma {:induction false} StmtsKept<W>(c: Setting<W>, fuel: nat, f: string, levels: seq<Static>, ss: seq<Stmt>,
                                              env: Env, w: W)
    requires InStep(c, levels, env) && levels != [] && Recorded(c.entries)
    requires AllProper(Consts(Flattened(levels)), ss) && ResolvedAll(c.h.fields, c.entries, f, Flattened(levels), ss)
    ensures RunStmts(c.h, Folded(c), fuel, FoldAll(c.entries, f, Flattened(levels), ss), env, w)
            == RunStmts(c.h, c.fs, fuel, ss, env, w)
    ensures match RunStmts(c.h, c.fs, fuel, ss, env, w)
            case Next(e, _) => Agree(c.h.fields, levels[..|levels| - 1], Popped(e))
            case Broken(e, _) => Agree(c.h.fields, levels[..|levels| - 1], Popped(e))
            case Continued(e, _) => Agree(c.h.fields, levels[..|levels| - 1], Popped(e))
            case _ => true
    decreases fuel, 1, ss, 2
  {
    hide Ready, Folded, Agree, Sure, Flattened, RunStmt, FoldStmt, Proper, Resolved, Recorded, After, Consts, Constants,
         LevelsAfter;
    if ss == [] {
      AgreePop(c.h.fields, levels, env);
    } else {
      var (known, s) := (Flattened(levels), ss[0]);
      var later := LevelsAfter(c.entries, f, levels, s);
      AfterSure(c.entries, f, known, s);
      LevelsFollow(c.entries, f, levels, s);
      assert FoldAll(c.entries, f, known, ss)[0] == FoldStmt(c.entries, f, known, s);
      assert FoldAll(c.entries, f, known, ss)[1..] == FoldAll(c.entries, f, After(c.entries, f, known, s), ss[1..]);
      StmtKept(c, fuel, f, levels, s, env, w);
      var flow := RunStmt(c.h, c.fs, fuel, s, env, w);
      if flow.Next? {
        assert Resolved(c.h.fields, c.entries, f, known, s)
               && (s.Const? ==> Found(c.entries, f, s.name, s.span).Some?) by {
          ResolvedFound(c.h.fields, c.entries, f, known, s);
        }
        ConstsFollow(c.entries, f, known, s);
        StmtsKept(c, fuel, f, later, ss[1..], flow.env, flow.world);
      }
    }
  }

  lemma ResolvedFound(d: Fields, entries: seq<Entry>, f: string, known: Static, s: Stmt)
    requires Resolved(d, entries, f, known, s)
    ensures s.Const? ==>
              && Found(entries, f, s.name, s.span).Some? && Worth(known, s.value) == Found(entries, f, s.name, s.span)
              && Agreed(d, known, s.annotation, s.value)
  {
  }

  lemma {:induction false} BlockKept<W>(c: Setting<W>, fuel: nat, f: string, levels: seq<Static>, level: Static,
                                              ss: seq<Stmt>, scope: Bindings, env: Env, w: W)
    requires InStep(c, levels, env) && Recorded(c.entries) && Fits(c.h.fields, Flattened(levels), level, scope)
             && Sure(Flattened(levels) + level)
    requires AllProper(Consts(Flattened(levels) + level), ss)
             && ResolvedAll(c.h.fields, c.entries, f, Flattened(levels) + level, ss)
    ensures RunBlock(c.h, Folded(c), fuel, FoldAll(c.entries, f, Flattened(levels) + level, ss), scope, env, w)
            == RunBlock(c.h, c.fs, fuel, ss, scope, env, w)
    ensures Kept(c.h.fields, RunBlock(c.h, c.fs, fuel, ss, scope, env, w), levels)
    decreases fuel, 1, ss, 3
  {
    hide Ready, Folded, Agree, Sure, Flattened, RunStmts, FoldAll, Fits, AllProper, ResolvedAll;
    AgreePush(c.h.fields, levels, env, level, scope);
    var inner := levels + [level];
    assert inner[..|inner| - 1] == levels;
    StmtsKept(c, fuel, f, inner, ss, env + [scope], w);
  }

  /** A block that only opens a scope. */
  lemma {:induction false} PlainBlockKept<W>(c: Setting<W>, fuel: nat, f: string, levels: seq<Static>,
                                                   ss: seq<Stmt>, env: Env, w: W)
    requires InStep(c, levels, env) && Recorded(c.entries)
    requires AllProper(Consts(Flattened(levels)), ss) && ResolvedAll(c.h.fields, c.entries, f, Flattened(levels), ss)
    ensures RunBlock(c.h, Folded(c), fuel, FoldAll(c.entries, f, Flattened(levels), ss), map[], env, w)
            == RunBlock(c.h, c.fs, fuel, ss, map[], env, w)
    ensures Kept(c.h.fields, RunBlock(c.h, c.fs, fuel, ss, map[], env, w), levels)
    decreases fuel, 1, ss, 4
  {
    hide Ready, Folded, Agree, Sure, Flattened, RunBlock, FoldAll, AllProper, ResolvedAll;
    assert Flattened(levels) + map[] == Flattened(levels);
    BlockKept(c, fuel, f, levels, map[], ss, map[], env, w);
  }

  /** A block whose scope starts with a loop variable. */
  lemma {:induction false} LoopBlockKept<W>(c: Setting<W>, fuel: nat, f: string, levels: seq<Static>, x: string,
                                                  v: Value, ss: seq<Stmt>, env: Env, w: W)
    requires InStep(c, levels, env) && Recorded(c.entries) && Sure(Flattened(levels)[x := None])
    requires AllProper(Consts(Flattened(levels)) - {x}, ss)
             && ResolvedAll(c.h.fields, c.entries, f, Flattened(levels)[x := None], ss)
    ensures RunBlock(c.h, Folded(c), fuel, FoldAll(c.entries, f, Flattened(levels)[x := None], ss), map[x := v], env, w)
            == RunBlock(c.h, c.fs, fuel, ss, map[x := v], env, w)
    ensures Kept(c.h.fields, RunBlock(c.h, c.fs, fuel, ss, map[x := v], env, w), levels)
    decreases fuel, 1, ss, 4
  {
    hide Ready, Folded, Agree, Sure, Flattened, RunBlock, FoldAll, AllProper, ResolvedAll;
    var (known, level) := (Flattened(levels), map[x := None]);
    assert known + level == known[x := None] && Consts(known + level) == Consts(known) - {x};
    BlockKept(c, fuel, f, levels, level, ss, map[x := v], env, w);
  }

  lemma {:induction false} StmtKept<W>(c: Setting<W>, fuel: nat, f: string, levels: seq<Static>, s: Stmt,
                                             env: Env, w: W)
    requires Entered(c, f, levels, s, env) && Recorded(c.entries)
    ensures RunStmt(c.h, Folded(c), fuel, FoldStmt(c.entries, f, Flattened(levels), s), env, w)
            == RunStmt(c.h, c.fs, fuel, s, env, w)
    ensures Leaves(c.h.fields, RunStmt(c.h, c.fs, fuel, s, env, w), levels, LevelsAfter(c.entries, f, levels, s))
    decreases fuel, 1, s, 3
  {
    match s
    case Const(_, _, _, _) => ConstKept(c, fuel, f, levels, s, env, w);
    case Bind(_, _, _) => BindKept(c, fuel, f, levels, s, env, w);
    case Assign(_, _, _) => AssignKept(c, fuel, f, levels, s, env, w);
    case Store(_, _, _) => StoreKept(c, fuel, f, levels, s, env, w);
    case Do(_) => SimpleKept(c, fuel, f, levels, s, env, w);
    case Return(_) => SimpleKept(c, fuel, f, levels, s, env, w);
    case If(_, _, _) => IfKept(c, fuel, f, levels, s, env, w);
    case While(_, _) => WhileKept(c, fuel, f, levels, s, env, w);
    case For(_, _, _, _, _) => ForKept(c, fuel, f, levels, s, env, w);
    case Each(_, _, _) => EachKept(c, fuel, f, levels, s, env, w);
    case Loop(_) => WhileKept(c, fuel, f, levels, s, env, w);
    case Unsafe(_) => UnsafeKept(c, fuel, f, levels, s, env, w);
    case Break => SimpleKept(c, fuel, f, levels, s, env, w);
    case Continue => SimpleKept(c, fuel, f, levels, s, env, w);
  }

  lemma {:induction false} ConstKept<W>(c: Setting<W>, fuel: nat, f: string, levels: seq<Static>, s: Stmt,
                                              env: Env, w: W)
    requires Entered(c, f, levels, s, env) && Recorded(c.entries) && s.Const?
    ensures RunStmt(c.h, Folded(c), fuel, FoldStmt(c.entries, f, Flattened(levels), s), env, w)
            == RunStmt(c.h, c.fs, fuel, s, env, w)
    ensures Leaves(c.h.fields, RunStmt(c.h, c.fs, fuel, s, env, w), levels, LevelsAfter(c.entries, f, levels, s))
  {
    hide Ready, Folded, Agree, Sure, Flattened, RunExpr, Recorded, Reified, Proper, Worth, Steady, Held, Holdable,
         Keeps, Constant, Coerced;
    var (d, known) := (c.h.fields, Flattened(levels));
    ResolvedFound(d, c.entries, f, known, s);
    var v := Found(c.entries, f, s.name, s.span).value;
    WorthRuns(c.h, c.fs, fuel, levels, s.value, env, w);
    ReifiedRuns(c.h, Folded(c), fuel, v, env, w);
    KeptAnnotation(c.h, s.annotation, v);
    AgreeDeclare(d, levels, env, s.name, Some(v), Held(d, v));
  }

  /** An annotation that keeps a constant leaves it alone or stops the program. */
  lemma KeptAnnotation<W>(h: Host<W>, annotation: Option<string>, v: Value)
    requires Constant(v) && (annotation.Some? ==> Keeps(annotation.value, v))
    ensures var u := Held(h.fields, v); Coerced(h, annotation, u).Some? ==> Coerced(h, annotation, u) == Some(u)
  {
    if annotation.Some? && Retagged(Held(h.fields, v), annotation.value).Some? {
      KeepsHeld(h.fields, annotation.value, v);
    }
  }

  lemma {:induction false} BindKept<W>(c: Setting<W>, fuel: nat, f: string, levels: seq<Static>, s: Stmt,
                                             env: Env, w: W)
    requires Entered(c, f, levels, s, env) && Recorded(c.entries) && s.Bind?
    ensures RunStmt(c.h, Folded(c), fuel, FoldStmt(c.entries, f, Flattened(levels), s), env, w)
            == RunStmt(c.h, c.fs, fuel, s, env, w)
    ensures Leaves(c.h.fields, RunStmt(c.h, c.fs, fuel, s, env, w), levels, LevelsAfter(c.entries, f, levels, s))
    decreases fuel, 1, s, 2
  {
    hide Ready, Folded, Agree, Sure, Flattened, RunExpr, FoldExpr, Recorded;
    if s.initial.Some? {
      ExprKept(c, fuel, levels, s.initial.value, env, w);
    }
    forall v ensures Agree(c.h.fields, Topped(levels, s.name, None), Declare(env, s.name, v)) {
      AgreeDeclare(c.h.fields, levels, env, s.name, None, v);
    }
  }

  lemma {:induction false} AssignKept<W>(c: Setting<W>, fuel: nat, f: string, levels: seq<Static>, s: Stmt,
                                               env: Env, w: W)
    requires Entered(c, f, levels, s, env) && Recorded(c.entries) && s.Assign?
    ensures RunStmt(c.h, Folded(c), fuel, FoldStmt(c.entries, f, Flattened(levels), s), env, w)
            == RunStmt(c.h, c.fs, fuel, s, env, w)
    ensures Leaves(c.h.fields, RunStmt(c.h, c.fs, fuel, s, env, w), levels, LevelsAfter(c.entries, f, levels, s))
    decreases fuel, 1, s, 2
  {
    hide Ready, Folded, Agree, Sure, Flattened, RunExpr, FoldExpr, Recorded, Update, Declare;
    ExprKept(c, fuel, levels, s.value, env, w);
    assert Known(Flattened(levels), s.name).None?;
    forall v ensures Agree(c.h.fields, levels, Update(env, s.name, v)) {
      AgreeUpdate(c.h.fields, levels, env, s.name, v);
    }
    if Find(env, s.name).None? {
      forall v ensures Agree(c.h.fields, levels, Declare(env, s.name, v)) {
        AgreeImplicit(c.h.fields, levels, env, s.name, v);
      }
    }
  }

  lemma {:induction false} LocateKept<W>(c: Setting<W>, fuel: nat, levels: seq<Static>, e: Expr, env: Env, w: W)
    requires InStep(c, levels, env) && ExprProper(e)
    requires Root(e).Some? ==> Known(Flattened(levels), Root(e).value).None?
    ensures Locate(c.h, Folded(c), fuel, FoldExpr(Flattened(levels), e), env, w) == Locate(c.h, c.fs, fuel, e, env, w)
    ensures Locate(c.h, c.fs, fuel, e, env, w).At? ==> Root(e) == Some(Locate(c.h, c.fs, fuel, e, env, w).root)
    decreases fuel, 1, e, 2
  {
    hide Ready, Folded, Agree, Sure, Flattened, RunExpr, Recorded, Find, Reified;
    var known := Flattened(levels);
    if e.Operate? && |e.operands| > 0 && (e.op.Member? || e.op == Index || e.op == Slice) {
      assert FoldExpr(known, e).op == e.op && |FoldExpr(known, e).operands| == |e.operands|;
      OperandsFold(known, e.operands);
      assert forall i :: 0 <= i < |e.operands| ==> ExprProper(e.operands[i]) by { ProperOperands(e.operands); }
      LocateKept(c, fuel, levels, e.operands[0], env, w);
      var r := Locate(c.h, c.fs, fuel, e.operands[0], env, w);
      if r.At? && |e.operands| > 1 {
        ExprKept(c, fuel, levels, e.operands[1], env, r.world);
        var i := RunExpr(c.h, c.fs, fuel, e.operands[1], env, r.world);
        if i.Got? && |e.operands| > 2 {
          ExprKept(c, fuel, levels, e.operands[2], env, i.world);
        }
      }
    }
  }

  lemma {:induction false} OperandsFold(known: Static, es: seq<Expr>)
    requires Sure(known)
    ensures forall i :: 0 <= i < |es| ==> FoldExprs(known, es)[i] == FoldExpr(known, es[i])
    decreases es
  {
    hide FoldExpr, Sure;
    if es != [] {
      OperandsFold(known, es[1..]);
    }
  }

  lemma {:induction false} ProperOperands(es: seq<Expr>)
    requires ExprsProper(es)
    ensures forall i :: 0 <= i < |es| ==> ExprProper(es[i])
    decreases es
  {
    hide ExprProper;
    if es != [] {
      ProperOperands(es[1..]);
    }
  }

  lemma {:induction false} StoreKept<W>(c: Setting<W>, fuel: nat, f: string, levels: seq<Static>, s: Stmt,
                                              env: Env, w: W)
    requires Entered(c, f, levels, s, env) && Recorded(c.entries) && s.Store?
    ensures RunStmt(c.h, Folded(c), fuel, FoldStmt(c.entries, f, Flattened(levels), s), env, w)
            == RunStmt(c.h, c.fs, fuel, s, env, w)
    ensures Leaves(c.h.fields, RunStmt(c.h, c.fs, fuel, s, env, w), levels, LevelsAfter(c.entries, f, levels, s))
    decreases fuel, 1, s, 2
  {
    hide Ready, Folded, Agree, Sure, Flattened, RunExpr, FoldExpr, Recorded, Update, Locate, Find, Root;
    assert Root(s.target).Some? ==> Known(Flattened(levels), Root(s.target).value).None?;
    LocateKept(c, fuel, levels, s.target, env, w);
    var r := Locate(c.h, c.fs, fuel, s.target, env, w);
    if r.At? {
      ExprKept(c, fuel, levels, s.value, env, r.world);
      forall v ensures Agree(c.h.fields, levels, Update(env, r.root, v)) {
        AgreeUpdate(c.h.fields, levels, env, r.root, v);
      }
    }
  }

  lemma {:induction false} SimpleKept<W>(c: Setting<W>, fuel: nat, f: string, levels: seq<Static>, s: Stmt,
                                               env: Env, w: W)
    requires Entered(c, f, levels, s, env) && Recorded(c.entries) && (s.Do? || s.Return? || s.Break? || s.Continue?)
    ensures RunStmt(c.h, Folded(c), fuel, FoldStmt(c.entries, f, Flattened(levels), s), env, w)
            == RunStmt(c.h, c.fs, fuel, s, env, w)
    ensures Leaves(c.h.fields, RunStmt(c.h, c.fs, fuel, s, env, w), levels, LevelsAfter(c.entries, f, levels, s))
    decreases fuel, 1, s, 2
  {
    hide Ready, Folded, Agree, Sure, Flattened, RunExpr, FoldExpr, Recorded;
    AgreePop(c.h.fields, levels, env);
    if s.Do? {
      ExprKept(c, fuel, levels, s.value, env, w);
    } else if s.Return? && s.result.Some? {
      ExprKept(c, fuel, levels, s.result.value, env, w);
    }
  }

  lemma {:induction false} IfKept<W>(c: Setting<W>, fuel: nat, f: string, levels: seq<Static>, s: Stmt, env: Env,
                                           w: W)
    requires Entered(c, f, levels, s, env) && Recorded(c.entries) && s.If?
    ensures RunStmt(c.h, Folded(c), fuel, FoldStmt(c.entries, f, Flattened(levels), s), env, w)
            == RunStmt(c.h, c.fs, fuel, s, env, w)
    ensures Leaves(c.h.fields, RunStmt(c.h, c.fs, fuel, s, env, w), levels, LevelsAfter(c.entries, f, levels, s))
    decreases fuel, 1, s, 2
  {
    hide Ready, Folded, Agree, Sure, Flattened, RunExpr, FoldExpr, Recorded, RunBlock, FoldAll, AllProper, ResolvedAll,
         Leaves, Kept;
    ExprKept(c, fuel, levels, s.condition, env, w);
    var r := RunExpr(c.h, c.fs, fuel, s.condition, env, w);
    if r.Got? {
      PlainBlockKept(c, fuel, f, levels, s.yes, env, r.world);
      PlainBlockKept(c, fuel, f, levels, s.no, env, r.world);
      KeptLeaves(c.h.fields, RunBlock(c.h, c.fs, fuel, s.yes, map[], env, r.world), levels);
      KeptLeaves(c.h.fields, RunBlock(c.h, c.fs, fuel, s.no, map[], env, r.world), levels);
    }
    StoppedLeaves(c.h.fields, r, levels);
  }

  lemma StoppedLeaves<W>(d: Fields, r: Reply<W>, levels: seq<Static>)
    requires levels != []
    ensures Leaves(d, Stopped(r), levels, levels) && (r.Got? ==> Leaves(d, Fault(r.world), levels, levels))
  {
  }

  lemma {:induction false} UnsafeKept<W>(c: Setting<W>, fuel: nat, f: string, levels: seq<Static>, s: Stmt,
                                               env: Env, w: W)
    requires Entered(c, f, levels, s, env) && Recorded(c.entries) && s.Unsafe?
    ensures RunStmt(c.h, Folded(c), fuel, FoldStmt(c.entries, f, Flattened(levels), s), env, w)
            == RunStmt(c.h, c.fs, fuel, s, env, w)
    ensures Leaves(c.h.fields, RunStmt(c.h, c.fs, fuel, s, env, w), levels, LevelsAfter(c.entries, f, levels, s))
    decreases fuel, 1, s, 2
  {
    hide Ready, Folded, Agree, Sure, Flattened, Recorded, RunBlock, FoldAll, AllProper, ResolvedAll, Leaves, Kept;
    PlainBlockKept(c, fuel, f, levels, s.body, env, w);
    KeptLeaves(c.h.fields, RunBlock(c.h, c.fs, fuel, s.body, map[], env, w), levels);
  }

  // ----- loops -----

  lemma {:induction false} WhileKept<W>(c: Setting<W>, fuel: nat, f: string, levels: seq<Static>, s: Stmt,
                                              env: Env, w: W)
    requires Entered(c, f, levels, s, env) && Recorded(c.entries) && (s.While? || s.Loop?)
    ensures RunStmt(c.h, Folded(c), fuel, FoldStmt(c.entries, f, Flattened(levels), s), env, w)
            == RunStmt(c.h, c.fs, fuel, s, env, w)
    ensures Leaves(c.h.fields, RunStmt(c.h, c.fs, fuel, s, env, w), levels, LevelsAfter(c.entries, f, levels, s))
    decreases fuel, 1, s, 2
  {
    hide Ready, Folded, Agree, Sure, Flattened, Recorded, RunLoop, Kept, Leaves, FoldAll, FoldExpr, Proper, Resolved;
    LoopKept(c, fuel, f, levels, s, env, w);
    KeptLeaves(c.h.fields, RunLoop(c.h, c.fs, fuel, s, env, w), levels);
  }

  lemma {:induction false} LoopKept<W>(c: Setting<W>, fuel: nat, f: string, levels: seq<Static>, s: Stmt,
                                             env: Env, w: W)
    requires Entered(c, f, levels, s, env) && Recorded(c.entries) && (s.While? || s.Loop?)
    ensures RunLoop(c.h, Folded(c), fuel, FoldStmt(c.entries, f, Flattened(levels), s), env, w)
            == RunLoop(c.h, c.fs, fuel, s, env, w)
    ensures Kept(c.h.fields, RunLoop(c.h, c.fs, fuel, s, env, w), levels)
    decreases fuel, 1, s, 1
  {
    hide Ready, Folded, Agree, Sure, Flattened, Recorded, RunBlock, FoldAll, FoldExpr, RunExpr, AllProper, ResolvedAll;
    if fuel > 0 {
      if s.While? {
        ExprKept(c, fuel, levels, s.condition, env, w);
      }
      var r := if s.Loop? then Got(Truthful(true), w) else RunExpr(c.h, c.fs, fuel, s.condition, env, w);
      if r.Got? {
        PlainBlockKept(c, fuel - 1, f, levels, s.body, env, r.world);
        var flow := RunBlock(c.h, c.fs, fuel - 1, s.body, map[], env, r.world);
        if flow.Next? || flow.Continued? {
          LoopKept(c, fuel - 1, f, levels, s, flow.env, flow.world);
        }
      }
    }
  }

  lemma SureVariable(known: Static, x: string)
    requires Sure(known)
    ensures Sure(known[x := None])
  {
  }

  lemma {:induction false} ForKept<W>(c: Setting<W>, fuel: nat, f: string, levels: seq<Static>, s: Stmt, env: Env,
                                            w: W)
    requires Entered(c, f, levels, s, env) && Recorded(c.entries) && s.For?
    ensures RunStmt(c.h, Folded(c), fuel, FoldStmt(c.entries, f, Flattened(levels), s), env, w)
            == RunStmt(c.h, c.fs, fuel, s, env, w)
    ensures Leaves(c.h.fields, RunStmt(c.h, c.fs, fuel, s, env, w), levels, LevelsAfter(c.entries, f, levels, s))
    decreases fuel, 1, s, 2
  {
    hide Ready, Folded, Agree, Sure, Flattened, Recorded, FoldAll, FoldExpr, RunExpr, AllProper, ResolvedAll, RunRange,
         Leaves, Kept;
    SureVariable(Flattened(levels), s.name);
    ExprKept(c, fuel, levels, s.start, env, w);
    var r := RunExpr(c.h, c.fs, fuel, s.start, env, w);
    StoppedLeaves(c.h.fields, r, levels);
    if r.Got? && r.value.Whole? && r.value.tag == Int {
      ExprKept(c, fuel, levels, s.end, env, r.world);
      var q := RunExpr(c.h, c.fs, fuel, s.end, env, r.world);
      StoppedLeaves(c.h.fields, q, levels);
      if q.Got? && q.value.Whole? && q.value.tag == Int {
        RangeKept(c, fuel, f, levels, s.name, r.value.number, q.value.number, s.inclusive, s.body, env,
                  q.world);
        KeptLeaves(c.h.fields, RunRange(c.h, c.fs, fuel, s.name, r.value.number, q.value.number, s.inclusive, s.body,
                            env, q.world), levels);
      }
    }
  }

  lemma {:induction false} RangeKept<W>(c: Setting<W>, fuel: nat, f: string, levels: seq<Static>, x: string,
                                              i: int, end: int, inclusive: bool, body: seq<Stmt>, env: Env, w: W)
    requires InStep(c, levels, env) && Recorded(c.entries) && Sure(Flattened(levels)[x := None])
    requires AllProper(Consts(Flattened(levels)) - {x}, body)
             && ResolvedAll(c.h.fields, c.entries, f, Flattened(levels)[x := None], body)
    ensures RunRange(c.h, Folded(c), fuel, x, i, end, inclusive,
                     FoldAll(c.entries, f, Flattened(levels)[x := None], body), env, w)
            == RunRange(c.h, c.fs, fuel, x, i, end, inclusive, body, env, w)
    ensures Kept(c.h.fields, RunRange(c.h, c.fs, fuel, x, i, end, inclusive, body, env, w), levels)
    decreases fuel, 0
  {
    hide Ready, Folded, Agree, Sure, Flattened, Recorded, FoldAll, AllProper, ResolvedAll, RunBlock;
    if i < end || (i == end && inclusive) {
      if fuel > 0 {
        LoopBlockKept(c, fuel - 1, f, levels, x, Whole(Int, i), body, env, w);
        var flow := RunBlock(c.h, c.fs, fuel - 1, body, map[x := Whole(Int, i)], env, w);
        if flow.Next? || flow.Continued? {
          RangeKept(c, fuel - 1, f, levels, x, i + 1, end, inclusive, body, flow.env, flow.world);
        }
      }
    }
  }

  lemma {:induction false} EachKept<W>(c: Setting<W>, fuel: nat, f: string, levels: seq<Static>, s: Stmt,
                                             env: Env, w: W)
    requires Entered(c, f, levels, s, env) && Recorded(c.entries) && s.Each?
    ensures RunStmt(c.h, Folded(c), fuel, FoldStmt(c.entries, f, Flattened(levels), s), env, w)
            == RunStmt(c.h, c.fs, fuel, s, env, w)
    ensures Leaves(c.h.fields, RunStmt(c.h, c.fs, fuel, s, env, w), levels, LevelsAfter(c.entries, f, levels, s))
    decreases fuel, 1, s, 2
  {
    hide Ready, Folded, Agree, Sure, Flattened, Recorded, FoldAll, FoldExpr, RunExpr, AllProper, ResolvedAll, RunEach,
         Leaves, Kept;
    SureVariable(Flattened(levels), s.name);
    ExprKept(c, fuel, levels, s.iterable, env, w);
    var r := RunExpr(c.h, c.fs, fuel, s.iterable, env, w);
    StoppedLeaves(c.h.fields, r, levels);
    if r.Got? && c.h.items(r.value).Some? {
      ItemsKept(c, fuel, f, levels, s.name, c.h.items(r.value).value, s.body, env, r.world);
      KeptLeaves(c.h.fields, RunEach(c.h, c.fs, fuel, s.name, c.h.items(r.value).value, s.body, env, r.world), levels);
    }
  }

  lemma {:induction false} ItemsKept<W>(c: Setting<W>, fuel: nat, f: string, levels: seq<Static>, x: string,
                                              vs: seq<Value>, body: seq<Stmt>, env: Env, w: W)
    requires InStep(c, levels, env) && Recorded(c.entries) && Sure(Flattened(levels)[x := None])
    requires AllProper(Consts(Flattened(levels)) - {x}, body)
             && ResolvedAll(c.h.fields, c.entries, f, Flattened(levels)[x := None], body)
    ensures RunEach(c.h, Folded(c), fuel, x, vs, FoldAll(c.entries, f, Flattened(levels)[x := None], body), env, w)
            == RunEach(c.h, c.fs, fuel, x, vs, body, env, w)
    ensures Kept(c.h.fields, RunEach(c.h, c.fs, fuel, x, vs, body, env, w), levels)
    decreases fuel, 0
  {
    hide Ready, Folded, Agree, Sure, Flattened, Recorded, FoldAll, AllProper, ResolvedAll, RunBlock;
    if vs != [] && fuel > 0 {
      LoopBlockKept(c, fuel - 1, f, levels, x, vs[0], body, env, w);
      var flow := RunBlock(c.h, c.fs, fuel - 1, body, map[x := vs[0]], env, w);
      if flow.Next? || flow.Continued? {
        ItemsKept(c, fuel - 1, f, levels, x, vs[1..], body, flow.env, flow.world);
      }
    }
  }
}
