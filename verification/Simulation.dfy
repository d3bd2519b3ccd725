/** Compiled code does what the source does, step for step. */
module Simulation {
  import opened Kinds
  import opened CheckedArithmetic
  import opened Source
  import opened Machine
  import opened CodeGen
  import opened Represent
  import opened Execution
  import opened Endings
  import opened CallFrames
  import opened Statements

  /** A compiled program: where each function's code starts and which labels it was given. */
  datatype Linked = Linked(code: Code, program: Program, fns: Functions,
                           entry: map<string, nat>, base: map<string, nat>, routines: nat)

  ghost predicate FunctionOk(w: Linked, f: string)
    requires f in w.program && f in w.fns && f in w.entry && f in w.base
  {
    var (fn, info) := (w.program[f], w.fns[f]);
    && |fn.parameters| <= |info.frame| && info.parameters == info.frame[..|fn.parameters|]
    && FrameOk(info.frame) && info.returning == fn.returning
    && BlockOk(Enter(BodyContext(w.fns, fn, info, f == "main")), fn.body, |fn.parameters|) && BlockWithin(fn.body)
    && (f != "main" ==> At(w.code, w.entry[f], FunctionCode(w.fns, fn, info, false, w.base[f])))
  }

  ghost predicate Ready(w: Linked)
  {
    && Routines(w.code, w.routines)
    && w.fns.Keys == w.program.Keys == w.entry.Keys == w.base.Keys
    && forall f :: f in w.program ==> FunctionOk(w, f)
  }

  lemma ReadyKeys(w: Linked)
    requires Ready(w)
    ensures w.fns.Keys == w.program.Keys == w.entry.Keys == w.base.Keys && Routines(w.code, w.routines)
            && UniqueMarks(w.code)
  {
    hide FunctionOk, UniqueMarks;
  }

  // ----- expressions -----

  ghost predicate ExprReady(w: Linked, m: Registers, e: Expr, k: Kind, scopes: Scopes<Local>, env: Environment, t: nat)
  {
    && Ready(w) && At(w.code, m.pc, CodeExpr(w.fns, scopes, e, t)) && Reps(scopes, env, m.mem)
    && KindOf(w.fns, scopes, e) == Scalar(k) && WithinReserve(e) && Depth(m.stack) + Temporaries(e) <= STACK_BYTES
  }

  function Both(p: Program, fuel: nat, a: Expr, b: Expr, env: Environment): (r: Listed)
    ensures r.Values? ==> |r.values| == 2
  {
    match Eval(p, fuel, a, env)
    case Wrong(o) => WrongList(o)
    case Timeout(o) => TimeoutList(o)
    case Value(x, o) =>
      match Eval(p, fuel, b, env)
      case Wrong(o') => WrongList(o + o')
      case Timeout(o') => TimeoutList(o + o')
      case Value(y, o') => Values([x, y], o + o')
  }

  predicate Met(m: Registers, m': Registers, k: Kind, vs: seq<int>, o: Output, next: nat)
  {
    && m'.pc == next && m'.mem == m.mem && m'.stack == m.stack && m'.out == m.out + o
    && |vs| == 2 && InRange(k, vs[0]) && InRange(k, vs[1]) && Represents(k, vs[0], m'.eax)
    && Represents(k, vs[1], m'.ebx)
  }

  ghost predicate BothEnd(code: Code, m: Registers, n: nat, m': Registers, fuel: nat, r: Listed, k: Kind, next: nat)
  {
    || Early(code, m, n, fuel, JudgeList(r))
    || (r.Values? && Run(code, On(m), n) == On(m') && Met(m, m', k, r.values, r.out, next))
  }

  /** The right operand, once the left one is in the accumulator. */
  lemma {:induction false} SimRight(w: Linked, m: Registers, fuel: nat, x: int, b: Expr, k: Kind, last: Instr,
                                    scopes: Scopes<Local>, env: Environment, t: nat, e: Expr)
    returns (n: nat, m': Registers)
    requires b < e && Ready(w) && Reps(scopes, env, m.mem) && InRange(k, x) && Represents(k, x, m.eax)
    requires At(w.code, m.pc, [Push(Wide(k))]
                + (CodeExpr(w.fns, scopes, b, t) + [ToSecondary(Wide(k)), Pop(Wide(k)), last]))
    requires KindOf(w.fns, scopes, b) == Scalar(k) && WithinReserve(b)
             && Depth(m.stack) + StackBytes(k) + Temporaries(b) <= STACK_BYTES
    ensures var rb := Eval(w.program, fuel, b, env);
            || Early(w.code, m, n, fuel, Judge(rb))
            || (rb.Value? && Run(w.code, On(m), n) == On(m')
                && Met(m, m', k, [x, rb.value], rb.out, m.pc + |CodeExpr(w.fns, scopes, b, t)| + 3)
                && m'.pc < |w.code| && w.code[m'.pc] == last)
    decreases fuel, e, 0
  {
    hide Run, Eval, CodeExpr, KindOf, Tags, Temporaries, WithinReserve, Ready, Depth, Reps, Represents, InRange, Early,
         At, Moved;
    var (cb, tail) := (CodeExpr(w.fns, scopes, b, t), [ToSecondary(Wide(k)), Pop(Wide(k)), last]);
    AtHead(w.code, m.pc, Push(Wide(k)), cb + tail);
    AtSplit(w.code, m.pc + 1, cb, tail);
    var m2 := PushEnds(w.code, m, k);
    PushedRepresents(k, x, m.eax);
    var rb := Eval(w.program, fuel, b, env);
    var n2, m3 := SimExpr(w, m2, fuel, b, k, scopes, env, t);
    n, m' := 1 + n2, m3;
    assert m.out + [] == m.out && [] + rb.out == rb.out;
    if Early(w.code, m2, n2, fuel, Judge(rb)) {
      EarlyLater(w.code, m, 1, m2, [], n2, fuel, fuel, Judge(rb));
    } else {
      m' := OperandsMeet(w.code, m3, k, x, rb.value, Pushed(k, m.eax), m.stack, last);
      Continue'(w.code, m, 1, m2, n2);
      Continue'(w.code, m, 1 + n2, m3, 2);
      n := 1 + n2 + 2;
    }
  }

  /** Both operands of a binary operation, left one first. */
  lemma {:induction false} SimBoth(w: Linked, m: Registers, fuel: nat, a: Expr, b: Expr, k: Kind, last: Instr,
                                   scopes: Scopes<Local>, env: Environment, t: nat, e: Expr)
    returns (n: nat, m': Registers)
    requires a < e && b < e && Ready(w) && Reps(scopes, env, m.mem)
    requires At(w.code, m.pc, BinaryCode(CodeExpr(w.fns, scopes, a, t), CodeExpr(w.fns, scopes, b, t + Tags(a)),
                                         Wide(k), last))
    requires KindOf(w.fns, scopes, a) == Scalar(k) && KindOf(w.fns, scopes, b) == Scalar(k) && WithinReserve(a)
             && WithinReserve(b)
    requires Depth(m.stack) + Larger(Temporaries(a), StackBytes(k) + Temporaries(b)) <= STACK_BYTES
    ensures BothEnd(w.code, m, n, m', fuel, Both(w.program, fuel, a, b, env), k,
                    m.pc + |BinaryCode(CodeExpr(w.fns, scopes, a, t), CodeExpr(w.fns, scopes, b, t + Tags(a)), Wide(k),
                                       last)| - 1)
    ensures !Early(w.code, m, n, fuel, JudgeList(Both(w.program, fuel, a, b, env))) ==>
              m'.pc < |w.code| && w.code[m'.pc] == last
    decreases fuel, e, 1
  {
    hide Run, Eval, CodeExpr, KindOf, Tags, Temporaries, WithinReserve, Ready, Depth, Reps, Represents, InRange, Early,
         At;
    var (ca, cb) := (CodeExpr(w.fns, scopes, a, t), CodeExpr(w.fns, scopes, b, t + Tags(a)));
    AtSplit(w.code, m.pc, ca, [Push(Wide(k))] + (cb + [ToSecondary(Wide(k)), Pop(Wide(k)), last]));
    var (ra, rb, r) := (Eval(w.program, fuel, a, env), Eval(w.program, fuel, b, env), Both(w.program, fuel, a, b, env));
    var n1, m1 := SimExpr(w, m, fuel, a, k, scopes, env, t);
    n, m' := n1, m1;
    if Early(w.code, m, n, fuel, Judge(ra)) {
      if ra.Value? { EarlyFirst(w.code, m, n, fuel, Judge(ra), JudgeList(r), rb.out); }
    } else {
      var n2;
      n2, m' := SimRight(w, m1, fuel, ra.value, b, k, last, scopes, env, t + Tags(a), e);
      n := n1 + n2;
      Continue'(w.code, m, n1, m1, n2);
      if Early(w.code, m1, n2, fuel, Judge(rb)) {
        EarlyLater(w.code, m, n1, m1, ra.out, n2, fuel, fuel, Judge(rb));
      } else {
        assert m.out + (ra.out + rb.out) == m.out + ra.out + rb.out;
      }
    }
  }

  lemma CombinedIsEval(p: Program, fuel: nat, e: Expr, env: Environment)
    requires e.Arithmetic? || e.Compare?
    ensures Eval(p, fuel, e, env) == Combined(e, Both(p, fuel, e.left, e.right, env))
  {
    hide Checked, Holds;
  }

  function Last(e: Expr): Instr
    requires e.Arithmetic? || e.Compare?
  {
    if e.Arithmetic? then Operate(e.op, e.kind) else Test(e.comparison, e.kind)
  }

  lemma OperationReady(w: Linked, m: Registers, e: Expr, k: Kind, scopes: Scopes<Local>, env: Environment, t: nat)
    requires ExprReady(w, m, e, k, scopes, env, t) && (e.Arithmetic? || e.Compare?)
    ensures k == (if e.Arithmetic? then e.kind else Bool) && (e.Arithmetic? ==> Numeric(e.kind))
    ensures KindOf(w.fns, scopes, e.left) == Scalar(e.kind) && KindOf(w.fns, scopes, e.right) == Scalar(e.kind)
    ensures WithinReserve(e.left) && WithinReserve(e.right)
    ensures Temporaries(e) == Larger(Temporaries(e.left), StackBytes(e.kind) + Temporaries(e.right))
    ensures CodeExpr(w.fns, scopes, e, t) ==
            BinaryCode(CodeExpr(w.fns, scopes, e.left, t), CodeExpr(w.fns, scopes, e.right, t + Tags(e.left)),
                       Wide(e.kind), Last(e))
  {
    hide BinaryCode, Ready, Reps, At, Depth, Lookup;
  }

  lemma {:induction false} SimOperation(w: Linked, m: Registers, fuel: nat, e: Expr, k: Kind, scopes: Scopes<Local>,
                                        env: Environment, t: nat)
    returns (n: nat, m': Registers)
    requires ExprReady(w, m, e, k, scopes, env, t) && (e.Arithmetic? || e.Compare?)
    ensures ExprEnds(w.code, m, n, m', fuel, Eval(w.program, fuel, e, env), k, m.pc + |CodeExpr(w.fns, scopes, e, t)|)
    decreases fuel, e, 2
  {
    hide Eval, CodeExpr, KindOf, Both, At, Reps, Early, Run, WithinReserve, BinaryCode, Depth, Temporaries, Met,
         ExprEnds, Combined, Ready, Tags, Larger;
    OperationReady(w, m, e, k, scopes, env, t);
    CombinedIsEval(w.program, fuel, e, env);
    var n1, m1 := SimBoth(w, m, fuel, e.left, e.right, e.kind, Last(e), scopes, env, t, e);
    n, m' := FinishOperation(w, m, n1, m1, fuel, e, k, Both(w.program, fuel, e.left, e.right, env),
                             m.pc + |CodeExpr(w.fns, scopes, e, t)| - 1);
  }

  lemma FinishOperation(w: Linked, m: Registers, n1: nat, m1: Registers, fuel: nat, e: Expr, k: Kind, r: Listed,
                        pc: int) returns (n: nat, m': Registers)
    requires Ready(w) && (e.Arithmetic? || e.Compare?) && k == (if e.Arithmetic? then e.kind else Bool)
             && (e.Arithmetic? ==> Numeric(e.kind))
    requires 0 <= pc && BothEnd(w.code, m, n1, m1, fuel, r, e.kind, pc) && (r.Values? ==> |r.values| == 2)
    requires !Early(w.code, m, n1, fuel, JudgeList(r)) ==> m1.pc < |w.code| && w.code[m1.pc] == Last(e)
    ensures ExprEnds(w.code, m, n, m', fuel, Combined(e, r), k, pc + 1)
  {
    hide Represents, InRange, Checked, Holds, Early, Run, ExprEnds, Routines, FunctionOk;
    n, m' := n1, m1;
    if Early(w.code, m, n1, fuel, JudgeList(r)) {
      EarlyCombined(w.code, m, n1, m1, fuel, e, r, k, pc + 1);
    } else {
      var (x, y) := (r.values[0], r.values[1]);
      if e.Arithmetic? {
        var f := Checked(e.op, e.kind, x, y);
        n, m' := OperateEnds(w.code, w.routines, m1, e.op, e.kind, x, y, fuel);
        OperationEnds(w.code, m, n1, m1, fuel, n, m', k, r.out,
                      match f case Fits(v) => Value(v, []) case NoFit => Wrong([]), pc + 1);
        n := n1 + n;
      } else {
        m' := TestEnds(w.code, m1, e.comparison, e.kind, x, y);
        var v := Value(Numeral(Holds(e.comparison, x, y)), []);
        assert ExprEnds(w.code, m1, 1, m', fuel, v, k, pc + 1) by { ArrivedEnds(w.code, m1, 1, m', fuel, v, k, pc + 1);
            }
        OperationEnds(w.code, m, n1, m1, fuel, 1, m', k, r.out, v, pc + 1);
        n := n1 + 1;
      }
      assert r.out + [] == r.out;
    }
  }

  lemma ArrivedEnds(code: Code, m: Registers, n: nat, m': Registers, fuel: nat, r: Valued, k: Kind, next: nat)
    requires r.Value? && Run(code, On(m), n) == On(m') && Arrived(m, m', k, r.value, r.out, next)
    ensures ExprEnds(code, m, n, m', fuel, r, k, next)
  {
  }

  lemma EarlyCombined(code: Code, m: Registers, n: nat, m': Registers, fuel: nat, e: Expr, r: Listed, k: Kind,
                      next: nat)
    requires (e.Arithmetic? || e.Compare?) && (r.Values? ==> |r.values| == 2) && Early(code, m, n, fuel, JudgeList(r))
    ensures ExprEnds(code, m, n, m', fuel, Combined(e, r), k, next)
  {
    hide Early, Checked, Holds;
    if r.Values? {
      EarlyFirst(code, m, n, fuel, JudgeList(r), Judge(Combined(e, r)), []);
    }
  }

  lemma OperationEnds(code: Code, m: Registers, n: nat, m1: Registers, fuel: nat, n2: nat, m2: Registers, k: Kind,
                      o: Output, r: Valued, next: nat)
    requires Run(code, On(m), n) == On(m1) && m1.mem == m.mem && m1.stack == m.stack && m1.out == m.out + o
    requires ExprEnds(code, m1, n2, m2, fuel, r, k, next)
    ensures ExprEnds(code, m, n + n2, m2, fuel, Before(o, r), k, next)
  {
    hide Run, Represents, InRange;
    Continue'(code, m, n, m1, n2);
    if Early(code, m1, n2, fuel, Judge(r)) {
      EarlyLater(code, m, n, m1, o, n2, fuel, fuel, Judge(r));
    } else {
      assert m.out + (o + r.out) == m.out + o + r.out;
    }
  }

  /** An operation's value in terms of its operands' values. */
  function Combined(e: Expr, r: Listed): Valued
    requires (e.Arithmetic? || e.Compare?) && (r.Values? ==> |r.values| == 2)
  {
    match r
    case WrongList(o) => Wrong(o)
    case TimeoutList(o) => Timeout(o)
    case Values(vs, o) =>
      if e.Compare? then Value(Numeral(Holds(e.comparison, vs[0], vs[1])), o)
      else match Checked(e.op, e.kind, vs[0], vs[1])
           case Fits(v) => Value(v, o)
           case NoFit => Wrong(o)
  }

  // ----- short circuits -----

  /** `a && b` and `a || b` in terms of the value of `a`. */
  function Shorted(either: bool, ra: Valued, rb: Valued): Valued
  {
    match ra
    case Value(x, o) => if (x != 0) == either then Value(Numeral(either), o) else Before(o, rb)
    case other => other
  }

  lemma ShortReady(w: Linked, m: Registers, e: Expr, k: Kind, scopes: Scopes<Local>, env: Environment, t: nat)
    requires ExprReady(w, m, e, k, scopes, env, t) && (e.And? || e.Or?)
    ensures k == Bool && KindOf(w.fns, scopes, e.left) == KindOf(w.fns, scopes, e.right) == Scalar(Bool)
    ensures WithinReserve(e.left) && WithinReserve(e.right)
            && Temporaries(e) == Larger(Temporaries(e.left), Temporaries(e.right))
  {
    hide Ready, Reps, At, Depth, Lookup, CodeExpr;
  }

  lemma ShortShape(fns: Functions, scopes: Scopes<Local>, e: Expr, t: nat)
    requires e.And? || e.Or?
    ensures CodeExpr(fns, scopes, e, t) == CodeExpr(fns, scopes, e.left, t) +
              ([Bail(e.Or?, t + Tags(e.left))]
               + (CodeExpr(fns, scopes, e.right, t + Tags(e.left) + 2) + Rejoin(e.Or?, t + Tags(e.left))))
  {
    hide Tags;
  }

  lemma ShortMeaning(p: Program, fuel: nat, e: Expr, env: Environment)
    requires e.And? || e.Or?
    ensures Eval(p, fuel, e, env) == Shorted(e.Or?, Eval(p, fuel, e.left, env), Eval(p, fuel, e.right, env))
  {
  }

  lemma {:induction false} SimShort(w: Linked, m: Registers, fuel: nat, e: Expr, k: Kind, scopes: Scopes<Local>,
                                    env: Environment, t: nat)
    returns (n: nat, m': Registers)
    requires ExprReady(w, m, e, k, scopes, env, t) && (e.And? || e.Or?)
    ensures ExprEnds(w.code, m, n, m', fuel, Eval(w.program, fuel, e, env), k, m.pc + |CodeExpr(w.fns, scopes, e, t)|)
    decreases fuel, e, 1
  {
    hide Eval, CodeExpr, KindOf, At, Reps, Early, Run, WithinReserve, Depth, Temporaries, Tags, Rejoin, Bail,
         FunctionOk, UniqueMarks;
    ShortReady(w, m, e, k, scopes, env, t);
    ShortShape(w.fns, scopes, e, t);
    ShortMeaning(w.program, fuel, e, env);
    var (either, sc) := (e.Or?, t + Tags(e.left));
    var (ca, cb) := (CodeExpr(w.fns, scopes, e.left, t), CodeExpr(w.fns, scopes, e.right, sc + 2));
    var (ra, rb) := (Eval(w.program, fuel, e.left, env), Eval(w.program, fuel, e.right, env));
    AtSplit(w.code, m.pc, ca, [Bail(either, sc)] + (cb + Rejoin(either, sc)));
    var n1, m1 := SimExpr(w, m, fuel, e.left, Bool, scopes, env, t);
    n, m' := n1, m1;
    if Early(w.code, m, n1, fuel, Judge(ra)) {
      if ra.Value? { EarlyFirst(w.code, m, n1, fuel, Judge(ra), Judge(Shorted(either, ra, rb)),
                                if (ra.value != 0) == either then [] else rb.out); }
    } else if (ra.value != 0) == either {
      m' := ShortDecides(w.code, m1, cb, either, sc);
      ArrivedThen(w.code, m, n1, m1, Bool, ra.value, ra.out, m1.pc, 4, m', Bool, Numeral(either), [], m'.pc);
      n := n1 + 4;
      assert ra.out + [] == ra.out;
    } else {
      n, m' := SimShortRight(w, m1, fuel, e, cb, either, sc, scopes, env);
      OperationEnds(w.code, m, n1, m1, fuel, n, m', Bool, ra.out, rb, m1.pc + 1 + |cb| + 4);
      n := n1 + n;
    }
    assert |Rejoin(either, sc)| == 4 by { RejoinLength(either, sc); }
  }

  lemma RejoinLength(either: bool, shortcut: nat)
    ensures |Rejoin(either, shortcut)| == 4
  {
  }

  lemma {:induction false} SimShortRight(w: Linked, m: Registers, fuel: nat, e: Expr, cb: Code, either: bool, sc: nat,
                                         scopes: Scopes<Local>, env: Environment)
    returns (n: nat, m': Registers)
    requires Ready(w) && (e.And? || e.Or?) && cb == CodeExpr(w.fns, scopes, e.right, sc + 2) && Reps(scopes, env, m.mem)
    requires KindOf(w.fns, scopes, e.right) == Scalar(Bool) && WithinReserve(e.right)
             && Depth(m.stack) + Temporaries(e.right) <= STACK_BYTES
    requires At(w.code, m.pc, [Bail(either, sc)] + (cb + Rejoin(either, sc))) && (Low(m.eax) != 0) != either
    ensures ExprEnds(w.code, m, n, m', fuel, Eval(w.program, fuel, e.right, env), Bool, m.pc + 1 + |cb| + 4)
    decreases fuel, e, 0
  {
    hide Eval, CodeExpr, KindOf, At, Reps, Early, Run, WithinReserve, Depth, Temporaries, Rejoin, Bail, FunctionOk,
         UniqueMarks;
    var m1 := ShortPasses(w.code, m, cb, either, sc);
    var rb := Eval(w.program, fuel, e.right, env);
    var n2, m2 := SimExpr(w, m1, fuel, e.right, Bool, scopes, env, sc + 2);
    n, m' := 1 + n2, m2;
    assert m.out + [] == m.out && [] + rb.out == rb.out;
    if Early(w.code, m1, n2, fuel, Judge(rb)) {
      EarlyLater(w.code, m, 1, m1, [], n2, fuel, fuel, Judge(rb));
    } else {
      m' := ShortJoins(w.code, m2, either, sc, rb.value);
      ArrivedThen(w.code, m1, n2, m2, Bool, rb.value, rb.out, m2.pc, 2, m', Bool, rb.value, [], m'.pc);
      assert rb.out + [] == rb.out;
      Continue'(w.code, m, 1, m1, n2 + 2);
      n := 1 + (n2 + 2);
    }
  }

  // ----- unary operations and leaves -----

  lemma {:induction false} SimUnary(w: Linked, m: Registers, fuel: nat, e: Expr, k: Kind, scopes: Scopes<Local>,
                                    env: Environment, t: nat)
    returns (n: nat, m': Registers)
    requires ExprReady(w, m, e, k, scopes, env, t) && (e.Not? || e.Negate?)
    ensures ExprEnds(w.code, m, n, m', fuel, Eval(w.program, fuel, e, env), k, m.pc + |CodeExpr(w.fns, scopes, e, t)|)
    decreases fuel, e, 1
  {
    hide At, Reps, Early, Run, Depth, FunctionOk, UniqueMarks;
    if e.Negate? && e.operand.Literal? && e.operand.value == TWO_31 {
      m' := MinimumEnds(w.code, m);
      n := 1;
    } else {
      var (op, ca) := (if e.Not? then Invert else Minus, CodeExpr(w.fns, scopes, e.operand, t));
      assert CodeExpr(w.fns, scopes, e, t) == ca + [op] && KindOf(w.fns, scopes, e.operand) == Scalar(k)
             && k == (if e.Not? then Bool else I32);
      assert WithinReserve(e.operand) && Temporaries(e.operand) == Temporaries(e);
      var r := Eval(w.program, fuel, e, env);
      var ra := Eval(w.program, fuel, e.operand, env);
      assert r == Unary(e, ra);
      hide Eval, CodeExpr, KindOf, WithinReserve, Temporaries;
      AtSplit(w.code, m.pc, ca, [op]);
      var n1, m1 := SimExpr(w, m, fuel, e.operand, k, scopes, env, t);
      n, m' := FinishUnary(w, m, n1, m1, fuel, e, k, ra, m.pc + |ca|);
    }
  }

  function Unary(e: Expr, ra: Valued): Valued
  {
    match ra
    case Value(v, o) => if e.Not? then Value(1 - v, o) else if InRange(I32, -v) then Value(-v, o) else Wrong(o)
    case other => other
  }

  lemma FinishUnary(w: Linked, m: Registers, n1: nat, m1: Registers, fuel: nat, e: Expr, k: Kind, ra: Valued, pc: nat)
      returns (n: nat, m': Registers)
    requires Ready(w) && (e.Not? || e.Negate?) && k == (if e.Not? then Bool else I32)
             && At(w.code, pc, [if e.Not? then Invert else Minus])
    requires ExprEnds(w.code, m, n1, m1, fuel, ra, k, pc)
    ensures ExprEnds(w.code, m, n, m', fuel, Unary(e, ra), k, pc + 1)
  {
    hide At, Early, Run, FunctionOk, Routines, Represents, InRange;
    n, m' := n1, m1;
    if Early(w.code, m, n1, fuel, Judge(ra)) {
      if ra.Value? { EarlyFirst(w.code, m, n1, fuel, Judge(ra), Judge(Unary(e, ra)), []); }
    } else {
      assert ra.out + [] == ra.out;
      if e.Not? {
        m' := InvertEnds(w.code, m1, ra.value);
        ArrivedThen(w.code, m, n1, m1, k, ra.value, ra.out, pc, 1, m', Bool, 1 - ra.value, [], pc + 1);
        n := n1 + 1;
      } else {
        n, m' := MinusEnds(w.code, w.routines, m1, ra.value, fuel);
        OperationEnds(w.code, m, n1, m1, fuel, n, m', k, ra.out,
                      if InRange(I32, -ra.value) then Value(-ra.value, []) else Wrong([]), pc + 1);
        n := n1 + n;
      }
    }
  }

  lemma SimLeaf(w: Linked, m: Registers, fuel: nat, e: Expr, k: Kind, scopes: Scopes<Local>, env: Environment, t: nat)
    returns (n: nat, m': Registers)
    requires ExprReady(w, m, e, k, scopes, env, t) && (e.Literal? || e.Truth? || e.Variable?)
    ensures ExprEnds(w.code, m, n, m', fuel, Eval(w.program, fuel, e, env), k, m.pc + |CodeExpr(w.fns, scopes, e, t)|)
  {
    hide At, Early, Run, Depth, Ready, Represents, InRange, Reps, WithinReserve, Temporaries;
    n := 1;
    if e.Variable? {
      m' := SimVariable(w, m, fuel, e, k, scopes, env, t);
    } else {
      var v := if e.Literal? then e.value else Numeral(e.truth);
      LeafShape(w.fns, scopes, e, k, t);
      m' := LiteralEnds(w.code, m, v, k);
    }
  }

  lemma LeafShape(fns: Functions, scopes: Scopes<Local>, e: Expr, k: Kind, t: nat)
    requires (e.Literal? || e.Truth?) && KindOf(fns, scopes, e) == Scalar(k)
    ensures var v := if e.Literal? then e.value else Numeral(e.truth);
            InRange(k, v) && CodeExpr(fns, scopes, e, t) == [if Wide(k) then Full(v) else Narrow(v)]
  {
  }

  lemma SimVariable(w: Linked, m: Registers, fuel: nat, e: Expr, k: Kind, scopes: Scopes<Local>, env: Environment,
                    t: nat)
    returns (m': Registers)
    requires ExprReady(w, m, e, k, scopes, env, t) && e.Variable?
    ensures ExprEnds(w.code, m, 1, m', fuel, Eval(w.program, fuel, e, env), k, m.pc + |CodeExpr(w.fns, scopes, e, t)|)
  {
    hide At, Early, Run, Depth, Ready, Represents, InRange, Reps, WithinReserve, Temporaries, Lookup, SlotHolds;
    var i := LookupReps(scopes, env, m.mem, e.name);
    m' := VariableEnds(w.code, m, Lookup(scopes, e.name)[0], Lookup(env, e.name)[0]);
  }

  // ----- arguments -----

  ghost predicate ArgumentsEnd(code: Code, m: Registers, n: nat, m': Registers, fuel: nat, r: Listed, ls: seq<Local>,
                               next: nat)
  {
    || Early(code, m, n, fuel, JudgeList(r))
    || (r.Values? && Run(code, On(m), n) == On(m') && Stacked(m, m', ls, r.values, r.out, next))
  }

  /** Arguments, each pushed as soon as it is evaluated. */
  lemma {:induction false} SimArguments(w: Linked, m: Registers, fuel: nat, es: seq<Expr>, ls: seq<Local>,
                                        scopes: Scopes<Local>, env: Environment, t: nat)
    returns (n: nat, m': Registers)
    requires Ready(w) && Reps(scopes, env, m.mem) && At(w.code, m.pc, CodeArguments(w.fns, scopes, es, ls, t))
    requires ArgumentsOk(w.fns, scopes, es, ls) && AllWithinReserve(es)
    requires Depth(m.stack) + EXPRESSION_RESERVE + SlotBytes(ls) <= STACK_BYTES
    ensures ArgumentsEnd(w.code, m, n, m', fuel, EvalAll(w.program, fuel, es, env), ls,
                         m.pc + |CodeArguments(w.fns, scopes, es, ls, t)|)
    decreases fuel, es, 0
  {
    hide Run, Eval, CodeExpr, KindOf, Tags, WithinReserve, Ready, Depth, Reps, Represents, InRange, Early, At,
         SlotBytes, Stacked;
    if es == [] {
      n, m' := 0, m;
      RunZero(w.code, On(m));
      assert ls == [];
      StackedNone(m);
    } else {
      var (ca, rest) := (CodeExpr(w.fns, scopes, es[0], t),
                         CodeArguments(w.fns, scopes, es[1..], ls[1..], t + Tags(es[0])));
      var k := ls[0].kind;
      SlotBytesCons(ls);
      AtSplit(w.code, m.pc, ca, [Push(Wide(k))] + rest);
      AtHead(w.code, m.pc + |ca|, Push(Wide(k)), rest);
      assert Temporaries(es[0]) <= EXPRESSION_RESERVE by { ReserveBound(es[0]); }
      var (ra, rs) := (Eval(w.program, fuel, es[0], env), EvalAll(w.program, fuel, es[1..], env));
      var n1, m1 := SimExpr(w, m, fuel, es[0], k, scopes, env, t);
      n, m' := n1, m1;
      if Early(w.code, m, n1, fuel, Judge(ra)) {
        if ra.Value? { EarlyFirst(w.code, m, n1, fuel, Judge(ra), JudgeList(EvalAll(w.program, fuel, es, env)), rs.out);
            }
      } else {
        var m2 := PushEnds(w.code, m1, k);
        var n2;
        n2, m' := SimArguments(w, m2, fuel, es[1..], ls[1..], scopes, env, t + Tags(es[0]));
        n := n1 + 1 + n2;
        Continue'(w.code, m, n1, m1, 1);
        Continue'(w.code, m, n1 + 1, m2, n2);
        if Early(w.code, m2, n2, fuel, JudgeList(rs)) {
          EarlyLater(w.code, m, n1 + 1, m2, ra.out, n2, fuel, fuel, JudgeList(rs));
        } else {
          StackedCons(m, m1, m2, m', ls, ra.value, ra.out, rs.values, rs.out, m1.pc, m2.pc + |rest|);
        }
      }
    }
  }

  lemma ReserveBound(e: Expr)
    requires WithinReserve(e)
    ensures Temporaries(e) <= EXPRESSION_RESERVE
  {
    hide Temporaries;
  }

  // ----- calls -----

  ghost predicate CallReady(w: Linked, m: Registers, f: string, es: seq<Expr>, scopes: Scopes<Local>, env: Environment,
                            t: nat)
  {
    && Ready(w) && Callable(w.fns, f, |es|) && ArgumentsOk(w.fns, scopes, es, w.fns[f].parameters)
    && AllWithinReserve(es)
    && At(w.code, m.pc, CodeCall(w.fns, scopes, w.fns[f], es, t)) && Reps(scopes, env, m.mem)
  }

  /** The call came back: memory and stack are as before it, the result is in the accumulator. */
  predicate Back(m: Registers, m': Registers, returning: Returning, vs: seq<int>, o: Output, next: nat)
  {
    m'.pc == next && m'.mem == m.mem && m'.stack == m.stack && m'.out == m.out + o && ResultOk(returning, vs, m'.eax)
  }

  ghost predicate CallEnds(code: Code, m: Registers, n: nat, m': Registers, fuel: nat, r: Listed, returning: Returning,
                           next: nat)
  {
    || Early(code, m, n, fuel, JudgeList(r))
    || (r.Values? && Run(code, On(m), n) == On(m') && Back(m, m', returning, r.values, r.out, next))
  }

  /** A callable function of the program and what is known of it. */
  predicate Has(w: Linked, f: string, fn: Function, info: Info)
  {
    f in w.program && f in w.fns && f in w.entry && f in w.base && w.program[f] == fn && w.fns[f] == info && f != "main"
  }

  lemma HasFacts(w: Linked, f: string, fn: Function, info: Info)
    requires Ready(w) && Has(w, f, fn, info)
    ensures |fn.parameters| == |info.parameters| <= |info.frame| && info.parameters == info.frame[..|info.parameters|]
    ensures FrameOk(info.frame) && info.returning == fn.returning && Routines(w.code, w.routines) && UniqueMarks(w.code)
    ensures BlockOk(Enter(BodyContext(w.fns, fn, info, false)), fn.body, |fn.parameters|) && BlockWithin(fn.body)
    ensures At(w.code, w.entry[f], FunctionCode(w.fns, fn, info, false, w.base[f]))
  {
    hide FrameOk, UniqueMarks, BlockOk, BlockWithin, At, FunctionCode;
    assert FunctionOk(w, f);
  }

  lemma ActivationScope(fns: Functions, fn: Function, info: Info, vs: seq<int>, mem: Memory)
    requires |fn.parameters| == |info.parameters| == |vs| <= |info.frame|
             && info.parameters == info.frame[..|info.parameters|]
    requires FrameOk(info.frame) && forall i :: 0 <= i < |vs| ==> SlotHolds(mem, info.parameters[i], vs[i])
    ensures Reps(Enter(BodyContext(fns, fn, info, false)).scopes, [Bind(fn.parameters, vs)] + [map[]], mem)
    ensures Placed(Enter(BodyContext(fns, fn, info, false)).scopes, info.frame, |fn.parameters|)
  {
    assert forall i :: 0 <= i < |vs| ==> info.frame[i] == info.parameters[i];
    hide SlotHolds, Placed, Reps, ParameterScope, Bind;
    var (scope, values) := (ParameterScope(fn.parameters, info.frame), Bind(fn.parameters, vs));
    ParameterReps(fn.parameters, info.frame, vs, mem);
    OneScopeReps(scope, values, mem);
    ParametersPlaced(fn.parameters, info.frame);
    EnterReps([scope], [values], mem);
    EnterPlaced([scope], info.frame, |fn.parameters|);
  }

  lemma FunctionLayout(code: Code, pc: nat, fns: Functions, fn: Function, info: Info, t: nat)
    requires UniqueMarks(code) && At(code, pc, FunctionCode(fns, fn, info, false, t))
    ensures var block := CodeBlock(Enter(BodyContext(fns, fn, info, false)), fn.body, |fn.parameters|, t);
            && pc < |code| && code[pc] == Mark(info.tag) && Target(code, info.tag) == pc && At(code, pc + 1, block)
            && At(code, pc + 1 + |block|, Epilogue(info, false))
  {
    hide CodeBlock, At, Epilogue, Target, UniqueMarks, BodyContext, Enter;
    var block := CodeBlock(Enter(BodyContext(fns, fn, info, false)), fn.body, |fn.parameters|, t);
    AtHead(code, pc, Mark(info.tag), block + Epilogue(info, false));
    AtSplit(code, pc + 1, block, Epilogue(info, false));
    TargetOfMark(code, pc);
  }

  lemma OneScopeReps(scope: map<string, Local>, values: map<string, int>, mem: Memory)
    requires ScopeReps(scope, values, mem)
    ensures Reps([scope], [values], mem)
  {
    hide ScopeReps;
  }

  lemma {:induction false} ParameterReps(ps: seq<Parameter>, frame: seq<Local>, vs: seq<int>, mem: Memory)
    requires |ps| == |vs| <= |frame| && forall i :: 0 <= i < |vs| ==> SlotHolds(mem, frame[i], vs[i])
    ensures ScopeReps(ParameterScope(ps, frame), Bind(ps, vs), mem)
    decreases ps
  {
    hide SlotHolds;
    if ps != [] {
      ParameterReps(ps[..|ps| - 1], frame, vs[..|ps| - 1], mem);
    }
  }

  lemma {:induction false} ParameterSlot(ps: seq<Parameter>, frame: seq<Local>, x: string) returns (i: nat)
    requires |ps| <= |frame| && x in ParameterScope(ps, frame)
    ensures i < |ps| && ps[i].name == x && ParameterScope(ps, frame)[x] == frame[i]
    decreases ps
  {
    var last := |ps| - 1;
    i := last;
    if ps[last].name != x {
      i := ParameterSlot(ps[..last], frame, x);
    }
  }

  lemma ParametersPlaced(ps: seq<Parameter>, frame: seq<Local>)
    requires |ps| <= |frame| && FrameOk(frame)
    ensures Placed([ParameterScope(ps, frame)], frame, |ps|)
  {
    hide ParameterScope;
    var scopes := [ParameterScope(ps, frame)];
    forall i, x, j, y | Bound(scopes, i, x) && Bound(scopes, j, y) && (i != j || x != y)
      ensures Disjoint(scopes[i][x], scopes[j][y]) {
      var a := ParameterSlot(ps, frame, x);
      var b := ParameterSlot(ps, frame, y);
      if a < b { assert Disjoint(frame[a], frame[b]); } else { assert Disjoint(frame[b], frame[a]); }
    }
    forall i, x | Bound(scopes, i, x) ensures scopes[i][x] in frame {
      var a := ParameterSlot(ps, frame, x);
    }
    forall i, x, j | Bound(scopes, i, x) && |ps| <= j < |frame| ensures Disjoint(scopes[i][x], frame[j]) {
      var a := ParameterSlot(ps, frame, x);
      assert Disjoint(frame[a], frame[j]);
    }
  }

  /** Falling off the end: back to the caller, or the arithmetic failure where a value is owed. */
  lemma EpilogueRuns(w: Linked, c: Context, m: Registers, fuel: nat, info: Info) returns (n: nat, m': Registers)
    requires Routines(w.code, w.routines) && At(w.code, m.pc, Epilogue(info, false)) && c.returning == info.returning
             && Linked'(m.stack) && !c.main
    ensures Ends(w.code, c, m, n, m', fuel, if info.returning.Unit? then Returned([], []) else Failed([]), c.scopes,
                 m.pc + 1)
  {
    hide Run, Target, Routines, FrameOnly, UniqueMarks;
    if info.returning.Unit? {
      AtOnly(w.code, m.pc, Ret);
      m' := RetRuns(w.code, c, m, fuel, [], c.scopes);
      n := 1;
    } else {
      JumpRuns(w.code, m, ARITHMETIC_LABEL);
      m' := m.(pc := Target(w.code, ARITHMETIC_LABEL));
      ArithmeticStops(w.code, w.routines, m');
      Continue'(w.code, m, 1, m', 2);
      n := 3;
      assert m.out + [] == m.out;
    }
  }

  /** How an activation's body ends, as the caller sees it. */
  function Settle(fn: Function, r: Ended): Listed
  {
    match r
    case Returned(vs, o) => Values(vs, o)
    case Normal(_, o) => if fn.returning.Unit? then Values([], o) else WrongList(o)
    case OutOfTime(o) => TimeoutList(o)
    case _ => WrongList(r.out)
  }

  ghost predicate ActivationEnds(code: Code, c: Context, m: Registers, n: nat, m': Registers, fuel: nat, r: Listed)
  {
    || Early(code, m, n, fuel, JudgeList(r))
    || (r.Values? && Run(code, On(m), n) == On(m') && Left(c, m, m', r.values, r.out))
  }

  /** At the callee's entry, its parameters in their slots and the way back on the stack. */
  ghost predicate EntryReady(w: Linked, m: Registers, f: string, fn: Function, info: Info, vs: seq<int>)
  {
    && Ready(w) && Has(w, f, fn, info) && m.pc == w.entry[f] && |fn.parameters| == |info.parameters| == |vs|
    && (forall i :: 0 <= i < |vs| ==> SlotHolds(m.mem, info.parameters[i], vs[i]))
    && Linked'(m.stack) && Depth(m.stack) + EXPRESSION_RESERVE <= STACK_BYTES
  }

  lemma {:induction false} SimActivation(w: Linked, m: Registers, fuel: nat, f: string, fn: Function, info: Info,
                                         vs: seq<int>) returns (n: nat, m': Registers)
    requires |fn.parameters| == |vs| && EntryReady(w, m, f, fn, info, vs)
    ensures ActivationEnds(w.code, BodyContext(w.fns, fn, info, false), m, n, m', fuel,
                           Activate(w.program, fuel, fn, vs))
    decreases fuel, fn.body, 3
  {
    hide SlotHolds, Placed, Reps, BlockOk, BlockWithin, CodeBlock, ExecAll, At, Early, Run, FrameOk, FrameOnly,
         ResultOk, Ready, Depth, FunctionCode, ParameterScope, Bind, Epilogue, Ends, Left, UniqueMarks, Target;
    HasFacts(w, f, fn, info);
    ActivationScope(w.fns, fn, info, vs, m.mem);
    var c := Enter(BodyContext(w.fns, fn, info, false));
    var env := [Bind(fn.parameters, vs)] + [map[]];
    var block := CodeBlock(c, fn.body, |fn.parameters|, w.base[f]);
    FunctionLayout(w.code, m.pc, w.fns, fn, info, w.base[f]);
    MarkRuns(w.code, m);
    var m1 := m.(pc := m.pc + 1);
    var n1, m2 := SimAll(w, c, m1, fuel, fn.body, |fn.parameters|, w.base[f], env);
    var r := Leave(ExecAll(w.program, fuel, fn.body, env));
    assert Activate(w.program, fuel, fn, vs) == Settle(fn, r);
    n, m' := FinishActivation(w, c, m, m1, n1, m2, fuel, fn, info, r, m1.pc + |block|);
  }

  lemma FinishActivation(w: Linked, c: Context, m: Registers, m1: Registers, n1: nat, m2: Registers, fuel: nat,
                         fn: Function, info: Info, r: Ended, next: nat)
    returns (n: nat, m': Registers)
    requires Ready(w) && Run(w.code, On(m), 1) == On(m1) && m1 == m.(pc := m1.pc) && Linked'(m.stack)
    requires !c.main && !c.inLoop && c.returning == info.returning == fn.returning && c.frame == info.frame
    requires Ends(w.code, c, m1, n1, m2, fuel, r, Outer(c.scopes), next) && At(w.code, next, Epilogue(info, false))
    ensures ActivationEnds(w.code, BodyContext(w.fns, fn, info, false), m, n, m', fuel, Settle(fn, r))
  {
    hide Reps, At, Early, Run, FrameOnly, ResultOk, FunctionOk, Epilogue, Target;
    FrameOnlySame(m.mem, c.frame);
    assert m.out + [] == m.out && [] + r.out == r.out;
    EndsLater(w.code, c, m, 1, m1, [], n1, m2, fuel, fuel, r, Outer(c.scopes), next);
    n, m' := 1 + n1, m2;
    assert Then([], r) == r by { assert [] + r.out == r.out; }
    if Early(w.code, m, n, fuel, JudgeEnd(r)) {
      if JudgeEnd(r).Goes? { EarlyFirst(w.code, m, n, fuel, JudgeEnd(r), JudgeList(Settle(fn, r)), []); }
    } else if r.Normal? {
      var n2, m3 := EpilogueRuns(w, c, m2, fuel, info);
      var end := if info.returning.Unit? then Returned([], []) else Failed([]);
      assert r.out + [] == r.out;
      EndsLater(w.code, c, m, n, m2, r.out, n2, m3, fuel, fuel, end, c.scopes, m2.pc + 1);
      n, m' := n + n2, m3;
    }
  }

  /** At the callee's entry, with the caller's copies of its slots on the stack. */
  ghost predicate InvokedReady(w: Linked, m: Registers, f: string, fn: Function, info: Info, vs: seq<int>,
                               earlier: Memory, base: seq<Entry>, ret: nat)
  {
    && EntryReady(w, m, f, fn, info, vs)
    && (forall i :: 0 <= i < |info.frame| ==> Fits'(info.frame[i])) && FrameOnly(earlier, m.mem, info.frame)
    && m.stack == base + Cells(info.frame, Contents(earlier, info.frame)) + [Link(ret)]
    && At(w.code, ret, Homeward(info))
  }

  /** Back in the caller, which has the given memory and stack again. */
  ghost predicate ReturnEnds(code: Code, m: Registers, n: nat, m': Registers, fuel: nat, r: Listed, earlier: Memory,
                             base: seq<Entry>, returning: Returning, next: nat)
  {
    || Early(code, m, n, fuel, JudgeList(r))
    || (r.Values? && Run(code, On(m), n) == On(m')
        && Back(m.(mem := earlier, stack := base), m', returning, r.values, r.out, next))
  }

  /** From the callee's entry until the caller has its own memory and stack back. */
  lemma {:induction false} SimInvoked(w: Linked, m: Registers, fuel: nat, f: string, fn: Function, info: Info,
                                      vs: seq<int>, earlier: Memory, base: seq<Entry>, ret: nat)
    returns (n: nat, m': Registers)
    requires |fn.parameters| == |vs| && InvokedReady(w, m, f, fn, info, vs, earlier, base, ret)
    ensures ReturnEnds(w.code, m, n, m', fuel, Activate(w.program, fuel, fn, vs), earlier, base, info.returning,
                       ret + |Homeward(info)|)
    decreases fuel, fn.body, 4
  {
    hide EntryReady, At, Early, Run, FrameOnly, ResultOk, Activate, Homeward, Cells, Contents, Fits', BodyContext;
    var n1, m1 := SimActivation(w, m, fuel, f, fn, info, vs);
    var r := Activate(w.program, fuel, fn, vs);
    BodyContextFacts(w.fns, fn, info);
    n, m' := n1, m1;
    if !Early(w.code, m, n1, fuel, JudgeList(r)) {
      assert m.stack[..|m.stack| - 1] == base + Cells(info.frame, Contents(earlier, info.frame));
      FrameOnlyTransitive(earlier, m.mem, m1.mem, info.frame);
      var n2;
      n2, m' := CallReturns(w.code, m1, info, r.values, earlier, base);
      Continue'(w.code, m, n1, m1, n2);
      n := n1 + n2;
    }
  }

  lemma BodyContextFacts(fns: Functions, fn: Function, info: Info)
    ensures BodyContext(fns, fn, info, false).frame == info.frame
            && BodyContext(fns, fn, info, false).returning == info.returning
  {
  }

  lemma FramePrefix(frame: seq<Local>, n: nat)
    requires FrameOk(frame) && n <= |frame|
    ensures FrameOk(frame[..n]) && forall i :: 0 <= i < n ==> frame[..n][i] in frame
  {
    hide Fits', Disjoint;
  }

  /** Moving the arguments in gives the callee its parameters and touches only its own slots. */
  lemma ArgumentsLand(frame: seq<Local>, ls: seq<Local>, mem: Memory, vs: seq<int>)
    requires FrameOk(frame) && |ls| <= |frame| && ls == frame[..|ls|] && ValuesFit(ls, vs)
    ensures forall i :: 0 <= i < |ls| ==> Fits'(ls[i])
    ensures var after := WriteAll(mem, ls, Words(ls, vs));
            (forall i :: 0 <= i < |ls| ==> SlotHolds(after, ls[i], vs[i])) && FrameOnly(mem, after, frame)
  {
    FramePrefix(frame, |ls|);
    hide SlotHolds, WriteAll, FrameOnly, InRange, Fits', Encoded;
    WriteAllHolds(mem, ls, vs, Words(ls, vs), frame);
  }

  /** What remains of a call once its arguments are known. */
  function Called(p: Program, fuel: nat, fn: Function, vs: seq<int>): Listed
    requires |fn.parameters| == |vs|
  {
    if fuel == 0 then TimeoutList([]) else Activate(p, fuel - 1, fn, vs)
  }

  function BeforeList(out: Output, r: Listed): Listed
  {
    match r
    case Values(vs, o) => Values(vs, out + o)
    case WrongList(o) => WrongList(out + o)
    case TimeoutList(o) => TimeoutList(out + o)
  }

  lemma InvokeOutcome(p: Program, fuel: nat, f: string, es: seq<Expr>, env: Environment)
    ensures var (rs, r) := (EvalAll(p, fuel, es, env), Invoke(p, fuel, f, es, env));
            && (rs.Values? ==> rs.out <= r.out) && (!rs.Values? ==> r == rs)
            && (rs.Values? && f in p && |p[f].parameters| == |rs.values| ==>
                  r == BeforeList(rs.out, Called(p, fuel, p[f], rs.values)))
  {
    hide EvalAll, Activate;
    var rs := EvalAll(p, fuel, es, env);
    assert rs.out + [] == rs.out;
  }

  /** Arguments evaluated and still on the stack, above the caller's copies of the callee's slots. */
  ghost predicate EnteredReady(w: Linked, m: Registers, f: string, fn: Function, info: Info, vs: seq<int>,
                               base: seq<Entry>)
  {
    && Ready(w) && Has(w, f, fn, info)
    && ValuesFit(info.parameters, vs) && (forall i :: 0 <= i < |info.frame| ==> Fits'(info.frame[i]))
    && m.stack == base + Cells(info.frame, Contents(m.mem, info.frame))
        + Cells(info.parameters, Words(info.parameters, vs))
    && Depth(base) + EXPRESSION_RESERVE + Required(info) <= STACK_BYTES
    && At(w.code, m.pc, UnloadAll(info.parameters) + [CallLabel(info.tag)])
    && At(w.code, m.pc + |UnloadAll(info.parameters)| + 1, Homeward(info))
  }

  lemma Enters(w: Linked, m: Registers, f: string, fn: Function, info: Info, vs: seq<int>, base: seq<Entry>)
      returns (m1: Registers)
    requires EnteredReady(w, m, f, fn, info, vs, base) && |vs| == |info.parameters|
    ensures Run(w.code, On(m), 2 * |vs| + 1) == On(m1) && m1.out == m.out
    ensures InvokedReady(w, m1, f, fn, info, vs, m.mem, base, m.pc + |UnloadAll(info.parameters)| + 1)
  {
    hide SlotHolds, At, FrameOk, Run, FrameOnly, Ready, Depth, ValuesFit, Homeward, Cells, Contents, Fits', UnloadAll,
         SlotBytes, Words, WriteAll, Target, BlockOk, BodyContext, FunctionCode, Enter, UniqueMarks;
    HasFacts(w, f, fn, info);
    FunctionLayout(w.code, w.entry[f], w.fns, fn, info, w.base[f]);
    var saved := base + Cells(info.frame, Contents(m.mem, info.frame));
    ArgumentsLand(info.frame, info.parameters, m.mem, vs);
    CellsDepth(base, info.frame, Contents(m.mem, info.frame));
    m1 := CallEnters(w.code, m, info.parameters, Words(info.parameters, vs), saved, info.tag);
  }

  /** From the evaluated arguments, through the callee, back to the caller. */
  lemma {:induction false} SimEntered(w: Linked, m: Registers, fuel: nat, f: string, fn: Function, info: Info,
                                      vs: seq<int>, base: seq<Entry>, es: seq<Expr>)
    returns (n: nat, m': Registers)
    requires |fn.parameters| == |info.parameters| == |vs| && EnteredReady(w, m, f, fn, info, vs, base)
    ensures ReturnEnds(w.code, m, n, m', fuel, Called(w.program, fuel, fn, vs), m.mem, base, info.returning,
                       m.pc + |UnloadAll(info.parameters)| + 1 + |Homeward(info)|)
    decreases fuel, es, 1
  {
    hide Early, Run, Activate, Homeward, UnloadAll, Back, EnteredReady, InvokedReady;
    var m1 := Enters(w, m, f, fn, info, vs, base);
    var (n1, ret) := (2 * |vs| + 1, m.pc + |UnloadAll(info.parameters)| + 1);
    assert m.out + [] == m.out;
    if fuel == 0 {
      n, m' := n1, m1;
      TimesIsEarly(w.code, m, n1, m1);
    } else {
      var n2;
      n2, m' := SimInvoked(w, m1, fuel - 1, f, fn, info, vs, m.mem, base, ret);
      n := n1 + n2;
      Continue'(w.code, m, n1, m1, n2);
      var r := Called(w.program, fuel, fn, vs);
      assert [] + r.out == r.out;
      if Early(w.code, m1, n2, fuel - 1, JudgeList(r)) {
        EarlyLater(w.code, m, n1, m1, [], n2, fuel - 1, fuel, JudgeList(r));
      } else {
        BackFrom(m1.(mem := m.mem, stack := base), m.(mem := m.mem, stack := base), m', info.returning, r.values, r.out,
                 ret + |Homeward(info)|);
      }
    }
  }

  lemma BackFrom(a: Registers, b: Registers, m': Registers, returning: Returning, vs: seq<int>, o: Output, next: nat)
    requires Back(a, m', returning, vs, o, next) && a.mem == b.mem && a.stack == b.stack && a.out == b.out
    ensures Back(b, m', returning, vs, o, next)
  {
    hide ResultOk;
  }

  lemma TimesIsEarly(code: Code, m: Registers, n: nat, m': Registers)
    requires Run(code, On(m), n) == On(m') && m'.out == m.out
    ensures Early(code, m, n, 0, Times([]))
  {
  }

  lemma OverflowIsEarly(code: Code, m: Registers, n: nat, fuel: nat, v: Verdict)
    requires Run(code, On(m), n) == Off(StackFailure, m.out)
    ensures Early(code, m, n, fuel, v)
  {
  }

  lemma FinishCall(code: Code, m: Registers, n: nat, m3: Registers, n4: nat, m': Registers, fuel: nat, o: Output,
                   r: Listed, returning: Returning, next: nat)
    requires Run(code, On(m), n) == On(m3) && m3.out == m.out + o
    requires ReturnEnds(code, m3, n4, m', fuel, r, m.mem, m.stack, returning, next)
    ensures CallEnds(code, m, n + n4, m', fuel, BeforeList(o, r), returning, next)
  {
    hide Run, ResultOk, Early;
    Continue'(code, m, n, m3, n4);
    if Early(code, m3, n4, fuel, JudgeList(r)) {
      EarlyLater(code, m, n, m3, o, n4, fuel, fuel, JudgeList(r));
    } else {
      assert m.out + (o + r.out) == m.out + o + r.out;
    }
  }

  lemma Callee(w: Linked, f: string, count: nat) returns (fn: Function, info: Info)
    requires Ready(w) && Callable(w.fns, f, count)
    ensures Has(w, f, fn, info) && info == w.fns[f] && |fn.parameters| == |info.parameters| == count
    ensures Routines(w.code, w.routines) && forall i :: 0 <= i < |info.frame| ==> Fits'(info.frame[i])
  {
    hide Ready, Routines, Required, Fits', BlockOk, FunctionCode, At, BlockWithin, Enter, BodyContext;
    ReadyKeys(w);
    fn, info := w.program[f], w.fns[f];
    HasFacts(w, f, fn, info);
  }

  /** A whole call: its result, with all memory and the stack as before it, or a stop at the stack limit. */
  lemma {:induction false} SimCall(w: Linked, m: Registers, fuel: nat, f: string, es: seq<Expr>, scopes: Scopes<Local>,
                                   env: Environment, t: nat)
    returns (n: nat, m': Registers)
    requires f in w.fns && CallReady(w, m, f, es, scopes, env, t)
    ensures CallEnds(w.code, m, n, m', fuel, Invoke(w.program, fuel, f, es, env), w.fns[f].returning,
                     m.pc + |CodeCall(w.fns, scopes, w.fns[f], es, t)|)
    decreases fuel, es, 2
  {
    hide EvalAll, CodeArguments, ArgumentsOk, AllWithinReserve, At, Reps, Early, Run, SaveAll, UnloadAll, Cells,
         Contents, Homeward, Invoke, Ready, Depth, CallCode, SlotBytes, Fits', FrameOk, Called, CallEnds, ReturnEnds,
         Words, Callable, Routines;
    var fn, info := Callee(w, f, |es|);
    var args := CodeArguments(w.fns, scopes, es, info.parameters, t);
    CallLayout(w.code, m.pc, info, args);
    var r := Invoke(w.program, fuel, f, es, env);
    m' := m;
    if Depth(m.stack) + EXPRESSION_RESERVE + Required(info) > STACK_BYTES {
      GuardFails(w.code, w.routines, m, Required(info));
      n := 3;
      OverflowIsEarly(w.code, m, 3, fuel, JudgeList(r));
      EarlyCall(w.code, m, n, m', fuel, JudgeList(r), r, info.returning, m.pc + |CallCode(info, args)|);
    } else {
      var m2 := CallOpens(w.code, m, Required(info), info.frame);
      var n1 := 1 + 2 * |info.frame|;
      var n3, m3 := SimArguments(w, m2, fuel, es, info.parameters, scopes, env, t);
      var rs := EvalAll(w.program, fuel, es, env);
      InvokeOutcome(w.program, fuel, f, es, env);
      Continue'(w.code, m, n1, m2, n3);
      n := n1 + n3;
      assert m.out + [] == m.out && [] + rs.out == rs.out;
      if Early(w.code, m2, n3, fuel, JudgeList(rs)) {
        EarlyLater(w.code, m, n1, m2, [], n3, fuel, fuel, JudgeList(rs));
        EarlyCall(w.code, m, n, m', fuel, JudgeList(rs), r, info.returning, m.pc + |CallCode(info, args)|);
      } else {
        var n4;
        n4, m' := SimEntered(w, m3, fuel, f, fn, info, rs.values, m.stack, es);
        FinishCall(w.code, m, n, m3, n4, m', fuel, rs.out, Called(w.program, fuel, fn, rs.values), info.returning,
                   m.pc + |CallCode(info, args)|);
        n := n + n4;
      }
    }
  }

  lemma EarlyCall(code: Code, m: Registers, n: nat, m': Registers, fuel: nat, v: Verdict, r: Listed,
                  returning: Returning, next: nat)
    requires Early(code, m, n, fuel, v)
    requires match v
             case Goes(o) => o <= r.out
             case _ => JudgeList(r) == v
    ensures CallEnds(code, m, n, m', fuel, r, returning, next)
  {
    hide Early;
    if v.Goes? {
      EarlyFirst(code, m, n, fuel, v, JudgeList(r), r.out[|v.out|..]);
    }
  }

  /** A call used as a value. */
  lemma {:induction false} SimCallValue(w: Linked, m: Registers, fuel: nat, e: Expr, k: Kind, scopes: Scopes<Local>,
                                        env: Environment, t: nat)
    returns (n: nat, m': Registers)
    requires ExprReady(w, m, e, k, scopes, env, t) && e.Call?
    ensures ExprEnds(w.code, m, n, m', fuel, Eval(w.program, fuel, e, env), k, m.pc + |CodeExpr(w.fns, scopes, e, t)|)
    decreases fuel, e, 1
  {
    hide At, Reps, Early, Run, Ready, Depth, Invoke, ArgumentsOk, AllWithinReserve, CodeCall, Required;
    n, m' := SimCall(w, m, fuel, e.callee, e.arguments, scopes, env, t);
    var r := Invoke(w.program, fuel, e.callee, e.arguments, env);
    if Early(w.code, m, n, fuel, JudgeList(r)) && r.Values? {
      EarlyFirst(w.code, m, n, fuel, JudgeList(r), Judge(Eval(w.program, fuel, e, env)), []);
    }
  }

  lemma {:induction false} SimExpr(w: Linked, m: Registers, fuel: nat, e: Expr, k: Kind, scopes: Scopes<Local>,
                                   env: Environment, t: nat)
    returns (n: nat, m': Registers)
    requires ExprReady(w, m, e, k, scopes, env, t)
    ensures ExprEnds(w.code, m, n, m', fuel, Eval(w.program, fuel, e, env), k, m.pc + |CodeExpr(w.fns, scopes, e, t)|)
    decreases fuel, e, 3
  {
    hide Eval, CodeExpr, ExprReady, ExprEnds;
    if e.Arithmetic? || e.Compare? {
      n, m' := SimOperation(w, m, fuel, e, k, scopes, env, t);
    } else if e.And? || e.Or? {
      n, m' := SimShort(w, m, fuel, e, k, scopes, env, t);
    } else if e.Not? || e.Negate? {
      n, m' := SimUnary(w, m, fuel, e, k, scopes, env, t);
    } else if e.Call? {
      n, m' := SimCallValue(w, m, fuel, e, k, scopes, env, t);
    } else {
      n, m' := SimLeaf(w, m, fuel, e, k, scopes, env, t);
    }
  }

  // ----- statements -----

  ghost predicate ContextReady(w: Linked, c: Context, m: Registers, k: nat, env: Environment)
  {
    && Ready(w) && c.fns == w.fns && c.scopes != [] && Placed(c.scopes, c.frame, k) && FrameOk(c.frame)
    && Reps(c.scopes, env, m.mem)
    && Depth(m.stack) + EXPRESSION_RESERVE <= STACK_BYTES && (!c.main ==> Linked'(m.stack))
  }

  lemma ExpressionReady(w: Linked, c: Context, m: Registers, k: nat, env: Environment, e: Expr, kind: Kind, t: nat)
    requires ContextReady(w, c, m, k, env) && ExprOk(c, e, kind) && WithinReserve(e)
             && At(w.code, m.pc, CodeExpr(c.fns, c.scopes, e, t))
    ensures ExprReady(w, m, e, kind, c.scopes, env, t)
  {
    hide Ready, Placed, FrameOk, Reps, Depth, KindOf, CodeExpr, At;
    ReserveBound(e);
  }

  /** The same context after an expression, which leaves memory and stack alone. */
  lemma ContextKept(w: Linked, c: Context, m: Registers, m': Registers, k: nat, env: Environment)
    requires ContextReady(w, c, m, k, env) && m'.mem == m.mem && m'.stack == m.stack
    ensures ContextReady(w, c, m', k, env)
  {
  }

  /** An expression, then straight-line code that uses its value. */
  lemma ThenEnds(code: Code, c: Context, m: Registers, n1: nat, m1: Registers, fuel: nat, k: Kind, v: int, o: Output,
                 pc: nat, n2: nat, m2: Registers, r: Ended, scopes: Scopes<Local>, next: nat)
    requires Run(code, On(m), n1) == On(m1) && Arrived(m, m1, k, v, o, pc)
             && Ends(code, c, m1, n2, m2, fuel, r, scopes, next)
    ensures Ends(code, c, m, n1 + n2, m2, fuel, Then(o, r), scopes, next)
  {
    hide Run, Ends, FrameOnly, InRange, Represents, Then;
    FrameOnlySame(m.mem, c.frame);
    EndsLater(code, c, m, n1, m1, o, n2, m2, fuel, fuel, r, scopes, next);
  }

  lemma {:induction false} SimLet(w: Linked, c: Context, m: Registers, fuel: nat, s: Stmt, k: nat, t: nat,
                                  env: Environment)
    returns (n: nat, m': Registers)
    requires ContextReady(w, c, m, k, env) && At(w.code, m.pc, CodeStmt(c, s, k, t)) && StmtOk(c, s, k) && StmtWithin(s)
             && s.Let?
    ensures Ends(w.code, c, m, n, m', fuel, Exec(w.program, fuel, s, env), After(c, s, k).scopes,
                 m.pc + |CodeStmt(c, s, k, t)|)
    decreases fuel, s, 1
  {
    hide Ready, Placed, FrameOk, Reps, Depth, KindOf, CodeExpr, At, Eval, Early, Run, WithinReserve, InRange,
         Represents, Ends, Declare;
    var (ca, ra) := (CodeExpr(c.fns, c.scopes, s.value, t), Eval(w.program, fuel, s.value, env));
    AtSplit(w.code, m.pc, ca, [Save(c.frame[k])]);
    ExpressionReady(w, c, m, k, env, s.value, s.kind, t);
    var n1, m1 := SimExpr(w, m, fuel, s.value, s.kind, c.scopes, env, t);
    n, m' := n1, m1;
    assert |env| == |c.scopes| by { RepsLength(c.scopes, env, m.mem); }
    if Early(w.code, m, n1, fuel, Judge(ra)) {
      EndsEarly(w.code, c, m, n1, m1, fuel, Judge(ra), Exec(w.program, fuel, s, env), After(c, s, k).scopes,
                m.pc + |CodeStmt(c, s, k, t)|);
    } else {
      m' := SaveDeclares(w.code, c, m1, fuel, s.name, k, ra.value, env);
      ThenEnds(w.code, c, m, n1, m1, fuel, s.kind, ra.value, ra.out, m1.pc, 1, m',
               Normal(Declare(env, s.name, ra.value), []),
               After(c, s, k).scopes, m1.pc + 1);
      n := n1 + 1;
      assert ra.out + [] == ra.out;
    }
  }

  lemma RepsLength(scopes: Scopes<Local>, env: Environment, mem: Memory)
    requires Reps(scopes, env, mem)
    ensures |env| == |scopes|
  {
  }

  lemma {:induction false} SimPrint(w: Linked, c: Context, m: Registers, fuel: nat, s: Stmt, k: nat, t: nat,
                                    env: Environment)
    returns (n: nat, m': Registers)
    requires ContextReady(w, c, m, k, env) && At(w.code, m.pc, CodeStmt(c, s, k, t)) && StmtOk(c, s, k) && StmtWithin(s)
             && s.Print?
    ensures Ends(w.code, c, m, n, m', fuel, Exec(w.program, fuel, s, env), c.scopes, m.pc + |CodeStmt(c, s, k, t)|)
    decreases fuel, s, 1
  {
    hide Ready, Placed, FrameOk, Reps, Depth, KindOf, CodeExpr, At, Eval, Early, Run, WithinReserve, InRange,
         Represents, Ends;
    var (ca, ra) := (CodeExpr(c.fns, c.scopes, s.value, t), Eval(w.program, fuel, s.value, env));
    AtSplit(w.code, m.pc, ca, [Show(s.kind)]);
    ExpressionReady(w, c, m, k, env, s.value, s.kind, t);
    var n1, m1 := SimExpr(w, m, fuel, s.value, s.kind, c.scopes, env, t);
    n, m' := n1, m1;
    if Early(w.code, m, n1, fuel, Judge(ra)) {
      EndsEarly(w.code, c, m, n1, m1, fuel, Judge(ra), Exec(w.program, fuel, s, env), c.scopes,
                m.pc + |CodeStmt(c, s, k, t)|);
    } else {
      m' := ShowRuns(w.code, c, m1, fuel, s.kind, ra.value, env);
      ThenEnds(w.code, c, m, n1, m1, fuel, s.kind, ra.value, ra.out, m1.pc, 1, m',
               Normal(env, [Number(s.kind, ra.value)]), c.scopes, m1.pc + 1);
      n := n1 + 1;
    }
  }

  /** What follows the value of an assignment: combine it with the variable, then store. */
  lemma AssignFinishes(w: Linked, c: Context, m: Registers, fuel: nat, s: Stmt, k: nat, env: Environment, v: int,
                       l: Local)
    returns (n: nat, m': Registers)
    requires ContextReady(w, c, m, k, env) && s.Assign? && StmtOk(c, s, k) && StmtWithin(s)
             && Lookup(c.scopes, s.name) != [] && l == Lookup(c.scopes, s.name)[0]
    requires At(w.code, m.pc, AssignCode([], l, s.kind, s.assigning)) && InRange(s.kind, v)
             && Represents(s.kind, v, m.eax)
    ensures Ends(w.code, c, m, n, m', fuel, Stored(env, s.name, Assigned(env, s.name, s.kind, s.assigning, v)),
                 c.scopes,
                 m.pc + |AssignCode([], l, s.kind, s.assigning)|)
  {
    hide Ready, Placed, FrameOk, Reps, Depth, KindOf, At, Early, Run, WithinReserve, InRange, Represents, Ends, Update,
         Lookup, Checked, SlotHolds;
    var i := LookupReps(c.scopes, env, m.mem, s.name);
    if s.assigning.Plain? {
      n := 1;
      assert AssignCode([], l, s.kind, s.assigning) == [Save(l)];
      m' := SaveAssigns(w.code, c, m, fuel, s.name, k, v, env);
    } else {
      assert AssignCode([], l, s.kind, s.assigning)
             == [ToSecondary(Wide(s.kind))] + ([Load(l)] + ([Operate(s.assigning.op, s.kind)] + [Save(l)]));
      n, m' := CompoundFinishes(w, c, m, fuel, s.name, s.kind, s.assigning.op, k, env, v, l, Lookup(env, s.name)[0]);
    }
  }

  function Stored(env: Environment, x: string, f: Fitted): Ended
  {
    match f
    case Fits(v) => Normal(Update(env, x, v), [])
    case NoFit => Failed([])
  }

  lemma OperateStores(w: Linked, c: Context, m: Registers, fuel: nat, x: string, kind: Kind, op: Operator, k: nat,
                      env: Environment, held: int, v: int, l: Local)
    returns (n: nat, m': Registers)
    requires ContextReady(w, c, m, k, env) && Lookup(c.scopes, x) == [l] && l.kind == kind && Numeric(kind)
    requires InRange(kind, held) && InRange(kind, v) && Represents(kind, held, m.eax) && Represents(kind, v, m.ebx)
    requires At(w.code, m.pc, [Operate(op, kind)] + [Save(l)])
    ensures Ends(w.code, c, m, n, m', fuel, Stored(env, x, Checked(op, kind, held, v)), c.scopes, m.pc + 2)
  {
    hide Ready, Placed, FrameOk, Reps, Depth, At, Early, Run, InRange, Represents, Ends, Update, Lookup, Checked;
    ReadyKeys(w);
    AtHead(w.code, m.pc, Operate(op, kind), [Save(l)]);
    var f := Checked(op, kind, held, v);
    var r := match f case Fits(y) => Value(y, []) case NoFit => Wrong([]);
    var n2, m2 := OperateEnds(w.code, w.routines, m, op, kind, held, v, fuel);
    n, m' := n2, m2;
    if Early(w.code, m, n2, fuel, Judge(r)) {
      EndsEarly(w.code, c, m, n2, m2, fuel, Judge(r), Stored(env, x, f), c.scopes, m.pc + 2);
    } else {
      m' := SaveAssigns(w.code, c, m2, fuel, x, k, f.value, env);
      ThenEnds(w.code, c, m, n2, m2, fuel, kind, f.value, [], m2.pc, 1, m', Stored(env, x, f), c.scopes, m2.pc + 1);
      n := n2 + 1;
      assert Then([], Stored(env, x, f)) == Stored(env, x, f);
    }
  }

  lemma SlotInRange(mem: Memory, l: Local, v: int)
    requires SlotHolds(mem, l, v)
    ensures InRange(l.kind, v)
  {
    hide InRange, ReadLocal, Encoded;
  }

  lemma CompoundFinishes(w: Linked, c: Context, m: Registers, fuel: nat, x: string, kind: Kind, op: Operator, k: nat,
                         env: Environment, v: int, l: Local, held: int)
    returns (n: nat, m': Registers)
    requires ContextReady(w, c, m, k, env) && Lookup(c.scopes, x) == [l] && l.kind == kind && Numeric(kind)
    requires SlotHolds(m.mem, l, held) && InRange(kind, v) && Represents(kind, v, m.eax)
    requires At(w.code, m.pc, [ToSecondary(Wide(kind))] + ([Load(l)] + ([Operate(op, kind)] + [Save(l)])))
    ensures Ends(w.code, c, m, n, m', fuel, Stored(env, x, Checked(op, kind, held, v)), c.scopes, m.pc + 4)
  {
    hide ContextReady, At, Run, InRange, Represents, Ends, Lookup, Checked, SlotHolds, FrameOnly, Stored, Wide, Numeric;
    AtHead(w.code, m.pc, ToSecondary(Wide(kind)), [Load(l)] + ([Operate(op, kind)] + [Save(l)]));
    AtHead(w.code, m.pc + 1, Load(l), [Operate(op, kind)] + [Save(l)]);
    SlotInRange(m.mem, l, held);
    var m1 := CompoundLoads(w.code, m, l, held, v);
    ContextKept(w, c, m, m1, k, env);
    n, m' := OperateStores(w, c, m1, fuel, x, kind, op, k, env, held, v, l);
    assert m.out + [] == m.out;
    FrameOnlySame(m.mem, c.frame);
    var end := Stored(env, x, Checked(op, kind, held, v));
    EndsLater(w.code, c, m, 2, m1, [], n, m', fuel, fuel, end, c.scopes, m.pc + 4);
    assert Then([], end) == end by { assert [] + end.out == end.out; }
    n := 2 + n;
  }

  lemma {:induction false} SimAssign(w: Linked, c: Context, m: Registers, fuel: nat, s: Stmt, k: nat, t: nat,
                                     env: Environment)
    returns (n: nat, m': Registers)
    requires ContextReady(w, c, m, k, env) && At(w.code, m.pc, CodeStmt(c, s, k, t)) && StmtOk(c, s, k) && StmtWithin(s)
             && s.Assign?
    ensures Ends(w.code, c, m, n, m', fuel, Exec(w.program, fuel, s, env), c.scopes, m.pc + |CodeStmt(c, s, k, t)|)
    decreases fuel, s, 1
  {
    hide Ready, Placed, FrameOk, Reps, Depth, KindOf, CodeExpr, At, Eval, Early, Run, WithinReserve, InRange,
         Represents, Ends, Lookup, Update, Assigned;
    var (ca, ra) := (CodeExpr(c.fns, c.scopes, s.value, t), Eval(w.program, fuel, s.value, env));
    var l := Lookup(c.scopes, s.name)[0];
    var tail := AssignCode([], l, s.kind, s.assigning);
    assert CodeStmt(c, s, k, t) == ca + tail;
    AtSplit(w.code, m.pc, ca, tail);
    ExpressionReady(w, c, m, k, env, s.value, s.kind, t);
    var n1, m1 := SimExpr(w, m, fuel, s.value, s.kind, c.scopes, env, t);
    n, m' := n1, m1;
    var r := Exec(w.program, fuel, s, env);
    if Early(w.code, m, n1, fuel, Judge(ra)) {
      EndsEarly(w.code, c, m, n1, m1, fuel, Judge(ra), r, c.scopes, m.pc + |CodeStmt(c, s, k, t)|);
    } else {
      ContextKept(w, c, m, m1, k, env);
      var n2;
      n2, m' := AssignFinishes(w, c, m1, fuel, s, k, env, ra.value, l);
      var end := Stored(env, s.name, Assigned(env, s.name, s.kind, s.assigning, ra.value));
      ThenEnds(w.code, c, m, n1, m1, fuel, s.kind, ra.value, ra.out, m1.pc, n2, m', end, c.scopes, m1.pc + |tail|);
      n := n1 + n2;
      assert ra.out + [] == ra.out;
    }
  }

  lemma {:induction false} SimPerform(w: Linked, c: Context, m: Registers, fuel: nat, s: Stmt, k: nat, t: nat,
                                      env: Environment)
    returns (n: nat, m': Registers)
    requires ContextReady(w, c, m, k, env) && At(w.code, m.pc, CodeStmt(c, s, k, t)) && StmtOk(c, s, k) && StmtWithin(s)
             && s.Perform?
    ensures Ends(w.code, c, m, n, m', fuel, Exec(w.program, fuel, s, env), c.scopes, m.pc + |CodeStmt(c, s, k, t)|)
    decreases fuel, s, 1
  {
    hide Ready, Placed, FrameOk, Reps, Depth, At, Early, Run, Invoke, CodeCall, ArgumentsOk, AllWithinReserve, Required,
         ResultOk, FrameOnly;
    n, m' := SimCall(w, m, fuel, s.callee, s.arguments, c.scopes, env, t);
    var r := Invoke(w.program, fuel, s.callee, s.arguments, env);
    if Early(w.code, m, n, fuel, JudgeList(r)) {
      EndsEarly(w.code, c, m, n, m', fuel, JudgeList(r), Exec(w.program, fuel, s, env), c.scopes,
                m.pc + |CodeStmt(c, s, k, t)|);
    } else {
      FrameOnlySame(m.mem, c.frame);
    }
  }

  lemma {:induction false} SimReturn(w: Linked, c: Context, m: Registers, fuel: nat, s: Stmt, k: nat, t: nat,
                                     env: Environment)
    returns (n: nat, m': Registers)
    requires ContextReady(w, c, m, k, env) && At(w.code, m.pc, CodeStmt(c, s, k, t)) && StmtOk(c, s, k) && StmtWithin(s)
             && s.Return?
    ensures Ends(w.code, c, m, n, m', fuel, Exec(w.program, fuel, s, env), c.scopes, m.pc + |CodeStmt(c, s, k, t)|)
    decreases fuel, s, 1
  {
    hide Ready, Placed, FrameOk, Reps, Depth, KindOf, CodeExpr, At, Eval, Early, Run, WithinReserve, InRange,
         Represents, Ends;
    ReadyKeys(w);
    m' := m;
    if c.main {
      HaltRuns(w.code, w.routines, c, m, fuel, [], c.scopes, m.pc + 1);
      n := 3;
    } else if s.result == [] {
      AtOnly(w.code, m.pc, Ret);
      m' := RetRuns(w.code, c, m, fuel, [], c.scopes);
      n := 1;
    } else {
      var (e, kind) := (s.result[0], c.returning.kind);
      var (ca, ra) := (CodeExpr(c.fns, c.scopes, e, t), Eval(w.program, fuel, e, env));
      AtSplit(w.code, m.pc, ca, [Ret]);
      AtOnly(w.code, m.pc + |ca|, Ret);
      ExpressionReady(w, c, m, k, env, e, kind, t);
      var n1, m1 := SimExpr(w, m, fuel, e, kind, c.scopes, env, t);
      n, m' := n1, m1;
      if Early(w.code, m, n1, fuel, Judge(ra)) {
        EndsEarly(w.code, c, m, n1, m1, fuel, Judge(ra), Exec(w.program, fuel, s, env), c.scopes,
                  m.pc + |CodeStmt(c, s, k, t)|);
      } else {
        m' := RetRuns(w.code, c, m1, fuel, [ra.value], c.scopes);
        ThenEnds(w.code, c, m, n1, m1, fuel, kind, ra.value, ra.out, m1.pc, 1, m', Returned([ra.value], []), c.scopes,
                 m1.pc + 1);
        n := n1 + 1;
        assert ra.out + [] == ra.out;
      }
    }
  }

  lemma EnterReady(w: Linked, c: Context, m: Registers, m': Registers, k: nat, k': nat, env: Environment)
    requires ContextReady(w, c, m, k, env) && m'.mem == m.mem && m'.stack == m.stack && k <= k'
    ensures ContextReady(w, Enter(c), m', k', env + [map[]]) && Outer(Enter(c).scopes) == c.scopes
  {
    hide Ready, FrameOk, Reps, Placed, Depth;
    PlacedLater(c.scopes, c.frame, k, k');
    EnterPlaced(c.scopes, c.frame, k');
    EnterReps(c.scopes, env, m.mem);
  }

  /** A block in its own scope. */
  lemma {:induction false} SimBlock(w: Linked, c: Context, m: Registers, fuel: nat, ss: seq<Stmt>, k: nat, k': nat,
                                    t: nat, env: Environment)
    returns (n: nat, m': Registers)
    requires ContextReady(w, c, m, k, env) && k <= k' && At(w.code, m.pc, CodeBlock(Enter(c), ss, k', t))
             && BlockOk(Enter(c), ss, k') && BlockWithin(ss)
    ensures Ends(w.code, c, m, n, m', fuel, ExecBlock(w.program, fuel, ss, env), c.scopes,
                 m.pc + |CodeBlock(Enter(c), ss, k', t)|)
    decreases fuel, ss, 3
  {
    hide ContextReady, At, BlockOk, BlockWithin, CodeBlock, ExecAll, Ends;
    EnterReady(w, c, m, m, k, k', env);
    n, m' := SimAll(w, Enter(c), m, fuel, ss, k', t, env + [map[]]);
    EndsScopes(w.code, c, c.scopes + [map[]], m, n, m', fuel, ExecBlock(w.program, fuel, ss, env), c.scopes,
               m.pc + |CodeBlock(Enter(c), ss, k', t)|);
  }

  /** The branch taken, and the way from it to the end of the conditional. */
  lemma {:induction false} SimBranch(w: Linked, c: Context, m: Registers, fuel: nat, s: Stmt, taken: bool, k: nat,
                                     t: nat, pc: nat, env: Environment)
    returns (n: nat, m': Registers)
    requires ContextReady(w, c, m, k, env) && At(w.code, pc, CodeStmt(c, s, k, t)) && StmtOk(c, s, k) && StmtWithin(s)
             && s.If?
    requires m.pc == if taken then pc + |CodeExpr(c.fns, c.scopes, s.condition, t)| + 1
                     else Target(w.code, t + Tags(s.condition))
    ensures Ends(w.code, c, m, n, m', fuel,
                 ExecBlock(w.program, fuel, if taken then s.thenBranch else s.elseBranch, env), c.scopes,
                 pc + |CodeStmt(c, s, k, t)|)
    decreases fuel, s, 1
  {
    hide ContextReady, At, BlockOk, BlockWithin, CodeBlock, ExecBlock, Ends, CodeExpr, Run, IfCode, Tags, Target,
         BlockTags, BlockLets, KindOf, WithinReserve, UniqueMarks, Routines, Ready;
    ReadyOf(w, c, m, k, env);
    ReadyKeys(w);
    var (ce, other) := (CodeExpr(c.fns, c.scopes, s.condition, t), t + Tags(s.condition));
    var k' := k + |BlockLets(s.thenBranch)|;
    var (ca, cb) := (CodeBlock(Enter(c), s.thenBranch, k, other + 2),
                     CodeBlock(Enter(c), s.elseBranch, k', other + 2 + BlockTags(s.thenBranch)));
    IfLayout(w.code, pc, ce, ca, cb, other);
    var pe := pc + |ce| + 1 + |ca| + 2 + |cb|;
    if taken {
      var n1, m1 := SimBlock(w, c, m, fuel, s.thenBranch, k, k, other + 2, env);
      if m1.pc == m.pc + |ca| { JumpMark(w.code, m1, other + 1, pe); }
      n, m' := EndsMoves(w.code, c, m, n1, m1, fuel, ExecBlock(w.program, fuel, s.thenBranch, env), c.scopes,
                         m.pc + |ca|, 2, pe + 1);
    } else {
      var m0 := m.(pc := m.pc + 1);
      MarkRuns(w.code, m);
      ContextKept(w, c, m, m0, k, env);
      var r := ExecBlock(w.program, fuel, s.elseBranch, env);
      var n1, m1 := SimBlock(w, c, m0, fuel, s.elseBranch, k, k', other + 2 + BlockTags(s.thenBranch), env);
      if m1.pc == pe { MarkRuns(w.code, m1); }
      n, m' := EndsMoves(w.code, c, m0, n1, m1, fuel, r, c.scopes, pe, 1, pe + 1);
      FrameOnlySame(m.mem, c.frame);
      assert m.out + [] == m.out;
      EndsLater(w.code, c, m, 1, m0, [], n, m', fuel, fuel, r, c.scopes, pe + 1);
      ThenThen([], [], r);
      n := 1 + n;
    }
  }

  lemma ReadyOf(w: Linked, c: Context, m: Registers, k: nat, env: Environment)
    requires ContextReady(w, c, m, k, env)
    ensures Ready(w) && c.fns == w.fns
  {
  }

  lemma JumpMark(code: Code, m: Registers, tag: nat, at: nat)
    requires m.pc < |code| && code[m.pc] == Jump(tag) && Target(code, tag) == at && at < |code| && code[at] == Mark(tag)
    ensures Run(code, On(m), 2) == On(m.(pc := at + 1))
  {
    hide Run, Target;
    OneStep(code, m);
    var m1 := m.(pc := at);
    OneStep(code, m1);
    Continue'(code, m, 1, m1, 1);
  }

  lemma {:induction false} SimIf(w: Linked, c: Context, m: Registers, fuel: nat, s: Stmt, k: nat, t: nat,
                                 env: Environment)
    returns (n: nat, m': Registers)
    requires ContextReady(w, c, m, k, env) && At(w.code, m.pc, CodeStmt(c, s, k, t)) && StmtOk(c, s, k) && StmtWithin(s)
             && s.If?
    ensures Ends(w.code, c, m, n, m', fuel, Exec(w.program, fuel, s, env), c.scopes, m.pc + |CodeStmt(c, s, k, t)|)
    decreases fuel, s, 2
  {
    hide ContextReady, At, BlockOk, BlockWithin, CodeBlock, ExecBlock, Ends, CodeExpr, Run, IfCode, Tags, Target,
         BlockTags, BlockLets, KindOf, WithinReserve, UniqueMarks, Routines, Ready, Eval, Early, InRange, Represents;
    ReadyOf(w, c, m, k, env);
    ReadyKeys(w);
    var (ce, ra) := (CodeExpr(c.fns, c.scopes, s.condition, t), Eval(w.program, fuel, s.condition, env));
    IfLayout(w.code, m.pc, ce, CodeBlock(Enter(c), s.thenBranch, k, t + Tags(s.condition) + 2),
             CodeBlock(Enter(c), s.elseBranch, k + |BlockLets(s.thenBranch)|,
                       t + Tags(s.condition) + 2 + BlockTags(s.thenBranch)), t + Tags(s.condition));
    ExpressionReady(w, c, m, k, env, s.condition, Bool, t);
    var next := m.pc + |CodeStmt(c, s, k, t)|;
    var n1, m1 := SimExpr(w, m, fuel, s.condition, Bool, c.scopes, env, t);
    n, m' := n1, m1;
    if Early(w.code, m, n1, fuel, Judge(ra)) {
      assert ra.Value? ==> ra.out <= Exec(w.program, fuel, s, env).out;
      EndsEarly(w.code, c, m, n1, m1, fuel, Judge(ra), Exec(w.program, fuel, s, env), c.scopes, next);
    } else {
      BranchRuns(w.code, m1, t + Tags(s.condition), ra.value);
      var m2 := m1.(pc := if ra.value == 0 then Target(w.code, t + Tags(s.condition)) else m1.pc + 1);
      ContextKept(w, c, m, m2, k, env);
      var r := ExecBlock(w.program, fuel, if ra.value != 0 then s.thenBranch else s.elseBranch, env);
      n, m' := SimBranch(w, c, m2, fuel, s, ra.value != 0, k, t, m.pc, env);
      FrameOnlySame(m.mem, c.frame);
      assert m1.out + [] == m1.out;
      EndsLater(w.code, c, m1, 1, m2, [], n, m', fuel, fuel, r, c.scopes, next);
      ThenThen([], [], r);
      ThenEnds(w.code, c, m, n1, m1, fuel, Bool, ra.value, ra.out, m1.pc, 1 + n, m', r, c.scopes, next);
      n := n1 + (1 + n);
    }
  }

  // ----- loops -----

  function LoopCondition(c: Context, condition: seq<Expr>, t: nat): Code
  {
    if condition == [] then [] else CodeExpr(c.fns, c.scopes, condition[0], t + 2) + [JumpIfZero(t + 1)]
  }

  function BodyTag(condition: seq<Expr>, t: nat): nat
  {
    t + 2 + if condition == [] then 0 else Tags(condition[0])
  }

  function LoopBody(c: Context, condition: seq<Expr>, body: seq<Stmt>, k: nat, t: nat): Code
  {
    CodeBlock(Enter(InLoop(c, t)), body, k, BodyTag(condition, t))
  }

  function WholeLoop(c: Context, condition: seq<Expr>, body: seq<Stmt>, k: nat, t: nat): Code
  {
    LoopCode(LoopCondition(c, condition, t), LoopBody(c, condition, body, k, t), t)
  }

  predicate LoopOk(c: Context, condition: seq<Expr>, body: seq<Stmt>, k: nat, t: nat)
  {
    (condition != [] ==> ExprOk(c, condition[0], Bool) && WithinReserve(condition[0]))
        && BlockOk(Enter(InLoop(c, t)), body, k) && BlockWithin(body)
  }

  function Tested(p: Program, fuel: nat, condition: seq<Expr>, env: Environment): Valued
  {
    if condition == [] then Value(1, []) else Eval(p, fuel, condition[0], env)
  }

  /** An iteration's body and everything after it. */
  function Turned(p: Program, fuel: nat, condition: seq<Expr>, body: seq<Stmt>, env: Environment): Ended
  {
    match ExecBlock(p, fuel, body, env)
    case Normal(env', o) => Then(o, ExecLoop(p, fuel, condition, body, env'))
    case Continued(env', o) => Then(o, ExecLoop(p, fuel, condition, body, env'))
    case Broke(env', o) => Normal(env', o)
    case other => other
  }

  lemma LoopMeaning(p: Program, fuel: nat, condition: seq<Expr>, body: seq<Stmt>, env: Environment)
    requires fuel > 0
    ensures ExecLoop(p, fuel, condition, body, env) ==
            match Tested(p, fuel - 1, condition, env)
            case Wrong(o) => Failed(o)
            case Timeout(o) => OutOfTime(o)
            case Value(v, o) => if v == 0 then Normal(env, o) else Then(o, Turned(p, fuel - 1, condition, body, env))
  {
    hide Eval, ExecBlock;
    match Tested(p, fuel - 1, condition, env)
    case Value(v, o) =>
      match ExecBlock(p, fuel - 1, body, env) {
        case Normal(env', o') => ThenThen(o, o', ExecLoop(p, fuel - 1, condition, body, env'));
        case Continued(env', o') => ThenThen(o, o', ExecLoop(p, fuel - 1, condition, body, env'));
        case _ =>
      }
    case _ =>
  }

  /** The condition was tested: control is at the body, or at the loop's end. */
  ghost predicate TestEnd(code: Code, m: Registers, n: nat, m': Registers, fuel: nat, r: Valued, into: nat, exit: nat)
  {
    || Early(code, m, n, fuel, Judge(r))
    || (r.Value? && Run(code, On(m), n) == On(m') && m'.mem == m.mem && m'.stack == m.stack && m'.out == m.out + r.out
        && m'.pc == if r.value == 0 then exit else into)
  }

  lemma {:induction false} SimCondition(w: Linked, c: Context, m: Registers, fuel: nat, e: Expr, k: nat, t: nat,
                                        tag: nat, env: Environment)
    returns (n: nat, m': Registers)
    requires ContextReady(w, c, m, k, env) && At(w.code, m.pc, CodeExpr(c.fns, c.scopes, e, t) + [JumpIfZero(tag)])
             && ExprOk(c, e, Bool) && WithinReserve(e)
    ensures TestEnd(w.code, m, n, m', fuel, Eval(w.program, fuel, e, env), m.pc + |CodeExpr(c.fns, c.scopes, e, t)| + 1,
                    Target(w.code, tag))
    decreases fuel, e, 4
  {
    hide *;
    ReadyOf(w, c, m, k, env);
    var ce := CodeExpr(c.fns, c.scopes, e, t);
    AtSplit(w.code, m.pc, ce, [JumpIfZero(tag)]);
    AtOnly(w.code, m.pc + |ce|, JumpIfZero(tag));
    ExpressionReady(w, c, m, k, env, e, Bool, t);
    n, m' := SimExpr(w, m, fuel, e, Bool, c.scopes, env, t);
    n, m' := FinishTest(w.code, m, n, m', fuel, Eval(w.program, fuel, e, env), m.pc + |ce|, tag);
  }

  lemma {:induction false} SimTested(w: Linked, c: Context, m: Registers, fuel: nat, condition: seq<Expr>, k: nat,
                                     t: nat, env: Environment)
    returns (n: nat, m': Registers)
    requires ContextReady(w, c, m, k, env) && At(w.code, m.pc, LoopCondition(c, condition, t))
             && (condition != [] ==> ExprOk(c, condition[0], Bool) && WithinReserve(condition[0]))
    ensures TestEnd(w.code, m, n, m', fuel, Tested(w.program, fuel, condition, env),
                    m.pc + |LoopCondition(c, condition, t)|, Target(w.code, t + 1))
    decreases fuel, condition, 3
  {
    hide ContextReady, At, ExprOk, WithinReserve, CodeExpr, Run, Target, Eval, Early, TestEnd;
    if condition == [] {
      n, m' := 0, m;
      TestedTrue(w.code, m, fuel, Target(w.code, t + 1));
    } else {
      n, m' := SimCondition(w, c, m, fuel, condition[0], k, t + 2, t + 1, env);
    }
  }

  lemma TestedTrue(code: Code, m: Registers, fuel: nat, exit: nat)
    ensures TestEnd(code, m, 0, m, fuel, Value(1, []), m.pc, exit)
  {
    hide Early;
    RunZero(code, On(m));
    assert m.out + [] == m.out;
  }

  lemma FinishTest(code: Code, m: Registers, n: nat, m1: Registers, fuel: nat, r: Valued, pc: nat, tag: nat)
      returns (n': nat, m': Registers)
    requires ExprEnds(code, m, n, m1, fuel, r, Bool, pc) && pc < |code| && code[pc] == JumpIfZero(tag)
    ensures TestEnd(code, m, n', m', fuel, r, pc + 1, Target(code, tag))
  {
    hide Run, Target, Early, InRange, Represents;
    n', m' := n, m1;
    if !Early(code, m, n, fuel, Judge(r)) {
      BranchRuns(code, m1, tag, r.value);
      Continue'(code, m, n, m1, 1);
      n', m' := n + 1, m1.(pc := if r.value == 0 then Target(code, tag) else pc + 1);
    }
  }

  lemma ContextMoved(w: Linked, c: Context, m: Registers, m': Registers, k: nat, env: Environment, env': Environment)
    requires ContextReady(w, c, m, k, env) && m'.stack == m.stack && Reps(c.scopes, env', m'.mem)
    ensures ContextReady(w, c, m', k, env')
  {
  }

  lemma InLoopReady(w: Linked, c: Context, m: Registers, k: nat, env: Environment, t: nat)
    requires ContextReady(w, c, m, k, env)
    ensures ContextReady(w, InLoop(c, t), m, k, env)
  {
  }

  ghost predicate LoopReady(w: Linked, c: Context, condition: seq<Expr>, body: seq<Stmt>, k: nat, t: nat, start: nat)
  {
    At(w.code, start, WholeLoop(c, condition, body, k, t)) && LoopOk(c, condition, body, k, t)
  }

  /** The loop's body, then whatever its end leads to: the next iteration, the exit, or the caller. */
  lemma {:induction false} SimTurn(w: Linked, c: Context, m: Registers, fuel: nat, condition: seq<Expr>,
                                   body: seq<Stmt>, k: nat, t: nat, start: nat, env: Environment)
    returns (n: nat, m': Registers)
    requires ContextReady(w, c, m, k, env) && LoopReady(w, c, condition, body, k, t, start)
             && m.pc == start + 1 + |LoopCondition(c, condition, t)|
    ensures Ends(w.code, c, m, n, m', fuel, Turned(w.program, fuel, condition, body, env), c.scopes,
                 start + |WholeLoop(c, condition, body, k, t)|)
    decreases fuel, body, 6
  {
    hide ContextReady, At, BlockOk, BlockWithin, CodeBlock, ExecBlock, ExecLoop, Run, Target, Early, Reps, FrameOnly,
         ResultOk, LoopCode, LoopCondition, BodyTag, ExprOk, WithinReserve, UniqueMarks, Routines, Ready;
    ReadyOf(w, c, m, k, env);
    ReadyKeys(w);
    var cb := LoopBody(c, condition, body, k, t);
    LoopLayout(w.code, start, LoopCondition(c, condition, t), cb, t);
    InLoopReady(w, c, m, k, env, t);
    var (r, next) := (ExecBlock(w.program, fuel, body, env), start + |WholeLoop(c, condition, body, k, t)|);
    var n1, m1 := SimBlock(w, InLoop(c, t), m, fuel, body, k, k, BodyTag(condition, t), env);
    n, m' := n1, m1;
    if Early(w.code, m, n1, fuel, JudgeEnd(r)) {
      hide Ends;
      EndsEarly(w.code, c, m, n1, m1, fuel, JudgeEnd(r), Turned(w.program, fuel, condition, body, env), c.scopes, next);
    } else if r.Normal? || r.Continued? {
      n, m' := SimAgain(w, c, m, n1, m1, fuel, condition, body, k, t, start, env, r.env, r.out, r.Normal?);
    } else if r.Broke? {
      MarkRuns(w.code, m1);
      Continue'(w.code, m, n1, m1, 1);
      n, m' := n1 + 1, m1.(pc := m1.pc + 1);
    }
  }

  /** Back at the loop's start for another iteration. */
  lemma {:induction false} SimAgain(w: Linked, c: Context, m: Registers, n1: nat, m1: Registers, fuel: nat,
                                    condition: seq<Expr>, body: seq<Stmt>, k: nat, t: nat, start: nat, env: Environment,
                                    env': Environment, o: Output, jumps: bool)
    returns (n: nat, m': Registers)
    requires ContextReady(w, c, m, k, env) && LoopReady(w, c, condition, body, k, t, start)
    requires Run(w.code, On(m), n1) == On(m1) && Settled(c, m, m1, c.scopes, env', o)
    requires Target(w.code, t) == start && (if jumps then m1.pc < |w.code|
                                            && w.code[m1.pc] == Jump(t) else m1.pc == start)
    ensures Ends(w.code, c, m, n, m', fuel, Then(o, ExecLoop(w.program, fuel, condition, body, env')), c.scopes,
                 start + |WholeLoop(c, condition, body, k, t)|)
    decreases fuel, body, 5
  {
    hide ContextReady, LoopReady, ExecLoop, Run, Target, Reps, FrameOnly, WholeLoop, Ends;
    var m2 := m1.(pc := start);
    var d := if jumps then 1 else 0;
    if jumps { OneStep(w.code, m1); } else { RunZero(w.code, On(m1)); }
    Continue'(w.code, m, n1, m1, d);
    ContextMoved(w, c, m, m2, k, env, env');
    n, m' := SimLoop(w, c, m2, fuel, condition, body, k, t, env');
    EndsLater(w.code, c, m, n1 + d, m2, o, n, m', fuel, fuel, ExecLoop(w.program, fuel, condition, body, env'),
              c.scopes, start + |WholeLoop(c, condition, body, k, t)|);
    n := n1 + d + n;
  }

  lemma {:induction false} SimLoop(w: Linked, c: Context, m: Registers, fuel: nat, condition: seq<Expr>,
                                   body: seq<Stmt>, k: nat, t: nat, env: Environment)
    returns (n: nat, m': Registers)
    requires ContextReady(w, c, m, k, env) && LoopReady(w, c, condition, body, k, t, m.pc)
    ensures Ends(w.code, c, m, n, m', fuel, ExecLoop(w.program, fuel, condition, body, env), c.scopes,
                 m.pc + |WholeLoop(c, condition, body, k, t)|)
    decreases fuel, body, 4
  {
    hide ContextReady, At, BlockOk, BlockWithin, ExecLoop, Run, Target, Early, FrameOnly, LoopCode, LoopCondition,
         LoopBody, ExprOk, WithinReserve, UniqueMarks, Routines, Ready, Ends;
    var (r, next) := (ExecLoop(w.program, fuel, condition, body, env), m.pc + |WholeLoop(c, condition, body, k, t)|);
    if fuel == 0 {
      n, m' := 0, m;
      NoTime(w, c, m, condition, body, env, next);
    } else {
      ReadyOf(w, c, m, k, env);
      ReadyKeys(w);
      LoopLayout(w.code, m.pc, LoopCondition(c, condition, t), LoopBody(c, condition, body, k, t), t);
      MarkRuns(w.code, m);
      var m1 := m.(pc := m.pc + 1);
      ContextKept(w, c, m, m1, k, env);
      n, m' := SimIteration(w, c, m1, fuel - 1, condition, body, k, t, m.pc, env);
      FrameOnlySame(m.mem, c.frame);
      assert m.out + [] == m.out;
      EndsLater(w.code, c, m, 1, m1, [], n, m', fuel - 1, fuel, r, c.scopes, next);
      ThenThen([], [], r);
      n := 1 + n;
    }
  }

  lemma NoTime(w: Linked, c: Context, m: Registers, condition: seq<Expr>, body: seq<Stmt>, env: Environment, next: nat)
    ensures Ends(w.code, c, m, 0, m, 0, ExecLoop(w.program, 0, condition, body, env), c.scopes, next)
  {
    hide Early;
    RunZero(w.code, On(m));
    TimesIsEarly(w.code, m, 0, m);
  }

  /** The test, and the body if it holds. */
  lemma {:induction false} SimIteration(w: Linked, c: Context, m: Registers, fuel: nat, condition: seq<Expr>,
                                        body: seq<Stmt>, k: nat, t: nat, start: nat, env: Environment)
    returns (n: nat, m': Registers)
    requires ContextReady(w, c, m, k, env) && LoopReady(w, c, condition, body, k, t, start) && m.pc == start + 1
    ensures Ends(w.code, c, m, n, m', fuel, ExecLoop(w.program, fuel + 1, condition, body, env), c.scopes,
                 start + |WholeLoop(c, condition, body, k, t)|)
    decreases fuel + 1, body, 3
  {
    hide ContextReady, At, BlockOk, BlockWithin, ExecLoop, Run, Target, Early, FrameOnly, LoopCode, LoopCondition,
         LoopBody, ExprOk, WithinReserve, UniqueMarks, Routines, Ready, Ends, Tested, Turned;
    ReadyOf(w, c, m, k, env);
    ReadyKeys(w);
    LoopLayout(w.code, start, LoopCondition(c, condition, t), LoopBody(c, condition, body, k, t), t);
    LoopMeaning(w.program, fuel + 1, condition, body, env);
    var (rc, r, next) := (Tested(w.program, fuel, condition, env), ExecLoop(w.program, fuel + 1, condition, body, env),
                          start + |WholeLoop(c, condition, body, k, t)|);
    var n1, m1 := SimTested(w, c, m, fuel, condition, k, t, env);
    n, m' := n1, m1;
    if Early(w.code, m, n1, fuel, Judge(rc)) {
      EndsEarly(w.code, c, m, n1, m1, fuel, Judge(rc), r, c.scopes, next);
    } else {
      FrameOnlySame(m.mem, c.frame);
      ContextKept(w, c, m, m1, k, env);
      if rc.value == 0 {
        MarkRuns(w.code, m1);
        m' := m1.(pc := m1.pc + 1);
        Continue'(w.code, m, n1, m1, 1);
        n := n1 + 1;
        NormalEnds(w, c, m, n, m', fuel, k, env, rc.out, next);
      } else {
        n, m' := SimTurn(w, c, m1, fuel, condition, body, k, t, start, env);
        EndsLater(w.code, c, m, n1, m1, rc.out, n, m', fuel, fuel, Turned(w.program, fuel, condition, body, env),
                  c.scopes, next);
        n := n1 + n;
      }
    }
  }

  lemma NormalEnds(w: Linked, c: Context, m: Registers, n: nat, m': Registers, fuel: nat, k: nat, env: Environment,
                   o: Output, next: nat)
    requires ContextReady(w, c, m, k, env) && Run(w.code, On(m), n) == On(m') && m'.pc == next && m'.mem == m.mem
             && m'.stack == m.stack && m'.out == m.out + o
    ensures Ends(w.code, c, m, n, m', fuel, Normal(env, o), c.scopes, next)
  {
    hide Run, Early;
    FrameOnlySame(m.mem, c.frame);
  }

  lemma LoopStatement(w: Linked, c: Context, s: Stmt, k: nat, t: nat, pc: nat, condition: seq<Expr>)
    requires At(w.code, pc, CodeStmt(c, s, k, t)) && StmtOk(c, s, k) && StmtWithin(s) && (s.While? || s.Loop?)
    requires condition == if s.While? then [s.condition] else []
    ensures LoopReady(w, c, condition, s.body, k, t, pc)
            && CodeStmt(c, s, k, t) == WholeLoop(c, condition, s.body, k, t)
  {
    hide At, BlockOk, BlockWithin, CodeBlock, CodeExpr, Tags, ExprOk, WithinReserve, LoopCode;
    BlockOkAnyLabels(Enter(InLoop(c, 0)), s.body, k, t, t + 1);
    assert Enter(InLoop(c, t)) == Enter(InLoop(c, 0)).(continueTo := t, breakTo := t + 1);
  }

  lemma {:induction false} SimLoopStatement(w: Linked, c: Context, m: Registers, fuel: nat, s: Stmt, k: nat, t: nat,
                                            env: Environment)
    returns (n: nat, m': Registers)
    requires ContextReady(w, c, m, k, env) && At(w.code, m.pc, CodeStmt(c, s, k, t)) && StmtOk(c, s, k) && StmtWithin(s)
             && (s.While? || s.Loop?)
    ensures Ends(w.code, c, m, n, m', fuel, Exec(w.program, fuel, s, env), c.scopes, m.pc + |CodeStmt(c, s, k, t)|)
    decreases fuel, s, 1
  {
    hide ContextReady, At, CodeStmt, StmtOk, StmtWithin, Ends, WholeLoop, ExecLoop, LoopReady;
    var condition := if s.While? then [s.condition] else [];
    LoopStatement(w, c, s, k, t, m.pc, condition);
    n, m' := SimLoop(w, c, m, fuel, condition, s.body, k, t, env);
  }

  lemma {:induction false} SimSimple(w: Linked, c: Context, m: Registers, fuel: nat, s: Stmt, k: nat, t: nat,
                                     env: Environment)
    returns (n: nat, m': Registers)
    requires ContextReady(w, c, m, k, env) && At(w.code, m.pc, CodeStmt(c, s, k, t)) && StmtOk(c, s, k) && StmtWithin(s)
             && (s.PrintText? || s.Break? || s.Continue?)
    ensures Ends(w.code, c, m, n, m', fuel, Exec(w.program, fuel, s, env), c.scopes, m.pc + |CodeStmt(c, s, k, t)|)
  {
    hide Ready, Placed, FrameOk, Reps, Depth, At, Ends;
    n := 1;
    if s.PrintText? {
      m' := ShowTextRuns(w.code, c, m, fuel, s.text, env);
    } else {
      m' := LeavesLoop(w.code, c, m, fuel, s.Break?, env);
    }
  }

  /** Every accepted statement. */
  lemma {:induction false} SimStmt(w: Linked, c: Context, m: Registers, fuel: nat, s: Stmt, k: nat, t: nat,
                                   env: Environment)
    returns (n: nat, m': Registers)
    requires ContextReady(w, c, m, k, env) && At(w.code, m.pc, CodeStmt(c, s, k, t)) && StmtOk(c, s, k) && StmtWithin(s)
    ensures Ends(w.code, c, m, n, m', fuel, Exec(w.program, fuel, s, env), After(c, s, k).scopes,
                 m.pc + |CodeStmt(c, s, k, t)|)
    decreases fuel, s, 3
  {
    hide ContextReady, At, CodeStmt, StmtOk, StmtWithin, Ends, Exec;
    if s.Let? {
      n, m' := SimLet(w, c, m, fuel, s, k, t, env);
    } else if s.Assign? {
      n, m' := SimAssign(w, c, m, fuel, s, k, t, env);
    } else if s.Print? {
      n, m' := SimPrint(w, c, m, fuel, s, k, t, env);
    } else if s.Perform? {
      n, m' := SimPerform(w, c, m, fuel, s, k, t, env);
    } else if s.If? {
      n, m' := SimIf(w, c, m, fuel, s, k, t, env);
    } else if s.While? || s.Loop? {
      n, m' := SimLoopStatement(w, c, m, fuel, s, k, t, env);
    } else if s.Return? {
      n, m' := SimReturn(w, c, m, fuel, s, k, t, env);
    } else {
      n, m' := SimSimple(w, c, m, fuel, s, k, t, env);
    }
  }

  lemma AfterReady(w: Linked, c: Context, m: Registers, m': Registers, s: Stmt, k: nat, env: Environment,
                   env': Environment)
    requires ContextReady(w, c, m, k, env) && StmtOk(c, s, k) && StmtWithin(s) && m'.stack == m.stack
             && Reps(After(c, s, k).scopes, env', m'.mem)
    ensures ContextReady(w, After(c, s, k), m', k + |StmtLets(s)|, env')
    ensures After(c, s, k) == c.(scopes := After(c, s, k).scopes) && Outer(After(c, s, k).scopes) == Outer(c.scopes)
  {
    hide Ready, Placed, FrameOk, Reps, Depth, StmtOk, StmtWithin, After, StmtLets;
    AfterPlaced(c, s, k);
  }

  lemma AllOutcome(p: Program, fuel: nat, ss: seq<Stmt>, env: Environment)
    requires ss != []
    ensures var (r1, r) := (Exec(p, fuel, ss[0], env), ExecAll(p, fuel, ss, env));
            && (!r1.Normal? ==> r == r1) && (r1.Normal? ==>
                                               r == Then(r1.out, ExecAll(p, fuel, ss[1..], r1.env)) && r1.out <= r.out)
  {
    hide Exec;
  }

  lemma AllContinues(code: Code, c: Context, d: Context, m: Registers, n1: nat, m1: Registers, o: Output, n2: nat,
                     m2: Registers, fuel: nat, r: Ended, next: nat)
    requires d == c.(scopes := d.scopes) && Outer(d.scopes) == Outer(c.scopes)
    requires Run(code, On(m), n1) == On(m1) && m1.stack == m.stack && m1.out == m.out + o
             && FrameOnly(m.mem, m1.mem, c.frame)
    requires Ends(code, d, m1, n2, m2, fuel, Leave(r), Outer(d.scopes), next)
    ensures Ends(code, c, m, n1 + n2, m2, fuel, Leave(Then(o, r)), Outer(c.scopes), next)
  {
    hide Run, Ends, FrameOnly;
    EndsScopes(code, c, d.scopes, m1, n2, m2, fuel, Leave(r), Outer(c.scopes), next);
    EndsLater(code, c, m, n1, m1, o, n2, m2, fuel, fuel, Leave(r), Outer(c.scopes), next);
    LeaveThen(o, r);
  }

  lemma AfterOuter(c: Context, s: Stmt, k: nat)
    ensures Outer(After(c, s, k).scopes) == Outer(c.scopes)
  {
  }

  lemma EndsElsewhere(code: Code, c: Context, m: Registers, n: nat, m': Registers, fuel: nat, r: Ended,
                      scopes: Scopes<Local>, next: nat, next': nat)
    requires Ends(code, c, m, n, m', fuel, r, scopes, next) && !r.Normal?
    ensures Ends(code, c, m, n, m', fuel, r, scopes, next')
  {
    hide Run, Reps, FrameOnly, Target, Early, ResultOk;
  }

  /** A statement list, ending with its block's scope dropped. */
  lemma {:induction false} SimAll(w: Linked, c: Context, m: Registers, fuel: nat, ss: seq<Stmt>, k: nat, t: nat,
                                  env: Environment)
    returns (n: nat, m': Registers)
    requires ContextReady(w, c, m, k, env) && At(w.code, m.pc, CodeBlock(c, ss, k, t)) && BlockOk(c, ss, k)
             && BlockWithin(ss)
    ensures Ends(w.code, c, m, n, m', fuel, Leave(ExecAll(w.program, fuel, ss, env)), Outer(c.scopes),
                 m.pc + |CodeBlock(c, ss, k, t)|)
    decreases fuel, ss, 0
  {
    hide ContextReady, At, CodeStmt, StmtOk, StmtWithin, Exec, Early, Run, After, Reps, FrameOnly, Target, ResultOk,
         StmtLets, StmtTags;
    if ss == [] {
      n, m' := 0, m;
      hide Ends;
      RunZero(w.code, On(m));
      assert m.out + [] == m.out;
      NormalEnds(w, c, m, 0, m, fuel, k, env, [], m.pc);
      EndsOuter(w.code, c, m, 0, m, fuel, Normal(env, []), c.scopes, m.pc);
    } else {
      var (ca, d) := (CodeStmt(c, ss[0], k, t), After(c, ss[0], k));
      var cb := CodeBlock(d, ss[1..], k + |StmtLets(ss[0])|, t + StmtTags(ss[0]));
      AtSplit(w.code, m.pc, ca, cb);
      AllOutcome(w.program, fuel, ss, env);
      var (r1, r, next) := (Exec(w.program, fuel, ss[0], env), ExecAll(w.program, fuel, ss, env), m.pc + |ca| + |cb|);
      LeaveThen([], r);
      var n1, m1 := SimStmt(w, c, m, fuel, ss[0], k, t, env);
      n, m' := n1, m1;
      if Early(w.code, m, n1, fuel, JudgeEnd(r1)) {
        hide Ends, ExecAll, Leave;
        EndsEarly(w.code, c, m, n1, m1, fuel, JudgeEnd(r1), Leave(r), Outer(c.scopes), next);
      } else if r1.Normal? {
        AfterReady(w, c, m, m1, ss[0], k, env, r1.env);
        n, m' := SimAll(w, d, m1, fuel, ss[1..], k + |StmtLets(ss[0])|, t + StmtTags(ss[0]), r1.env);
        AllContinues(w.code, c, d, m, n1, m1, r1.out, n, m', fuel, ExecAll(w.program, fuel, ss[1..], r1.env), next);
        n := n1 + n;
      } else {
        hide Ends;
        AfterOuter(c, ss[0], k);
        EndsElsewhere(w.code, c, m, n1, m1, fuel, r1, d.scopes, m.pc + |ca|, next);
        EndsOuter(w.code, c, m, n1, m1, fuel, r1, d.scopes, next);
      }
    }
  }
}
