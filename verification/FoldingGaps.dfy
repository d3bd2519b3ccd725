/** Where folding changes a program: exactly the constants the running program does not agree on. */
module FoldingGaps {
  import opened Options
  import opened ConstantArithmetic
  import opened OrPatterns
  import opened Folding
  import opened RuntimeIntegers
  import opened FoldingRuns
  import opened FoldingLaws
  import opened ConstantKinds
  import opened FoldingScopes
  import opened FoldingTheorems

  // ----- a program with one constant -----

  function Only(body: seq<Stmt>): seq<Function>
  {
    [Function("main", [], [], None, body, false)]
  }

  /** A constant of any type, followed by a use of it. */
  function Sample(x: string, annotation: Option<string>, value: Expr, uses: seq<Stmt>): seq<Function>
  {
    Only([Const(x, annotation, value, 0)] + uses)
  }

  lemma OnlyRuns<W>(h: Host<W>, body: seq<Stmt>, fuel: nat, w: W)
    ensures var fs := Only(body);
            Invoke(h, fs, fuel, "main", [], w) == Answered(h, fs[0], RunStmts(h, fs, fuel, body, [map[]], w))
  {
    hide RunStmts, Answered;
    var fs := Only(body);
    assert Chosen(fs, "main") == Some(fs[0]);
    assert CoercedAll(h, ParameterTypes(fs[0]), []) == Some([]);
    assert Activation([], []) == map[];
  }

  /** The rest of a block, after its first statement. */
  function Onward<W>(h: Host<W>, fs: seq<Function>, fuel: nat, flow: Flow<W>, rest: seq<Stmt>): Flow<W>
  {
    match flow case Next(env, w) => RunStmts(h, fs, fuel, rest, env, w) case other => other
  }

  lemma RunsOn<W>(h: Host<W>, fs: seq<Function>, fuel: nat, s: Stmt, rest: seq<Stmt>, env: Env, w: W)
    ensures RunStmts(h, fs, fuel, [s] + rest, env, w)
            == Onward(h, fs, fuel, RunStmt(h, fs, fuel, s, env, w), rest)
  {
    hide RunStmt;
    assert ([s] + rest)[0] == s && ([s] + rest)[1..] == rest;
  }

  /** What a program with one constant does, given the reply of its initializer. */
  function AfterConst<W>(h: Host<W>, fs: seq<Function>, fuel: nat, x: string, annotation: Option<string>, r: Reply<W>,
                         uses: seq<Stmt>): Reply<W>
    requires |fs| == 1
  {
    match r
    case Got(v, w) =>
      (match Coerced(h, annotation, v)
       case None => Trap(w)
       case Some(u) => Answered(h, fs[0], RunStmts(h, fs, fuel, uses, [map[x := u]], w)))
    case other => other
  }

  lemma SampleRuns<W>(h: Host<W>, x: string, annotation: Option<string>, value: Expr, uses: seq<Stmt>, fuel: nat, w: W)
    ensures var fs := Sample(x, annotation, value, uses);
            Invoke(h, fs, fuel, "main", [], w)
            == AfterConst(h, fs, fuel, x, annotation, RunExpr(h, fs, fuel, value, [map[]], w), uses)
  {
    hide RunStmts, RunExpr, Invoke;
    var (fs, s) := (Sample(x, annotation, value, uses), Const(x, annotation, value, 0));
    OnlyRuns(h, [s] + uses, fuel, w);
    RunsOn(h, fs, fuel, s, uses, [map[]], w);
    var r := RunExpr(h, fs, fuel, value, [map[]], w);
    if r.Got? && Coerced(h, annotation, r.value).Some? {
      var u := Coerced(h, annotation, r.value).value;
      assert Declare([map[]], x, u) == [map[x := u]];
    }
  }

  /** Evaluation of such a program records its constant. */
  lemma SampleEvaluates(l: Limits, x: string, annotation: Option<string>, value: Expr,
                        uses: seq<Stmt>, entries: seq<Entry>)
    requires Evaluate(l, Sample(x, annotation, value, uses)) == Some(entries) && LabelsIn("main", uses) == []
    ensures Worth(map[], value).Some? && entries == [Entry("main", x, 0, Worth(map[], value).value)]
    ensures Constant(Worth(map[], value).value)
  {
    var (fs, s, p) := (Sample(x, annotation, value, uses), Const(x, annotation, value, 0), Progress([], 0, 0, 0));
    hide Eval, Worth, VisitAll, Nodes, TextBytes;
    assert fs[1..] == [] && Parameters(fs[0]) == map[];
    assert Visit(l, fs, p) == VisitBlock(l, "main", map[], fs[0].body, p);
    var body := [s] + uses;
    assert fs[0].body == body && body[0] == s && body[1..] == uses;
    assert VisitAll(l, "main", map[], body, p).Some?;
    SampleVisits(l, s, uses, p);
  }

  lemma SampleVisits(l: Limits, s: Stmt, uses: seq<Stmt>, p: Progress)
    requires s.Const? && p == Progress([], 0, 0, 0) && VisitAll(l, "main", map[], [s] + uses, p).Some?
    requires LabelsIn("main", uses) == []
    ensures Worth(map[], s.value).Some? && Constant(Worth(map[], s.value).value)
    ensures VisitAll(l, "main", map[], [s] + uses, p).value.1.entries
            == [Entry("main", s.name, s.span, Worth(map[], s.value).value)]
  {
    hide Eval, Worth, Nodes, TextBytes, Adds;
    var body := [s] + uses;
    assert body[0] == s && body[1..] == uses;
    var (t, q) := VisitStmt(l, "main", map[], s, p).value;
    EvalWorth(l, map[], s.value, 0, 0);
    EvalConstant(l, map[], s.value, 0, 0);
    StmtAdds(l, "main", map[], s, p);
    AllAdds(l, "main", t, uses, q);
    NothingAdded(q.entries, VisitAll(l, "main", t, uses, q).value.1.entries);
  }

  lemma NothingAdded(a: seq<Entry>, b: seq<Entry>)
    requires Adds(a, b, [])
    ensures a == b
  {
    assert |Keys(a) + []| == |Keys(a)|;
  }

  // ----- and after folding -----

  lemma SampleFolds(x: string, annotation: Option<string>, value: Expr, uses: seq<Stmt>, v: Value)
    requires Constant(v)
    ensures var entries := [Entry("main", x, 0, v)];
            && Recorded(entries) && Sure(map[x := Some(v)])
            && Fold(entries, Sample(x, annotation, value, uses))
               == Sample(x, annotation, Reified(v), FoldAll(entries, "main", map[x := Some(v)], uses))
  {
    hide Reified;
    var (entries, fs, s) := ([Entry("main", x, 0, v)], Sample(x, annotation, value, uses),
                             Const(x, annotation, value, 0));
    var body := [s] + uses;
    assert fs[0].body == body && body[0] == s && body[1..] == uses && fs[1..] == [];
    assert Parameters(fs[0]) == map[];
    assert Found(entries, "main", x, 0) == Some(v);
    assert After(entries, "main", map[], s) == map[x := Some(v)];
    assert FoldAll(entries, "main", map[], body)
           == [FoldStmt(entries, "main", map[], s)] + FoldAll(entries, "main", map[x := Some(v)], uses);
    assert Fold(entries, fs) == [FoldFunction(entries, fs[0])];
  }

  /** The program that returns its constant. */
  function Returning(annotation: Option<string>, value: Expr): seq<Function>
  {
    Sample("x", annotation, value, [Return(Some(Name("x")))])
  }

  lemma ReturningRuns<W>(h: Host<W>, annotation: Option<string>, value: Expr, fuel: nat, w: W)
    ensures Invoke(h, Returning(annotation, value), fuel, "main", [], w)
            == match RunExpr(h, Returning(annotation, value), fuel, value, [map[]], w)
               case Got(v, u) => Replied(Coerced(h, annotation, v), u)
               case Trap(u) => Trap(u)
               case Spent => Spent
  {
    hide RunExpr, Invoke, RunStmt;
    var (fs, s) := (Returning(annotation, value), Return(Some(Name("x"))));
    SampleRuns(h, "x", annotation, value, [s], fuel, w);
    var r := RunExpr(h, fs, fuel, value, [map[]], w);
    if r.Got? && Coerced(h, annotation, r.value).Some? {
      var u := Coerced(h, annotation, r.value).value;
      NameRuns(h, fs, fuel, "x", u, r.world);
      ReturnRuns(h, fs, fuel, Name("x"), [map["x" := u]], r.world);
    }
  }

  lemma NameRuns<W>(h: Host<W>, fs: seq<Function>, fuel: nat, x: string, v: Value, w: W)
    ensures RunExpr(h, fs, fuel, Name(x), [map[x := v]], w) == Got(v, w)
  {
  }

  lemma ReturnRuns<W>(h: Host<W>, fs: seq<Function>, fuel: nat, e: Expr, env: Env, w: W)
    requires RunExpr(h, fs, fuel, e, env, w).Got?
    ensures var r := RunExpr(h, fs, fuel, e, env, w);
            RunStmts(h, fs, fuel, [Return(Some(e))], env, w) == Returned(r.value, r.world)
  {
    hide RunExpr;
    assert [Return(Some(e))][0] == Return(Some(e));
  }

  lemma ReturningFolds<W>(h: Host<W>, annotation: Option<string>, value: Expr, v: Value, fuel: nat, w: W)
    requires Constant(v) && Holdable(h.fields, v)
    ensures var entries := [Entry("main", "x", 0, v)];
            && Recorded(entries)
            && Invoke(h, Fold(entries, Returning(annotation, value)), fuel, "main", [], w)
               == if Coerced(h, annotation, Held(h.fields, v)).None? then Trap(w) else Got(Held(h.fields, v), w)
  {
    hide RunExpr, Invoke, RunStmt, Reified, Held, Coerced;
    var (entries, uses) := ([Entry("main", "x", 0, v)], [Return(Some(Name("x")))]);
    SampleFolds("x", annotation, value, uses, v);
    ReturnFolds(entries, v);
    var back := [Return(Some(Reified(v)))];
    var fs := Sample("x", annotation, Reified(v), back);
    SampleRuns(h, "x", annotation, Reified(v), back, fuel, w);
    ReifiedRuns(h, fs, fuel, v, [map[]], w);
    if Coerced(h, annotation, Held(h.fields, v)).Some? {
      var env := [map["x" := Coerced(h, annotation, Held(h.fields, v)).value]];
      ReifiedRuns(h, fs, fuel, v, env, w);
      ReturnRuns(h, fs, fuel, Reified(v), env, w);
      NoReturnType(h, fs[0], Held(h.fields, v), w);
    }
  }

  lemma NoReturnType<W>(h: Host<W>, f: Function, v: Value, w: W)
    requires f.returning.None?
    ensures Answered(h, f, Returned(v, w)) == Got(v, w)
  {
  }

  lemma ReturnFolds(entries: seq<Entry>, v: Value)
    requires Constant(v) && Recorded(entries) && Sure(map["x" := Some(v)])
    ensures FoldAll(entries, "main", map["x" := Some(v)], [Return(Some(Name("x")))]) == [Return(Some(Reified(v)))]
  {
    hide Reified;
    var (known, s) := (map["x" := Some(v)], Return(Some(Name("x"))));
    assert [s][0] == s && [s][1..] == [];
    assert FoldStmt(entries, "main", known, s) == Return(Some(Reified(v)));
    assert FoldAll(entries, "main", After(entries, "main", known, s), []) == [];
  }

  // ----- annotations and operations that decide -----

  /** For every number and every integer type name, the program that declares a constant and returns it is
      unchanged by folding if and only if the annotation keeps the number. */
  lemma AnnotationDecides<W>(h: Host<W>, l: Limits, name: string, n: int, entries: seq<Entry>, fuel: nat, w: W)
    requires InRange(n) && -n <= TWO_127 && !Floating(name)
    requires Evaluate(l, Returning(Some(name), ReifiedScalar(Integer(n)))) == Some(entries)
    ensures var fs := Returning(Some(name), ReifiedScalar(Integer(n)));
            && Recorded(entries)
            && (Invoke(h, Fold(entries, fs), fuel, "main", [], w) == Invoke(h, fs, fuel, "main", [], w)
                <==> KeepsNumber(name, n))
  {
    hide Invoke, RunExpr, Evaluate, Retagged, KeepsNumber, Fold;
    var (v, e) := (Scalar(Integer(n)), ReifiedScalar(Integer(n)));
    NoLabels();
    SampleEvaluates(l, "x", Some(name), e, [Return(Some(Name("x")))], entries);
    ScalarSteady(h.fields, map[], Integer(n));
    ReturningFolds(h, Some(name), e, v, fuel, w);
    ReturningRuns(h, Some(name), e, fuel, w);
    assert Reified(v) == e;
    ReifiedRuns(h, Returning(Some(name), e), fuel, v, [map[]], w);
    KeepsExactly(name, n);
    assert Held(h.fields, v) == Literally(n);
  }

  lemma NoLabels()
    ensures LabelsIn("main", [Return(Some(Name("x")))]) == []
  {
    var s := Return(Some(Name("x")));
    assert [s][0] == s && [s][1..] == [] && LabelsOf("main", s) == [];
  }

  function Literals(a: int, b: int): seq<Expr>
    requires InRange(a) && InRange(b)
  {
    [ReifiedScalar(Integer(a)), ReifiedScalar(Integer(b))]
  }

  /** For every operator on two numbers that has a compile-time value, the program that declares it as a constant and
      returns it is unchanged by folding if and only if the operation is in kind. */
  lemma OperatorDecides<W>(h: Host<W>, l: Limits, op: Operation, a: int, b: int, entries: seq<Entry>, fuel: nat, w: W)
    requires InRange(a) && InRange(b) && -a <= TWO_127 && -b <= TWO_127
    requires Scalarly(op) && op != Negate && op != Not && OnIntegers(op, a, b).Some?
    requires Holdable(h.fields, OnIntegers(op, a, b).value)
    requires Evaluate(l, Returning(None, Operate(op, Literals(a, b)))) == Some(entries)
    ensures var fs := Returning(None, Operate(op, Literals(a, b)));
            && Recorded(entries)
            && (Invoke(h, Fold(entries, fs), fuel, "main", [], w) == Invoke(h, fs, fuel, "main", [], w)
                <==> NumbersAgree(op, a, b))
  {
    hide Invoke, RunExpr, Evaluate, Fold, NumbersAgree, OnIntegers, Worth, Held, Holdable, Applied;
    var (e, vs) := (Operate(op, Literals(a, b)), [Scalar(Integer(a)), Scalar(Integer(b))]);
    NoLabels();
    SampleEvaluates(l, "x", None, e, [Return(Some(Name("x")))], entries);
    var v := Worth(map[], e).value;
    LiteralsWorth(h, op, a, b);
    LiteralsRun(h, Returning(None, e), op, a, b, fuel, w);
    BinaryDecides(h, op, a, b, w);
    ReturningFolds(h, None, e, v, fuel, w);
    ReturningRuns(h, None, e, fuel, w);
    PlainReply(h, op, a, b, w);
  }

  lemma PlainReply<W>(h: Host<W>, op: Operation, a: int, b: int, w: W)
    requires Scalarly(op) && op != Negate && op != Not && op != Index && op != Slice
    ensures var r := Applied(h, op, [Literally(a), Literally(b)], w); r.Got? || r == Trap(w)
    ensures var r := Applied(h, op, [Literally(a), Literally(b)], w); r.Got? ==> r.world == w
  {
  }

  lemma LiteralsWorth<W>(h: Host<W>, op: Operation, a: int, b: int)
    requires InRange(a) && InRange(b) && -a <= TWO_127 && -b <= TWO_127
    requires Scalarly(op) && op != Negate && op != Not && OnIntegers(op, a, b).Some?
    ensures Worth(map[], Operate(op, Literals(a, b))) == Fixed(op, [Scalar(Integer(a)), Scalar(Integer(b))])
            == OnIntegers(op, a, b)
  {
    var vs := [Scalar(Integer(a)), Scalar(Integer(b))];
    LiteralValues(h.fields, a, b);
    hide WorthAll, OnIntegers;
    assert Fixed(op, vs) == OnIntegers(op, a, b);
  }

  lemma LiteralValues(d: Fields, a: int, b: int)
    requires InRange(a) && InRange(b) && -a <= TWO_127 && -b <= TWO_127
    ensures WorthAll(map[], Literals(a, b)) == Some([Scalar(Integer(a)), Scalar(Integer(b))])
    ensures SteadyAll(d, map[], Literals(a, b))
  {
    hide Worth, Steady;
    var es := Literals(a, b);
    ScalarSteady(d, map[], Integer(a));
    ScalarSteady(d, map[], Integer(b));
    assert es[1..] == [es[1]] && [es[1]][1..] == [];
    assert WorthAll(map[], []) == Some([]) && SteadyAll(d, map[], []);
    assert WorthAll(map[], [es[1]]) == Some([Scalar(Integer(b))]) by {
      assert [Scalar(Integer(b))] + [] == [Scalar(Integer(b))];
    }
    assert [Scalar(Integer(a))] + [Scalar(Integer(b))] == [Scalar(Integer(a)), Scalar(Integer(b))];
    assert SteadyAll(d, map[], [es[1]]);
  }

  lemma LiteralsRun<W>(h: Host<W>, fs: seq<Function>, op: Operation, a: int, b: int, fuel: nat, w: W)
    requires InRange(a) && InRange(b) && -a <= TWO_127 && -b <= TWO_127
    ensures RunExpr(h, fs, fuel, Operate(op, Literals(a, b)), [map[]], w)
            == Applied(h, op, [Literally(a), Literally(b)], w)
  {
    var (d, vs) := (h.fields, [Scalar(Integer(a)), Scalar(Integer(b))]);
    LiteralValues(d, a, b);
    BlankAgrees(d, [map[]]);
    hide Applied, WorthAll, SteadyAll, RunAll;
    WorthAllRuns(h, fs, fuel, Blank(1), Literals(a, b), [map[]], w);
    assert HeldAll(d, vs) == [Literally(a), Literally(b)];
  }

  // ----- programs that change -----

  /** One scalar constant is within any limit. */
  lemma SampleEvaluable(l: Limits, x: string, annotation: Option<string>, value: Expr, uses: seq<Stmt>)
    requires Eval(l, map[], value, 0, 0).Some? && LabelsIn("main", uses) == [] && l.nodes >= 1
    requires IsNumber(Eval(l, map[], value, 0, 0).value.0)
    ensures Evaluate(l, Sample(x, annotation, value, uses)).Some?
  {
    var (fs, s, p) := (Sample(x, annotation, value, uses), Const(x, annotation, value, 0), Progress([], 0, 0, 0));
    hide Eval, LabelsIn;
    assert fs[1..] == [] && Parameters(fs[0]) == map[];
    var body := [s] + uses;
    assert fs[0].body == body && body[0] == s && body[1..] == uses;
    assert VisitStmt(l, "main", map[], s, p).Some?;
    var (t, q) := VisitStmt(l, "main", map[], s, p).value;
    UnlabelledVisits(l, "main", t, uses, q);
    hide VisitStmt;
    assert VisitAll(l, "main", map[], body, p) == VisitAll(l, "main", t, uses, q);
    assert VisitBlock(l, "main", map[], body, p).Some?;
    assert Visit(l, fs, p) == Visit(l, [], VisitBlock(l, "main", map[], body, p).value);
  }

  /** Statements without constants are always visited. */
  lemma {:induction false} UnlabelledVisits(l: Limits, f: string, known: Static, ss: seq<Stmt>, p: Progress)
    requires LabelsIn(f, ss) == []
    ensures VisitAll(l, f, known, ss, p).Some?
    decreases ss, 0
  {
    hide VisitStmt, LabelsOf;
    if ss != [] {
      assert LabelsOf(f, ss[0]) == [] && LabelsIn(f, ss[1..]) == [] by { assert |LabelsIn(f, ss)| == 0; }
      UnlabelledVisit(l, f, known, ss[0], p);
      var (t, q) := VisitStmt(l, f, known, ss[0], p).value;
      UnlabelledVisits(l, f, t, ss[1..], q);
    }
  }

  lemma {:induction false} UnlabelledVisit(l: Limits, f: string, known: Static, s: Stmt, p: Progress)
    requires LabelsOf(f, s) == []
    ensures VisitStmt(l, f, known, s, p).Some?
    decreases s, 1
  {
    hide VisitAll, LabelsIn;
    match s
    case If(_, yes, no) =>
      assert LabelsIn(f, yes) == [] && LabelsIn(f, no) == [] by {
        assert |LabelsIn(f, yes)| + |LabelsIn(f, no)| == |LabelsOf(f, s)|;
      }
      UnlabelledVisits(l, f, known, yes, p);
      UnlabelledVisits(l, f, known, no, VisitBlock(l, f, known, yes, p).value);
    case While(_, body) => UnlabelledVisits(l, f, known, body, p);
    case For(x, _, _, _, body) => UnlabelledVisits(l, f, known[x := None], body, p);
    case Each(x, _, body) => UnlabelledVisits(l, f, known[x := None], body, p);
    case Loop(body) => UnlabelledVisits(l, f, known, body, p);
    case Unsafe(body) => UnlabelledVisits(l, f, known, body, p);
    case _ =>
  }

  lemma SumEvaluates(l: Limits, a: int)
    requires 0 <= a < TWO_63 && l.steps >= 3 && l.depth >= 1
    ensures Eval(l, map[], Operate(Add, Literals(a, 1)), 0, 0) == Some((Scalar(Integer(a + 1)), 3))
  {
    var es := Literals(a, 1);
    assert es == [Number(a), Number(1)] && es[1..] == [Number(1)] && [Number(1)][1..] == [];
    assert Eval(l, map[], Number(a), 1, 1) == Some((Scalar(Integer(a)), 2));
    assert Eval(l, map[], Number(1), 1, 2) == Some((Scalar(Integer(1)), 3));
    assert EvalAll(l, map[], [], 1, 3) == Some(([], 3));
    assert EvalAll(l, map[], [Number(1)], 1, 2) == Some(([Scalar(Integer(1))] + [], 3));
    assert EvalAll(l, map[], es, 1, 1) == Some(([Scalar(Integer(a))] + ([Scalar(Integer(1))] + []), 3));
    IntegersExact(Add, a, 1);
  }

  /** A constant beyond `int` overflows when the program computes it and does not when it is folded. */
  lemma OverflowErased<W>(h: Host<W>, l: Limits, fuel: nat, w: W) returns (entries: seq<Entry>)
    requires l.steps >= 3 && l.depth >= 1 && l.nodes >= 1
    ensures var fs := Returning(None, Operate(Add, Literals(TWO_63 - 1, 1)));
            && Evaluate(l, fs) == Some(entries) && Recorded(entries)
            && Invoke(h, fs, fuel, "main", [], w) == Trap(w)
            && Invoke(h, Fold(entries, fs), fuel, "main", [], w) == Got(Whole(UnsignedOf(128), TWO_63), w)
  {
    var (a, e) := (TWO_63 - 1, Operate(Add, Literals(TWO_63 - 1, 1)));
    var v := Scalar(Integer(TWO_63));
    assert OnIntegers(Add, a, 1) == Some(v);
    assert Applied(h, Add, [Literally(a), Literally(1)], w) == Trap(w);
    SumEvaluates(l, a);
    hide Invoke, RunExpr, Evaluate, Fold, OnIntegers, Worth, Applied;
    NoLabels();
    SampleEvaluable(l, "x", None, e, [Return(Some(Name("x")))]);
    entries := Evaluate(l, Returning(None, e)).value;
    SampleEvaluates(l, "x", None, e, [Return(Some(Name("x")))], entries);
    LiteralsWorth(h, Add, a, 1);
    LiteralsRun(h, Returning(None, e), Add, a, 1, fuel, w);
    ReturningFolds(h, None, e, v, fuel, w);
    ReturningRuns(h, None, e, fuel, w);
  }

  /** `if limit + 28 > 0` with a constant `limit: i8 = 100`. */
  function Narrow(): seq<Function>
  {
    Sample("limit", Some("i8"), Number(100), [Asking(Name("limit")), Return(Some(Flag(false)))])
  }

  function Asking(limit: Expr): Stmt
  {
    If(Exceeds(limit), [Return(Some(Flag(true)))], [])
  }

  function Exceeds(limit: Expr): Expr
  {
    Operate(Greater, [Operate(Add, [limit, Number(28)]), Number(0)])
  }

  lemma PairRuns<W>(h: Host<W>, fs: seq<Function>, fuel: nat, op: Operation, a: Expr, b: Expr, env: Env, w: W)
    requires RunExpr(h, fs, fuel, a, env, w).Got?
    requires RunExpr(h, fs, fuel, b, env, RunExpr(h, fs, fuel, a, env, w).world).Got?
    ensures var (x, u) := (RunExpr(h, fs, fuel, a, env, w).value, RunExpr(h, fs, fuel, a, env, w).world);
            var (y, z) := (RunExpr(h, fs, fuel, b, env, u).value, RunExpr(h, fs, fuel, b, env, u).world);
            RunExpr(h, fs, fuel, Operate(op, [a, b]), env, w) == Applied(h, op, [x, y], z)
  {
    hide Applied;
    var es := [a, b];
    assert es[1..] == [b] && [b][1..] == [];
    var r := RunExpr(h, fs, fuel, a, env, w);
    var q := RunExpr(h, fs, fuel, b, env, r.world);
    assert RunAll(h, fs, fuel, [], env, q.world) == Got(Sequence([]), q.world);
    assert RunAll(h, fs, fuel, [b], env, r.world) == Got(Sequence([q.value]), q.world) by {
      assert [q.value] + [] == [q.value];
    }
    assert RunAll(h, fs, fuel, es, env, w) == Got(Sequence([r.value, q.value]), q.world) by {
      assert [r.value] + [q.value] == [r.value, q.value];
    }
  }

  lemma ExceedsRuns<W>(h: Host<W>, fs: seq<Function>, fuel: nat, limit: Expr, v: Value, env: Env, w: W)
    requires RunExpr(h, fs, fuel, limit, env, w) == Got(v, w)
    ensures v == Whole(SignedOf(8), 100) ==> RunExpr(h, fs, fuel, Exceeds(limit), env, w) == Trap(w)
    ensures v == Whole(Int, 100) ==> RunExpr(h, fs, fuel, Exceeds(limit), env, w) == Got(Truthful(true), w)
  {
    var sum := Operate(Add, [limit, Number(28)]);
    NumberRuns(h, fs, fuel, 28, env, w);
    NumberRuns(h, fs, fuel, 0, env, w);
    SumsApply(h, w);
    hide RunExpr, Applied;
    PairRuns(h, fs, fuel, Add, limit, Number(28), env, w);
    if v == Whole(SignedOf(8), 100) {
      FirstTraps(h, fs, fuel, Greater, sum, Number(0), env, w);
    } else if v == Whole(Int, 100) {
      PairRuns(h, fs, fuel, Greater, sum, Number(0), env, w);
    }
  }

  lemma NumberRuns<W>(h: Host<W>, fs: seq<Function>, fuel: nat, n: nat, env: Env, w: W)
    requires n < TWO_63
    ensures RunExpr(h, fs, fuel, Number(n), env, w) == Got(Whole(Int, n), w)
  {
  }

  lemma SumsApply<W>(h: Host<W>, w: W)
    ensures Applied(h, Add, [Whole(SignedOf(8), 100), Whole(Int, 28)], w) == Trap(w)
    ensures Applied(h, Add, [Whole(Int, 100), Whole(Int, 28)], w) == Got(Whole(Int, 128), w)
    ensures Applied(h, Greater, [Whole(Int, 128), Whole(Int, 0)], w) == Got(Truthful(true), w)
  {
  }

  lemma FirstTraps<W>(h: Host<W>, fs: seq<Function>, fuel: nat, op: Operation, a: Expr, b: Expr, env: Env, w: W)
    requires RunExpr(h, fs, fuel, a, env, w) == Trap(w)
    ensures RunExpr(h, fs, fuel, Operate(op, [a, b]), env, w) == Trap(w)
  {
    hide Applied;
    assert [a, b][0] == a;
    assert RunAll(h, fs, fuel, [a, b], env, w) == Trap(w);
  }

  lemma AskingRuns<W>(h: Host<W>, fs: seq<Function>, fuel: nat, limit: Expr, rest: seq<Stmt>, env: Env, w: W)
    ensures RunExpr(h, fs, fuel, Exceeds(limit), env, w) == Trap(w) ==>
              RunStmts(h, fs, fuel, [Asking(limit)] + rest, env, w) == Fault(w)
    ensures RunExpr(h, fs, fuel, Exceeds(limit), env, w) == Got(Truthful(true), w) ==>
              RunStmts(h, fs, fuel, [Asking(limit)] + rest, env, w) == Returned(Truthful(true), w)
  {
    hide RunStmts;
    RunsOn(h, fs, fuel, Asking(limit), rest, env, w);
    var yes := [Return(Some(Flag(true)))];
    assert RunExpr(h, fs, fuel, Flag(true), env + [map[]], w) == Got(Truthful(true), w);
    ReturnRuns(h, fs, fuel, Flag(true), env + [map[]], w);
    hide RunExpr;
    assert RunBlock(h, fs, fuel, yes, map[], env, w) == Returned(Truthful(true), w);
  }

  /** A constant that is narrower than its literal checks its width before folding and not after. */
  lemma NarrowCheckErased<W>(h: Host<W>, l: Limits, fuel: nat, w: W) returns (entries: seq<Entry>)
    requires l.steps >= 1 && l.nodes >= 1
    ensures Evaluate(l, Narrow()) == Some(entries) && Recorded(entries)
    ensures Invoke(h, Narrow(), fuel, "main", [], w) == Trap(w)
    ensures Invoke(h, Fold(entries, Narrow()), fuel, "main", [], w) == Got(Truthful(true), w)
  {
    var (v, last) := (Scalar(Integer(100)), Return(Some(Flag(false))));
    var uses := [Asking(Name("limit")), last];
    assert Worth(map[], Number(100)) == Some(v) && Reified(v) == Number(100);
    NarrowLabels(uses, last);
    SampleEvaluable(l, "limit", Some("i8"), Number(100), uses);
    entries := Evaluate(l, Narrow()).value;
    SampleEvaluates(l, "limit", Some("i8"), Number(100), uses, entries);
    NarrowRuns(h, Name("limit"), last, Narrow(), fuel, w);
    SampleFolds("limit", Some("i8"), Number(100), uses, v);
    NarrowFolds(entries, last, v);
    NarrowRuns(h, Number(100), last, Fold(entries, Narrow()), fuel, w);
  }

  lemma NarrowLabels(uses: seq<Stmt>, last: Stmt)
    requires last == Return(Some(Flag(false))) && uses == [Asking(Name("limit")), last]
    ensures LabelsIn("main", uses) == []
  {
    var yes := [Return(Some(Flag(true)))];
    assert yes[1..] == [] && LabelsIn("main", yes) == [] && LabelsIn("main", []) == [];
    assert uses[1..] == [last] && [last][1..] == [] && LabelsOf("main", uses[0]) == []
           && LabelsIn("main", [last]) == [];
  }

  lemma NarrowFolds(entries: seq<Entry>, last: Stmt, v: Value)
    requires v == Scalar(Integer(100)) && last == Return(Some(Flag(false))) && Recorded(entries)
             && Sure(map["limit" := Some(v)])
    ensures FoldAll(entries, "main", map["limit" := Some(v)], [Asking(Name("limit")), last])
            == [Asking(Number(100)), last]
  {
    var (known, ask) := (map["limit" := Some(v)], Asking(Name("limit")));
    var sum := [Name("limit"), Number(28)];
    assert FoldExprs(known, sum) == [Number(100), Number(28)] by {
      assert sum[1..] == [Number(28)] && [Number(28)][1..] == [];
      assert FoldExpr(known, Name("limit")) == Number(100);
    }
    var both := [Operate(Add, sum), Number(0)];
    assert FoldExprs(known, both) == [Operate(Add, [Number(100), Number(28)]), Number(0)] by {
      assert both[1..] == [Number(0)] && [Number(0)][1..] == [];
    }
    var yes := [Return(Some(Flag(true)))];
    assert FoldAll(entries, "main", known, yes) == yes by { assert yes[1..] == []; }
    assert FoldStmt(entries, "main", known, ask) == Asking(Number(100));
    assert [ask, last][1..] == [last] && [last][1..] == [];
    assert FoldAll(entries, "main", known, [last]) == [last];
  }

  lemma NarrowRuns<W>(h: Host<W>, limit: Expr, last: Stmt, fs: seq<Function>, fuel: nat, w: W)
    requires limit == Name("limit") || limit == Number(100)
    requires fs == Sample("limit", Some("i8"), Number(100), [Asking(limit), last])
    ensures Invoke(h, fs, fuel, "main", [], w) == if limit == Name("limit") then Trap(w) else Got(Truthful(true), w)
  {
    var (u, env) := (Whole(SignedOf(8), 100), [map["limit" := Whole(SignedOf(8), 100)]]);
    assert RunExpr(h, fs, fuel, Number(100), [map[]], w) == Got(Whole(Int, 100), w);
    assert Coerced(h, Some("i8"), Whole(Int, 100)) == Some(u);
    NameRuns(h, fs, fuel, "limit", u, w);
    assert RunExpr(h, fs, fuel, Number(100), env, w) == Got(Whole(Int, 100), w);
    hide Invoke, RunStmts, RunExpr, Coerced;
    SampleRuns(h, "limit", Some("i8"), Number(100), [Asking(limit), last], fuel, w);
    ExceedsRuns(h, fs, fuel, limit, if limit == Name("limit") then u else Whole(Int, 100), env, w);
    AskingRuns(h, fs, fuel, limit, [last], env, w);
    assert [Asking(limit)] + [last] == [Asking(limit), last];
    NoReturnType(h, fs[0], Truthful(true), w);
  }

  // ----- a method that wraps in the width of its receiver -----

  /** `limit.wrapping_add(28)` with the same constant. */
  function Wrapping(limit: Expr): Stmt
  {
    Return(Some(Call(Operate(Member("wrapping_add"), [limit]), [Number(28)])))
  }

  function Method(receiver: Value): Value
  {
    Enum("method", "wrapping_add", [receiver])
  }

  /** The host binds the method to its receiver and adds in the receiver's width, as `integer_method` does. */
  ghost predicate WrapsAt<W>(h: Host<W>, w: W)
  {
    var (narrow, wide) := (Whole(SignedOf(8), 100), Whole(Int, 100));
    && h.apply(Member("wrapping_add"), [narrow], w) == Got(Method(narrow), w)
    && h.apply(Member("wrapping_add"), [wide], w) == Got(Method(wide), w)
    && h.target(Method(narrow), [Whole(Int, 28)]) == h.target(Method(wide), [Whole(Int, 28)]) == None
    && h.call(Method(narrow), [Whole(Int, 28)], w) == Got(Whole(SignedOf(8), -128), w)
    && h.call(Method(wide), [Whole(Int, 28)], w) == Got(Whole(Int, 128), w)
  }

  lemma WrappingRuns<W>(h: Host<W>, fs: seq<Function>, fuel: nat, limit: Expr, v: Value, env: Env, w: W)
    requires RunExpr(h, fs, fuel, limit, env, w) == Got(v, w) && WrapsAt(h, w)
    requires v == Whole(SignedOf(8), 100) || v == Whole(Int, 100)
    ensures RunStmts(h, fs, fuel, [Wrapping(limit)], env, w)
            == Returned(if v.tag == Int then Whole(Int, 128) else Whole(SignedOf(8), -128), w)
  {
    var (es, args, callee) := ([limit], [Number(28)], Operate(Member("wrapping_add"), [limit]));
    var bound := Method(v);
    assert es[1..] == [] && args[1..] == [];
    assert RunAll(h, fs, fuel, [], env, w) == Got(Sequence([]), w);
    assert RunAll(h, fs, fuel, es, env, w) == Got(Sequence([v]), w) by { assert [v] + [] == [v]; }
    assert RunExpr(h, fs, fuel, callee, env, w) == Got(bound, w);
    assert RunExpr(h, fs, fuel, Number(28), env, w) == Got(Whole(Int, 28), w);
    assert RunAll(h, fs, fuel, args, env, w) == Got(Sequence([Whole(Int, 28)]), w) by {
      assert [Whole(Int, 28)] + [] == [Whole(Int, 28)];
    }
    assert RunCall(h, fs, fuel, Call(callee, args), env, w) == h.call(bound, [Whole(Int, 28)], w);
    ReturnRuns(h, fs, fuel, Call(callee, args), env, w);
  }

  /** A method of a narrow constant wraps at its width before folding and not after. */
  lemma WrappingChanges<W>(h: Host<W>, l: Limits, fuel: nat, w: W) returns (entries: seq<Entry>)
    requires l.steps >= 1 && l.nodes >= 1 && WrapsAt(h, w)
    ensures var fs := Sample("limit", Some("i8"), Number(100), [Wrapping(Name("limit"))]);
            && Evaluate(l, fs) == Some(entries) && Recorded(entries)
            && Invoke(h, fs, fuel, "main", [], w) == Got(Whole(SignedOf(8), -128), w)
            && Invoke(h, Fold(entries, fs), fuel, "main", [], w) == Got(Whole(Int, 128), w)
  {
    var (v, uses) := (Scalar(Integer(100)), [Wrapping(Name("limit"))]);
    var fs := Sample("limit", Some("i8"), Number(100), uses);
    assert Worth(map[], Number(100)) == Some(v) && Reified(v) == Number(100);
    assert LabelsIn("main", uses) == [] by { assert uses[1..] == [] && LabelsOf("main", uses[0]) == []; }
    SampleEvaluable(l, "limit", Some("i8"), Number(100), uses);
    entries := Evaluate(l, fs).value;
    SampleEvaluates(l, "limit", Some("i8"), Number(100), uses, entries);
    WrappingInvoked(h, Name("limit"), fs, fuel, w);
    SampleFolds("limit", Some("i8"), Number(100), uses, v);
    WrappingFolds(entries, v);
    WrappingInvoked(h, Number(100), Fold(entries, fs), fuel, w);
  }

  lemma WrappingInvoked<W>(h: Host<W>, limit: Expr, fs: seq<Function>, fuel: nat, w: W)
    requires (limit == Name("limit") || limit == Number(100)) && WrapsAt(h, w)
    requires fs == Sample("limit", Some("i8"), Number(100), [Wrapping(limit)])
    ensures Invoke(h, fs, fuel, "main", [], w)
            == Got(if limit == Number(100) then Whole(Int, 128) else Whole(SignedOf(8), -128), w)
  {
    var (u, env) := (Whole(SignedOf(8), 100), [map["limit" := Whole(SignedOf(8), 100)]]);
    assert RunExpr(h, fs, fuel, Number(100), [map[]], w) == Got(Whole(Int, 100), w);
    assert Coerced(h, Some("i8"), Whole(Int, 100)) == Some(u);
    NameRuns(h, fs, fuel, "limit", u, w);
    assert RunExpr(h, fs, fuel, Number(100), env, w) == Got(Whole(Int, 100), w);
    hide Invoke, RunStmts, RunExpr, Coerced, WrapsAt;
    SampleRuns(h, "limit", Some("i8"), Number(100), [Wrapping(limit)], fuel, w);
    WrappingRuns(h, fs, fuel, limit, if limit == Name("limit") then u else Whole(Int, 100), env, w);
    NoReturnType(h, fs[0], if limit == Number(100) then Whole(Int, 128) else Whole(SignedOf(8), -128), w);
  }

  lemma WrappingFolds(entries: seq<Entry>, v: Value)
    requires v == Scalar(Integer(100)) && Recorded(entries) && Sure(map["limit" := Some(v)])
    ensures FoldAll(entries, "main", map["limit" := Some(v)], [Wrapping(Name("limit"))]) == [Wrapping(Number(100))]
  {
    var (known, s) := (map["limit" := Some(v)], Wrapping(Name("limit")));
    assert FoldExpr(known, Name("limit")) == Number(100);
    assert FoldExprs(known, [Name("limit")]) == [Number(100)] by { assert [Name("limit")][1..] == []; }
    assert FoldExprs(known, [Number(28)]) == [Number(28)] by { assert [Number(28)][1..] == []; }
    assert FoldStmt(entries, "main", known, s) == Wrapping(Number(100));
    assert [s][1..] == [];
  }
}
