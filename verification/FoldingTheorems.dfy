/** From evaluation to folding: what holds of every program whose constants can be evaluated. */
module FoldingTheorems {
  import opened Options
  import opened TextOrder
  import opened OrPatterns
  import opened Folding
  import opened FoldingRuns
  import opened FoldingLaws
  import opened ConstantKinds
  import opened FoldingScopes
  import opened FoldingKeeps

  // ----- the constants of a program, by function, name and span -----

  type Label = (string, string, nat)

  function LabelsOf(f: string, s: Stmt): seq<Label>
    decreases s, 1
  {
    match s
    case Const(x, _, _, span) => [(f, x, span)]
    case If(_, yes, no) => LabelsIn(f, yes) + LabelsIn(f, no)
    case While(_, body) => LabelsIn(f, body)
    case For(_, _, _, _, body) => LabelsIn(f, body)
    case Each(_, _, body) => LabelsIn(f, body)
    case Loop(body) => LabelsIn(f, body)
    case Unsafe(body) => LabelsIn(f, body)
    case _ => []
  }

  function LabelsIn(f: string, ss: seq<Stmt>): seq<Label>
    decreases ss, 0
  {
    if ss == [] then [] else LabelsOf(f, ss[0]) + LabelsIn(f, ss[1..])
  }

  function Labels(fs: seq<Function>): seq<Label>
  {
    if fs == [] then []
    else (if fs[0].external then [] else LabelsIn(fs[0].name, fs[0].body)) + Labels(fs[1..])
  }

  predicate Distinct(labels: seq<Label>)
  {
    forall i, j :: 0 <= i < j < |labels| ==> labels[i] != labels[j]
  }

  function Keys(entries: seq<Entry>): (r: seq<Label>)
    ensures |r| == |entries| && forall i :: 0 <= i < |r| ==> r[i] == (entries[i].home, entries[i].name, entries[i].span)
  {
    seq(|entries|, i requires 0 <= i < |entries| => (entries[i].home, entries[i].name, entries[i].span))
  }

  /** Evaluation adds the constants with the given labels. */
  ghost predicate Adds(before: seq<Entry>, after: seq<Entry>, labels: seq<Label>)
  {
    before <= after && Keys(after) == Keys(before) + labels && (Recorded(before) ==> Recorded(after))
  }

  lemma AddsNothing(entries: seq<Entry>)
    ensures Adds(entries, entries, [])
  {
    assert Keys(entries) + [] == Keys(entries);
  }

  lemma AddsBoth(a: seq<Entry>, b: seq<Entry>, c: seq<Entry>, x: seq<Label>, y: seq<Label>)
    requires Adds(a, b, x) && Adds(b, c, y)
    ensures Adds(a, c, x + y)
  {
    assert Keys(a) + x + y == Keys(a) + (x + y);
  }

  lemma AddsOne(entries: seq<Entry>, e: Entry)
    requires Constant(e.value)
    ensures Adds(entries, entries + [e], [(e.home, e.name, e.span)])
  {
    assert Keys(entries + [e]) == Keys(entries) + [(e.home, e.name, e.span)];
  }

  // ----- every constant is recorded under its label -----

  lemma {:induction false} FoundAt(entries: seq<Entry>, i: nat)
    requires i < |entries| && Distinct(Keys(entries))
    ensures Found(entries, entries[i].home, entries[i].name, entries[i].span) == Some(entries[i].value)
    decreases entries
  {
    if i > 0 {
      assert Keys(entries)[0] != Keys(entries)[i];
      assert Keys(entries[1..]) == Keys(entries)[1..];
      FoundAt(entries[1..], i - 1);
    }
  }

  lemma {:induction false} StmtAdds(l: Limits, f: string, known: Static, s: Stmt, p: Progress)
    requires Sure(known) && VisitStmt(l, f, known, s, p).Some?
    ensures Adds(p.entries, VisitStmt(l, f, known, s, p).value.1.entries, LabelsOf(f, s))
    ensures Sure(VisitStmt(l, f, known, s, p).value.0)
    decreases s, 1
  {
    hide Sure, Adds, VisitBlock, Eval, LabelsIn, Nodes, TextBytes;
    AddsNothing(p.entries);
    match s
    case Const(x, _, value, span) =>
      EvalConstant(l, known, value, 0, p.steps);
      var v := Eval(l, known, value, 0, p.steps).value.0;
      AddsOne(p.entries, Entry(f, x, span, v));
      SureConstant(known, x, v);
    case Bind(x, _, _) => SureVariable(known, x);
    case If(_, yes, no) =>
      var q := VisitBlock(l, f, known, yes, p).value;
      var r := VisitBlock(l, f, known, no, q).value;
      BlockAdds(l, f, known, yes, p);
      BlockAdds(l, f, known, no, q);
      AddsBoth(p.entries, q.entries, r.entries, LabelsIn(f, yes), LabelsIn(f, no));
    case While(_, body) => BlockAdds(l, f, known, body, p);
    case For(x, _, _, _, body) =>
      SureVariable(known, x);
      BlockAdds(l, f, known[x := None], body, p);
    case Each(x, _, body) =>
      SureVariable(known, x);
      BlockAdds(l, f, known[x := None], body, p);
    case Loop(body) => BlockAdds(l, f, known, body, p);
    case Unsafe(body) => BlockAdds(l, f, known, body, p);
    case _ =>
  }

  lemma SureConstant(known: Static, x: string, v: Value)
    requires Sure(known) && Constant(v)
    ensures Sure(known[x := Some(v)])
  {
  }

  lemma {:induction false} AllAdds(l: Limits, f: string, known: Static, ss: seq<Stmt>, p: Progress)
    requires Sure(known) && VisitAll(l, f, known, ss, p).Some?
    ensures Adds(p.entries, VisitAll(l, f, known, ss, p).value.1.entries, LabelsIn(f, ss))
    decreases ss, 0
  {
    hide Sure, Adds, VisitStmt, LabelsOf;
    if ss == [] {
      AddsNothing(p.entries);
    } else {
      var (t, q) := VisitStmt(l, f, known, ss[0], p).value;
      StmtAdds(l, f, known, ss[0], p);
      AllAdds(l, f, t, ss[1..], q);
      AddsBoth(p.entries, q.entries, VisitAll(l, f, t, ss[1..], q).value.1.entries, LabelsOf(f, ss[0]),
               LabelsIn(f, ss[1..]));
    }
  }

  lemma {:induction false} BlockAdds(l: Limits, f: string, known: Static, ss: seq<Stmt>, p: Progress)
    requires Sure(known) && VisitBlock(l, f, known, ss, p).Some?
    ensures Adds(p.entries, VisitBlock(l, f, known, ss, p).value.entries, LabelsIn(f, ss))
    decreases ss, 1
  {
    hide Sure, Adds, VisitAll, LabelsIn;
    AllAdds(l, f, known, ss, p);
  }

  lemma {:induction false} VisitAdds(l: Limits, fs: seq<Function>, p: Progress)
    requires Visit(l, fs, p).Some?
    ensures Adds(p.entries, Visit(l, fs, p).value.entries, Labels(fs))
    decreases fs
  {
    hide Sure, Adds, VisitBlock, LabelsIn;
    if fs == [] {
      AddsNothing(p.entries);
    } else if fs[0].external {
      VisitAdds(l, fs[1..], p);
      assert [] + Labels(fs[1..]) == Labels(fs[1..]);
    } else {
      SureParameters(fs[0]);
      var q := VisitBlock(l, fs[0].name, Parameters(fs[0]), fs[0].body, p).value;
      BlockAdds(l, fs[0].name, Parameters(fs[0]), fs[0].body, p);
      VisitAdds(l, fs[1..], q);
      AddsBoth(p.entries, q.entries, Visit(l, fs[1..], q).value.entries, LabelsIn(fs[0].name, fs[0].body),
               Labels(fs[1..]));
    }
  }

  // ----- constants the running program agrees on -----

  /** What is known after a statement when nothing limits evaluation. */
  function Later(known: Static, s: Stmt): Static
  {
    match s
    case Const(x, _, value, _) => known[x := Worth(known, value)]
    case Bind(x, _, _) => known[x := None]
    case _ => known
  }

  /** Every operation of every initializer is in kind, and every annotation keeps its constant. */
  predicate AgreedStmt(d: Fields, known: Static, s: Stmt)
    decreases s, 1
  {
    match s
    case Const(_, annotation, value, _) => Agreed(d, known, annotation, value)
    case If(_, yes, no) => AgreedBlock(d, known, yes) && AgreedBlock(d, known, no)
    case While(_, body) => AgreedBlock(d, known, body)
    case For(x, _, _, _, body) => AgreedBlock(d, known[x := None], body)
    case Each(x, _, body) => AgreedBlock(d, known[x := None], body)
    case Loop(body) => AgreedBlock(d, known, body)
    case Unsafe(body) => AgreedBlock(d, known, body)
    case _ => true
  }

  predicate AgreedBlock(d: Fields, known: Static, ss: seq<Stmt>)
    decreases ss, 0
  {
    ss == [] || (AgreedStmt(d, known, ss[0]) && AgreedBlock(d, Later(known, ss[0]), ss[1..]))
  }

  predicate AgreedProgram(d: Fields, fs: seq<Function>)
  {
    forall i :: 0 <= i < |fs| && !fs[i].external ==> AgreedBlock(d, Parameters(fs[i]), fs[i].body)
  }

  // ----- and folding knows them where evaluation did -----

  lemma AddsPrefix(a: seq<Entry>, b: seq<Entry>, labels: seq<Label>, entries: seq<Entry>)
    requires Adds(a, b, labels) && b <= entries
    ensures a <= entries
  {
  }

  lemma {:induction false} StmtVisited(d: Fields, l: Limits, f: string, known: Static, s: Stmt, p: Progress,
                                       entries: seq<Entry>)
    requires Sure(known) && VisitStmt(l, f, known, s, p).Some? && AgreedStmt(d, known, s)
    requires VisitStmt(l, f, known, s, p).value.1.entries <= entries && Distinct(Keys(entries))
    ensures Resolved(d, entries, f, known, s)
    ensures VisitStmt(l, f, known, s, p).value.0 == After(entries, f, known, s) == Later(known, s)
    decreases s, 1
  {
    hide Sure, Adds, Distinct, VisitBlock, ResolvedAll, Eval, Nodes, TextBytes, AgreedBlock, Agreed, Worth;
    match s
    case Const(x, _, value, span) =>
      var v := Eval(l, known, value, 0, p.steps).value.0;
      assert entries[|p.entries|] == Entry(f, x, span, v);
      FoundAt(entries, |p.entries|);
      EvalWorth(l, known, value, 0, p.steps);
    case If(_, yes, no) =>
      var q := VisitBlock(l, f, known, yes, p).value;
      BlockAdds(l, f, known, no, q);
      AddsPrefix(q.entries, VisitBlock(l, f, known, no, q).value.entries, LabelsIn(f, no), entries);
      BlockVisited(d, l, f, known, yes, p, entries);
      BlockVisited(d, l, f, known, no, q, entries);
    case While(_, body) => BlockVisited(d, l, f, known, body, p, entries);
    case For(x, _, _, _, body) =>
      SureVariable(known, x);
      BlockVisited(d, l, f, known[x := None], body, p, entries);
    case Each(x, _, body) =>
      SureVariable(known, x);
      BlockVisited(d, l, f, known[x := None], body, p, entries);
    case Loop(body) => BlockVisited(d, l, f, known, body, p, entries);
    case Unsafe(body) => BlockVisited(d, l, f, known, body, p, entries);
    case _ =>
  }

  lemma {:induction false} AllVisited(d: Fields, l: Limits, f: string, known: Static, ss: seq<Stmt>, p: Progress,
                                      entries: seq<Entry>)
    requires Sure(known) && VisitAll(l, f, known, ss, p).Some? && AgreedBlock(d, known, ss)
    requires VisitAll(l, f, known, ss, p).value.1.entries <= entries && Distinct(Keys(entries))
    ensures ResolvedAll(d, entries, f, known, ss)
    decreases ss, 0
  {
    hide Sure, Adds, Distinct, VisitStmt, Resolved, After, AgreedStmt, Later;
    if ss != [] {
      var (t, q) := VisitStmt(l, f, known, ss[0], p).value;
      StmtAdds(l, f, known, ss[0], p);
      AllAdds(l, f, t, ss[1..], q);
      AddsPrefix(q.entries, VisitAll(l, f, t, ss[1..], q).value.1.entries, LabelsIn(f, ss[1..]), entries);
      StmtVisited(d, l, f, known, ss[0], p, entries);
      AllVisited(d, l, f, t, ss[1..], q, entries);
    }
  }

  lemma {:induction false} BlockVisited(d: Fields, l: Limits, f: string, known: Static, ss: seq<Stmt>, p: Progress,
                                        entries: seq<Entry>)
    requires Sure(known) && VisitBlock(l, f, known, ss, p).Some? && AgreedBlock(d, known, ss)
    requires VisitBlock(l, f, known, ss, p).value.entries <= entries && Distinct(Keys(entries))
    ensures ResolvedAll(d, entries, f, known, ss)
    decreases ss, 1
  {
    hide Sure, Distinct, VisitAll, ResolvedAll, AgreedBlock;
    AllVisited(d, l, f, known, ss, p, entries);
  }

  lemma {:induction false} ProgramVisited(d: Fields, l: Limits, fs: seq<Function>, p: Progress, entries: seq<Entry>)
    requires Visit(l, fs, p).Some? && Visit(l, fs, p).value.entries <= entries && Distinct(Keys(entries))
    requires AgreedProgram(d, fs)
    ensures ProgramResolved(d, entries, fs)
    decreases fs
  {
    hide Sure, Adds, Distinct, VisitBlock, ResolvedAll, Parameters, AgreedBlock;
    if fs != [] {
      assert forall i :: 0 < i < |fs| ==> fs[i] == fs[1..][i - 1];
      var q := if fs[0].external then p else VisitBlock(l, fs[0].name, Parameters(fs[0]), fs[0].body, p).value;
      ProgramVisited(d, l, fs[1..], q, entries);
      if !fs[0].external {
        SureParameters(fs[0]);
        VisitAdds(l, fs[1..], q);
        AddsPrefix(q.entries, Visit(l, fs[1..], q).value.entries, Labels(fs[1..]), entries);
        BlockVisited(d, l, fs[0].name, Parameters(fs[0]), fs[0].body, p, entries);
      }
    }
  }

  /** The constants evaluation finds are those of the program, in order, and all can be written back. */
  lemma EvaluateListsConstants(l: Limits, fs: seq<Function>)
    requires Evaluate(l, fs).Some?
    ensures Keys(Evaluate(l, fs).value) == Labels(fs) && Recorded(Evaluate(l, fs).value)
  {
    hide Visit, Labels;
    VisitAdds(l, fs, Progress([], 0, 0, 0));
    assert Keys([]) + Labels(fs) == Labels(fs);
  }

  // ----- the theorems -----

  /** Folding keeps behaviour: for every program whose constants evaluate and agree with the running program,
      every call, every amount of fuel and every state of the world, the folded program answers like the
      original. */
  lemma FoldingKeepsRuns<W>(h: Host<W>, l: Limits, fs: seq<Function>, entries: seq<Entry>, fuel: nat, f: string,
                            vs: seq<Value>, w: W)
    requires Evaluate(l, fs) == Some(entries) && Distinct(Labels(fs)) && ProgramProper(fs)
    requires AgreedProgram(h.fields, fs)
    ensures Recorded(entries) && Invoke(h, Fold(entries, fs), fuel, f, vs, w) == Invoke(h, fs, fuel, f, vs, w)
  {
    hide Visit, Labels, Invoke, AgreedProgram, ProgramProper, Distinct, Recorded, ProgramResolved, Fold;
    EvaluateListsConstants(l, fs);
    ProgramVisited(h.fields, l, fs, Progress([], 0, 0, 0), entries);
    InvokeKept(Setting(h, entries, fs), fuel, f, vs, w);
  }

  // ----- no use of a constant remains -----

  /** No name stands for a constant. */
  predicate Free(known: Static, e: Expr)
    decreases e, 1
  {
    match e
    case Name(x) => Known(known, x).None?
    case Operate(_, operands) => FreeAll(known, operands)
    case Both(left, right) => Free(known, left) && Free(known, right)
    case Either(left, right) => Free(known, left) && Free(known, right)
    case Choose(subject, arms) => Free(known, subject) && FreeArms(known, arms)
    case Call(callee, operands) => Free(known, callee) && FreeAll(known, operands)
    case _ => true
  }

  predicate FreeAll(known: Static, es: seq<Expr>)
    decreases es, 0
  {
    es == [] || (Free(known, es[0]) && FreeAll(known, es[1..]))
  }

  predicate FreeArm(known: Static, arm: Case)
    decreases arm, 0
  {
    var inner := known + Unknown(FirstNames(arm.pattern));
    (arm.guard.Some? ==> Free(inner, arm.guard.value)) && Free(inner, arm.value)
  }

  predicate FreeArms(known: Static, arms: seq<Case>)
    decreases arms, 0
  {
    arms == [] || (FreeArm(known, arms[0]) && FreeArms(known, arms[1..]))
  }

  predicate FreeOption(known: Static, e: Option<Expr>)
  {
    e.Some? ==> Free(known, e.value)
  }

  predicate FreeStmt(entries: seq<Entry>, f: string, known: Static, s: Stmt)
    decreases s, 1
  {
    match s
    case Const(_, _, value, _) => Free(known, value)
    case Bind(_, _, initial) => FreeOption(known, initial)
    case Assign(_, _, value) => Free(known, value)
    case Store(target, _, value) => Free(known, target) && Free(known, value)
    case Do(value) => Free(known, value)
    case Return(result) => FreeOption(known, result)
    case If(condition, yes, no) =>
      Free(known, condition) && FreeStmts(entries, f, known, yes) && FreeStmts(entries, f, known, no)
    case While(condition, body) => Free(known, condition) && FreeStmts(entries, f, known, body)
    case For(x, start, end, _, body) =>
      Free(known, start) && Free(known, end) && FreeStmts(entries, f, known[x := None], body)
    case Each(x, iterable, body) => Free(known, iterable) && FreeStmts(entries, f, known[x := None], body)
    case Loop(body) => FreeStmts(entries, f, known, body)
    case Unsafe(body) => FreeStmts(entries, f, known, body)
    case Break => true
    case Continue => true
  }

  predicate FreeStmts(entries: seq<Entry>, f: string, known: Static, ss: seq<Stmt>)
    decreases ss, 0
  {
    ss == [] || (FreeStmt(entries, f, known, ss[0]) && FreeStmts(entries, f, After(entries, f, known, ss[0]), ss[1..]))
  }

  predicate FreeProgram(entries: seq<Entry>, fs: seq<Function>)
  {
    forall i :: 0 <= i < |fs| && !fs[i].external ==> FreeStmts(entries, fs[i].name, Parameters(fs[i]), fs[i].body)
  }

  lemma {:induction false} ReifiedFree(known: Static, v: Value)
    requires Constant(v)
    ensures Free(known, Reified(v))
    decreases v, 1
  {
    match v
    case Scalar(_) =>
    case Record(_, fields) => FieldsFree(known, v, Listed(fields.Keys));
    case Sequence(items) =>
      var es := Reified(v).operands;
      forall i | 0 <= i < |es| ensures Free(known, es[i]) {
        ReifiedFree(known, items[i]);
      }
      EachFree(known, es);
  }

  lemma {:induction false} EachFree(known: Static, es: seq<Expr>)
    requires forall i :: 0 <= i < |es| ==> Free(known, es[i])
    ensures FreeAll(known, es)
    decreases es
  {
    hide Free;
    if es != [] {
      assert forall i :: 0 <= i < |es[1..]| ==> es[1..][i] == es[i + 1];
      EachFree(known, es[1..]);
    }
  }

  lemma {:induction false} FieldsFree(known: Static, v: Value, names: seq<string>)
    requires Constant(v) && v.Record? && (forall x :: x in names ==> x in v.fields)
    ensures FreeAll(known, ReifiedFields(v, names))
    decreases v, 0, names
  {
    if names != [] {
      assert names[0] in names;
      ReifiedFree(known, v.fields[names[0]]);
      FieldsFree(known, v, names[1..]);
      assert ReifiedFields(v, names)[1..] == ReifiedFields(v, names[1..]);
    }
  }

  lemma {:induction false} FoldExprFree(known: Static, e: Expr)
    requires Sure(known)
    ensures Free(known, FoldExpr(known, e))
    decreases e, 1
  {
    hide Sure, Reified;
    match e
    case Name(x) =>
      if Known(known, x).Some? {
        SureKnown(known, x);
        ReifiedFree(known, Known(known, x).value);
      }
    case Operate(_, operands) => FoldExprsFree(known, operands);
    case Both(left, right) => FoldExprFree(known, left); FoldExprFree(known, right);
    case Either(left, right) => FoldExprFree(known, left); FoldExprFree(known, right);
    case Choose(subject, arms) => FoldExprFree(known, subject); FoldArmsFree(known, arms);
    case Call(callee, operands) => FoldExprFree(known, callee); FoldExprsFree(known, operands);
    case _ =>
  }

  lemma {:induction false} FoldExprsFree(known: Static, es: seq<Expr>)
    requires Sure(known)
    ensures FreeAll(known, FoldExprs(known, es))
    decreases es, 0
  {
    hide Sure, FoldExpr, Free;
    if es != [] {
      FoldExprFree(known, es[0]);
      FoldExprsFree(known, es[1..]);
      assert FoldExprs(known, es)[1..] == FoldExprs(known, es[1..]);
    }
  }

  lemma {:induction false} FoldArmFree(known: Static, arm: Case)
    requires Sure(known)
    ensures FreeArm(known, FoldArm(known, arm))
    decreases arm, 0
  {
    hide Sure, FoldExpr, Free;
    var names := FirstNames(arm.pattern);
    SureHidden(known, names);
    if arm.guard.Some? {
      FoldExprFree(known + Unknown(names), arm.guard.value);
    }
    FoldExprFree(known + Unknown(names), arm.value);
  }

  lemma {:induction false} FoldArmsFree(known: Static, arms: seq<Case>)
    requires Sure(known)
    ensures FreeArms(known, FoldArms(known, arms))
    decreases arms, 0
  {
    hide Sure, FoldArm, FreeArm;
    if arms != [] {
      FoldArmFree(known, arms[0]);
      FoldArmsFree(known, arms[1..]);
      assert FoldArms(known, arms)[1..] == FoldArms(known, arms[1..]);
    }
  }

  lemma {:induction false} FoldStmtFree(entries: seq<Entry>, f: string, known: Static, s: Stmt)
    requires Sure(known) && Recorded(entries)
    ensures FreeStmt(entries, f, known, FoldStmt(entries, f, known, s))
    ensures After(entries, f, known, FoldStmt(entries, f, known, s)) == After(entries, f, known, s)
    decreases s, 1
  {
    hide Sure, Recorded, FoldExpr, Free, FoldAll, FreeStmts, Reified;
    match s
    case Const(x, _, value, span) =>
      FoldExprFree(known, value);
      FoundRecorded(entries, f, x, span);
      if Found(entries, f, x, span).Some? {
        ReifiedFree(known, Found(entries, f, x, span).value);
      }
    case Bind(_, _, initial) => OptionFree(known, initial);
    case Assign(_, _, value) => FoldExprFree(known, value);
    case Store(target, _, value) => FoldExprFree(known, target); FoldExprFree(known, value);
    case Do(value) => FoldExprFree(known, value);
    case Return(result) => OptionFree(known, result);
    case If(condition, yes, no) =>
      FoldExprFree(known, condition);
      FoldAllFree(entries, f, known, yes);
      FoldAllFree(entries, f, known, no);
    case While(condition, body) => FoldExprFree(known, condition); FoldAllFree(entries, f, known, body);
    case For(x, start, end, _, body) =>
      SureVariable(known, x);
      FoldExprFree(known, start);
      FoldExprFree(known, end);
      FoldAllFree(entries, f, known[x := None], body);
    case Each(x, iterable, body) =>
      SureVariable(known, x);
      FoldExprFree(known, iterable);
      FoldAllFree(entries, f, known[x := None], body);
    case Loop(body) => FoldAllFree(entries, f, known, body);
    case Unsafe(body) => FoldAllFree(entries, f, known, body);
    case Break =>
    case Continue =>
  }

  lemma OptionFree(known: Static, e: Option<Expr>)
    requires Sure(known)
    ensures FreeOption(known, FoldInitial(known, e))
  {
    hide Sure, FoldExpr, Free;
    if e.Some? {
      FoldExprFree(known, e.value);
    }
  }

  lemma {:induction false} FoldAllFree(entries: seq<Entry>, f: string, known: Static, ss: seq<Stmt>)
    requires Sure(known) && Recorded(entries)
    ensures FreeStmts(entries, f, known, FoldAll(entries, f, known, ss))
    decreases ss, 0
  {
    hide Sure, Recorded, FoldStmt, FreeStmt, After;
    if ss != [] {
      AfterSure(entries, f, known, ss[0]);
      FoldStmtFree(entries, f, known, ss[0]);
      FoldAllFree(entries, f, After(entries, f, known, ss[0]), ss[1..]);
      assert FoldAll(entries, f, known, ss)[1..] == FoldAll(entries, f, After(entries, f, known, ss[0]), ss[1..]);
    }
  }

  /** After folding no name stands for a constant. */
  lemma {:induction false} FoldedProgramFree(entries: seq<Entry>, fs: seq<Function>)
    requires Recorded(entries)
    ensures FreeProgram(entries, Fold(entries, fs))
    decreases fs
  {
    hide Recorded, FoldAll, FreeStmts;
    if fs != [] {
      FoldedProgramFree(entries, fs[1..]);
      SureParameters(fs[0]);
      FoldAllFree(entries, fs[0].name, Parameters(fs[0]), fs[0].body);
      var r := Fold(entries, fs);
      assert forall i :: 0 < i < |r| ==> r[i] == Fold(entries, fs[1..])[i - 1];
    }
  }
}
