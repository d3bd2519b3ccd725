/** Evaluated constants, written back as expressions, and as a run sees them. */
module FoldingLaws {
  import opened Options
  import opened ConstantArithmetic
  import opened TextOrder
  import opened OrPatterns
  import opened Folding
  import opened FoldingRuns

  // ----- evaluation yields constants -----

  predicate AllConstant(vs: seq<Value>)
  {
    forall i :: 0 <= i < |vs| ==> Constant(vs[i])
  }

  predicate AllBound(b: Bindings)
  {
    forall x :: x in b ==> Constant(b[x])
  }

  lemma {:induction false} BuiltConstant(names: seq<string>, vs: seq<Value>)
    requires |names| == |vs| && AllConstant(vs)
    ensures AllBound(Built(names, vs))
    decreases names
  {
    if names != [] {
      BuiltConstant(names[..|names| - 1], vs[..|names| - 1]);
    }
  }

  lemma FixedConstant(op: Operation, vs: seq<Value>)
    requires AllConstant(vs) && Fixed(op, vs).Some?
    ensures Constant(Fixed(op, vs).value)
  {
    if op.Build? {
      BuiltConstant(op.names, vs);
    }
  }

  lemma {:induction false} MatchConstant(p: Pattern, v: Value, b: Bindings)
    requires Constant(v) && AllBound(b) && Match(p, v, b).Some?
    ensures AllBound(Match(p, v, b).value)
    decreases p, 1
  {
    match p
    case Or(alternatives) => MatchAnyConstant(alternatives, v, b);
    case Struct(_, names, patterns, _) =>
      FieldsConstant(names, v.fields);
      MatchAllConstant(patterns, Parts(p, v).value, b);
    case _ =>
  }

  lemma {:induction false} MatchAnyConstant(ps: seq<Pattern>, v: Value, b: Bindings)
    requires Constant(v) && AllBound(b) && MatchAny(ps, v, b).Some?
    ensures AllBound(MatchAny(ps, v, b).value)
    decreases ps, 0
  {
    if Match(ps[0], v, b).Some? {
      MatchConstant(ps[0], v, b);
    } else {
      MatchAnyConstant(ps[1..], v, b);
    }
  }

  lemma {:induction false} MatchAllConstant(ps: seq<Pattern>, vs: seq<Value>, b: Bindings)
    requires |ps| == |vs| && AllConstant(vs) && AllBound(b) && MatchAll(ps, vs, b).Some?
    ensures AllBound(MatchAll(ps, vs, b).value)
    decreases ps, 0
  {
    if ps != [] {
      var n := |ps| - 1;
      MatchAllConstant(ps[..n], vs[..n], b);
      MatchConstant(ps[n], vs[n], MatchAll(ps[..n], vs[..n], b).value);
    }
  }

  lemma {:induction false} FieldsConstant(names: seq<string>, fields: map<string, Value>)
    requires AllBound(fields) && FieldValues(names, fields).Some?
    ensures AllConstant(FieldValues(names, fields).value)
    decreases names
  {
    if names != [] {
      FieldsConstant(names[..|names| - 1], fields);
    }
  }

  lemma SureBound(known: Static, b: Bindings)
    requires Sure(known) && AllBound(b)
    ensures Sure(known + Bound(b))
  {
  }

  lemma {:induction false} EvalConstant(l: Limits, known: Static, e: Expr, depth: nat, steps: nat)
    requires Sure(known) && Eval(l, known, e, depth, steps).Some?
    ensures Constant(Eval(l, known, e, depth, steps).value.0)
    decreases e, 1
  {
    assert Eval(l, known, e, depth, steps) == EvalInner(l, known, e, depth, steps + 1);
    match e
    case Operate(op, operands) =>
      EvalAllConstant(l, known, operands, depth + 1, steps + 1);
      FixedConstant(op, EvalAll(l, known, operands, depth + 1, steps + 1).value.0);
    case Choose(subject, arms) =>
      EvalConstant(l, known, subject, depth + 1, steps + 1);
      var (v, n) := Eval(l, known, subject, depth + 1, steps + 1).value;
      EvalArmsConstant(l, known, v, arms, depth + 1, n);
    case Name(x) => SureKnown(known, x);
    case Both(_, _) => LogicConstant(l, known, e, true, depth, steps + 1);
    case Either(_, _) => LogicConstant(l, known, e, false, depth, steps + 1);
    case _ =>
  }

  lemma LogicConstant(l: Limits, known: Static, e: Expr, and: bool, depth: nat, steps: nat)
    requires (e.Both? || e.Either?) && EvalLogic(l, known, e, and, depth, steps).Some?
    ensures Constant(EvalLogic(l, known, e, and, depth, steps).value.0)
  {
    hide Eval;
  }

  lemma SureKnown(known: Static, x: string)
    requires Sure(known) && Known(known, x).Some?
    ensures Constant(Known(known, x).value)
  {
    assert x in known && known[x].Some?;
  }

  lemma {:induction false} EvalAllConstant(l: Limits, known: Static, es: seq<Expr>, depth: nat, steps: nat)
    requires Sure(known) && EvalAll(l, known, es, depth, steps).Some?
    ensures AllConstant(EvalAll(l, known, es, depth, steps).value.0)
    decreases es, 0
  {
    if es != [] {
      EvalConstant(l, known, es[0], depth, steps);
      EvalAllConstant(l, known, es[1..], depth, Eval(l, known, es[0], depth, steps).value.1);
    }
  }

  lemma {:induction false} EvalArmsConstant(l: Limits, known: Static, v: Value, arms: seq<Case>, depth: nat, steps: nat)
    requires Sure(known) && Constant(v) && EvalArms(l, known, v, arms, depth, steps).Some?
    ensures Constant(EvalArms(l, known, v, arms, depth, steps).value.0)
    decreases arms, 0
  {
    match Match(arms[0].pattern, v, map[])
    case None => EvalArmsConstant(l, known, v, arms[1..], depth, steps);
    case Some(b) =>
      MatchConstant(arms[0].pattern, v, map[]);
      SureBound(known, b);
      match EvalArm(l, known + Bound(b), arms[0], depth, steps)
      case Some((None, n)) => EvalArmsConstant(l, known, v, arms[1..], depth, n);
      case Some((Some(_), _)) => EvalArmConstant(l, known + Bound(b), arms[0], depth, steps);
  }

  lemma {:induction false} EvalArmConstant(l: Limits, known: Static, arm: Case, depth: nat, steps: nat)
    requires Sure(known) && EvalArm(l, known, arm, depth, steps).Some?
             && EvalArm(l, known, arm, depth, steps).value.0.Some?
    ensures Constant(EvalArm(l, known, arm, depth, steps).value.0.value)
    decreases arm, 0
  {
    EvalConstant(l, known, arm.value, depth, EvalGuard(l, known, arm, depth, steps).value.1);
  }

  // ----- constants written back -----

  /** How deep below its root evaluation of a written-back constant goes. */
  function Height(e: Expr): nat
    decreases e, 1
  {
    if e.Operate? && e.operands != [] then 1 + Tallest(e.operands) else 0
  }

  function Tallest(es: seq<Expr>): nat
    decreases es, 0
  {
    if es == [] then 0
    else
      var (a, b) := (Height(es[0]), Tallest(es[1..]));
      if a > b then a else b
  }

  /** The steps evaluation of a written-back constant takes. */
  function Count(e: Expr): nat
    decreases e, 1
  {
    if e.Operate? then 1 + Counts(e.operands) else 1
  }

  function Counts(es: seq<Expr>): nat
    decreases es, 0
  {
    if es == [] then 0 else Count(es[0]) + Counts(es[1..])
  }

  predicate Within(l: Limits, height: nat, count: nat, depth: nat, steps: nat)
  {
    depth + height <= l.depth && steps + count <= l.steps
  }

  function One(l: Limits, e: Expr, v: Value, depth: nat, steps: nat): Option<(Value, nat)>
  {
    if Within(l, Height(e), Count(e), depth, steps) then Some((v, steps + Count(e))) else None
  }

  function Several(l: Limits, es: seq<Expr>, vs: seq<Value>, depth: nat, steps: nat): Option<(seq<Value>, nat)>
  {
    if es == [] || Within(l, Tallest(es), Counts(es), depth, steps) then Some((vs, steps + Counts(es))) else None
  }

  lemma SeveralStep(l: Limits, known: Static, e: Expr, es: seq<Expr>, v: Value, vs: seq<Value>, depth: nat, steps: nat)
    requires Eval(l, known, e, depth, steps) == One(l, e, v, depth, steps)
    requires EvalAll(l, known, es, depth, steps + Count(e)) == Several(l, es, vs, depth, steps + Count(e))
    ensures EvalAll(l, known, [e] + es, depth, steps) == Several(l, [e] + es, [v] + vs, depth, steps)
  {
    hide Eval, Height, Count;
    var all := [e] + es;
    assert all[0] == e && all[1..] == es;
    assert es == [] ==> Tallest(es) == 0 && Counts(es) == 0;
  }

  lemma OperateEvaluates(l: Limits, known: Static, op: Operation, es: seq<Expr>, vs: seq<Value>, v: Value, depth: nat,
                         steps: nat)
    requires EvalAll(l, known, es, depth + 1, steps + 1) == Several(l, es, vs, depth + 1, steps + 1)
    requires Fixed(op, vs) == Some(v)
    ensures Eval(l, known, Operate(op, es), depth, steps) == One(l, Operate(op, es), v, depth, steps)
  {
    hide EvalAll, Fixed, Tallest, Counts;
    assert es == [] ==> Counts(es) == 0 by { EmptyCounts(); }
  }

  lemma EmptyCounts()
    ensures Counts([]) == 0 && Tallest([]) == 0
  {
  }

  function ValuesOf(v: Value, names: seq<string>): (r: seq<Value>)
    requires v.Record? && (forall x :: x in names ==> x in v.fields)
    ensures |r| == |names| && (forall i :: 0 <= i < |names| ==> r[i] == v.fields[names[i]])
  {
    if names == [] then [] else assert names[0] in names; [v.fields[names[0]]] + ValuesOf(v, names[1..])
  }

  lemma {:induction false} BuiltBack(v: Value, names: seq<string>, vs: seq<Value>)
    requires v.Record? && |names| == |vs| && (forall i ::
                                                0 <= i < |names| ==>
                                                  names[i] in v.fields && vs[i] == v.fields[names[i]])
    ensures Built(names, vs).Keys == (set x | x in names)
    ensures forall x :: x in names ==> x in v.fields && Built(names, vs)[x] == v.fields[x]
    decreases names
  {
    if names != [] {
      var n := |names| - 1;
      BuiltBack(v, names[..n], vs[..n]);
      assert names == names[..n] + [names[n]];
    }
  }

  lemma RecordBack(v: Value, names: seq<string>)
    requires v.Record? && (forall x :: x in names <==> x in v.fields)
    ensures Fixed(Build(v.owner, names), ValuesOf(v, names)) == Some(v)
  {
    BuiltBack(v, names, ValuesOf(v, names));
    assert Built(names, ValuesOf(v, names)) == v.fields;
  }

  /** A written-back constant evaluates to itself exactly when its depth and its steps are within the limits. */
  lemma {:induction false} ReifiedEvaluates(l: Limits, known: Static, v: Value, depth: nat, steps: nat)
    requires Constant(v)
    ensures Eval(l, known, Reified(v), depth, steps) == One(l, Reified(v), v, depth, steps)
    decreases v, 1
  {
    match v
    case Scalar(literal) => ScalarEvaluates(l, known, literal, depth, steps);
    case Record(owner, fields) =>
      var names := Listed(fields.Keys);
      FieldsEvaluate(l, known, v, names, depth + 1, steps + 1);
      RecordBack(v, names);
      OperateEvaluates(l, known, Build(owner, names), ReifiedFields(v, names), ValuesOf(v, names), v, depth, steps);
    case Sequence(items) =>
      ItemsEvaluate(l, known, v, items, depth + 1, steps + 1);
      var es := Reified(v).operands;
      assert es == ReifiedItems(v, items);
      OperateEvaluates(l, known, Collect, es, items, v, depth, steps);
  }

  lemma ScalarEvaluates(l: Limits, known: Static, literal: Literal, depth: nat, steps: nat)
    requires Constant(Scalar(literal))
    ensures Eval(l, known, ReifiedScalar(literal), depth, steps)
            == One(l, ReifiedScalar(literal), Scalar(literal), depth, steps)
  {
    if literal.Integer? && literal.value < 0 {
      var e := Number(-literal.value);
      assert EvalAll(l, known, [], depth + 1, steps + 1 + Count(e))
             == Several(l, [], [], depth + 1, steps + 1 + Count(e));
      SeveralStep(l, known, e, [], Scalar(Integer(-literal.value)), [], depth + 1, steps + 1);
      assert [e] + [] == [e] && [Scalar(Integer(-literal.value))] + [] == [Scalar(Integer(-literal.value))];
      OperateEvaluates(l, known, Negate, [e], [Scalar(Integer(-literal.value))], Scalar(literal), depth, steps);
    }
  }

  ghost function ReifiedItems(v: Value, items: seq<Value>): (r: seq<Expr>)
    requires v.Sequence? && Constant(v) && (forall x :: x in items ==> x in v.items)
    ensures |r| == |items| && (forall i :: 0 <= i < |items| ==> Constant(items[i]) && r[i] == Reified(items[i]))
    decreases items
  {
    if items == [] then [] else assert items[0] in items; [Reified(items[0])] + ReifiedItems(v, items[1..])
  }

  lemma {:induction false} ItemsEvaluate(l: Limits, known: Static, v: Value, items: seq<Value>, depth: nat, steps: nat)
    requires v.Sequence? && Constant(v) && (forall x :: x in items ==> x in v.items)
    ensures EvalAll(l, known, ReifiedItems(v, items), depth, steps)
            == Several(l, ReifiedItems(v, items), items, depth, steps)
    decreases v, 0, items
  {
    if items != [] {
      assert items[0] in items;
      ReifiedEvaluates(l, known, items[0], depth, steps);
      var (e, es) := (Reified(items[0]), ReifiedItems(v, items[1..]));
      ItemsEvaluate(l, known, v, items[1..], depth, steps + Count(e));
      SeveralStep(l, known, e, es, items[0], items[1..], depth, steps);
      assert [items[0]] + items[1..] == items;
    }
  }

  lemma {:induction false} FieldsEvaluate(l: Limits, known: Static, v: Value, names: seq<string>, depth: nat,
                                          steps: nat)
    requires v.Record? && Constant(v) && (forall x :: x in names ==> x in v.fields)
    ensures EvalAll(l, known, ReifiedFields(v, names), depth, steps)
            == Several(l, ReifiedFields(v, names), ValuesOf(v, names), depth, steps)
    decreases v, 0, names
  {
    if names != [] {
      assert names[0] in names;
      var u := v.fields[names[0]];
      ReifiedEvaluates(l, known, u, depth, steps);
      FieldsEvaluate(l, known, v, names[1..], depth, steps + Count(Reified(u)));
      SeveralStep(l, known, Reified(u), ReifiedFields(v, names[1..]), u, ValuesOf(v, names[1..]), depth, steps);
    }
  }

  /** A constant built on another can be deeper than evaluation goes: it has a value, and the expression that
      value is written back as has none. */
  lemma NestingOutgrowsDepth(l: Limits, x: string, v: Value)
    requires Constant(v) && Height(Reified(v)) == l.depth >= 1 && l.steps >= 2
    ensures var known := map[x := Some(v)];
            && Eval(l, known, Operate(Collect, [Name(x)]), 0, 0) == Some((Sequence([v]), 2))
            && Eval(l, known, Reified(Sequence([v])), 0, 0).None?
  {
    var known := map[x := Some(v)];
    NameInArray(l, known, x, v);
    var u := Sequence([v]);
    ReifiedEvaluates(l, known, u, 0, 0);
    Deeper(v);
    hide Eval, Height, Reified, Constant;
  }

  lemma NameInArray(l: Limits, known: Static, x: string, v: Value)
    requires Known(known, x) == Some(v) && l.depth >= 1 && l.steps >= 2
    ensures Eval(l, known, Operate(Collect, [Name(x)]), 0, 0) == Some((Sequence([v]), 2))
  {
    assert [Name(x)][1..] == [] && [v] + [] == [v];
    assert Eval(l, known, Name(x), 1, 1) == Some((v, 2));
    assert EvalAll(l, known, [], 1, 2) == Some(([], 2));
    assert EvalAll(l, known, [Name(x)], 1, 1) == Some(([v], 2));
  }

  lemma Deeper(v: Value)
    requires Constant(v)
    ensures Height(Reified(Sequence([v]))) >= 1 + Height(Reified(v))
  {
    var e := Reified(Sequence([v]));
    assert e.operands[0] == Reified(v);
  }
}
