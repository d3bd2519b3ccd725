/** What is known statically, scope by scope, against the scopes of a run. */
module FoldingScopes {
  import opened Options
  import opened ConstantArithmetic
  import opened TextOrder
  import opened OrPatterns
  import opened Folding
  import opened RuntimeIntegers
  import opened FoldingRuns
  import opened FoldingLaws
  import opened ConstantKinds

  // ----- scopes -----

  function Flattened(levels: seq<Static>): Static
  {
    if levels == [] then map[] else Flattened(levels[..|levels| - 1]) + levels[|levels| - 1]
  }

  /** The variable holds the constant as the running program does. */
  predicate HeldAs(d: Fields, v: Value, u: Value)
  {
    Constant(v) && Holdable(d, v) && u == Held(d, v)
  }

  /** A scope holds every name it is known to declare, constants with their values. A name it holds beyond
      those, declared by assignment, is no constant outside it. */
  predicate Fits(d: Fields, outer: Static, level: Static, scope: Bindings)
  {
    && (forall x :: x in level ==> x in scope && (level[x].Some? ==> HeldAs(d, level[x].value, scope[x])))
    && (forall x :: x in scope ==> x in level || Known(outer, x).None?)
  }

  predicate Agree(d: Fields, levels: seq<Static>, env: Env)
  {
    |levels| == |env| && (levels == [] || (
      var n := |levels| - 1;
      Agree(d, levels[..n], env[..n]) && Fits(d, Flattened(levels[..n]), levels[n], env[n])))
  }

  lemma FlattenedPush(levels: seq<Static>, level: Static)
    ensures Flattened(levels + [level]) == Flattened(levels) + level
  {
    assert (levels + [level])[..|levels|] == levels;
  }

  lemma AgreePush(d: Fields, levels: seq<Static>, env: Env, level: Static, scope: Bindings)
    requires Agree(d, levels, env) && Fits(d, Flattened(levels), level, scope)
    ensures Agree(d, levels + [level], env + [scope]) && Flattened(levels + [level]) == Flattened(levels) + level
  {
    assert (levels + [level])[..|levels|] == levels && (env + [scope])[..|env|] == env;
  }

  lemma AgreePop(d: Fields, levels: seq<Static>, env: Env)
    requires Agree(d, levels, env) && levels != []
    ensures Agree(d, levels[..|levels| - 1], Popped(env))
  {
  }

  /** Every use of a constant finds its value. */
  lemma {:induction false} AgreeFind(d: Fields, levels: seq<Static>, env: Env, x: string)
    requires Agree(d, levels, env) && Known(Flattened(levels), x).Some?
    ensures Find(env, x).Some? && HeldAs(d, Known(Flattened(levels), x).value, Find(env, x).value)
    decreases levels
  {
    var n := |levels| - 1;
    if x !in env[n] {
      AgreeFind(d, levels[..n], env[..n], x);
    }
  }

  /** Assigning to something else keeps the constants. */
  lemma {:induction false} AgreeUpdate(d: Fields, levels: seq<Static>, env: Env, x: string, v: Value)
    requires Agree(d, levels, env) && Known(Flattened(levels), x).None?
    ensures Agree(d, levels, Update(env, x, v))
    decreases levels
  {
    if levels != [] {
      var n := |levels| - 1;
      var r := Update(env, x, v);
      if x in env[n] {
        assert r[..n] == env[..n];
      } else {
        AgreeUpdate(d, levels[..n], env[..n], x, v);
        assert r[..n] == Update(env[..n], x, v);
      }
    }
  }

  function Topped(levels: seq<Static>, x: string, known: Option<Value>): (r: seq<Static>)
    requires levels != []
    ensures |r| == |levels| && r[..|levels| - 1] == levels[..|levels| - 1]
  {
    var n := |levels| - 1;
    levels[n := levels[n][x := known]]
  }

  lemma ToppedFlattened(levels: seq<Static>, x: string, known: Option<Value>)
    requires levels != []
    ensures Flattened(Topped(levels, x, known)) == Flattened(levels)[x := known]
  {
    var n := |levels| - 1;
    assert Topped(levels, x, known)[n] == levels[n][x := known];
  }

  lemma FitsDeclared(d: Fields, outer: Static, level: Static, scope: Bindings, x: string, known: Option<Value>,
                     v: Value)
    requires Fits(d, outer, level, scope) && (known.Some? ==> HeldAs(d, known.value, v))
    ensures Fits(d, outer, level[x := known], scope[x := v])
  {
  }

  lemma AgreeDeclare(d: Fields, levels: seq<Static>, env: Env, x: string, known: Option<Value>, v: Value)
    requires Agree(d, levels, env) && levels != [] && (known.Some? ==> HeldAs(d, known.value, v))
    ensures Agree(d, Topped(levels, x, known), Declare(env, x, v))
    ensures Flattened(Topped(levels, x, known)) == Flattened(levels)[x := known]
  {
    hide Flattened, Fits;
    var n := |levels| - 1;
    assert Declare(env, x, v)[..n] == env[..n] && Declare(env, x, v)[n] == env[n][x := v];
    FitsDeclared(d, Flattened(levels[..n]), levels[n], env[n], x, known, v);
    ToppedFlattened(levels, x, known);
  }

  lemma AgreeImplicit(d: Fields, levels: seq<Static>, env: Env, x: string, v: Value)
    requires Agree(d, levels, env) && Find(env, x).None?
    ensures Agree(d, levels, Declare(env, x, v))
  {
    if levels != [] {
      var n := |levels| - 1;
      assert Declare(env, x, v)[..n] == env[..n];
      if Known(Flattened(levels[..n]), x).Some? {
        AgreeFind(d, levels[..n], env[..n], x);
      }
    }
  }

  // ----- patterns -----

  predicate AllConsistent(ps: seq<Pattern>)
  {
    forall i :: 0 <= i < |ps| ==> Consistent(ps[i])
  }

  /** Where all alternatives bind the same names, the first ones tell which. */
  lemma {:induction false} FirstNamesEnough(p: Pattern)
    requires Consistent(p)
    ensures FirstNames(p) == Names(p)
    decreases p, 1
  {
    match p
    case Or(alternatives) =>
      if alternatives != [] {
        FirstNamesEnough(alternatives[0]);
        SameNames(alternatives, Names(alternatives[0]));
      }
    case Struct(_, _, patterns, _) => FirstNamesEnoughAll(patterns);
    case Variant(_, _, arguments) => FirstNamesEnoughAll(arguments);
    case _ =>
  }

  lemma {:induction false} FirstNamesEnoughAll(ps: seq<Pattern>)
    requires AllConsistent(ps)
    ensures FirstNamesAll(ps) == NamesAll(ps)
    decreases ps, 0
  {
    if ps != [] {
      FirstNamesEnoughAll(ps[..|ps| - 1]);
      FirstNamesEnough(ps[|ps| - 1]);
    }
  }

  lemma {:induction false} MatchBinds(p: Pattern, v: Value, b: Bindings)
    requires Consistent(p) && Match(p, v, b).Some?
    ensures Match(p, v, b).value.Keys == b.Keys + Names(p)
    decreases p, 1
  {
    match p
    case Or(alternatives) =>
      SameNames(alternatives, Names(alternatives[0]));
      MatchAnyBinds(alternatives, v, b, Names(p));
    case Struct(_, _, patterns, _) => MatchAllBinds(patterns, Parts(p, v).value, b);
    case Variant(_, _, arguments) => MatchAllBinds(arguments, Parts(p, v).value, b);
    case _ =>
  }

  lemma {:induction false} MatchAnyBinds(ps: seq<Pattern>, v: Value, b: Bindings, names: set<string>)
    requires AllConsistent(ps) && (forall i :: 0 <= i < |ps| ==> Names(ps[i]) == names) && MatchAny(ps, v, b).Some?
    ensures MatchAny(ps, v, b).value.Keys == b.Keys + names
    decreases ps, 0
  {
    if Match(ps[0], v, b).Some? {
      MatchBinds(ps[0], v, b);
    } else {
      MatchAnyBinds(ps[1..], v, b, names);
    }
  }

  lemma {:induction false} MatchAllBinds(ps: seq<Pattern>, vs: seq<Value>, b: Bindings)
    requires AllConsistent(ps) && |ps| == |vs| && MatchAll(ps, vs, b).Some?
    ensures MatchAll(ps, vs, b).value.Keys == b.Keys + NamesAll(ps)
    decreases ps, 0
  {
    if ps != [] {
      var n := |ps| - 1;
      MatchAllBinds(ps[..n], vs[..n], b);
      MatchBinds(ps[n], vs[n], MatchAll(ps[..n], vs[..n], b).value);
    }
  }

  /** In an arm, everything its pattern binds is hidden, and nothing else. */
  lemma ArmHides(d: Fields, p: Pattern, v: Value, outer: Static)
    requires Consistent(p) && Match(p, v, map[]).Some?
    ensures Fits(d, outer, Unknown(FirstNames(p)), Match(p, v, map[]).value)
  {
    hide Match, Consistent;
    MatchBinds(p, v, map[]);
    FirstNamesEnough(p);
  }

  // ----- constant expressions in a run -----

  lemma BoundFits(d: Fields, outer: Static, b: Bindings)
    requires HoldableBindings(d, b)
    ensures AllBound(b) && Fits(d, outer, Bound(b), HeldBindings(d, b))
  {
    hide Held, Holdable;
  }

  /** Where every operation is in kind, an expression with a compile-time value has that value, as written, in a
      run, and touches nothing. */
  lemma {:induction false} WorthRuns<W>(h: Host<W>, fs: seq<Function>, fuel: nat, levels: seq<Static>, e: Expr,
                                        env: Env, w: W)
    requires Agree(h.fields, levels, env) && Steady(h.fields, Flattened(levels), e) && Worth(Flattened(levels), e).Some?
    ensures var v := Worth(Flattened(levels), e).value;
            Constant(v) && Holdable(h.fields, v) && RunExpr(h, fs, fuel, e, env, w) == Got(Held(h.fields, v), w)
    decreases e, 1
  {
    hide Agree, Flattened, Match, Fixed, Applied, InKind, RunArms, RunAll, WorthAll, WorthArms, SteadyAll, SteadyArms,
         Even;
    var (d, known) := (h.fields, Flattened(levels));
    match e
    case Name(x) => AgreeFind(d, levels, env, x);
    case Operate(op, operands) =>
      var vs := WorthAll(known, operands).value;
      WorthAllRuns(h, fs, fuel, levels, operands, env, w);
      OperationHolds(h, op, vs, w);
    case Both(_, _) => WorthLogicRuns(h, fs, fuel, levels, e, true, env, w);
    case Either(_, _) => WorthLogicRuns(h, fs, fuel, levels, e, false, env, w);
    case Choose(subject, arms) =>
      WorthRuns(h, fs, fuel, levels, subject, env, w);
      WorthArmsRuns(h, fs, fuel, levels, Worth(known, subject).value, arms, env, w);
    case _ =>
  }

  lemma {:induction false} WorthLogicRuns<W>(h: Host<W>, fs: seq<Function>, fuel: nat, levels: seq<Static>, e: Expr,
                                             and: bool, env: Env, w: W)
    requires Agree(h.fields, levels, env) && (if and then e.Both? else e.Either?)
    requires Steady(h.fields, Flattened(levels), e) && Worth(Flattened(levels), e).Some?
    ensures var v := Worth(Flattened(levels), e).value;
            Constant(v) && Holdable(h.fields, v) && RunLogic(h, fs, fuel, e, and, env, w) == Got(Held(h.fields, v), w)
    decreases e, 0
  {
    var known := Flattened(levels);
    assert Steady(h.fields, known, e.left)
           && (Worth(known, e.left) == Some(Truthful(and)) ==> Steady(h.fields, known, e.right));
    assert Worth(known, e) == WorthLogic(Worth(known, e.left), Worth(known, e.right), and);
    hide Agree, Flattened, Worth, Steady, RunExpr;
    WorthRuns(h, fs, fuel, levels, e.left, env, w);
    if Worth(known, e.left) == Some(Truthful(and)) {
      WorthRuns(h, fs, fuel, levels, e.right, env, w);
    }
  }

  lemma {:induction false} WorthAllRuns<W>(h: Host<W>, fs: seq<Function>, fuel: nat, levels: seq<Static>, es: seq<Expr>,
                                           env: Env, w: W)
    requires Agree(h.fields, levels, env) && SteadyAll(h.fields, Flattened(levels), es)
             && WorthAll(Flattened(levels), es).Some?
    ensures var vs := WorthAll(Flattened(levels), es).value;
            && AllConstant(vs) && AllHoldable(h.fields, vs)
            && RunAll(h, fs, fuel, es, env, w) == Got(Sequence(HeldAll(h.fields, vs)), w)
    decreases es, 0
  {
    hide Agree, Flattened, Worth, Steady, RunExpr, Held, Holdable, Constant;
    if es != [] {
      WorthRuns(h, fs, fuel, levels, es[0], env, w);
      WorthAllRuns(h, fs, fuel, levels, es[1..], env, w);
      var (v, vs) := (Worth(Flattened(levels), es[0]).value, WorthAll(Flattened(levels), es[1..]).value);
      assert HeldAll(h.fields, [v] + vs) == [Held(h.fields, v)] + HeldAll(h.fields, vs);
    }
  }

  lemma {:induction false} WorthArmsRuns<W>(h: Host<W>, fs: seq<Function>, fuel: nat, levels: seq<Static>, v: Value,
                                            arms: seq<Case>, env: Env, w: W)
    requires Agree(h.fields, levels, env) && Matchable(h.fields, v)
    requires SteadyArms(h.fields, Flattened(levels), v, arms) && WorthArms(Flattened(levels), v, arms).Some?
    ensures var r := WorthArms(Flattened(levels), v, arms).value;
            && Constant(r) && Holdable(h.fields, r)
            && RunArms(h, fs, fuel, Held(h.fields, v), arms, env, w) == Got(Held(h.fields, r), w)
    decreases arms, 0
  {
    hide Agree, Flattened, Match, Fits, RunGuard, RunBody, WorthGuard, WorthBody, SteadyGuard, SteadyBody, Held,
         Holdable, Constant, Matchable, HoldableBindings, HeldBindings;
    var (d, known, arm) := (h.fields, Flattened(levels), arms[0]);
    NoBindings(d);
    MatchHeld(d, arm.pattern, v, map[]);
    match Match(arm.pattern, v, map[])
    case None => WorthArmsRuns(h, fs, fuel, levels, v, arms[1..], env, w);
    case Some(b) =>
      BoundFits(d, known, b);
      AgreePush(d, levels, env, Bound(b), HeldBindings(d, b));
      var (inner, scope) := (levels + [Bound(b)], HeldBindings(d, b));
      GuardRuns(h, fs, fuel, inner, arm, env + [scope], w);
      if WorthGuard(known + Bound(b), arm) == Some(Truthful(true)) {
        BodyRuns(h, fs, fuel, inner, arm, env + [scope], w);
      } else {
        WorthArmsRuns(h, fs, fuel, levels, v, arms[1..], env, w);
      }
  }

  lemma NoBindings(d: Fields)
    ensures HoldableBindings(d, map[]) && HeldBindings(d, map[]) == map[]
  {
  }

  lemma {:induction false} GuardRuns<W>(h: Host<W>, fs: seq<Function>, fuel: nat, levels: seq<Static>, arm: Case,
                                        env: Env, w: W)
    requires Agree(h.fields, levels, env) && SteadyGuard(h.fields, Flattened(levels), arm)
    requires WorthGuard(Flattened(levels), arm) == Some(Truthful(true))
             || WorthGuard(Flattened(levels), arm) == Some(Truthful(false))
    ensures RunGuard(h, fs, fuel, arm, env, w) == Got(WorthGuard(Flattened(levels), arm).value, w)
    decreases arm, 0
  {
    hide Agree, Flattened, Worth, Steady, RunExpr;
    if arm.guard.Some? {
      WorthRuns(h, fs, fuel, levels, arm.guard.value, env, w);
    }
  }

  lemma {:induction false} BodyRuns<W>(h: Host<W>, fs: seq<Function>, fuel: nat, levels: seq<Static>, arm: Case,
                                       env: Env, w: W)
    requires Agree(h.fields, levels, env) && SteadyBody(h.fields, Flattened(levels), arm)
    requires WorthBody(Flattened(levels), arm).Some?
    ensures var r := WorthBody(Flattened(levels), arm).value;
            Constant(r) && Holdable(h.fields, r) && RunBody(h, fs, fuel, arm, env, w) == Got(Held(h.fields, r), w)
    decreases arm, 0
  {
    hide Agree, Flattened, Worth, Steady, RunExpr;
    WorthRuns(h, fs, fuel, levels, arm.value, env, w);
  }

  // ----- written-back constants in a run -----

  lemma {:induction false} ReifiedSteady(d: Fields, known: Static, v: Value)
    requires Constant(v) && Holdable(d, v)
    ensures Steady(d, known, Reified(v)) && Worth(known, Reified(v)) == Some(v)
    decreases v, 1
  {
    match v
    case Scalar(literal) => ScalarSteady(d, known, literal);
    case Record(owner, fields) => RecordSteady(d, known, v);
    case Sequence(items) =>
      ItemsSteady(d, known, v, items);
      assert Reified(v).operands == ReifiedItems(v, items);
      hide Reified, Held;
  }

  lemma {:induction false} RecordSteady(d: Fields, known: Static, v: Value)
    requires v.Record? && Constant(v) && Holdable(d, v)
    ensures Steady(d, known, Reified(v)) && Worth(known, Reified(v)) == Some(v)
    decreases v, 0
  {
    hide Reified, Held, Holdable, Constant, InKind, Fixed, Steady, Worth, SteadyAll, WorthAll, Ascending;
    var names := Listed(v.fields.Keys);
    RecordShape(v, names);
    FieldsSteady(d, known, v, names);
    RecordBack(v, names);
    BuildInKind(d, v, names);
    OperateSteady(d, known, Build(v.owner, names), ReifiedFields(v, names), ValuesOf(v, names));
  }

  lemma OperateSteady(d: Fields, known: Static, op: Operation, es: seq<Expr>, vs: seq<Value>)
    requires SteadyAll(d, known, es) && WorthAll(known, es) == Some(vs) && InKind(d, op, vs)
    ensures Steady(d, known, Operate(op, es)) && Worth(known, Operate(op, es)) == Fixed(op, vs)
  {
    hide InKind, Fixed, SteadyAll, WorthAll;
  }

  lemma RecordShape(v: Value, names: seq<string>)
    requires v.Record? && Constant(v) && names == Listed(v.fields.Keys)
    ensures Reified(v) == Operate(Build(v.owner, names), ReifiedFields(v, names))
  {
  }

  lemma BuildInKind(d: Fields, v: Value, names: seq<string>)
    requires v.Record? && Constant(v) && Holdable(d, v) && (forall x :: x in names <==> x in v.fields)
    ensures InKind(d, Build(v.owner, names), ValuesOf(v, names))
  {
    RecordBack(v, names);
    var vs := ValuesOf(v, names);
    assert AllConstant(vs) by { ValuesConstant(v, names); }
    forall i | 0 <= i < |names| ensures FieldTakes(d, v.owner, names[i], Held(d, vs[i])) {
      assert names[i] in names;
    }
    hide Held, FieldTakes, Built, ValuesOf, Fixed, Holdable;
  }

  lemma ValuesConstant(v: Value, names: seq<string>)
    requires v.Record? && Constant(v) && (forall x :: x in names ==> x in v.fields)
    ensures AllConstant(ValuesOf(v, names))
  {
    forall i | 0 <= i < |names| ensures Constant(ValuesOf(v, names)[i]) {
      assert names[i] in names;
    }
  }

  lemma ScalarSteady(d: Fields, known: Static, literal: Literal)
    requires Constant(Scalar(literal)) && Holdable(d, Scalar(literal))
    ensures Steady(d, known, ReifiedScalar(literal)) && Worth(known, ReifiedScalar(literal)) == Some(Scalar(literal))
  {
    if literal.Integer? && literal.value < 0 {
      var (e, vs) := (Number(-literal.value), [Scalar(Integer(-literal.value))]);
      LoneWorth(d, known, e, vs[0]);
      assert Fixed(Negate, vs) == Some(Scalar(literal));
    }
  }

  lemma LoneWorth(d: Fields, known: Static, e: Expr, v: Value)
    requires Worth(known, e) == Some(v) && Steady(d, known, e)
    ensures WorthAll(known, [e]) == Some([v]) && SteadyAll(d, known, [e])
  {
    hide Worth, Steady;
    assert [e][0] == e && [e][1..] == [] && [v] + [] == [v];
    assert WorthAll(known, []) == Some([]) && SteadyAll(d, known, []);
  }

  lemma {:induction false} ItemsSteady(d: Fields, known: Static, v: Value, items: seq<Value>)
    requires v.Sequence? && Constant(v) && Holdable(d, v) && (forall x :: x in items ==> x in v.items)
    ensures SteadyAll(d, known, ReifiedItems(v, items)) && WorthAll(known, ReifiedItems(v, items)) == Some(items)
    decreases v, 0, items
  {
    hide Steady, Worth;
    if items != [] {
      assert items[0] in items;
      ReifiedSteady(d, known, items[0]);
      ItemsSteady(d, known, v, items[1..]);
      var es := ReifiedItems(v, items);
      assert es[1..] == ReifiedItems(v, items[1..]) && [items[0]] + items[1..] == items;
    }
  }

  lemma {:induction false} FieldsSteady(d: Fields, known: Static, v: Value, names: seq<string>)
    requires v.Record? && Constant(v) && Holdable(d, v) && (forall x :: x in names ==> x in v.fields)
    ensures SteadyAll(d, known, ReifiedFields(v, names))
            && WorthAll(known, ReifiedFields(v, names)) == Some(ValuesOf(v, names))
    decreases v, 0, names
  {
    hide Steady, Worth;
    if names != [] {
      assert names[0] in names;
      ReifiedSteady(d, known, v.fields[names[0]]);
      FieldsSteady(d, known, v, names[1..]);
      assert ReifiedFields(v, names)[1..] == ReifiedFields(v, names[1..]);
    }
  }

  /** A written-back constant runs to that constant wherever it stands. */
  lemma ReifiedRuns<W>(h: Host<W>, fs: seq<Function>, fuel: nat, v: Value, env: Env, w: W)
    requires Constant(v) && Holdable(h.fields, v)
    ensures RunExpr(h, fs, fuel, Reified(v), env, w) == Got(Held(h.fields, v), w)
  {
    hide RunExpr, Reified, Steady, Worth;
    BlankAgrees(h.fields, env);
    ReifiedSteady(h.fields, map[], v);
    WorthRuns(h, fs, fuel, Blank(|env|), Reified(v), env, w);
  }

  function Blank(n: nat): (r: seq<Static>)
    ensures |r| == n && forall i :: 0 <= i < n ==> r[i] == map[]
  {
    seq(n, i => map[])
  }

  lemma {:induction false} BlankAgrees(d: Fields, env: Env)
    ensures Agree(d, Blank(|env|), env) && Flattened(Blank(|env|)) == map[]
    decreases env
  {
    if env != [] {
      var n := |env| - 1;
      BlankAgrees(d, env[..n]);
      assert Blank(|env|)[..n] == Blank(n);
    }
  }
}
