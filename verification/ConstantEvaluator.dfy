/** The evaluator and the folder of constants, with the stack of scopes they keep. */
module ConstantEvaluator {
  import opened Options
  import opened ConstantArithmetic
  import opened TextOrder
  import opened OrPatterns
  import opened Folding
  import opened FoldingLaws
  import opened FoldingScopes
  import opened FoldingKeeps
  import Lexing

  /** The innermost scope with the name decides. */
  method Lookup(scopes: seq<Static>, x: string) returns (r: Option<Value>)
    ensures r == Known(Flattened(scopes), x)
  {
    var i := |scopes|;
    assert scopes[..i] == scopes;
    while i > 0
      invariant 0 <= i <= |scopes| && Known(Flattened(scopes[..i]), x) == Known(Flattened(scopes), x)
    {
      assert scopes[..i][..i - 1] == scopes[..i - 1];
      i := i - 1;
      if x in scopes[i] {
        return scopes[i][x];
      }
    }
    return None;
  }

  function Saturated(n: nat): nat
  {
    if n > USIZE_MAX then USIZE_MAX else n
  }

  /** The nodes and text bytes of a value, in saturating arithmetic. */
  method Measure(v: Value) returns (nodes: nat, bytes: nat)
    ensures nodes == Saturated(Nodes(v)) && bytes == Saturated(TextBytes(v))
    decreases v, 1
  {
    hide NodesOf, NodesIn, TextBytesOf, TextBytesIn;
    match v
    case Scalar(l) =>
      return 1, Saturated(if l.Text? then Lexing.Utf8Length(l.text) else 0);
    case Sequence(items) => nodes, bytes := MeasureItems(v);
    case Record(_, fields) => nodes, bytes := MeasureFields(v);
    case _ => return 1, 0;
  }

  method MeasureItems(v: Value) returns (nodes: nat, bytes: nat)
    requires v.Sequence?
    ensures nodes == Saturated(1 + NodesOf(v, v.items)) && bytes == Saturated(TextBytesOf(v, v.items))
    decreases v, 0
  {
    hide Nodes, TextBytes;
    var items := v.items;
    nodes, bytes := 1, 0;
    var i := |items|;
    while i > 0
      invariant 0 <= i <= |items| && (forall x :: x in items[i..] ==> x in v.items)
      invariant nodes == Saturated(1 + NodesOf(v, items[i..])) && bytes == Saturated(TextBytesOf(v, items[i..]))
    {
      i := i - 1;
      assert items[i..][1..] == items[i + 1..];
      var n, b := Measure(items[i]);
      nodes, bytes := Saturated(nodes + n), Saturated(bytes + b);
    }
    assert items[0..] == items;
  }

  ghost predicate Owns(v: Value, names: seq<string>)
  {
    v.Record? && (forall x :: x in names ==> x in v.fields)
  }

  ghost function NodesFrom(v: Value, names: seq<string>, i: nat): nat
    requires Owns(v, names) && i <= |names|
  {
    NodesIn(v, names[i..])
  }

  ghost function TextBytesFrom(v: Value, names: seq<string>, i: nat): nat
    requires Owns(v, names) && i <= |names|
  {
    TextBytesIn(v, names[i..])
  }

  method MeasureFields(v: Value) returns (nodes: nat, bytes: nat)
    requires v.Record?
    ensures nodes == Saturated(1 + NodesIn(v, Listed(v.fields.Keys)))
            && bytes == Saturated(TextBytesIn(v, Listed(v.fields.Keys)))
    decreases v, 0
  {
    hide Nodes, TextBytes, Ascending, NodesFrom, TextBytesFrom, Owns;
    var names := List(v.fields.Keys);
    AllFields(v, names);
    nodes, bytes := 1, 0;
    var i := |names|;
    while i > 0
      invariant 0 <= i <= |names|
      invariant nodes == Saturated(1 + NodesFrom(v, names, i)) && bytes == Saturated(TextBytesFrom(v, names, i))
    {
      i := i - 1;
      FieldsCount(v, names, i);
      var n, b := Measure(v.fields[names[i]]);
      nodes, bytes := Saturated(nodes + n), Saturated(bytes + b);
    }
  }

  lemma AllFields(v: Value, names: seq<string>)
    requires v.Record? && (forall x :: x in names <==> x in v.fields)
    ensures Owns(v, names) && NodesFrom(v, names, |names|) == 0 && TextBytesFrom(v, names, |names|) == 0
    ensures NodesFrom(v, names, 0) == NodesIn(v, names) && TextBytesFrom(v, names, 0) == TextBytesIn(v, names)
  {
    assert names[|names|..] == [] && names[0..] == names;
  }

  lemma FieldsCount(v: Value, names: seq<string>, i: nat)
    requires Owns(v, names) && i < |names|
    ensures names[i] in v.fields
    ensures NodesFrom(v, names, i) == Nodes(v.fields[names[i]]) + NodesFrom(v, names, i + 1)
    ensures TextBytesFrom(v, names, i) == TextBytes(v.fields[names[i]]) + TextBytesFrom(v, names, i + 1)
  {
    hide Nodes, TextBytes;
    assert names[i..][1..] == names[i + 1..];
  }

  /** Writes a constant back as an expression. */
  method Reify(v: Value) returns (e: Expr)
    requires Constant(v)
    ensures e == Reified(v)
    decreases v, 1
  {
    match v
    case Scalar(l) => return ReifiedScalar(l);
    case Sequence(items) =>
      var es := ReifyItems(v);
      assert es == Reified(v).operands;
      return Operate(Collect, es);
    case Record(owner, fields) =>
      var names := List(fields.Keys);
      var es := ReifyFields(v, names);
      return Operate(Build(owner, names), es);
  }

  method ReifyItems(v: Value) returns (es: seq<Expr>)
    requires Constant(v) && v.Sequence?
    ensures |es| == |v.items| && forall i :: 0 <= i < |es| ==> es[i] == Reified(v.items[i])
    decreases v, 0
  {
    es := [];
    for i := 0 to |v.items|
      invariant |es| == i && forall j :: 0 <= j < i ==> es[j] == Reified(v.items[j])
    {
      var x := Reify(v.items[i]);
      es := es + [x];
    }
  }

  method ReifyFields(v: Value, names: seq<string>) returns (es: seq<Expr>)
    requires Constant(v) && Owns(v, names)
    ensures es == ReifiedFields(v, names)
    decreases v, 0
  {
    hide Reified;
    es := [];
    var i := |names|;
    while i > 0
      invariant 0 <= i <= |names| && es == ReifiedFields(v, names[i..])
    {
      i := i - 1;
      assert names[i..][1..] == names[i + 1..] && names[i] in names;
      var x := Reify(v.fields[names[i]]);
      es := [x] + es;
    }
    assert names[0..] == names;
  }

  class Evaluator {
    var scopes: seq<Static>
    var entries: seq<Entry>
    var home: string
    var steps: nat
    var nodes: nat
    var bytes: nat
    const limits: Limits

    constructor (limits: Limits)
      ensures this.limits == limits && Totals(Progress([], 0, 0, 0))
    {
      this.limits := limits;
      scopes, entries, home, steps, nodes, bytes := [], [], "", 0, 0, 0;
    }

    /** The counters stand where the given progress says. */
    ghost predicate Totals(p: Progress)
      reads this
    {
      entries == p.entries && steps == p.steps && nodes == Saturated(p.nodes) && bytes == Saturated(p.bytes)
    }

    /** What the scopes know. */
    ghost function Here(): Static
      reads this
    {
      Flattened(scopes)
    }

    method Evaluate(e: Expr, depth: nat) returns (r: Option<Value>)
      modifies this`scopes, this`steps
      ensures r.None? <==> Eval(limits, old(Here()), e, depth, old(steps)).None?
      ensures r.Some? ==>
                Eval(limits, old(Here()), e, depth, old(steps)) == Some((r.value, steps)) && scopes == old(scopes)
      decreases e, 2
    {
      steps := steps + 1;
      if steps > limits.steps || depth > limits.depth {
        return None;
      }
      match e
      case Number(n) => return Some(Scalar(Integer(n)));
      case Quote(t) => return Some(Scalar(Text(t)));
      case Letter(c) => return Some(Scalar(Character(c)));
      case Flag(b) => return Some(Truthful(b));
      case Name(x) => r := Lookup(scopes, x);
      case Operate(op, operands) =>
        var vs := EvaluateAll(operands, depth + 1);
        return if vs.None? then None else Fixed(op, vs.value);
      case Both(_, _) => r := EvaluateLogic(e, true, depth);
      case Either(_, _) => r := EvaluateLogic(e, false, depth);
      case Choose(subject, arms) =>
        var v := Evaluate(subject, depth + 1);
        if v.None? {
          return None;
        }
        r := EvaluateArms(v.value, arms, depth + 1);
      case Call(_, _) => return None;
    }

    method EvaluateLogic(e: Expr, and: bool, depth: nat) returns (r: Option<Value>)
      requires e.Both? || e.Either?
      modifies this`scopes, this`steps
      ensures r.None? <==> EvalLogic(limits, old(Here()), e, and, depth, old(steps)).None?
      ensures r.Some? ==>
                EvalLogic(limits, old(Here()), e, and, depth, old(steps)) == Some((r.value, steps))
                && scopes == old(scopes)
      decreases e, 1
    {
      var a := Evaluate(e.left, depth + 1);
      if a.None? || a.value == Truthful(!and) {
        return a;
      }
      var b := Evaluate(e.right, depth + 1);
      if b.None? || a.value != Truthful(and) || !b.value.Scalar? || !b.value.literal.Truth? {
        return None;
      }
      return b;
    }

    method EvaluateAll(es: seq<Expr>, depth: nat) returns (r: Option<seq<Value>>)
      modifies this`scopes, this`steps
      ensures r.None? <==> EvalAll(limits, old(Here()), es, depth, old(steps)).None?
      ensures r.Some? ==>
                EvalAll(limits, old(Here()), es, depth, old(steps)) == Some((r.value, steps)) && scopes == old(scopes)
      decreases es, 0
    {
      hide Eval, Flattened;
      if es == [] {
        return Some([]);
      }
      var v := Evaluate(es[0], depth);
      if v.None? {
        return None;
      }
      var vs := EvaluateAll(es[1..], depth);
      return if vs.None? then None else Some([v.value] + vs.value);
    }

    method EvaluateArms(v: Value, arms: seq<Case>, depth: nat) returns (r: Option<Value>)
      modifies this`scopes, this`steps
      ensures r.None? <==> EvalArms(limits, old(Here()), v, arms, depth, old(steps)).None?
      ensures r.Some? ==>
                EvalArms(limits, old(Here()), v, arms, depth, old(steps)) == Some((r.value, steps))
                && scopes == old(scopes)
      decreases arms, 0
    {
      hide EvalArm, Match, Flattened;
      if arms == [] {
        return None;
      }
      var b := Match(arms[0].pattern, v, map[]);
      if b.None? {
        r := EvaluateArms(v, arms[1..], depth);
        return;
      }
      FlattenedPush(scopes, Bound(b.value));
      ghost var before := scopes;
      scopes := scopes + [Bound(b.value)];
      var ok, value := EvaluateArm(arms[0], depth);
      if !ok {
        return None;
      }
      scopes := scopes[..|scopes| - 1];
      assert scopes == before;
      if value.Some? {
        return value;
      }
      r := EvaluateArms(v, arms[1..], depth);
    }

    method EvaluateArm(arm: Case, depth: nat) returns (ok: bool, value: Option<Value>)
      modifies this`scopes, this`steps
      ensures ok <==> EvalArm(limits, old(Here()), arm, depth, old(steps)).Some?
      ensures ok ==>
                EvalArm(limits, old(Here()), arm, depth, old(steps)) == Some((value, steps)) && scopes == old(scopes)
      decreases arm, 1
    {
      hide Eval, Flattened;
      if arm.guard.Some? {
        var t := Evaluate(arm.guard.value, depth);
        if t.None? {
          return false, None;
        }
        if t.value != Truthful(true) {
          return true, None;
        }
      }
      value := Evaluate(arm.value, depth);
      ok := value.Some?;
    }

    /** Counts a constant against the limits and records it. */
    method Charge(x: string, span: nat, v: Value, ghost p: Progress) returns (ok: bool)
      requires Totals(p) && limits.nodes <= USIZE_MAX && limits.bytes <= USIZE_MAX
      modifies this`nodes, this`bytes, this`entries
      ensures ok <==> Charged(limits, p, Entry(home, x, span, v)).Some?
      ensures ok ==> Totals(Charged(limits, p, Entry(home, x, span, v)).value)
    {
      hide Nodes, TextBytes;
      var n, b := Measure(v);
      nodes, bytes := Saturated(nodes + n), Saturated(bytes + b);
      if nodes > limits.nodes || bytes > limits.bytes {
        return false;
      }
      entries := entries + [Entry(home, x, span, v)];
      return true;
    }

    /** Counters fit their type. */
    ghost predicate Sized()
    {
      limits.nodes <= USIZE_MAX && limits.bytes <= USIZE_MAX
    }

    method VisitStatement(s: Stmt, ghost p: Progress) returns (ok: bool)
      requires Totals(p) && Sized() && scopes != []
      modifies this`scopes, this`steps, this`nodes, this`bytes, this`entries
      ensures ok <==> VisitStmt(limits, home, old(Here()), s, p).Some?
      ensures ok ==> |scopes| == |old(scopes)| && scopes[..|scopes| - 1] == old(scopes)[..|scopes| - 1]
      ensures ok ==> VisitStmt(limits, home, old(Here()), s, p).value.0 == Here()
      ensures ok ==> Totals(VisitStmt(limits, home, old(Here()), s, p).value.1)
      decreases s, 1
    {
      match s
      case Const(_, _, _, _) => ok := VisitConst(s, p);
      case If(_, yes, no) =>
        ok := VisitBranch(yes, p);
        if ok {
          ok := VisitBranch(no, VisitBlock(limits, home, Here(), yes, p).value);
        }
      case For(x, _, _, _, body) => ok := VisitShadowed(x, body, p);
      case Each(x, _, body) => ok := VisitShadowed(x, body, p);
      case While(_, body) => ok := VisitBranch(body, p);
      case Loop(body) => ok := VisitBranch(body, p);
      case Unsafe(body) => ok := VisitBranch(body, p);
      case Bind(x, _, _) =>
        Insert(x, None);
        return true;
      case _ => return true;
    }

    method Insert(x: string, known: Option<Value>)
      requires scopes != []
      modifies this`scopes
      ensures scopes == Topped(old(scopes), x, known) && Here() == old(Here())[x := known]
    {
      var n := |scopes| - 1;
      ghost var before := scopes;
      scopes := scopes[n := scopes[n][x := known]];
      assert scopes[..n] == before[..n];
    }

    method VisitConst(s: Stmt, ghost p: Progress) returns (ok: bool)
      requires Totals(p) && Sized() && scopes != [] && s.Const?
      modifies this`scopes, this`steps, this`nodes, this`bytes, this`entries
      ensures ok <==> VisitStmt(limits, home, old(Here()), s, p).Some?
      ensures ok ==> |scopes| == |old(scopes)| && scopes[..|scopes| - 1] == old(scopes)[..|scopes| - 1]
      ensures ok ==> VisitStmt(limits, home, old(Here()), s, p).value.0 == Here()
      ensures ok ==> Totals(VisitStmt(limits, home, old(Here()), s, p).value.1)
    {
      hide Eval, Flattened, Charged;
      var v := Evaluate(s.value, 0);
      if v.None? {
        return false;
      }
      ok := Charge(s.name, s.span, v.value, p.(steps := steps));
      if ok {
        Insert(s.name, v);
      }
    }

    /** A block in its own scope. */
    method VisitBranch(ss: seq<Stmt>, ghost p: Progress) returns (ok: bool)
      requires Totals(p) && Sized()
      modifies this`scopes, this`steps, this`nodes, this`bytes, this`entries
      ensures ok <==> VisitBlock(limits, home, old(Here()), ss, p).Some?
      ensures ok ==> scopes == old(scopes) && Totals(VisitBlock(limits, home, old(Here()), ss, p).value)
      decreases ss, 1
    {
      hide VisitAll, Flattened;
      ghost var before := scopes;
      FlattenedPush(scopes, map[]);
      assert Flattened(scopes) + map[] == Flattened(scopes);
      scopes := scopes + [map[]];
      ok := VisitStatements(ss, p);
      if ok {
        scopes := scopes[..|scopes| - 1];
        assert scopes == before;
      }
    }

    /** A block whose surroundings hide a name. */
    method VisitShadowed(x: string, ss: seq<Stmt>, ghost p: Progress) returns (ok: bool)
      requires Totals(p) && Sized()
      modifies this`scopes, this`steps, this`nodes, this`bytes, this`entries
      ensures ok <==> VisitBlock(limits, home, old(Here())[x := None], ss, p).Some?
      ensures ok ==> scopes == old(scopes) && Totals(VisitBlock(limits, home, old(Here())[x := None], ss, p).value)
      decreases ss, 2
    {
      hide VisitBlock, Flattened;
      ghost var before := scopes;
      FlattenedPush(scopes, map[x := None]);
      assert Flattened(scopes) + map[x := None] == Flattened(scopes)[x := None];
      scopes := scopes + [map[x := None]];
      ok := VisitBranch(ss, p);
      if ok {
        scopes := scopes[..|scopes| - 1];
        assert scopes == before;
      }
    }

    method VisitStatements(ss: seq<Stmt>, ghost p: Progress) returns (ok: bool)
      requires Totals(p) && Sized() && scopes != []
      modifies this`scopes, this`steps, this`nodes, this`bytes, this`entries
      ensures ok <==> VisitAll(limits, home, old(Here()), ss, p).Some?
      ensures ok ==> |scopes| == |old(scopes)| && scopes[..|scopes| - 1] == old(scopes)[..|scopes| - 1]
      ensures ok ==> Totals(VisitAll(limits, home, old(Here()), ss, p).value.1)
      decreases ss, 0
    {
      hide VisitStmt, Flattened;
      if ss == [] {
        return true;
      }
      ghost var before := Here();
      ok := VisitStatement(ss[0], p);
      if ok {
        ok := VisitStatements(ss[1..], VisitStmt(limits, home, before, ss[0], p).value.1);
      }
    }

    /** The constants of a whole program. */
    method VisitProgram(fs: seq<Function>) returns (r: Option<seq<Entry>>)
      requires Totals(Progress([], 0, 0, 0)) && Sized()
      modifies this
      ensures r == Folding.Evaluate(limits, fs)
    {
      hide VisitBlock, Flattened, Parameters;
      ghost var p := Progress([], 0, 0, 0);
      var i := 0;
      assert fs[0..] == fs;
      while i < |fs|
        invariant 0 <= i <= |fs| && Totals(p) && Visit(limits, fs, Progress([], 0, 0, 0)) == Visit(limits, fs[i..], p)
      {
        assert fs[i..][1..] == fs[i + 1..];
        if !fs[i].external {
          home := fs[i].name;
          scopes := [Parameters(fs[i])];
          assert Here() == Parameters(fs[i]) by { OneLevel(Parameters(fs[i])); }
          var ok := VisitBranch(fs[i].body, p);
          if !ok {
            return None;
          }
          p := VisitBlock(limits, fs[i].name, Parameters(fs[i]), fs[i].body, p).value;
        }
        i := i + 1;
      }
      return Some(entries);
    }
  }

  lemma OneLevel(level: Static)
    ensures Flattened([level]) == level
  {
    assert [level][..0] == [] && map[] + level == level;
  }

  // ----- folding -----

  class Folder {
    var scopes: seq<Static>
    var home: string
    const entries: seq<Entry>

    constructor (entries: seq<Entry>)
      ensures this.entries == entries && scopes == []
    {
      this.entries := entries;
      scopes, home := [], "";
    }

    ghost function Here(): Static
      reads this
    {
      Flattened(scopes)
    }

    /** Everything the folder may substitute can be written back. */
    ghost predicate Valid()
      reads this
    {
      Sure(Here()) && Recorded(entries)
    }

    method FoldExpression(e: Expr) returns (r: Expr)
      requires Valid()
      modifies this`scopes
      ensures scopes == old(scopes) && r == FoldExpr(Here(), e)
      decreases e, 1
    {
      hide Flattened, Sure, Recorded, Reified;
      match e
      case Name(x) =>
        var v := Lookup(scopes, x);
        if v.None? {
          return e;
        }
        SureKnown(Here(), x);
        r := Reify(v.value);
      case Operate(op, operands) =>
        var es := FoldOperands(operands);
        return Operate(op, es);
      case Both(left, right) =>
        var a := FoldExpression(left);
        var b := FoldExpression(right);
        return Both(a, b);
      case Either(left, right) =>
        var a := FoldExpression(left);
        var b := FoldExpression(right);
        return Either(a, b);
      case Choose(subject, arms) =>
        var v := FoldExpression(subject);
        var folded := FoldCases(arms);
        return Choose(v, folded);
      case Call(callee, operands) =>
        var f := FoldExpression(callee);
        var es := FoldOperands(operands);
        return Call(f, es);
      case _ => return e;
    }

    method FoldOperands(es: seq<Expr>) returns (r: seq<Expr>)
      requires Valid()
      modifies this`scopes
      ensures scopes == old(scopes) && r == FoldExprs(Here(), es)
      decreases es, 0
    {
      hide Flattened, Sure, Recorded, FoldExpr;
      if es == [] {
        return [];
      }
      var e := FoldExpression(es[0]);
      var rest := FoldOperands(es[1..]);
      return [e] + rest;
    }

    method FoldCases(arms: seq<Case>) returns (r: seq<Case>)
      requires Valid()
      modifies this`scopes
      ensures scopes == old(scopes) && r == FoldArms(Here(), arms)
      decreases arms, 0
    {
      hide Flattened, Sure, Recorded, FoldArm;
      if arms == [] {
        return [];
      }
      var arm := FoldCase(arms[0]);
      var rest := FoldCases(arms[1..]);
      return [arm] + rest;
    }

    method FoldCase(arm: Case) returns (r: Case)
      requires Valid()
      modifies this`scopes
      ensures scopes == old(scopes) && r == FoldArm(Here(), arm)
      decreases arm, 0
    {
      hide Flattened, Sure, Recorded, FoldExpr;
      var names := FirstNames(arm.pattern);
      ghost var before := scopes;
      FlattenedPush(scopes, Unknown(names));
      SureHidden(Here(), names);
      scopes := scopes + [Unknown(names)];
      var guard := None;
      if arm.guard.Some? {
        var g := FoldExpression(arm.guard.value);
        guard := Some(g);
      }
      var value := FoldExpression(arm.value);
      scopes := scopes[..|scopes| - 1];
      assert scopes == before;
      return Case(arm.pattern, guard, value);
    }

    /** The first entry with that label. */
    method FindConstant(x: string, span: nat) returns (r: Option<Value>)
      ensures r == Found(entries, home, x, span)
    {
      var i := 0;
      assert entries[0..] == entries;
      while i < |entries|
        invariant 0 <= i <= |entries| && Found(entries[i..], home, x, span) == Found(entries, home, x, span)
      {
        if entries[i].home == home && entries[i].name == x && entries[i].span == span {
          return Some(entries[i].value);
        }
        assert entries[i..][1..] == entries[i + 1..];
        i := i + 1;
      }
      return None;
    }

    method Insert(x: string, known: Option<Value>)
      requires scopes != []
      modifies this`scopes
      ensures scopes == Topped(old(scopes), x, known) && Here() == old(Here())[x := known]
    {
      var n := |scopes| - 1;
      ghost var before := scopes;
      scopes := scopes[n := scopes[n][x := known]];
      assert scopes[..n] == before[..n];
    }

    method FoldOptional(e: Option<Expr>) returns (r: Option<Expr>)
      requires Valid()
      modifies this`scopes
      ensures scopes == old(scopes) && r == FoldInitial(Here(), e)
    {
      hide Flattened, Sure, Recorded, FoldExpr;
      if e.None? {
        return None;
      }
      var v := FoldExpression(e.value);
      return Some(v);
    }

    method FoldConst(s: Stmt) returns (r: Stmt)
      requires Valid() && scopes != [] && s.Const?
      modifies this`scopes
      ensures r == FoldStmt(entries, home, old(Here()), s) && Here() == After(entries, home, old(Here()), s) && Valid()
      ensures |scopes| == |old(scopes)| && scopes[..|scopes| - 1] == old(scopes)[..|scopes| - 1]
    {
      hide Flattened, Sure, Recorded, FoldExpr, Reified;
      AfterSure(entries, home, Here(), s);
      FoundRecorded(entries, home, s.name, s.span);
      var value := FoldExpression(s.value);
      var v := FindConstant(s.name, s.span);
      if v.Some? {
        value := Reify(v.value);
      }
      Insert(s.name, v);
      return Const(s.name, s.annotation, value, s.span);
    }

    method FoldStatement(s: Stmt) returns (r: Stmt)
      requires Valid() && scopes != []
      modifies this`scopes
      ensures r == FoldStmt(entries, home, old(Here()), s) && Here() == After(entries, home, old(Here()), s) && Valid()
      ensures |scopes| == |old(scopes)| && scopes[..|scopes| - 1] == old(scopes)[..|scopes| - 1]
      decreases s, 1
    {
      hide Flattened, Sure, Recorded, FoldExpr, FoldAll;
      AfterSure(entries, home, Here(), s);
      match s
      case Const(_, _, _, _) => r := FoldConst(s);
      case Bind(x, annotation, initial) =>
        var value := FoldOptional(initial);
        Insert(x, None);
        return Bind(x, annotation, value);
      case Assign(x, compound, value) =>
        var v := FoldExpression(value);
        return Assign(x, compound, v);
      case Store(target, compound, value) =>
        var t := FoldExpression(target);
        var v := FoldExpression(value);
        return Store(t, compound, v);
      case Do(value) =>
        var v := FoldExpression(value);
        return Do(v);
      case Return(result) =>
        var v := FoldOptional(result);
        return Return(v);
      case If(condition, yes, no) =>
        var v := FoldExpression(condition);
        var a := FoldBlock(yes);
        var b := FoldBlock(no);
        return If(v, a, b);
      case While(condition, body) =>
        var v := FoldExpression(condition);
        var b := FoldBlock(body);
        return While(v, b);
      case For(x, start, end, inclusive, body) =>
        var a := FoldExpression(start);
        var z := FoldExpression(end);
        var b := FoldShadowed(x, body);
        return For(x, a, z, inclusive, b);
      case Each(x, iterable, body) =>
        var v := FoldExpression(iterable);
        var b := FoldShadowed(x, body);
        return Each(x, v, b);
      case Loop(body) =>
        var b := FoldBlock(body);
        return Loop(b);
      case Unsafe(body) =>
        var b := FoldBlock(body);
        return Unsafe(b);
      case Break => return s;
      case Continue => return s;
    }

    /** A block in its own scope. */
    method FoldBlock(ss: seq<Stmt>) returns (r: seq<Stmt>)
      requires Valid()
      modifies this`scopes
      ensures scopes == old(scopes) && r == FoldAll(entries, home, Here(), ss)
      decreases ss, 1
    {
      hide Flattened, Sure, Recorded, FoldAll;
      ghost var before := scopes;
      FlattenedPush(scopes, map[]);
      assert Flattened(scopes) + map[] == Flattened(scopes);
      scopes := scopes + [map[]];
      r := FoldStatements(ss);
      scopes := scopes[..|scopes| - 1];
      assert scopes == before;
    }

    /** A block whose surroundings hide a name. */
    method FoldShadowed(x: string, ss: seq<Stmt>) returns (r: seq<Stmt>)
      requires Valid()
      modifies this`scopes
      ensures scopes == old(scopes) && Sure(Here()[x := None]) && r == FoldAll(entries, home, Here()[x := None], ss)
      decreases ss, 2
    {
      hide Flattened, Sure, Recorded, FoldAll;
      ghost var before := scopes;
      FlattenedPush(scopes, map[x := None]);
      assert Flattened(scopes) + map[x := None] == Flattened(scopes)[x := None];
      SureVariable(Here(), x);
      scopes := scopes + [map[x := None]];
      r := FoldBlock(ss);
      scopes := scopes[..|scopes| - 1];
      assert scopes == before;
    }

    method FoldStatements(ss: seq<Stmt>) returns (r: seq<Stmt>)
      requires Valid() && scopes != []
      modifies this`scopes
      ensures r == FoldAll(entries, home, old(Here()), ss)
      ensures |scopes| == |old(scopes)| && scopes[..|scopes| - 1] == old(scopes)[..|scopes| - 1]
      decreases ss, 0
    {
      hide Flattened, Sure, Recorded, FoldStmt, After;
      if ss == [] {
        return [];
      }
      AfterSure(entries, home, Here(), ss[0]);
      var s := FoldStatement(ss[0]);
      var rest := FoldStatements(ss[1..]);
      return [s] + rest;
    }

    /** The folded program. */
    method FoldProgram(fs: seq<Function>) returns (r: seq<Function>)
      requires Recorded(entries)
      modifies this
      ensures r == Fold(entries, fs)
    {
      hide Flattened, Sure, Recorded, FoldAll, Parameters;
      r := [];
      assert fs[0..] == fs;
      for i := 0 to |fs|
        invariant r + Fold(entries, fs[i..]) == Fold(entries, fs)
      {
        assert fs[i..][1..] == fs[i + 1..];
        var f := fs[i];
        if !f.external {
          home := f.name;
          scopes := [Parameters(f)];
          assert Here() == Parameters(f) && Sure(Parameters(f)) by {
            OneLevel(Parameters(f));
            SureParameters(f);
          }
          var body := FoldBlock(f.body);
          f := f.(body := body);
        }
        assert r + ([f] + Fold(entries, fs[i + 1..])) == r + [f] + Fold(entries, fs[i + 1..]);
        r := r + [f];
      }
    }
  }
}
