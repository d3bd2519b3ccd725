/** Constants in a running program: what a written-back constant is there, and which operations agree on it. */
module ConstantKinds {
  import opened Options
  import opened ConstantArithmetic
  import opened TextOrder
  import opened OrPatterns
  import opened Folding
  import opened RuntimeIntegers
  import opened FoldingRuns
  import opened FoldingLaws
  import Kinds

  // ----- constants as the running program holds them -----

  function InField(d: Fields, owner: string, field: string, v: Value): Value
  {
    match d(owner, field)
    case None => v
    case Some(t) => match Retagged(v, t) case None => v case Some(u) => u
  }

  /** The value of the expression a constant is written back as: numbers have the types of literals, and the
      fields of structs their declared types. */
  function Held(d: Fields, v: Value): Value
    requires Constant(v)
  {
    match v
    case Scalar(l) => if l.Integer? then Literally(l.value) else v
    case Record(owner, fields) => Record(owner, map k | k in fields :: InField(d, owner, k, Held(d, fields[k])))
    case Sequence(items) => Sequence(seq(|items|, i requires 0 <= i < |items| => Held(d, items[i])))
  }

  predicate FieldTakes(d: Fields, owner: string, field: string, v: Value)
  {
    match d(owner, field) case None => true case Some(t) => Retagged(v, t).Some?
  }

  /** That expression has a value: its numbers can be negated and its fields have their declared types. */
  predicate Holdable(d: Fields, v: Value)
    requires Constant(v)
  {
    match v
    case Scalar(l) => l.Integer? ==> -l.value <= TWO_127
    case Record(owner, fields) =>
      forall k :: k in fields ==> Holdable(d, fields[k]) && FieldTakes(d, owner, k, Held(d, fields[k]))
    case Sequence(items) => forall i :: 0 <= i < |items| ==> Holdable(d, items[i])
  }

  function HeldAll(d: Fields, vs: seq<Value>): (r: seq<Value>)
    requires AllConstant(vs)
    ensures |r| == |vs| && forall i :: 0 <= i < |r| ==> r[i] == Held(d, vs[i])
  {
    seq(|vs|, i requires 0 <= i < |vs| => Held(d, vs[i]))
  }

  predicate AllHoldable(d: Fields, vs: seq<Value>)
    requires AllConstant(vs)
  {
    forall i :: 0 <= i < |vs| ==> Holdable(d, vs[i])
  }

  function HeldBindings(d: Fields, b: Bindings): Bindings
    requires AllBound(b)
  {
    map x | x in b :: Held(d, b[x])
  }

  // ----- the meaning of constant expressions -----

  /** The value of a constant expression when nothing limits its evaluation. */
  function Worth(known: Static, e: Expr): Option<Value>
    decreases e, 1
  {
    match e
    case Number(n) => Some(Scalar(Integer(n)))
    case Quote(t) => Some(Scalar(Text(t)))
    case Letter(c) => Some(Scalar(Character(c)))
    case Flag(b) => Some(Truthful(b))
    case Name(x) => Known(known, x)
    case Operate(op, operands) =>
      (match WorthAll(known, operands) case None => None case Some(vs) => Fixed(op, vs))
    case Both(left, right) => WorthLogic(Worth(known, left), Worth(known, right), true)
    case Either(left, right) => WorthLogic(Worth(known, left), Worth(known, right), false)
    case Choose(subject, arms) =>
      (match Worth(known, subject) case None => None case Some(v) => WorthArms(known, v, arms))
    case Call(_, _) => None
  }

  function WorthLogic(a: Option<Value>, b: Option<Value>, and: bool): Option<Value>
  {
    if a == Some(Truthful(!and)) then a
    else if a == Some(Truthful(and)) && b.Some? && b.value.Scalar? && b.value.literal.Truth? then b
    else None
  }

  function WorthAll(known: Static, es: seq<Expr>): (r: Option<seq<Value>>)
    ensures r.Some? ==> |r.value| == |es|
    decreases es, 0
  {
    if es == [] then Some([])
    else match Worth(known, es[0])
         case None => None
         case Some(v) => match WorthAll(known, es[1..]) case None => None case Some(vs) => Some([v] + vs)
  }

  function WorthGuard(known: Static, arm: Case): Option<Value>
    decreases arm, 0
  {
    match arm.guard case None => Some(Truthful(true)) case Some(g) => Worth(known, g)
  }

  function WorthBody(known: Static, arm: Case): Option<Value>
    decreases arm, 0
  {
    Worth(known, arm.value)
  }

  function WorthArms(known: Static, v: Value, arms: seq<Case>): Option<Value>
    decreases arms, 0
  {
    if arms == [] then None
    else match Match(arms[0].pattern, v, map[])
         case None => WorthArms(known, v, arms[1..])
         case Some(b) =>
           match WorthGuard(known + Bound(b), arms[0])
           case None => None
           case Some(t) =>
             if t == Truthful(true) then WorthBody(known + Bound(b), arms[0]) else WorthArms(known, v, arms[1..])
  }

  /** Evaluation within limits finds that value. */
  lemma {:induction false} EvalWorth(l: Limits, known: Static, e: Expr, depth: nat, steps: nat)
    requires Eval(l, known, e, depth, steps).Some?
    ensures Worth(known, e) == Some(Eval(l, known, e, depth, steps).value.0)
    decreases e, 1
  {
    hide Match, Fixed;
    assert Eval(l, known, e, depth, steps) == EvalInner(l, known, e, depth, steps + 1);
    match e
    case Operate(op, operands) => EvalAllWorth(l, known, operands, depth + 1, steps + 1);
    case Both(_, _) => LogicWorth(l, known, e, true, depth, steps + 1);
    case Either(_, _) => LogicWorth(l, known, e, false, depth, steps + 1);
    case Choose(subject, arms) =>
      EvalWorth(l, known, subject, depth + 1, steps + 1);
      var (v, n) := Eval(l, known, subject, depth + 1, steps + 1).value;
      EvalArmsWorth(l, known, v, arms, depth + 1, n);
    case _ =>
  }

  lemma {:induction false} LogicWorth(l: Limits, known: Static, e: Expr, and: bool, depth: nat, steps: nat)
    requires (e.Both? || e.Either?) && EvalLogic(l, known, e, and, depth, steps).Some?
    ensures WorthLogic(Worth(known, e.left), Worth(known, e.right), and)
            == Some(EvalLogic(l, known, e, and, depth, steps).value.0)
    decreases e, 0
  {
    hide Eval, Worth;
    EvalWorth(l, known, e.left, depth + 1, steps);
    var (a, n) := Eval(l, known, e.left, depth + 1, steps).value;
    if a != Truthful(!and) {
      EvalWorth(l, known, e.right, depth + 1, n);
    }
  }

  lemma {:induction false} EvalAllWorth(l: Limits, known: Static, es: seq<Expr>, depth: nat, steps: nat)
    requires EvalAll(l, known, es, depth, steps).Some?
    ensures WorthAll(known, es) == Some(EvalAll(l, known, es, depth, steps).value.0)
    decreases es, 0
  {
    hide Eval, Worth;
    if es != [] {
      EvalWorth(l, known, es[0], depth, steps);
      EvalAllWorth(l, known, es[1..], depth, Eval(l, known, es[0], depth, steps).value.1);
    }
  }

  lemma {:induction false} EvalArmsWorth(l: Limits, known: Static, v: Value, arms: seq<Case>, depth: nat, steps: nat)
    requires EvalArms(l, known, v, arms, depth, steps).Some?
    ensures WorthArms(known, v, arms) == Some(EvalArms(l, known, v, arms, depth, steps).value.0)
    decreases arms, 0
  {
    hide Match, EvalArm, WorthGuard, WorthBody;
    match Match(arms[0].pattern, v, map[])
    case None => EvalArmsWorth(l, known, v, arms[1..], depth, steps);
    case Some(b) =>
      EvalArmWorth(l, known + Bound(b), arms[0], depth, steps);
      match EvalArm(l, known + Bound(b), arms[0], depth, steps)
      case Some((None, n)) => EvalArmsWorth(l, known, v, arms[1..], depth, n);
      case Some((Some(_), _)) =>
  }

  lemma {:induction false} EvalArmWorth(l: Limits, known: Static, arm: Case, depth: nat, steps: nat)
    requires EvalArm(l, known, arm, depth, steps).Some?
    ensures WorthGuard(known, arm).Some?
    ensures var r := EvalArm(l, known, arm, depth, steps).value.0;
            && (WorthGuard(known, arm) == Some(Truthful(true)) <==> r.Some?)
            && (r.Some? ==> WorthBody(known, arm) == r)
    decreases arm, 0
  {
    hide Eval, Worth;
    if arm.guard.Some? {
      EvalWorth(l, known, arm.guard.value, depth, steps);
    }
    var (ok, n) := EvalGuard(l, known, arm, depth, steps).value;
    if ok {
      EvalWorth(l, known, arm.value, depth, n);
    }
  }

  // ----- which annotations and operations agree -----

  predicate IsNumber(v: Value)
  {
    v.Scalar? && v.literal.Integer?
  }

  /** The type does not change the number as written: it is the number's own, or the default types' rules leave
      it alone, or it does not admit the number at all. */
  predicate KeepsNumber(name: string, n: int)
  {
    match Named(name)
    case None => !Floating(name)
    case Some(tag) =>
      match tag
      case Int => true
      case UInt => !(0 <= n < TWO_63)
      case _ => tag == LiteralTag(n) || !Admits(tag, n)
  }

  predicate Keeps(name: string, v: Value)
  {
    IsNumber(v) ==> KeepsNumber(name, v.literal.value)
  }

  /** The type two numbers as written are brought to. */
  function Meeting(a: int, b: int): Option<Tag>
  {
    match (LiteralTag(a), LiteralTag(b))
    case (Int, Int) => Some(Int)
    case (UnsignedOf(_), UnsignedOf(_)) => Some(UnsignedOf(128))
    case (UnsignedOf(_), Int) => if b >= 0 then Some(UnsignedOf(128)) else None
    case (SignedOf(_), SignedOf(_)) => Some(SignedOf(128))
    case (SignedOf(_), Int) => Some(SignedOf(128))
    case (Int, SignedOf(_)) => Some(SignedOf(128))
    case _ => None
  }

  /** The operation on two numbers as written stays in their type, and that is the type of its result as written. */
  predicate NumbersAgree(op: Operation, a: int, b: int)
  {
    if op == EqualTo || op == NotEqual then !(LiteralTag(a) == UnsignedOf(128) && LiteralTag(b) == Int && b < 0)
    else
      && Meeting(a, b).Some?
      && (Ordered(op) || (Exact(op, a, b).Some? && LiteralTag(Exact(op, a, b).value) == Meeting(a, b).value
                          && Admits(Meeting(a, b).value, Exact(op, a, b).value)))
  }

  /** At run time the operation does with constants what it does at compile time. */
  predicate InKind(d: Fields, op: Operation, vs: seq<Value>)
  {
    AllConstant(vs) && Fixed(op, vs).Some? &&
    match op
    case Build(owner, names) => forall i :: 0 <= i < |vs| ==> FieldTakes(d, owner, names[i], Held(d, vs[i]))
    case Member(field) =>
      (match d(vs[0].owner, field) case None => true case Some(t) => Keeps(t, vs[0].fields[field]))
    case Negate => vs[0].literal.value <= TWO_127 && -vs[0].literal.value < TWO_63
    case Collect => true
    case Not => true
    case Index => false
    case Slice => false
    case _ =>
      if IsNumber(vs[0]) && IsNumber(vs[1]) then NumbersAgree(op, vs[0].literal.value, vs[1].literal.value)
      else op == EqualTo || op == NotEqual
  }

  /** Every field of the record, at any depth, has its declared type as written. */
  predicate Even(d: Fields, v: Value)
  {
    v.Record? ==> forall k :: k in v.fields ==>
      Even(d, v.fields[k]) && (match d(v.owner, k) case None => true case Some(t) => Keeps(t, v.fields[k]))
  }

  /** Along the evaluation of the expression every operation is in kind, every value matched is even and every
      guard is a truth value. */
  predicate Steady(d: Fields, known: Static, e: Expr)
    decreases e, 1
  {
    match e
    case Operate(op, operands) =>
      SteadyAll(d, known, operands) && (WorthAll(known, operands).Some? ==>
                                          InKind(d, op, WorthAll(known, operands).value))
    case Both(left, right) =>
      Steady(d, known, left) && (Worth(known, left) == Some(Truthful(true)) ==> Steady(d, known, right))
    case Either(left, right) =>
      Steady(d, known, left) && (Worth(known, left) == Some(Truthful(false)) ==> Steady(d, known, right))
    case Choose(subject, arms) =>
      && Steady(d, known, subject)
      && (match Worth(known, subject) case None => true case Some(v) => Even(d, v) && SteadyArms(d, known, v, arms))
    case _ => true
  }

  predicate SteadyAll(d: Fields, known: Static, es: seq<Expr>)
    decreases es, 0
  {
    es == [] || (Steady(d, known, es[0]) && SteadyAll(d, known, es[1..]))
  }

  predicate SteadyGuard(d: Fields, known: Static, arm: Case)
    decreases arm, 0
  {
    arm.guard.Some? ==> Steady(d, known, arm.guard.value)
  }

  predicate SteadyBody(d: Fields, known: Static, arm: Case)
    decreases arm, 0
  {
    Steady(d, known, arm.value)
  }

  predicate SteadyArms(d: Fields, known: Static, v: Value, arms: seq<Case>)
    decreases arms, 0
  {
    arms == [] ||
    match Match(arms[0].pattern, v, map[])
    case None => SteadyArms(d, known, v, arms[1..])
    case Some(b) =>
      && SteadyGuard(d, known + Bound(b), arms[0])
      && (match WorthGuard(known + Bound(b), arms[0])
          case None => true
          case Some(t) =>
            if t == Truthful(true) then SteadyBody(d, known + Bound(b), arms[0])
            else t == Truthful(false) && SteadyArms(d, known, v, arms[1..]))
  }

  // ----- numbers -----

  /** An annotation leaves a number as it is written exactly when it keeps it, or stops the program. */
  lemma KeepsExactly(name: string, n: int)
    requires !Floating(name)
    ensures KeepsNumber(name, n) <==>
            Retagged(Literally(n), name).None? || Retagged(Literally(n), name) == Some(Literally(n))
  {
  }

  lemma KeepsHeld(d: Fields, name: string, v: Value)
    requires Constant(v) && Keeps(name, v) && Retagged(Held(d, v), name).Some?
    ensures Retagged(Held(d, v), name) == Some(Held(d, v))
  {
    if IsNumber(v) {
      KeepsExactly(name, v.literal.value);
    }
  }

  lemma DivisionBySign(x: nat, y: int)
    requires y < 0
    ensures x / y == -(x / -y)
  {
    var q := x / -y;
    assert x == q * -y + x % -y;
    assert x == (-q) * y + x % -y;
    Euclid(x, y, -q, x % -y);
  }

  lemma Euclid(x: int, y: int, q: int, r: int)
    requires y != 0 && x == q * y + r && 0 <= r && r < y * (if y < 0 then -1 else 1)
    ensures q == x / y
  {
    var (p, s) := (x / y, x % y);
    assert (q - p) * y == s - r;
    if q != p {
      Larger(q - p, y);
    }
  }

  lemma Larger(k: int, y: int)
    requires k != 0
    ensures y > 0 ==> k * y >= y || k * y <= -y
    ensures y < 0 ==> k * y <= y || k * y >= -y
  {
  }

  lemma QuotientTruncates(a: int, b: int)
    requires InRange(a) && InRange(b) && b != 0
    ensures Quotient(Represented(a), Represented(b)).Some?
    ensures Denoted(Quotient(Represented(a), Represented(b)).value) == Kinds.Quotient(a, b)
  {
    if b < 0 {
      if a >= 0 {
        DivisionBySign(a, b);
      } else {
        DivisionBySign(-a, b);
      }
    }
  }

  lemma RemainderTruncates(a: int, b: int)
    requires InRange(a) && InRange(b) && b != 0
    ensures Remainder(Represented(a), Represented(b)).Some?
    ensures Denoted(Remainder(Represented(a), Represented(b)).value) == a - b * Kinds.Quotient(a, b)
  {
    QuotientTruncates(a, b);
    QuotientDenotes(Represented(a), Represented(b));
  }

  /** What the comparison says about the numbers. */
  predicate Compares(op: Operation, a: int, b: int)
    requires Comparison(op)
  {
    if op == EqualTo then a == b else if op == NotEqual then a != b else HoldsOf(op, a, b)
  }

  /** Compile-time evaluation is exact. */
  lemma IntegersExact(op: Operation, a: int, b: int)
    requires OnIntegers(op, a, b).Some?
    ensures Comparison(op) ==> OnIntegers(op, a, b) == Some(Truthful(Compares(op, a, b)))
    ensures !Comparison(op) ==>
              Exact(op, a, b).Some? && OnIntegers(op, a, b) == Some(Scalar(Integer(Exact(op, a, b).value)))
  {
    var (x, y) := (Represented(a), Represented(b));
    if Comparison(op) {
      ComparedDenotes(x, y);
    } else {
      hide Quotient, Remainder, Product, Sum, Kinds.Quotient;
      SumDenotes(x, y);
      ProductDenotes(x, y);
      QuotientDenotes(x, y);
      if op == Subtract {
        SumDenotes(x, Opposite(y));
      } else if b != 0 {
        QuotientTruncates(a, b);
        RemainderTruncates(a, b);
      }
    }
  }

  /** Two numbers as written come to one type exactly when they meet. */
  lemma MeetingPairs(a: int, b: int)
    requires -a <= TWO_127 && -b <= TWO_127
    ensures Meeting(a, b).Some? ==>
              Paired(Literally(a), Literally(b)) == Some((Whole(Meeting(a, b).value, a), Whole(Meeting(a, b).value, b)))
    ensures Meeting(a, b).None? ==>
              var r := Paired(Literally(a), Literally(b));
              if LiteralTag(a) == UnsignedOf(128) && LiteralTag(b) == Int && b < 0 then r.None?
              else r == Some((Literally(a), Literally(b))) && LiteralTag(a) != LiteralTag(b)
  {
  }

  /** Operations on numbers as written give the compile-time result as written exactly when they agree. */
  lemma NumbersApply(op: Operation, a: int, b: int)
    requires -a <= TWO_127 && -b <= TWO_127 && OnIntegers(op, a, b).Some?
    ensures var v := OnIntegers(op, a, b).value;
            NumbersAgree(op, a, b) <==>
            OnWholes(op, Literally(a), Literally(b)) == Some(if IsNumber(v) then Literally(v.literal.value) else v)
  {
    IntegersExact(op, a, b);
    MeetingPairs(a, b);
    hide Paired, OnIntegers, Meeting;
    if Meeting(a, b).Some? && LeastByMinusOne(op, Meeting(a, b).value, a, b) {
      LeastAway(op, Meeting(a, b).value, a, b);
    }
  }

  lemma LeastAway(op: Operation, tag: Tag, a: int, b: int)
    requires LeastByMinusOne(op, tag, a, b)
    ensures Exact(op, a, b) == Some(0)
  {
  }

  // ----- operations -----

  lemma NeverHosted(d: Fields, v: Value, name: string)
    requires Constant(v) && Retagged(Held(d, v), name).Some?
    ensures !Hosted(Held(d, v), name)
  {
  }

  lemma CoercedInField<W>(h: Host<W>, owner: string, field: string, v: Value)
    requires Constant(v) && FieldTakes(h.fields, owner, field, Held(h.fields, v))
    ensures Coerced(h, h.fields(owner, field), Held(h.fields, v))
            == Some(InField(h.fields, owner, field, Held(h.fields, v)))
  {
    hide Held;
    if h.fields(owner, field).Some? {
      NeverHosted(h.fields, v, h.fields(owner, field).value);
    }
  }

  /** The fields of a new record, one after the other. */
  lemma {:induction false} BuildHolds<W>(h: Host<W>, owner: string, names: seq<string>, vs: seq<Value>)
    requires |names| == |vs| && AllConstant(vs) && AllHoldable(h.fields, vs)
    requires forall i :: 0 <= i < |vs| ==> FieldTakes(h.fields, owner, names[i], Held(h.fields, vs[i]))
    ensures AllBound(Built(names, vs))
    ensures forall k :: k in Built(names, vs) ==>
              Holdable(h.fields, Built(names, vs)[k])
                  && FieldTakes(h.fields, owner, k, Held(h.fields, Built(names, vs)[k]))
    ensures CoercedAll(h, FieldTypes(h.fields, owner, names), HeldAll(h.fields, vs)).Some?
    ensures Built(names, CoercedAll(h, FieldTypes(h.fields, owner, names), HeldAll(h.fields, vs)).value)
            == map k | k in Built(names, vs) :: InField(h.fields, owner, k, Held(h.fields, Built(names, vs)[k]))
    decreases names
  {
    hide Held, Holdable, InField, FieldTakes;
    if names != [] {
      var n := |names| - 1;
      var (d, types, held) := (h.fields, FieldTypes(h.fields, owner, names), HeldAll(h.fields, vs));
      assert AllHoldable(d, vs[..n]);
      BuildHolds(h, owner, names[..n], vs[..n]);
      assert types[..n] == FieldTypes(d, owner, names[..n]) && held[..n] == HeldAll(d, vs[..n]);
      CoercedInField(h, owner, names[n], vs[n]);
      var us := CoercedAll(h, types[..n], held[..n]).value;
      var all := CoercedAll(h, types, held).value;
      assert all == us + [InField(d, owner, names[n], Held(d, vs[n]))] && all[..n] == us;
    }
  }

  lemma RecordHolds<W>(h: Host<W>, owner: string, names: seq<string>, vs: seq<Value>, w: W)
    requires AllConstant(vs) && AllHoldable(h.fields, vs) && InKind(h.fields, Build(owner, names), vs)
    ensures var v := Record(owner, Built(names, vs));
            && Constant(v) && Holdable(h.fields, v)
            && Applied(h, Build(owner, names), HeldAll(h.fields, vs), w) == Got(Held(h.fields, v), w)
  {
    hide Built, CoercedAll, FieldTakes, InField, AllHoldable;
    RecordInKind(h.fields, owner, names, vs);
    BuildHolds(h, owner, names, vs);
    hide InKind;
    RecordForm(h.fields, owner, Built(names, vs));
  }

  lemma RecordInKind(d: Fields, owner: string, names: seq<string>, vs: seq<Value>)
    requires InKind(d, Build(owner, names), vs)
    ensures |names| == |vs| && forall i :: 0 <= i < |vs| ==> FieldTakes(d, owner, names[i], Held(d, vs[i]))
  {
    hide Held, FieldTakes, Built;
  }

  lemma RecordForm(d: Fields, owner: string, fields: Bindings)
    requires AllBound(fields)
    requires forall k :: k in fields ==> Holdable(d, fields[k]) && FieldTakes(d, owner, k, Held(d, fields[k]))
    ensures Constant(Record(owner, fields)) && Holdable(d, Record(owner, fields))
    ensures Held(d, Record(owner, fields))
            == Record(owner, map k | k in fields :: InField(d, owner, k, Held(d, fields[k])))
  {
    hide InField, FieldTakes;
  }

  lemma MemberHolds<W>(h: Host<W>, field: string, vs: seq<Value>, w: W)
    requires AllConstant(vs) && AllHoldable(h.fields, vs) && InKind(h.fields, Member(field), vs)
    ensures var v := vs[0].fields[field];
            && Constant(v) && Holdable(h.fields, v)
            && Applied(h, Member(field), HeldAll(h.fields, vs), w) == Got(Held(h.fields, v), w)
  {
    var (d, r) := (h.fields, vs[0]);
    assert Holdable(d, r);
    if d(r.owner, field).Some? {
      KeepsHeld(d, d(r.owner, field).value, r.fields[field]);
    }
  }

  predicate Scalarly(op: Operation)
  {
    !op.Build? && !op.Member? && !op.Collect?
  }

  /** On scalars the running program computes the compile-time result as written exactly when the operation is
      in kind. */
  lemma OperationDecides<W>(h: Host<W>, op: Operation, vs: seq<Value>, w: W)
    requires Scalarly(op) && AllConstant(vs) && AllHoldable(h.fields, vs) && Fixed(op, vs).Some?
    ensures Constant(Fixed(op, vs).value)
    ensures InKind(h.fields, op, vs) <==>
              Applied(h, op, HeldAll(h.fields, vs), w) == Got(Held(h.fields, Fixed(op, vs).value), w)
    ensures InKind(h.fields, op, vs) ==> Holdable(h.fields, Fixed(op, vs).value)
  {
    FixedConstant(op, vs);
    if op == Negate || op == Not {
      UnaryDecides(h, op, vs, w);
    } else {
      PairShape(op, vs);
      hide InKind, Applied, Fixed, Held, Holdable;
      if IsNumber(vs[0]) && IsNumber(vs[1]) {
        NumbersDecide(h, op, vs, w);
      } else {
        OthersDecide(h, op, vs, w);
      }
    }
  }

  lemma UnaryDecides<W>(h: Host<W>, op: Operation, vs: seq<Value>, w: W)
    requires (op == Negate || op == Not) && AllConstant(vs) && AllHoldable(h.fields, vs) && Fixed(op, vs).Some?
    requires Constant(Fixed(op, vs).value)
    ensures InKind(h.fields, op, vs) <==>
              Applied(h, op, HeldAll(h.fields, vs), w) == Got(Held(h.fields, Fixed(op, vs).value), w)
    ensures InKind(h.fields, op, vs) ==> Holdable(h.fields, Fixed(op, vs).value)
  {
    assert HeldAll(h.fields, vs)[0] == Held(h.fields, vs[0]) && Holdable(h.fields, vs[0]);
  }

  lemma PairShape(op: Operation, vs: seq<Value>)
    requires Scalarly(op) && op != Negate && op != Not && Fixed(op, vs).Some?
    ensures |vs| == 2 && vs[0].Scalar? && vs[1].Scalar? && op != Index && op != Slice
    ensures Fixed(op, vs) == OnScalars(op, vs[0].literal, vs[1].literal)
  {
    hide OnScalars;
  }

  lemma NumbersDecide<W>(h: Host<W>, op: Operation, vs: seq<Value>, w: W)
    requires Scalarly(op) && op != Negate && op != Not && AllConstant(vs) && AllHoldable(h.fields, vs)
             && Fixed(op, vs).Some?
    requires |vs| == 2 && IsNumber(vs[0]) && IsNumber(vs[1]) && Constant(Fixed(op, vs).value)
    ensures InKind(h.fields, op, vs) <==>
              Applied(h, op, HeldAll(h.fields, vs), w) == Got(Held(h.fields, Fixed(op, vs).value), w)
    ensures InKind(h.fields, op, vs) ==> Holdable(h.fields, Fixed(op, vs).value)
  {
    var (a, b) := (vs[0].literal.value, vs[1].literal.value);
    assert vs == [Scalar(Integer(a)), Scalar(Integer(b))];
    assert Holdable(h.fields, vs[0]) && Holdable(h.fields, vs[1]) && Constant(vs[0]) && Constant(vs[1]);
    assert HeldAll(h.fields, vs) == [Literally(a), Literally(b)];
    hide Applied, Fixed, Held, Holdable, NumbersAgree, Constant;
    BinaryDecides(h, op, a, b, w);
    PairShape(op, vs);
    assert InKind(h.fields, op, vs) <==> NumbersAgree(op, a, b);
  }

  lemma OthersDecide<W>(h: Host<W>, op: Operation, vs: seq<Value>, w: W)
    requires Scalarly(op) && op != Negate && op != Not && AllConstant(vs) && Fixed(op, vs).Some?
    requires |vs| == 2 && vs[0].Scalar? && vs[1].Scalar? && !(IsNumber(vs[0]) && IsNumber(vs[1]))
             && Constant(Fixed(op, vs).value)
    ensures InKind(h.fields, op, vs) <==>
              Applied(h, op, HeldAll(h.fields, vs), w) == Got(Held(h.fields, Fixed(op, vs).value), w)
    ensures Holdable(h.fields, Fixed(op, vs).value)
  {
    PairShape(op, vs);
    hide OnScalars, OnPlain, Fixed;
    OtherDecides(op, vs[0], vs[1]);
    assert HeldAll(h.fields, vs) == vs;
  }

  lemma BinaryDecides<W>(h: Host<W>, op: Operation, a: int, b: int, w: W)
    requires Scalarly(op) && op != Negate && op != Not && InRange(a) && InRange(b) && -a <= TWO_127 && -b <= TWO_127
    requires Fixed(op, [Scalar(Integer(a)), Scalar(Integer(b))]).Some?
    ensures var v := Fixed(op, [Scalar(Integer(a)), Scalar(Integer(b))]).value;
            && Constant(v)
            && (NumbersAgree(op, a, b) <==>
                  Applied(h, op, [Literally(a), Literally(b)], w) == Got(Held(h.fields, v), w))
            && (NumbersAgree(op, a, b) ==> Holdable(h.fields, v))
  {
    var vs := [Scalar(Integer(a)), Scalar(Integer(b))];
    PairShape(op, vs);
    FixedConstant(op, vs);
    hide Fixed, OnIntegers, OnWholes, Exact;
    assert Fixed(op, vs) == OnIntegers(op, a, b);
    NumbersApply(op, a, b);
    IntegersExact(op, a, b);
    if NumbersAgree(op, a, b) && !Comparison(op) {
      AgreeingHolds(op, a, b);
    }
    hide NumbersAgree;
    assert Applied(h, op, [Literally(a), Literally(b)], w) == Replied(OnWholes(op, Literally(a), Literally(b)), w);
  }

  lemma AgreeingHolds(op: Operation, a: int, b: int)
    requires NumbersAgree(op, a, b) && !Comparison(op)
    ensures -Exact(op, a, b).value <= TWO_127
  {
    hide Exact;
  }

  lemma OtherDecides(op: Operation, a: Value, b: Value)
    requires a.Scalar? && b.Scalar? && !(IsNumber(a) && IsNumber(b)) && OnScalars(op, a.literal, b.literal).Some?
    ensures !IsNumber(a) && !IsNumber(b)
    ensures var v := OnScalars(op, a.literal, b.literal).value;
            && v.Scalar? && !IsNumber(v)
            && (op == EqualTo || op == NotEqual <==> OnPlain(op, a, b) == Some(v))
  {
    if a.literal.Text? {
      OrderTotal(a.literal.text, b.literal.text);
    }
  }

  /** An operation in kind holds the compile-time result. */
  lemma OperationHolds<W>(h: Host<W>, op: Operation, vs: seq<Value>, w: W)
    requires AllConstant(vs) && AllHoldable(h.fields, vs) && InKind(h.fields, op, vs)
    ensures Constant(Fixed(op, vs).value) && Holdable(h.fields, Fixed(op, vs).value)
    ensures Applied(h, op, HeldAll(h.fields, vs), w) == Got(Held(h.fields, Fixed(op, vs).value), w)
  {
    match op
    case Build(owner, names) => RecordHolds(h, owner, names, vs, w);
    case Member(field) => MemberHolds(h, field, vs, w);
    case Collect => assert Held(h.fields, Sequence(vs)).items == HeldAll(h.fields, vs);
    case _ => OperationDecides(h, op, vs, w);
  }

  // ----- matching -----

  /** A constant that can be matched at run time as at compile time. */
  predicate Matchable(d: Fields, v: Value)
  {
    Constant(v) && Holdable(d, v) && Even(d, v)
  }

  predicate HoldableBindings(d: Fields, b: Bindings)
  {
    AllBound(b) && forall x :: x in b ==> Holdable(d, b[x])
  }

  lemma EvenField(d: Fields, v: Value, k: string)
    requires Matchable(d, v) && v.Record? && k in v.fields
    ensures Matchable(d, v.fields[k]) && k in Held(d, v).fields && Held(d, v).fields[k] == Held(d, v.fields[k])
  {
    if d(v.owner, k).Some? {
      KeepsHeld(d, d(v.owner, k).value, v.fields[k]);
    }
  }

  predicate AllMatchable(d: Fields, vs: seq<Value>)
  {
    forall i :: 0 <= i < |vs| ==> Matchable(d, vs[i])
  }

  /** The same values, as the running program holds them. */
  predicate HeldTo(d: Fields, a: Option<seq<Value>>, b: Option<seq<Value>>)
  {
    match a
    case None => b.None?
    case Some(vs) => AllMatchable(d, vs) && AllConstant(vs) && b == Some(HeldAll(d, vs))
  }

  lemma {:induction false} FieldsHeld(d: Fields, v: Value, names: seq<string>)
    requires Matchable(d, v) && v.Record?
    ensures Held(d, v).Record? && HeldTo(d, FieldValues(names, v.fields), FieldValues(names, Held(d, v).fields))
    decreases names
  {
    SameFields(d, v);
    hide Matchable, Held;
    if names != [] {
      var n := |names| - 1;
      FieldsHeld(d, v, names[..n]);
      if names[n] in v.fields {
        EvenField(d, v, names[n]);
        MatchableConstant(d, v.fields[names[n]]);
        var rest := FieldValues(names[..n], v.fields);
        if rest.Some? {
          HeldAllAppend(d, rest.value, v.fields[names[n]]);
        }
      }
    }
  }

  lemma HeldAllAppend(d: Fields, vs: seq<Value>, v: Value)
    requires AllConstant(vs) && Constant(v)
    ensures AllConstant(vs + [v]) && HeldAll(d, vs + [v]) == HeldAll(d, vs) + [Held(d, v)]
  {
    hide Held, Constant;
  }

  lemma SameFields(d: Fields, v: Value)
    requires Matchable(d, v) && v.Record?
    ensures Held(d, v).Record? && Held(d, v).owner == v.owner && Held(d, v).fields.Keys == v.fields.Keys
  {
  }

  lemma MatchableConstant(d: Fields, v: Value)
    requires Matchable(d, v)
    ensures Constant(v) && Holdable(d, v)
  {
  }

  /** Matching the held value holds the bindings. */
  predicate MatchedTo(d: Fields, a: Option<Bindings>, b: Option<Bindings>)
  {
    match a
    case None => b.None?
    case Some(r) => HoldableBindings(d, r) && b == Some(HeldBindings(d, r))
  }

  lemma {:induction false} MatchHeld(d: Fields, p: Pattern, v: Value, b: Bindings)
    requires Matchable(d, v) && HoldableBindings(d, b)
    ensures MatchedTo(d, Match(p, v, b), Match(p, Held(d, v), HeldBindings(d, b)))
    decreases p, 1
  {
    match p
    case Wildcard =>
    case Binding(x) => BindingHeld(d, b, x, v);
    case Exactly(l) =>
    case Or(alternatives) => MatchAnyHeld(d, alternatives, v, b);
    case Struct(_, names, patterns, _) =>
      hide Matchable, HoldableBindings, HeldBindings;
      RecordOnly(d, v);
      if v.Record? {
        SameFields(d, v);
        FieldsHeld(d, v, names);
        hide Held;
        if Parts(p, v).Some? {
          MatchAllHeld(d, patterns, Parts(p, v).value, b);
        }
      }
    case Variant(_, _, _) =>
  }

  lemma RecordOnly(d: Fields, v: Value)
    requires Matchable(d, v)
    ensures v.Record? <==> Held(d, v).Record?
  {
  }

  lemma BindingHeld(d: Fields, b: Bindings, x: string, v: Value)
    requires Matchable(d, v) && HoldableBindings(d, b)
    ensures HoldableBindings(d, b[x := v]) && HeldBindings(d, b[x := v]) == HeldBindings(d, b)[x := Held(d, v)]
  {
    hide Held, Even;
  }

  lemma {:induction false} MatchAnyHeld(d: Fields, ps: seq<Pattern>, v: Value, b: Bindings)
    requires Matchable(d, v) && HoldableBindings(d, b)
    ensures MatchedTo(d, MatchAny(ps, v, b), MatchAny(ps, Held(d, v), HeldBindings(d, b)))
    decreases ps, 0
  {
    hide Matchable, HoldableBindings, HeldBindings, Held, Match;
    if ps != [] {
      MatchHeld(d, ps[0], v, b);
      MatchAnyHeld(d, ps[1..], v, b);
    }
  }

  lemma {:induction false} MatchAllHeld(d: Fields, ps: seq<Pattern>, vs: seq<Value>, b: Bindings)
    requires |ps| == |vs| && AllMatchable(d, vs) && AllConstant(vs) && HoldableBindings(d, b)
    ensures MatchedTo(d, MatchAll(ps, vs, b), MatchAll(ps, HeldAll(d, vs), HeldBindings(d, b)))
    decreases ps, 0
  {
    hide Matchable, HoldableBindings, HeldBindings, Held, Match;
    if ps != [] {
      var n := |ps| - 1;
      assert HeldAll(d, vs)[..n] == HeldAll(d, vs[..n]);
      MatchAllHeld(d, ps[..n], vs[..n], b);
      var r := MatchAll(ps[..n], vs[..n], b);
      if r.Some? {
        MatchHeld(d, ps[n], vs[n], r.value);
      }
    }
  }
}
