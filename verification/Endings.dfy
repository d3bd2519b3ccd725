/** How a run of compiled code ends, compared with how the source it was compiled from ends. */
module Endings {
  import opened Kinds
  import opened CheckedArithmetic
  import opened Source
  import opened Machine
  import opened CodeGen
  import opened Represent
  import opened Execution

  datatype Verdict = Goes(out: Output) | Fails(out: Output) | Times(out: Output)

  function Judge(r: Valued): Verdict
  {
    match r
    case Value(_, o) => Goes(o)
    case Wrong(o) => Fails(o)
    case Timeout(o) => Times(o)
  }

  function JudgeList(r: Listed): Verdict
  {
    match r
    case Values(_, o) => Goes(o)
    case WrongList(o) => Fails(o)
    case TimeoutList(o) => Times(o)
  }

  function JudgeEnd(e: Ended): Verdict
  {
    match e
    case Failed(o) => Fails(o)
    case OutOfTime(o) => Times(o)
    case _ => Goes(e.out)
  }

  function Preceded(o: Output, v: Verdict): Verdict
  {
    match v
    case Goes(o') => Goes(o + o')
    case Fails(o') => Fails(o + o')
    case Times(o') => Times(o + o')
  }

  /** The run stopped before its end: at the stack limit, in the arithmetic failure the source has
      too, or after at least `fuel` steps where the source ran out of fuel. */
  ghost predicate Early(code: Code, m: Registers, n: nat, fuel: nat, v: Verdict)
  {
    var s := Run(code, On(m), n);
    || (s.Off? && s.reason == StackFailure && m.out <= s.out <= m.out + v.out)
    || (v.Fails? && s == Off(ArithmeticFailure, m.out + v.out))
    || (v.Times? && n >= fuel && s.On? && s.m.out == m.out + v.out)
  }

  lemma EarlyFirst(code: Code, m: Registers, n: nat, fuel: nat, v: Verdict, v': Verdict, more: Output)
    requires Early(code, m, n, fuel, v) && v.Goes? && v'.out == v.out + more
    ensures Early(code, m, n, fuel, v')
  {
    assert m.out + v'.out == (m.out + v.out) + more;
  }

  lemma EarlyLater(code: Code, m: Registers, n: nat, m1: Registers, o: Output, n1: nat, inner: nat, fuel: nat,
                   v: Verdict)
    requires Run(code, On(m), n) == On(m1) && m1.out == m.out + o
    requires Early(code, m1, n1, inner, v) && fuel <= n + inner
    ensures Early(code, m, n + n1, fuel, Preceded(o, v))
  {
    hide Run;
    Continue'(code, m, n, m1, n1);
    assert m1.out + v.out == m.out + Preceded(o, v).out;
  }

  // ----- expressions -----

  /** Control moved to `next` with the value in the accumulator and everything else in place. */
  predicate Arrived(m: Registers, m': Registers, k: Kind, v: int, o: Output, next: nat)
  {
    && m'.pc == next && m'.mem == m.mem && m'.stack == m.stack && m'.out == m.out + o
    && InRange(k, v) && Represents(k, v, m'.eax)
  }

  ghost predicate ExprEnds(code: Code, m: Registers, n: nat, m': Registers, fuel: nat, r: Valued, k: Kind, next: nat)
  {
    || Early(code, m, n, fuel, Judge(r))
    || (r.Value? && Run(code, On(m), n) == On(m') && Arrived(m, m', k, r.value, r.out, next))
  }

  /** One more run of code after a value arrived. */
  lemma ArrivedThen(code: Code, m: Registers, n: nat, m1: Registers, k: Kind, v: int, o: Output, next: nat, n1: nat,
                    m2: Registers, k2: Kind, v2: int, o2: Output, next2: nat)
    requires Run(code, On(m), n) == On(m1) && Arrived(m, m1, k, v, o, next)
    requires Run(code, On(m1), n1) == On(m2) && Arrived(m1, m2, k2, v2, o2, next2)
    ensures Run(code, On(m), n + n1) == On(m2) && Arrived(m, m2, k2, v2, o + o2, next2)
  {
    hide Run, InRange, Represents;
    Continue'(code, m, n, m1, n1);
    assert m.out + (o + o2) == m.out + o + o2;
  }

  lemma MovedRepresents(k: Kind, v: int, from: Word, to: Word)
    requires InRange(k, v) && Represents(k, v, from)
    ensures Represents(k, v, Moved(Wide(k), from, to))
  {
    if !Wide(k) { LowOfSetLow(to, Low(from)); }
  }

  /** The word a push of the accumulator leaves on the stack. */
  function Pushed(k: Kind, eax: Word): Word
  {
    if Wide(k) then eax else Low(eax)
  }

  lemma PushedRepresents(k: Kind, v: int, eax: Word)
    requires InRange(k, v) && Represents(k, v, eax)
    ensures Represents(k, v, Pushed(k, eax)) && Pushed(k, eax) == Encoded(k, v)
  {
  }

  lemma LiteralEnds(code: Code, m: Registers, v: nat, k: Kind) returns (m': Registers)
    requires At(code, m.pc, [if Wide(k) then Full(v) else Narrow(v)]) && InRange(k, v)
    ensures Run(code, On(m), 1) == On(m') && Arrived(m, m', k, v, [], m.pc + 1)
  {
    AtOnly(code, m.pc, if Wide(k) then Full(v) else Narrow(v));
    OneStep(code, m);
    if !Wide(k) { LowOfSetLow(m.eax, v); }
    m' := m.(pc := m.pc + 1, eax := if Wide(k) then v else SetLow(m.eax, v));
  }

  lemma MinimumEnds(code: Code, m: Registers) returns (m': Registers)
    requires At(code, m.pc, [Full(TWO_31)])
    ensures Run(code, On(m), 1) == On(m') && Arrived(m, m', I32, -TWO_31, [], m.pc + 1)
  {
    AtOnly(code, m.pc, Full(TWO_31));
    OneStep(code, m);
    m' := m.(pc := m.pc + 1, eax := TWO_31);
  }

  lemma VariableEnds(code: Code, m: Registers, l: Local, v: int) returns (m': Registers)
    requires At(code, m.pc, [Load(l)]) && SlotHolds(m.mem, l, v)
    ensures Run(code, On(m), 1) == On(m') && Arrived(m, m', l.kind, v, [], m.pc + 1)
  {
    AtOnly(code, m.pc, Load(l));
    OneStep(code, m);
    LoadRepresents(m.mem, l, v, m.eax);
    m' := m.(pc := m.pc + 1, eax := Loaded(m.mem, l, m.eax));
  }

  lemma InvertEnds(code: Code, m: Registers, v: int) returns (m': Registers)
    requires At(code, m.pc, [Invert]) && InRange(Bool, v) && Represents(Bool, v, m.eax)
    ensures Run(code, On(m), 1) == On(m') && Arrived(m, m', Bool, 1 - v, [], m.pc + 1)
  {
    AtOnly(code, m.pc, Invert);
    OneStep(code, m);
    LowOfSetLow(m.eax, Numeral(Low(m.eax) == 0));
    m' := m.(pc := m.pc + 1, eax := SetLow(m.eax, Numeral(Low(m.eax) == 0)));
  }

  /** The result of an instruction that may trap. */
  lemma ResultEnds(code: Code, at: nat, m: Registers, k: Kind, r: Result, f: Fitted, fuel: nat, after: State)
      returns (n: nat, m': Registers)
    requires Routines(code, at) && Agrees(k, r, f) && (f.Fits? ==> InRange(k, f.value)) && m.pc < |code|
             && Run(code, On(m), 1) == after
    requires match WithResult(code, m, r)
             case On(w) => after.On? && after.m == w.(ecx := after.m.ecx)
             case _ => false
    ensures ExprEnds(code, m, n, m', fuel, match f case Fits(v) => Value(v, []) case NoFit => Wrong([]), k, m.pc + 1)
  {
    hide Run, Target, Routines, Represents, InRange;
    m' := after.m;
    if f.Fits? {
      n := 1;
      assert m.out + [] == m.out;
    } else {
      n := 3;
      Continue'(code, m, 1, m', 2);
      ArithmeticStops(code, at, m');
      assert m.out + [] == m.out;
    }
  }

  lemma MinusEnds(code: Code, at: nat, m: Registers, v: int, fuel: nat) returns (n: nat, m': Registers)
    requires Routines(code, at) && At(code, m.pc, [Minus]) && InRange(I32, v) && Represents(I32, v, m.eax)
    ensures ExprEnds(code, m, n, m', fuel, if InRange(I32, -v) then Value(-v, []) else Wrong([]), I32, m.pc + 1)
  {
    hide Routines, Target, X86Negate;
    AtOnly(code, m.pc, Minus);
    OneStep(code, m);
    NegateCorrect(v, m.eax);
    var f := Fit(I32, -v);
    n, m' := ResultEnds(code, at, m, I32, X86Negate(m.eax), f, fuel, Run(code, On(m), 1));
  }

  lemma OperateEnds(code: Code, at: nat, m: Registers, op: Operator, k: Kind, x: int, y: int, fuel: nat)
      returns (n: nat, m': Registers)
    requires Routines(code, at) && m.pc < |code| && code[m.pc] == Operate(op, k) && Numeric(k)
    requires InRange(k, x) && InRange(k, y) && Represents(k, x, m.eax) && Represents(k, y, m.ebx)
    ensures ExprEnds(code, m, n, m', fuel,
                     match Checked(op, k, x, y) case Fits(v) => Value(v, []) case NoFit => Wrong([]), k, m.pc + 1)
  {
    CheckedInRange(op, k, x, y);
    X86Correct(op, k, x, y, m.eax, m.ebx);
    OneStep(code, m);
    hide Routines, Target, X86, Represents, Checked, InRange, SignSpread, ProductLow, Early;
    n, m' := ResultEnds(code, at, m, k, X86(op, k, m.eax, m.ebx), Checked(op, k, x, y), fuel, Run(code, On(m), 1));
  }

  lemma CheckedInRange(op: Operator, k: Kind, x: int, y: int)
    ensures Checked(op, k, x, y).Fits? ==> InRange(k, Checked(op, k, x, y).value)
  {
  }

  lemma TestEnds(code: Code, m: Registers, c: Comparison, k: Kind, x: int, y: int) returns (m': Registers)
    requires m.pc < |code| && code[m.pc] == Test(c, k)
    requires InRange(k, x) && InRange(k, y) && Represents(k, x, m.eax) && Represents(k, y, m.ebx)
    ensures Run(code, On(m), 1) == On(m') && Arrived(m, m', Bool, Numeral(Holds(c, x, y)), [], m.pc + 1)
  {
    CompareCorrect(c, k, x, y, m.eax, m.ebx);
    hide X86Compare, Holds;
    OneStep(code, m);
    LowOfSetLow(m.eax, Numeral(Holds(c, x, y)));
    m' := m.(pc := m.pc + 1, eax := SetLow(m.eax, Numeral(Holds(c, x, y))));
  }

  /** Pushing the accumulator. */
  lemma PushEnds(code: Code, m: Registers, k: Kind) returns (m': Registers)
    requires m.pc < |code| && code[m.pc] == Push(Wide(k)) && Depth(m.stack) + StackBytes(k) <= STACK_BYTES
    ensures Run(code, On(m), 1) == On(m')
    ensures m' == m.(pc := m.pc + 1, stack := m.stack + [Cell(StackBytes(k), Pushed(k, m.eax))])
    ensures Depth(m'.stack) == Depth(m.stack) + StackBytes(k)
  {
    hide Depth;
    OneStep(code, m);
    m' := m.(pc := m.pc + 1, stack := m.stack + [Cell(StackBytes(k), Pushed(k, m.eax))]);
    DepthPush(m.stack, Cell(StackBytes(k), Pushed(k, m.eax)));
  }

  /** The right operand moves aside and the left one comes back. */
  lemma OperandsMeet(code: Code, m: Registers, k: Kind, x: int, y: int, left: Word, base: seq<Entry>, last: Instr)
      returns (m': Registers)
    requires At(code, m.pc, [ToSecondary(Wide(k)), Pop(Wide(k)), last])
    requires m.stack == base + [Cell(StackBytes(k), left)]
    requires InRange(k, x) && InRange(k, y) && Represents(k, x, left) && Represents(k, y, m.eax)
    ensures Run(code, On(m), 2) == On(m') && m'.pc < |code| && code[m'.pc] == last
    ensures m' == m.(pc := m.pc + 2, stack := base, eax := m'.eax, ebx := m'.ebx)
    ensures Represents(k, x, m'.eax) && Represents(k, y, m'.ebx)
  {
    hide Represents, InRange, Depth;
    assert [ToSecondary(Wide(k)), Pop(Wide(k)), last] == [ToSecondary(Wide(k))] + ([Pop(Wide(k))] + [last]);
    AtHead(code, m.pc, ToSecondary(Wide(k)), [Pop(Wide(k))] + [last]);
    AtHead(code, m.pc + 1, Pop(Wide(k)), [last]);
    AtOnly(code, m.pc + 2, last);
    MovedRepresents(k, y, m.eax, m.ebx);
    MovedRepresents(k, x, left, m.eax);
    hide Moved;
    var m1 := m.(pc := m.pc + 1, ebx := Moved(Wide(k), m.eax, m.ebx));
    OneStep(code, m);
    assert Run(code, On(m), 1) == On(m1);
    OneStep(code, m1);
    assert m1.stack[..|m1.stack| - 1] == base;
    m' := m1.(pc := m.pc + 2, eax := Moved(Wide(k), left, m.eax), stack := base);
    assert Run(code, On(m1), 1) == On(m');
    Continue'(code, m, 1, m1, 1);
  }

  // ----- short circuits -----

  function Bail(either: bool, shortcut: nat): Instr
  {
    if either then JumpIfNonzero(shortcut) else JumpIfZero(shortcut)
  }

  function Rejoin(either: bool, shortcut: nat): Code
  {
    [Jump(shortcut + 1), Mark(shortcut), Narrow(Numeral(either)), Mark(shortcut + 1)]
  }

  lemma RejoinAt(code: Code, pc: nat, either: bool, shortcut: nat)
    requires UniqueMarks(code) && At(code, pc, Rejoin(either, shortcut))
    ensures pc + 4 <= |code| && code[pc] == Jump(shortcut + 1) && code[pc + 1] == Mark(shortcut)
    ensures code[pc + 2] == Narrow(Numeral(either)) && code[pc + 3] == Mark(shortcut + 1)
    ensures Target(code, shortcut) == pc + 1 && Target(code, shortcut + 1) == pc + 3
  {
    hide Target, UniqueMarks;
    var part := code[pc..pc + 4];
    assert part == Rejoin(either, shortcut);
    assert code[pc] == part[0] && code[pc + 1] == part[1] && code[pc + 2] == part[2] && code[pc + 3] == part[3];
    TargetOfMark(code, pc + 1);
    TargetOfMark(code, pc + 3);
  }

  /** The left operand decided: jump over the right one and produce the constant. */
  lemma ShortDecides(code: Code, m: Registers, b: Code, either: bool, shortcut: nat) returns (m': Registers)
    requires UniqueMarks(code) && At(code, m.pc, [Bail(either, shortcut)] + (b + Rejoin(either, shortcut)))
    requires (Low(m.eax) != 0) == either
    ensures Run(code, On(m), 4) == On(m') && Arrived(m, m', Bool, Numeral(either), [], m.pc + 1 + |b| + 4)
  {
    hide Run, Target, UniqueMarks, At;
    AtHead(code, m.pc, Bail(either, shortcut), b + Rejoin(either, shortcut));
    AtSplit(code, m.pc + 1, b, Rejoin(either, shortcut));
    var p := m.pc + 1 + |b|;
    RejoinAt(code, p, either, shortcut);
    LowOfSetLow(m.eax, Numeral(either));
    var m1 := m.(pc := p + 1);
    OneStep(code, m);
    var m2 := m.(pc := p + 2);
    OneStep(code, m1);
    Continue'(code, m, 1, m1, 1);
    hide Low;
    var m3 := m.(pc := p + 3, eax := SetLow(m.eax, Numeral(either)));
    OneStep(code, m2);
    Continue'(code, m, 2, m2, 1);
    m' := m3.(pc := p + 4);
    OneStep(code, m3);
    Continue'(code, m, 3, m3, 1);
  }

  lemma ShortPasses(code: Code, m: Registers, b: Code, either: bool, shortcut: nat) returns (m': Registers)
    requires At(code, m.pc, [Bail(either, shortcut)] + (b + Rejoin(either, shortcut))) && (Low(m.eax) != 0) != either
    ensures Run(code, On(m), 1) == On(m') && m' == m.(pc := m.pc + 1)
    ensures At(code, m'.pc, b) && At(code, m'.pc + |b|, Rejoin(either, shortcut))
  {
    hide Run, Target, At;
    AtHead(code, m.pc, Bail(either, shortcut), b + Rejoin(either, shortcut));
    AtSplit(code, m.pc + 1, b, Rejoin(either, shortcut));
    OneStep(code, m);
    m' := m.(pc := m.pc + 1);
  }

  lemma ShortJoins(code: Code, m: Registers, either: bool, shortcut: nat, v: int) returns (m': Registers)
    requires UniqueMarks(code) && At(code, m.pc, Rejoin(either, shortcut)) && InRange(Bool, v)
             && Represents(Bool, v, m.eax)
    ensures Run(code, On(m), 2) == On(m') && Arrived(m, m', Bool, v, [], m.pc + 4)
  {
    hide Run, Target, UniqueMarks, At, Represents;
    RejoinAt(code, m.pc, either, shortcut);
    var m1 := m.(pc := m.pc + 3);
    OneStep(code, m);
    m' := m.(pc := m.pc + 4);
    OneStep(code, m1);
    Continue'(code, m, 1, m1, 1);
  }
}
