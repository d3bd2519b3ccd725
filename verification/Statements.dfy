/** How a run of a compiled statement ends, and the parts of statements that run straight through. */
module Statements {
  import opened Kinds
  import opened CheckedArithmetic
  import opened Source
  import opened Machine
  import opened CodeGen
  import opened Represent
  import opened Execution
  import opened Endings
  import opened CallFrames

  /** The environment is represented again, only this function's slots changed, the stack is balanced. */
  ghost predicate Settled(c: Context, m: Registers, m': Registers, scopes: Scopes<Local>, env: Environment, o: Output)
  {
    Reps(scopes, env, m'.mem) && FrameOnly(m.mem, m'.mem, c.frame) && m'.stack == m.stack && m'.out == m.out + o
  }

  predicate Linked'(stack: seq<Entry>)
  {
    stack != [] && stack[|stack| - 1].Link?
  }

  /** The function returned to its caller with its result in the accumulator. */
  ghost predicate Left(c: Context, m: Registers, m': Registers, vs: seq<int>, o: Output)
  {
    && Linked'(m.stack) && m'.pc == m.stack[|m.stack| - 1].pc && m'.stack == m.stack[..|m.stack| - 1]
    && FrameOnly(m.mem, m'.mem, c.frame) && m'.out == m.out + o && ResultOk(c.returning, vs, m'.eax)
  }

  ghost predicate Ends(code: Code, c: Context, m: Registers, n: nat, m': Registers, fuel: nat, r: Ended,
                       scopes: Scopes<Local>, next: nat)
  {
    || Early(code, m, n, fuel, JudgeEnd(r))
    || match r
       case Normal(env, o) => Run(code, On(m), n) == On(m') && m'.pc == next && Settled(c, m, m', scopes, env, o)
       case Broke(env, o) =>
         c.inLoop && Run(code, On(m), n) == On(m') && m'.pc == Target(code, c.breakTo)
             && Settled(c, m, m', scopes, env, o)
       case Continued(env, o) =>
         c.inLoop && Run(code, On(m), n) == On(m') && m'.pc == Target(code, c.continueTo)
             && Settled(c, m, m', scopes, env, o)
       case Returned(vs, o) =>
         if c.main then Run(code, On(m), n) == Off(Halted, m.out + o)
         else Run(code, On(m), n) == On(m') && Left(c, m, m', vs, o)
       case _ => false
  }

  /** Code before a statement that left the frame and the stack as this function may. */
  lemma EndsLater(code: Code, c: Context, m: Registers, n1: nat, m1: Registers, o: Output, n2: nat, m2: Registers,
                  inner: nat, fuel: nat, r: Ended, scopes: Scopes<Local>, next: nat)
    requires Run(code, On(m), n1) == On(m1) && m1.stack == m.stack && m1.out == m.out + o
             && FrameOnly(m.mem, m1.mem, c.frame)
    requires Ends(code, c, m1, n2, m2, inner, r, scopes, next) && fuel <= n1 + inner
    ensures Ends(code, c, m, n1 + n2, m2, fuel, Then(o, r), scopes, next)
  {
    hide Run, Reps, FrameOnly, Target, ResultOk, Early;
    Continue'(code, m, n1, m1, n2);
    if Early(code, m1, n2, inner, JudgeEnd(r)) {
      EarlyLater(code, m, n1, m1, o, n2, inner, fuel, JudgeEnd(r));
    } else {
      assert m.out + (o + r.out) == m.out + o + r.out;
      if !(r.Returned? && c.main) { FrameOnlyTransitive(m.mem, m1.mem, m2.mem, c.frame); }
    }
  }

  /** An expression that stopped early stops the statement it belongs to. */
  lemma EndsEarly(code: Code, c: Context, m: Registers, n: nat, m': Registers, fuel: nat, v: Verdict, r: Ended,
                  scopes: Scopes<Local>, next: nat)
    requires Early(code, m, n, fuel, v)
    requires match v
             case Goes(o) => o <= r.out
             case _ => JudgeEnd(r) == v
    ensures Ends(code, c, m, n, m', fuel, r, scopes, next)
  {
    hide Early;
    if v.Goes? {
      EarlyFirst(code, m, n, fuel, v, JudgeEnd(r), r.out[|v.out|..]);
    }
  }

  // ----- stores -----

  lemma SaveDeclares(code: Code, c: Context, m: Registers, fuel: nat, x: string, k: nat, v: int, env: Environment)
      returns (m': Registers)
    requires c.scopes != [] && Reps(c.scopes, env, m.mem) && Placed(c.scopes, c.frame, k) && FrameOk(c.frame)
             && k < |c.frame|
    requires At(code, m.pc, [Save(c.frame[k])])
    requires InRange(c.frame[k].kind, v) && Represents(c.frame[k].kind, v, m.eax)
    ensures Ends(code, c, m, 1, m', fuel, Normal(Declare(env, x, v), []), Declare(c.scopes, x, c.frame[k]), m.pc + 1)
  {
    hide Represents, InRange, Reps, WriteLocal, Declare;
    AtOnly(code, m.pc, Save(c.frame[k]));
    OneStep(code, m);
    DeclareReps(c.scopes, env, m.mem, x, c.frame[k], v, m.eax);
    WriteFrameOnly(m.mem, c.frame[k], m.eax, c.frame);
    m' := m.(pc := m.pc + 1, mem := WriteLocal(m.mem, c.frame[k], m.eax));
    assert m.out + [] == m.out;
  }

  lemma SlotInFrame(scopes: Scopes<Local>, frame: seq<Local>, k: nat, env: Environment, mem: Memory, x: string)
    requires Placed(scopes, frame, k) && FrameOk(frame) && Reps(scopes, env, mem) && Lookup(scopes, x) != []
    ensures Lookup(scopes, x)[0] in frame && Fits'(Lookup(scopes, x)[0]) && Separate(scopes)
  {
    hide Lookup, SlotHolds;
    var i := LookupReps(scopes, env, mem, x);
    assert Bound(scopes, i, x);
  }

  lemma SaveAssigns(code: Code, c: Context, m: Registers, fuel: nat, x: string, k: nat, v: int, env: Environment)
      returns (m': Registers)
    requires Lookup(c.scopes, x) != [] && Reps(c.scopes, env, m.mem) && Placed(c.scopes, c.frame, k) && FrameOk(c.frame)
    requires var l := Lookup(c.scopes, x)[0];
             At(code, m.pc, [Save(l)]) && InRange(l.kind, v) && Represents(l.kind, v, m.eax)
    ensures Ends(code, c, m, 1, m', fuel, Normal(Update(env, x, v), []), c.scopes, m.pc + 1)
  {
    hide Represents, InRange, Reps, WriteLocal, Update, Lookup, FrameOnly, FrameOk, Fits';
    var l := Lookup(c.scopes, x)[0];
    SlotInFrame(c.scopes, c.frame, k, env, m.mem, x);
    AtOnly(code, m.pc, Save(l));
    OneStep(code, m);
    UpdateReps(c.scopes, env, m.mem, x, v, m.eax);
    WriteFrameOnly(m.mem, l, m.eax, c.frame);
    m' := m.(pc := m.pc + 1, mem := WriteLocal(m.mem, l, m.eax));
    assert m.out + [] == m.out;
  }

  /** The value moves aside and the variable's own value becomes the left operand. */
  lemma CompoundLoads(code: Code, m: Registers, l: Local, held: int, v: int) returns (m': Registers)
    requires m.pc + 1 < |code| && code[m.pc] == ToSecondary(Wide(l.kind)) && code[m.pc + 1] == Load(l)
    requires SlotHolds(m.mem, l, held) && InRange(l.kind, v) && Represents(l.kind, v, m.eax)
    ensures Run(code, On(m), 2) == On(m') && m' == m.(pc := m.pc + 2, eax := m'.eax, ebx := m'.ebx)
    ensures Represents(l.kind, held, m'.eax) && Represents(l.kind, v, m'.ebx)
  {
    MovedRepresents(l.kind, v, m.eax, m.ebx);
    LoadRepresents(m.mem, l, held, m.eax);
    hide Represents, InRange, Moved, ReadLocal;
    var m1 := m.(pc := m.pc + 1, ebx := Moved(Wide(l.kind), m.eax, m.ebx));
    OneStep(code, m);
    assert Run(code, On(m), 1) == On(m1);
    hide Wide;
    OneStep(code, m1);
    m' := m1.(pc := m.pc + 2, eax := Loaded(m.mem, l, m.eax));
    assert Run(code, On(m1), 1) == On(m');
    Continue'(code, m, 1, m1, 1);
  }

  // ----- output -----

  lemma ShowRuns(code: Code, c: Context, m: Registers, fuel: nat, k: Kind, v: int, env: Environment)
      returns (m': Registers)
    requires At(code, m.pc, [Show(k)]) && InRange(k, v) && Represents(k, v, m.eax) && Reps(c.scopes, env, m.mem)
    ensures Ends(code, c, m, 1, m', fuel, Normal(env, [Number(k, v)]), c.scopes, m.pc + 1)
  {
    assert Shown(k, m.eax) == v by { if k == I32 { SignedOf(v, m.eax); } }
    hide Shown, Represents, Reps;
    AtOnly(code, m.pc, Show(k));
    OneStep(code, m);
    FrameOnlySame(m.mem, c.frame);
    m' := m.(pc := m.pc + 1, out := m.out + [Number(k, v)]);
  }

  lemma ShowTextRuns(code: Code, c: Context, m: Registers, fuel: nat, text: string, env: Environment)
      returns (m': Registers)
    requires At(code, m.pc, [ShowText(text)]) && Reps(c.scopes, env, m.mem)
    ensures Ends(code, c, m, 1, m', fuel, Normal(env, [Text(text)]), c.scopes, m.pc + 1)
  {
    hide Reps;
    AtOnly(code, m.pc, ShowText(text));
    OneStep(code, m);
    FrameOnlySame(m.mem, c.frame);
    m' := m.(pc := m.pc + 1, out := m.out + [Text(text)]);
  }

  // ----- jumps -----

  lemma JumpRuns(code: Code, m: Registers, tag: nat)
    requires At(code, m.pc, [Jump(tag)])
    ensures Run(code, On(m), 1) == On(m.(pc := Target(code, tag)))
  {
    AtOnly(code, m.pc, Jump(tag));
    OneStep(code, m);
  }

  lemma MarkRuns(code: Code, m: Registers)
    requires m.pc < |code| && code[m.pc].Mark?
    ensures Run(code, On(m), 1) == On(m.(pc := m.pc + 1))
  {
    OneStep(code, m);
  }

  lemma BranchRuns(code: Code, m: Registers, tag: nat, v: int)
    requires m.pc < |code| && code[m.pc] == JumpIfZero(tag) && InRange(Bool, v) && Represents(Bool, v, m.eax)
    ensures Run(code, On(m), 1) == On(m.(pc := if v == 0 then Target(code, tag) else m.pc + 1))
  {
    OneStep(code, m);
  }

  lemma LeavesLoop(code: Code, c: Context, m: Registers, fuel: nat, breaking: bool, env: Environment)
      returns (m': Registers)
    requires c.inLoop && At(code, m.pc, [Jump(if breaking then c.breakTo else c.continueTo)])
             && Reps(c.scopes, env, m.mem)
    ensures Ends(code, c, m, 1, m', fuel, if breaking then Broke(env, []) else Continued(env, []), c.scopes, m.pc + 1)
  {
    hide Reps, Run;
    m' := m.(pc := Target(code, if breaking then c.breakTo else c.continueTo));
    JumpRuns(code, m, if breaking then c.breakTo else c.continueTo);
    FrameOnlySame(m.mem, c.frame);
    assert m.out + [] == m.out;
  }

  lemma RetRuns(code: Code, c: Context, m: Registers, fuel: nat, vs: seq<int>, scopes: Scopes<Local>)
      returns (m': Registers)
    requires m.pc < |code| && code[m.pc] == Ret && Linked'(m.stack) && ResultOk(c.returning, vs, m.eax) && !c.main
    ensures Ends(code, c, m, 1, m', fuel, Returned(vs, []), scopes, m.pc + 1)
  {
    hide ResultOk;
    OneStep(code, m);
    FrameOnlySame(m.mem, c.frame);
    m' := m.(pc := m.stack[|m.stack| - 1].pc, stack := m.stack[..|m.stack| - 1]);
    assert m.out + [] == m.out;
  }

  lemma HaltRuns(code: Code, at: nat, c: Context, m: Registers, fuel: nat, vs: seq<int>, scopes: Scopes<Local>,
                 next: nat)
    requires Routines(code, at) && At(code, m.pc, [Jump(HALT_LABEL)]) && c.main
    ensures Ends(code, c, m, 3, m, fuel, Returned(vs, []), scopes, next)
  {
    hide Run, Routines, Target;
    JumpRuns(code, m, HALT_LABEL);
    var m1 := m.(pc := Target(code, HALT_LABEL));
    Continue'(code, m, 1, m1, 2);
    HaltStops(code, at, m1);
    assert m.out + [] == m.out;
  }

  // ----- scopes of statement lists -----

  lemma AfterPlaced(c: Context, s: Stmt, k: nat)
    requires c.scopes != [] && Placed(c.scopes, c.frame, k) && FrameOk(c.frame) && StmtOk(c, s, k)
    ensures Placed(After(c, s, k).scopes, c.frame, k + |StmtLets(s)|) && After(c, s, k).scopes != []
    ensures After(c, s, k) == c.(scopes := After(c, s, k).scopes) && Outer(After(c, s, k).scopes) == Outer(c.scopes)
  {
    hide Placed, FrameOk;
    if s.Let? {
      DeclarePlaced(c.scopes, c.frame, k, s.name);
    } else {
      PlacedLater(c.scopes, c.frame, k, k + |StmtLets(s)|);
    }
  }

  lemma LeaveThen(o: Output, e: Ended)
    ensures Leave(Then(o, e)) == Then(o, Leave(e)) && JudgeEnd(Leave(e)) == JudgeEnd(e) && Leave(e).out == e.out
  {
  }

  /** Leaving a block forgets its scope. */
  lemma EndsOuter(code: Code, c: Context, m: Registers, n: nat, m': Registers, fuel: nat, r: Ended,
                  scopes: Scopes<Local>, next: nat)
    requires Ends(code, c, m, n, m', fuel, r, scopes, next)
    ensures Ends(code, c, m, n, m', fuel, Leave(r), Outer(scopes), next)
  {
    hide Run, Reps, FrameOnly, Target, Early, ResultOk;
    LeaveThen([], r);
    if !Early(code, m, n, fuel, JudgeEnd(r)) && !r.Returned? {
      OuterReps(scopes, r.env, m'.mem);
    }
  }

  /** Acceptance does not depend on which labels a loop was given. */
  lemma {:induction false} StmtOkAnyLabels(c: Context, s: Stmt, k: nat, a: nat, b: nat)
    requires StmtOk(c, s, k)
    ensures StmtOk(c.(continueTo := a, breakTo := b), s, k)
    decreases s, 1
  {
    hide KindOf, WithinReserve, Lookup, BlockLets;
    var d := c.(continueTo := a, breakTo := b);
    match s
    case If(e, x, y) =>
      BlockOkAnyLabels(Enter(c), x, k, a, b);
      BlockOkAnyLabels(Enter(c), y, k + |BlockLets(x)|, a, b);
    case While(e, body) => assert InLoop(d, 0) == InLoop(c, 0);
    case Loop(body) => assert InLoop(d, 0) == InLoop(c, 0);
    case _ =>
  }

  lemma {:induction false} BlockOkAnyLabels(c: Context, ss: seq<Stmt>, k: nat, a: nat, b: nat)
    requires BlockOk(c, ss, k)
    ensures BlockOk(c.(continueTo := a, breakTo := b), ss, k)
    decreases ss, 0
  {
    hide StmtOk;
    if ss != [] {
      StmtOkAnyLabels(c, ss[0], k, a, b);
      BlockOkAnyLabels(After(c, ss[0], k), ss[1..], k + |StmtLets(ss[0])|, a, b);
    }
  }

  // ----- conditionals and loops -----

  lemma IfLayout(code: Code, pc: nat, ce: Code, a: Code, b: Code, other: nat)
    requires UniqueMarks(code) && At(code, pc, IfCode(ce, a, b, other))
    ensures var (pj, pt, pe) := (pc + |ce|, pc + |ce| + 1 + |a|, pc + |ce| + 1 + |a| + 2 + |b|);
            && At(code, pc, ce) && At(code, pj + 1, a) && At(code, pt + 2, b) && pe < |code|
            && |IfCode(ce, a, b, other)| == pe + 1 - pc
            && code[pj] == JumpIfZero(other) && code[pt] == Jump(other + 1) && code[pt + 1] == Mark(other)
            && code[pe] == Mark(other + 1)
            && Target(code, other) == pt + 1 && Target(code, other + 1) == pe
  {
    hide At, UniqueMarks, Target;
    var rest := [Jump(other + 1), Mark(other)] + (b + [Mark(other + 1)]);
    var (pj, pt) := (pc + |ce|, pc + |ce| + 1 + |a|);
    AtSplit(code, pc, ce, [JumpIfZero(other)] + (a + rest));
    AtHead(code, pj, JumpIfZero(other), a + rest);
    AtSplit(code, pj + 1, a, rest);
    ElseLayout(code, pt, b, other);
  }

  lemma ElseLayout(code: Code, pt: nat, b: Code, other: nat)
    requires UniqueMarks(code) && At(code, pt, [Jump(other + 1), Mark(other)] + (b + [Mark(other + 1)]))
    ensures At(code, pt + 2, b) && pt + 2 + |b| < |code|
    ensures code[pt] == Jump(other + 1) && code[pt + 1] == Mark(other) && code[pt + 2 + |b|] == Mark(other + 1)
    ensures Target(code, other) == pt + 1 && Target(code, other + 1) == pt + 2 + |b|
  {
    hide At, UniqueMarks, Target;
    var turn := [Jump(other + 1), Mark(other)];
    AtSplit(code, pt, turn, b + [Mark(other + 1)]);
    AtPair(code, pt, Jump(other + 1), Mark(other));
    AtSplit(code, pt + 2, b, [Mark(other + 1)]);
    AtOnly(code, pt + 2 + |b|, Mark(other + 1));
    TargetOfMark(code, pt + 1);
    TargetOfMark(code, pt + 2 + |b|);
  }

  lemma AtPair(code: Code, pc: nat, i: Instr, j: Instr)
    requires At(code, pc, [i, j])
    ensures pc + 1 < |code| && code[pc] == i && code[pc + 1] == j
  {
    assert code[pc] == code[pc..pc + 2][0] && code[pc + 1] == code[pc..pc + 2][1];
  }

  lemma LoopLayout(code: Code, pc: nat, condition: Code, body: Code, t: nat)
    requires UniqueMarks(code) && At(code, pc, LoopCode(condition, body, t))
    ensures var (pb, pj) := (pc + 1 + |condition|, pc + 1 + |condition| + |body|);
            && At(code, pc + 1, condition) && At(code, pb, body) && pj + 1 < |code|
            && |LoopCode(condition, body, t)| == pj + 2 - pc
            && code[pc] == Mark(t) && code[pj] == Jump(t) && code[pj + 1] == Mark(t + 1)
            && Target(code, t) == pc && Target(code, t + 1) == pj + 1
  {
    hide At, UniqueMarks, Target;
    var tail := [Jump(t), Mark(t + 1)];
    var pb := pc + 1 + |condition|;
    AtHead(code, pc, Mark(t), condition + (body + tail));
    AtSplit(code, pc + 1, condition, body + tail);
    AtSplit(code, pb, body, tail);
    AtPair(code, pb + |body|, Jump(t), Mark(t + 1));
    TargetOfMark(code, pc);
    TargetOfMark(code, pb + |body| + 1);
  }

  /** How code ends does not depend on the names in scope before it. */
  lemma EndsScopes(code: Code, c: Context, inner: Scopes<Local>, m: Registers, n: nat, m': Registers, fuel: nat,
                   r: Ended, scopes: Scopes<Local>, next: nat)
    requires Ends(code, c.(scopes := inner), m, n, m', fuel, r, scopes, next)
    ensures Ends(code, c, m, n, m', fuel, r, scopes, next)
  {
    hide Run, Reps, FrameOnly, Target, Early, ResultOk;
  }

  /** Falling through to a little more code that only moves control. */
  lemma EndsMoves(code: Code, c: Context, m: Registers, n: nat, m': Registers, fuel: nat, r: Ended,
                  scopes: Scopes<Local>, next: nat, d: nat, next': nat)
    returns (n': nat, m'': Registers)
    requires Ends(code, c, m, n, m', fuel, r, scopes, next)
    requires m'.pc == next ==> Run(code, On(m'), d) == On(m'.(pc := next'))
    ensures Ends(code, c, m, n', m'', fuel, r, scopes, next')
  {
    hide Run, Reps, FrameOnly, Target, Early, ResultOk;
    n', m'' := n, m';
    if r.Normal? && !Early(code, m, n, fuel, JudgeEnd(r)) {
      Continue'(code, m, n, m', d);
      n', m'' := n + d, m'.(pc := next');
    }
  }

  lemma ThenThen(o: Output, o': Output, r: Ended)
    ensures Then(o + o', r) == Then(o, Then(o', r)) && Then([], r) == r
  {
    assert o + o' + r.out == o + (o' + r.out) && [] + r.out == r.out;
  }
}
