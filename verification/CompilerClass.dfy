/** The code generator as it works: one object whose buffer, labels, scopes and slots every method updates. */
module CompilerClass {
  import opened Kinds
  import opened CheckedArithmetic
  import opened Source
  import opened Machine
  import opened CodeGen
  import opened Represent
  import opened Allocation
  import opened Linking
  import opened Correctness
  import opened Statements
  import opened Simulation

  /** No label at or above `next` is bound yet. */
  predicate Below(code: Code, next: nat)
  {
    forall i :: 0 <= i < |code| && code[i].Mark? ==> code[i].tag < next
  }

  predicate Unbound(code: Code, tag: nat)
  {
    forall i :: 0 <= i < |code| ==> code[i] != Mark(tag)
  }

  lemma BelowUnbound(code: Code, next: nat, tag: nat)
    requires Below(code, next) && next <= tag
    ensures Unbound(code, tag)
  {
  }

  /** Code whose labels lie elsewhere leaves a label unbound. */
  lemma StaysUnbound(code: Code, part: Code, tag: nat, lo: nat, hi: nat)
    requires Unbound(code, tag) && MarksIn(part, lo, hi) && !(lo <= tag < hi)
    ensures Unbound(code + part, tag)
  {
  }

  lemma StaysBelow(code: Code, part: Code, next: nat, lo: nat, hi: nat)
    requires Below(code, next) && MarksIn(part, lo, hi) && next <= hi
    ensures Below(code + part, hi)
  {
  }

  /** A piece of code was appended, its labels taken from the next free ones. */
  predicate Emitted(before: Code, after: Code, part: Code, t: nat, t': nat, tags: nat)
  {
    after == before + part && t' == t + tags && Below(after, t')
  }

  lemma PlainEmitted(before: Code, part: Code, t: nat)
    requires Below(before, t) && Markless(part)
    ensures Emitted(before, before + part, part, t, t, 0)
  {
  }

  lemma EmittedPlain(before: Code, part: Code, more: Code, t: nat, t': nat, tags: nat, after: Code)
    requires Emitted(before, before + part, part, t, t', tags) && Markless(more) && after == before + part + more
    ensures Emitted(before, after, part + more, t, t', tags)
  {
    assert before + part + more == before + (part + more);
  }

  lemma BelowPlain(code: Code, i: Instr, t: nat)
    requires Below(code, t) && !i.Mark?
    ensures Below(code + [i], t)
  {
  }

  lemma BelowMore(code: Code, t: nat, t': nat)
    requires Below(code, t) && t <= t'
    ensures Below(code, t')
  {
  }

  lemma UnboundPlain(code: Code, i: Instr, tag: nat)
    requires Unbound(code, tag) && !i.Mark?
    ensures Unbound(code + [i], tag)
  {
  }

  lemma UnboundOther(code: Code, other: nat, tag: nat)
    requires Unbound(code, tag) && other != tag
    ensures Unbound(code + [Mark(other)], tag)
  {
  }

  lemma ShortcutUnbound(code: Code, bail: Instr, part: Code, shortcut: nat, hi: nat)
    requires Unbound(code, shortcut) && Unbound(code, shortcut + 1) && !bail.Mark? && MarksIn(part, shortcut + 2, hi)
    ensures Unbound(code + [bail] + part, shortcut) && Unbound(code + [bail] + part, shortcut + 1)
  {
  }

  // ----- shapes of expression code -----

  /** A call the generator accepts. */
  predicate Callable'(fns: Functions, scopes: Scopes<Local>, f: string, arguments: seq<Expr>)
  {
    Callable(fns, f, |arguments|) && ArgumentsOk(fns, scopes, arguments, fns[f].parameters)
  }

  lemma CallShape(fns: Functions, scopes: Scopes<Local>, e: Expr, t: nat)
    requires e.Call?
    ensures KindOf(fns, scopes, e) == if Callable'(fns, scopes, e.callee, e.arguments) then fns[e.callee].returning
                                      else Unit
    ensures Callable'(fns, scopes, e.callee, e.arguments) ==>
              CodeExpr(fns, scopes, e, t) == CodeCall(fns, scopes, fns[e.callee], e.arguments, t)
                  && Tags(e) == TagsAll(e.arguments)
  {
    hide CodeCall, ArgumentsOk, TagsAll;
  }

  lemma UnaryShape(fns: Functions, scopes: Scopes<Local>, e: Expr, t: nat)
    requires (e.Not? || e.Negate?) && !(e.Negate? && e.operand.Literal? && e.operand.value == TWO_31)
    ensures CodeExpr(fns, scopes, e, t) == CodeExpr(fns, scopes, e.operand, t) + [if e.Not? then Invert else Minus]
    ensures var wanted := if e.Not? then Scalar(Bool) else Scalar(I32);
            KindOf(fns, scopes, e) == if KindOf(fns, scopes, e.operand) == wanted then wanted else Unit
    ensures Tags(e) == Tags(e.operand)
  {
  }

  lemma OperationShape(fns: Functions, scopes: Scopes<Local>, e: Expr, t: nat)
    requires e.Arithmetic? || e.Compare?
    ensures CodeExpr(fns, scopes, e, t) ==
            BinaryCode(CodeExpr(fns, scopes, e.left, t), CodeExpr(fns, scopes, e.right, t + Tags(e.left)), Wide(e.kind),
                       if e.Arithmetic? then Operate(e.op, e.kind) else Test(e.comparison, e.kind))
    ensures Tags(e) == Tags(e.left) + Tags(e.right)
    ensures KindOf(fns, scopes, e) ==
            if KindOf(fns, scopes, e.left) == Scalar(e.kind) && KindOf(fns, scopes, e.right) == Scalar(e.kind)
               && (Numeric(e.kind) || (e.Compare? && (e.comparison == Equal || e.comparison == NotEqual)))
            then (if e.Arithmetic? then Scalar(e.kind) else Scalar(Bool)) else Unit
  {
    hide BinaryCode;
  }

  lemma ShortcutShape(fns: Functions, scopes: Scopes<Local>, e: Expr, t: nat)
    requires e.And? || e.Or?
    ensures CodeExpr(fns, scopes, e, t) ==
            ShortCode(CodeExpr(fns, scopes, e.left, t), CodeExpr(fns, scopes, e.right, t + Tags(e.left) + 2), e.Or?,
                      t + Tags(e.left))
    ensures Tags(e) == Tags(e.left) + 2 + Tags(e.right)
    ensures KindOf(fns, scopes, e) ==
            if KindOf(fns, scopes, e.left) == Scalar(Bool) && KindOf(fns, scopes, e.right) == Scalar(Bool)
            then Scalar(Bool) else Unit
  {
    hide ShortCode;
  }

  lemma BinaryAssembled(before: Code, a: Code, b: Code, wide: bool, last: Instr, after: Code)
    requires after == before + a + [Push(wide)] + b + [ToSecondary(wide)] + [Pop(wide)] + [last]
    ensures after == before + BinaryCode(a, b, wide, last)
  {
  }

  lemma ShortAssembled(before: Code, a: Code, b: Code, either: bool, shortcut: nat, after: Code)
    requires after == before + a + [if either then JumpIfNonzero(shortcut) else JumpIfZero(shortcut)] + b
                      + [Jump(shortcut + 1)] + [Mark(shortcut)] + [Narrow(Numeral(either))] + [Mark(shortcut + 1)]
    ensures after == before + ShortCode(a, b, either, shortcut)
  {
  }

  lemma ArgumentStep(fns: Functions, scopes: Scopes<Local>, es: seq<Expr>, parameters: seq<Local>, i: nat, t: nat,
                     before: Code)
    requires i < |es| == |parameters|
    ensures ArgumentsOk(fns, scopes, es[i..], parameters[i..]) ==
            (KindOf(fns, scopes, es[i]) == Scalar(parameters[i].kind)
             && ArgumentsOk(fns, scopes, es[i + 1..], parameters[i + 1..]))
    ensures before + CodeArguments(fns, scopes, es[i..], parameters[i..], t) ==
            before + CodeExpr(fns, scopes, es[i], t) + [Push(Wide(parameters[i].kind))]
            + CodeArguments(fns, scopes, es[i + 1..], parameters[i + 1..], t + Tags(es[i]))
    ensures TagsAll(es[i..]) == Tags(es[i]) + TagsAll(es[i + 1..])
  {
    hide CodeExpr, KindOf, Tags;
    assert es[i..][1..] == es[i + 1..] && parameters[i..][1..] == parameters[i + 1..];
  }

  lemma BelowMarkless(code: Code, part: Code, t: nat)
    requires Below(code, t) && Markless(part)
    ensures Below(code + part, t)
  {
  }

  lemma CallAssembled(before: Code, info: Info, args: Code, after: Code)
    requires after == before + [Guard(Required(info))] + SaveAll(info.frame) + args
                      + UnloadAll(info.parameters) + [CallLabel(info.tag)] + Keep(info) + UnloadAll(info.frame)
                          + Yield(info)
    ensures after == before + CallCode(info, args)
  {
    hide SaveAll, UnloadAll, Required, Keep, Yield;
  }

  lemma CallEmitted(fns: Functions, scopes: Scopes<Local>, info: Info, arguments: seq<Expr>, before: Code, after: Code,
                    t: nat, t': nat)
    requires Below(before, t) && after == before + CodeCall(fns, scopes, info, arguments, t)
             && t' == t + TagsAll(arguments)
    ensures Emitted(before, after, CodeCall(fns, scopes, info, arguments, t), t, t', TagsAll(arguments))
  {
    hide CodeCall, TagsAll;
    CallMarksIn(fns, scopes, info, arguments, t);
    StaysBelow(before, CodeCall(fns, scopes, info, arguments, t), t, t, t');
  }

  lemma ExprEmitted(fns: Functions, scopes: Scopes<Local>, e: Expr, before: Code, after: Code, t: nat, t': nat)
    requires Below(before, t) && after == before + CodeExpr(fns, scopes, e, t) && t' == t + Tags(e)
    ensures Emitted(before, after, CodeExpr(fns, scopes, e, t), t, t', Tags(e))
  {
    hide CodeExpr, Tags;
    ExprMarks(fns, scopes, e, t);
    StaysBelow(before, CodeExpr(fns, scopes, e, t), t, t, t');
  }

  lemma BelowMark(code: Code, tag: nat, t: nat)
    requires Below(code, tag) && tag < t
    ensures Below(code + [Mark(tag)], t)
  {
  }

  lemma BelowTurn(code: Code, alternate: nat, end: nat, t: nat)
    requires Below(code, t) && alternate < t
    ensures Below(code + [Jump(end)] + [Mark(alternate)], t)
  {
  }

  // ----- shapes of statement code -----

  lemma AssignAssembled(before: Code, l: Local, kind: Kind, assigning: Assigning, after: Code)
    requires match assigning
             case Plain => after == before + [Save(l)]
             case Compound(op) =>
               after == before + [ToSecondary(Wide(kind))] + [Load(l)] + [Operate(op, kind)] + [Save(l)]
    ensures after == before + AssignCode([], l, kind, assigning) && Markless(AssignCode([], l, kind, assigning))
  {
  }

  lemma AssignSplit(value: Code, l: Local, kind: Kind, assigning: Assigning)
    ensures AssignCode(value, l, kind, assigning) == value + AssignCode([], l, kind, assigning)
  {
  }

  /** A statement adds at most one name to the innermost scope. */
  lemma AfterContext(d: Context, s: Stmt, k: nat)
    requires d.scopes != []
    ensures After(d, s, k) == d.(scopes := After(d, s, k).scopes) && After(d, s, k).scopes != []
            && Outer(After(d, s, k).scopes) == Outer(d.scopes)
  {
  }

  /** The bindings from ordinal `k` on have their slots in the frame, under the function's name. */
  predicate Preallocated(slots: map<(string, nat), Local>, f: string, frame: seq<Local>, lets: seq<Kind>, k: nat)
  {
    k + |lets| <= |frame| && forall i: nat :: i < |lets| ==> SlotKnown(slots, f, frame[k + i], lets[i], k + i)
  }

  predicate SlotKnown(slots: map<(string, nat), Local>, f: string, l: Local, kind: Kind, ordinal: nat)
  {
    (f, ordinal) in slots && slots[(f, ordinal)] == l && l.kind == kind
  }

  lemma PreallocatedSplit(slots: map<(string, nat), Local>, f: string, frame: seq<Local>, a: seq<Kind>, b: seq<Kind>,
                          k: nat)
    requires Preallocated(slots, f, frame, a + b, k)
    ensures Preallocated(slots, f, frame, a, k) && Preallocated(slots, f, frame, b, k + |a|)
  {
    hide SlotKnown;
    forall i: nat | i < |a| ensures SlotKnown(slots, f, frame[k + i], a[i], k + i) {
      assert (a + b)[i] == a[i];
    }
    forall i: nat | i < |b| ensures SlotKnown(slots, f, frame[k + |a| + i], b[i], k + |a| + i) {
      assert (a + b)[|a| + i] == b[i];
      assert SlotKnown(slots, f, frame[k + (|a| + i)], (a + b)[|a| + i], k + (|a| + i));
    }
  }

  lemma BlockStep(d: Context, ss: seq<Stmt>, i: nat, k: nat, t: nat, before: Code)
    requires i < |ss|
    ensures var d' := After(d, ss[i], k);
            var k' := k + |StmtLets(ss[i])|;
            && BlockOk(d, ss[i..], k) == (StmtOk(d, ss[i], k) && BlockOk(d', ss[i + 1..], k'))
            && before + CodeBlock(d, ss[i..], k, t)
                == before + CodeStmt(d, ss[i], k, t) + CodeBlock(d', ss[i + 1..], k', t + StmtTags(ss[i]))
            && BlockTags(ss[i..]) == StmtTags(ss[i]) + BlockTags(ss[i + 1..])
            && BlockLets(ss[i..]) == StmtLets(ss[i]) + BlockLets(ss[i + 1..])
  {
    hide StmtOk, CodeStmt, StmtTags, StmtLets, After;
    assert ss[i..][1..] == ss[i + 1..];
  }

  /** What is emitted and accepted so far, plus what the statements from `i` on give, makes up the block. */
  predicate BlockSoFar(c: Context, ss: seq<Stmt>, k: nat, t: nat, before: Code, i: nat, d: Context, ordinal: nat,
                       labels: nat, code: Code)
    requires i <= |ss|
  {
    && BlockOk(c, ss, k) == BlockOk(d, ss[i..], ordinal)
    && before + CodeBlock(c, ss, k, t) == code + CodeBlock(d, ss[i..], ordinal, labels)
    && t + BlockTags(ss) == labels + BlockTags(ss[i..])
  }

  lemma BlockStarts(c: Context, ss: seq<Stmt>, k: nat, t: nat, before: Code)
    ensures BlockSoFar(c, ss, k, t, before, 0, c, k, t, before)
  {
    hide BlockOk, CodeBlock, BlockTags;
    assert ss[0..] == ss;
  }

  lemma BlockRefused(c: Context, ss: seq<Stmt>, k: nat, t: nat, before: Code, i: nat, d: Context, ordinal: nat,
                     labels: nat, code: Code)
    requires i < |ss| && BlockSoFar(c, ss, k, t, before, i, d, ordinal, labels, code) && !StmtOk(d, ss[i], ordinal)
    ensures !BlockOk(c, ss, k)
  {
    hide StmtOk, CodeStmt, StmtTags, StmtLets, After, BlockOk, CodeBlock, BlockTags, BlockLets;
    BlockStep(d, ss, i, ordinal, labels, code);
  }

  lemma BlockAdvances(c: Context, ss: seq<Stmt>, k: nat, t: nat, before: Code, i: nat, d: Context, ordinal: nat,
                      labels: nat, code: Code)
    requires i < |ss| && BlockSoFar(c, ss, k, t, before, i, d, ordinal, labels, code) && StmtOk(d, ss[i], ordinal)
    ensures BlockSoFar(c, ss, k, t, before, i + 1, After(d, ss[i], ordinal), ordinal + |StmtLets(ss[i])|,
                       labels + StmtTags(ss[i]), code + CodeStmt(d, ss[i], ordinal, labels))
  {
    hide StmtOk, CodeStmt, StmtTags, StmtLets, After, BlockOk, CodeBlock, BlockTags, BlockLets;
    BlockStep(d, ss, i, ordinal, labels, code);
  }

  lemma BlockEnds(c: Context, ss: seq<Stmt>, k: nat, t: nat, before: Code, d: Context, ordinal: nat, labels: nat,
                  code: Code)
    requires BlockSoFar(c, ss, k, t, before, |ss|, d, ordinal, labels, code)
    ensures BlockOk(c, ss, k) && code == before + CodeBlock(c, ss, k, t) && labels == t + BlockTags(ss)
  {
    hide StmtOk, CodeStmt, StmtTags, StmtLets, After;
    assert ss[|ss|..] == [] && code + [] == code;
  }

  lemma RestPreallocated(slots: map<(string, nat), Local>, f: string, frame: seq<Local>, ss: seq<Stmt>, i: nat, k: nat)
    requires i < |ss| && Preallocated(slots, f, frame, BlockLets(ss[i..]), k)
    ensures Preallocated(slots, f, frame, StmtLets(ss[i]), k)
    ensures Preallocated(slots, f, frame, BlockLets(ss[i + 1..]), k + |StmtLets(ss[i])|)
  {
    hide Preallocated, StmtLets;
    assert ss[i..][1..] == ss[i + 1..];
    PreallocatedSplit(slots, f, frame, StmtLets(ss[i]), BlockLets(ss[i + 1..]), k);
  }

  lemma StmtEmitted(c: Context, s: Stmt, k: nat, before: Code, after: Code, t: nat, t': nat)
    requires Below(before, t) && after == before + CodeStmt(c, s, k, t) && t' == t + StmtTags(s)
    ensures Emitted(before, after, CodeStmt(c, s, k, t), t, t', StmtTags(s))
  {
    hide CodeStmt, StmtTags;
    StmtMarks(c, s, k, t);
    StaysBelow(before, CodeStmt(c, s, k, t), t, t, t');
  }

  lemma IfShape(c: Context, s: Stmt, k: nat, t: nat)
    requires s.If?
    ensures var (other, k') := (t + Tags(s.condition), k + |BlockLets(s.thenBranch)|);
            && CodeStmt(c, s, k, t) == IfCode(CodeExpr(c.fns, c.scopes, s.condition, t),
                                              CodeBlock(Enter(c), s.thenBranch, k, other + 2),
                                              CodeBlock(Enter(c), s.elseBranch, k',
                                                        other + 2 + BlockTags(s.thenBranch)), other)
            && StmtTags(s) == Tags(s.condition) + 2 + BlockTags(s.thenBranch) + BlockTags(s.elseBranch)
            && StmtLets(s) == BlockLets(s.thenBranch) + BlockLets(s.elseBranch)
            && StmtOk(c, s, k) == (ExprOk(c, s.condition, Bool) && BlockOk(Enter(c), s.thenBranch, k)
                                   && BlockOk(Enter(c), s.elseBranch, k'))
            && After(c, s, k) == c
  {
    hide IfCode, CodeBlock, BlockOk, BlockTags, BlockLets;
  }

  lemma IfAssembled(before: Code, condition: Code, a: Code, b: Code, other: nat, after: Code)
    requires after == before + condition + [JumpIfZero(other)] + a + [Jump(other + 1)] + [Mark(other)] + b
             + [Mark(other + 1)]
    ensures after == before + IfCode(condition, a, b, other)
  {
  }

  lemma LoopShape(c: Context, s: Stmt, k: nat, t: nat, condition: seq<Expr>)
    requires s.While? || s.Loop?
    requires condition == if s.While? then [s.condition] else []
    ensures CodeStmt(c, s, k, t) == WholeLoop(c, condition, s.body, k, t)
    ensures StmtTags(s) == BodyTag(condition, t) - t + BlockTags(s.body) && StmtLets(s) == BlockLets(s.body)
            && After(c, s, k) == c
    ensures StmtOk(c, s, k) == ((condition != [] ==> ExprOk(c, condition[0], Bool))
                                && BlockOk(Enter(InLoop(c, t)), s.body, k))
  {
    hide LoopCode, CodeBlock, BlockOk, BlockTags, BlockLets, ExprOk;
    assert Enter(InLoop(c, t)) == Enter(InLoop(c, 0)).(continueTo := t, breakTo := t + 1);
    assert Enter(InLoop(c, 0)) == Enter(InLoop(c, t)).(continueTo := 0, breakTo := 1);
    if BlockOk(Enter(InLoop(c, 0)), s.body, k) { BlockOkAnyLabels(Enter(InLoop(c, 0)), s.body, k, t, t + 1); }
    if BlockOk(Enter(InLoop(c, t)), s.body, k) { BlockOkAnyLabels(Enter(InLoop(c, t)), s.body, k, 0, 1); }
  }

  lemma LoopAssembled(before: Code, condition: Code, body: Code, t: nat, after: Code)
    requires after == before + [Mark(t)] + condition + body + [Jump(t)] + [Mark(t + 1)]
    ensures after == before + LoopCode(condition, body, t)
  {
  }

  // ----- slots -----

  /** Enough locals and bytes are left for the kinds. */
  predicate Room(next: nat, bytes: nat, kinds: seq<Kind>)
  {
    next + |kinds| <= MAX_LOCALS && End(kinds, bytes) <= LOCAL_BYTES
  }

  /** The slots recorded under the function's name, the first of them with ordinal `k`. */
  function Record(slots: map<(string, nat), Local>, f: string, ls: seq<Local>, k: nat): map<(string, nat), Local>
    decreases ls
  {
    if ls == [] then slots else Record(slots[(f, k) := ls[0]], f, ls[1..], k + 1)
  }

  lemma {:induction false} RecordAppend(slots: map<(string, nat), Local>, f: string, a: seq<Local>, b: seq<Local>,
                                        k: nat)
    ensures Record(slots, f, a + b, k) == Record(Record(slots, f, a, k), f, b, k + |a|)
    decreases a
  {
    if a == [] {
      assert a + b == b;
    } else {
      assert (a + b)[1..] == a[1..] + b;
      RecordAppend(slots[(f, k) := a[0]], f, a[1..], b, k + 1);
      assert k + 1 + |a[1..]| == k + |a|;
    }
  }

  lemma {:induction false} RecordKeeps(slots: map<(string, nat), Local>, f: string, ls: seq<Local>, k: nat, g: string,
                                       i: nat)
    requires g != f || i < k
    ensures ((g, i) in Record(slots, f, ls, k)) == ((g, i) in slots)
    ensures (g, i) in slots ==> Record(slots, f, ls, k)[(g, i)] == slots[(g, i)]
    decreases ls
  {
    if ls != [] {
      RecordKeeps(slots[(f, k) := ls[0]], f, ls[1..], k + 1, g, i);
    }
  }

  lemma {:induction false} RecordHas(slots: map<(string, nat), Local>, f: string, ls: seq<Local>, k: nat, i: nat)
    requires i < |ls|
    ensures (f, k + i) in Record(slots, f, ls, k) && Record(slots, f, ls, k)[(f, k + i)] == ls[i]
    decreases ls
  {
    if i == 0 {
      RecordKeeps(slots[(f, k) := ls[0]], f, ls[1..], k + 1, f, k);
    } else {
      RecordHas(slots[(f, k) := ls[0]], f, ls[1..], k + 1, i - 1);
      assert k + 1 + (i - 1) == k + i;
    }
  }

  /** Taking slots for some kinds and then for the rest is taking them for all. */
  lemma RoomSplit(next: nat, bytes: nat, a: seq<Kind>, b: seq<Kind>)
    ensures Room(next, bytes, a + b) == (Room(next, bytes, a) && Room(next + |a|, End(a, bytes), b))
  {
    hide Slots, End;
    SlotsAppend(a, b, bytes);
    EndGrows(b, End(a, bytes));
  }

  /** Where the allocator stands: counters, recorded slots and the frame being filled. */
  datatype Progress = Progress(next: nat, bytes: nat, slots: map<(string, nat), Local>, frame: seq<Local>)

  /** The allocator after taking slots for the kinds. */
  function Taken(p: Progress, f: string, kinds: seq<Kind>): Progress
  {
    var ls := Slots(kinds, p.bytes);
    Progress(p.next + |kinds|, End(kinds, p.bytes), Record(p.slots, f, ls, |p.frame|), p.frame + ls)
  }

  lemma TakenAppend(p: Progress, f: string, a: seq<Kind>, b: seq<Kind>)
    ensures Taken(p, f, a + b) == Taken(Taken(p, f, a), f, b)
  {
    hide Slots, End, Record;
    SlotsAppend(a, b, p.bytes);
    RecordAppend(p.slots, f, Slots(a, p.bytes), Slots(b, End(a, p.bytes)), |p.frame|);
  }

  lemma OneSlot(kind: Kind, bytes: nat)
    ensures Slots([kind], bytes) == [Local(Aligned(bytes, Bytes(kind)), kind)]
            && End([kind], bytes) == Aligned(bytes, Bytes(kind)) + Bytes(kind)
  {
    hide Aligned, Bytes;
    assert [kind][1..] == [];
  }

  lemma TakenOne(p: Progress, f: string, kind: Kind)
    ensures var l := Slots([kind], p.bytes);
            Taken(p, f, [kind]) == Progress(p.next + 1, End([kind], p.bytes), p.slots[(f, |p.frame|) := l[0]],
                                            p.frame + l)
  {
    hide Slots, End;
    var (l, k) := (Slots([kind], p.bytes), |p.frame|);
    assert l[1..] == [];
    var slots := p.slots[(f, k) := l[0]];
    assert Record(p.slots, f, l, k) == Record(slots, f, [], k + 1) == slots;
  }

  lemma TakenCounters(p: Progress, f: string, kinds: seq<Kind>)
    requires Room(p.next, p.bytes, kinds)
    ensures Taken(p, f, kinds).next == p.next + |kinds| <= MAX_LOCALS
            && Taken(p, f, kinds).bytes == End(kinds, p.bytes) <= LOCAL_BYTES
  {
  }

  lemma RoomNone(next: nat, bytes: nat)
    requires next <= MAX_LOCALS && bytes <= LOCAL_BYTES
    ensures Room(next, bytes, [])
  {
  }

  lemma TakenNone(p: Progress, f: string)
    ensures Taken(p, f, []) == p
  {
  }

  // ----- functions -----

  /** The slots of a function's bindings are recorded under its name. */
  predicate Known(slots: map<(string, nat), Local>, r: Routine)
  {
    Preallocated(slots, r.fn.name, r.info.frame, BlockLets(r.fn.body), |r.fn.parameters|)
  }

  lemma {:induction false} ParameterKindsAt(ps: seq<Parameter>, n: nat)
    requires n < |ps|
    ensures ParameterKinds(ps[..n + 1]) == ParameterKinds(ps[..n]) + [ps[n].kind]
    decreases ps
  {
    if n > 0 {
      ParameterKindsAt(ps[1..], n - 1);
      assert ps[..n + 1][1..] == ps[1..][..n] && ps[..n][1..] == ps[1..][..n - 1];
    }
  }

  /** Parameters and bindings together make up the function's frame. */
  lemma FrameTaken(p: Progress, q: Progress, r: Progress, fn: Function)
    requires p.frame == [] && q == Progress(p.next + |fn.parameters|, End(ParameterKinds(fn.parameters), p.bytes),
                                            p.slots, Slots(ParameterKinds(fn.parameters), p.bytes))
    requires r == Taken(q, fn.name, BlockLets(fn.body))
    ensures r.frame == FrameAt(fn, p.bytes) && r.bytes == NextBytes(fn, p.bytes) && r.next == p.next + |FrameKinds(fn)|
    ensures r.frame[..|fn.parameters|] == q.frame
    ensures forall tag :: Known(r.slots, Routine(fn, Info(tag, q.frame, r.frame, fn.returning)))
  {
    var (a, b) := (ParameterKinds(fn.parameters), BlockLets(fn.body));
    SlotsAppend(a, b, p.bytes);
    hide Slots, End, BlockLets, ParameterKinds;
    var ls := Slots(b, q.bytes);
    assert r.frame == q.frame + ls;
    forall i: nat | i < |b| ensures SlotKnown(r.slots, fn.name, r.frame[|q.frame| + i], b[i], |q.frame| + i) {
      RecordHas(q.slots, fn.name, ls, |q.frame|, i);
      SlotAt(b, q.bytes, i);
    }
  }

  /** Recording another function's slots changes nothing for this one. */
  lemma KnownKept(slots: map<(string, nat), Local>, f: string, ls: seq<Local>, k: nat, r: Routine)
    requires Known(slots, r) && r.fn.name != f
    ensures Known(Record(slots, f, ls, k), r)
  {
    hide Record, BlockLets;
    var (lets, n) := (BlockLets(r.fn.body), |r.fn.parameters|);
    forall i: nat | i < |lets| ensures SlotKnown(Record(slots, f, ls, k), r.fn.name, r.info.frame[n + i], lets[i],
                                                 n + i) {
      assert SlotKnown(slots, r.fn.name, r.info.frame[n + i], lets[i], n + i);
      RecordKeeps(slots, f, ls, k, r.fn.name, n + i);
    }
  }

  lemma {:induction false} ParameterKindsSplit(ps: seq<Parameter>, n: nat)
    requires n <= |ps|
    ensures ParameterKinds(ps) == ParameterKinds(ps[..n]) + ParameterKinds(ps[n..])
    decreases n
  {
    if n > 0 {
      ParameterKindsSplit(ps, n - 1);
      ParameterKindsAt(ps, n - 1);
      assert ps[n - 1..][1..] == ps[n..];
    } else {
      assert ps[..0] == [] && ps[0..] == ps;
    }
  }

  lemma ParametersFull(ps: seq<Parameter>, i: nat, next: nat, bytes: nat)
    requires i < |ps| && !Room(next, bytes, ParameterKinds(ps[..i + 1]))
    ensures !Room(next, bytes, ParameterKinds(ps))
  {
    hide Room, ParameterKinds;
    ParameterKindsSplit(ps, i + 1);
    RoomSplit(next, bytes, ParameterKinds(ps[..i + 1]), ParameterKinds(ps[i + 1..]));
  }

  lemma RegisterStep(fs: seq<Function>, i: nat, next: nat, bytes: nat, tag: nat, fns: Functions)
    requires i < |fs|
    ensures Room(next, bytes, ProgramKinds(fs[i..])) ==
            (Room(next, bytes, FrameKinds(fs[i]))
             && Room(next + |FrameKinds(fs[i])|, NextBytes(fs[i], bytes), ProgramKinds(fs[i + 1..])))
    ensures Registered(fs[i..], tag, bytes) ==
            [Routine(fs[i], InfoAt(fs[i], tag, bytes))] + Registered(fs[i + 1..], tag + 1, NextBytes(fs[i], bytes))
    ensures fns + Table(Registered(fs[i..], tag, bytes)) ==
            fns[fs[i].name := InfoAt(fs[i], tag, bytes)]
                + Table(Registered(fs[i + 1..], tag + 1, NextBytes(fs[i], bytes)))
  {
    hide Room, FrameKinds, InfoAt, End;
    assert fs[i..][1..] == fs[i + 1..];
    RoomSplit(next, bytes, FrameKinds(fs[i]), ProgramKinds(fs[i + 1..]));
    var rest := Registered(fs[i + 1..], tag + 1, NextBytes(fs[i], bytes));
    var rs := Registered(fs[i..], tag, bytes);
    assert rs[0] == Routine(fs[i], InfoAt(fs[i], tag, bytes)) && rs[1..] == rest;
  }

  lemma RegisteredNames(fs: seq<Function>)
    ensures forall j :: 0 <= j < |fs| ==> Routines'(fs)[j].fn == fs[j]
  {
    forall j | 0 <= j < |fs| ensures Routines'(fs)[j].fn == fs[j] {
      RegisteredAt(fs, ROUTINE_LABELS, 0, j);
    }
  }

  lemma BelowBind(code: Code, tag: nat, t: nat)
    requires Below(code, t) && tag < t
    ensures Below(code + [Mark(tag)], t)
  {
  }

  lemma {:induction false} ParameterPrefix(ps: seq<Parameter>, frame: seq<Local>)
    requires |ps| <= |frame|
    ensures ParameterScope(ps, frame[..|ps|]) == ParameterScope(ps, frame)
    decreases ps
  {
    ParameterSlots(ps, frame, |ps|);
  }

  lemma {:induction false} ParameterSlots(ps: seq<Parameter>, frame: seq<Local>, n: nat)
    requires |ps| <= n <= |frame|
    ensures ParameterScope(ps, frame[..n]) == ParameterScope(ps, frame)
    decreases ps
  {
    if ps != [] {
      ParameterSlots(ps[..|ps| - 1], frame, n);
    }
  }

  lemma FunctionAssembled(before: Code, info: Info, block: Code, main: bool, middle: Code, after: Code, t: nat)
    requires middle == before + [Mark(info.tag)] + block && Below(middle, t)
    requires after == middle + (if main then [] else if info.returning.Scalar? then [Jump(ARITHMETIC_LABEL)] else [Ret])
    ensures after == before + ([Mark(info.tag)] + (block + Epilogue(info, main))) && Below(after, t)
  {
  }

  /** Functions before `i` have their labels and slots; the rest will complete the table. */
  predicate Filed(fs: seq<Function>, i: nat, next: nat, bytes: nat, tag: nat, fns: Functions,
                  slots: map<(string, nat), Local>)
    requires i <= |fs|
  {
    && tag == ROUTINE_LABELS + i && SlotsFit(fs) == Room(next, bytes, ProgramKinds(fs[i..]))
    && fns + Table(Registered(fs[i..], tag, bytes)) == Table(Routines'(fs))
    && Routines'(fs)[i..] == Registered(fs[i..], tag, bytes)
    && forall j :: 0 <= j < i ==> Known(slots, Routines'(fs)[j])
  }

  lemma FiledNone(fs: seq<Function>, slots: map<(string, nat), Local>)
    ensures Filed(fs, 0, 0, 0, ROUTINE_LABELS, map[], slots)
  {
    hide Known, Table, Registered, ProgramKinds, End;
    assert fs[0..] == fs && Routines'(fs)[0..] == Routines'(fs);
    assert map[] + Table(Routines'(fs)) == Table(Routines'(fs));
  }

  lemma FiledFull(fs: seq<Function>, i: nat, next: nat, bytes: nat, tag: nat, fns: Functions,
                  slots: map<(string, nat), Local>)
    requires i < |fs| && Filed(fs, i, next, bytes, tag, fns, slots) && !Room(next, bytes, FrameKinds(fs[i]))
    ensures !SlotsFit(fs)
  {
    hide Known, Table, Registered, ProgramKinds, SlotsFit, Room, FrameKinds, NextBytes, InfoAt;
    RegisterStep(fs, i, next, bytes, tag, fns);
  }

  lemma FiledNext(fs: seq<Function>, i: nat, next: nat, bytes: nat, tag: nat, fns: Functions,
                  slots: map<(string, nat), Local>, slots': map<(string, nat), Local>)
    requires i < |fs| && Filed(fs, i, next, bytes, tag, fns, slots) && DistinctNames(fs)
             && Room(next, bytes, FrameKinds(fs[i]))
    requires Known(slots', Routine(fs[i], InfoAt(fs[i], tag, bytes)))
    requires forall r :: Known(slots, r) && r.fn.name != fs[i].name ==> Known(slots', r)
    ensures Filed(fs, i + 1, next + |FrameKinds(fs[i])|, NextBytes(fs[i], bytes), tag + 1,
                  fns[fs[i].name := InfoAt(fs[i], tag, bytes)], slots')
  {
    hide Known, Table, Registered, ProgramKinds, SlotsFit, Room, FrameKinds, NextBytes, InfoAt, Routines';
    RegisterStep(fs, i, next, bytes, tag, fns);
    RegisteredNames(fs);
    var rs := Routines'(fs);
    assert rs[i] == rs[i..][0] && rs[i + 1..] == rs[i..][1..];
    forall j | 0 <= j < i + 1 ensures Known(slots', rs[j]) {
      if j < i {
        assert Known(slots, rs[j]) && fs[j].name != fs[i].name;
      }
    }
  }

  lemma FiledAll(fs: seq<Function>, next: nat, bytes: nat, tag: nat, fns: Functions, slots: map<(string, nat), Local>)
    requires Filed(fs, |fs|, next, bytes, tag, fns, slots) && next <= MAX_LOCALS && bytes <= LOCAL_BYTES
    ensures SlotsFit(fs) && fns == Table(Routines'(fs)) && tag == ROUTINE_LABELS + |fs|
    ensures forall j :: 0 <= j < |fs| ==> Known(slots, Routines'(fs)[j])
  {
    hide Known, SlotsFit, Routines';
    assert fs[|fs|..] == [] && fns + map[] == fns;
    RoomNone(next, bytes);
  }

  lemma RegistryFacts(fs: seq<Function>, i: nat)
    requires DistinctNames(fs) && SlotsFit(fs) && i < |fs|
    ensures var (r, fns) := (Routines'(fs)[i], Table(Routines'(fs)));
            && r.fn == fs[i] && fs[i].name in fns && fns[fs[i].name] == r.info && r.info.tag < ROUTINE_LABELS + |fs|
            && |fs[i].parameters| <= |r.info.frame| && r.info.parameters == r.info.frame[..|fs[i].parameters|]
  {
    hide FrameOk, Registered, SlotsFit, Table;
    FrameFits(fs, i);
    RegisteredNames(fs);
    TableHas(Routines'(fs), i);
  }

  lemma MainOnly(fs: seq<Function>, i: nat)
    requires DistinctNames(fs) && MainIndex(fs) < |fs| && i < |fs|
    ensures fs[i].name == "main" <==> i == MainIndex(fs)
  {
  }

  lemma NextUnbound(code: Code, fns: Functions, fn: Function, info: Info, main: bool, t: nat, rest: Code)
    requires UniqueMarks(code + (FunctionCode(fns, fn, info, main, t) + rest))
    ensures Unbound(code, info.tag)
  {
    hide CodeBlock, Epilogue;
    var part := FunctionCode(fns, fn, info, main, t);
    var whole := code + (part + rest);
    assert whole[|code|] == part[0] == Mark(info.tag);
    forall i | 0 <= i < |code| ensures code[i] != Mark(info.tag) {
      assert whole[i] == code[i];
    }
  }

  /** Functions before `i` are compiled, and what is still to come completes the code. */
  ghost predicate Remaining(fs: seq<Function>, main: nat, i: nat, fns: Functions, t: nat, code: Code, whole: Code)
    requires main < |fs| && i <= |fs|
  {
    && (forall j :: 0 <= j < i && j != main ==> BodyOk(fns, Routines'(fs)[j]))
    && code + OthersCode(fns, Without(Routines'(fs), main)[if i <= main then i else i - 1..], t) == whole
  }

  lemma RemainingAll(fs: seq<Function>, main: nat, fns: Functions, t: nat, code: Code)
    requires main < |fs|
    ensures Remaining(fs, main, 0, fns, t, code, code + OthersCode(fns, Without(Routines'(fs), main), t))
  {
    hide OthersCode, BodyOk, Registered;
    var others := Without(Routines'(fs), main);
    assert others[0..] == others;
  }

  lemma RemainingStep(fs: seq<Function>, main: nat, i: nat, fns: Functions, t: nat, code: Code, whole: Code)
      returns (rest: Code)
    requires main < |fs| && i < |fs| && i != main && Remaining(fs, main, i, fns, t, code, whole)
    ensures whole + ROUTINES == code + (FunctionCode(fns, fs[i], Routines'(fs)[i].info, false, t) + (rest + ROUTINES))
    ensures rest == OthersCode(fns, Without(Routines'(fs), main)[if i < main then i + 1 else i..],
                               t + BlockTags(fs[i].body))
    ensures whole == code + FunctionCode(fns, fs[i], Routines'(fs)[i].info, false, t) + rest
  {
    hide FunctionCode, BlockTags, Registered, BodyOk;
    RegisteredNames(fs);
    var (rs, others, j) := (Routines'(fs), Without(Routines'(fs), main), if i <= main then i else i - 1);
    assert others[j] == rs[i] && others[j..][0] == rs[i] && others[j..][1..] == others[j + 1..];
    rest := OthersCode(fns, others[j + 1..], t + BlockTags(fs[i].body));
  }

  lemma RemainingNext(fs: seq<Function>, main: nat, i: nat, fns: Functions, t: nat, code: Code, whole: Code)
    requires main < |fs| && i < |fs| && i != main && Remaining(fs, main, i, fns, t, code, whole)
             && BodyOk(fns, Routines'(fs)[i])
    ensures Remaining(fs, main, i + 1, fns, t + BlockTags(fs[i].body),
                      code + FunctionCode(fns, fs[i], Routines'(fs)[i].info, false, t), whole)
  {
    hide FunctionCode, BlockTags, Routines', BodyOk, OthersCode;
    var rest := RemainingStep(fs, main, i, fns, t, code, whole);
  }

  lemma RemainingSkip(fs: seq<Function>, main: nat, fns: Functions, t: nat, code: Code, whole: Code)
    requires main < |fs| && Remaining(fs, main, main, fns, t, code, whole)
    ensures Remaining(fs, main, main + 1, fns, t, code, whole)
  {
    hide OthersCode, BodyOk, Routines';
  }

  lemma RemainingNone(fs: seq<Function>, main: nat, fns: Functions, t: nat, code: Code, whole: Code)
    requires main < |fs| && Remaining(fs, main, |fs|, fns, t, code, whole)
    ensures code == whole && forall j :: 0 <= j < |fs| && j != main ==> BodyOk(fns, Routines'(fs)[j])
  {
    hide BodyOk, Routines';
    assert Without(Routines'(fs), main)[|fs| - 1..] == [];
  }

  lemma RoutinesUnbound(code: Code)
    requires UniqueMarks(code + ROUTINES)
    ensures Unbound(code, ARITHMETIC_LABEL) && Unbound(code, STACK_LABEL) && Unbound(code, HALT_LABEL)
  {
    var whole := code + ROUTINES;
    assert whole[|code|] == Mark(ARITHMETIC_LABEL) && whole[|code| + 2] == Mark(STACK_LABEL)
           && whole[|code| + 4] == Mark(HALT_LABEL);
    forall i | 0 <= i < |code| ensures whole[i] == code[i] {
    }
  }

  lemma ProgramShape(fs: seq<Function>, main: nat, fns: Functions)
    requires DistinctNames(fs) && SlotsFit(fs) && main == MainIndex(fs) < |fs| && fns == Table(Routines'(fs))
    ensures var (rs, t) := (Routines'(fs), ROUTINE_LABELS + |fs|);
            && UniqueMarks(ProgramCode(rs, main, t)) && Compiled(fs).code == ProgramCode(rs, main, t)
            && ProgramCode(rs, main, t) == FunctionCode(fns, fs[main], rs[main].info, true, t) +
               ([Jump(HALT_LABEL)] + (OthersCode(fns, Without(rs, main), t + BlockTags(fs[main].body)) + ROUTINES))
  {
    var (rs, t) := (Routines'(fs), ROUTINE_LABELS + |fs|);
    hide Registered, FunctionCode, OthersCode, BlockTags, Table, FrameOk, SlotsFit, UniqueMarks, Entries, Bases,
         ProgramOf;
    forall i | 0 <= i < |fs| ensures rs[i].fn == fs[i] && rs[i].info.tag == ROUTINE_LABELS + i {
      FrameFits(fs, i);
    }
    ProgramUnique(rs, main, t);
  }

  lemma MainNamed(fs: seq<Function>)
    requires MainIndex(fs) < |fs|
    ensures fs[MainIndex(fs)].name == "main"
  {
  }

  lemma TailJoins(before: Code, others: Code, after: Code)
    requires after == before + [Jump(HALT_LABEL)]
    ensures after + (others + ROUTINES) == before + ([Jump(HALT_LABEL)] + (others + ROUTINES))
  {
  }

  lemma JoinsTail(before: Code, others: Code, after: Code)
    requires after == before + [Jump(HALT_LABEL)] + others
    ensures after + ROUTINES == before + ([Jump(HALT_LABEL)] + (others + ROUTINES))
  {
  }

  class Compiler {
    var code: Code
    var labels: nat
    var scopes: Scopes<Local>
    var nextLocal: nat
    var localBytes: nat
    var functions: Functions
    var preallocated: map<(string, nat), Local>
    var currentFunction: string
    var currentReturn: Returning
    var currentIsMain: bool
    var loops: seq<(nat, nat)>

    // ----- the assembler -----

    method Label() returns (l: nat)
      modifies this`labels
      ensures l == old(labels) && labels == old(labels) + 1
    {
      l := labels;
      labels := labels + 1;
    }

    /** Binding a label twice would abort the compiler. */
    method Bind(l: nat)
      requires Unbound(code, l)
      modifies this`code
      ensures code == old(code) + [Mark(l)]
    {
      code := code + [Mark(l)];
    }

    method Emit(i: Instr)
      requires !i.Mark?
      modifies this`code
      ensures code == old(code) + [i]
    {
      code := code + [i];
    }

    // ----- expressions -----

    /** The innermost declaration of a name. */
    method FindLocal(name: string) returns (found: seq<Local>)
      ensures found == Lookup(scopes, name)
    {
      var i := |scopes|;
      assert scopes[..i] == scopes;
      while i > 0
        invariant 0 <= i <= |scopes|
        invariant Lookup(scopes, name) == Lookup(scopes[..i], name)
      {
        i := i - 1;
        assert scopes[..i + 1][..i] == scopes[..i];
        if name in scopes[i] {
          return [scopes[i][name]];
        }
      }
      found := [];
    }

    method SaveSlots(ls: seq<Local>)
      modifies this`code
      ensures code == old(code) + SaveAll(ls)
    {
      var i := 0;
      while i < |ls|
        invariant 0 <= i <= |ls|
        invariant code == old(code) + SaveAll(ls[..i])
      {
        Emit(Load(ls[i]));
        Emit(Push(Wide(ls[i].kind)));
        assert ls[..i + 1][..i] == ls[..i];
        i := i + 1;
      }
      assert ls[..i] == ls;
    }

    method UnloadSlots(ls: seq<Local>)
      modifies this`code
      ensures code == old(code) + UnloadAll(ls)
    {
      var i := |ls|;
      assert ls[..i] == ls;
      while i > 0
        invariant 0 <= i <= |ls|
        invariant code + UnloadAll(ls[..i]) == old(code) + UnloadAll(ls)
      {
        i := i - 1;
        assert ls[..i + 1][..i] == ls[..i];
        Emit(Pop(Wide(ls[i].kind)));
        Emit(Save(ls[i]));
      }
    }

    method CompileExpression(e: Expr) returns (kind: Returning)
      requires Below(code, labels)
      modifies this`code, this`labels
      ensures kind == KindOf(functions, scopes, e)
      ensures kind.Scalar? ==>
                Emitted(old(code), code, CodeExpr(functions, scopes, e, old(labels)), old(labels), labels, Tags(e))
      decreases e, 2
    {
      hide Below, CodeExpr, KindOf, Tags;
      if e.Arithmetic? || e.Compare? {
        kind := CompileOperation(e);
      } else if e.And? || e.Or? {
        kind := CompileShortCircuit(e);
      } else if e.Not? || e.Negate? {
        kind := CompileUnary(e);
      } else if e.Call? {
        var ok;
        ok, kind := CompileUserCall(e.callee, e.arguments);
        CallShape(functions, scopes, e, old(labels));
      } else {
        kind := CompileLeaf(e);
      }
    }

    method CompileLeaf(e: Expr) returns (kind: Returning)
      requires Below(code, labels) && (e.Literal? || e.Truth? || e.Variable?)
      modifies this`code, this`labels
      ensures kind == KindOf(functions, scopes, e)
      ensures kind.Scalar? ==>
                Emitted(old(code), code, CodeExpr(functions, scopes, e, old(labels)), old(labels), labels, Tags(e))
    {
      kind := Unit;
      var i := Invert;
      match e {
        case Literal(v, k) =>
          if v >= LiteralLimit(k) { return; }
          kind, i := Scalar(k), if Wide(k) then Full(v) else Narrow(v);
        case Truth(b) => kind, i := Scalar(Bool), Narrow(Numeral(b));
        case Variable(x) =>
          var found := FindLocal(x);
          if found == [] { return; }
          kind, i := Scalar(found[0].kind), Load(found[0]);
      }
      Emit(i);
      PlainEmitted(old(code), [i], labels);
    }

    method CompileUnary(e: Expr) returns (kind: Returning)
      requires Below(code, labels) && (e.Not? || e.Negate?)
      modifies this`code, this`labels
      ensures kind == KindOf(functions, scopes, e)
      ensures kind.Scalar? ==>
                Emitted(old(code), code, CodeExpr(functions, scopes, e, old(labels)), old(labels), labels, Tags(e))
      decreases e, 1
    {
      if e.Negate? && e.operand.Literal? && e.operand.value == TWO_31 {
        Emit(Full(TWO_31));
        PlainEmitted(old(code), [Full(TWO_31)], labels);
        return Scalar(I32);
      }
      UnaryShape(functions, scopes, e, labels);
      hide KindOf, CodeExpr, Tags, Emitted;
      var wanted := if e.Not? then Scalar(Bool) else Scalar(I32);
      kind := CompileExpression(e.operand);
      if kind != wanted { return Unit; }
      ghost var ca := CodeExpr(functions, scopes, e.operand, old(labels));
      Emit(if e.Not? then Invert else Minus);
      EmittedPlain(old(code), ca, [if e.Not? then Invert else Minus], old(labels), labels, Tags(e.operand), code);
    }

    method CompileOperation(e: Expr) returns (kind: Returning)
      requires Below(code, labels) && (e.Arithmetic? || e.Compare?)
      modifies this`code, this`labels
      ensures kind == KindOf(functions, scopes, e)
      ensures kind.Scalar? ==>
                Emitted(old(code), code, CodeExpr(functions, scopes, e, old(labels)), old(labels), labels, Tags(e))
      decreases e, 1
    {
      hide KindOf, CodeExpr, Tags, Below, BinaryCode;
      OperationShape(functions, scopes, e, labels);
      var left := CompileExpression(e.left);
      if left != Scalar(e.kind) { return Unit; }
      Emit(Push(Wide(e.kind)));
      BelowPlain(code[..|code| - 1], Push(Wide(e.kind)), labels);
      ghost var (ca, middle, t) := (CodeExpr(functions, scopes, e.left, old(labels)), code, labels);
      var right := CompileExpression(e.right);
      if right != Scalar(e.kind) { return Unit; }
      ghost var cb := CodeExpr(functions, scopes, e.right, t);
      Emit(ToSecondary(Wide(e.kind)));
      Emit(Pop(Wide(e.kind)));
      var last := if e.Arithmetic? then Operate(e.op, e.kind) else Test(e.comparison, e.kind);
      if e.Arithmetic? && !Numeric(e.kind) { return Unit; }
      if e.Compare? && !Numeric(e.kind) && e.comparison != Equal && e.comparison != NotEqual { return Unit; }
      Emit(last);
      kind := if e.Arithmetic? then Scalar(e.kind) else Scalar(Bool);
      BinaryAssembled(old(code), ca, cb, Wide(e.kind), last, code);
      ExprEmitted(functions, scopes, e, old(code), code, old(labels), labels);
    }

    method CompileShortCircuit(e: Expr) returns (kind: Returning)
      requires Below(code, labels) && (e.And? || e.Or?)
      modifies this`code, this`labels
      ensures kind == KindOf(functions, scopes, e)
      ensures kind.Scalar? ==>
                Emitted(old(code), code, CodeExpr(functions, scopes, e, old(labels)), old(labels), labels, Tags(e))
      decreases e, 1
    {
      hide KindOf, CodeExpr, Tags, Below, ShortCode;
      ShortcutShape(functions, scopes, e, labels);
      kind := CompileExpression(e.left);
      if kind != Scalar(Bool) { return Unit; }
      var shortcut := Label();
      var end := Label();
      var ok := CompileRight(e, shortcut, end);
      if !ok { return Unit; }
      ShortAssembled(old(code), CodeExpr(functions, scopes, e.left, old(labels)),
                     CodeExpr(functions, scopes, e.right, shortcut + 2), e.Or?, shortcut, code);
      ExprEmitted(functions, scopes, e, old(code), code, old(labels), labels);
    }

    /** The jump over the right operand, the operand, and the meeting point. */
    method CompileRight(e: Expr, shortcut: nat, end: nat) returns (ok: bool)
      requires (e.And? || e.Or?) && Below(code, shortcut) && end == shortcut + 1 && labels == shortcut + 2
      modifies this`code, this`labels
      ensures ok <==> KindOf(functions, scopes, e.right) == Scalar(Bool)
      ensures ok ==> labels == old(labels) + Tags(e.right)
      ensures ok ==> code == old(code) + [if e.Or? then JumpIfNonzero(shortcut) else JumpIfZero(shortcut)]
                             + CodeExpr(functions, scopes, e.right, shortcut + 2)
                             + [Jump(end)] + [Mark(shortcut)] + [Narrow(Numeral(e.Or?))] + [Mark(end)]
      decreases e, 0
    {
      hide KindOf, CodeExpr, Tags, Below, MarksIn, Unbound;
      BelowUnbound(code, shortcut, shortcut);
      BelowUnbound(code, shortcut, end);
      var bail := if e.Or? then JumpIfNonzero(shortcut) else JumpIfZero(shortcut);
      BelowPlain(code, bail, shortcut);
      BelowMore(code + [bail], shortcut, labels);
      Emit(bail);
      var kind := CompileExpression(e.right);
      ok := kind == Scalar(Bool);
      if ok {
        ExprMarks(functions, scopes, e.right, shortcut + 2);
        ShortcutUnbound(old(code), bail, CodeExpr(functions, scopes, e.right, shortcut + 2), shortcut,
                        shortcut + 2 + Tags(e.right));
        Rejoin(e.Or?, shortcut, end);
      }
    }

    method Rejoin(either: bool, shortcut: nat, end: nat)
      requires Unbound(code, shortcut) && Unbound(code, end) && shortcut != end
      modifies this`code
      ensures code == old(code) + [Jump(end)] + [Mark(shortcut)] + [Narrow(Numeral(either))] + [Mark(end)]
    {
      hide Unbound;
      UnboundPlain(code, Jump(end), shortcut);
      UnboundPlain(code, Jump(end), end);
      Emit(Jump(end));
      UnboundOther(code, shortcut, end);
      Bind(shortcut);
      UnboundPlain(code, Narrow(Numeral(either)), end);
      Emit(Narrow(Numeral(either)));
      Bind(end);
    }

    method CompileArguments(es: seq<Expr>, parameters: seq<Local>) returns (ok: bool)
      requires Below(code, labels) && |es| == |parameters|
      modifies this`code, this`labels
      ensures ok <==> ArgumentsOk(functions, scopes, es, parameters)
      ensures ok ==>
                Emitted(old(code), code, CodeArguments(functions, scopes, es, parameters, old(labels)), old(labels),
                        labels, TagsAll(es))
      decreases es, 0
    {
      hide Below, CodeExpr, KindOf, Tags;
      var i := 0;
      assert es[..] == es && es[0..] == es && parameters[0..] == parameters;
      while i < |es|
        invariant 0 <= i <= |es| && Below(code, labels)
        invariant ArgumentsOk(functions, scopes, es, parameters)
                  == ArgumentsOk(functions, scopes, es[i..], parameters[i..])
        invariant code + CodeArguments(functions, scopes, es[i..], parameters[i..], labels) ==
                  old(code) + CodeArguments(functions, scopes, es, parameters, old(labels))
        invariant labels + TagsAll(es[i..]) == old(labels) + TagsAll(es)
      {
        ghost var (before, t) := (code, labels);
        ArgumentStep(functions, scopes, es, parameters, i, t, before);
        var kind := CompileExpression(es[i]);
        if kind != Scalar(parameters[i].kind) { return false; }
        BelowPlain(code, Push(Wide(parameters[i].kind)), labels);
        Emit(Push(Wide(parameters[i].kind)));
        i := i + 1;
      }
      ok := true;
    }

    method CompileUserCall(f: string, arguments: seq<Expr>) returns (ok: bool, kind: Returning)
      requires Below(code, labels)
      modifies this`code, this`labels
      ensures ok <==> Callable'(functions, scopes, f, arguments)
      ensures kind == if ok then functions[f].returning else Unit
      ensures ok ==>
                Emitted(old(code), code, CodeCall(functions, scopes, functions[f], arguments, old(labels)), old(labels),
                        labels, TagsAll(arguments))
      decreases arguments, 1
    {
      hide Below, CodeArguments, ArgumentsOk, TagsAll, SaveAll, UnloadAll, SlotBytes, MarksIn;
      if f !in functions || f == "main" { return false, Unit; }
      var info := functions[f];
      if |arguments| != |info.parameters| { return false, Unit; }
      if EXPRESSION_RESERVE + Required(info) >= STACK_BYTES { return false, Unit; }
      BelowPlain(code, Guard(Required(info)), labels);
      Emit(Guard(Required(info)));
      MoversMarkless(info.frame);
      BelowMarkless(code, SaveAll(info.frame), labels);
      SaveSlots(info.frame);
      ghost var before := code;
      ok := CompileArguments(arguments, info.parameters);
      if !ok { return false, Unit; }
      ghost var args := CodeArguments(functions, scopes, arguments, info.parameters, old(labels));
      FinishCall(info);
      kind := info.returning;
      CallAssembled(old(code), info, args, code);
      CallEmitted(functions, scopes, info, arguments, old(code), code, old(labels), labels);
    }

    method FinishCall(info: Info)
      modifies this`code
      ensures code == old(code) + UnloadAll(info.parameters) + [CallLabel(info.tag)] + Keep(info)
              + UnloadAll(info.frame) + Yield(info)
    {
      hide UnloadAll;
      UnloadSlots(info.parameters);
      Emit(CallLabel(info.tag));
      if info.returning.Scalar? {
        Emit(ToTertiary(Wide(info.returning.kind)));
      }
      UnloadSlots(info.frame);
      if info.returning.Scalar? {
        Emit(FromTertiary(Wide(info.returning.kind)));
      }
    }

    // ----- statements -----

    /** The context the next statement is compiled in. */
    ghost function Here(): Context
      reads this
    {
      Context(functions, if currentFunction in functions then functions[currentFunction].frame else [], scopes,
              loops != [],
              if loops == [] then 0 else loops[|loops| - 1].0, if loops == [] then 0
              else loops[|loops| - 1].1, currentIsMain, currentReturn)
    }

    /** `k` is the ordinal of the statement's first binding in its function. */
    method CompileStatement(s: Stmt, k: nat, ghost c: Context) returns (ok: bool)
      requires c == Here() && c.scopes != [] && Below(code, labels)
      requires Preallocated(preallocated, currentFunction, c.frame, StmtLets(s), k)
      modifies this`code, this`labels, this`scopes, this`loops
      ensures ok <==> StmtOk(c, s, k)
      ensures ok ==> Emitted(old(code), code, CodeStmt(c, s, k, old(labels)), old(labels), labels, StmtTags(s))
      ensures ok ==> Here() == After(c, s, k) && loops == old(loops)
      decreases s, 3
    {
      hide Below, StmtOk, CodeStmt, StmtTags, After, StmtLets;
      if s.Let? {
        ok := CompileLet(s, k, c);
      } else if s.Assign? {
        ok := CompileAssign(s, k, c);
      } else if s.Print? {
        ok := CompilePrint(s, k, c);
      } else if s.If? {
        ok := CompileIf(s, k, c);
      } else if s.While? || s.Loop? {
        ok := CompileLoop(s, k, c);
      } else if s.Perform? {
        ok := CompilePerform(s, k, c);
      } else if s.Return? {
        ok := CompileReturn(s, k, c);
      } else {
        ok := CompileJump(s, k, c);
      }
    }

    method CompilePerform(s: Stmt, k: nat, ghost c: Context) returns (ok: bool)
      requires c == Here() && Below(code, labels) && s.Perform?
      modifies this`code, this`labels
      ensures ok <==> StmtOk(c, s, k)
      ensures ok ==>
                Emitted(old(code), code, CodeStmt(c, s, k, old(labels)), old(labels), labels, StmtTags(s))
                && After(c, s, k) == c
    {
      hide Below, CodeCall, ArgumentsOk, TagsAll;
      var kind;
      ok, kind := CompileUserCall(s.callee, s.arguments);
    }

    /** Strings, `break` and `continue`. */
    method CompileJump(s: Stmt, k: nat, ghost c: Context) returns (ok: bool)
      requires c == Here() && Below(code, labels) && (s.PrintText? || s.Break? || s.Continue?)
      modifies this`code
      ensures ok <==> StmtOk(c, s, k)
      ensures ok ==>
                Emitted(old(code), code, CodeStmt(c, s, k, labels), labels, labels, StmtTags(s)) && After(c, s, k) == c
    {
      var i := Ret;
      if s.PrintText? {
        i := ShowText(s.text);
      } else {
        if loops == [] { return false; }
        var targets := loops[|loops| - 1];
        i := if s.Break? then Jump(targets.1) else Jump(targets.0);
      }
      Emit(i);
      PlainEmitted(old(code), [i], labels);
      ok := true;
    }

    method CompileReturn(s: Stmt, k: nat, ghost c: Context) returns (ok: bool)
      requires c == Here() && Below(code, labels) && s.Return?
      modifies this`code, this`labels
      ensures ok <==> StmtOk(c, s, k)
      ensures ok ==>
                Emitted(old(code), code, CodeStmt(c, s, k, old(labels)), old(labels), labels, StmtTags(s))
                && After(c, s, k) == c
    {
      hide KindOf, CodeExpr, Tags;
      if currentIsMain {
        if s.result != [] { return false; }
        Emit(Jump(HALT_LABEL));
        PlainEmitted(old(code), [Jump(HALT_LABEL)], labels);
        return true;
      }
      if currentReturn.Unit? {
        if s.result != [] { return false; }
        Emit(Ret);
        PlainEmitted(old(code), [Ret], labels);
        return true;
      }
      if |s.result| != 1 { return false; }
      var kind := CompileExpression(s.result[0]);
      if kind != currentReturn { return false; }
      Emit(Ret);
      EmittedPlain(old(code), CodeExpr(functions, scopes, s.result[0], old(labels)), [Ret], old(labels), labels,
                   Tags(s.result[0]), code);
      ok := true;
    }

    /** A value of the wanted kind. */
    method CompileWanted(e: Expr, wanted: Kind, ghost c: Context) returns (ok: bool)
      requires c == Here() && Below(code, labels)
      modifies this`code, this`labels
      ensures ok <==> ExprOk(c, e, wanted)
      ensures ok ==> Emitted(old(code), code, CodeExpr(c.fns, c.scopes, e, old(labels)), old(labels), labels, Tags(e))
    {
      hide KindOf, CodeExpr, Tags, Below;
      var kind := CompileExpression(e);
      ok := kind == Scalar(wanted);
    }

    method CompileLet(s: Stmt, k: nat, ghost c: Context) returns (ok: bool)
      requires c == Here() && c.scopes != [] && Below(code, labels) && s.Let?
      requires Preallocated(preallocated, currentFunction, c.frame, StmtLets(s), k)
      modifies this`code, this`labels, this`scopes
      ensures ok <==> StmtOk(c, s, k)
      ensures ok ==>
                Emitted(old(code), code, CodeStmt(c, s, k, old(labels)), old(labels), labels, StmtTags(s))
                && Here() == After(c, s, k)
    {
      hide ExprOk, CodeExpr, Tags, Below;
      assert SlotKnown(preallocated, currentFunction, c.frame[k + 0], StmtLets(s)[0], k + 0);
      hide Preallocated;
      ok := CompileWanted(s.value, s.kind, c);
      if ok {
        var local := preallocated[(currentFunction, k)];
        Emit(Save(local));
        EmittedPlain(old(code), CodeExpr(c.fns, c.scopes, s.value, old(labels)), [Save(local)], old(labels), labels,
                     Tags(s.value), code);
        scopes := Declare(scopes, s.name, local);
      }
    }

    method CompilePrint(s: Stmt, k: nat, ghost c: Context) returns (ok: bool)
      requires c == Here() && Below(code, labels) && s.Print?
      modifies this`code, this`labels
      ensures ok <==> StmtOk(c, s, k)
      ensures ok ==>
                Emitted(old(code), code, CodeStmt(c, s, k, old(labels)), old(labels), labels, StmtTags(s))
                && After(c, s, k) == c
    {
      hide ExprOk, CodeExpr, Tags, Below;
      ok := CompileWanted(s.value, s.kind, c);
      if ok {
        Emit(Show(s.kind));
        EmittedPlain(old(code), CodeExpr(c.fns, c.scopes, s.value, old(labels)), [Show(s.kind)], old(labels), labels,
                     Tags(s.value), code);
      }
    }

    method CompileAssign(s: Stmt, k: nat, ghost c: Context) returns (ok: bool)
      requires c == Here() && Below(code, labels) && s.Assign?
      modifies this`code, this`labels
      ensures ok <==> StmtOk(c, s, k)
      ensures ok ==>
                Emitted(old(code), code, CodeStmt(c, s, k, old(labels)), old(labels), labels, StmtTags(s))
                && After(c, s, k) == c
    {
      hide ExprOk, CodeExpr, Tags, Below, Lookup, AssignCode, Numeric;
      var found := FindLocal(s.name);
      if found == [] || found[0].kind != s.kind { return false; }
      if s.assigning.Compound? && (!Numeric(s.kind) || s.assigning.op == Remainder) { return false; }
      ok := CompileWanted(s.value, s.kind, c);
      if ok {
        ghost var (ce, tail) := (CodeExpr(c.fns, c.scopes, s.value, old(labels)),
                                 AssignCode([], found[0], s.kind, s.assigning));
        Combine(found[0], s.kind, s.assigning);
        AssignSplit(ce, found[0], s.kind, s.assigning);
        EmittedPlain(old(code), ce, tail, old(labels), labels, Tags(s.value), code);
      }
    }

    /** Stores the value, combined with the variable's own for a compound assignment. */
    method Combine(l: Local, kind: Kind, assigning: Assigning)
      modifies this`code
      ensures code == old(code) + AssignCode([], l, kind, assigning) && Markless(AssignCode([], l, kind, assigning))
    {
      if assigning.Compound? {
        Emit(ToSecondary(Wide(kind)));
        Emit(Load(l));
        Emit(Operate(assigning.op, kind));
      }
      Emit(Save(l));
      AssignAssembled(old(code), l, kind, assigning, code);
    }

    method CompileIf(s: Stmt, k: nat, ghost c: Context) returns (ok: bool)
      requires c == Here() && c.scopes != [] && Below(code, labels) && s.If?
      requires Preallocated(preallocated, currentFunction, c.frame, StmtLets(s), k)
      modifies this`code, this`labels, this`scopes, this`loops
      ensures ok <==> StmtOk(c, s, k)
      ensures ok ==> Emitted(old(code), code, CodeStmt(c, s, k, old(labels)), old(labels), labels, StmtTags(s))
      ensures ok ==> Here() == After(c, s, k) && loops == old(loops)
      decreases s, 1
    {
      hide Below, StmtOk, CodeStmt, StmtTags, After, StmtLets, CodeExpr, KindOf, Tags, IfCode, Preallocated, BlockLets,
           BlockTags, BlockOk, CodeBlock, Enter;
      IfShape(c, s, k, labels);
      PreallocatedSplit(preallocated, currentFunction, c.frame, BlockLets(s.thenBranch), BlockLets(s.elseBranch), k);
      var kind := CompileExpression(s.condition);
      if kind != Scalar(Bool) { return false; }
      var alternate := Label();
      var end := Label();
      ok := CompileBranches(s, k, alternate, end, c);
      if ok {
        IfAssembled(old(code), CodeExpr(c.fns, c.scopes, s.condition, old(labels)),
                    CodeBlock(Enter(c), s.thenBranch, k, alternate + 2),
                    CodeBlock(Enter(c), s.elseBranch, k + |BlockLets(s.thenBranch)|,
                              alternate + 2 + BlockTags(s.thenBranch)), alternate, code);
        StmtEmitted(c, s, k, old(code), code, old(labels), labels);
      }
    }

    method CompileBranches(s: Stmt, k: nat, alternate: nat, end: nat, ghost c: Context) returns (ok: bool)
      requires c == Here() && c.scopes != [] && Below(code, alternate) && end == alternate + 1
               && labels == alternate + 2 && s.If?
      requires Preallocated(preallocated, currentFunction, c.frame, BlockLets(s.thenBranch), k)
      requires Preallocated(preallocated, currentFunction, c.frame, BlockLets(s.elseBranch),
                            k + |BlockLets(s.thenBranch)|)
      modifies this`code, this`labels, this`scopes, this`loops
      ensures ok <==>
                BlockOk(Enter(c), s.thenBranch, k) && BlockOk(Enter(c), s.elseBranch, k + |BlockLets(s.thenBranch)|)
      ensures ok ==>
                labels == old(labels) + BlockTags(s.thenBranch) + BlockTags(s.elseBranch) && Here() == c
                && loops == old(loops)
      ensures ok ==> code == old(code) + [JumpIfZero(alternate)] + CodeBlock(Enter(c), s.thenBranch, k, alternate + 2)
                             + [Jump(end)] + [Mark(alternate)]
                             + CodeBlock(Enter(c), s.elseBranch, k + |BlockLets(s.thenBranch)|,
                                         alternate + 2 + BlockTags(s.thenBranch)) + [Mark(end)]
      decreases s, 0
    {
      hide Below, Unbound, MarksIn, BlockLets, BlockTags, BlockOk, CodeBlock, Preallocated;
      BelowUnbound(code, alternate, alternate);
      BelowUnbound(code, alternate, end);
      BelowPlain(code, JumpIfZero(alternate), alternate);
      BelowMore(code + [JumpIfZero(alternate)], alternate, labels);
      UnboundPlain(code, JumpIfZero(alternate), alternate);
      UnboundPlain(code, JumpIfZero(alternate), end);
      Emit(JumpIfZero(alternate));
      ghost var (before, t) := (code, labels);
      ok := CompileBlock(s.thenBranch, k, c);
      if !ok { return; }
      ghost var ca := CodeBlock(Enter(c), s.thenBranch, k, t);
      BlockMarks(Enter(c), s.thenBranch, k, t);
      StaysUnbound(before, ca, alternate, t, labels);
      StaysUnbound(before, ca, end, t, labels);
      Turn(alternate, end);
      BelowTurn(before + ca, alternate, end, labels);
      ghost var (middle, t') := (code, labels);
      ok := CompileBlock(s.elseBranch, k + |BlockLets(s.thenBranch)|, c);
      if !ok { return; }
      BlockMarks(Enter(c), s.elseBranch, k + |BlockLets(s.thenBranch)|, t');
      StaysUnbound(middle, CodeBlock(Enter(c), s.elseBranch, k + |BlockLets(s.thenBranch)|, t'), end, t', labels);
      Bind(end);
    }

    method Turn(alternate: nat, end: nat)
      requires Unbound(code, alternate) && Unbound(code, end) && alternate != end
      modifies this`code
      ensures code == old(code) + [Jump(end)] + [Mark(alternate)] && Unbound(code, end)
    {
      Emit(Jump(end));
      Bind(alternate);
    }

    method CompileLoop(s: Stmt, k: nat, ghost c: Context) returns (ok: bool)
      requires c == Here() && c.scopes != [] && Below(code, labels) && (s.While? || s.Loop?)
      requires Preallocated(preallocated, currentFunction, c.frame, StmtLets(s), k)
      modifies this`code, this`labels, this`scopes, this`loops
      ensures ok <==> StmtOk(c, s, k)
      ensures ok ==> Emitted(old(code), code, CodeStmt(c, s, k, old(labels)), old(labels), labels, StmtTags(s))
      ensures ok ==> Here() == After(c, s, k) && loops == old(loops)
      decreases s, 2
    {
      hide Below, StmtOk, CodeStmt, StmtTags, After, StmtLets, BlockLets, BlockTags, BlockOk, CodeBlock, Preallocated,
           LoopCode, LoopCondition, LoopBody, BodyTag, ExprOk;
      var condition := if s.While? then [s.condition] else [];
      LoopShape(c, s, k, labels, condition);
      var start := Label();
      var end := Label();
      ok := CompileLoopParts(condition, s.body, k, start, end, c, s);
      if ok {
        LoopAssembled(old(code), LoopCondition(c, condition, start), LoopBody(c, condition, s.body, k, start), start,
                      code);
        StmtEmitted(c, s, k, old(code), code, old(labels), labels);
      }
    }

    method CompileLoopParts(condition: seq<Expr>, body: seq<Stmt>, k: nat, start: nat, end: nat, ghost c: Context,
                            ghost s: Stmt) returns (ok: bool)
      requires c == Here() && c.scopes != [] && Below(code, start) && end == start + 1 && labels == start + 2
               && |condition| <= 1
      requires Preallocated(preallocated, currentFunction, c.frame, BlockLets(body), k)
      requires (s.While? || s.Loop?) && s.body == body
      modifies this`code, this`labels, this`scopes, this`loops
      ensures ok <==> (condition != [] ==> ExprOk(c, condition[0], Bool)) && BlockOk(Enter(InLoop(c, start)), body, k)
      ensures ok ==> labels == BodyTag(condition, start) + BlockTags(body) && Here() == c && loops == old(loops)
      ensures ok ==>
                code == old(code) + [Mark(start)] + LoopCondition(c, condition, start)
                + LoopBody(c, condition, body, k, start) + [Jump(start)] + [Mark(end)]
      decreases s, 1
    {
      hide Below, Unbound, MarksIn, BlockLets, BlockTags, BlockOk, Preallocated, LoopCondition, LoopBody, BodyTag;
      BelowUnbound(code, start, start);
      BelowUnbound(code, start, end);
      UnboundOther(code, start, end);
      BelowMark(code, start, labels);
      Bind(start);
      ok := CompileCondition(condition, start, end, c);
      if !ok { return; }
      ok := CompileLoopBody(condition, body, k, start, end, c, s);
      if !ok { return; }
      UnboundPlain(code, Jump(start), end);
      Emit(Jump(start));
      Bind(end);
    }

    method CompileLoopBody(condition: seq<Expr>, body: seq<Stmt>, k: nat, start: nat, end: nat, ghost c: Context,
                           ghost s: Stmt) returns (ok: bool)
      requires c == Here() && c.scopes != [] && Below(code, labels) && end == start + 1 && |condition| <= 1
      requires labels == BodyTag(condition, start) && Unbound(code, end)
      requires Preallocated(preallocated, currentFunction, c.frame, BlockLets(body), k)
      requires (s.While? || s.Loop?) && s.body == body
      modifies this`code, this`labels, this`scopes, this`loops
      ensures ok <==> BlockOk(Enter(InLoop(c, start)), body, k)
      ensures ok ==> labels == old(labels) + BlockTags(body) && Here() == c && loops == old(loops)
      ensures ok ==> code == old(code) + LoopBody(c, condition, body, k, start) && Unbound(code, end)
      decreases s, 0
    {
      hide Below, Unbound, MarksIn, BlockLets, BlockTags, BlockOk, CodeBlock, Preallocated, Tags;
      loops := loops + [(start, end)];
      ok := CompileBlock(body, k, InLoop(c, start));
      if !ok { return; }
      assert loops[..|loops| - 1] == old(loops);
      loops := loops[..|loops| - 1];
      BlockMarks(Enter(InLoop(c, start)), body, k, old(labels));
      StaysUnbound(old(code), LoopBody(c, condition, body, k, start), end, old(labels), labels);
    }

    method CompileCondition(condition: seq<Expr>, start: nat, end: nat, ghost c: Context) returns (ok: bool)
      requires c == Here() && Below(code, labels) && end == start + 1 && labels == start + 2 && |condition| <= 1
               && Unbound(code, end)
      modifies this`code, this`labels
      ensures ok <==> (condition != [] ==> ExprOk(c, condition[0], Bool))
      ensures ok ==>
                code == old(code) + LoopCondition(c, condition, start) && labels == BodyTag(condition, start)
                && Below(code, labels) && Unbound(code, end)
    {
      hide Below, Unbound, MarksIn, CodeExpr, KindOf, Tags;
      if condition == [] { return true; }
      var kind := CompileExpression(condition[0]);
      if kind != Scalar(Bool) { return false; }
      ghost var ce := CodeExpr(c.fns, c.scopes, condition[0], start + 2);
      ExprMarks(c.fns, c.scopes, condition[0], start + 2);
      StaysUnbound(old(code), ce, end, start + 2, labels);
      UnboundPlain(code, JumpIfZero(end), end);
      BelowPlain(code, JumpIfZero(end), labels);
      Emit(JumpIfZero(end));
      ok := true;
    }

    method CompileBlock(ss: seq<Stmt>, k: nat, ghost c: Context) returns (ok: bool)
      requires c == Here() && Below(code, labels)
               && Preallocated(preallocated, currentFunction, c.frame, BlockLets(ss), k)
      modifies this`code, this`labels, this`scopes, this`loops
      ensures ok <==> BlockOk(Enter(c), ss, k)
      ensures ok ==>
                Emitted(old(code), code, CodeBlock(Enter(c), ss, k, old(labels)), old(labels), labels, BlockTags(ss))
      ensures ok ==> Here() == c && loops == old(loops)
      decreases ss, 0
    {
      hide Below, StmtOk, CodeStmt, StmtTags, StmtLets, Preallocated, After, BlockOk, CodeBlock, BlockTags, BlockLets,
           BlockSoFar;
      scopes := scopes + [map[]];
      var i := 0;
      var ordinal: nat := k;
      ghost var d := Enter(c);
      BlockStarts(d, ss, k, labels, code);
      assert ss[0..] == ss;
      while i < |ss|
        invariant 0 <= i <= |ss| && Below(code, labels) && loops == old(loops)
        invariant d == Here() && d.scopes != [] && d == c.(scopes := d.scopes) && Outer(d.scopes) == c.scopes
        invariant BlockSoFar(Enter(c), ss, k, old(labels), old(code), i, d, ordinal, labels, code)
        invariant Preallocated(preallocated, currentFunction, c.frame, BlockLets(ss[i..]), ordinal)
      {
        RestPreallocated(preallocated, currentFunction, c.frame, ss, i, ordinal);
        ghost var (t, before) := (labels, code);
        ok := CompileStatement(ss[i], ordinal, d);
        if !ok {
          BlockRefused(Enter(c), ss, k, old(labels), old(code), i, d, ordinal, t, before);
          return;
        }
        BlockAdvances(Enter(c), ss, k, old(labels), old(code), i, d, ordinal, t, before);
        AfterContext(d, ss[i], ordinal);
        d := After(d, ss[i], ordinal);
        ordinal := ordinal + |StmtLets(ss[i])|;
        i := i + 1;
      }
      BlockEnds(Enter(c), ss, k, old(labels), old(code), d, ordinal, labels, code);
      scopes := scopes[..|scopes| - 1];
      ok := true;
    }

    // ----- slots -----

    ghost function Allocator(frame: seq<Local>): Progress
      reads this
    {
      Progress(nextLocal, localBytes, preallocated, frame)
    }

    predicate Within()
      reads this
    {
      nextLocal <= MAX_LOCALS && localBytes <= LOCAL_BYTES
    }

    method AllocateLocal(kind: Kind) returns (local: seq<Local>)
      requires Within()
      modifies this`nextLocal, this`localBytes
      ensures local != [] <==> Room(old(nextLocal), old(localBytes), [kind])
      ensures local != [] ==> Within() && local == Slots([kind], old(localBytes))
      ensures local != [] ==> nextLocal == old(nextLocal) + 1 && localBytes == End([kind], old(localBytes))
    {
      hide Slots, End;
      if nextLocal == MAX_LOCALS { return []; }
      var aligned := Aligned(localBytes, Bytes(kind));
      var next := aligned + Bytes(kind);
      OneSlot(kind, localBytes);
      if next > LOCAL_BYTES { return []; }
      nextLocal := nextLocal + 1;
      localBytes := next;
      local := [Local(aligned, kind)];
    }

    method PreallocateStatement(f: string, s: Stmt, before: seq<Local>) returns (ok: bool, frame: seq<Local>)
      requires Within()
      modifies this`nextLocal, this`localBytes, this`preallocated
      ensures ok <==> Room(old(nextLocal), old(localBytes), StmtLets(s))
      ensures ok ==> Within() && Allocator(frame) == Taken(old(Allocator(before)), f, StmtLets(s))
      decreases s, 1
    {
      hide BlockLets, Room, Taken, Slots, End;
      ghost var p := Allocator(before);
      frame := before;
      if s.Let? {
        TakenOne(p, f, s.kind);
        var local := AllocateLocal(s.kind);
        ok := local != [];
        if ok {
          preallocated := preallocated[(f, |frame|) := local[0]];
          frame := frame + local;
        }
      } else if s.If? {
        RoomSplit(nextLocal, localBytes, BlockLets(s.thenBranch), BlockLets(s.elseBranch));
        ok, frame := PreallocateBlock(f, s.thenBranch, frame);
        if !ok { return; }
        TakenCounters(p, f, BlockLets(s.thenBranch));
        TakenAppend(p, f, BlockLets(s.thenBranch), BlockLets(s.elseBranch));
        ok, frame := PreallocateBlock(f, s.elseBranch, frame);
      } else if s.While? || s.Loop? {
        ok, frame := PreallocateBlock(f, s.body, frame);
      } else {
        ok := true;
        TakenNone(p, f);
        RoomNone(nextLocal, localBytes);
      }
    }

    method PreallocateBlock(f: string, ss: seq<Stmt>, before: seq<Local>) returns (ok: bool, frame: seq<Local>)
      requires Within()
      modifies this`nextLocal, this`localBytes, this`preallocated
      ensures ok <==> Room(old(nextLocal), old(localBytes), BlockLets(ss))
      ensures ok ==> Within() && Allocator(frame) == Taken(old(Allocator(before)), f, BlockLets(ss))
      decreases ss, 0
    {
      ghost var p := Allocator(before);
      frame := before;
      var i := 0;
      assert ss[0..] == ss;
      while i < |ss|
        invariant 0 <= i <= |ss| && Within()
        invariant Room(p.next, p.bytes, BlockLets(ss)) == Room(nextLocal, localBytes, BlockLets(ss[i..]))
        invariant Taken(p, f, BlockLets(ss)) == Taken(Allocator(frame), f, BlockLets(ss[i..]))
      {
        hide Room, Taken, StmtLets, Slots, End;
        ghost var (q, a, b) := (Allocator(frame), StmtLets(ss[i]), BlockLets(ss[i + 1..]));
        assert ss[i..][1..] == ss[i + 1..] && BlockLets(ss[i..]) == a + b;
        RoomSplit(nextLocal, localBytes, a, b);
        ok, frame := PreallocateStatement(f, ss[i], frame);
        if !ok { return; }
        TakenCounters(q, f, a);
        TakenAppend(q, f, a, b);
        i := i + 1;
      }
      TakenNone(Allocator(frame), f);
      RoomNone(nextLocal, localBytes);
      ok := true;
    }

    // ----- functions -----

    method AllocateParameters(ps: seq<Parameter>) returns (ok: bool, frame: seq<Local>)
      requires Within()
      modifies this`nextLocal, this`localBytes
      ensures ok <==> Room(old(nextLocal), old(localBytes), ParameterKinds(ps))
      ensures ok ==> Within() && frame == Slots(ParameterKinds(ps), old(localBytes))
      ensures ok ==> nextLocal == old(nextLocal) + |ps| && localBytes == End(ParameterKinds(ps), old(localBytes))
    {
      frame := [];
      var i := 0;
      ghost var (n, b) := (nextLocal, localBytes);
      assert ps[..0] == [];
      while i < |ps|
        invariant 0 <= i <= |ps| && Within() && Room(n, b, ParameterKinds(ps[..i]))
        invariant frame == Slots(ParameterKinds(ps[..i]), b) && nextLocal == n + i
                  && localBytes == End(ParameterKinds(ps[..i]), b)
      {
        hide Slots, End, ParameterKinds, Room;
        ParameterKindsAt(ps, i);
        SlotsAppend(ParameterKinds(ps[..i]), [ps[i].kind], b);
        RoomSplit(n, b, ParameterKinds(ps[..i]), [ps[i].kind]);
        var local := AllocateLocal(ps[i].kind);
        if local == [] {
          ParametersFull(ps, i, n, b);
          return false, [];
        }
        frame := frame + local;
        i := i + 1;
      }
      assert ps[..i] == ps;
      ok := true;
    }

    method RegisterFunction(fn: Function) returns (ok: bool)
      requires Within()
      modifies this`labels, this`nextLocal, this`localBytes, this`preallocated, this`functions
      ensures ok <==> Room(old(nextLocal), old(localBytes), FrameKinds(fn))
      ensures ok ==>
                Within() && labels == old(labels) + 1 && localBytes == NextBytes(fn, old(localBytes))
                && nextLocal == old(nextLocal) + |FrameKinds(fn)|
      ensures ok ==> functions == old(functions)[fn.name := InfoAt(fn, old(labels), old(localBytes))]
      ensures ok ==> Known(preallocated, Routine(fn, InfoAt(fn, old(labels), old(localBytes))))
      ensures ok ==> forall r :: Known(old(preallocated), r) && r.fn.name != fn.name ==> Known(preallocated, r)
    {
      hide Slots, End, ParameterKinds, Room, BlockLets, Known;
      var label' := Label();
      ghost var p := Allocator([]);
      RoomSplit(nextLocal, localBytes, ParameterKinds(fn.parameters), BlockLets(fn.body));
      var frame;
      ok, frame := AllocateParameters(fn.parameters);
      if !ok { return; }
      var parameters := frame;
      ghost var q := Allocator(frame);
      ok, frame := PreallocateBlock(fn.name, fn.body, frame);
      if !ok { return; }
      FrameTaken(p, q, Allocator(frame), fn);
      functions := functions[fn.name := Info(label', parameters, frame, fn.returning)];
      forall r | Known(old(preallocated), r) && r.fn.name != fn.name ensures Known(preallocated, r) {
        KnownKept(old(preallocated), fn.name, Slots(BlockLets(fn.body), q.bytes), |q.frame|, r);
      }
    }

    /** Labels and slots for every function, before any code is emitted. */
    method Register(fs: seq<Function>) returns (ok: bool)
      requires Within() && nextLocal == 0 && localBytes == 0 && labels == ROUTINE_LABELS && functions == map[]
               && DistinctNames(fs)
      modifies this`labels, this`nextLocal, this`localBytes, this`preallocated, this`functions
      ensures ok <==> SlotsFit(fs)
      ensures ok ==> functions == Table(Routines'(fs)) && labels == ROUTINE_LABELS + |fs|
      ensures ok ==> forall i :: 0 <= i < |fs| ==> Known(preallocated, Routines'(fs)[i])
    {
      FiledNone(fs, preallocated);
      hide Filed, Known, SlotsFit, Routines', Table, Room, FrameKinds, InfoAt, NextBytes, DistinctNames;
      var i := 0;
      while i < |fs|
        invariant 0 <= i <= |fs| && Within()
        invariant Filed(fs, i, nextLocal, localBytes, labels, functions, preallocated)
      {
        ghost var before := (nextLocal, localBytes, labels, functions, preallocated);
        ok := RegisterFunction(fs[i]);
        if !ok {
          FiledFull(fs, i, before.0, before.1, before.2, before.3, before.4);
          return;
        }
        FiledNext(fs, i, before.0, before.1, before.2, before.3, before.4, preallocated);
        i := i + 1;
      }
      FiledAll(fs, nextLocal, localBytes, labels, functions, preallocated);
      ok := true;
    }

    /** The scope a function's body starts in. */
    method CollectParameters(ps: seq<Parameter>, slots: seq<Local>) returns (scope: map<string, Local>)
      requires |ps| <= |slots|
      ensures scope == ParameterScope(ps, slots)
    {
      scope := map[];
      var i := 0;
      while i < |ps|
        invariant 0 <= i <= |ps|
        invariant scope == ParameterScope(ps[..i], slots)
      {
        scope := scope[ps[i].name := slots[i]];
        assert ps[..i + 1][..i] == ps[..i];
        i := i + 1;
      }
      assert ps[..i] == ps;
    }

    method CompileFunction(fn: Function, main: bool) returns (ok: bool)
      requires fn.name in functions && Known(preallocated, Routine(fn, functions[fn.name]))
      requires var info := functions[fn.name];
               |fn.parameters| <= |info.frame| && info.parameters == info.frame[..|fn.parameters|]
                   && Unbound(code, info.tag) && info.tag < labels
      requires scopes == [] && Below(code, labels)
      modifies this`code, this`labels, this`scopes, this`loops, this`currentFunction, this`currentReturn,
               this`currentIsMain
      ensures ok <==> BlockOk(Enter(BodyContext(functions, fn, functions[fn.name], main)), fn.body, |fn.parameters|)
      ensures ok ==> scopes == []
      ensures ok ==>
                Emitted(old(code), code, FunctionCode(functions, fn, functions[fn.name], main, old(labels)),
                        old(labels), labels, BlockTags(fn.body))
    {
      hide BlockOk, CodeBlock, BlockTags, BlockLets, ParameterScope, Preallocated, Below, Unbound;
      var info := functions[fn.name];
      BelowBind(code, info.tag, labels);
      Bind(info.tag);
      currentReturn := info.returning;
      currentIsMain := main;
      currentFunction := fn.name;
      loops := [];
      var scope := CollectParameters(fn.parameters, info.parameters);
      ParameterPrefix(fn.parameters, info.frame);
      scopes := scopes + [scope];
      ghost var c := BodyContext(functions, fn, info, main);
      assert scopes == [scope] && c == Here();
      ok := CompileBlock(fn.body, |fn.parameters|, c);
      if !ok { return; }
      ghost var block := CodeBlock(Enter(c), fn.body, |fn.parameters|, old(labels));
      ghost var before := code;
      scopes := scopes[..|scopes| - 1];
      if !main {
        if currentReturn.Scalar? {
          Emit(Jump(ARITHMETIC_LABEL));
        } else {
          Emit(Ret);
        }
      }
      FunctionAssembled(old(code), info, block, main, before, code, labels);
    }

    method EmitRoutines()
      requires Unbound(code, ARITHMETIC_LABEL) && Unbound(code, STACK_LABEL) && Unbound(code, HALT_LABEL)
      modifies this`code
      ensures code == old(code) + ROUTINES
    {
      Bind(ARITHMETIC_LABEL);
      Emit(Stop(ArithmeticFailure));
      Bind(STACK_LABEL);
      Emit(Stop(StackFailure));
      Bind(HALT_LABEL);
      Emit(Stop(Halted));
    }

    /** Where `main` is declared. */
    static method FindMain(fs: seq<Function>) returns (i: nat)
      requires MainIndex(fs) < |fs|
      ensures i == MainIndex(fs)
    {
      i := 0;
      assert fs[0..] == fs;
      while fs[i].name != "main"
        invariant i < |fs| && i + MainIndex(fs[i..]) == MainIndex(fs)
        decreases |fs| - i
      {
        assert fs[i..][1..] == fs[i + 1..];
        i := i + 1;
      }
    }

    constructor ()
      ensures code == [] && labels == ROUTINE_LABELS && scopes == [] && functions == map[] && nextLocal == 0
              && localBytes == 0
    {
      code, labels, scopes, functions := [], ROUTINE_LABELS, [], map[];
      nextLocal, localBytes, preallocated := 0, 0, map[];
      currentFunction, currentReturn, currentIsMain, loops := "", Unit, true, [];
    }

    /** Every function is registered and none is compiled twice. */
    ghost predicate Ready'(fs: seq<Function>)
      reads this
    {
      && DistinctNames(fs) && SlotsFit(fs) && functions == Table(Routines'(fs)) && scopes == []
      && Below(code, labels) && ROUTINE_LABELS + |fs| <= labels
      && forall i :: 0 <= i < |fs| ==> Known(preallocated, Routines'(fs)[i])
    }

    lemma ReadyNames(fs: seq<Function>)
      requires Ready'(fs)
      ensures DistinctNames(fs)
    {
    }

    /** One function, whose label the whole program binds only here. */
    method CompileNext(fs: seq<Function>, i: nat, main: bool, ghost rest: Code) returns (ok: bool)
      requires Ready'(fs) && i < |fs| && main == (fs[i].name == "main")
      requires UniqueMarks(code + (FunctionCode(functions, fs[i], Routines'(fs)[i].info, main, labels) + rest))
      modifies this`code, this`labels, this`scopes, this`loops, this`currentFunction, this`currentReturn,
               this`currentIsMain
      ensures ok <==> BodyOk(functions, Routines'(fs)[i])
      ensures ok ==> Ready'(fs) && labels == old(labels) + BlockTags(fs[i].body)
      ensures ok ==> code == old(code) + FunctionCode(functions, fs[i], Routines'(fs)[i].info, main, old(labels))
    {
      hide Below, Unbound, BlockOk, UniqueMarks, BlockTags, Table, Known, FunctionCode, SlotsFit, DistinctNames;
      RegistryFacts(fs, i);
      NextUnbound(code, functions, fs[i], Routines'(fs)[i].info, main, labels, rest);
      ok := CompileFunction(fs[i], main);
    }

    /** The functions after `main`, in the order of the program. */
    method CompileOthers(fs: seq<Function>, main: nat, ghost t: nat) returns (ok: bool)
      requires Ready'(fs) && main == MainIndex(fs) < |fs|
      requires code + (OthersCode(functions, Without(Routines'(fs), main), labels) + ROUTINES)
               == ProgramCode(Routines'(fs), main, t)
      requires UniqueMarks(ProgramCode(Routines'(fs), main, t))
      modifies this`code, this`labels, this`scopes, this`loops, this`currentFunction, this`currentReturn,
               this`currentIsMain
      ensures ok <==> forall i :: 0 <= i < |fs| && i != main ==> BodyOk(functions, Routines'(fs)[i])
      ensures ok ==> code == old(code) + OthersCode(functions, Without(Routines'(fs), main), old(labels))
    {
      hide FunctionCode, UniqueMarks, BlockTags, Ready', ProgramCode, BodyOk, MainIndex, Routines', DistinctNames,
           OthersCode, Remaining, Without;
      ReadyNames(fs);
      ghost var whole := code + OthersCode(functions, Without(Routines'(fs), main), labels);
      assert whole + ROUTINES == ProgramCode(Routines'(fs), main, t);
      RemainingAll(fs, main, functions, labels, code);
      var i := 0;
      while i < |fs|
        invariant 0 <= i <= |fs| && Ready'(fs)
        invariant Remaining(fs, main, i, functions, labels, code, whole)
      {
        MainOnly(fs, i);
        if fs[i].name != "main" {
          ghost var (before, t') := (code, labels);
          ghost var rest := RemainingStep(fs, main, i, functions, t', before, whole);
          ok := CompileNext(fs, i, false, rest + ROUTINES);
          if !ok { return; }
          RemainingNext(fs, main, i, functions, t', before, whole);
        } else {
          RemainingSkip(fs, main, functions, labels, code, whole);
        }
        i := i + 1;
      }
      RemainingNone(fs, main, functions, labels, code, whole);
      ok := true;
    }

    /** `main`, the other functions and the routines. */
    method EmitProgram(fs: seq<Function>, main: nat) returns (ok: bool)
      requires Ready'(fs) && main == MainIndex(fs) < |fs| && code == [] && labels == ROUTINE_LABELS + |fs|
      modifies this`code, this`labels, this`scopes, this`loops, this`currentFunction, this`currentReturn,
               this`currentIsMain
      ensures ok <==> forall i :: 0 <= i < |fs| ==> BodyOk(functions, Routines'(fs)[i])
      ensures ok ==> code == ProgramCode(Routines'(fs), main, old(labels))
    {
      hide Registered, FunctionCode, OthersCode, UniqueMarks, BlockTags, ProgramCode, BodyOk, MainIndex, DistinctNames,
           SlotsFit, Table, Known, LinkProgram, Compiled, Below, Routines';
      ghost var (rs, t) := (Routines'(fs), labels);
      ProgramShape(fs, main, functions);
      MainNamed(fs);
      ghost var tail := [Jump(HALT_LABEL)]
          + (OthersCode(functions, Without(rs, main), t + BlockTags(fs[main].body)) + ROUTINES);
      assert [] + (FunctionCode(functions, fs[main], rs[main].info, true, t) + tail) == ProgramCode(rs, main, t);
      ok := CompileNext(fs, main, true, tail);
      if !ok { return; }
      BelowPlain(code, Jump(HALT_LABEL), labels);
      ghost var before := code;
      Emit(Jump(HALT_LABEL));
      ghost var others := OthersCode(functions, Without(rs, main), labels);
      TailJoins(before, others, code);
      ok := CompileOthers(fs, main, t);
      if !ok { return; }
      assert code + ROUTINES == ProgramCode(rs, main, t) by { JoinsTail(before, others, code); }
      RoutinesUnbound(code);
      EmitRoutines();
    }

    /** The whole program: slots and labels first, then the code. */
    method Compile(fs: seq<Function>) returns (ok: bool)
      requires code == [] && labels == ROUTINE_LABELS && scopes == [] && functions == map[] && nextLocal == 0
               && localBytes == 0
      requires DistinctNames(fs) && MainIndex(fs) < |fs|
      modifies this
      ensures ok <==> Accepted(fs)
      ensures ok ==> code == Compiled(fs).code
    {
      hide SlotsFit, BodyOk, MainIndex, DistinctNames, Table, Known, ProgramCode, Routines', FunctionCode, OthersCode,
           BlockTags, Without;
      ok := Register(fs);
      if !ok { return; }
      var main := FindMain(fs);
      ProgramShape(fs, main, functions);
      ok := EmitProgram(fs, main);
    }
  }
}
