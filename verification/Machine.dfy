/**
 * The machine the code generator targets: an accumulator with two helper registers, static local
 * memory, a downward stack of 16- and 32-bit entries, labels, and three ways to stop.
 */
module Machine {
  import opened Kinds
  import opened CheckedArithmetic
  import B = Bytes
  import opened Source

  const LOCAL_BYTES: nat := 4096
  /** Bytes between the stack's origin (0x7c00) and its floor (0x7000). */
  const STACK_BYTES: nat := 3072
  const EXPRESSION_RESERVE: nat := 1024

  datatype Local = Local(at: nat, kind: Kind)

  datatype Instr =
    | Mark(tag: nat)
    | Load(local: Local)
    | Save(local: Local)
    | Narrow(value: nat)
    | Full(value: nat)
    | Push(wide: bool)
    | Pop(wide: bool)
    | ToSecondary(wide: bool)
    | ToTertiary(wide: bool)
    | FromTertiary(wide: bool)
    | Invert
    | Minus
    | Operate(op: Operator, kind: Kind)
    | Test(comparison: Comparison, kind: Kind)
    | JumpIfZero(tag: nat)
    | JumpIfNonzero(tag: nat)
    | Jump(tag: nat)
    | Guard(required: nat)
    | CallLabel(tag: nat)
    | Ret
    | Show(kind: Kind)
    | ShowText(text: string)
    | Stop(reason: Reason)

  datatype Reason = Halted | ArithmeticFailure | StackFailure

  const ARITHMETIC_LABEL: nat := 0
  const STACK_LABEL: nat := 1
  const HALT_LABEL: nat := 2

  datatype Entry = Cell(bytes: nat, word: Word) | Link(pc: nat)

  type Memory = m: seq<B.Byte> | |m| == LOCAL_BYTES witness seq(LOCAL_BYTES, _ => 0)

  datatype Registers = Registers(pc: nat, eax: Word, ebx: Word, ecx: Word, mem: Memory, stack: seq<Entry>, out: Output)

  /** `Stuck` stands for anything the compiled code must never do: a wild jump, a mismatched pop, a
      push below the stack floor into local memory. */
  datatype State = On(m: Registers) | Off(reason: Reason, out: Output) | Stuck

  type Code = seq<Instr>

  function EntryBytes(e: Entry): nat
  {
    if e.Link? then 2 else e.bytes
  }

  function Depth(stack: seq<Entry>): nat
  {
    if stack == [] then 0 else Depth(stack[..|stack| - 1]) + EntryBytes(stack[|stack| - 1])
  }

  predicate Fits'(l: Local)
  {
    l.at + Bytes(l.kind) <= LOCAL_BYTES
  }

  function ReadLocal(mem: Memory, l: Local): (n: nat)
    requires Fits'(l)
  {
    B.FromLe(mem[l.at..l.at + Bytes(l.kind)])
  }

  function WriteLocal(mem: Memory, l: Local, v: nat): Memory
    requires Fits'(l)
  {
    mem[..l.at] + B.Le(v, Bytes(l.kind)) + mem[l.at + Bytes(l.kind)..]
  }

  lemma ReadBound(mem: Memory, l: Local)
    requires Fits'(l)
    ensures ReadLocal(mem, l) < TWO_32
    ensures !Wide(l.kind) ==> ReadLocal(mem, l) < TWO_16
    ensures l.kind == U8 ==> ReadLocal(mem, l) < TWO_8
  {
    B.Pow256Constants();
    assert B.Pow256(1) == 256 && B.Pow256(2) == 65536;
  }

  /** Loading a byte clears the rest of the low half; a word keeps the upper half. */
  function Loaded(mem: Memory, l: Local, eax: Word): Word
    requires Fits'(l)
  {
    ReadBound(mem, l);
    if Wide(l.kind) then ReadLocal(mem, l) else SetLow(eax, ReadLocal(mem, l))
  }

  function Moved(wide: bool, from: Word, to: Word): Word
  {
    if wide then from else SetLow(to, Low(from))
  }

  /** Where a label is bound; the end of the code if it is not. */
  function Target(code: Code, tag: nat): nat
  {
    Find(code, tag, 0)
  }

  function Find(code: Code, tag: nat, from: nat): (i: nat)
    requires from <= |code|
    ensures from <= i <= |code|
    decreases |code| - from
  {
    if from == |code| || code[from] == Mark(tag) then from else Find(code, tag, from + 1)
  }

  function PushEntry(m: Registers, e: Entry): State
  {
    if Depth(m.stack) + EntryBytes(e) > STACK_BYTES then Stuck
    else On(m.(pc := m.pc + 1, stack := m.stack + [e]))
  }

  function WithResult(code: Code, m: Registers, r: Result): State
  {
    match r
    case Trap => On(m.(pc := Target(code, ARITHMETIC_LABEL)))
    case Done(v) => On(m.(pc := m.pc + 1, eax := v))
  }

  function Step(code: Code, s: State): State
  {
    match s
    case Off(_, _) => s
    case Stuck => s
    case On(m) => if m.pc >= |code| then Stuck else Execute(code, m, code[m.pc])
  }

  function Execute(code: Code, m: Registers, i: Instr): State
  {
    match i
    case Mark(_) => On(m.(pc := m.pc + 1))
    case Load(l) => if Fits'(l) then On(m.(pc := m.pc + 1, eax := Loaded(m.mem, l, m.eax))) else Stuck
    case Save(l) => if Fits'(l) then On(m.(pc := m.pc + 1, mem := WriteLocal(m.mem, l, m.eax))) else Stuck
    case Narrow(v) => if v < TWO_16 then On(m.(pc := m.pc + 1, eax := SetLow(m.eax, v))) else Stuck
    case Full(v) => if v < TWO_32 then On(m.(pc := m.pc + 1, eax := v)) else Stuck
    case Push(wide) => PushEntry(m, if wide then Cell(4, m.eax) else Cell(2, Low(m.eax)))
    case Pop(wide) =>
      if m.stack == [] then Stuck
      else
        var top := m.stack[|m.stack| - 1];
        if top.Link? || top.bytes != (if wide then 4 else 2) then Stuck
        else On(m.(pc := m.pc + 1, eax := Moved(wide, top.word, m.eax), stack := m.stack[..|m.stack| - 1]))
    case ToSecondary(wide) => On(m.(pc := m.pc + 1, ebx := Moved(wide, m.eax, m.ebx)))
    case ToTertiary(wide) => On(m.(pc := m.pc + 1, ecx := Moved(wide, m.eax, m.ecx)))
    case FromTertiary(wide) => On(m.(pc := m.pc + 1, eax := Moved(wide, m.ecx, m.eax)))
    case Invert => On(m.(pc := m.pc + 1, eax := SetLow(m.eax, Numeral(Low(m.eax) == 0))))
    case Minus => WithResult(code, m, X86Negate(m.eax))
    case Operate(op, k) =>
      var r := WithResult(code, m, X86(op, k, m.eax, m.ebx));
      if k == I32 && op == Multiply && r.On?
      then On(r.m.(ecx := SignSpread(ProductLow(m.eax, m.ebx)))) else r
    case Test(c, k) => On(m.(pc := m.pc + 1, eax := SetLow(m.eax, Numeral(X86Compare(c, k, m.eax, m.ebx)))))
    case JumpIfZero(l) => On(m.(pc := if Low(m.eax) == 0 then Target(code, l) else m.pc + 1))
    case JumpIfNonzero(l) => On(m.(pc := if Low(m.eax) != 0 then Target(code, l) else m.pc + 1))
    case Jump(l) => On(m.(pc := Target(code, l)))
    case Guard(required) =>
      On(m.(pc := if Depth(m.stack) + EXPRESSION_RESERVE + required > STACK_BYTES
                  then Target(code, STACK_LABEL) else m.pc + 1))
    case CallLabel(l) =>
      (match PushEntry(m, Link(m.pc + 1))
       case On(n) => On(n.(pc := Target(code, l)))
       case other => other)
    case Ret =>
      if m.stack == [] || !m.stack[|m.stack| - 1].Link? then Stuck
      else On(m.(pc := m.stack[|m.stack| - 1].pc, stack := m.stack[..|m.stack| - 1]))
    case Show(k) => On(m.(pc := m.pc + 1, out := m.out + [Number(k, Shown(k, m.eax))]))
    case ShowText(t) => On(m.(pc := m.pc + 1, out := m.out + [Text(t)]))
    case Stop(reason) => Off(reason, m.out)
  }

  /** The print routines: narrow values are zero-extended, `i32` is read as signed. */
  function Shown(k: Kind, eax: Word): int
  {
    if !Wide(k) then Low(eax) else if Signed(k) then AsSigned(eax) else eax
  }

  function Run(code: Code, s: State, n: nat): State
    decreases n
  {
    if n == 0 then s else Run(code, Step(code, s), n - 1)
  }

  lemma {:induction false} RunAdd(code: Code, s: State, a: nat, b: nat)
    ensures Run(code, s, a + b) == Run(code, Run(code, s, a), b)
    decreases a
  {
    if a > 0 {
      RunAdd(code, Step(code, s), a - 1, b);
    }
  }

  lemma {:induction false} StoppedStays(code: Code, s: State, n: nat)
    requires !s.On?
    ensures Run(code, s, n) == s
    decreases n
  {
    if n > 0 {
      StoppedStays(code, s, n - 1);
    }
  }

  lemma DepthPush(stack: seq<Entry>, e: Entry)
    ensures Depth(stack + [e]) == Depth(stack) + EntryBytes(e)
  {
    assert (stack + [e])[..|stack|] == stack;
  }

  // ----- labels -----

  predicate UniqueMarks(code: Code)
  {
    forall i, j :: 0 <= i < j < |code| && code[i].Mark? && code[j].Mark? ==> code[i].tag != code[j].tag
  }

  lemma {:induction false} FindMark(code: Code, at: nat, from: nat)
    requires at < |code| && code[at].Mark? && UniqueMarks(code) && from <= at
    ensures Find(code, code[at].tag, from) == at
    decreases at - from
  {
    if from < at {
      FindMark(code, at, from + 1);
    }
  }

  /** A bound label is found where it was bound. */
  lemma TargetOfMark(code: Code, at: nat)
    requires at < |code| && code[at].Mark? && UniqueMarks(code)
    ensures Target(code, code[at].tag) == at
  {
    FindMark(code, at, 0);
  }

  // ----- memory -----

  predicate Disjoint(a: Local, b: Local)
  {
    a.at + Bytes(a.kind) <= b.at || b.at + Bytes(b.kind) <= a.at
  }

  predicate Inside(l: Local, i: nat)
  {
    l.at <= i < l.at + Bytes(l.kind)
  }

  lemma WriteBytes(mem: Memory, l: Local, v: nat)
    requires Fits'(l)
    ensures forall i :: 0 <= i < LOCAL_BYTES && !Inside(l, i) ==> WriteLocal(mem, l, v)[i] == mem[i]
    ensures WriteLocal(mem, l, v)[l.at..l.at + Bytes(l.kind)] == B.Le(v, Bytes(l.kind))
  {
    hide B.Le;
  }

  lemma WriteOther(mem: Memory, l: Local, v: nat, other: Local)
    requires Fits'(l) && Fits'(other) && Disjoint(l, other)
    ensures ReadLocal(WriteLocal(mem, l, v), other) == ReadLocal(mem, other)
  {
    var m := WriteLocal(mem, l, v);
    WriteBytes(mem, l, v);
    hide WriteLocal, B.FromLe;
    forall i | other.at <= i < other.at + Bytes(other.kind) ensures m[i] == mem[i] {
      assert !Inside(l, i);
    }
    assert m[other.at..other.at + Bytes(other.kind)] == mem[other.at..other.at + Bytes(other.kind)];
  }

  /** Storing a representing register makes the slot read as the value's pattern. */
  lemma WriteSame(mem: Memory, l: Local, v: nat)
    requires Fits'(l)
    ensures ReadLocal(WriteLocal(mem, l, v), l) == v % B.Pow256(Bytes(l.kind))
  {
    WriteBytes(mem, l, v);
    LeTruncates(v, Bytes(l.kind));
  }

  lemma {:induction false} LeTruncates(v: nat, k: nat)
    ensures B.FromLe(B.Le(v, k)) == v % B.Pow256(k)
    decreases k
  {
    if k > 0 {
      LeTruncates(v / 256, k - 1);
      assert B.Le(v, k)[1..] == B.Le(v / 256, k - 1);
      var (q, p) := (v / 256, B.Pow256(k - 1));
      SplitModulus(v, p);
    }
  }

  lemma SplitModulus(v: nat, p: nat)
    requires p > 0
    ensures v % 256 + 256 * ((v / 256) % p) == v % (256 * p)
  {
    var (q, r) := (v / 256, v % 256);
    var (a, b) := (q / p, q % p);
    DivisionFacts(q, p);
    assert v == 256 * q + r;
    var m := 256 * p;
    assert v == m * a + (256 * b + r) by { assert 256 * (p * a) == m * a; }
    assert 0 <= 256 * b + r < m;
    DivModUnique(v, m, a, 256 * b + r);
  }

  lemma DivModUnique(v: nat, m: nat, a: nat, r: nat)
    requires m > 0 && r < m && v == m * a + r
    ensures v % m == r
  {
    UniqueQuotient(v, m, a, r);
  }

  /** Writing a slot's earlier contents back restores exactly its bytes. */
  lemma WriteBack(mem: Memory, earlier: Memory, l: Local)
    requires Fits'(l)
    ensures var m := WriteLocal(mem, l, ReadLocal(earlier, l));
            forall i :: 0 <= i < LOCAL_BYTES ==> m[i] == if Inside(l, i) then earlier[i] else mem[i]
  {
    hide B.Le, B.FromLe;
    var bytes := earlier[l.at..l.at + Bytes(l.kind)];
    B.LeOfFromLe(bytes);
    WriteBytes(mem, l, ReadLocal(earlier, l));
    var m := WriteLocal(mem, l, ReadLocal(earlier, l));
    assert m[l.at..l.at + Bytes(l.kind)] == bytes;
    forall i | 0 <= i < LOCAL_BYTES && Inside(l, i) ensures m[i] == earlier[i] {
      assert m[l.at..l.at + Bytes(l.kind)][i - l.at] == bytes[i - l.at];
    }
  }
}
