/** Running fragments of code placed somewhere in a program. */
module Execution {
  import opened Kinds
  import opened CheckedArithmetic
  import B = Bytes
  import opened Source
  import opened Machine
  import opened CodeGen
  import opened Represent

  predicate At(code: Code, pc: nat, part: Code)
  {
    pc + |part| <= |code| && code[pc..pc + |part|] == part
  }

  lemma AtSplit(code: Code, pc: nat, a: Code, b: Code)
    requires At(code, pc, a + b)
    ensures At(code, pc, a) && At(code, pc + |a|, b)
  {
    assert code[pc..pc + |a|] == code[pc..pc + |a + b|][..|a|] == (a + b)[..|a|];
    assert code[pc + |a|..pc + |a + b|] == code[pc..pc + |a + b|][|a|..] == (a + b)[|a|..];
  }

  lemma AtHead(code: Code, pc: nat, i: Instr, rest: Code)
    requires At(code, pc, [i] + rest)
    ensures pc < |code| && code[pc] == i && At(code, pc + 1, rest)
  {
    AtSplit(code, pc, [i], rest);
    assert code[pc..pc + 1][0] == i;
  }

  lemma AtOnly(code: Code, pc: nat, i: Instr)
    requires At(code, pc, [i])
    ensures pc < |code| && code[pc] == i
  {
    assert code[pc..pc + 1][0] == i;
  }

  lemma OneStep(code: Code, m: Registers)
    requires m.pc < |code|
    ensures Run(code, On(m), 1) == Execute(code, m, code[m.pc])
  {
    assert Run(code, Step(code, On(m)), 0) == Step(code, On(m));
  }

  /** Continue a run from where its first part arrived. */
  lemma Continue'(code: Code, m: Registers, a: nat, m': Registers, b: nat)
    requires Run(code, On(m), a) == On(m')
    ensures Run(code, On(m), a + b) == Run(code, On(m'), b)
  {
    RunAdd(code, On(m), a, b);
  }

  /** The failure routines and the halt routine. */
  predicate Routines(code: Code, at: nat)
  {
    UniqueMarks(code) && At(code, at, ROUTINES)
  }

  lemma RoutineStops(code: Code, at: nat, m: Registers, i: nat, reason: Reason)
    requires Routines(code, at) && i < 3 && ROUTINES[2 * i] == Mark(i) && ROUTINES[2 * i + 1] == Stop(reason)
    requires m.pc == Target(code, i)
    ensures Run(code, On(m), 2) == Off(reason, m.out)
  {
    hide Run, Target, UniqueMarks, Execute;
    assert code[at + 2 * i] == code[at..at + |ROUTINES|][2 * i] == Mark(i);
    assert code[at + 2 * i + 1] == code[at..at + |ROUTINES|][2 * i + 1] == Stop(reason);
    TargetOfMark(code, at + 2 * i);
    var m1 := m.(pc := m.pc + 1);
    OneStep(code, m);
    ExecuteMark(code, m);
    Continue'(code, m, 1, m1, 1);
    OneStep(code, m1);
    ExecuteStop(code, m1, reason);
  }

  lemma ExecuteMark(code: Code, m: Registers)
    requires m.pc < |code| && code[m.pc].Mark?
    ensures Execute(code, m, code[m.pc]) == On(m.(pc := m.pc + 1))
  {
  }

  lemma ExecuteStop(code: Code, m: Registers, reason: Reason)
    requires m.pc < |code| && code[m.pc] == Stop(reason)
    ensures Execute(code, m, code[m.pc]) == Off(reason, m.out)
  {
  }

  lemma ArithmeticStops(code: Code, at: nat, m: Registers)
    requires Routines(code, at) && m.pc == Target(code, ARITHMETIC_LABEL)
    ensures Run(code, On(m), 2) == Off(ArithmeticFailure, m.out)
  {
    RoutineStops(code, at, m, 0, ArithmeticFailure);
  }

  lemma StackStops(code: Code, at: nat, m: Registers)
    requires Routines(code, at) && m.pc == Target(code, STACK_LABEL)
    ensures Run(code, On(m), 2) == Off(StackFailure, m.out)
  {
    RoutineStops(code, at, m, 1, StackFailure);
  }

  lemma HaltStops(code: Code, at: nat, m: Registers)
    requires Routines(code, at) && m.pc == Target(code, HALT_LABEL)
    ensures Run(code, On(m), 2) == Off(Halted, m.out)
  {
    RoutineStops(code, at, m, 2, Halted);
  }

  // ----- saving and restoring frames -----

  /** Loads every slot and pushes it: the stack gains exactly the frame's contents. */
  lemma {:induction false} SaveAllRuns(code: Code, m: Registers, ls: seq<Local>) returns (m': Registers)
    requires At(code, m.pc, SaveAll(ls)) && (forall i :: 0 <= i < |ls| ==> Fits'(ls[i]))
    requires Depth(m.stack) + SlotBytes(ls) <= STACK_BYTES
    ensures Run(code, On(m), 2 * |ls|) == On(m')
    ensures m' == m.(pc := m.pc + |SaveAll(ls)|, eax := m'.eax, stack := m.stack + Cells(ls, Contents(m.mem, ls)))
    ensures |SaveAll(ls)| == 2 * |ls|
    decreases |ls|
  {
    hide Run, ReadLocal, At, Depth, Fits', Bytes, Wide, StackBytes;
    if ls == [] {
      m' := m;
      RunZero(code, On(m));
      assert m.stack + Cells(ls, Contents(m.mem, ls)) == m.stack;
    } else {
      var n := |ls| - 1;
      var l := ls[n];
      AtSplit(code, m.pc, SaveAll(ls[..n]), [Load(l), Push(Wide(l.kind))]);
      var m1 := SaveAllRuns(code, m, ls[..n]);
      assert [Load(l), Push(Wide(l.kind))] == [Load(l)] + [Push(Wide(l.kind))];
      AtHead(code, m1.pc, Load(l), [Push(Wide(l.kind))]);
      AtOnly(code, m1.pc + 1, Push(Wide(l.kind)));
      var words := Contents(m.mem, ls);
      assert Contents(m.mem, ls[..n]) == words[..n];
      CellsDepth(m.stack, ls[..n], words[..n]);
      m' := LoadPush(code, m1, l);
      assert Cells(ls, words) == Cells(ls[..n], words[..n]) + [Cell(StackBytes(l.kind), words[n])];
      assert m.stack + Cells(ls, words) == m1.stack + [Cell(StackBytes(l.kind), words[n])];
      Continue'(code, m, 2 * n, m1, 2);
    }
  }

  lemma RunZero(code: Code, s: State)
    ensures Run(code, s, 0) == s
  {
  }

  lemma LoadPush(code: Code, m: Registers, l: Local) returns (m': Registers)
    requires m.pc + 1 < |code| && code[m.pc] == Load(l) && code[m.pc + 1] == Push(Wide(l.kind)) && Fits'(l)
    requires Depth(m.stack) + StackBytes(l.kind) <= STACK_BYTES
    ensures Run(code, On(m), 2) == On(m')
    ensures ReadLocal(m.mem, l) < TWO_32
    ensures m' == m.(pc := m.pc + 2, eax := m'.eax, stack := m.stack + [Cell(StackBytes(l.kind), ReadLocal(m.mem, l))])
  {
    hide Run, ReadLocal;
    ReadBound(m.mem, l);
    var m1 := m.(pc := m.pc + 1, eax := Loaded(m.mem, l, m.eax));
    OneStep(code, m);
    assert Run(code, On(m), 1) == On(m1);
    OneStep(code, m1);
    if !Wide(l.kind) { LowOfSetLow(m.eax, ReadLocal(m.mem, l)); }
    m' := m1.(pc := m.pc + 2, stack := m.stack + [Cell(StackBytes(l.kind), ReadLocal(m.mem, l))]);
    assert Run(code, On(m1), 1) == On(m');
    Continue'(code, m, 1, m1, 1);
  }

  lemma WriteTruncates(mem: Memory, l: Local, a: nat, b: nat)
    requires Fits'(l) && (if Wide(l.kind) then a == b else a % TWO_16 == b % TWO_16)
    ensures WriteLocal(mem, l, a) == WriteLocal(mem, l, b)
  {
    if !Wide(l.kind) {
      LeLow(a);
      LeLow(b);
    }
  }

  lemma LeLow(a: nat)
    ensures B.Le(a, 2) == B.Le(a % TWO_16, 2) && B.Le(a, 1) == B.Le(a % TWO_16, 1)
  {
    LowBytes(a);
    TwoBytes(a);
    TwoBytes(a % TWO_16);
  }

  lemma LowBytes(a: nat)
    ensures a % 256 == a % TWO_16 % 256 && a / 256 % 256 == a % TWO_16 / 256 % 256
  {
    var (q, r) := (a / TWO_16, a % TWO_16);
    assert a == 256 * (256 * q) + r && r == 256 * (r / 256) + r % 256;
    assert a == 256 * (256 * q + r / 256) + r % 256;
  }

  lemma TwoBytes(a: nat)
    ensures B.Le(a, 1) == [a % 256] && B.Le(a, 2) == [a % 256, a / 256 % 256]
  {
    assert B.Le(a / 256 / 256, 0) == [] && B.Le(a / 256, 0) == [];
    assert B.Le(a / 256, 1) == [a / 256 % 256];
  }

  lemma PopSave(code: Code, m: Registers, l: Local, word: Word, base: seq<Entry>) returns (m': Registers)
    requires m.pc + 1 < |code| && code[m.pc] == Pop(Wide(l.kind)) && code[m.pc + 1] == Save(l) && Fits'(l)
    requires m.stack == base + [Cell(StackBytes(l.kind), word)] && (!Wide(l.kind) ==> word < TWO_16)
    ensures Run(code, On(m), 2) == On(m')
    ensures m' == m.(pc := m.pc + 2, eax := m'.eax, stack := base, mem := WriteLocal(m.mem, l, word))
  {
    hide Run, WriteLocal, Depth;
    assert m.stack[..|m.stack| - 1] == base;
    var m1 := m.(pc := m.pc + 1, eax := Moved(Wide(l.kind), word, m.eax), stack := base);
    OneStep(code, m);
    assert Run(code, On(m), 1) == On(m1);
    OneStep(code, m1);
    if !Wide(l.kind) { LowOfSetLow(m.eax, Low(word)); }
    WriteTruncates(m.mem, l, m1.eax, word);
    m' := m1.(pc := m.pc + 2, mem := WriteLocal(m.mem, l, word));
    assert Run(code, On(m1), 1) == On(m');
    Continue'(code, m, 1, m1, 1);
  }

  /** Pops every entry into its slot, last one first. */
  lemma {:induction false} UnloadAllRuns(code: Code, m: Registers, ls: seq<Local>, words: seq<nat>, base: seq<Entry>)
      returns (m': Registers)
    requires At(code, m.pc, UnloadAll(ls)) && (forall i :: 0 <= i < |ls| ==> Fits'(ls[i]))
    requires WordsFit(ls, words) && m.stack == base + Cells(ls, words)
    ensures Run(code, On(m), 2 * |ls|) == On(m')
    ensures m' == m.(pc := m.pc + |UnloadAll(ls)|, eax := m'.eax, stack := base, mem := WriteAll(m.mem, ls, words))
    ensures |UnloadAll(ls)| == 2 * |ls|
    decreases |ls|
  {
    hide Run, WriteLocal, At, Fits', Bytes, Wide;
    if ls == [] {
      m' := m;
      RunZero(code, On(m));
      assert base + Cells(ls, words) == base;
    } else {
      var n := |ls| - 1;
      var l := ls[n];
      AtSplit(code, m.pc, [Pop(Wide(l.kind)), Save(l)], UnloadAll(ls[..n]));
      assert [Pop(Wide(l.kind)), Save(l)] == [Pop(Wide(l.kind))] + [Save(l)];
      AtHead(code, m.pc, Pop(Wide(l.kind)), [Save(l)]);
      AtOnly(code, m.pc + 1, Save(l));
      assert Cells(ls, words) == Cells(ls[..n], words[..n]) + [Cell(StackBytes(l.kind), words[n])];
      assert m.stack == (base + Cells(ls[..n], words[..n])) + [Cell(StackBytes(l.kind), words[n])];
      var m1 := PopSave(code, m, l, words[n], base + Cells(ls[..n], words[..n]));
      m' := UnloadAllRuns(code, m1, ls[..n], words[..n], base);
      Continue'(code, m, 2, m1, 2 * n);
    }
  }
}
