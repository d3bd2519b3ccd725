/** The straight-line parts of a call: guard, save, move arguments, enter; and the way back. */
module CallFrames {
  import opened Kinds
  import opened CheckedArithmetic
  import opened Source
  import opened Machine
  import opened CodeGen
  import opened Represent
  import opened Execution
  import opened Endings

  predicate ValuesFit(ls: seq<Local>, vs: seq<int>)
  {
    |vs| == |ls| && forall i :: 0 <= i < |ls| ==> InRange(ls[i].kind, vs[i])
  }

  function Words(ls: seq<Local>, vs: seq<int>): (r: seq<nat>)
    requires ValuesFit(ls, vs)
    ensures WordsFit(ls, r)
  {
    seq(|ls|, i requires 0 <= i < |ls| => Encoded(ls[i].kind, vs[i]))
  }

  predicate ResultOk(returning: Returning, vs: seq<int>, eax: Word)
  {
    match returning
    case Unit => vs == []
    case Scalar(k) => |vs| == 1 && InRange(k, vs[0]) && Represents(k, vs[0], eax)
  }

  /** Too little stack is left for the callee's saved slots, its arguments and the reserve. */
  lemma GuardFails(code: Code, at: nat, m: Registers, required: nat)
    requires Routines(code, at) && m.pc < |code| && code[m.pc] == Guard(required)
    requires Depth(m.stack) + EXPRESSION_RESERVE + required > STACK_BYTES
    ensures Run(code, On(m), 3) == Off(StackFailure, m.out)
  {
    hide Run, Routines, Target, Depth;
    OneStep(code, m);
    var m1 := m.(pc := Target(code, STACK_LABEL));
    Continue'(code, m, 1, m1, 2);
    StackStops(code, at, m1);
  }

  /** The guard passes and the callee's slots are saved below the caller's temporaries. */
  lemma CallOpens(code: Code, m: Registers, required: nat, frame: seq<Local>) returns (m': Registers)
    requires At(code, m.pc, [Guard(required)] + SaveAll(frame)) && (forall i :: 0 <= i < |frame| ==> Fits'(frame[i]))
    requires Depth(m.stack) + EXPRESSION_RESERVE + required <= STACK_BYTES && SlotBytes(frame) <= required
    ensures Run(code, On(m), 1 + 2 * |frame|) == On(m')
    ensures m' == m.(pc := m.pc + 1 + |SaveAll(frame)|, eax := m'.eax,
                     stack := m.stack + Cells(frame, Contents(m.mem, frame)))
    ensures Depth(m'.stack) == Depth(m.stack) + SlotBytes(frame)
  {
    hide Run, Target, Depth, SlotBytes, SaveAll, Cells, Contents, At, Fits';
    AtHead(code, m.pc, Guard(required), SaveAll(frame));
    OneStep(code, m);
    var m1 := m.(pc := m.pc + 1);
    m' := SaveAllRuns(code, m1, frame);
    Continue'(code, m, 1, m1, 2 * |frame|);
    CellsDepth(m.stack, frame, Contents(m.mem, frame));
  }

  /** Arguments move into the parameter slots and control enters the callee. */
  lemma CallEnters(code: Code, m: Registers, ls: seq<Local>, words: seq<nat>, base: seq<Entry>, tag: nat)
      returns (m': Registers)
    requires At(code, m.pc, UnloadAll(ls) + [CallLabel(tag)]) && (forall i :: 0 <= i < |ls| ==> Fits'(ls[i]))
    requires WordsFit(ls, words) && m.stack == base + Cells(ls, words) && Depth(base) + 2 <= STACK_BYTES
    ensures Run(code, On(m), 2 * |ls| + 1) == On(m')
    ensures m' == m.(pc := Target(code, tag), eax := m'.eax, mem := WriteAll(m.mem, ls, words),
                     stack := base + [Link(m.pc + |UnloadAll(ls)| + 1)])
    ensures Depth(m'.stack) == Depth(base) + 2
  {
    hide Run, Target, Depth, UnloadAll, Cells, WriteAll, At, Fits';
    AtSplit(code, m.pc, UnloadAll(ls), [CallLabel(tag)]);
    var m1 := UnloadAllRuns(code, m, ls, words, base);
    AtOnly(code, m1.pc, CallLabel(tag));
    OneStep(code, m1);
    DepthPush(base, Link(m1.pc + 1));
    m' := m1.(pc := Target(code, tag), stack := base + [Link(m1.pc + 1)]);
    Continue'(code, m, 2 * |ls|, m1, 1);
  }

  lemma KeepRuns(code: Code, m: Registers, info: Info, vs: seq<int>) returns (m': Registers)
    requires At(code, m.pc, Keep(info)) && ResultOk(info.returning, vs, m.eax)
    ensures Run(code, On(m), |Keep(info)|) == On(m')
    ensures m' == m.(pc := m.pc + |Keep(info)|, ecx := m'.ecx) && ResultOk(info.returning, vs, m'.ecx)
  {
    hide Represents, InRange;
    m' := m;
    if info.returning.Scalar? {
      AtOnly(code, m.pc, ToTertiary(Wide(info.returning.kind)));
      OneStep(code, m);
      MovedRepresents(info.returning.kind, vs[0], m.eax, m.ecx);
      m' := m.(pc := m.pc + 1, ecx := Moved(Wide(info.returning.kind), m.eax, m.ecx));
    } else {
      RunZero(code, On(m));
    }
  }

  lemma YieldRuns(code: Code, m: Registers, info: Info, vs: seq<int>) returns (m': Registers)
    requires At(code, m.pc, Yield(info)) && ResultOk(info.returning, vs, m.ecx)
    ensures Run(code, On(m), |Yield(info)|) == On(m')
    ensures m' == m.(pc := m.pc + |Yield(info)|, eax := m'.eax) && ResultOk(info.returning, vs, m'.eax)
  {
    hide Represents, InRange;
    m' := m;
    if info.returning.Scalar? {
      AtOnly(code, m.pc, FromTertiary(Wide(info.returning.kind)));
      OneStep(code, m);
      MovedRepresents(info.returning.kind, vs[0], m.ecx, m.eax);
      m' := m.(pc := m.pc + 1, eax := Moved(Wide(info.returning.kind), m.ecx, m.eax));
    } else {
      RunZero(code, On(m));
    }
  }

  function Homeward(info: Info): Code
  {
    Keep(info) + (UnloadAll(info.frame) + Yield(info))
  }

  /** On the way back every saved slot is restored, so the caller sees its own memory again. */
  lemma CallReturns(code: Code, m: Registers, info: Info, vs: seq<int>, earlier: Memory, base: seq<Entry>)
      returns (n: nat, m': Registers)
    requires At(code, m.pc, Homeward(info)) && (forall i :: 0 <= i < |info.frame| ==> Fits'(info.frame[i]))
    requires ResultOk(info.returning, vs, m.eax) && FrameOnly(earlier, m.mem, info.frame)
    requires m.stack == base + Cells(info.frame, Contents(earlier, info.frame))
    ensures Run(code, On(m), n) == On(m') && ResultOk(info.returning, vs, m'.eax)
    ensures m' == m.(pc := m.pc + |Homeward(info)|, eax := m'.eax, ecx := m'.ecx, mem := earlier, stack := base)
  {
    hide Run, UnloadAll, Cells, WriteAll, At, Fits', FrameOnly, Contents, Keep, Yield, ResultOk;
    AtSplit(code, m.pc, Keep(info), UnloadAll(info.frame) + Yield(info));
    var m1 := KeepRuns(code, m, info, vs);
    AtSplit(code, m1.pc, UnloadAll(info.frame), Yield(info));
    var m2 := UnloadAllRuns(code, m1, info.frame, Contents(earlier, info.frame), base);
    WriteAllRestores(m.mem, earlier, info.frame);
    m' := YieldRuns(code, m2, info, vs);
    Continue'(code, m, |Keep(info)|, m1, 2 * |info.frame|);
    Continue'(code, m, |Keep(info)| + 2 * |info.frame|, m2, |Yield(info)|);
    n := |Keep(info)| + 2 * |info.frame| + |Yield(info)|;
  }

  /** The slots of a whole call, laid out after its first instruction. */
  lemma CallLayout(code: Code, pc: nat, info: Info, arguments: Code)
    requires At(code, pc, CallCode(info, arguments))
    ensures var (a, b) := (pc + 1 + |SaveAll(info.frame)|, pc + 1 + |SaveAll(info.frame)| + |arguments|);
            && pc < |code| && code[pc] == Guard(Required(info))
            && At(code, pc, [Guard(Required(info))] + SaveAll(info.frame))
            && At(code, a, arguments) && At(code, b, UnloadAll(info.parameters) + [CallLabel(info.tag)])
            && At(code, b + |UnloadAll(info.parameters)| + 1, Homeward(info))
            && |CallCode(info, arguments)| == b + |UnloadAll(info.parameters)| + 1 + |Homeward(info)| - pc
  {
    hide SaveAll, UnloadAll, Keep, Yield, Required, At;
    var (guard, save, unload, call) := ([Guard(Required(info))], SaveAll(info.frame), UnloadAll(info.parameters),
                                        [CallLabel(info.tag)]);
    var home := Homeward(info);
    assert CallCode(info, arguments) == (guard + save) + (arguments + ((unload + call) + home));
    AtSplit(code, pc, guard + save, arguments + ((unload + call) + home));
    AtSplit(code, pc + 1 + |save|, arguments, (unload + call) + home);
    AtSplit(code, pc + 1 + |save| + |arguments|, unload + call, home);
    AtHead(code, pc, Guard(Required(info)), save);
  }

  // ----- arguments on the stack -----

  predicate Stacked(m: Registers, m': Registers, ls: seq<Local>, vs: seq<int>, o: Output, next: nat)
  {
    && m'.pc == next && m'.mem == m.mem && m'.out == m.out + o
    && ValuesFit(ls, vs) && m'.stack == m.stack + Cells(ls, Words(ls, vs))
  }

  lemma {:induction false} SlotBytesCons(ls: seq<Local>)
    requires ls != []
    ensures SlotBytes(ls) == StackBytes(ls[0].kind) + SlotBytes(ls[1..])
    decreases |ls|
  {
    var n := |ls| - 1;
    if n == 0 {
      assert ls[..0] == [] && ls[1..] == [];
    } else {
      SlotBytesCons(ls[..n]);
      assert ls[1..][..n - 1] == ls[..n][1..];
    }
  }

  lemma CellAt(ls: seq<Local>, vs: seq<int>, i: nat)
    requires ValuesFit(ls, vs) && i < |ls|
    ensures InRange(ls[i].kind, vs[i])
    ensures Cells(ls, Words(ls, vs))[i] == Cell(StackBytes(ls[i].kind), Encoded(ls[i].kind, vs[i]))
  {
    hide InRange, Encoded, StackBytes, Wide;
  }

  lemma ValuesFitCons(ls: seq<Local>, v: int, vs: seq<int>)
    requires ls != [] && InRange(ls[0].kind, v) && ValuesFit(ls[1..], vs)
    ensures ValuesFit(ls, [v] + vs)
  {
    hide InRange;
    forall i | 0 < i < |ls| ensures InRange(ls[i].kind, ([v] + vs)[i]) {
      assert InRange(ls[1..][i - 1].kind, vs[i - 1]);
    }
  }

  lemma WordsCons(ls: seq<Local>, v: int, vs: seq<int>)
    requires ls != [] && InRange(ls[0].kind, v) && ValuesFit(ls[1..], vs)
    ensures ValuesFit(ls, [v] + vs)
    ensures Cells(ls, Words(ls, [v] + vs))
            == [Cell(StackBytes(ls[0].kind), Encoded(ls[0].kind, v))] + Cells(ls[1..], Words(ls[1..], vs))
  {
    hide InRange, Encoded, StackBytes, Wide, Cells, Words;
    ValuesFitCons(ls, v, vs);
    var (cells, rest) := (Cells(ls, Words(ls, [v] + vs)), Cells(ls[1..], Words(ls[1..], vs)));
    CellAt(ls, [v] + vs, 0);
    forall i | 0 < i < |ls| ensures cells[i] == rest[i - 1] {
      CellAt(ls, [v] + vs, i);
      CellAt(ls[1..], vs, i - 1);
    }
    hide ValuesFit, WordsFit;
    assert cells == [cells[0]] + rest;
  }

  lemma StackedCons(m: Registers, m1: Registers, m2: Registers, m3: Registers, ls: seq<Local>, v: int, o: Output,
                    vs: seq<int>, o': Output, pc: nat, next: nat)
    requires ls != [] && Arrived(m, m1, ls[0].kind, v, o, pc)
    requires m2 == m1.(pc := pc + 1, stack := m1.stack + [Cell(StackBytes(ls[0].kind), Pushed(ls[0].kind, m1.eax))])
    requires Stacked(m2, m3, ls[1..], vs, o', next)
    ensures Stacked(m, m3, ls, [v] + vs, o + o', next)
  {
    PushedRepresents(ls[0].kind, v, m1.eax);
    hide InRange, Represents, Encoded, Pushed, Cells, Words, ValuesFit, StackBytes;
    WordsCons(ls, v, vs);
    assert m.out + (o + o') == m.out + o + o';
    var (cell, rest) := (Cell(StackBytes(ls[0].kind), Encoded(ls[0].kind, v)), Cells(ls[1..], Words(ls[1..], vs)));
    assert m.stack + [cell] + rest == m.stack + ([cell] + rest);
  }

  lemma StackedNone(m: Registers)
    ensures Stacked(m, m, [], [], [], m.pc)
  {
    assert m.stack + Cells([], Words([], [])) == m.stack;
  }
}
