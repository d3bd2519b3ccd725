/** What a compiled program does, for every accepted program and every start of the machine. */
module Correctness {
  import opened Kinds
  import opened CheckedArithmetic
  import opened Source
  import opened Machine
  import opened CodeGen
  import opened Represent
  import opened Execution
  import opened Endings
  import opened CallFrames
  import opened Statements
  import opened Simulation
  import opened Reserve
  import opened Allocation
  import opened Linking

  // ----- programs -----

  predicate DistinctNames(fs: seq<Function>)
  {
    forall i, j :: 0 <= i < j < |fs| ==> fs[i].name != fs[j].name
  }

  /** Where `main` is; the length of the list if it is missing. */
  function MainIndex(fs: seq<Function>): (i: nat)
    ensures i <= |fs| && (i < |fs| ==> fs[i].name == "main")
  {
    if fs == [] then 0 else if fs[0].name == "main" then 0 else 1 + MainIndex(fs[1..])
  }

  /** What earlier stages guarantee: distinct names, a plain `main`, bounded nesting. */
  predicate Validated(fs: seq<Function>)
  {
    && DistinctNames(fs) && MainIndex(fs) < |fs|
    && fs[MainIndex(fs)].parameters == [] && fs[MainIndex(fs)].returning.Unit?
    && forall i :: 0 <= i < |fs| ==> BlockShallow(fs[i].body)
  }

  function Routines'(fs: seq<Function>): (r: seq<Routine>)
    ensures |r| == |fs|
  {
    Registered(fs, ROUTINE_LABELS, 0)
  }

  /** The body of a function is accepted with the table of all functions. */
  predicate BodyOk(fns: Functions, r: Routine)
  {
    BlockOk(Enter(BodyContext(fns, r.fn, r.info, r.fn.name == "main")), r.fn.body, |r.fn.parameters|)
  }

  /** What the code generator accepts. */
  predicate Accepted(fs: seq<Function>)
  {
    SlotsFit(fs) && forall i :: 0 <= i < |fs| ==> BodyOk(Table(Routines'(fs)), Routines'(fs)[i])
  }

  function Compiled(fs: seq<Function>): Linked
    requires MainIndex(fs) < |fs|
  {
    LinkProgram(Routines'(fs), MainIndex(fs), ROUTINE_LABELS + |fs|)
  }

  function BytesBefore(fs: seq<Function>, i: nat, bytes: nat): nat
    requires i <= |fs|
  {
    if i == 0 then bytes else BytesBefore(fs[1..], i - 1, NextBytes(fs[0], bytes))
  }

  lemma {:induction false} RegisteredAt(fs: seq<Function>, tag: nat, bytes: nat, i: nat)
    requires i < |fs|
    ensures Registered(fs, tag, bytes)[i] == Routine(fs[i], InfoAt(fs[i], tag + i, BytesBefore(fs, i, bytes)))
    decreases fs
  {
    hide InfoAt, NextBytes;
    if i > 0 {
      RegisteredAt(fs[1..], tag + 1, NextBytes(fs[0], bytes), i - 1);
    }
  }

  lemma {:induction false} FrameEnds(fs: seq<Function>, bytes: nat, i: nat)
    requires i < |fs|
    ensures NextBytes(fs[i], BytesBefore(fs, i, bytes)) <= End(ProgramKinds(fs), bytes)
    decreases fs
  {
    hide FrameKinds, End;
    var kinds := FrameKinds(fs[0]);
    SlotsAppend(kinds, ProgramKinds(fs[1..]), bytes);
    if i == 0 {
      EndGrows(ProgramKinds(fs[1..]), NextBytes(fs[0], bytes));
    } else {
      FrameEnds(fs[1..], NextBytes(fs[0], bytes), i - 1);
    }
  }

  /** The slots of a registered function: its parameters first, all of them inside the region. */
  lemma FrameFits(fs: seq<Function>, i: nat)
    requires SlotsFit(fs) && i < |fs|
    ensures var r := Routines'(fs)[i];
            && r.fn == fs[i] && r.info.tag == ROUTINE_LABELS + i && r.info.returning == fs[i].returning
            && |r.fn.parameters| <= |r.info.frame| && r.info.parameters == r.info.frame[..|r.fn.parameters|]
            && FrameOk(r.info.frame)
  {
    var bytes := BytesBefore(fs, i, 0);
    RegisteredAt(fs, ROUTINE_LABELS, 0, i);
    FrameEnds(fs, 0, i);
    SlotsFrame(FrameKinds(fs[i]), bytes);
    hide Registered, FrameOk, Slots, BytesBefore, End, BlockLets, ProgramKinds;
  }

  lemma RoutineFits(fs: seq<Function>, i: nat)
    requires Validated(fs) && Accepted(fs) && i < |fs|
    ensures var (r, fns) := (Routines'(fs)[i], Table(Routines'(fs)));
            r.fn == fs[i] && r.info.tag == ROUTINE_LABELS + i && RoutineOk(fns, r)
  {
    hide Registered, FrameOk, BlockOk, BlockWithin, Table, MainIndex;
    FrameFits(fs, i);
    BlockFits(fs[i].body);
    assert BodyOk(Table(Routines'(fs)), Routines'(fs)[i]);
  }

  /** Labels follow the order of the functions. */
  lemma RoutinesOrdered(fs: seq<Function>)
    requires DistinctNames(fs) && SlotsFit(fs)
    ensures Distinct(Routines'(fs)) && Rising(Routines'(fs), ROUTINE_LABELS, ROUTINE_LABELS + |fs|)
  {
    hide Routines', SlotsFit, FrameOk;
    forall i | 0 <= i < |fs| ensures Routines'(fs)[i].fn == fs[i] && Routines'(fs)[i].info.tag == ROUTINE_LABELS + i {
      FrameFits(fs, i);
    }
  }

  lemma CompiledLinkable(fs: seq<Function>)
    requires Validated(fs) && Accepted(fs)
    ensures Linkable(Routines'(fs), MainIndex(fs), ROUTINE_LABELS + |fs|) && Ready(Compiled(fs))
  {
    hide Routines', BlockShallow, Table, MainIndex, SlotsFit, BodyOk, Ready, LinkProgram, RoutineOk, Distinct, Rising,
         DistinctNames;
    RoutinesOrdered(fs);
    forall i | 0 <= i < |fs| ensures Routines'(fs)[i].fn == fs[i] && RoutineOk(Table(Routines'(fs)), Routines'(fs)[i]) {
      RoutineFits(fs, i);
    }
    LinkReady(Routines'(fs), MainIndex(fs), ROUTINE_LABELS + |fs|);
  }

  // ----- one run -----

  /** The machine before its first instruction: nothing printed, nothing on the stack. */
  predicate Fresh(m: Registers)
  {
    m.pc == 0 && m.stack == [] && m.out == []
  }

  function SourceOf(fs: seq<Function>): Program
  {
    ProgramOf(Routines'(fs))
  }

  /** The machine stopped as the source does, or at the stack limit after printing a part of what the
      source prints; where the source needs more fuel the machine still runs, at least `fuel` steps on. */
  ghost predicate Follows(code: Code, m: Registers, n: nat, fuel: nat, b: Behaviour)
  {
    var s := Run(code, On(m), n);
    || (s.Off? && s.reason == StackFailure && s.out <= b.out)
    || match b
       case Finished(o) => s == Off(Halted, o)
       case Trapped(o) => s == Off(ArithmeticFailure, o)
       case Unfinished(o) => n >= fuel && s.On? && s.m.out == o
  }

  function MainBlock(fns: Functions, r: Routine, t: nat): Code
  {
    CodeBlock(Enter(BodyContext(fns, r.fn, r.info, true)), r.fn.body, |r.fn.parameters|, t)
  }

  lemma MainCode(rs: seq<Routine>, main: nat, t: nat)
    requires main < |rs|
    ensures var (code, block) := (LinkProgram(rs, main, t).code, MainBlock(Table(rs), rs[main], t));
            code != [] && code[0].Mark? && At(code, 1, block) && At(code, 1 + |block|, [Jump(HALT_LABEL)])
  {
    LinkLayout(rs, main, t);
    hide Table, CodeBlock, At, OthersCode, BlockTags, LinkProgram, Without, BodyContext, Enter;
    var (code, block) := (LinkProgram(rs, main, t).code, MainBlock(Table(rs), rs[main], t));
    assert block + Epilogue(rs[main].info, true) == block;
    AtHead(code, 0, Mark(rs[main].info.tag), block);
  }

  lemma LinkParts(rs: seq<Routine>, main: nat, t: nat)
    requires main < |rs|
    ensures LinkProgram(rs, main, t).fns == Table(rs) && LinkProgram(rs, main, t).program == ProgramOf(rs)
  {
    hide ProgramCode, Entries, Bases, OthersCode, FunctionCode, BlockTags, Table, ProgramOf, Without;
  }

  lemma MainFacts(fs: seq<Function>) returns (r: Routine)
    requires Validated(fs) && Accepted(fs)
    ensures r == Routines'(fs)[MainIndex(fs)] && r.fn.parameters == [] && RoutineOk(Table(Routines'(fs)), r)
            && r.fn.name == "main"
    ensures var w := Compiled(fs);
            && Ready(w) && w.fns == Table(Routines'(fs)) && w.program == SourceOf(fs)
            && "main" in w.program && w.program["main"] == r.fn
  {
    hide Registered, Table, Accepted, Ready, RoutineOk, Rising, BlockShallow, ProgramOf, LinkProgram, Routines';
    CompiledLinkable(fs);
    var (rs, main) := (Routines'(fs), MainIndex(fs));
    RoutineFits(fs, main);
    TableHas(rs, main);
    LinkParts(rs, main, ROUTINE_LABELS + |fs|);
    r := rs[main];
  }

  /** The empty parameter scope of `main` on an empty stack. */
  lemma MainReady(w: Linked, r: Routine, m: Registers)
    requires Ready(w) && r.fn.parameters == [] && FrameOk(r.info.frame) && m.stack == []
    ensures ContextReady(w, Enter(BodyContext(w.fns, r.fn, r.info, true)), m, 0, [map[]] + [map[]])
  {
    hide Ready, FrameOk;
    ParametersPlaced([], r.info.frame);
    EnterPlaced([map[]], r.info.frame, 0);
    assert Reps([map[]] + [map[]], [map[]] + [map[]], m.mem);
  }

  lemma RunsMain(w: Linked, r: Routine, t: nat, m: Registers, fuel: nat) returns (n: nat)
    requires Ready(w) && RoutineOk(w.fns, r) && r.fn.name == "main" && r.fn.parameters == [] && Fresh(m)
    requires w.code != [] && w.code[0].Mark? && At(w.code, 1, MainBlock(w.fns, r, t))
    requires At(w.code, 1 + |MainBlock(w.fns, r, t)|, [Jump(HALT_LABEL)])
    ensures Follows(w.code, m, n, fuel, Outcome(ExecBlock(w.program, fuel, r.fn.body, [map[]])))
  {
    hide FrameOk, BlockOk, BlockWithin, Ready, CodeBlock, At, Run, ExecAll, Reps, Ends, ContextReady, Follows,
         ParameterScope;
    MarkRuns(w.code, m);
    var m1 := m.(pc := 1);
    MainReady(w, r, m1);
    var c := Enter(BodyContext(w.fns, r.fn, r.info, true));
    var n1, m2 := SimAll(w, c, m1, fuel, r.fn.body, 0, t, [map[]] + [map[]]);
    Continue'(w.code, m, 1, m1, n1);
    ReadyKeys(w);
    n := FinishMain(w, c, m, m1, n1, m2, fuel, ExecBlock(w.program, fuel, r.fn.body, [map[]]), Outer(c.scopes),
                    1 + |MainBlock(w.fns, r, t)|);
  }

  lemma RunIsOutcome(p: Program, fuel: nat)
    requires "main" in p
    ensures RunProgram(p, fuel) == Outcome(ExecBlock(p, fuel, p["main"].body, [map[]]))
  {
    hide ExecBlock;
  }

  /** The whole program, from the first instruction. */
  lemma Refines(fs: seq<Function>, m: Registers, fuel: nat) returns (n: nat)
    requires Validated(fs) && Accepted(fs) && Fresh(m)
    ensures "main" in SourceOf(fs) && Follows(Compiled(fs).code, m, n, fuel, RunProgram(SourceOf(fs), fuel))
  {
    hide Accepted, Follows, Table, LinkProgram, At, MainBlock, Ready, RoutineOk, ProgramOf, RunProgram, ExecBlock,
         Outcome, Routines', MainIndex, BlockShallow, DistinctNames;
    var r := MainFacts(fs);
    MainCode(Routines'(fs), MainIndex(fs), ROUTINE_LABELS + |fs|);
    var w := Compiled(fs);
    RunIsOutcome(w.program, fuel);
    n := RunsMain(w, r, ROUTINE_LABELS + |fs|, m, fuel);
  }

  /** The behaviour a body of `main` ends in. */
  function Outcome(e: Ended): Behaviour
  {
    match e
    case Normal(_, o) => Finished(o)
    case Returned(_, o) => Finished(o)
    case OutOfTime(o) => Unfinished(o)
    case _ => Trapped(e.out)
  }

  lemma FinishMain(w: Linked, c: Context, m: Registers, m1: Registers, n1: nat, m2: Registers, fuel: nat, e: Ended,
                   scopes: Scopes<Local>, next: nat)
    returns (n: nat)
    requires Routines(w.code, w.routines) && Run(w.code, On(m), 1 + n1) == Run(w.code, On(m1), n1) && m1.out == []
             && c.main && !c.inLoop
    requires Ends(w.code, c, m1, n1, m2, fuel, e, scopes, next) && At(w.code, next, [Jump(HALT_LABEL)])
    ensures Follows(w.code, m, n, fuel, Outcome(e))
  {
    hide Run, Routines, Target, Reps, FrameOnly, ResultOk, At;
    n := 1 + n1;
    assert [] + e.out == e.out;
    if e.Normal? && !Early(w.code, m1, n1, fuel, JudgeEnd(e)) {
      JumpRuns(w.code, m2, HALT_LABEL);
      var m3 := m2.(pc := Target(w.code, HALT_LABEL));
      HaltStops(w.code, w.routines, m3);
      Continue'(w.code, m2, 1, m3, 2);
      Continue'(w.code, m, 1 + n1, m2, 3);
      n := 1 + n1 + 3;
    }
  }

  // ----- all runs -----

  lemma StepsCompose(code: Code, m: Registers, a: nat, b: nat)
    requires a <= b
    ensures !Run(code, On(m), a).On? ==> Run(code, On(m), b) == Run(code, On(m), a)
  {
    RunAdd(code, On(m), a, b - a);
    if !Run(code, On(m), a).On? {
      StoppedStays(code, Run(code, On(m), a), b - a);
    }
  }

  /** No run ever jumps wild, pops a mismatched entry or pushes past the stack's floor. */
  lemma NeverStuck(fs: seq<Function>, m: Registers, n: nat)
    requires Validated(fs) && Accepted(fs) && Fresh(m)
    ensures !Run(Compiled(fs).code, On(m), n).Stuck?
  {
    hide LinkProgram, BlockShallow, DistinctNames, MainIndex;
    var code := Compiled(fs).code;
    hide Validated, Accepted, Compiled, RunProgram, SourceOf, Run;
    var k := Refines(fs, m, n + 1);
    if k <= n {
      StepsCompose(code, m, k, n);
    } else {
      StepsCompose(code, m, n, k);
    }
  }

  /** The machine halts or fails in arithmetic only where the source does, having printed the same. */
  lemma StopsOnlyLikeSource(fs: seq<Function>, m: Registers, n: nat) returns (fuel: nat)
    requires Validated(fs) && Accepted(fs) && Fresh(m)
    ensures "main" in SourceOf(fs)
    ensures var s := Run(Compiled(fs).code, On(m), n);
            && (s.Off? && s.reason == Halted ==> RunProgram(SourceOf(fs), fuel) == Finished(s.out))
            && (s.Off? && s.reason == ArithmeticFailure ==> RunProgram(SourceOf(fs), fuel) == Trapped(s.out))
  {
    hide LinkProgram, BlockShallow, DistinctNames, MainIndex;
    var code := Compiled(fs).code;
    hide Validated, Accepted, Compiled, RunProgram, SourceOf, Run;
    fuel := n + 1;
    var k := Refines(fs, m, fuel);
    if k <= n {
      StepsCompose(code, m, k, n);
    } else {
      StepsCompose(code, m, n, k);
    }
  }

  /** Where the source finishes or traps the machine stops, and it stops the same way unless the stack
      limit stops it first. */
  lemma StopsLikeSource(fs: seq<Function>, m: Registers, fuel: nat) returns (n: nat)
    requires Validated(fs) && Accepted(fs) && Fresh(m)
    ensures "main" in SourceOf(fs)
    ensures var (b, s) := (RunProgram(SourceOf(fs), fuel), Run(Compiled(fs).code, On(m), n));
            !b.Unfinished? ==> s.Off? && if s.reason == StackFailure then s.out <= b.out
                                         else s == Off(if b.Finished? then Halted else ArithmeticFailure, b.out)
  {
    hide Validated, Accepted, Compiled, RunProgram, SourceOf, Run;
    n := Refines(fs, m, fuel);
  }

  function PrintedBy(s: State): Output
  {
    match s
    case On(m) => m.out
    case Off(_, o) => o
    case Stuck => []
  }

  lemma StepPrints(code: Code, s: State)
    requires !Step(code, s).Stuck?
    ensures PrintedBy(s) <= PrintedBy(Step(code, s))
  {
  }

  lemma {:induction false} RunPrints(code: Code, s: State, n: nat)
    requires !Run(code, s, n).Stuck?
    ensures PrintedBy(s) <= PrintedBy(Run(code, s, n))
    decreases n
  {
    if n > 0 {
      hide Step;
      RunPrints(code, Step(code, s), n - 1);
      if Step(code, s).Stuck? {
        StoppedStays(code, Step(code, s), n - 1);
      } else {
        StepPrints(code, s);
      }
    }
  }

  lemma PrefixThrough(a: Output, b: Output, c: Output)
    requires a <= b <= c
    ensures a <= c
  {
  }

  lemma FollowsPrints(code: Code, m: Registers, k: nat, fuel: nat, b: Behaviour)
    requires Follows(code, m, k, fuel, b)
    ensures PrintedBy(Run(code, On(m), k)) <= b.out && (k < fuel ==> !Run(code, On(m), k).On?)
  {
    hide Run;
  }

  lemma PrintsUpTo(code: Code, m: Registers, n: nat, k: nat, b: Behaviour)
    requires Follows(code, m, k, n + 1, b) && !Run(code, On(m), k).Stuck?
    ensures PrintedBy(Run(code, On(m), n)) <= b.out
  {
    hide Run, Follows, PrintedBy;
    FollowsPrints(code, m, k, n + 1, b);
    if k <= n {
      StepsCompose(code, m, k, n);
    } else {
      RunAdd(code, On(m), n, k - n);
      RunPrints(code, Run(code, On(m), n), k - n);
      PrefixThrough(PrintedBy(Run(code, On(m), n)), PrintedBy(Run(code, On(m), k)), b.out);
    }
  }

  /** Whatever a run has printed so far, terminating or not, the source prints first too. */
  lemma PrintsLikeSource(fs: seq<Function>, m: Registers, n: nat) returns (fuel: nat)
    requires Validated(fs) && Accepted(fs) && Fresh(m)
    ensures "main" in SourceOf(fs) && PrintedBy(Run(Compiled(fs).code, On(m), n)) <= RunProgram(SourceOf(fs), fuel).out
  {
    hide LinkProgram, BlockShallow, DistinctNames, MainIndex;
    var code := Compiled(fs).code;
    hide Validated, Accepted, Compiled, RunProgram, SourceOf, Run, Follows, PrintedBy;
    fuel := n + 1;
    var k := Refines(fs, m, fuel);
    NeverStuck(fs, m, k);
    PrintsUpTo(code, m, n, k, RunProgram(SourceOf(fs), fuel));
  }
}
