/** A whole program: its function table, its code, and where everything is. */
module Linking {
  import opened Kinds
  import opened CheckedArithmetic
  import opened Source
  import opened Machine
  import opened CodeGen
  import opened Represent
  import opened Execution
  import opened Endings
  import opened Statements
  import opened Simulation
  import opened Allocation

  /** Labels taken by the failure and halt routines. */
  const ROUTINE_LABELS: nat := 3

  datatype Routine = Routine(fn: Function, info: Info)

  /** What a function is given: a label, and its slots from the given byte on. */
  function InfoAt(f: Function, tag: nat, bytes: nat): Info
  {
    var frame := FrameAt(f, bytes);
    Info(tag, frame[..|f.parameters|], frame, f.returning)
  }

  function Registered(fs: seq<Function>, tag: nat, bytes: nat): (r: seq<Routine>)
    ensures |r| == |fs|
  {
    if fs == [] then []
    else [Routine(fs[0], InfoAt(fs[0], tag, bytes))] + Registered(fs[1..], tag + 1, NextBytes(fs[0], bytes))
  }

  function Table(rs: seq<Routine>): Functions
  {
    if rs == [] then map[] else map[rs[0].fn.name := rs[0].info] + Table(rs[1..])
  }

  function ProgramOf(rs: seq<Routine>): Program
  {
    if rs == [] then map[] else map[rs[0].fn.name := rs[0].fn] + ProgramOf(rs[1..])
  }

  predicate Distinct(rs: seq<Routine>)
  {
    forall i, j :: 0 <= i < j < |rs| ==> rs[i].fn.name != rs[j].fn.name
  }

  lemma {:induction false} TableHas(rs: seq<Routine>, i: nat)
    requires Distinct(rs) && i < |rs|
    ensures rs[i].fn.name in Table(rs) && Table(rs)[rs[i].fn.name] == rs[i].info
    ensures rs[i].fn.name in ProgramOf(rs) && ProgramOf(rs)[rs[i].fn.name] == rs[i].fn
    decreases rs
  {
    if i == 0 {
      TableNames(rs[1..], rs[0].fn.name);
    } else {
      TableHas(rs[1..], i - 1);
    }
  }

  lemma {:induction false} TableNames(rs: seq<Routine>, x: string)
    ensures (x in Table(rs)) == (x in ProgramOf(rs)) == (exists i :: 0 <= i < |rs| && rs[i].fn.name == x)
    decreases rs
  {
    if rs != [] {
      TableNames(rs[1..], x);
      if x == rs[0].fn.name {
        assert rs[0].fn.name == x;
      } else if exists i :: 0 <= i < |rs| && rs[i].fn.name == x {
        var i :| 0 <= i < |rs| && rs[i].fn.name == x;
        assert rs[1..][i - 1].fn.name == x;
      } else {
        assert forall i :: 0 <= i < |rs[1..]| ==> rs[1..][i] == rs[i + 1];
      }
    }
  }

  // ----- code -----

  function OthersCode(fns: Functions, rs: seq<Routine>, t: nat): Code
  {
    if rs == [] then []
    else FunctionCode(fns, rs[0].fn, rs[0].info, false, t) + OthersCode(fns, rs[1..], t + BlockTags(rs[0].fn.body))
  }

  function Entries(fns: Functions, rs: seq<Routine>, t: nat, pc: nat): map<string, nat>
  {
    if rs == [] then map[]
    else Entries(fns, rs[1..], t + BlockTags(rs[0].fn.body),
                 pc + |FunctionCode(fns, rs[0].fn, rs[0].info, false, t)|)[rs[0].fn.name := pc]
  }

  function Bases(rs: seq<Routine>, t: nat): map<string, nat>
  {
    if rs == [] then map[] else Bases(rs[1..], t + BlockTags(rs[0].fn.body))[rs[0].fn.name := t]
  }

  function Without(rs: seq<Routine>, main: nat): (r: seq<Routine>)
    requires main < |rs|
    ensures |r| == |rs| - 1
  {
    rs[..main] + rs[main + 1..]
  }

  /** `main` first, then a jump to the halt routine, then the other functions, then the routines. */
  function ProgramCode(rs: seq<Routine>, main: nat, t: nat): Code
    requires main < |rs|
  {
    FunctionCode(Table(rs), rs[main].fn, rs[main].info, true, t) +
    ([Jump(HALT_LABEL)] + (OthersCode(Table(rs), Without(rs, main), t + BlockTags(rs[main].fn.body)) + ROUTINES))
  }

  function LinkProgram(rs: seq<Routine>, main: nat, t: nat): Linked
    requires main < |rs|
  {
    var head := |FunctionCode(Table(rs), rs[main].fn, rs[main].info, true, t)| + 1;
    var (others, t') := (Without(rs, main), t + BlockTags(rs[main].fn.body));
    Linked(ProgramCode(rs, main, t), ProgramOf(rs), Table(rs),
           Entries(Table(rs), others, t', head)["main" := 0], Bases(others, t')["main" := t],
           head + |OthersCode(Table(rs), others, t')|)
  }

  // ----- every label is bound once -----

  predicate Bound'(code: Code, tag: int)
  {
    exists i :: 0 <= i < |code| && Marks(code[i], tag)
  }

  predicate Marks(i: Instr, tag: int)
  {
    i.Mark? && i.tag == tag
  }

  lemma UniqueJoin(a: Code, b: Code)
    requires UniqueMarks(a) && UniqueMarks(b) && forall tag :: !(Bound'(a, tag) && Bound'(b, tag))
    ensures UniqueMarks(a + b) && forall tag :: Bound'(a + b, tag) <==> Bound'(a, tag) || Bound'(b, tag)
  {
    var c := a + b;
    forall i, j | 0 <= i < j < |c| && c[i].Mark? && c[j].Mark? ensures c[i].tag != c[j].tag {
      if i < |a| <= j {
        assert Bound'(a, c[i].tag) by { assert Marks(a[i], c[i].tag); }
        assert Bound'(b, c[j].tag) by { assert Marks(b[j - |a|], c[j].tag); }
      }
    }
    forall tag ensures Bound'(c, tag) <==> Bound'(a, tag) || Bound'(b, tag) {
      if Bound'(a, tag) {
        var i :| 0 <= i < |a| && Marks(a[i], tag);
        assert Marks(c[i], tag);
      }
      if Bound'(b, tag) {
        var i :| 0 <= i < |b| && Marks(b[i], tag);
        assert Marks(c[|a| + i], tag);
      }
      if Bound'(c, tag) {
        var i :| 0 <= i < |c| && Marks(c[i], tag);
        if i < |a| { assert Marks(a[i], tag); } else { assert Marks(b[i - |a|], tag); }
      }
    }
  }

  lemma BlockBound(c: Context, ss: seq<Stmt>, k: nat, t: nat, tag: int)
    ensures UniqueMarks(CodeBlock(c, ss, k, t))
    ensures Bound'(CodeBlock(c, ss, k, t), tag) ==> t <= tag < t + BlockTags(ss)
  {
    hide CodeBlock, BlockTags;
    BlockMarks(c, ss, k, t);
  }

  lemma FunctionMarks(fns: Functions, fn: Function, info: Info, main: bool, t: nat)
    requires info.tag < t
    ensures UniqueMarks(FunctionCode(fns, fn, info, main, t))
    ensures forall tag ::
              Bound'(FunctionCode(fns, fn, info, main, t), tag) ==> tag == info.tag || t <= tag < t + BlockTags(fn.body)
  {
    hide CodeBlock, BlockTags;
    var c := Enter(BodyContext(fns, fn, info, main));
    var (block, tail) := (CodeBlock(c, fn.body, |fn.parameters|, t), Epilogue(info, main));
    BlockBound(c, fn.body, |fn.parameters|, t, 0);
    forall tag ensures Bound'(block, tag) ==> t <= tag < t + BlockTags(fn.body) {
      BlockBound(c, fn.body, |fn.parameters|, t, tag);
    }
    UniqueJoin(block, tail);
    UniqueJoin([Mark(info.tag)], block + tail);
  }

  /** Labels of functions rise along the list and stay below the labels of their bodies. */
  predicate Rising(rs: seq<Routine>, lo: nat, hi: nat)
  {
    && (forall i :: 0 <= i < |rs| ==> lo <= rs[i].info.tag < hi)
    && (forall i, j :: 0 <= i < j < |rs| ==> rs[i].info.tag < rs[j].info.tag)
  }

  predicate Owned(rs: seq<Routine>, tag: int)
  {
    exists i :: 0 <= i < |rs| && rs[i].info.tag == tag
  }

  function TagsOf(rs: seq<Routine>): nat
  {
    if rs == [] then 0 else BlockTags(rs[0].fn.body) + TagsOf(rs[1..])
  }

  lemma {:induction false} OthersMarks(fns: Functions, rs: seq<Routine>, lo: nat, hi: nat, t: nat)
    requires Rising(rs, lo, hi) && hi <= t
    ensures UniqueMarks(OthersCode(fns, rs, t))
    ensures forall tag :: Bound'(OthersCode(fns, rs, t), tag) ==> Owned(rs, tag) || t <= tag < t + TagsOf(rs)
    decreases rs
  {
    hide FunctionCode, UniqueMarks, BlockTags;
    if rs == [] {
      EmptyUnique();
    } else {
      var t' := t + BlockTags(rs[0].fn.body);
      var (a, b) := (FunctionCode(fns, rs[0].fn, rs[0].info, false, t), OthersCode(fns, rs[1..], t'));
      FunctionMarks(fns, rs[0].fn, rs[0].info, false, t);
      OthersMarks(fns, rs[1..], lo, hi, t');
      hide Bound', OthersCode;
      forall tag ensures Owned(rs[1..], tag) ==> Owned(rs, tag) && rs[0].info.tag < tag < hi {
        OwnedLater(rs, lo, hi, tag);
      }
      assert Owned(rs, rs[0].info.tag);
      hide Owned, Rising;
      UniqueJoin(a, b);
    }
  }

  lemma OwnedLater(rs: seq<Routine>, lo: nat, hi: nat, tag: int)
    requires rs != [] && Rising(rs, lo, hi)
    ensures Owned(rs[1..], tag) ==> Owned(rs, tag) && rs[0].info.tag < tag < hi
  {
    if Owned(rs[1..], tag) {
      var i :| 0 <= i < |rs[1..]| && rs[1..][i].info.tag == tag;
      assert rs[i + 1].info.tag == tag;
    }
  }

  lemma EmptyUnique()
    ensures UniqueMarks([])
  {
  }

  // ----- where the functions are -----

  lemma {:induction false} OthersNames(fns: Functions, rs: seq<Routine>, t: nat, pc: nat, x: string)
    ensures (x in Entries(fns, rs, t, pc)) == (x in Bases(rs, t)) == (exists i :: 0 <= i < |rs| && rs[i].fn.name == x)
    decreases rs
  {
    hide FunctionCode, BlockTags;
    if rs != [] {
      OthersNames(fns, rs[1..], t + BlockTags(rs[0].fn.body), pc + |FunctionCode(fns, rs[0].fn, rs[0].info, false, t)|,
                  x);
      if x == rs[0].fn.name {
        assert rs[0].fn.name == x;
      } else if exists i :: 0 <= i < |rs| && rs[i].fn.name == x {
        var i :| 0 <= i < |rs| && rs[i].fn.name == x;
        assert rs[1..][i - 1].fn.name == x;
      } else {
        assert forall i :: 0 <= i < |rs[1..]| ==> rs[1..][i] == rs[i + 1];
      }
    }
  }

  lemma {:induction false} OthersAt(code: Code, fns: Functions, rs: seq<Routine>, t: nat, pc: nat, i: nat)
    requires At(code, pc, OthersCode(fns, rs, t)) && Distinct(rs) && i < |rs|
    ensures var (x, entries, bases) := (rs[i].fn.name, Entries(fns, rs, t, pc), Bases(rs, t));
            x in entries && x in bases && At(code, entries[x], FunctionCode(fns, rs[i].fn, rs[i].info, false, bases[x]))
    decreases rs
  {
    hide FunctionCode, BlockTags, At;
    var (t', a) := (t + BlockTags(rs[0].fn.body), FunctionCode(fns, rs[0].fn, rs[0].info, false, t));
    AtSplit(code, pc, a, OthersCode(fns, rs[1..], t'));
    if i > 0 {
      OthersAt(code, fns, rs[1..], t', pc + |a|, i - 1);
      assert rs[1..][i - 1] == rs[i];
      assert rs[0].fn.name != rs[i].fn.name;
    }
  }

  /** A function whose body the code generator accepts with the table of all functions. */
  ghost predicate RoutineOk(fns: Functions, r: Routine)
  {
    && |r.fn.parameters| <= |r.info.frame| && r.info.parameters == r.info.frame[..|r.fn.parameters|]
    && FrameOk(r.info.frame) && r.info.returning == r.fn.returning && BlockWithin(r.fn.body)
    && BlockOk(Enter(BodyContext(fns, r.fn, r.info, r.fn.name == "main")), r.fn.body, |r.fn.parameters|)
  }

  ghost predicate Linkable(rs: seq<Routine>, main: nat, t: nat)
  {
    && Distinct(rs) && main < |rs| && rs[main].fn.name == "main" && Rising(rs, ROUTINE_LABELS, t)
    && forall i :: 0 <= i < |rs| ==> RoutineOk(Table(rs), rs[i])
  }

  lemma WithoutKeeps(rs: seq<Routine>, main: nat, lo: nat, hi: nat)
    requires main < |rs| && Distinct(rs) && Rising(rs, lo, hi)
    ensures Distinct(Without(rs, main)) && Rising(Without(rs, main), lo, hi)
    ensures forall tag :: Owned(Without(rs, main), tag) ==> lo <= tag < hi && tag != rs[main].info.tag
  {
    var o := Without(rs, main);
    forall i | 0 <= i < |o| ensures o[i] == rs[if i < main then i else i + 1] {
    }
  }

  lemma RoutinesUnique()
    ensures UniqueMarks(ROUTINES) && forall tag :: Bound'(ROUTINES, tag) ==> 0 <= tag < ROUTINE_LABELS
  {
  }

  lemma ProgramUnique(rs: seq<Routine>, main: nat, t: nat)
    requires main < |rs| && Distinct(rs) && Rising(rs, ROUTINE_LABELS, t)
    ensures UniqueMarks(ProgramCode(rs, main, t))
  {
    hide FunctionCode, OthersCode, BlockTags, UniqueMarks, Table, TagsOf;
    var (others, t') := (Without(rs, main), t + BlockTags(rs[main].fn.body));
    var (a, b) := (FunctionCode(Table(rs), rs[main].fn, rs[main].info, true, t), OthersCode(Table(rs), others, t'));
    WithoutKeeps(rs, main, ROUTINE_LABELS, t);
    FunctionMarks(Table(rs), rs[main].fn, rs[main].info, true, t);
    assert Rising(others, ROUTINE_LABELS, t');
    OthersMarks(Table(rs), others, ROUTINE_LABELS, t', t');
    RoutinesUnique();
    UniqueJoin(b, ROUTINES);
    JumpUnique();
    UniqueJoin([Jump(HALT_LABEL)], b + ROUTINES);
    UniqueJoin(a, [Jump(HALT_LABEL)] + (b + ROUTINES));
  }

  lemma JumpUnique()
    ensures UniqueMarks([Jump(HALT_LABEL)]) && forall tag :: !Bound'([Jump(HALT_LABEL)], tag)
  {
  }

  /** What is where in the linked code. */
  lemma LinkLayout(rs: seq<Routine>, main: nat, t: nat)
    requires main < |rs|
    ensures var w := LinkProgram(rs, main, t);
            var a := FunctionCode(Table(rs), rs[main].fn, rs[main].info, true, t);
            && At(w.code, 0, a) && At(w.code, |a|, [Jump(HALT_LABEL)])
            && At(w.code, |a| + 1, OthersCode(Table(rs), Without(rs, main), t + BlockTags(rs[main].fn.body)))
            && At(w.code, w.routines, ROUTINES)
  {
    hide FunctionCode, OthersCode, BlockTags, Table, At, Entries, Bases;
    var (others, t') := (Without(rs, main), t + BlockTags(rs[main].fn.body));
    var (a, b) := (FunctionCode(Table(rs), rs[main].fn, rs[main].info, true, t), OthersCode(Table(rs), others, t'));
    var code := ProgramCode(rs, main, t);
    WholeAt(code);
    AtSplit(code, 0, a, [Jump(HALT_LABEL)] + (b + ROUTINES));
    AtSplit(code, |a|, [Jump(HALT_LABEL)], b + ROUTINES);
    AtSplit(code, |a| + 1, b, ROUTINES);
  }

  lemma WholeAt(code: Code)
    ensures At(code, 0, code)
  {
  }

  lemma LinkRoutines(rs: seq<Routine>, main: nat, t: nat)
    requires main < |rs| && Distinct(rs) && Rising(rs, ROUTINE_LABELS, t)
    ensures Routines(LinkProgram(rs, main, t).code, LinkProgram(rs, main, t).routines)
  {
    hide ProgramCode, FunctionCode, OthersCode, At, UniqueMarks, BlockTags;
    ProgramUnique(rs, main, t);
    LinkLayout(rs, main, t);
  }

  lemma LinkKeys(rs: seq<Routine>, main: nat, t: nat)
    requires main < |rs| && rs[main].fn.name == "main"
    ensures var w := LinkProgram(rs, main, t);
            w.fns.Keys == w.program.Keys == w.entry.Keys == w.base.Keys && w.program == ProgramOf(rs)
  {
    assert LinkProgram(rs, main, t).program == ProgramOf(rs);
    hide LinkProgram;
    var w := LinkProgram(rs, main, t);
    forall x ensures (x in w.program) == (x in w.fns) == (x in w.entry) == (x in w.base) {
      LinkNames(rs, main, t, x);
    }
  }

  /** The linked program satisfies everything the simulation needs. */
  lemma LinkReady(rs: seq<Routine>, main: nat, t: nat)
    requires Linkable(rs, main, t)
    ensures Ready(LinkProgram(rs, main, t))
  {
    hide LinkProgram, Routines, FunctionOk, RoutineOk, Rising;
    var w := LinkProgram(rs, main, t);
    LinkRoutines(rs, main, t);
    LinkKeys(rs, main, t);
    forall f | f in w.program ensures FunctionOk(w, f) {
      TableNames(rs, f);
      var i :| 0 <= i < |rs| && rs[i].fn.name == f;
      LinkFunction(rs, main, t, i);
    }
  }

  lemma LinkNames(rs: seq<Routine>, main: nat, t: nat, x: string)
    requires main < |rs| && rs[main].fn.name == "main"
    ensures var w := LinkProgram(rs, main, t); (x in w.program) == (x in w.fns) == (x in w.entry) == (x in w.base)
  {
    hide FunctionCode, OthersCode, BlockTags, Table, ProgramOf, Entries, Bases;
    var (others, t', pc) := (Without(rs, main), t + BlockTags(rs[main].fn.body),
                             |FunctionCode(Table(rs), rs[main].fn, rs[main].info, true, t)| + 1);
    TableNames(rs, x);
    OthersNames(Table(rs), others, t', pc, x);
    if x != "main" {
      if exists i :: 0 <= i < |rs| && rs[i].fn.name == x {
        var i :| 0 <= i < |rs| && rs[i].fn.name == x;
        assert others[if i < main then i else i - 1] == rs[i];
      }
      assert forall i :: 0 <= i < |others| ==> others[i] == rs[if i < main then i else i + 1];
    } else {
      assert rs[main].fn.name == x;
    }
  }

  lemma LinkFunction(rs: seq<Routine>, main: nat, t: nat, i: nat)
    requires Linkable(rs, main, t) && i < |rs|
    ensures var (w, f) := (LinkProgram(rs, main, t), rs[i].fn.name);
            f in w.program && f in w.fns && f in w.entry && f in w.base && FunctionOk(w, f)
  {
    hide FunctionCode, OthersCode, BlockTags, Table, ProgramOf, Entries, Bases, At, FrameOk, BlockOk, BlockWithin;
    assert RoutineOk(Table(rs), rs[i]);
    var (w, f) := (LinkProgram(rs, main, t), rs[i].fn.name);
    TableHas(rs, i);
    LinkNames(rs, main, t, f);
    if f != "main" {
      var (others, t', pc) := (Without(rs, main), t + BlockTags(rs[main].fn.body),
                               |FunctionCode(Table(rs), rs[main].fn, rs[main].info, true, t)| + 1);
      LinkLayout(rs, main, t);
      WithoutKeeps(rs, main, ROUTINE_LABELS, t);
      var j := if i < main then i else i - 1;
      assert others[j] == rs[i];
      OthersAt(w.code, Table(rs), others, t', pc, j);
    }
  }
}
