/** Slots and arrays of all functions, and the whole program's code. */
module A64Linking {
  import opened Kinds
  import opened A64Machine
  import opened A64Code
  import opened A64Typing
  import opened A64Statements

  const MAX_LOCAL_BYTES: nat := 4096

  /** Instructions are four bytes and an image has at most 256 KiB. */
  const MAX_INSTRUCTIONS: nat := 65536

  // ----- storage -----

  function Aligned(bytes: nat, width: nat): nat
    requires width > 0
  {
    (bytes + width - 1) / width * width
  }

  lemma AlignedBound(bytes: nat, width: nat)
    requires width == 1 || width == 2 || width == 4
    ensures bytes <= Aligned(bytes, width) && Aligned(bytes, width) % width == 0
    ensures bytes % width == 0 ==> Aligned(bytes, width) == bytes
  {
  }

  /** One binding: a slot, or as many consecutive ones as the array is long. */
  function PlaceAt(s: Storage, bytes: nat): Place
  {
    match s
    case Scalar(k) => One(Slot(Aligned(bytes, Width(k)), k))
    case Fixed(k, n) => Many(Vector(if n == 0 then bytes else Aligned(bytes, Width(k)), k, n))
  }

  function PlaceEnd(p: Place): nat
  {
    match p
    case One(s) => s.at + Width(s.kind)
    case Many(v) => v.at + v.length * Width(v.element)
  }

  function Places(ss: seq<Storage>, bytes: nat): (r: seq<Place>)
    ensures |r| == |ss|
    decreases ss
  {
    if ss == [] then [] else [PlaceAt(ss[0], bytes)] + Places(ss[1..], PlaceEnd(PlaceAt(ss[0], bytes)))
  }

  function End(ss: seq<Storage>, bytes: nat): nat
    decreases ss
  {
    if ss == [] then bytes else End(ss[1..], PlaceEnd(PlaceAt(ss[0], bytes)))
  }

  function Begin(p: Place): nat
  {
    if p.One? then p.slot.at else p.vector.at
  }

  lemma PlaceGrows(s: Storage, bytes: nat)
    ensures bytes <= Begin(PlaceAt(s, bytes)) <= PlaceEnd(PlaceAt(s, bytes))
  {
    match s
    case Scalar(k) => AlignedBound(bytes, Width(k));
    case Fixed(k, n) => AlignedBound(bytes, Width(k)); Nonnegative(n, Width(k));
  }

  lemma Nonnegative(a: nat, b: nat)
    ensures a * b >= 0
  {
  }

  lemma {:induction false} PlacesBetween(ss: seq<Storage>, bytes: nat, i: nat)
    requires i < |ss|
    ensures bytes <= Begin(Places(ss, bytes)[i]) && PlaceEnd(Places(ss, bytes)[i]) <= End(ss, bytes)
            && bytes <= End(ss, bytes)
    decreases ss
  {
    hide PlaceAt, PlaceEnd, Begin;
    PlaceGrows(ss[0], bytes);
    var next := PlaceEnd(PlaceAt(ss[0], bytes));
    EndGrows(ss[1..], next);
    if i > 0 {
      PlacesBetween(ss[1..], next, i - 1);
    }
  }

  lemma {:induction false} EndGrows(ss: seq<Storage>, bytes: nat)
    ensures bytes <= End(ss, bytes)
    decreases ss
  {
    hide PlaceAt, PlaceEnd, Begin;
    if ss != [] {
      PlaceGrows(ss[0], bytes);
      EndGrows(ss[1..], PlaceEnd(PlaceAt(ss[0], bytes)));
    }
  }

  /** Bindings of one function do not overlap. */
  lemma {:induction false} PlacesApart(ss: seq<Storage>, bytes: nat, i: nat, j: nat)
    requires i < j < |ss|
    ensures PlaceEnd(Places(ss, bytes)[i]) <= Begin(Places(ss, bytes)[j])
    decreases ss
  {
    hide PlaceAt, PlaceEnd, Begin;
    var next := PlaceEnd(PlaceAt(ss[0], bytes));
    if i == 0 {
      PlacesBetween(ss[1..], next, j - 1);
    } else {
      PlacesApart(ss[1..], next, i - 1, j - 1);
    }
  }

  // ----- signatures -----

  function Signatures(fs: seq<Function>, bytes: nat): (r: seq<Signature>)
    ensures |r| == |fs|
    decreases fs
  {
    if fs == [] then []
    else [Signature(fs[0].parameters, Places(fs[0].storages, bytes), fs[0].returning)]
         + Signatures(fs[1..], End(fs[0].storages, bytes))
  }

  function Total(fs: seq<Function>, bytes: nat): nat
    decreases fs
  {
    if fs == [] then bytes else Total(fs[1..], End(fs[0].storages, bytes))
  }

  lemma {:induction false} TotalGrows(fs: seq<Function>, bytes: nat)
    ensures bytes <= Total(fs, bytes)
    decreases fs
  {
    if fs != [] {
      EndGrows(fs[0].storages, bytes);
      TotalGrows(fs[1..], End(fs[0].storages, bytes));
    }
  }

  /** Where a function's storage starts. */
  function Offset(fs: seq<Function>, bytes: nat, f: nat): nat
    requires f <= |fs|
    decreases fs
  {
    if f == 0 then bytes else Offset(fs[1..], End(fs[0].storages, bytes), f - 1)
  }

  lemma {:induction false} SignatureAt(fs: seq<Function>, bytes: nat, f: nat)
    requires f < |fs|
    ensures Signatures(fs, bytes)[f] == Signature(fs[f].parameters, Places(fs[f].storages, Offset(fs, bytes, f)),
                                                  fs[f].returning)
    ensures Offset(fs, bytes, f + 1) == End(fs[f].storages, Offset(fs, bytes, f))
    decreases fs
  {
    hide Places, End;
    if f > 0 {
      SignatureAt(fs[1..], End(fs[0].storages, bytes), f - 1);
    }
  }

  lemma {:induction false} OffsetsGrow(fs: seq<Function>, bytes: nat, f: nat, h: nat)
    requires f <= h <= |fs|
    ensures bytes <= Offset(fs, bytes, f) <= Offset(fs, bytes, h) <= Total(fs, bytes)
    decreases fs
  {
    hide End;
    if fs != [] {
      EndGrows(fs[0].storages, bytes);
      var next := End(fs[0].storages, bytes);
      if h == 0 {
        TotalGrows(fs[1..], next);
      } else {
        OffsetsGrow(fs[1..], next, if f == 0 then 0 else f - 1, h - 1);
      }
    }
  }

  /** Where binding `i` of function `f` lives. */
  function PlaceOf(fs: seq<Function>, f: nat, i: nat): Place
    requires f < |fs| && i < |fs[f].storages|
  {
    Places(fs[f].storages, Offset(fs, 0, f))[i]
  }

  /** All bindings of all functions lie in the region, none overlapping another. */
  lemma {:induction false} StorageApart(fs: seq<Function>, f: nat, i: nat, h: nat, j: nat)
    requires f < |fs| && i < |fs[f].storages| && h < |fs| && j < |fs[h].storages| && (f < h || (f == h && i < j))
    ensures PlaceEnd(PlaceOf(fs, f, i)) <= Begin(PlaceOf(fs, h, j)) && PlaceEnd(PlaceOf(fs, h, j)) <= Total(fs, 0)
  {
    hide Places, End, Begin, PlaceEnd, Offset, Total;
    SignatureAt(fs, 0, f);
    SignatureAt(fs, 0, h);
    PlacesBetween(fs[h].storages, Offset(fs, 0, h), j);
    PlacesBetween(fs[f].storages, Offset(fs, 0, f), i);
    OffsetsGrow(fs, 0, h + 1, |fs|);
    if f == h {
      PlacesApart(fs[f].storages, Offset(fs, 0, f), i, j);
    } else {
      OffsetsGrow(fs, 0, f + 1, h);
    }
  }

  /** The storage of a program: every place of every function. */
  function RegionOf(fs: seq<Function>): Region
  {
    Region(Total(fs, 0), set f, i | 0 <= f < |fs| && 0 <= i < |fs[f].storages| :: PlaceOf(fs, f, i))
  }

  lemma {:induction false} PlacesInRegion(fs: seq<Function>, f: nat)
    requires f < |fs|
    ensures PlacesIn(Signatures(fs, 0)[f].places, RegionOf(fs))
  {
    hide Places, End, Signatures, Offset, Total;
    SignatureAt(fs, 0, f);
    OffsetsGrow(fs, 0, f + 1, |fs|);
    forall i | 0 <= i < |fs[f].storages| ensures PlaceIn(Signatures(fs, 0)[f].places[i], RegionOf(fs)) {
      assert Signatures(fs, 0)[f].places[i] == PlaceOf(fs, f, i);
      PlacesBetween(fs[f].storages, Offset(fs, 0, f), i);
    }
  }

  // ----- sizes do not depend on entries -----

  lemma {:induction false} ExprSizeSame(g: Linkage, h: Linkage, e: Expr)
    requires g.signatures == h.signatures
    ensures ExprSize(g, e) == ExprSize(h, e)
    decreases e, 1
  {
    match e
    case Index(_, a) => ExprSizeSame(g, h, a);
    case Not(a) => ExprSizeSame(g, h, a);
    case Negate(a) => ExprSizeSame(g, h, a);
    case Arithmetic(_, _, a, b) => ExprSizeSame(g, h, a); ExprSizeSame(g, h, b);
    case Compare(_, _, a, b) => ExprSizeSame(g, h, a); ExprSizeSame(g, h, b);
    case And(a, b) => ExprSizeSame(g, h, a); ExprSizeSame(g, h, b);
    case Or(a, b) => ExprSizeSame(g, h, a); ExprSizeSame(g, h, b);
    case Invoke(_, arguments) => ArgumentsSizeSame(g, h, arguments);
    case _ =>
  }

  lemma {:induction false} ArgumentsSizeSame(g: Linkage, h: Linkage, es: seq<Expr>)
    requires g.signatures == h.signatures
    ensures ArgumentsSize(g, es) == ArgumentsSize(h, es)
    decreases es, 0
  {
    hide ExprSize;
    if es != [] {
      ExprSizeSame(g, h, es[0]);
      ArgumentsSizeSame(g, h, es[1..]);
    }
  }

  predicate Alike(c: Context, d: Context)
  {
    c.g.signatures == d.g.signatures && c.main == d.main && c.returning == d.returning
  }

  lemma {:induction false} StmtSizeSame(c: Context, d: Context, s: Stmt)
    requires Alike(c, d)
    ensures StmtSize(c, s) == StmtSize(d, s)
    decreases s, 1
  {
    hide ExprSize, ArgumentsSize, CallSize;
    match s
    case Let(_, e) => ExprSizeSame(c.g, d.g, e);
    case LetArray(_, es) => ArgumentsSizeSame(c.g, d.g, es);
    case Assign(_, _, e) => ExprSizeSame(c.g, d.g, e);
    case AssignElement(_, a, _, b) => ExprSizeSame(c.g, d.g, a); ExprSizeSame(c.g, d.g, b);
    case Perform(_, es) => ArgumentsSizeSame(c.g, d.g, es);
    case Show(e) => ExprSizeSame(c.g, d.g, e);
    case If(e, a, b) => ExprSizeSame(c.g, d.g, e); BlockSizeSame(c, d, a); BlockSizeSame(c, d, b);
    case While(e, body) => ExprSizeSame(c.g, d.g, e); BlockSizeSame(c, d, body);
    case Loop(body) => BlockSizeSame(c, d, body);
    case Return(es) => if es != [] { ExprSizeSame(c.g, d.g, es[0]); }
    case _ =>
  }

  lemma {:induction false} BlockSizeSame(c: Context, d: Context, ss: seq<Stmt>)
    requires Alike(c, d)
    ensures BlockSize(c, ss) == BlockSize(d, ss)
    decreases ss, 0
  {
    hide StmtSize;
    if ss != [] {
      StmtSizeSame(c, d, ss[0]);
      BlockSizeSame(c, d, ss[1..]);
    }
  }

  // ----- the program -----

  datatype Program = Program(functions: seq<Function>, main: nat)

  function ContextFor(p: Program, g: Linkage, f: nat, halt: nat): Context
    requires f < |p.functions| == |g.signatures|
  {
    Context(g, g.signatures[f].places, f == p.main, p.functions[f].returning, halt, false, 0, 0)
  }

  /** Signatures alone, before any address is known. */
  function Unlinked(p: Program): (g: Linkage)
    ensures |g.signatures| == |p.functions|
  {
    Linkage(Signatures(p.functions, 0), [])
  }

  function SizeOf(p: Program, f: nat): nat
    requires f < |p.functions|
  {
    var c := ContextFor(p, Unlinked(p), f, 0);
    if f == p.main then 0 else FunctionSize(c, p.functions[f].body)
  }

  /** Where a function starts: after `main`, in the order of the text. */
  function Start(p: Program, f: nat): nat
    requires f <= |p.functions| && p.main < |p.functions|
  {
    if f == 0 then BlockSize(ContextFor(p, Unlinked(p), p.main, 0), p.functions[p.main].body) + 1
    else Start(p, f - 1) + SizeOf(p, f - 1)
  }

  function HaltAt(p: Program): nat
    requires p.main < |p.functions|
  {
    Start(p, |p.functions|)
  }

  function Linked'(p: Program): (g: Linkage)
    requires p.main < |p.functions|
    ensures |g.signatures| == |g.entries| == |p.functions|
  {
    Linkage(Signatures(p.functions, 0), seq(|p.functions|, f requires 0 <= f < |p.functions| => Start(p, f)))
  }

  function Home(p: Program, f: nat): Context
    requires f < |p.functions| && p.main < |p.functions|
  {
    ContextFor(p, Linked'(p), f, HaltAt(p))
  }

  function CodeFrom(p: Program, f: nat): seq<Cell>
    requires f <= |p.functions| && p.main < |p.functions|
    decreases |p.functions| - f
  {
    if f == |p.functions| then [Plainly(Halt, [])]
    else (if f == p.main then [] else CodeFunction(Home(p, f), p.functions[f].body, Start(p, f))) + CodeFrom(p, f + 1)
  }

  function ProgramCode(p: Program): seq<Cell>
    requires p.main < |p.functions|
  {
    CodeBlock(Home(p, p.main), p.functions[p.main].body, 0) + ([Plainly(Branch(HaltAt(p)), [])] + CodeFrom(p, 0))
  }

  predicate FunctionOk(p: Program, f: nat)
    requires f < |p.functions| && p.main < |p.functions|
  {
    BlockOk(Home(p, f), p.main, p.functions[f].body) && ScalarParameters(Linked'(p).signatures[f])
  }

  /** What the compiler accepts: one plain `main`, storage within the region, well-formed bodies, and
      an image within its limit. */
  predicate Accepted(p: Program)
  {
    && p.main < |p.functions| && p.functions[p.main].parameters == 0 && !p.functions[p.main].returning
    && Total(p.functions, 0) <= MAX_LOCAL_BYTES
    && (forall f :: 0 <= f < |p.functions| ==> FunctionOk(p, f))
    && |ProgramCode(p)| <= MAX_INSTRUCTIONS
  }

  // ----- the whole code -----

  lemma LinkedSize(p: Program, f: nat)
    requires f < |p.functions| && p.main < |p.functions|
    ensures BlockSize(Home(p, f), p.functions[f].body)
            == BlockSize(ContextFor(p, Unlinked(p), f, 0), p.functions[f].body)
    ensures f != p.main ==> SizeOf(p, f) == FunctionSize(Home(p, f), p.functions[f].body)
  {
    hide Signatures, Start, BlockSize;
    BlockSizeSame(Home(p, f), ContextFor(p, Unlinked(p), f, 0), p.functions[f].body);
  }

  lemma FirstLocated(p: Program, code: seq<Cell>)
    requires p.main < |p.functions| && code == ProgramCode(p)
    ensures Located(code, Start(p, 0), CodeFrom(p, 0))
  {
    hide Located, CodeBlock, Home, BlockSize, HaltAt, CodeFrom;
    var main := CodeBlock(Home(p, p.main), p.functions[p.main].body, 0);
    BlockLength(Home(p, p.main), p.functions[p.main].body, 0);
    LinkedSize(p, p.main);
    WholeLocated(code);
    LocatedSplit(code, 0, main, [Plainly(Branch(HaltAt(p)), [])] + CodeFrom(p, 0));
    LocatedSplit(code, |main|, [Plainly(Branch(HaltAt(p)), [])], CodeFrom(p, 0));
  }

  lemma NextLocated(p: Program, code: seq<Cell>, f: nat)
    requires p.main < |p.functions| && f < |p.functions| && Located(code, Start(p, f), CodeFrom(p, f))
    ensures Located(code, Start(p, f + 1), CodeFrom(p, f + 1))
  {
    hide Located, CodeFunction, Home, FunctionSize;
    var part := if f == p.main then [] else CodeFunction(Home(p, f), p.functions[f].body, Start(p, f));
    FunctionLength(Home(p, f), p.functions[f].body, Start(p, f));
    LinkedSize(p, f);
    LocatedSplit(code, Start(p, f), part, CodeFrom(p, f + 1));
  }

  lemma {:induction false} CodeFromLocated(p: Program, code: seq<Cell>, f: nat)
    requires p.main < |p.functions| && f <= |p.functions| && code == ProgramCode(p)
    ensures Located(code, Start(p, f), CodeFrom(p, f))
    decreases f
  {
    hide Located, Start, CodeFrom, ProgramCode;
    if f == 0 {
      FirstLocated(p, code);
    } else {
      CodeFromLocated(p, code, f - 1);
      NextLocated(p, code, f - 1);
    }
  }

  lemma WholeLocated(code: seq<Cell>)
    ensures Located(code, 0, code)
  {
  }

  lemma FunctionLocated(p: Program, code: seq<Cell>, f: nat)
    requires p.main < |p.functions| && f < |p.functions| && f != p.main && code == ProgramCode(p)
    ensures Located(code, Start(p, f), CodeFunction(Home(p, f), p.functions[f].body, Start(p, f)))
  {
    hide Located, CodeFunction, Home, Start, ProgramCode;
    CodeFromLocated(p, code, f);
    LocatedSplit(code, Start(p, f), CodeFunction(Home(p, f), p.functions[f].body, Start(p, f)), CodeFrom(p, f + 1));
  }

  lemma MainLocated(p: Program, code: seq<Cell>)
    requires p.main < |p.functions| && code == ProgramCode(p)
    ensures Located(code, 0, CodeBlock(Home(p, p.main), p.functions[p.main].body, 0))
    ensures Located(code, Start(p, 0) - 1, [Plainly(Branch(HaltAt(p)), [])])
    ensures HaltAt(p) + 1 == |code| && code[HaltAt(p)] == Plainly(Halt, [])
  {
    hide Located, CodeBlock, Home, BlockSize, CodeFrom;
    var main := CodeBlock(Home(p, p.main), p.functions[p.main].body, 0);
    BlockLength(Home(p, p.main), p.functions[p.main].body, 0);
    LinkedSize(p, p.main);
    WholeLocated(code);
    LocatedSplit(code, 0, main, [Plainly(Branch(HaltAt(p)), [])] + CodeFrom(p, 0));
    LocatedSplit(code, |main|, [Plainly(Branch(HaltAt(p)), [])], CodeFrom(p, 0));
    CodeFromLocated(p, code, |p.functions|);
    HaltLast(p, code);
  }

  lemma HaltLast(p: Program, code: seq<Cell>)
    requires p.main < |p.functions| && Located(code, HaltAt(p), CodeFrom(p, |p.functions|)) && code == ProgramCode(p)
    ensures HaltAt(p) + 1 == |code| && code[HaltAt(p)] == Plainly(Halt, [])
  {
    hide Located, HaltAt, CodeBlock, ProgramCode;
    LocatedOne(code, HaltAt(p), Plainly(Halt, []));
    CodeLength(p);
  }

  lemma CodeLength(p: Program)
    requires p.main < |p.functions|
    ensures |ProgramCode(p)| == HaltAt(p) + 1
  {
    hide CodeBlock, Home, BlockSize, CodeFrom;
    BlockLength(Home(p, p.main), p.functions[p.main].body, 0);
    LinkedSize(p, p.main);
    CodeFromLength(p, 0);
  }

  lemma {:induction false} CodeFromLength(p: Program, f: nat)
    requires p.main < |p.functions| && f <= |p.functions|
    ensures Start(p, f) + |CodeFrom(p, f)| == HaltAt(p) + 1
    decreases |p.functions| - f
  {
    hide CodeFunction, Home, FunctionSize;
    if f < |p.functions| {
      CodeFromLength(p, f + 1);
      FunctionLength(Home(p, f), p.functions[f].body, Start(p, f));
      LinkedSize(p, f);
    }
  }

  lemma TypedFunction(code: seq<Cell>, region: Region, main: nat, c: Context, body: seq<Stmt>, at: nat)
    requires ContextOk(code, region, main, c) && BlockOk(c, main, body) && !c.main
    requires Located(code, at, CodeFunction(c, body, at))
    ensures Typed(code, region, at, at + FunctionSize(c, body)) && code[at].shape == [] && code[at].fact == Linked
  {
    hide OkAt, Typed, Starts, Located, CodeBlock, BlockSize, BlockOk, ContextOk;
    var (entry, block) := ([Cell(Push(X30), [], Linked)], CodeBlock(c, body, at + 1));
    var tail := if c.returning then [Plainly(Fault, [Link])] else LEAVE;
    assert CodeFunction(c, body, at) == entry + (block + tail);
    BlockLength(c, body, at + 1);
    LocatedSplit(code, at, entry, block + tail);
    LocatedSplit(code, at + 1, block, tail);
    var b := at + 1 + BlockSize(c, body);
    if c.returning {
      TypedFault(code, region, b);
    } else {
      TypedLeave(code, region, b);
    }
    TypedBlock(code, region, main, c, body, at + 1);
    TypedEntry(code, region, at);
    TypedSplit(code, region, at, at + 1, b);
    TypedSplit(code, region, at, b, b + |tail|);
  }

  lemma TypedFault(code: seq<Cell>, region: Region, at: nat)
    requires Located(code, at, [Plainly(Fault, [Link])])
    ensures Typed(code, region, at, at + 1) && Starts(code, at, [Link])
  {
    LocatedOne(code, at, Plainly(Fault, [Link]));
    hide Located;
  }

  lemma TypedEntry(code: seq<Cell>, region: Region, at: nat)
    requires Located(code, at, [Cell(Push(X30), [], Linked)]) && Starts(code, at + 1, [Link])
    ensures Typed(code, region, at, at + 1) && code[at].shape == [] && code[at].fact == Linked
  {
    LocatedOne(code, at, Cell(Push(X30), [], Linked));
    hide Located;
  }

  lemma EntryKnown(p: Program, code: seq<Cell>, f: nat)
    requires Accepted(p) && code == ProgramCode(p) && f < |p.functions| && f != p.main
    ensures EntryOk(code, RegionOf(p.functions), Linked'(p), f)
  {
    PlacesInRegion(p.functions, f);
    FunctionLocated(p, code, f);
    assert FunctionOk(p, f);
    hide RegionOf, Signatures, CodeBlock, PlacesIn, ProgramCode, Start;
    var at := Start(p, f);
    assert code[at] == CodeFunction(Home(p, f), p.functions[f].body, at)[0] by {
      assert code[at] == code[at..at + |CodeFunction(Home(p, f), p.functions[f].body, at)|][0];
    }
  }

  lemma HomeOk(p: Program, code: seq<Cell>, f: nat)
    requires Accepted(p) && code == ProgramCode(p) && f < |p.functions|
    ensures ContextOk(code, RegionOf(p.functions), p.main, Home(p, f))
            && BlockOk(Home(p, f), p.main, p.functions[f].body)
  {
    assert FunctionOk(p, f);
    hide RegionOf, Signatures, PlacesIn, ProgramCode, Start, BlockOk, EntryOk, FunctionOk, Accepted;
    forall h | 0 <= h < |p.functions| && h != p.main ensures EntryOk(code, RegionOf(p.functions), Linked'(p), h) {
      EntryKnown(p, code, h);
    }
    PlacesInRegion(p.functions, f);
    MainLocated(p, code);
  }

  // ----- every instruction -----

  lemma FunctionTyped(p: Program, code: seq<Cell>, f: nat)
    requires Accepted(p) && code == ProgramCode(p) && f < |p.functions|
    ensures Typed(code, RegionOf(p.functions), Start(p, f), Start(p, f + 1))
  {
    hide RegionOf, Signatures, ProgramCode, BlockOk, Typed, Located, ContextOk, CodeFunction, FunctionSize, BlockSize;
    if f == p.main {
      NothingTyped(p, code, f);
    } else {
      HomeOk(p, code, f);
      FunctionLocated(p, code, f);
      LinkedSize(p, f);
      TypedFunction(code, RegionOf(p.functions), p.main, Home(p, f), p.functions[f].body, Start(p, f));
    }
  }

  lemma NothingTyped(p: Program, code: seq<Cell>, f: nat)
    requires p.main < |p.functions| && f <= |p.functions| && code == ProgramCode(p)
    ensures Typed(code, RegionOf(p.functions), Start(p, f), Start(p, f))
  {
    hide Start, CodeFrom, ProgramCode, RegionOf;
    CodeFromLocated(p, code, f);
  }

  lemma {:induction false} FunctionsTyped(p: Program, code: seq<Cell>, f: nat)
    requires Accepted(p) && code == ProgramCode(p) && f <= |p.functions|
    ensures Typed(code, RegionOf(p.functions), Start(p, 0), Start(p, f)) && Start(p, 0) <= Start(p, f)
    decreases f
  {
    hide RegionOf, ProgramCode, Typed, Accepted, SizeOf;
    MainKnown(p);
    if f == 0 {
      NothingTyped(p, code, 0);
    } else {
      FunctionsTyped(p, code, f - 1);
      FunctionTyped(p, code, f - 1);
      assert Start(p, f) == Start(p, f - 1) + SizeOf(p, f - 1);
      TypedSplit(code, RegionOf(p.functions), Start(p, 0), Start(p, f - 1), Start(p, f));
    }
  }

  lemma MainKnown(p: Program)
    requires Accepted(p)
    ensures p.main < |p.functions|
  {
  }

  lemma MainShape(p: Program)
    requires p.main < |p.functions|
    ensures Base(Home(p, p.main)) == [] && Start(p, 0) == BlockSize(Home(p, p.main), p.functions[p.main].body) + 1
  {
    hide BlockSize, Signatures, HaltAt;
    LinkedSize(p, p.main);
  }

  lemma MainTyped(p: Program, code: seq<Cell>)
    requires Accepted(p) && code == ProgramCode(p)
    ensures Typed(code, RegionOf(p.functions), 0, Start(p, 0)) && Starts(code, 0, [])
  {
    hide RegionOf, ProgramCode, BlockOk, Typed, Located, ContextOk, Starts, HaltAt, BlockSize, Accepted, CodeBlock,
         Home, Base, Start;
    MainKnown(p);
    var region := RegionOf(p.functions);
    HomeOk(p, code, p.main);
    MainLocated(p, code);
    MainShape(p);
    HaltStarts(p, code);
    var (c, body, end) := (Home(p, p.main), p.functions[p.main].body, Start(p, 0) - 1);
    TypedBranch(code, region, end, Branch(HaltAt(p)), []);
    TypedBlock(code, region, p.main, c, body, 0);
    TypedSplit(code, region, 0, end, end + 1);
  }

  lemma HaltStarts(p: Program, code: seq<Cell>)
    requires p.main < |p.functions| && HaltAt(p) + 1 == |code| && code[HaltAt(p)] == Plainly(Halt, [])
    ensures Starts(code, HaltAt(p), []) && Typed(code, RegionOf(p.functions), HaltAt(p), |code|)
  {
    hide RegionOf, HaltAt;
  }

  /** Every instruction of an accepted program is typed, and the first expects an empty stack. */
  lemma ProgramTyped(p: Program)
    requires Accepted(p)
    ensures Typed(ProgramCode(p), RegionOf(p.functions), 0, |ProgramCode(p)|) && Starts(ProgramCode(p), 0, [])
  {
    assert p.main < |p.functions|;
    hide RegionOf, ProgramCode, Typed, Starts, Accepted;
    var code := ProgramCode(p);
    MainTyped(p, code);
    FunctionsTyped(p, code, |p.functions|);
    MainLocated(p, code);
    HaltStarts(p, code);
    TypedSplit(code, RegionOf(p.functions), 0, Start(p, 0), HaltAt(p));
    TypedSplit(code, RegionOf(p.functions), 0, HaltAt(p), |code|);
  }
}
