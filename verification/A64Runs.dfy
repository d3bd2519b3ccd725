/** Every run of an accepted AArch64 program: the stack is safe, and arrays are isolated. */
module A64Runs {
  import opened Kinds
  import opened CheckedArithmetic
  import B = Bytes
  import opened A64Machine
  import opened A64Code
  import opened A64Typing
  import opened A64Statements
  import opened A64Linking
  import opened A64Safety

  /** A linked image: annotated code, and the functions whose slots it uses. */
  datatype Image = Image(code: seq<Cell>, functions: seq<Function>)

  /** Every instruction is typed, slots and code are within their limits, and the stack starts empty. */
  predicate Sound(x: Image)
  {
    && Typed(x.code, RegionOf(x.functions), 0, |x.code|) && Starts(x.code, 0, [])
    && |x.code| <= MAX_INSTRUCTIONS && Total(x.functions, 0) <= MAX_LOCAL_BYTES
  }

  /** What the compiler makes of a program. */
  function ImageOf(p: Program): Image
    requires p.main < |p.functions|
  {
    Image(ProgramCode(p), p.functions)
  }

  /** Every accepted program has a sound image. */
  lemma AcceptedSound(p: Program)
    requires Accepted(p)
    ensures Sound(ImageOf(p))
  {
    hide ProgramCode, RegionOf, Typed, Starts;
    ProgramTyped(p);
  }

  /** How much of memory the slots take. */
  function SlotBytes(x: Image): nat
  {
    Total(x.functions, 0)
  }

  /** The stack is empty; registers and memory hold anything. */
  predicate Boots(x: Image, m: Machine)
  {
    m.pc == 0 && m.sp == Top(SlotBytes(x)) && |m.mem| == Top(SlotBytes(x))
  }

  function After(x: Image, m: Machine, n: nat): Outcome
  {
    Run(Instructions(x.code), Floor(SlotBytes(x)), m, n)
  }

  /** The machine as first seen: nothing noted. */
  function Fresh(m: Machine): Watched
  {
    Watched(m, [], [], [])
  }

  function Observed(x: Image, m: Machine, n: nat): Sight
  {
    Watch(x.code, Floor(SlotBytes(x)), Fresh(m), n)
  }

  // ----- the invariant of every run -----

  lemma FirstAgreed(code: seq<Cell>, w: Watched)
    requires w.m.pc == 0 && w.pushed == [] && w.calls == [] && w.open == [] && Starts(code, 0, [])
    ensures Agreed(code, w)
  {
  }

  lemma BootInv(x: Image, m: Machine)
    requires Sound(x) && Boots(x, m)
    ensures Inv(x.code, SlotBytes(x), Fresh(m))
  {
    hide Total, Top, RegionOf, Typed;
    FirstAgreed(x.code, Fresh(m));
  }

  lemma StepOk(x: Image, w: Watched)
    requires Sound(x) && Inv(x.code, SlotBytes(x), w)
    ensures w.m.pc < |x.code| && OkAt(x.code, RegionOf(x.functions), w.m.pc) && Keeps(x.code, SlotBytes(x), w)
  {
    hide Keeps, OkAt, Agreed, StackHolds, Top, Starts, Total;
    assert OkAt(x.code, RegionOf(x.functions), w.m.pc);
    hide Typed;
    StepKeeps(x.code, SlotBytes(x), RegionOf(x.functions), w);
  }

  lemma {:induction false} ObservedInv(x: Image, m: Machine, n: nat)
    requires Sound(x) && Boots(x, m)
    ensures Observed(x, m, n).Seen? ==> Inv(x.code, SlotBytes(x), Observed(x, m, n).w)
    decreases n
  {
    hide Sound, Inv, OkAt, Boots, Execute, Noted, Floor, Total;
    if n == 0 {
      BootInv(x, m);
    } else {
      ObservedInv(x, m, n - 1);
      if Observed(x, m, n - 1).Seen? {
        StepOk(x, Observed(x, m, n - 1).w);
      }
    }
  }

  /** A run that has not stopped after `n` steps, and what the observer has noted of it. */
  predicate Reached(x: Image, m: Machine, n: nat, w: Watched)
  {
    Sound(x) && Boots(x, m) && Observed(x, m, n) == Seen(w)
  }

  /** The last thing on the list was put there by step `k` and has stayed since. */
  predicate LastFrom(x: Image, m: Machine, n: nat, w: Watched, l: List, k: nat)
  {
    Length(l, w) > 0 && Origin(x.code, Floor(SlotBytes(x)), Fresh(m), n, l, Length(l, w) - 1,
                               Item(l, w, Length(l, w) - 1), k)
  }

  lemma LastKnown(x: Image, m: Machine, n: nat, w: Watched, l: List) returns (k: nat)
    requires Reached(x, m, n, w) && Length(l, w) > 0
    ensures LastFrom(x, m, n, w, l, k)
  {
    hide Sound, Boots, Watch, Origin, Floor, Item;
    k := ItemOrigin(x.code, Floor(SlotBytes(x)), Fresh(m), n, l, Length(l, w) - 1);
  }

  /** A machine still running is about to run an instruction, and running it keeps the invariant. */
  lemma SeenKeeps(x: Image, m: Machine, n: nat, w: Watched)
    requires Reached(x, m, n, w)
    ensures Inv(x.code, SlotBytes(x), w) && w.m.pc < |x.code| && OkAt(x.code, RegionOf(x.functions), w.m.pc)
    ensures Keeps(x.code, SlotBytes(x), w) && After(x, m, n) == On(w.m)
  {
    hide Sound, OkAt, Boots, Execute, Noted, Floor, Keeps, Instructions, Run, Watch, Inv, RegionOf, Total;
    ObservedInv(x, m, n);
    StepOk(x, w);
    WatchFollows(x.code, Floor(SlotBytes(x)), Fresh(m), n);
  }

  /** What the next step gives. */
  function Now(x: Image, w: Watched): Outcome
    requires w.m.pc < |x.code|
  {
    Execute(x.code[w.m.pc].instr, Floor(SlotBytes(x)), w.m)
  }

  lemma NextAfter(x: Image, m: Machine, n: nat, w: Watched)
    requires Reached(x, m, n, w)
    ensures w.m.pc < |x.code| && After(x, m, n + 1) == Now(x, w)
  {
    hide Sound, Boots, Execute, Floor, SlotBytes, Keeps, OkAt, Inv, Watch;
    SeenKeeps(x, m, n, w);
  }

  // ----- the stack -----

  predicate Aligned16(bytes: nat, m: Machine)
  {
    Floor(bytes) <= m.sp <= Top(bytes) && m.sp % 16 == 0
  }

  lemma InvAligned(code: seq<Cell>, bytes: nat, w: Watched)
    requires Inv(code, bytes, w)
    ensures Aligned16(bytes, w.m)
  {
    hide Agreed;
    assert 16 * |w.pushed| <= STACK_BYTES;
    FloorAbove(bytes);
  }

  /** A machine that stopped did so where it stood. */
  lemma {:induction false} StoppedAfter(x: Image, m: Machine, n: nat)
    requires Sound(x) && Boots(x, m)
    ensures !After(x, m, n).Broken?
    ensures After(x, m, n).Off? ==> exists k :: 0 <= k < n && After(x, m, k) == On(After(x, m, n).m)
    decreases n
  {
    hide Sound, Boots, Execute, Noted, Floor, Inv, OkAt, Watch, SlotBytes;
    if n > 0 {
      StoppedAfter(x, m, n - 1);
      if After(x, m, n - 1).On? {
        WatchFollows(x.code, Floor(SlotBytes(x)), Fresh(m), n - 1);
        SeenKeeps(x, m, n - 1, Observed(x, m, n - 1).w);
      }
    }
  }

  /** In every run, however deep the recursion, no access leaves memory, and the stack pointer stays
      between floor and top and aligned. */
  lemma StackSafety(x: Image, m: Machine, n: nat)
    requires Sound(x) && Boots(x, m)
    ensures !After(x, m, n).Broken? && Aligned16(SlotBytes(x), After(x, m, n).m)
  {
    hide Sound, Boots, Run, Watch, Inv, OkAt, Keeps, Aligned16, Floor;
    StoppedAfter(x, m, n);
    var k: nat := n;
    if After(x, m, n).Off? {
      k :| k < n && After(x, m, k) == On(After(x, m, n).m);
    }
    WatchFollows(x.code, Floor(SlotBytes(x)), Fresh(m), k);
    SeenKeeps(x, m, k, Observed(x, m, k).w);
    InvAligned(x.code, SlotBytes(x), Observed(x, m, k).w);
  }

  /** The same for the code of any accepted program. */
  lemma ProgramStackSafety(p: Program, m: Machine, n: nat)
    requires Accepted(p) && Boots(ImageOf(p), m)
    ensures var r := After(ImageOf(p), m, n); !r.Broken? && Aligned16(SlotBytes(ImageOf(p)), r.m)
  {
    AcceptedSound(p);
    hide Accepted, Sound, ImageOf, Boots, After, Aligned16;
    StackSafety(ImageOf(p), m, n);
  }

  lemma PopLoads(i: Instr, floor: nat, m: Machine, v: Quad)
    requires i.Pop? && 0 <= m.sp && m.sp + 8 <= |m.mem| && ReadQuad(m.mem, m.sp) == v
    ensures Execute(i, floor, m).On? && Get(Execute(i, floor, m).m, i.r) == v
  {
    hide ReadQuad;
  }

  /** Every pop loads what the matching push stored: step `k` pushed it, and the stack was never lower
      in between. */
  lemma PopsMatchPushes(x: Image, m: Machine, n: nat, w: Watched) returns (k: nat)
    requires Reached(x, m, n, w) && w.m.pc < |x.code| && x.code[w.m.pc].instr.Pop?
    ensures LastFrom(x, m, n, w, Pushes, k) && After(x, m, n + 1).On?
    ensures w.pushed != [] && Get(After(x, m, n + 1).m, x.code[w.m.pc].instr.r) == w.pushed[|w.pushed| - 1]
  {
    hide Reached, Inv, OkAt, Floor, ReadQuad, Keeps, Execute, StackHolds, Get, After, RegionOf, LastFrom, SlotBytes;
    SeenKeeps(x, m, n, w);
    PopReads(x.code, SlotBytes(x), RegionOf(x.functions), w);
    NextAfter(x, m, n, w);
    PopLoads(x.code[w.m.pc].instr, Floor(SlotBytes(x)), w.m, w.pushed[|w.pushed| - 1]);
    k := LastKnown(x, m, n, w, Pushes);
  }

  lemma ReturnGoes(i: Instr, floor: nat, m: Machine)
    requires i.Ret?
    ensures Execute(i, floor, m) == On(m.(pc := m.x30))
  {
  }

  /** Every return goes to where the innermost open call resumes, and the stack is as that call left it:
      step `k` made the call, and all calls made since have returned. */
  lemma ReturnsMatchCalls(x: Image, m: Machine, n: nat, w: Watched) returns (k: nat)
    requires Reached(x, m, n, w) && w.m.pc < |x.code| && x.code[w.m.pc].instr.Ret?
    ensures LastFrom(x, m, n, w, Calls, k) && w.calls != []
    ensures var call := w.calls[|w.calls| - 1];
            |w.pushed| == call.height && After(x, m, n + 1) == On(w.m.(pc := call.resume))
  {
    hide Reached, Inv, OkAt, Floor, Keeps, Execute, After, RegionOf, LastFrom, SlotBytes;
    SeenKeeps(x, m, n, w);
    ReturnMatches(x.code, SlotBytes(x), RegionOf(x.functions), w);
    NextAfter(x, m, n, w);
    ReturnGoes(x.code[w.m.pc].instr, Floor(SlotBytes(x)), w.m);
    k := LastKnown(x, m, n, w, Calls);
  }

  // ----- arrays -----

  /** The next instruction accesses element `i` of the array whose address the instruction before it
      formed, an array of the program. */
  predicate Aimed(x: Image, m: Machine, i: nat)
  {
    && 0 < m.pc < |x.code| && x.code[m.pc - 1].instr.Address?
    && AimedIn(x.code[m.pc - 1].instr.vector, RegionOf(x.functions), m, i)
  }

  predicate AimedIn(v: Vector, region: Region, m: Machine, i: nat)
  {
    VectorIn(v, region) && i < v.length && m.x2 == Element(v, i).at
  }

  /** The element aimed at. */
  function Aim(x: Image, m: Machine, i: nat): Slot
    requires Aimed(x, m, i)
  {
    Element(x.code[m.pc - 1].instr.vector, i)
  }

  lemma AimedAt(code: seq<Cell>, region: Region, w: Watched, waiting: seq<nat>)
    requires w.m.pc < |code| && OkAt(code, region, w.m.pc)
             && (code[w.m.pc].instr.LoadIndexed? || code[w.m.pc].instr.StoreIndexed?)
    requires FactOk(code[w.m.pc].fact, w.m, w.calls, waiting, w.open)
    ensures w.open != [] && 0 < w.m.pc && code[w.m.pc - 1].instr.Address?
    ensures AimedIn(code[w.m.pc - 1].instr.vector, region, w.m, w.open[|w.open| - 1])
    ensures code[w.m.pc].instr.kind == code[w.m.pc - 1].instr.vector.element
  {
    hide VectorIn, Element;
  }

  /** An access is to the element whose index was checked last and not used yet. */
  lemma AccessAimed(x: Image, m: Machine, n: nat, w: Watched)
    requires Reached(x, m, n, w) && w.m.pc < |x.code|
             && (x.code[w.m.pc].instr.LoadIndexed? || x.code[w.m.pc].instr.StoreIndexed?)
    ensures w.open != [] && Aimed(x, w.m, w.open[|w.open| - 1]) && |w.m.mem| == Top(SlotBytes(x))
    ensures var s := Aim(x, w.m, w.open[|w.open| - 1]);
            w.m.x2 == s.at && x.code[w.m.pc].instr.kind == s.kind && s.at + Width(s.kind) <= SlotBytes(x) <= |w.m.mem|
  {
    hide Reached, Inv, OkAt, Floor, Keeps, Execute, After, FactOk, WaitingNow, Framed, Entries, StackHolds, Total;
    SeenKeeps(x, m, n, w);
    InvParts(x.code, SlotBytes(x), w);
    AimedAt(x.code, RegionOf(x.functions), w, WaitingNow(x.code, w));
    ElementIn(x.code[w.m.pc - 1].instr.vector, RegionOf(x.functions), w.open[|w.open| - 1]);
    FloorAbove(SlotBytes(x));
  }

  lemma LoadReads(i: Instr, floor: nat, m: Machine, s: Slot)
    requires i.LoadIndexed? && i.kind == s.kind && m.x2 == s.at && s.at + Width(s.kind) <= |m.mem|
    ensures var r := Execute(i, floor, m); r.On? && r.m.mem == m.mem && Get(r.m, i.r) == ReadScalar(m.mem, s.at, s.kind)
  {
    hide ReadScalar;
  }

  lemma StoreWrites(i: Instr, floor: nat, m: Machine, s: Slot)
    requires i.StoreIndexed? && i.kind == s.kind && m.x2 == s.at && s.at + Width(s.kind) <= |m.mem|
    ensures Execute(i, floor, m) == On(Next(m.(mem := WriteScalar(m.mem, s.at, s.kind, W(m.x0)))))
  {
    hide WriteScalar;
  }

  /** Reads element `i` and changes no memory. */
  predicate ReadsElement(x: Image, w: Watched, i: nat, r: Outcome)
    requires w.m.pc < |x.code| && x.code[w.m.pc].instr.LoadIndexed?
  {
    && Aimed(x, w.m, i) && r.On? && r.m.mem == w.m.mem && Aim(x, w.m, i).at + Width(Aim(x, w.m, i).kind) <= |w.m.mem|
    && Get(r.m, x.code[w.m.pc].instr.r) == ReadScalar(w.m.mem, Aim(x, w.m, i).at, Aim(x, w.m, i).kind)
  }

  /** Every indexed load reads element `i`, for the index `i` that step `k` checked. */
  lemma LoadsReadElement(x: Image, m: Machine, n: nat, w: Watched) returns (k: nat)
    requires Reached(x, m, n, w) && w.m.pc < |x.code| && x.code[w.m.pc].instr.LoadIndexed?
    ensures LastFrom(x, m, n, w, Indices, k) && w.open != []
            && ReadsElement(x, w, w.open[|w.open| - 1], After(x, m, n + 1))
  {
    hide Reached, Floor, Execute, After, Aimed, Aim, ReadScalar, Get, LastFrom, SlotBytes, Top;
    AccessAimed(x, m, n, w);
    NextAfter(x, m, n, w);
    LoadReads(x.code[w.m.pc].instr, Floor(SlotBytes(x)), w.m, Aim(x, w.m, w.open[|w.open| - 1]));
    k := LastKnown(x, m, n, w, Indices);
  }

  // ----- a store touches one element -----

  lemma SlotInPlace(p: Place, s: Slot)
    requires s in Slots(p)
    ensures Begin(p) <= s.at && s.at + Width(s.kind) <= PlaceEnd(p)
  {
    if p.Many? {
      var i :| 0 <= i < p.vector.length && s == Element(p.vector, i);
      Stride(i, p.vector.length, Width(p.vector.element));
    }
  }

  predicate Apart(s: Slot, t: Slot)
  {
    s.at + Width(s.kind) <= t.at || t.at + Width(t.kind) <= s.at
  }

  lemma ElementsApart(v: Vector, i: nat, j: nat)
    requires i != j && i < v.length && j < v.length
    ensures Apart(Element(v, i), Element(v, j))
  {
    Stride(if i < j then i else j, if i < j then j else i, Width(v.element));
  }

  /** Different slots of a program never share a byte. */
  lemma {:induction false} SlotsApart(fs: seq<Function>, f: nat, i: nat, s: Slot, h: nat, j: nat, t: Slot)
    requires f < |fs| && i < |fs[f].storages| && h < |fs| && j < |fs[h].storages|
    requires s in Slots(PlaceOf(fs, f, i)) && t in Slots(PlaceOf(fs, h, j)) && s != t
    ensures Apart(s, t)
  {
    hide PlaceOf, Total, Element, PlaceEnd, Begin;
    SlotInPlace(PlaceOf(fs, f, i), s);
    SlotInPlace(PlaceOf(fs, h, j), t);
    if f == h && i == j {
      var p := PlaceOf(fs, f, i);
      if p.Many? {
        var a :| 0 <= a < p.vector.length && s == Element(p.vector, a);
        var b :| 0 <= b < p.vector.length && t == Element(p.vector, b);
        ElementsApart(p.vector, a, b);
      }
    } else if f < h || (f == h && i < j) {
      StorageApart(fs, f, i, h, j);
    } else {
      StorageApart(fs, h, j, f, i);
    }
  }

  lemma ApartUnchanged(mem: seq<B.Byte>, s: Slot, w: Word, t: Slot)
    requires s.at + Width(s.kind) <= |mem| && t.at + Width(t.kind) <= |mem| && Apart(s, t)
    ensures Bytes'(WriteScalar(mem, s.at, s.kind, w), t.at, Width(t.kind)) == Bytes'(mem, t.at, Width(t.kind))
  {
  }

  /** All slots of all functions but one keep their bytes. */
  predicate OnlyChanged(fs: seq<Function>, s: Slot, before: seq<B.Byte>, after: seq<B.Byte>)
    requires Total(fs, 0) <= |before| == |after|
  {
    forall f: nat, i: nat, t | f < |fs| && i < |fs[f].storages| && t in Slots(PlaceOf(fs, f, i)) && t != s ::
      SlotBytesKept(t, before, after)
  }

  predicate SlotBytesKept(t: Slot, before: seq<B.Byte>, after: seq<B.Byte>)
    requires |before| == |after|
  {
    t.at + Width(t.kind) <= |before| && Bytes'(after, t.at, Width(t.kind)) == Bytes'(before, t.at, Width(t.kind))
  }

  lemma {:induction false} ElementChangesOnly(fs: seq<Function>, v: Vector, k: nat, mem: seq<B.Byte>, w: Word)
    requires Many(v) in RegionOf(fs).places && k < v.length && Total(fs, 0) <= |mem|
    requires Element(v, k).at + Width(v.element) <= |mem|
    ensures OnlyChanged(fs, Element(v, k), mem, WriteScalar(mem, Element(v, k).at, v.element, w))
  {
    var h: nat, j: nat :| h < |fs| && j < |fs[h].storages| && PlaceOf(fs, h, j) == Many(v);
    var s := Element(v, k);
    assert s in Slots(Many(v)) by { assert Slots(Many(v))[k] == s; }
    hide PlaceOf, Total, Element, WriteScalar, Bytes';
    forall f: nat, i: nat, t | f < |fs| && i < |fs[f].storages| && t in Slots(PlaceOf(fs, f, i)) && t != s
      ensures SlotBytesKept(t, mem, WriteScalar(mem, s.at, s.kind, w))
    {
      SlotsApart(fs, h, j, s, f, i, t);
      SlotInTotal(fs, f, i, t);
      ApartUnchanged(mem, s, w, t);
    }
  }

  lemma {:induction false} SlotInTotal(fs: seq<Function>, f: nat, i: nat, t: Slot)
    requires f < |fs| && i < |fs[f].storages| && t in Slots(PlaceOf(fs, f, i))
    ensures t.at + Width(t.kind) <= Total(fs, 0)
  {
    hide Places, Offset, Total, Begin, PlaceEnd;
    SlotInPlace(PlaceOf(fs, f, i), t);
    SignatureAt(fs, 0, f);
    PlacesBetween(fs[f].storages, Offset(fs, 0, f), i);
    OffsetsGrow(fs, 0, f + 1, |fs|);
  }

  /** Writes element `i` and no other slot of any function, nor anything on the stack. */
  predicate WritesElement(x: Image, w: Watched, i: nat, r: Outcome)
  {
    && Aimed(x, w.m, i) && r.On? && |w.m.mem| == |r.m.mem| == Top(SlotBytes(x))
    && var s := Aim(x, w.m, i);
       && s.at + Width(s.kind) <= SlotBytes(x) <= |w.m.mem| && r.m.mem == WriteScalar(w.m.mem, s.at, s.kind, W(w.m.x0))
       && OnlyChanged(x.functions, s, w.m.mem, r.m.mem) && StackHolds(SlotBytes(x), r.m.mem, w.pushed)
  }

  lemma AimChangesOnly(x: Image, m: Machine, i: nat, w: Word)
    requires Aimed(x, m, i) && Aim(x, m, i).at + Width(Aim(x, m, i).kind) <= SlotBytes(x) <= |m.mem|
    ensures var s := Aim(x, m, i); OnlyChanged(x.functions, s, m.mem, WriteScalar(m.mem, s.at, s.kind, w))
  {
    hide Total, OnlyChanged, WriteScalar;
    ElementChangesOnly(x.functions, x.code[m.pc - 1].instr.vector, i, m.mem, w);
  }

  /** Every indexed store writes element `i`, for the index `i` that step `k` checked, and nothing else. */
  lemma StoresTouchOneElement(x: Image, m: Machine, n: nat, w: Watched) returns (k: nat)
    requires Reached(x, m, n, w) && w.m.pc < |x.code| && x.code[w.m.pc].instr.StoreIndexed?
    ensures LastFrom(x, m, n, w, Indices, k) && w.open != []
            && WritesElement(x, w, w.open[|w.open| - 1], After(x, m, n + 1))
  {
    hide Reached, Floor, Execute, After, Aimed, Aim, WriteScalar, LastFrom, SlotBytes, Top, OnlyChanged, StackHolds,
         OkAt, Inv, Keeps, Framed, Entries, FactOk;
    AccessAimed(x, m, n, w);
    NextAfter(x, m, n, w);
    var i := w.open[|w.open| - 1];
    var s := Aim(x, w.m, i);
    StoreWrites(x.code[w.m.pc].instr, Floor(SlotBytes(x)), w.m, s);
    AimChangesOnly(x, w.m, i, W(w.m.x0));
    SeenKeeps(x, m, n, w);
    InvParts(x.code, SlotBytes(x), w);
    ScalarBelowStack(SlotBytes(x), w.m.mem, w.pushed, s, W(w.m.x0));
    k := LastKnown(x, m, n, w, Indices);
  }

  lemma ScalarBelowStack(bytes: nat, mem: seq<B.Byte>, pushed: seq<Quad>, s: Slot, w: Word)
    requires |mem| == Top(bytes) && StackHolds(bytes, mem, pushed) && s.at + Width(s.kind) <= bytes
    ensures s.at + Width(s.kind) <= |mem| && StackHolds(bytes, WriteScalar(mem, s.at, s.kind, w), pushed)
  {
    hide StackHolds;
    SlotsBelowStack(bytes, mem, pushed, s.at, B.Le(w, Width(s.kind)));
  }

  /** An index outside the array, negative ones included, ends the run with memory as it was; one inside
      goes on with nothing changed. */
  lemma IndexDecides(x: Image, v: Vector, floor: nat, m: Machine, i: int)
    requires Sound(x) && Many(v) in RegionOf(x.functions).places
    requires (InRange(I32, i) || InRange(U32, i)) && W(m.x0) == Pattern(i)
    ensures Execute(CheckIndex(v.length), floor, m) == if 0 <= i < v.length then On(Next(m)) else Off(OutOfBounds, m)
  {
    assert Total(x.functions, 0) <= MAX_LOCAL_BYTES;
    hide Sound, Total, RegionOf, Pattern;
    VectorShort(x.functions, v);
    PatternOf(i);
  }

  lemma PatternOf(i: int)
    requires InRange(I32, i) || InRange(U32, i)
    ensures Pattern(i) == if i < 0 then i + TWO_32 else i
  {
    if i < 0 {
      assert i == -1 * TWO_32 + (i + TWO_32);
    }
  }

  lemma {:induction false} VectorShort(fs: seq<Function>, v: Vector)
    requires Many(v) in RegionOf(fs).places
    ensures v.length <= Total(fs, 0)
  {
    var h: nat, j: nat :| h < |fs| && j < |fs[h].storages| && PlaceOf(fs, h, j) == Many(v);
    hide PlaceOf, Total;
    if v.length > 0 {
      var s := Element(v, v.length - 1);
      assert s in Slots(Many(v)) by { assert Slots(Many(v))[v.length - 1] == s; }
      SlotInTotal(fs, h, j, s);
      LengthAtMost(v.length - 1, Width(v.element));
    }
  }

  lemma LengthAtMost(n: nat, w: nat)
    requires w >= 1
    ensures n <= n * w
  {
  }
}
