/**
 * What every step of a compiled program keeps. An observer writes down what is pushed, which calls are
 * under way and which array indices were checked; the machine always agrees with it.
 */
module A64Safety {
  import opened Kinds
  import opened CheckedArithmetic
  import B = Bytes
  import opened A64Machine
  import opened A64Code
  import opened A64Typing
  import opened A64Statements
  import opened A64Linking

  // ----- the observer -----

  /** A call under way: where it resumes and how much was on the stack. */
  datatype Activation = Activation(resume: nat, height: nat)

  /** `open` lists the array indices that were checked and whose access is still to come, innermost last. */
  datatype Watched = Watched(m: Machine, pushed: seq<Quad>, calls: seq<Activation>, open: seq<nat>)

  function Shorter<T>(s: seq<T>): seq<T>
  {
    if s == [] then [] else s[..|s| - 1]
  }

  /** What the observer notes when the instruction has run. The load into x0 and the store are the
      accesses an index was checked for; a compound assignment also reads the element into x1. */
  function Noted(i: Instr, w: Watched, after: Machine): Watched
  {
    match i
    case Push(r) => Watched(after, w.pushed + [Get(w.m, r)], w.calls, w.open)
    case Pop(_) => Watched(after, Shorter(w.pushed), w.calls, w.open)
    case Call(_) => Watched(after, w.pushed, w.calls + [Activation(w.m.pc + 1, |w.pushed|)], w.open)
    case Ret => Watched(after, w.pushed, Shorter(w.calls), w.open)
    case CheckIndex(_) => Watched(after, w.pushed, w.calls, w.open + [W(w.m.x0)])
    case LoadIndexed(_, r) => Watched(after, w.pushed, w.calls, if r == X0 then Shorter(w.open) else w.open)
    case StoreIndexed(_) => Watched(after, w.pushed, w.calls, Shorter(w.open))
    case _ => Watched(after, w.pushed, w.calls, w.open)
  }

  // ----- the layout of memory -----

  function Floor(bytes: nat): nat
  {
    (bytes + 15) / 16 * 16
  }

  function Top(bytes: nat): nat
  {
    Floor(bytes) + STACK_BYTES
  }

  lemma FloorAbove(bytes: nat)
    ensures bytes <= Floor(bytes) && Floor(bytes) % 16 == 0
  {
  }

  /** The address of the k-th entry pushed. */
  function EntryAt(bytes: nat, k: nat): int
  {
    Top(bytes) - 16 * (k + 1)
  }

  // ----- the invariant -----

  predicate EntryOk'(e: Entry, v: Quad, calls: seq<Activation>)
  {
    match e
    case Value => true
    case Below(n) => v < n
    case Link => calls != [] && v == calls[|calls| - 1].resume
  }

  predicate EntriesOk(shape: Shape, values: seq<Quad>, calls: seq<Activation>)
  {
    |shape| == |values| && forall k :: 0 <= k < |shape| ==> EntryOk'(shape[k], values[k], calls)
  }

  /** The stack is the entries of the running function on top of those of its callers. */
  predicate Framed(p: seq<Cell>, pushed: seq<Quad>, calls: seq<Activation>, shape: Shape)
    decreases |calls|
  {
    |shape| <= |pushed| &&
    var below := |pushed| - |shape|;
    EntriesOk(shape, pushed[below..], calls) &&
    if calls == [] then below == 0
    else
      var a := calls[|calls| - 1];
      below == a.height && a.resume < |p| && p[a.resume].fact == Plain &&
      Framed(p, pushed[..below], calls[..|calls| - 1], p[a.resume].shape)
  }

  /** What every entry of the whole stack holds. */
  function Entries(p: seq<Cell>, calls: seq<Activation>, shape: Shape): Shape
    decreases |calls|
  {
    if calls == [] then shape
    else
      var a := calls[|calls| - 1];
      Entries(p, calls[..|calls| - 1], if a.resume < |p| then p[a.resume].shape else []) + shape
  }

  /** The indices that wait on the stack. */
  function Waiting(entries: Shape, values: seq<Quad>): seq<nat>
    requires |entries| == |values|
  {
    if entries == [] then []
    else
      var n := |entries| - 1;
      Waiting(entries[..n], values[..n]) + if entries[n].Below? then [values[n]] else []
  }

  /** `open` ends with the index. */
  predicate Latest(open: seq<nat>, i: nat)
  {
    open != [] && open[|open| - 1] == i
  }

  predicate FactOk(f: Fact, m: Machine, calls: seq<Activation>, waiting: seq<nat>, open: seq<nat>)
  {
    match f
    case Plain => open == waiting
    case Word0 => open == waiting && m.x0 < TWO_32
    case Linked => open == waiting && calls != [] && m.x30 == calls[|calls| - 1].resume
    case Index0(n) => m.x0 < n && open == waiting + [m.x0]
    case Index3(n, kept) => m.x3 < n && Latest(open, m.x3) && waiting == if kept then open else Shorter(open)
    case Pointing(v, kept) =>
      && open != [] && open[|open| - 1] < v.length && m.x2 == Element(v, open[|open| - 1]).at
      && waiting == if kept then open else Shorter(open)
  }

  predicate StackHolds(bytes: nat, mem: seq<B.Byte>, pushed: seq<Quad>)
    requires |mem| == Top(bytes)
  {
    16 * |pushed| <= STACK_BYTES && forall k :: 0 <= k < |pushed| ==> Holds'(bytes, mem, k, pushed[k])
  }

  predicate Holds'(bytes: nat, mem: seq<B.Byte>, k: nat, v: Quad)
    requires |mem| == Top(bytes)
  {
    0 <= EntryAt(bytes, k) && ReadQuad(mem, EntryAt(bytes, k)) == v
  }

  /** The stack, the calls and the indices agree with what the next instruction expects. */
  predicate Agreed(p: seq<Cell>, w: Watched)
    requires w.m.pc < |p|
  {
    && Framed(p, w.pushed, w.calls, p[w.m.pc].shape)
    && |Entries(p, w.calls, p[w.m.pc].shape)| == |w.pushed|
    && FactOk(p[w.m.pc].fact, w.m, w.calls, Waiting(Entries(p, w.calls, p[w.m.pc].shape), w.pushed), w.open)
  }

  predicate Inv(p: seq<Cell>, bytes: nat, w: Watched)
  {
    && w.m.pc < |p| && |w.m.mem| == Top(bytes) && w.m.sp == Top(bytes) - 16 * |w.pushed|
    && StackHolds(bytes, w.m.mem, w.pushed) && Agreed(p, w)
  }

  // ----- memory lemmas -----

  lemma EntryRange(bytes: nat, k: nat)
    requires 16 * (k + 1) <= STACK_BYTES
    ensures Floor(bytes) <= EntryAt(bytes, k) && EntryAt(bytes, k) + 16 <= Top(bytes)
  {
  }

  /** Bytes written elsewhere leave a quad alone. */
  lemma QuadElsewhere(mem: seq<B.Byte>, at: nat, b: seq<B.Byte>, a: nat)
    requires at + |b| <= |mem| && a + 8 <= |mem| && (at + |b| <= a || a + 8 <= at)
    ensures ReadQuad(Put(mem, at, b), a) == ReadQuad(mem, a)
  {
    var r := Put(mem, at, b);
    assert r[a..a + 8] == mem[a..a + 8];
  }

  lemma QuadWritten(mem: seq<B.Byte>, at: nat, v: Quad)
    requires at + 8 <= |mem|
    ensures ReadQuad(WriteQuad(mem, at, v), at) == v
  {
    var r := WriteQuad(mem, at, v);
    assert r[at..at + 8] == B.U64(v);
    B.U64RoundTrip(v);
  }

  /** A store into the slots leaves the stack alone. */
  lemma SlotsBelowStack(bytes: nat, mem: seq<B.Byte>, pushed: seq<Quad>, at: nat, b: seq<B.Byte>)
    requires |mem| == Top(bytes) && StackHolds(bytes, mem, pushed) && at + |b| <= bytes
    ensures at + |b| <= |mem| && StackHolds(bytes, Put(mem, at, b), pushed)
  {
    FloorAbove(bytes);
    forall k | 0 <= k < |pushed| ensures Holds'(bytes, Put(mem, at, b), k, pushed[k]) {
      assert Holds'(bytes, mem, k, pushed[k]);
      EntryRange(bytes, k);
      QuadElsewhere(mem, at, b, EntryAt(bytes, k));
    }
  }

  lemma StackPushed(bytes: nat, mem: seq<B.Byte>, pushed: seq<Quad>, v: Quad)
    requires |mem| == Top(bytes) && StackHolds(bytes, mem, pushed) && 16 * (|pushed| + 1) <= STACK_BYTES
    ensures 0 <= EntryAt(bytes, |pushed|) && EntryAt(bytes, |pushed|) + 8 <= |mem|
    ensures StackHolds(bytes, WriteQuad(mem, EntryAt(bytes, |pushed|), v), pushed + [v])
  {
    EntryRange(bytes, |pushed|);
    var at := EntryAt(bytes, |pushed|);
    var r := WriteQuad(mem, at, v);
    forall k | 0 <= k < |pushed| + 1 ensures Holds'(bytes, r, k, (pushed + [v])[k]) {
      EntryRange(bytes, k);
      if k < |pushed| {
        assert Holds'(bytes, mem, k, pushed[k]);
        QuadElsewhere(mem, at, B.U64(v), EntryAt(bytes, k));
      } else {
        QuadWritten(mem, at, v);
      }
    }
  }

  lemma StackPopped(bytes: nat, mem: seq<B.Byte>, pushed: seq<Quad>)
    requires |mem| == Top(bytes) && StackHolds(bytes, mem, pushed) && pushed != []
    ensures var n := |pushed| - 1;
            && StackHolds(bytes, mem, pushed[..n])
            && 0 <= EntryAt(bytes, n) && EntryAt(bytes, n) + 16 <= |mem|
            && ReadQuad(mem, EntryAt(bytes, n)) == pushed[n]
  {
    var n := |pushed| - 1;
    assert Holds'(bytes, mem, n, pushed[n]);
    EntryRange(bytes, n);
    forall k | 0 <= k < n ensures Holds'(bytes, mem, k, pushed[..n][k]) {
      assert Holds'(bytes, mem, k, pushed[k]);
    }
  }

  // ----- frame lemmas -----

  lemma FramedPush(p: seq<Cell>, pushed: seq<Quad>, calls: seq<Activation>, shape: Shape, e: Entry, v: Quad)
    requires Framed(p, pushed, calls, shape) && EntryOk'(e, v, calls)
    ensures Framed(p, pushed + [v], calls, shape + [e])
  {
    var below := |pushed| - |shape|;
    assert (pushed + [v])[below..] == pushed[below..] + [v] && (pushed + [v])[..below] == pushed[..below];
  }

  lemma FramedPop(p: seq<Cell>, pushed: seq<Quad>, calls: seq<Activation>, shape: Shape)
    requires Framed(p, pushed, calls, shape) && shape != []
    ensures pushed != [] && EntryOk'(shape[|shape| - 1], pushed[|pushed| - 1], calls)
    ensures Framed(p, pushed[..|pushed| - 1], calls, shape[..|shape| - 1])
  {
    var (below, n) := (|pushed| - |shape|, |pushed| - 1);
    var values := pushed[below..];
    assert EntryOk'(shape[|shape| - 1], values[|shape| - 1], calls);
    assert pushed[..n][below..] == values[..|shape| - 1] && pushed[..n][..below] == pushed[..below];
  }

  lemma FramedCall(p: seq<Cell>, pushed: seq<Quad>, calls: seq<Activation>, shape: Shape, resume: nat)
    requires Framed(p, pushed, calls, shape) && resume < |p| && p[resume].shape == shape && p[resume].fact == Plain
    ensures Framed(p, pushed, calls + [Activation(resume, |pushed|)], [])
  {
    var more := calls + [Activation(resume, |pushed|)];
    assert more[..|calls|] == calls && pushed[..|pushed|] == pushed;
  }

  lemma FramedReturn(p: seq<Cell>, pushed: seq<Quad>, calls: seq<Activation>)
    requires Framed(p, pushed, calls, []) && calls != []
    ensures var a := calls[|calls| - 1];
            |pushed| == a.height && a.resume < |p| && p[a.resume].fact == Plain &&
            Framed(p, pushed, calls[..|calls| - 1], p[a.resume].shape)
  {
    assert pushed[..|pushed|] == pushed;
  }

  // ----- entry lemmas -----

  lemma EntriesPush(p: seq<Cell>, calls: seq<Activation>, shape: Shape, e: Entry)
    ensures Entries(p, calls, shape + [e]) == Entries(p, calls, shape) + [e]
  {
  }

  lemma EntriesPop(p: seq<Cell>, calls: seq<Activation>, shape: Shape)
    requires shape != []
    ensures Entries(p, calls, shape) == Entries(p, calls, shape[..|shape| - 1]) + [shape[|shape| - 1]]
  {
    var n := |shape| - 1;
    assert shape == shape[..n] + [shape[n]];
    EntriesPush(p, calls, shape[..n], shape[n]);
  }

  lemma EntriesCall(p: seq<Cell>, calls: seq<Activation>, shape: Shape, a: Activation)
    requires a.resume < |p| && p[a.resume].shape == shape
    ensures Entries(p, calls + [a], []) == Entries(p, calls, shape)
  {
    assert (calls + [a])[..|calls|] == calls;
  }

  lemma WaitingPush(entries: Shape, values: seq<Quad>, e: Entry, v: Quad)
    requires |entries| == |values|
    ensures Waiting(entries + [e], values + [v]) == Waiting(entries, values) + if e.Below? then [v] else []
  {
    assert (entries + [e])[..|entries|] == entries && (values + [v])[..|values|] == values;
  }

  // ----- one step -----

  /** The instruction does not break the machine; it stops without a trace, or what it leaves satisfies
      the invariant. */
  predicate Keeps(p: seq<Cell>, bytes: nat, w: Watched)
    requires w.m.pc < |p|
  {
    var i := p[w.m.pc].instr;
    match Execute(i, Floor(bytes), w.m)
    case Broken => false
    case Off(_, m) => m == w.m
    case On(m) => Inv(p, bytes, Noted(i, w, m))
  }

  /** The indices waiting on the stack. */
  function WaitingNow(p: seq<Cell>, w: Watched): seq<nat>
    requires w.m.pc < |p| && |Entries(p, w.calls, p[w.m.pc].shape)| == |w.pushed|
  {
    Waiting(Entries(p, w.calls, p[w.m.pc].shape), w.pushed)
  }

  lemma InvParts(p: seq<Cell>, bytes: nat, w: Watched)
    requires Inv(p, bytes, w)
    ensures w.m.pc < |p| && |w.m.mem| == Top(bytes) && StackHolds(bytes, w.m.mem, w.pushed)
    ensures w.m.sp == Top(bytes) - 16 * |w.pushed| && Framed(p, w.pushed, w.calls, p[w.m.pc].shape)
    ensures |Entries(p, w.calls, p[w.m.pc].shape)| == |w.pushed|
    ensures FactOk(p[w.m.pc].fact, w.m, w.calls, WaitingNow(p, w), w.open)
  {
    hide Framed, Entries, Waiting, StackHolds, Top, FactOk;
  }

  /** Arriving somewhere with the stack and the calls as they were. */
  lemma Arrives(p: seq<Cell>, bytes: nat, w: Watched, m: Machine, open: seq<nat>)
    requires Inv(p, bytes, w) && m.pc < |p| && p[m.pc].shape == p[w.m.pc].shape
    requires |Entries(p, w.calls, p[w.m.pc].shape)| == |w.pushed|
             && FactOk(p[m.pc].fact, m, w.calls, WaitingNow(p, w), open)
    requires m.sp == w.m.sp && |m.mem| == Top(bytes) && StackHolds(bytes, m.mem, w.pushed)
    ensures Inv(p, bytes, Watched(m, w.pushed, w.calls, open))
  {
    hide StackHolds, Framed, Entries, Waiting, FactOk, Top;
  }

  lemma StraightRuns(i: Instr, floor: nat, m: Machine)
    requires Straight(i)
    ensures match Execute(i, floor, m)
            case Broken => false
            case Off(_, k) => k == m
            case On(k) => k.pc == m.pc + 1 && k.sp == m.sp && k.mem == m.mem && (Writes(i) ==> k.x0 < TWO_32)
  {
    hide A64, Compared;
  }

  lemma StraightKeeps(p: seq<Cell>, bytes: nat, region: Region, w: Watched)
    requires Inv(p, bytes, w) && OkAt(p, region, w.m.pc) && Straight(p[w.m.pc].instr)
    ensures Keeps(p, bytes, w)
  {
    InvParts(p, bytes, w);
    var i := p[w.m.pc].instr;
    assert p[w.m.pc].fact == Plain && Ends(p, w.m.pc + 1, p[w.m.pc].shape, Writes(i));
    hide StackHolds, Framed, Inv, Execute, Top, Floor, Entries, Waiting, OkAt, Writes;
    StraightRuns(i, Floor(bytes), w.m);
    var r := Execute(i, Floor(bytes), w.m);
    if r.On? {
      Arrives(p, bytes, w, r.m, w.open);
    }
  }

  predicate Branches(i: Instr)
  {
    i.BranchZero? || i.BranchNonzero? || i.Branch?
  }

  lemma BranchRuns(p: seq<Cell>, region: Region, floor: nat, m: Machine)
    requires m.pc < |p| && OkAt(p, region, m.pc) && Branches(p[m.pc].instr)
    ensures var r := Execute(p[m.pc].instr, floor, m);
            && r.On? && r.m == m.(pc := r.m.pc) && r.m.pc < |p| && p[r.m.pc].shape == p[m.pc].shape
            && (p[m.pc].fact == Plain || p[m.pc].fact == Word0)
            && (p[r.m.pc].fact == Plain || p[r.m.pc].fact == p[m.pc].fact)
  {
  }

  lemma BranchKeeps(p: seq<Cell>, bytes: nat, region: Region, w: Watched)
    requires Inv(p, bytes, w) && OkAt(p, region, w.m.pc) && Branches(p[w.m.pc].instr)
    ensures Keeps(p, bytes, w)
  {
    hide StackHolds, Framed, Execute, Top, Floor, Entries, Waiting, OkAt;
    InvParts(p, bytes, w);
    BranchRuns(p, region, Floor(bytes), w.m);
    Arrives(p, bytes, w, Execute(p[w.m.pc].instr, Floor(bytes), w.m).m, w.open);
  }

  lemma SlotKeeps(p: seq<Cell>, bytes: nat, region: Region, w: Watched)
    requires Inv(p, bytes, w) && OkAt(p, region, w.m.pc) && region.size == bytes
    requires var i := p[w.m.pc].instr; i.LoadSlot? || i.StoreSlot?
    ensures Keeps(p, bytes, w)
  {
    InvParts(p, bytes, w);
    FloorAbove(bytes);
    var i := p[w.m.pc].instr;
    hide StackHolds, Framed, Inv, Entries, Waiting;
    assert SlotIn(i.slot, region);
    var r := Execute(i, Floor(bytes), w.m);
    if i.StoreSlot? {
      SlotsBelowStack(bytes, w.m.mem, w.pushed, i.slot.at, B.Le(W(Get(w.m, i.r)), Width(i.slot.kind)));
    }
    Arrives(p, bytes, w, r.m, w.open);
  }

  lemma CheckKeeps(p: seq<Cell>, bytes: nat, region: Region, w: Watched)
    requires Inv(p, bytes, w) && OkAt(p, region, w.m.pc) && p[w.m.pc].instr.CheckIndex?
    ensures Keeps(p, bytes, w)
  {
    InvParts(p, bytes, w);
    var i := p[w.m.pc].instr;
    hide StackHolds, Framed, Inv, Top, Floor, Entries, Waiting;
    var r := Execute(i, Floor(bytes), w.m);
    if r.On? {
      Arrives(p, bytes, w, r.m, w.open + [W(w.m.x0)]);
    }
  }

  /** An address computed from a checked index is the address of that element. */
  lemma AddressKeeps(p: seq<Cell>, bytes: nat, region: Region, w: Watched)
    requires Inv(p, bytes, w) && OkAt(p, region, w.m.pc) && p[w.m.pc].instr.Address?
    ensures Keeps(p, bytes, w)
  {
    InvParts(p, bytes, w);
    var (i, fact) := (p[w.m.pc].instr, p[w.m.pc].fact);
    hide StackHolds, Framed, Inv, Top, Floor, VectorIn, Entries, Waiting;
    var r := Execute(i, Floor(bytes), w.m);
    Arrives(p, bytes, w, r.m, w.open);
  }

  /** An indexed access stays inside the element it was computed for. */
  lemma IndexedKeeps(p: seq<Cell>, bytes: nat, region: Region, w: Watched)
    requires Inv(p, bytes, w) && OkAt(p, region, w.m.pc) && region.size == bytes
    requires var i := p[w.m.pc].instr; i.LoadIndexed? || i.StoreIndexed?
    ensures Keeps(p, bytes, w)
  {
    InvParts(p, bytes, w);
    FloorAbove(bytes);
    var (i, fact) := (p[w.m.pc].instr, p[w.m.pc].fact);
    ElementIn(fact.vector, region, w.open[|w.open| - 1]);
    hide StackHolds, Framed, Inv, VectorIn, Entries, Waiting;
    var r := Execute(i, Floor(bytes), w.m);
    if i.StoreIndexed? {
      SlotsBelowStack(bytes, w.m.mem, w.pushed, w.m.x2, B.Le(W(w.m.x0), Width(i.kind)));
    }
    Arrives(p, bytes, w, r.m, Noted(i, w, r.m).open);
  }

  // ----- the stack instructions -----

  /** What is pushed, and what is known afterwards. */
  function PushedEntry(r: Register, fact: Fact): Entry
  {
    match r
    case X0 => if fact.Index0? then Below(fact.n) else Value
    case X3 => if fact.Index3? then Below(fact.n) else Value
    case _ => Link
  }

  lemma PushFacts(p: seq<Cell>, region: Region, w: Watched, waiting: seq<nat>)
    requires w.m.pc < |p| && OkAt(p, region, w.m.pc) && p[w.m.pc].instr.Push?
    requires FactOk(p[w.m.pc].fact, w.m, w.calls, waiting, w.open)
    ensures var Cell(i, shape, fact) := p[w.m.pc];
            var (e, v) := (PushedEntry(i.r, fact), Get(w.m, i.r));
            && w.m.pc + 1 < |p| && p[w.m.pc + 1].shape == shape + [e] && EntryOk'(e, v, w.calls)
            && FactOk(p[w.m.pc + 1].fact, w.m, w.calls, waiting + if e.Below? then [v] else [], w.open)
  {
    var Cell(i, shape, fact) := p[w.m.pc];
    assert PushOk(p, w.m.pc, i.r, shape, fact);
    hide OkAt;
  }

  /** Facts are about registers other than the program counter, the stack pointer and memory. */
  lemma FactMoves(f: Fact, m: Machine, n: Machine, calls: seq<Activation>, waiting: seq<nat>, open: seq<nat>)
    requires FactOk(f, m, calls, waiting, open) && n == m.(pc := n.pc, sp := n.sp, mem := n.mem)
    ensures FactOk(f, n, calls, waiting, open)
  {
  }

  lemma PushAgrees(p: seq<Cell>, bytes: nat, region: Region, w: Watched, m: Machine)
    requires Inv(p, bytes, w) && OkAt(p, region, w.m.pc) && p[w.m.pc].instr.Push?
    requires m.pc == w.m.pc + 1 && m == w.m.(pc := m.pc, sp := m.sp, mem := m.mem)
    ensures m.pc < |p| && Agreed(p, Watched(m, w.pushed + [Get(w.m, p[w.m.pc].instr.r)], w.calls, w.open))
  {
    hide StackHolds, Top, Floor, Framed, Entries, Waiting, OkAt, EntryOk', FactOk, PushedEntry, Get;
    InvParts(p, bytes, w);
    var Cell(i, shape, fact) := p[w.m.pc];
    var (e, v, entries) := (PushedEntry(i.r, fact), Get(w.m, i.r), Entries(p, w.calls, shape));
    PushFacts(p, region, w, Waiting(entries, w.pushed));
    FramedPush(p, w.pushed, w.calls, shape, e, v);
    EntriesPush(p, w.calls, shape, e);
    WaitingPush(entries, w.pushed, e, v);
    FactMoves(p[m.pc].fact, w.m, m, w.calls, Waiting(entries + [e], w.pushed + [v]), w.open);
  }

  /** A push either traps, changing nothing, or adds its value to the stack. */
  lemma PushWrites(p: seq<Cell>, bytes: nat, w: Watched)
    requires Inv(p, bytes, w) && w.m.pc < |p| && p[w.m.pc].instr.Push?
    ensures var r := Pushed(w.m, Floor(bytes), p[w.m.pc].instr.r);
            && !r.Broken?
            && (r.Off? ==> r.m == w.m)
            && (r.On? ==>
                  && r.m.pc == w.m.pc + 1 && r.m == w.m.(pc := r.m.pc, sp := r.m.sp, mem := r.m.mem)
                  && |r.m.mem| == Top(bytes) && r.m.sp == Top(bytes) - 16 * (|w.pushed| + 1)
                  && StackHolds(bytes, r.m.mem, w.pushed + [Get(w.m, p[w.m.pc].instr.r)]))
  {
    InvParts(p, bytes, w);
    hide StackHolds, Framed, Entries, Waiting, Agreed, WriteQuad, FactOk, OkAt, Get;
    if w.m.sp > Floor(bytes) {
      StackPushed(bytes, w.m.mem, w.pushed, Get(w.m, p[w.m.pc].instr.r));
      assert EntryAt(bytes, |w.pushed|) == w.m.sp - 16;
    }
  }

  lemma PushKeeps(p: seq<Cell>, bytes: nat, region: Region, w: Watched)
    requires Inv(p, bytes, w) && OkAt(p, region, w.m.pc) && p[w.m.pc].instr.Push?
    ensures Keeps(p, bytes, w)
  {
    hide StackHolds, Framed, Entries, Waiting, Agreed, FactOk, OkAt, Get, Top, Floor, Pushed;
    PushWrites(p, bytes, w);
    var r := Pushed(w.m, Floor(bytes), p[w.m.pc].instr.r);
    if r.On? {
      PushAgrees(p, bytes, region, w, r.m);
    }
  }

  lemma PopFacts(p: seq<Cell>, region: Region, w: Watched, m: Machine, v: Quad, waiting: seq<nat>)
    requires w.m.pc < |p| && OkAt(p, region, w.m.pc) && p[w.m.pc].instr.Pop? && p[w.m.pc].shape != []
    requires var e := p[w.m.pc].shape[|p[w.m.pc].shape| - 1];
             EntryOk'(e, v, w.calls) && FactOk(p[w.m.pc].fact, w.m, w.calls, waiting + if e.Below? then [v] else [],
                                               w.open)
    requires m == Set(w.m, p[w.m.pc].instr.r, v).(pc := w.m.pc + 1, sp := m.sp)
    ensures m.pc < |p| && p[m.pc].shape == p[w.m.pc].shape[..|p[w.m.pc].shape| - 1]
    ensures FactOk(p[m.pc].fact, m, w.calls, waiting, w.open)
  {
    var Cell(i, shape, fact) := p[w.m.pc];
    assert PopOk(p, w.m.pc, i.r, shape) && fact == Plain;
    hide OkAt;
    assert (waiting + [v])[..|waiting|] == waiting;
  }

  lemma PopAgrees(p: seq<Cell>, bytes: nat, region: Region, w: Watched, m: Machine)
    requires Inv(p, bytes, w) && OkAt(p, region, w.m.pc) && p[w.m.pc].instr.Pop? && p[w.m.pc].shape != []
             && w.pushed != []
    requires m == Set(w.m, p[w.m.pc].instr.r, w.pushed[|w.pushed| - 1]).(pc := w.m.pc + 1, sp := m.sp)
    ensures m.pc < |p| && Agreed(p, Watched(m, w.pushed[..|w.pushed| - 1], w.calls, w.open))
  {
    hide StackHolds, Top, Floor, Framed, Entries, Waiting, OkAt, EntryOk', FactOk, Set;
    InvParts(p, bytes, w);
    var shape := p[w.m.pc].shape;
    var (n, k) := (|w.pushed| - 1, |shape| - 1);
    FramedPop(p, w.pushed, w.calls, shape);
    EntriesPop(p, w.calls, shape);
    var entries := Entries(p, w.calls, shape[..k]);
    assert |entries| == n;
    WaitingPush(entries, w.pushed[..n], shape[k], w.pushed[n]);
    assert w.pushed == w.pushed[..n] + [w.pushed[n]];
    PopFacts(p, region, w, m, w.pushed[n], Waiting(entries, w.pushed[..n]));
  }

  lemma PopShape(p: seq<Cell>, region: Region, i: nat)
    requires i < |p| && OkAt(p, region, i) && p[i].instr.Pop?
    ensures p[i].shape != []
  {
  }

  lemma TopEntry(bytes: nat, mem: seq<B.Byte>, pushed: seq<Quad>, sp: int)
    requires |mem| == Top(bytes) && StackHolds(bytes, mem, pushed) && pushed != [] && sp == Top(bytes) - 16 * |pushed|
    ensures 0 <= sp && sp + 16 <= |mem| && ReadQuad(mem, sp) == pushed[|pushed| - 1]
            && StackHolds(bytes, mem, pushed[..|pushed| - 1])
  {
    hide StackHolds, ReadQuad, Top;
    StackPopped(bytes, mem, pushed);
    assert EntryAt(bytes, |pushed| - 1) == sp;
  }

  /** There is something to pop, and memory holds what the matching push wrote. */
  lemma PopReads(p: seq<Cell>, bytes: nat, region: Region, w: Watched)
    requires Inv(p, bytes, w) && OkAt(p, region, w.m.pc) && p[w.m.pc].instr.Pop?
    ensures w.pushed != [] && p[w.m.pc].shape != [] && 0 <= w.m.sp && w.m.sp + 16 <= |w.m.mem|
    ensures ReadQuad(w.m.mem, w.m.sp) == w.pushed[|w.pushed| - 1]
    ensures StackHolds(bytes, w.m.mem, w.pushed[..|w.pushed| - 1])
  {
    hide OkAt, Framed, StackHolds, Entries, Waiting, FactOk, Top, ReadQuad;
    InvParts(p, bytes, w);
    PopShape(p, region, w.m.pc);
    FramedPop(p, w.pushed, w.calls, p[w.m.pc].shape);
    TopEntry(bytes, w.m.mem, w.pushed, w.m.sp);
  }

  lemma PopKeeps(p: seq<Cell>, bytes: nat, region: Region, w: Watched)
    requires Inv(p, bytes, w) && OkAt(p, region, w.m.pc) && p[w.m.pc].instr.Pop?
    ensures Keeps(p, bytes, w)
  {
    hide StackHolds, Framed, Entries, Waiting, Agreed, ReadQuad, FactOk, OkAt, Top, Floor;
    PopReads(p, bytes, region, w);
    var r := Popped(w.m, p[w.m.pc].instr.r);
    PopAgrees(p, bytes, region, w, r.m);
  }

  lemma CallFacts(p: seq<Cell>, region: Region, w: Watched, m: Machine, waiting: seq<nat>)
    requires w.m.pc < |p| && OkAt(p, region, w.m.pc) && p[w.m.pc].instr.Call?
    requires FactOk(p[w.m.pc].fact, w.m, w.calls, waiting, w.open) && m == w.m.(pc := p[w.m.pc].instr.to, x30 := m.x30)
             && m.x30 == w.m.pc + 1
    ensures m.pc < |p| && p[m.pc].shape == [] && w.m.pc + 1 < |p| && Goes(p, w.m.pc + 1, p[w.m.pc].shape, Plain)
    ensures FactOk(p[m.pc].fact, m, w.calls + [Activation(w.m.pc + 1, |w.pushed|)], waiting, w.open)
  {
  }

  lemma CallAgrees(p: seq<Cell>, bytes: nat, region: Region, w: Watched, m: Machine)
    requires Inv(p, bytes, w) && OkAt(p, region, w.m.pc) && p[w.m.pc].instr.Call?
    requires m == w.m.(pc := p[w.m.pc].instr.to, x30 := m.x30) && m.x30 == w.m.pc + 1
    ensures m.pc < |p| && Agreed(p, Watched(m, w.pushed, w.calls + [Activation(w.m.pc + 1, |w.pushed|)], w.open))
  {
    hide StackHolds, Top, Floor, Framed, Entries, Waiting, OkAt, FactOk;
    InvParts(p, bytes, w);
    var shape := p[w.m.pc].shape;
    CallFacts(p, region, w, m, WaitingNow(p, w));
    FramedCall(p, w.pushed, w.calls, shape, w.m.pc + 1);
    EntriesCall(p, w.calls, shape, Activation(w.m.pc + 1, |w.pushed|));
  }

  lemma CallKeeps(p: seq<Cell>, bytes: nat, region: Region, w: Watched)
    requires Inv(p, bytes, w) && OkAt(p, region, w.m.pc) && p[w.m.pc].instr.Call? && |p| <= MAX_INSTRUCTIONS
    ensures Keeps(p, bytes, w)
  {
    hide StackHolds, Agreed, OkAt, Top, Floor;
    CallAgrees(p, bytes, region, w, w.m.(pc := p[w.m.pc].instr.to, x30 := w.m.pc + 1));
  }

  lemma ReturnShape(p: seq<Cell>, region: Region, i: nat)
    requires i < |p| && OkAt(p, region, i) && p[i].instr.Ret?
    ensures p[i].shape == [] && p[i].fact == Linked
  {
  }

  /** A return goes to where the innermost call resumes, with the stack as it was at that call. */
  lemma ReturnMatches(p: seq<Cell>, bytes: nat, region: Region, w: Watched)
    requires Inv(p, bytes, w) && OkAt(p, region, w.m.pc) && p[w.m.pc].instr.Ret?
    ensures w.calls != [] && w.m.x30 == w.calls[|w.calls| - 1].resume && |w.pushed| == w.calls[|w.calls| - 1].height
    ensures p[w.m.pc].shape == [] && p[w.m.pc].fact == Linked
  {
    hide StackHolds, Framed, Entries, Waiting, Top, OkAt;
    InvParts(p, bytes, w);
    ReturnShape(p, region, w.m.pc);
    FramedReturn(p, w.pushed, w.calls);
  }

  lemma ReturnAgrees(p: seq<Cell>, bytes: nat, region: Region, w: Watched, m: Machine)
    requires Inv(p, bytes, w) && OkAt(p, region, w.m.pc) && p[w.m.pc].instr.Ret? && w.calls != []
             && m == w.m.(pc := w.m.x30)
    ensures m.pc < |p| && Agreed(p, Watched(m, w.pushed, w.calls[..|w.calls| - 1], w.open))
  {
    hide StackHolds, Framed, Entries, Waiting, Top, Floor, OkAt;
    InvParts(p, bytes, w);
    ReturnMatches(p, bytes, region, w);
    var n := |w.calls| - 1;
    FramedReturn(p, w.pushed, w.calls);
    assert w.calls == w.calls[..n] + [w.calls[n]];
    EntriesCall(p, w.calls[..n], p[w.calls[n].resume].shape, w.calls[n]);
  }

  lemma ReturnKeeps(p: seq<Cell>, bytes: nat, region: Region, w: Watched)
    requires Inv(p, bytes, w) && OkAt(p, region, w.m.pc) && p[w.m.pc].instr.Ret?
    ensures Keeps(p, bytes, w)
  {
    hide StackHolds, Agreed, OkAt, Top, Floor;
    ReturnMatches(p, bytes, region, w);
    ReturnAgrees(p, bytes, region, w, w.m.(pc := w.m.x30));
  }

  lemma StopKeeps(p: seq<Cell>, bytes: nat, w: Watched)
    requires Inv(p, bytes, w) && (p[w.m.pc].instr.Halt? || p[w.m.pc].instr.Fault?)
    ensures Keeps(p, bytes, w)
  {
  }

  /** Every instruction keeps the invariant. */
  lemma StepKeeps(p: seq<Cell>, bytes: nat, region: Region, w: Watched)
    requires Inv(p, bytes, w) && OkAt(p, region, w.m.pc) && region.size == bytes && |p| <= MAX_INSTRUCTIONS
    ensures Keeps(p, bytes, w)
  {
    var i := p[w.m.pc].instr;
    hide Inv, OkAt, Keeps, Straight;
    assert i.BranchZero? || i.BranchNonzero? || i.Branch? ==> Branches(i);
    match i
    case LoadSlot(_, _) => SlotKeeps(p, bytes, region, w);
    case StoreSlot(_, _) => SlotKeeps(p, bytes, region, w);
    case BranchZero(_) => BranchKeeps(p, bytes, region, w);
    case BranchNonzero(_) => BranchKeeps(p, bytes, region, w);
    case Branch(_) => BranchKeeps(p, bytes, region, w);
    case CheckIndex(_) => CheckKeeps(p, bytes, region, w);
    case Address(_, _) => AddressKeeps(p, bytes, region, w);
    case LoadIndexed(_, _) => IndexedKeeps(p, bytes, region, w);
    case StoreIndexed(_) => IndexedKeeps(p, bytes, region, w);
    case Push(_) => PushKeeps(p, bytes, region, w);
    case Pop(_) => PopKeeps(p, bytes, region, w);
    case Call(_) => CallKeeps(p, bytes, region, w);
    case Ret => ReturnKeeps(p, bytes, region, w);
    case Halt => StopKeeps(p, bytes, w);
    case Fault => StopKeeps(p, bytes, w);
    case _ => assert Straight(i) by { OthersStraight(i); } StraightKeeps(p, bytes, region, w);
  }

  lemma OthersStraight(i: Instr)
    requires i.Imm? || i.Invert? || i.NegateW? || i.Arith? || i.Test? || i.Keep? || i.Recall? || i.Print?
    ensures Straight(i)
  {
  }

  // ----- whole runs -----

  function Instructions(p: seq<Cell>): (code: Code)
    ensures |code| == |p| && forall i :: 0 <= i < |p| ==> code[i] == p[i].instr
  {
    seq(|p|, i requires 0 <= i < |p| => p[i].instr)
  }

  datatype Sight = Gone | Seen(w: Watched)

  /** What the observer has noted after `n` steps; nothing once the machine has stopped. */
  function Watch(p: seq<Cell>, floor: nat, w: Watched, n: nat): Sight
  {
    if n == 0 then Seen(w)
    else match Watch(p, floor, w, n - 1)
         case Gone => Gone
         case Seen(k) => Look(p, floor, k)
  }

  function Look(p: seq<Cell>, floor: nat, w: Watched): Sight
  {
    if w.m.pc >= |p| then Gone
    else match Execute(p[w.m.pc].instr, floor, w.m)
         case On(m) => Seen(Noted(p[w.m.pc].instr, w, m))
         case _ => Gone
  }

  /** The observer only watches. */
  lemma {:induction false} WatchFollows(p: seq<Cell>, floor: nat, w: Watched, n: nat)
    ensures Run(Instructions(p), floor, w.m, n).On? <==> Watch(p, floor, w, n).Seen?
    ensures Watch(p, floor, w, n).Seen? ==> Watch(p, floor, w, n).w.m == Run(Instructions(p), floor, w.m, n).m
    decreases n
  {
    hide Execute;
    if n > 0 {
      WatchFollows(p, floor, w, n - 1);
    }
  }

  // ----- where noted things come from -----

  datatype List = Pushes | Calls | Indices

  function Length(l: List, w: Watched): nat
  {
    match l
    case Pushes => |w.pushed|
    case Calls => |w.calls|
    case Indices => |w.open|
  }

  function Item(l: List, w: Watched, e: nat): (int, int)
    requires e < Length(l, w)
  {
    match l
    case Pushes => (w.pushed[e], 0)
    case Calls => (w.calls[e].resume, w.calls[e].height)
    case Indices => (w.open[e], 0)
  }

  /** The instruction adds to the list. */
  predicate Adds(l: List, i: Instr)
  {
    match l
    case Pushes => i.Push?
    case Calls => i.Call?
    case Indices => i.CheckIndex?
  }

  function Added(l: List, i: Instr, w: Watched): (int, int)
    requires Adds(l, i)
  {
    match l
    case Pushes => (Get(w.m, i.r), 0)
    case Calls => (w.m.pc + 1, |w.pushed|)
    case Indices => (W(w.m.x0), 0)
  }

  /** The next instruction adds the item as number `e`. */
  predicate AddsItem(p: seq<Cell>, w: Watched, l: List, e: nat, item: (int, int))
  {
    w.m.pc < |p| && Adds(l, p[w.m.pc].instr) && Length(l, w) == e && Added(l, p[w.m.pc].instr, w) == item
  }

  /** Step `k` added item `e`, and it has been there ever since. */
  predicate Origin(p: seq<Cell>, floor: nat, w: Watched, n: nat, l: List, e: nat, item: (int, int), k: nat)
  {
    && k < n && Watch(p, floor, w, k).Seen? && AddsItem(p, Watch(p, floor, w, k).w, l, e, item)
    && forall j :: k < j <= n ==> Watch(p, floor, w, j).Seen? && e < Length(l, Watch(p, floor, w, j).w)
  }

  lemma NotedKeeps(l: List, i: Instr, w: Watched, m: Machine, e: nat)
    requires e < Length(l, Noted(i, w, m))
    ensures Adds(l, i) && e == Length(l, w) ==> Item(l, Noted(i, w, m), e) == Added(l, i, w)
    ensures !(Adds(l, i) && e == Length(l, w)) ==> e < Length(l, w) && Item(l, Noted(i, w, m), e) == Item(l, w, e)
  {
  }

  /** Everything on a list was put there by one step and nothing below it was removed since: the last
      item is the one of the latest step that added and has no counterpart yet. */
  lemma {:induction false} ItemOrigin(p: seq<Cell>, floor: nat, w: Watched, n: nat, l: List, e: nat) returns (k: nat)
    requires Length(l, w) == 0 && Watch(p, floor, w, n).Seen? && e < Length(l, Watch(p, floor, w, n).w)
    ensures Origin(p, floor, w, n, l, e, Item(l, Watch(p, floor, w, n).w, e), k)
    decreases n
  {
    hide Noted, Execute, Item, Added, Adds, Length;
    var before := Watch(p, floor, w, n - 1).w;
    var i := p[before.m.pc].instr;
    NotedKeeps(l, i, before, Execute(i, floor, before.m).m, e);
    if Adds(l, i) && e == Length(l, before) {
      k := n - 1;
    } else {
      k := ItemOrigin(p, floor, w, n - 1, l, e);
    }
  }
}
