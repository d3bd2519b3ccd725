/** Every instruction of a compiled program finds the stack and registers its annotation names. */
module A64Typing {
  import opened Kinds
  import opened CheckedArithmetic
  import opened A64Machine
  import opened A64Code

  /** The slot storage: how many bytes it has, and every place in it. */
  datatype Region = Region(size: nat, places: set<Place>)

  predicate SlotIn(s: Slot, region: Region)
  {
    s.at + Width(s.kind) <= region.size
  }

  predicate VectorIn(v: Vector, region: Region)
  {
    v.at + v.length * Width(v.element) <= region.size && Many(v) in region.places
  }

  predicate PlaceIn(p: Place, region: Region)
  {
    match p
    case One(s) => SlotIn(s, region)
    case Many(v) => VectorIn(v, region)
  }

  predicate PlacesIn(places: seq<Place>, region: Region)
  {
    forall i :: 0 <= i < |places| ==> PlaceIn(places[i], region)
  }

  // ----- the local rules -----

  /** Control may arrive at `to` with this stack and this fact. */
  predicate Goes(p: seq<Cell>, to: nat, shape: Shape, fact: Fact)
  {
    to < |p| && p[to].shape == shape && p[to].fact == fact
  }

  /** Control may arrive at `to`, where at most a word in x0 is expected, and that only if there is one. */
  predicate Ends(p: seq<Cell>, to: nat, shape: Shape, valued: bool)
  {
    to < |p| && p[to].shape == shape && (p[to].fact == Plain || (valued && p[to].fact == Word0))
  }

  /** Instructions that leave a 32-bit word in x0. */
  predicate Writes(i: Instr)
  {
    i.Imm? || i.Invert? || i.NegateW? || i.Arith? || i.Test? || i.Recall?
  }

  /** A checked index is pushed as such; any other word is a value. */
  predicate PushOk(p: seq<Cell>, i: nat, r: Register, shape: Shape, fact: Fact)
  {
    match r
    case X0 =>
      || (fact == Plain && Goes(p, i + 1, shape + [Value], Plain))
      || (fact.Index0? && Goes(p, i + 1, shape + [Below(fact.n)], Plain))
    case X3 => fact.Index3? && !fact.kept && Goes(p, i + 1, shape + [Below(fact.n)], Index3(fact.n, true))
    case X30 => fact == Linked && shape == [] && Goes(p, i + 1, [Link], Plain)
    case X1 => false
  }

  predicate PopOk(p: seq<Cell>, i: nat, r: Register, shape: Shape)
  {
    shape != [] &&
    var (rest, top) := (shape[..|shape| - 1], shape[|shape| - 1]);
    match r
    case X0 => top == Value && Goes(p, i + 1, rest, Plain)
    case X1 => top == Value && Goes(p, i + 1, rest, Plain)
    case X3 => top.Below? && Goes(p, i + 1, rest, Index3(top.n, false))
    case X30 => shape == [Link] && Goes(p, i + 1, [], Linked)
  }

  /** An address comes from the index checked last: still in x0, or back in x3. */
  predicate AddressOk(p: seq<Cell>, i: nat, v: Vector, r: Register, shape: Shape, fact: Fact)
  {
    match r
    case X0 => fact == Index0(v.length) && Goes(p, i + 1, shape, Pointing(v, false))
    case X3 => fact.Index3? && fact.n == v.length && Goes(p, i + 1, shape, Pointing(v, fact.kept))
    case _ => false
  }

  /** The address in x2 was formed by the instruction before. */
  predicate Addressed(p: seq<Cell>, i: nat)
    requires i < |p|
  {
    i > 0 && p[i - 1].instr.Address? && p[i].fact.Pointing? && p[i].fact.vector == p[i - 1].instr.vector
  }

  predicate OkAt(p: seq<Cell>, region: Region, i: nat)
    requires i < |p|
  {
    var Cell(instr, shape, fact) := p[i];
    match instr
    case LoadSlot(s, r) => fact == Plain && SlotIn(s, region) && (r == X0 || r == X1) && Ends(p, i + 1, shape, r == X0)
    case StoreSlot(s, _) => fact == Plain && SlotIn(s, region) && Goes(p, i + 1, shape, Plain)
    case BranchZero(to) => fact == Plain && Goes(p, to, shape, Plain) && Goes(p, i + 1, shape, Plain)
    case BranchNonzero(to) => fact == Plain && Goes(p, to, shape, Plain) && Goes(p, i + 1, shape, Plain)
    case Branch(to) => (fact == Plain || fact == Word0) && Ends(p, to, shape, fact == Word0)
    case CheckIndex(n) => fact == Word0 && Goes(p, i + 1, shape, Index0(n))
    case Address(v, r) => VectorIn(v, region) && AddressOk(p, i, v, r, shape, fact)
    case LoadIndexed(k, r) =>
      && Addressed(p, i) && fact.Pointing? && fact.vector.element == k && VectorIn(fact.vector, region)
      && Ends(p, i + 1, shape, r == X0)
      && ((r == X0 && !fact.kept) || (r == X1 && fact.kept))
    case StoreIndexed(k) =>
      Addressed(p, i) && fact.Pointing? && !fact.kept && fact.vector.element == k && VectorIn(fact.vector, region)
          && Goes(p, i + 1, shape, Plain)
    case Push(r) => PushOk(p, i, r, shape, fact)
    case Pop(r) => fact == Plain && PopOk(p, i, r, shape)
    case Call(to) => fact == Plain && Goes(p, to, [], Linked) && Goes(p, i + 1, shape, Plain)
    case Ret => shape == [] && fact == Linked
    case Halt => true
    case Fault => true
    case _ => fact == Plain && Ends(p, i + 1, shape, Writes(instr))
  }

  predicate Typed(p: seq<Cell>, region: Region, from: nat, to: nat)
  {
    to <= |p| && forall i :: from <= i < to ==> OkAt(p, region, i)
  }

  predicate Starts(p: seq<Cell>, at: nat, shape: Shape)
  {
    at < |p| && p[at].shape == shape && p[at].fact == Plain
  }

  predicate Located(p: seq<Cell>, at: nat, part: seq<Cell>)
  {
    at + |part| <= |p| && p[at..at + |part|] == part
  }

  lemma LocatedSplit(p: seq<Cell>, at: nat, x: seq<Cell>, y: seq<Cell>)
    requires Located(p, at, x + y)
    ensures Located(p, at, x) && Located(p, at + |x|, y)
  {
    assert p[at..at + |x|] == p[at..at + |x + y|][..|x|];
    assert p[at + |x|..at + |x| + |y|] == p[at..at + |x + y|][|x|..];
  }

  lemma LocatedOne(p: seq<Cell>, at: nat, c: Cell)
    requires Located(p, at, [c])
    ensures at < |p| && p[at] == c
  {
    assert p[at] == p[at..at + 1][0];
  }

  lemma TypedSplit(p: seq<Cell>, region: Region, from: nat, middle: nat, to: nat)
    requires Typed(p, region, from, middle) && Typed(p, region, middle, to) && from <= middle <= to
    ensures Typed(p, region, from, to)
  {
    hide OkAt;
  }

  /** An instruction that leaves stack and facts alone. */
  predicate Straight(i: Instr)
  {
    i.Imm? || i.Invert? || i.NegateW? || i.Arith? || i.Test? || i.Keep? || i.Recall? || i.Print?
  }

  lemma TypedStraight(p: seq<Cell>, region: Region, at: nat, i: Instr, shape: Shape)
    requires Located(p, at, [Plainly(i, shape)]) && Straight(i) && Ends(p, at + 1, shape, Writes(i))
    ensures Typed(p, region, at, at + 1) && Starts(p, at, shape)
  {
    LocatedOne(p, at, Plainly(i, shape));
    hide Located;
  }

  lemma TypedSlot(p: seq<Cell>, region: Region, at: nat, s: Slot, r: Register, load: bool, shape: Shape)
    requires Located(p, at, [Plainly(if load then LoadSlot(s, r) else StoreSlot(s, r), shape)])
             && Ends(p, at + 1, shape, load && r == X0)
    requires SlotIn(s, region) && (r == X0 || r == X1)
    ensures Typed(p, region, at, at + 1) && Starts(p, at, shape)
  {
    LocatedOne(p, at, Plainly(if load then LoadSlot(s, r) else StoreSlot(s, r), shape));
    hide Located;
  }

  lemma TypedPush(p: seq<Cell>, region: Region, at: nat, shape: Shape)
    requires Located(p, at, [Plainly(Push(X0), shape)]) && Starts(p, at + 1, shape + [Value])
    ensures Typed(p, region, at, at + 1) && Starts(p, at, shape)
  {
    LocatedOne(p, at, Plainly(Push(X0), shape));
    hide Located;
  }

  lemma TypedPop(p: seq<Cell>, region: Region, at: nat, r: Register, shape: Shape)
    requires Located(p, at, [Plainly(Pop(r), shape + [Value])]) && Starts(p, at + 1, shape) && (r == X0 || r == X1)
    ensures Typed(p, region, at, at + 1) && Starts(p, at, shape + [Value])
  {
    LocatedOne(p, at, Plainly(Pop(r), shape + [Value]));
    hide Located;
    assert (shape + [Value])[..|shape + [Value]| - 1] == shape;
  }

  lemma TypedBranch(p: seq<Cell>, region: Region, at: nat, i: Instr, shape: Shape)
    requires Located(p, at, [Plainly(i, shape)]) && (i.BranchZero? || i.BranchNonzero? || i.Branch?)
             && Starts(p, i.to, shape)
    requires i.Branch? || Starts(p, at + 1, shape)
    ensures Typed(p, region, at, at + 1) && Starts(p, at, shape)
  {
    LocatedOne(p, at, Plainly(i, shape));
    hide Located;
  }

  lemma TypedWordBranch(p: seq<Cell>, region: Region, at: nat, to: nat, shape: Shape)
    requires Located(p, at, [Cell(Branch(to), shape, Word0)]) && Ends(p, to, shape, true)
    ensures Typed(p, region, at, at + 1) && Ends(p, at, shape, true)
  {
    LocatedOne(p, at, Cell(Branch(to), shape, Word0));
    hide Located;
  }

  lemma StartsEnds(p: seq<Cell>, at: nat, shape: Shape)
    requires Starts(p, at, shape)
    ensures Ends(p, at, shape, true) && Ends(p, at, shape, false)
  {
  }

  // ----- calls -----

  predicate AllIn(slots: seq<Slot>, region: Region)
  {
    forall i :: 0 <= i < |slots| ==> SlotIn(slots[i], region)
  }

  lemma {:induction false} TypedSaveAll(p: seq<Cell>, region: Region, at: nat, slots: seq<Slot>, shape: Shape)
    requires Located(p, at, SaveAll(slots, shape)) && AllIn(slots, region)
             && Starts(p, at + 2 * |slots|, shape + Values(|slots|))
    ensures Typed(p, region, at, at + 2 * |slots|) && Starts(p, at, shape)
    decreases |slots|
  {
    hide OkAt, Located, SlotIn;
    if slots == [] {
      assert shape + Values(0) == shape;
    } else {
      var rest := SaveAll(slots[1..], shape + [Value]);
      assert shape + [Value] + Values(|slots| - 1) == shape + Values(|slots|);
      assert SaveAll(slots, shape) == [Plainly(LoadSlot(slots[0], X0), shape)] + ([Plainly(Push(X0), shape)] + rest);
      LocatedSplit(p, at, [Plainly(LoadSlot(slots[0], X0), shape)], [Plainly(Push(X0), shape)] + rest);
      LocatedSplit(p, at + 1, [Plainly(Push(X0), shape)], rest);
      TypedSaveAll(p, region, at + 2, slots[1..], shape + [Value]);
      TypedPush(p, region, at + 1, shape);
      TypedSlot(p, region, at, slots[0], X0, true, shape);
      TypedSplit(p, region, at, at + 1, at + 2);
      TypedSplit(p, region, at, at + 2, at + 2 * |slots|);
    }
  }

  lemma {:induction false} TypedPopAll(p: seq<Cell>, region: Region, at: nat, slots: seq<Slot>, r: Register,
                                       shape: Shape)
    requires Located(p, at, PopAll(slots, r, shape)) && AllIn(slots, region) && Starts(p, at + 2 * |slots|, shape)
    requires r == X0 || r == X1
    ensures Typed(p, region, at, at + 2 * |slots|) && Starts(p, at, shape + Values(|slots|))
    decreases |slots|
  {
    hide OkAt, Located, SlotIn;
    if slots == [] {
      assert shape + Values(0) == shape;
    } else {
      var n := |slots| - 1;
      var rest := PopAll(slots[..n], r, shape);
      var (pop, store) := (Plainly(Pop(r), shape + Values(n + 1)), Plainly(StoreSlot(slots[n], r), shape + Values(n)));
      assert shape + Values(n) + [Value] == shape + Values(n + 1);
      assert PopAll(slots, r, shape) == [pop] + ([store] + rest);
      LocatedSplit(p, at, [pop], [store] + rest);
      LocatedSplit(p, at + 1, [store], rest);
      TypedPopAll(p, region, at + 2, slots[..n], r, shape);
      TypedSlot(p, region, at + 1, slots[n], r, false, shape + Values(n));
      TypedPop(p, region, at, r, shape + Values(n));
      TypedSplit(p, region, at, at + 1, at + 2);
      TypedSplit(p, region, at, at + 2, at + 2 * |slots|);
    }
  }

  lemma TypedOptional(p: seq<Cell>, region: Region, at: nat, b: bool, i: Instr, shape: Shape)
    requires Located(p, at, Optional(b, Plainly(i, shape))) && Straight(i)
             && Ends(p, at + |Optional(b, Plainly(i, shape))|, shape, b && Writes(i))
    ensures Typed(p, region, at, at + |Optional(b, Plainly(i, shape))|) && Starts(p, at, shape)
  {
    hide OkAt, Located;
    if b {
      TypedStraight(p, region, at, i, shape);
    }
  }

  // ----- what the compiler accepts -----

  predicate ScalarParameters(s: Signature)
  {
    s.parameters <= |s.places| && forall i :: 0 <= i < s.parameters ==> s.places[i].One?
  }

  /** `main` has no entry to call. */
  predicate CallOk(g: Linkage, main: nat, f: nat, n: nat)
  {
    f < |g.signatures| && f != main && n == g.signatures[f].parameters
  }

  predicate ExprOk(g: Linkage, main: nat, places: seq<Place>, e: Expr)
    decreases e, 1
  {
    match e
    case Literal(_) => true
    case Variable(i) => i < |places| && places[i].One?
    case Index(i, index) => i < |places| && places[i].Many? && ExprOk(g, main, places, index)
    case Not(a) => ExprOk(g, main, places, a)
    case Negate(a) => ExprOk(g, main, places, a)
    case Arithmetic(_, _, a, b) => ExprOk(g, main, places, a) && ExprOk(g, main, places, b)
    case Compare(_, _, a, b) => ExprOk(g, main, places, a) && ExprOk(g, main, places, b)
    case And(a, b) => ExprOk(g, main, places, a) && ExprOk(g, main, places, b)
    case Or(a, b) => ExprOk(g, main, places, a) && ExprOk(g, main, places, b)
    case Invoke(f, arguments) =>
      CallOk(g, main, f, |arguments|) && g.signatures[f].returning && ArgumentsOk(g, main, places, arguments)
  }

  predicate ArgumentsOk(g: Linkage, main: nat, places: seq<Place>, es: seq<Expr>)
    decreases es, 0
  {
    es == [] || (ExprOk(g, main, places, es[0]) && ArgumentsOk(g, main, places, es[1..]))
  }

  /** Every function but `main` can be entered, and its places are in the region. */
  predicate EntryOk(p: seq<Cell>, region: Region, g: Linkage, f: nat)
    requires f < |g.signatures| == |g.entries|
  {
    && g.entries[f] < |p| && p[g.entries[f]].shape == [] && p[g.entries[f]].fact == Linked
    && PlacesIn(g.signatures[f].places, region) && ScalarParameters(g.signatures[f])
  }

  predicate LinkageOk(p: seq<Cell>, region: Region, g: Linkage, main: nat)
  {
    |g.signatures| == |g.entries| && forall f :: 0 <= f < |g.signatures| && f != main ==> EntryOk(p, region, g, f)
  }

  lemma {:induction false} Stride(i: nat, n: nat, w: nat)
    requires i < n
    ensures i * w + w <= n * w
    decreases n
  {
    if i + 1 < n {
      Stride(i, n - 1, w);
    }
  }

  lemma ElementIn(v: Vector, region: Region, i: nat)
    requires VectorIn(v, region) && i < v.length
    ensures SlotIn(Element(v, i), region)
  {
    Stride(i, v.length, Width(v.element));
  }

  lemma {:induction false} FrameIn(places: seq<Place>, region: Region)
    requires PlacesIn(places, region)
    ensures AllIn(Frame(places), region)
    decreases places
  {
    hide SlotIn, VectorIn;
    if places != [] {
      FrameIn(places[1..], region);
      assert PlaceIn(places[0], region);
      var slots := Slots(places[0]);
      forall i | 0 <= i < |slots| ensures SlotIn(slots[i], region) {
        if places[0].Many? {
          ElementIn(places[0].vector, region, i);
        }
      }
    }
  }

  lemma ParametersIn(s: Signature, region: Region)
    requires PlacesIn(s.places, region) && ScalarParameters(s)
    ensures AllIn(SlotsOf(s.places, s.parameters), region)
  {
    hide SlotIn, VectorIn;
    forall i | 0 <= i < s.parameters ensures SlotIn(SlotsOf(s.places, s.parameters)[i], region) {
      assert PlaceIn(s.places[i], region);
    }
  }

  // ----- expressions -----

  lemma TypedCallInstr(p: seq<Cell>, region: Region, g: Linkage, main: nat, f: nat, at: nat, shape: Shape)
    requires LinkageOk(p, region, g, main) && f < |g.signatures| && f != main
    requires Located(p, at, [Plainly(Call(EntryOf(g, f)), shape)]) && Starts(p, at + 1, shape)
    ensures Typed(p, region, at, at + 1) && Starts(p, at, shape)
  {
    LocatedOne(p, at, Plainly(Call(EntryOf(g, f)), shape));
    assert EntryOk(p, region, g, f);
    hide Located;
  }

  lemma SignatureIn(p: seq<Cell>, region: Region, g: Linkage, main: nat, f: nat)
    requires LinkageOk(p, region, g, main) && f < |g.signatures| && f != main
    ensures AllIn(Frame(g.signatures[f].places), region)
    ensures AllIn(SlotsOf(g.signatures[f].places, g.signatures[f].parameters), region)
  {
    hide AllIn, Frame, SlotsOf;
    assert EntryOk(p, region, g, f);
    FrameIn(g.signatures[f].places, region);
    ParametersIn(g.signatures[f], region);
  }

  lemma TypedNothing(p: seq<Cell>, region: Region, at: nat, shape: Shape)
    requires Starts(p, at, shape)
    ensures Typed(p, region, at, at)
  {
  }

  /** The part of a call behind its arguments. */
  function CallTail(s: Signature, entry: nat, shape: Shape): seq<Cell>
  {
    var frame := Frame(s.places);
    var saved := shape + Values(|frame|);
    PopAll(SlotsOf(s.places, s.parameters), X0, saved) + ([Plainly(Call(entry), saved)] +
    (Optional(s.returning, Plainly(Keep, saved))
     + (PopAll(frame, X1, shape) + Optional(s.returning, Plainly(Recall, shape)))))
  }

  lemma TypedCallTail(p: seq<Cell>, region: Region, g: Linkage, main: nat, f: nat, at: nat, shape: Shape)
    requires LinkageOk(p, region, g, main) && f < |g.signatures| && f != main
    requires Located(p, at, CallTail(g.signatures[f], EntryOf(g, f), shape))
    requires Ends(p, at + |CallTail(g.signatures[f], EntryOf(g, f), shape)|, shape, g.signatures[f].returning)
    ensures Typed(p, region, at, at + |CallTail(g.signatures[f], EntryOf(g, f), shape)|)
    ensures Starts(p, at, shape + Values(|Frame(g.signatures[f].places)|) + Values(g.signatures[f].parameters))
  {
    hide OkAt, Typed, Starts, Located, LinkageOk, AllIn, PopAll, SlotsOf, Frame, Optional, EntryOf, Values;
    SignatureIn(p, region, g, main, f);
    var s := g.signatures[f];
    var frame := Frame(s.places);
    var saved := shape + Values(|frame|);
    var (keep, recall) := (Optional(s.returning, Plainly(Keep, saved)), Optional(s.returning, Plainly(Recall, shape)));
    var (take, call, restore) := (PopAll(SlotsOf(s.places, s.parameters), X0, saved),
                                  [Plainly(Call(EntryOf(g, f)), saved)], PopAll(frame, X1, shape));
    LocatedSplit(p, at, take, call + (keep + (restore + recall)));
    var a := at + |take|;
    LocatedSplit(p, a, call, keep + (restore + recall));
    LocatedSplit(p, a + 1, keep, restore + recall);
    var b := a + 1 + |keep|;
    LocatedSplit(p, b, restore, recall);
    var c := b + |restore|;
    TypedOptional(p, region, c, s.returning, Recall, shape);
    TypedPopAll(p, region, b, frame, X1, shape);
    StartsEnds(p, b, saved);
    TypedOptional(p, region, a + 1, s.returning, Keep, saved);
    TypedCallInstr(p, region, g, main, f, a, saved);
    TypedPopAll(p, region, at, SlotsOf(s.places, s.parameters), X0, saved);
    TypedSplit(p, region, at, a, a + 1);
    TypedSplit(p, region, at, a + 1, b);
    TypedSplit(p, region, at, b, c);
    TypedSplit(p, region, at, c, c + |recall|);
  }

  lemma CallShape(g: Linkage, places: seq<Place>, f: nat, arguments: seq<Expr>, at: nat, shape: Shape)
    requires f < |g.signatures|
    ensures var s := g.signatures[f];
            var n := |Frame(s.places)|;
            CodeCall(g, places, f, arguments, at, shape) ==
            SaveAll(Frame(s.places), shape)
                + (CodeArguments(g, places, arguments, at + 2 * n, shape + Values(n))
                   + CallTail(s, EntryOf(g, f), shape))
  {
    hide CodeArguments, SaveAll, PopAll, Frame, SlotsOf, Optional, EntryOf;
  }

  lemma {:induction false} TypedCall(p: seq<Cell>, region: Region, g: Linkage, main: nat, places: seq<Place>, f: nat,
                                     arguments: seq<Expr>, at: nat, shape: Shape)
    requires Ready(p, region, g, main, places) && CallOk(g, main, f, |arguments|)
             && ArgumentsOk(g, main, places, arguments)
    requires Located(p, at, CodeCall(g, places, f, arguments, at, shape))
             && Ends(p, at + |CodeCall(g, places, f, arguments, at, shape)|, shape, g.signatures[f].returning)
    ensures Typed(p, region, at, at + |CodeCall(g, places, f, arguments, at, shape)|) && Starts(p, at, shape)
    decreases arguments, 1
  {
    hide OkAt, Typed, Starts, Located, LinkageOk, AllIn, CodeArguments, SaveAll, Frame, CallTail, CodeCall, EntryOf,
         PlacesIn, ArgumentsOk, ArgumentsSize, Values, SlotsOf;
    SignatureIn(p, region, g, main, f);
    var s := g.signatures[f];
    CallShape(g, places, f, arguments, at, shape);
    var n := |Frame(s.places)|;
    var (save, pass, tail) := (SaveAll(Frame(s.places), shape),
                               CodeArguments(g, places, arguments, at + 2 * n, shape + Values(n)),
                               CallTail(s, EntryOf(g, f), shape));
    LocatedSplit(p, at, save, pass + tail);
    LocatedSplit(p, at + 2 * n, pass, tail);
    var b := at + 2 * n + |pass|;
    TypedCallTail(p, region, g, main, f, b, shape);
    TypedArguments(p, region, g, main, places, arguments, at + 2 * n, shape + Values(n));
    TypedSaveAll(p, region, at, Frame(s.places), shape);
    TypedSplit(p, region, at, at + 2 * n, b);
    TypedSplit(p, region, at, b, b + |tail|);
  }

  lemma {:induction false} TypedArguments(p: seq<Cell>, region: Region, g: Linkage, main: nat, places: seq<Place>,
                                          es: seq<Expr>, at: nat, shape: Shape)
    requires Ready(p, region, g, main, places) && ArgumentsOk(g, main, places, es)
    requires Located(p, at, CodeArguments(g, places, es, at, shape))
             && Starts(p, at + ArgumentsSize(g, es), shape + Values(|es|))
    ensures Typed(p, region, at, at + ArgumentsSize(g, es)) && Starts(p, at, shape)
    decreases es, 0
  {
    hide OkAt, Typed, Starts, Located, Ready, CodeExpr, ExprSize, ExprOk;
    if es == [] {
      assert shape + Values(0) == shape;
      TypedNothing(p, region, at, shape);
    } else {
      var (first, rest) := (CodeExpr(g, places, es[0], at, shape),
                            CodeArguments(g, places, es[1..], at + ExprSize(g, es[0]) + 1, shape + [Value]));
      assert shape + [Value] + Values(|es| - 1) == shape + Values(|es|);
      assert CodeArguments(g, places, es, at, shape) == first + ([Plainly(Push(X0), shape)] + rest);
      LocatedSplit(p, at, first, [Plainly(Push(X0), shape)] + rest);
      var a := at + |first|;
      LocatedSplit(p, a, [Plainly(Push(X0), shape)], rest);
      TypedArguments(p, region, g, main, places, es[1..], a + 1, shape + [Value]);
      TypedPush(p, region, a, shape);
      TypedExpr(p, region, g, main, places, es[0], at, shape);
      TypedSplit(p, region, at, a, a + 1);
      TypedSplit(p, region, at, a + 1, at + ArgumentsSize(g, es));
    }
  }

  lemma TypedIndexing(p: seq<Cell>, region: Region, v: Vector, at: nat, shape: Shape)
    requires VectorIn(v, region) && Ends(p, at + 3, shape, true)
    requires Located(p, at, [Cell(CheckIndex(v.length), shape, Word0), Cell(Address(v, X0), shape, Index0(v.length)),
                             Cell(LoadIndexed(v.element, X0), shape, Pointing(v, false))])
    ensures Typed(p, region, at, at + 3) && Ends(p, at, shape, true)
  {
    var cells := p[at..at + 3];
    assert p[at] == cells[0] && p[at + 1] == cells[1] && p[at + 2] == cells[2];
    hide VectorIn, Located;
    forall i | at <= i < at + 3 ensures OkAt(p, region, i) {
    }
  }

  lemma BinaryLayout(p: seq<Cell>, a: seq<Cell>, b: seq<Cell>, i: Instr, at: nat, shape: Shape)
    requires Located(p, at, Binary(a, b, i, shape))
    ensures var c := at + |a| + 1 + |b|;
            && Located(p, at, a) && Located(p, at + |a|, [Plainly(Push(X0), shape)]) && Located(p, at + |a| + 1, b)
            && Located(p, c, [Plainly(Pop(X1), shape + [Value])]) && Located(p, c + 1, [Plainly(i, shape)])
  {
    hide Located;
    var (push, pop, last) := ([Plainly(Push(X0), shape)], [Plainly(Pop(X1), shape + [Value])], [Plainly(i, shape)]);
    assert Binary(a, b, i, shape) == a + (push + (b + (pop + last)));
    LocatedSplit(p, at, a, push + (b + (pop + last)));
    LocatedSplit(p, at + |a|, push, b + (pop + last));
    LocatedSplit(p, at + |a| + 1, b, pop + last);
    LocatedSplit(p, at + |a| + 1 + |b|, pop, last);
  }

  /** What is around the operands of a binary operation. */
  lemma TypedBinary(p: seq<Cell>, region: Region, a: seq<Cell>, b: seq<Cell>, i: Instr, at: nat, shape: Shape)
    requires Located(p, at, Binary(a, b, i, shape)) && Straight(i) && Writes(i)
             && Ends(p, at + |a| + |b| + 3, shape, true)
    ensures Located(p, at, a) && Located(p, at + |a| + 1, b)
    ensures Starts(p, at + |a| + 1 + |b|, shape + [Value]) && Typed(p, region, at + |a| + 1 + |b|, at + |a| + |b| + 3)
    ensures Starts(p, at + |a| + 1, shape + [Value]) ==>
              Starts(p, at + |a|, shape) && Typed(p, region, at + |a|, at + |a| + 1)
  {
    hide OkAt, Typed, Starts, Located, Ends, Writes, Straight, Binary;
    BinaryLayout(p, a, b, i, at, shape);
    var c := at + |a| + 1 + |b|;
    TypedStraight(p, region, c + 1, i, shape);
    TypedPop(p, region, c, X1, shape);
    TypedSplit(p, region, c, c + 1, c + 2);
    if Starts(p, at + |a| + 1, shape + [Value]) {
      TypedPush(p, region, at + |a|, shape);
    }
  }

  lemma ShortLayout(p: seq<Cell>, a: seq<Cell>, b: seq<Cell>, or: bool, at: nat, shape: Shape)
    requires Located(p, at, Short(a, b, or, at, shape))
    ensures var shortcut := at + |a| + |b| + 2;
            && Located(p, at, a) && Located(p, at + |a|,
                                            [Plainly(if or then BranchNonzero(shortcut) else BranchZero(shortcut),
                                                     shape)])
            && Located(p, at + |a| + 1, b) && Located(p, shortcut - 1, [Cell(Branch(shortcut + 1), shape, Word0)])
            && Located(p, shortcut, [Plainly(Imm(if or then 1 else 0), shape)])
  {
    hide Located;
    var shortcut := at + |a| + |b| + 2;
    var test := [Plainly(if or then BranchNonzero(shortcut) else BranchZero(shortcut), shape)];
    var (jump, last) := ([Cell(Branch(shortcut + 1), shape, Word0)], [Plainly(Imm(if or then 1 else 0), shape)]);
    assert Short(a, b, or, at, shape) == a + (test + (b + (jump + last)));
    LocatedSplit(p, at, a, test + (b + (jump + last)));
    LocatedSplit(p, at + |a|, test, b + (jump + last));
    LocatedSplit(p, at + |a| + 1, b, jump + last);
    LocatedSplit(p, shortcut - 1, jump, last);
  }

  /** What is around the operands of a short circuit. */
  lemma TypedShort(p: seq<Cell>, region: Region, a: seq<Cell>, b: seq<Cell>, or: bool, at: nat, shape: Shape)
    requires Located(p, at, Short(a, b, or, at, shape)) && Ends(p, at + |a| + |b| + 3, shape, true)
    ensures Located(p, at, a) && Located(p, at + |a| + 1, b)
    ensures Ends(p, at + |a| + 1 + |b|, shape, true) && Typed(p, region, at + |a| + 1 + |b|, at + |a| + |b| + 3)
    ensures Starts(p, at + |a| + 1, shape) ==> Starts(p, at + |a|, shape) && Typed(p, region, at + |a|, at + |a| + 1)
  {
    hide OkAt, Typed, Starts, Located, Ends, Short;
    ShortLayout(p, a, b, or, at, shape);
    var shortcut := at + |a| + |b| + 2;
    TypedStraight(p, region, shortcut, Imm(if or then 1 else 0), shape);
    TypedWordBranch(p, region, shortcut - 1, shortcut + 1, shape);
    TypedSplit(p, region, shortcut - 1, shortcut, shortcut + 1);
    if Starts(p, at + |a| + 1, shape) {
      TypedBranch(p, region, at + |a|, if or then BranchNonzero(shortcut) else BranchZero(shortcut), shape);
    }
  }

  /** Operands, what stands between them, and what follows. */
  lemma TypedThree(p: seq<Cell>, region: Region, at: nat, a: nat, b: nat, end: nat)
    requires at <= a < b <= end && Typed(p, region, at, a) && Typed(p, region, a, a + 1) && Typed(p, region, a + 1, b)
             && Typed(p, region, b, end)
    ensures Typed(p, region, at, end)
  {
    hide OkAt;
    TypedSplit(p, region, at, a, a + 1);
    TypedSplit(p, region, at, a + 1, b);
    TypedSplit(p, region, at, b, end);
  }

  predicate Ready(p: seq<Cell>, region: Region, g: Linkage, main: nat, places: seq<Place>)
  {
    LinkageOk(p, region, g, main) && PlacesIn(places, region)
  }

  lemma {:induction false} TypedUnaryExpr(p: seq<Cell>, region: Region, g: Linkage, main: nat, places: seq<Place>,
                                          e: Expr, at: nat, shape: Shape)
    requires Ready(p, region, g, main, places) && ExprOk(g, main, places, e) && (e.Not? || e.Negate?)
    requires Located(p, at, CodeExpr(g, places, e, at, shape)) && Ends(p, at + ExprSize(g, e), shape, true)
    ensures Typed(p, region, at, at + ExprSize(g, e)) && Starts(p, at, shape)
    decreases e, 0
  {
    hide OkAt, Typed, Starts, Located, Ready;
    var i := if e.Not? then Invert else NegateW;
    LocatedSplit(p, at, CodeExpr(g, places, e.operand, at, shape), [Plainly(i, shape)]);
    TypedStraight(p, region, at + ExprSize(g, e.operand), i, shape);
    TypedExpr(p, region, g, main, places, e.operand, at, shape);
    TypedSplit(p, region, at, at + ExprSize(g, e.operand), at + ExprSize(g, e));
  }

  lemma {:induction false} TypedIndexExpr(p: seq<Cell>, region: Region, g: Linkage, main: nat, places: seq<Place>,
                                          e: Expr, at: nat, shape: Shape)
    requires Ready(p, region, g, main, places) && ExprOk(g, main, places, e) && e.Index?
    requires Located(p, at, CodeExpr(g, places, e, at, shape)) && Ends(p, at + ExprSize(g, e), shape, true)
    ensures Typed(p, region, at, at + ExprSize(g, e)) && Starts(p, at, shape)
    decreases e, 0
  {
    var v := places[e.binding].vector;
    assert PlaceIn(places[e.binding], region);
    hide OkAt, Typed, Starts, Located, Ready, VectorIn;
    var first := CodeExpr(g, places, e.index, at, shape);
    LocatedSplit(p, at, first, [Cell(CheckIndex(v.length), shape, Word0), Cell(Address(v, X0), shape, Index0(v.length)),
                                Cell(LoadIndexed(v.element, X0), shape, Pointing(v, false))]);
    TypedIndexing(p, region, v, at + |first|, shape);
    TypedExpr(p, region, g, main, places, e.index, at, shape);
    TypedSplit(p, region, at, at + |first|, at + |first| + 3);
  }

  lemma {:induction false} TypedBinaryExpr(p: seq<Cell>, region: Region, g: Linkage, main: nat, places: seq<Place>,
                                           e: Expr, at: nat, shape: Shape)
    requires Ready(p, region, g, main, places) && ExprOk(g, main, places, e) && (e.Arithmetic? || e.Compare?)
    requires Located(p, at, CodeExpr(g, places, e, at, shape)) && Ends(p, at + ExprSize(g, e), shape, true)
    ensures Typed(p, region, at, at + ExprSize(g, e)) && Starts(p, at, shape)
    decreases e, 0
  {
    hide OkAt, Typed, Starts, Located, Ready, Binary, Ends;
    var i := if e.Arithmetic? then Arith(e.op, e.kind) else Test(e.comparison, e.kind);
    var middle := at + ExprSize(g, e.left) + 1;
    TypedBinary(p, region, CodeExpr(g, places, e.left, at, shape),
                CodeExpr(g, places, e.right, middle, shape + [Value]), i, at, shape);
    StartsEnds(p, middle + ExprSize(g, e.right), shape + [Value]);
    TypedExpr(p, region, g, main, places, e.right, middle, shape + [Value]);
    StartsEnds(p, middle - 1, shape);
    TypedExpr(p, region, g, main, places, e.left, at, shape);
    TypedThree(p, region, at, middle - 1, middle + ExprSize(g, e.right), at + ExprSize(g, e));
  }

  lemma {:induction false} TypedShortExpr(p: seq<Cell>, region: Region, g: Linkage, main: nat, places: seq<Place>,
                                          e: Expr, at: nat, shape: Shape)
    requires Ready(p, region, g, main, places) && ExprOk(g, main, places, e) && (e.And? || e.Or?)
    requires Located(p, at, CodeExpr(g, places, e, at, shape)) && Ends(p, at + ExprSize(g, e), shape, true)
    ensures Typed(p, region, at, at + ExprSize(g, e)) && Starts(p, at, shape)
    decreases e, 0
  {
    hide OkAt, Typed, Starts, Located, Ready, Short, Ends;
    var middle := at + ExprSize(g, e.left) + 1;
    TypedShort(p, region, CodeExpr(g, places, e.left, at, shape), CodeExpr(g, places, e.right, middle, shape), e.Or?,
               at, shape);
    TypedExpr(p, region, g, main, places, e.right, middle, shape);
    StartsEnds(p, middle - 1, shape);
    TypedExpr(p, region, g, main, places, e.left, at, shape);
    TypedThree(p, region, at, middle - 1, middle + ExprSize(g, e.right), at + ExprSize(g, e));
  }

  lemma TypedLeafExpr(p: seq<Cell>, region: Region, g: Linkage, main: nat, places: seq<Place>, e: Expr, at: nat,
                      shape: Shape)
    requires Ready(p, region, g, main, places) && ExprOk(g, main, places, e) && (e.Literal? || e.Variable?)
    requires Located(p, at, CodeExpr(g, places, e, at, shape)) && Ends(p, at + ExprSize(g, e), shape, true)
    ensures Typed(p, region, at, at + ExprSize(g, e)) && Starts(p, at, shape)
  {
    if e.Variable? {
      assert PlaceIn(places[e.binding], region);
      hide OkAt, Typed, Starts, Located, Ready, SlotIn;
      TypedSlot(p, region, at, places[e.binding].slot, X0, true, shape);
    } else {
      hide OkAt, Typed, Starts, Located, Ready;
      TypedStraight(p, region, at, Imm(e.word), shape);
    }
  }

  /** Compiled expressions leave the stack as they found it. */
  lemma {:induction false} TypedExpr(p: seq<Cell>, region: Region, g: Linkage, main: nat, places: seq<Place>, e: Expr,
                                     at: nat, shape: Shape)
    requires Ready(p, region, g, main, places) && ExprOk(g, main, places, e)
    requires Located(p, at, CodeExpr(g, places, e, at, shape)) && Ends(p, at + ExprSize(g, e), shape, true)
    ensures Typed(p, region, at, at + ExprSize(g, e)) && Starts(p, at, shape)
    decreases e, 1
  {
    hide Typed, Starts, Located, Ready, CodeCall, ExprOk, CodeExpr, ExprSize;
    match e
    case Literal(_) => TypedLeafExpr(p, region, g, main, places, e, at, shape);
    case Variable(_) => TypedLeafExpr(p, region, g, main, places, e, at, shape);
    case Index(_, _) => TypedIndexExpr(p, region, g, main, places, e, at, shape);
    case Not(_) => TypedUnaryExpr(p, region, g, main, places, e, at, shape);
    case Negate(_) => TypedUnaryExpr(p, region, g, main, places, e, at, shape);
    case Arithmetic(_, _, _, _) => TypedBinaryExpr(p, region, g, main, places, e, at, shape);
    case Compare(_, _, _, _) => TypedBinaryExpr(p, region, g, main, places, e, at, shape);
    case And(_, _) => TypedShortExpr(p, region, g, main, places, e, at, shape);
    case Or(_, _) => TypedShortExpr(p, region, g, main, places, e, at, shape);
    case Invoke(f, arguments) =>
      InvokeShape(g, main, places, e, at, shape);
      TypedCall(p, region, g, main, places, f, arguments, at, shape);
  }

  lemma InvokeShape(g: Linkage, main: nat, places: seq<Place>, e: Expr, at: nat, shape: Shape)
    requires e.Invoke?
    ensures CodeExpr(g, places, e, at, shape) == CodeCall(g, places, e.callee, e.arguments, at, shape)
    ensures ExprOk(g, main, places, e) ==>
              CallOk(g, main, e.callee, |e.arguments|) && g.signatures[e.callee].returning
                  && ArgumentsOk(g, main, places, e.arguments)
  {
    hide CodeCall, ArgumentsOk;
  }
}
