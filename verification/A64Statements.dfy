/** Compiled statements start and end with nothing of their own on the stack. */
module A64Statements {
  import opened Kinds
  import opened A64Machine
  import opened A64Code
  import opened A64Typing

  // ----- what the compiler accepts -----

  predicate StmtOk(c: Context, main: nat, s: Stmt)
    decreases s, 1
  {
    match s
    case Let(i, e) => i < |c.places| && c.places[i].One? && ExprOk(c.g, main, c.places, e)
    case LetArray(i, es) =>
      i < |c.places| && c.places[i].Many? && |es| == c.places[i].vector.length && ArgumentsOk(c.g, main, c.places, es)
    case Assign(i, _, e) => i < |c.places| && c.places[i].One? && ExprOk(c.g, main, c.places, e)
    case AssignElement(i, index, _, e) =>
      i < |c.places| && c.places[i].Many? && ExprOk(c.g, main, c.places, index) && ExprOk(c.g, main, c.places, e)
    case Perform(f, arguments) => CallOk(c.g, main, f, |arguments|) && ArgumentsOk(c.g, main, c.places, arguments)
    case Show(e) => ExprOk(c.g, main, c.places, e)
    case ShowText => true
    case If(e, a, b) => ExprOk(c.g, main, c.places, e) && BlockOk(c, main, a) && BlockOk(c, main, b)
    case While(e, body) => ExprOk(c.g, main, c.places, e) && BlockOk(InLoop(c, 0, 0), main, body)
    case Loop(body) => BlockOk(InLoop(c, 0, 0), main, body)
    case Break => c.inLoop
    case Continue => c.inLoop
    case Return(es) => |es| == (if c.returning && !c.main then 1 else 0) && ArgumentsOk(c.g, main, c.places, es)
  }

  predicate BlockOk(c: Context, main: nat, ss: seq<Stmt>)
    decreases ss, 0
  {
    ss == [] || (StmtOk(c, main, ss[0]) && BlockOk(c, main, ss[1..]))
  }

  /** Acceptance does not depend on where the loops are. */
  lemma {:induction false} StmtOkAnywhere(c: Context, d: Context, main: nat, s: Stmt)
    requires d == c.(continueTo := d.continueTo, breakTo := d.breakTo)
    ensures StmtOk(c, main, s) == StmtOk(d, main, s)
    decreases s, 1
  {
    hide ExprOk, ArgumentsOk, CallOk;
    match s
    case If(_, a, b) => BlockOkAnywhere(c, d, main, a); BlockOkAnywhere(c, d, main, b);
    case While(_, body) => BlockOkAnywhere(InLoop(c, 0, 0), InLoop(d, 0, 0), main, body);
    case Loop(body) => BlockOkAnywhere(InLoop(c, 0, 0), InLoop(d, 0, 0), main, body);
    case _ =>
  }

  lemma {:induction false} BlockOkAnywhere(c: Context, d: Context, main: nat, ss: seq<Stmt>)
    requires d == c.(continueTo := d.continueTo, breakTo := d.breakTo)
    ensures BlockOk(c, main, ss) == BlockOk(d, main, ss)
    decreases ss, 0
  {
    hide StmtOk;
    if ss != [] {
      StmtOkAnywhere(c, d, main, ss[0]);
      BlockOkAnywhere(c, d, main, ss[1..]);
    }
  }

  predicate ContextOk(p: seq<Cell>, region: Region, main: nat, c: Context)
  {
    && Ready(p, region, c.g, main, c.places)
    && (c.main ==> Starts(p, c.halt, []))
    && (c.inLoop ==> Starts(p, c.continueTo, Base(c)) && Starts(p, c.breakTo, Base(c)))
  }

  // ----- how code begins -----

  predicate Begins(part: seq<Cell>, shape: Shape)
  {
    part != [] && part[0].shape == shape && (part[0].fact == Plain || part[0].fact == Word0)
  }

  /** An expression followed by more code of the same stack. */
  lemma LeadingExpr(p: seq<Cell>, region: Region, main: nat, c: Context, e: Expr, at: nat, shape: Shape,
                    rest: seq<Cell>)
    requires Ready(p, region, c.g, main, c.places) && ExprOk(c.g, main, c.places, e)
    requires Located(p, at, CodeExpr(c.g, c.places, e, at, shape) + rest) && Begins(rest, shape)
    ensures Typed(p, region, at, at + ExprSize(c.g, e)) && Starts(p, at, shape)
    ensures Located(p, at + ExprSize(c.g, e), rest)
  {
    hide OkAt, Typed, CodeExpr, ExprOk, Ready, ExprSize;
    LocatedSplit(p, at, CodeExpr(c.g, c.places, e, at, shape), rest);
    var a := at + ExprSize(c.g, e);
    assert p[a] == p[a..a + |rest|][0];
    hide Located;
    TypedExpr(p, region, c.g, main, c.places, e, at, shape);
  }

  lemma PlaceKnown(p: seq<Cell>, region: Region, main: nat, c: Context, i: nat)
    requires Ready(p, region, c.g, main, c.places) && i < |c.places|
    ensures c.places[i].One? ==> SlotIn(c.places[i].slot, region) && SlotOf(c.places, i) == c.places[i].slot
    ensures c.places[i].Many? ==> VectorIn(c.places[i].vector, region) && VectorOf(c.places, i) == c.places[i].vector
  {
    assert PlaceIn(c.places[i], region);
  }

  // ----- simple statements -----

  lemma TypedLet(p: seq<Cell>, region: Region, main: nat, c: Context, s: Stmt, at: nat)
    requires Ready(p, region, c.g, main, c.places) && StmtOk(c, main, s) && s.Let?
    requires Located(p, at, CodeStmt(c, s, at)) && Starts(p, at + StmtSize(c, s), Base(c))
    ensures Typed(p, region, at, at + StmtSize(c, s)) && Starts(p, at, Base(c))
  {
    PlaceKnown(p, region, main, c, s.binding);
    hide OkAt, Typed, Starts, Located, Ready, CodeExpr, ExprSize, ExprOk, SlotIn, SlotOf;
    var (a, slot) := (at + ExprSize(c.g, s.value), SlotOf(c.places, s.binding));
    LeadingExpr(p, region, main, c, s.value, at, Base(c), [Plainly(StoreSlot(slot, X0), Base(c))]);
    TypedSlot(p, region, a, slot, X0, false, Base(c));
    TypedSplit(p, region, at, a, a + 1);
  }

  lemma TypedShow(p: seq<Cell>, region: Region, main: nat, c: Context, s: Stmt, at: nat)
    requires Ready(p, region, c.g, main, c.places) && StmtOk(c, main, s) && (s.Show? || s.ShowText?)
    requires Located(p, at, CodeStmt(c, s, at)) && Starts(p, at + StmtSize(c, s), Base(c))
    ensures Typed(p, region, at, at + StmtSize(c, s)) && Starts(p, at, Base(c))
  {
    hide OkAt, Typed, Starts, Located, Ready, CodeExpr, ExprSize, ExprOk;
    if s.ShowText? {
      StartsEnds(p, at + 1, Base(c));
      TypedStraight(p, region, at, Print, Base(c));
    } else {
      var a := at + ExprSize(c.g, s.value);
      LeadingExpr(p, region, main, c, s.value, at, Base(c), [Plainly(Print, Base(c))]);
      StartsEnds(p, a + 1, Base(c));
      TypedStraight(p, region, a, Print, Base(c));
      TypedSplit(p, region, at, a, a + 1);
    }
  }

  function Update(slot: Slot, a: Assigning, shape: Shape): seq<Cell>
  {
    if a.Simply? then [Plainly(StoreSlot(slot, X0), shape)]
    else [Plainly(LoadSlot(slot, X1), shape)]
         + ([Plainly(Arith(a.op, slot.kind), shape)] + [Plainly(StoreSlot(slot, X0), shape)])
  }

  lemma TypedUpdate(p: seq<Cell>, region: Region, slot: Slot, a: Assigning, at: nat, shape: Shape)
    requires Located(p, at, Update(slot, a, shape)) && Starts(p, at + |Update(slot, a, shape)|, shape)
             && SlotIn(slot, region)
    ensures Typed(p, region, at, at + |Update(slot, a, shape)|) && Starts(p, at, shape)
  {
    hide OkAt, Typed, Starts, Located, SlotIn;
    if a.Simply? {
      StartsEnds(p, at + 1, shape);
      TypedSlot(p, region, at, slot, X0, false, shape);
    } else {
      var (load, arith, store) := ([Plainly(LoadSlot(slot, X1), shape)], [Plainly(Arith(a.op, slot.kind), shape)],
                                   [Plainly(StoreSlot(slot, X0), shape)]);
      LocatedSplit(p, at, load, arith + store);
      LocatedSplit(p, at + 1, arith, store);
      StartsEnds(p, at + 3, shape);
      TypedSlot(p, region, at + 2, slot, X0, false, shape);
      StartsEnds(p, at + 2, shape);
      TypedStraight(p, region, at + 1, Arith(a.op, slot.kind), shape);
      StartsEnds(p, at + 1, shape);
      TypedSlot(p, region, at, slot, X1, true, shape);
      TypedSplit(p, region, at, at + 1, at + 2);
      TypedSplit(p, region, at, at + 2, at + 3);
    }
  }

  lemma AssignShape(c: Context, s: Stmt, at: nat)
    requires s.Assign?
    ensures CodeStmt(c, s, at) == CodeExpr(c.g, c.places, s.value, at, Base(c))
            + Update(SlotOf(c.places, s.binding), s.assigning, Base(c))
    ensures StmtSize(c, s) == ExprSize(c.g, s.value) + |Update(SlotOf(c.places, s.binding), s.assigning, Base(c))|
  {
    hide CodeExpr, ExprSize, SlotOf;
  }

  lemma TypedAssign(p: seq<Cell>, region: Region, main: nat, c: Context, s: Stmt, at: nat)
    requires Ready(p, region, c.g, main, c.places) && StmtOk(c, main, s) && s.Assign?
    requires Located(p, at, CodeStmt(c, s, at)) && Starts(p, at + StmtSize(c, s), Base(c))
    ensures Typed(p, region, at, at + StmtSize(c, s)) && Starts(p, at, Base(c))
  {
    PlaceKnown(p, region, main, c, s.binding);
    AssignShape(c, s, at);
    hide OkAt, Typed, Starts, Located, Ready, CodeExpr, ExprSize, ExprOk, SlotIn, SlotOf, CodeStmt, StmtSize;
    var (a, slot) := (at + ExprSize(c.g, s.value), SlotOf(c.places, s.binding));
    var update := Update(slot, s.assigning, Base(c));
    LeadingExpr(p, region, main, c, s.value, at, Base(c), update);
    TypedUpdate(p, region, slot, s.assigning, a, Base(c));
    TypedSplit(p, region, at, a, a + |update|);
  }

  lemma {:induction false} TypedElements(p: seq<Cell>, region: Region, main: nat, c: Context, v: Vector, es: seq<Expr>,
                                         k: nat, at: nat)
    requires Ready(p, region, c.g, main, c.places) && ArgumentsOk(c.g, main, c.places, es) && VectorIn(v, region)
             && k + |es| == v.length
    requires Located(p, at, CodeElements(c, v, es, k, at)) && Starts(p, at + ArgumentsSize(c.g, es), Base(c))
    ensures Typed(p, region, at, at + ArgumentsSize(c.g, es)) && Starts(p, at, Base(c))
    decreases es
  {
    hide OkAt, Typed, Starts, Located, Ready, CodeExpr, ExprSize, ExprOk, VectorIn, SlotIn, Element;
    if es == [] {
      TypedNothing(p, region, at, Base(c));
    } else {
      var (a, end) := (at + ExprSize(c.g, es[0]), at + ArgumentsSize(c.g, es));
      var (store, rest) := ([Plainly(StoreSlot(Element(v, k), X0), Base(c))],
                            CodeElements(c, v, es[1..], k + 1, a + 1));
      assert CodeElements(c, v, es, k, at) == CodeExpr(c.g, c.places, es[0], at, Base(c)) + (store + rest);
      LeadingExpr(p, region, main, c, es[0], at, Base(c), store + rest);
      LocatedSplit(p, a, store, rest);
      TypedElements(p, region, main, c, v, es[1..], k + 1, a + 1);
      ElementIn(v, region, k);
      StartsEnds(p, a + 1, Base(c));
      TypedSlot(p, region, a, Element(v, k), X0, false, Base(c));
      TypedSplit(p, region, at, a, a + 1);
      TypedSplit(p, region, at, a + 1, end);
    }
  }

  lemma TypedJump(p: seq<Cell>, region: Region, main: nat, c: Context, s: Stmt, at: nat)
    requires ContextOk(p, region, main, c) && StmtOk(c, main, s) && (s.Break? || s.Continue?)
    requires Located(p, at, CodeStmt(c, s, at))
    ensures Typed(p, region, at, at + StmtSize(c, s)) && Starts(p, at, Base(c))
  {
    hide OkAt, Typed, Starts, Located, Ready;
    TypedBranch(p, region, at, Branch(if s.Break? then c.breakTo else c.continueTo), Base(c));
  }

  lemma TypedLeave(p: seq<Cell>, region: Region, at: nat)
    requires Located(p, at, LEAVE)
    ensures Typed(p, region, at, at + 2) && Starts(p, at, [Link])
  {
    var cells := p[at..at + 2];
    assert p[at] == cells[0] && p[at + 1] == cells[1];
    hide Located;
    forall i | at <= i < at + 2 ensures OkAt(p, region, i) {
    }
  }

  lemma TypedReturn(p: seq<Cell>, region: Region, main: nat, c: Context, s: Stmt, at: nat)
    requires ContextOk(p, region, main, c) && StmtOk(c, main, s) && s.Return?
    requires Located(p, at, CodeStmt(c, s, at))
    ensures Typed(p, region, at, at + StmtSize(c, s)) && Starts(p, at, Base(c))
  {
    hide OkAt, Typed, Starts, Located, Ready, CodeExpr, ExprSize, ExprOk;
    if c.main {
      TypedBranch(p, region, at, Branch(c.halt), []);
    } else if s.result == [] {
      TypedLeave(p, region, at);
    } else {
      var a := at + ExprSize(c.g, s.result[0]);
      LeadingExpr(p, region, main, c, s.result[0], at, [Link], LEAVE);
      TypedLeave(p, region, a);
      TypedSplit(p, region, at, a, a + 2);
    }
  }

  // ----- elements -----

  /** What follows the value: back from the stack, perhaps combined with the element, and stored. */
  function ElementTail(v: Vector, a: Assigning, base: Shape): seq<Cell>
  {
    var held := base + [Below(v.length)];
    var last := [Plainly(Pop(X3), held)] + [Cell(Address(v, X3), base, Index3(v.length, false)),
                                            Cell(StoreIndexed(v.element), base, Pointing(v, false))];
    if a.Simply? then last
    else [Plainly(Pop(X3), held), Cell(Push(X3), base, Index3(v.length, false)),
          Cell(Address(v, X3), held, Index3(v.length, true)),
          Cell(LoadIndexed(v.element, X1), held, Pointing(v, true)), Plainly(Arith(a.op, v.element), held)] + last
  }

  function ElementHead(v: Vector, base: Shape): seq<Cell>
  {
    [Cell(CheckIndex(v.length), base, Word0), Cell(Push(X0), base, Index0(v.length))]
  }

  lemma ElementShape(v: Vector, index: seq<Cell>, value: seq<Cell>, a: Assigning, base: Shape)
    ensures CodeElementStore(v, index, value, a, base)
            == index + (ElementHead(v, base) + (value + ElementTail(v, a, base)))
  {
  }

  lemma TypedElementLast(p: seq<Cell>, region: Region, v: Vector, at: nat, base: Shape)
    requires VectorIn(v, region) && Starts(p, at + 3, base)
    requires Located(p, at, [Plainly(Pop(X3), base + [Below(v.length)])]
                     + [Cell(Address(v, X3), base, Index3(v.length, false)),
                        Cell(StoreIndexed(v.element), base, Pointing(v, false))])
    ensures Typed(p, region, at, at + 3) && Starts(p, at, base + [Below(v.length)])
  {
    var cells := p[at..at + 3];
    assert p[at] == cells[0] && p[at + 1] == cells[1] && p[at + 2] == cells[2];
    hide VectorIn, Located;
    assert (base + [Below(v.length)])[..|base|] == base;
    forall i | at <= i < at + 3 ensures OkAt(p, region, i) {
    }
  }

  lemma TypedElementCombine(p: seq<Cell>, region: Region, v: Vector, op: Operator, at: nat, base: Shape)
    requires VectorIn(v, region) && Starts(p, at + 5, base + [Below(v.length)])
    requires Located(p, at, [Plainly(Pop(X3), base + [Below(v.length)]), Cell(Push(X3), base, Index3(v.length, false)),
                             Cell(Address(v, X3), base + [Below(v.length)], Index3(v.length, true)),
                             Cell(LoadIndexed(v.element, X1), base + [Below(v.length)], Pointing(v, true)),
                             Plainly(Arith(op, v.element), base + [Below(v.length)])])
    ensures Typed(p, region, at, at + 5) && Starts(p, at, base + [Below(v.length)])
  {
    var cells := p[at..at + 5];
    assert p[at] == cells[0] && p[at + 1] == cells[1] && p[at + 2] == cells[2] && p[at + 3] == cells[3]
           && p[at + 4] == cells[4];
    hide VectorIn, Located;
    assert (base + [Below(v.length)])[..|base|] == base;
    forall i | at <= i < at + 5 ensures OkAt(p, region, i) {
    }
  }

  lemma TypedElementTail(p: seq<Cell>, region: Region, v: Vector, a: Assigning, at: nat, base: Shape)
    requires VectorIn(v, region) && Located(p, at, ElementTail(v, a, base))
             && Starts(p, at + |ElementTail(v, a, base)|, base)
    ensures Typed(p, region, at, at + |ElementTail(v, a, base)|) && Starts(p, at, base + [Below(v.length)])
  {
    hide OkAt, Typed, Starts, Located, VectorIn;
    if a.Simply? {
      TypedElementLast(p, region, v, at, base);
    } else {
      var held := base + [Below(v.length)];
      var last := [Plainly(Pop(X3), held)]
          + [Cell(Address(v, X3), base, Index3(v.length, false)),
             Cell(StoreIndexed(v.element), base, Pointing(v, false))];
      LocatedSplit(p, at, [Plainly(Pop(X3), held), Cell(Push(X3), base, Index3(v.length, false)),
                           Cell(Address(v, X3), held, Index3(v.length, true)),
                           Cell(LoadIndexed(v.element, X1), held, Pointing(v, true)),
                           Plainly(Arith(a.op, v.element), held)], last);
      TypedElementLast(p, region, v, at + 5, base);
      TypedElementCombine(p, region, v, a.op, at, base);
      TypedSplit(p, region, at, at + 5, at + 8);
    }
  }

  lemma TypedElementHead(p: seq<Cell>, region: Region, v: Vector, at: nat, base: Shape)
    requires Located(p, at, ElementHead(v, base)) && Starts(p, at + 2, base + [Below(v.length)])
    ensures Typed(p, region, at, at + 2)
  {
    var cells := p[at..at + 2];
    assert p[at] == cells[0] && p[at + 1] == cells[1];
    hide Located;
    forall i | at <= i < at + 2 ensures OkAt(p, region, i) {
    }
  }

  lemma TailBegins(v: Vector, a: Assigning, base: Shape)
    ensures Begins(ElementTail(v, a, base), base + [Below(v.length)])
    ensures |ElementTail(v, a, base)| == if a.Simply? then 3 else 8
  {
  }

  lemma TypedAssignElement(p: seq<Cell>, region: Region, main: nat, c: Context, s: Stmt, at: nat)
    requires Ready(p, region, c.g, main, c.places) && StmtOk(c, main, s) && s.AssignElement?
    requires Located(p, at, CodeStmt(c, s, at)) && Starts(p, at + StmtSize(c, s), Base(c))
    ensures Typed(p, region, at, at + StmtSize(c, s)) && Starts(p, at, Base(c))
  {
    hide OkAt, Typed, Starts, Located, Ready, CodeExpr, ExprSize, ExprOk, VectorIn, VectorOf, CodeStmt, StmtSize,
         StmtOk, ElementHead, ElementTail, Begins, Base;
    AssignElementFacts(p, region, main, c, s, at);
    var (v, base) := (VectorOf(c.places, s.binding), Base(c));
    var held := base + [Below(v.length)];
    var (a, b) := (at + ExprSize(c.g, s.index), at + ExprSize(c.g, s.index) + 2);
    var (value, tail) := (CodeExpr(c.g, c.places, s.value, b, held), ElementTail(v, s.assigning, base));
    TailBegins(v, s.assigning, base);
    HeadBegins(v, base, value + tail);
    LeadingExpr(p, region, main, c, s.index, at, base, ElementHead(v, base) + (value + tail));
    LocatedSplit(p, a, ElementHead(v, base), value + tail);
    LeadingExpr(p, region, main, c, s.value, b, held, tail);
    var d := b + ExprSize(c.g, s.value);
    TypedElementTail(p, region, v, s.assigning, d, base);
    TypedElementHead(p, region, v, a, base);
    TypedSplit(p, region, at, a, b);
    TypedSplit(p, region, at, b, d);
    TypedSplit(p, region, at, d, d + |tail|);
  }

  lemma AssignElementFacts(p: seq<Cell>, region: Region, main: nat, c: Context, s: Stmt, at: nat)
    requires Ready(p, region, c.g, main, c.places) && StmtOk(c, main, s) && s.AssignElement?
    ensures VectorIn(VectorOf(c.places, s.binding), region) && ExprOk(c.g, main, c.places, s.index)
            && ExprOk(c.g, main, c.places, s.value)
    ensures StmtSize(c, s) == ExprSize(c.g, s.index) + 2 + ExprSize(c.g, s.value) + if s.assigning.Simply? then 3 else 8
    ensures var (v, base) := (VectorOf(c.places, s.binding), Base(c));
            CodeStmt(c, s, at) == CodeExpr(c.g, c.places, s.index, at, base) + (ElementHead(v, base) +
              (CodeExpr(c.g, c.places, s.value, at + ExprSize(c.g, s.index) + 2, base + [Below(v.length)])
               + ElementTail(v, s.assigning, base)))
  {
    hide CodeExpr, ExprSize, ExprOk, VectorIn, VectorOf, ElementHead, ElementTail, Ready, CodeStmt, Base;
    PlaceKnown(p, region, main, c, s.binding);
    var (v, base) := (VectorOf(c.places, s.binding), Base(c));
    var (index, value) := (CodeExpr(c.g, c.places, s.index, at, base),
                           CodeExpr(c.g, c.places, s.value, at + ExprSize(c.g, s.index) + 2, base + [Below(v.length)]));
    ElementShape(v, index, value, s.assigning, base);
    ElementStatement(c, s, at);
  }

  lemma ElementStatement(c: Context, s: Stmt, at: nat)
    requires s.AssignElement?
    ensures var (v, base) := (VectorOf(c.places, s.binding), Base(c));
            CodeStmt(c, s, at) ==
            CodeElementStore(v, CodeExpr(c.g, c.places, s.index, at, base),
                             CodeExpr(c.g, c.places, s.value, at + ExprSize(c.g, s.index) + 2,
                                      base + [Below(v.length)]), s.assigning, base)
  {
    hide CodeExpr, ExprSize, VectorOf, Base, CodeElementStore;
  }

  lemma HeadBegins(v: Vector, base: Shape, rest: seq<Cell>)
    ensures |ElementHead(v, base)| == 2 && Begins(ElementHead(v, base) + rest, base)
  {
  }

  // ----- structured statements -----

  lemma TypedLetArray(p: seq<Cell>, region: Region, main: nat, c: Context, s: Stmt, at: nat)
    requires Ready(p, region, c.g, main, c.places) && StmtOk(c, main, s) && s.LetArray?
    requires Located(p, at, CodeStmt(c, s, at)) && Starts(p, at + StmtSize(c, s), Base(c))
    ensures Typed(p, region, at, at + StmtSize(c, s)) && Starts(p, at, Base(c))
  {
    PlaceKnown(p, region, main, c, s.binding);
    hide OkAt, Typed, Starts, Located, Ready, CodeElements, ArgumentsSize, ArgumentsOk, VectorIn;
    TypedElements(p, region, main, c, VectorOf(c.places, s.binding), s.values, 0, at);
  }

  lemma TypedPerform(p: seq<Cell>, region: Region, main: nat, c: Context, s: Stmt, at: nat)
    requires Ready(p, region, c.g, main, c.places) && StmtOk(c, main, s) && s.Perform?
    requires Located(p, at, CodeStmt(c, s, at)) && Starts(p, at + StmtSize(c, s), Base(c))
    ensures Typed(p, region, at, at + StmtSize(c, s)) && Starts(p, at, Base(c))
  {
    hide OkAt, Typed, Starts, Located, Ready, CodeCall, ArgumentsSize, ArgumentsOk, CallSize, CallOk;
    StartsEnds(p, at + StmtSize(c, s), Base(c));
    TypedCall(p, region, c.g, main, c.places, s.callee, s.arguments, at, Base(c));
  }

  /** Statements without blocks inside. */
  predicate Flat(s: Stmt)
  {
    !s.If? && !s.While? && !s.Loop? && !s.Break? && !s.Continue? && !s.Return?
  }

  lemma TypedFlat(p: seq<Cell>, region: Region, main: nat, c: Context, s: Stmt, at: nat)
    requires Ready(p, region, c.g, main, c.places) && StmtOk(c, main, s) && Flat(s)
    requires Located(p, at, CodeStmt(c, s, at)) && Starts(p, at + StmtSize(c, s), Base(c))
    ensures Typed(p, region, at, at + StmtSize(c, s)) && Starts(p, at, Base(c))
  {
    hide Typed, Starts, Located, Ready, CodeStmt, StmtSize, StmtOk, Base;
    match s
    case Let(_, _) => TypedLet(p, region, main, c, s, at);
    case LetArray(_, _) => TypedLetArray(p, region, main, c, s, at);
    case Assign(_, _, _) => TypedAssign(p, region, main, c, s, at);
    case AssignElement(_, _, _, _) => TypedAssignElement(p, region, main, c, s, at);
    case Perform(_, _) => TypedPerform(p, region, main, c, s, at);
    case Show(_) => TypedShow(p, region, main, c, s, at);
    case ShowText => TypedShow(p, region, main, c, s, at);
  }

  lemma JumpStarts(p: seq<Cell>, region: Region, main: nat, c: Context, s: Stmt, at: nat)
    requires Ready(p, region, c.g, main, c.places) && StmtOk(c, main, s) && (s.Break? || s.Continue? || s.Return?)
    requires Located(p, at, CodeStmt(c, s, at))
    ensures Starts(p, at, Base(c))
  {
    hide OkAt, Typed, CodeExpr, ExprSize, ExprOk, Ready;
    if s.Return? && s.result != [] && !c.main {
      LeadingExpr(p, region, main, c, s.result[0], at, [Link], LEAVE);
    } else {
      var code := CodeStmt(c, s, at);
      assert p[at] == p[at..at + |code|][0];
    }
  }

  /** The branch of an `if`, and the two blocks it chooses from. */
  lemma TypedBranching(p: seq<Cell>, region: Region, main: nat, c: Context, s: Stmt, at: nat)
    requires Ready(p, region, c.g, main, c.places) && StmtOk(c, main, s) && s.If?
    requires Located(p, at, CodeStmt(c, s, at)) && Starts(p, at + StmtSize(c, s), Base(c))
    ensures var first := at + ExprSize(c.g, s.condition) + 1;
            var second := first + BlockSize(c, s.thenBranch) + 1;
            && Located(p, first, CodeBlock(c, s.thenBranch, first))
            && Located(p, second, CodeBlock(c, s.elseBranch, second))
            && Starts(p, at, Base(c)) && Starts(p, second - 1, Base(c))
            && second + BlockSize(c, s.elseBranch) == at + StmtSize(c, s)
            && (Starts(p, first, Base(c)) && Starts(p, second, Base(c)) && Typed(p, region, first, second - 1)
                && Typed(p, region, second, at + StmtSize(c, s)) ==>
                Typed(p, region, at, at + StmtSize(c, s)))
  {
    hide OkAt, Typed, Starts, Located, Ready, CodeExpr, ExprSize, ExprOk, CodeBlock, BlockSize, BlockOk, Base;
    var first := at + ExprSize(c.g, s.condition) + 1;
    var second := first + BlockSize(c, s.thenBranch) + 1;
    var end := second + BlockSize(c, s.elseBranch);
    BlockLength(c, s.thenBranch, first);
    BlockLength(c, s.elseBranch, second);
    var (e, a, b) := (CodeExpr(c.g, c.places, s.condition, at, Base(c)), CodeBlock(c, s.thenBranch, first),
                      CodeBlock(c, s.elseBranch, second));
    var (test, jump) := ([Plainly(BranchZero(second), Base(c))], [Plainly(Branch(end), Base(c))]);
    assert CodeStmt(c, s, at) == e + (test + (a + (jump + b)));
    LeadingExpr(p, region, main, c, s.condition, at, Base(c), test + (a + (jump + b)));
    LocatedSplit(p, first - 1, test, a + (jump + b));
    LocatedSplit(p, first, a, jump + b);
    LocatedSplit(p, second - 1, jump, b);
    TypedBranch(p, region, second - 1, Branch(end), Base(c));
    if Starts(p, first, Base(c)) && Starts(p, second, Base(c)) && Typed(p, region, first, second - 1)
        && Typed(p, region, second, end) {
      TypedBranch(p, region, first - 1, BranchZero(second), Base(c));
      TypedSplit(p, region, at, first - 1, first);
      TypedSplit(p, region, at, first, second - 1);
      TypedSplit(p, region, at, second - 1, second);
      TypedSplit(p, region, at, second, end);
    }
  }

  /** The test of a loop and the branch back. */
  lemma TypedWhileTest(p: seq<Cell>, region: Region, main: nat, c: Context, s: Stmt, at: nat)
    requires Ready(p, region, c.g, main, c.places) && StmtOk(c, main, s) && s.While?
    requires Located(p, at, CodeStmt(c, s, at)) && Starts(p, at + StmtSize(c, s), Base(c))
    ensures var (first, end) := (at + ExprSize(c.g, s.condition) + 1, at + StmtSize(c, s));
            && Located(p, first, CodeBlock(InLoop(c, at, end), s.body, first))
            && first + BlockSize(c, s.body) + 1 == end
            && Starts(p, at, Base(c)) && Starts(p, end - 1, Base(c))
            && (Starts(p, first, Base(c)) && Typed(p, region, first, end - 1) ==> Typed(p, region, at, end))
  {
    hide OkAt, Typed, Starts, Located, Ready, CodeExpr, ExprSize, ExprOk, CodeBlock, BlockSize, BlockOk, Base;
    var (first, end) := (at + ExprSize(c.g, s.condition) + 1, at + StmtSize(c, s));
    BlockLength(InLoop(c, at, end), s.body, first);
    BlockSizeInLoop(c, s.body, at, end);
    var (e, body) := (CodeExpr(c.g, c.places, s.condition, at, Base(c)), CodeBlock(InLoop(c, at, end), s.body, first));
    var (test, jump) := ([Plainly(BranchZero(end), Base(c))], [Plainly(Branch(at), Base(c))]);
    assert CodeStmt(c, s, at) == e + (test + (body + jump));
    LeadingExpr(p, region, main, c, s.condition, at, Base(c), test + (body + jump));
    LocatedSplit(p, first - 1, test, body + jump);
    LocatedSplit(p, first, body, jump);
    TypedBranch(p, region, end - 1, Branch(at), Base(c));
    if Starts(p, first, Base(c)) && Typed(p, region, first, end - 1) {
      TypedBranch(p, region, first - 1, BranchZero(end), Base(c));
      TypedSplit(p, region, at, first - 1, first);
      TypedSplit(p, region, at, first, end - 1);
      TypedSplit(p, region, at, end - 1, end);
    }
  }

  lemma LoopParts(p: seq<Cell>, c: Context, s: Stmt, at: nat)
    requires s.Loop? && Located(p, at, CodeStmt(c, s, at))
    ensures var end := at + StmtSize(c, s);
            && Located(p, at, CodeBlock(InLoop(c, at, end), s.body, at))
            && at + BlockSize(InLoop(c, at, end), s.body) + 1 == end
            && Located(p, end - 1, [Plainly(Branch(at), Base(c))]) && Starts(p, end - 1, Base(c))
  {
    hide Located, CodeBlock, BlockSize, Base;
    var end := at + StmtSize(c, s);
    BlockLength(InLoop(c, at, end), s.body, at);
    BlockSizeInLoop(c, s.body, at, end);
    var (body, jump) := (CodeBlock(InLoop(c, at, end), s.body, at), [Plainly(Branch(at), Base(c))]);
    assert CodeStmt(c, s, at) == body + jump;
    LocatedSplit(p, at, body, jump);
    LocatedOne(p, end - 1, jump[0]);
  }

  lemma BlockParts(p: seq<Cell>, c: Context, ss: seq<Stmt>, at: nat)
    requires ss != [] && Located(p, at, CodeBlock(c, ss, at))
    ensures Located(p, at, CodeStmt(c, ss[0], at))
            && Located(p, at + StmtSize(c, ss[0]), CodeBlock(c, ss[1..], at + StmtSize(c, ss[0])))
    ensures BlockSize(c, ss) == StmtSize(c, ss[0]) + BlockSize(c, ss[1..])
  {
    hide Located, CodeStmt, StmtSize;
    StmtLength(c, ss[0], at);
    LocatedSplit(p, at, CodeStmt(c, ss[0], at), CodeBlock(c, ss[1..], at + StmtSize(c, ss[0])));
  }

  // ----- starts -----

  lemma {:induction false} StmtStarts(p: seq<Cell>, region: Region, main: nat, c: Context, s: Stmt, at: nat)
    requires Ready(p, region, c.g, main, c.places) && StmtOk(c, main, s)
    requires Located(p, at, CodeStmt(c, s, at)) && Starts(p, at + StmtSize(c, s), Base(c))
    ensures Starts(p, at, Base(c))
    decreases s, 1
  {
    hide OkAt, Typed, Starts, Located, Ready, CodeStmt, StmtSize, StmtOk, Base, BlockOk, ExprOk, CodeBlock, BlockSize,
         ExprSize;
    if Flat(s) {
      TypedFlat(p, region, main, c, s, at);
    } else if s.If? {
      TypedBranching(p, region, main, c, s, at);
    } else if s.While? {
      TypedWhileTest(p, region, main, c, s, at);
    } else if s.Loop? {
      LoopParts(p, c, s, at);
      LoopBodyOk(c, main, s, at);
      BlockStarts(p, region, main, InLoop(c, at, at + StmtSize(c, s)), s.body, at);
    } else {
      JumpStarts(p, region, main, c, s, at);
    }
  }

  lemma LoopBodyOk(c: Context, main: nat, s: Stmt, at: nat)
    requires (s.Loop? || s.While?) && StmtOk(c, main, s)
    ensures BlockOk(InLoop(c, at, at + StmtSize(c, s)), main, s.body)
            && Base(InLoop(c, at, at + StmtSize(c, s))) == Base(c)
  {
    hide BlockOk;
    BlockOkAnywhere(InLoop(c, 0, 0), InLoop(c, at, at + StmtSize(c, s)), main, s.body);
  }

  lemma {:induction false} BlockStarts(p: seq<Cell>, region: Region, main: nat, c: Context, ss: seq<Stmt>, at: nat)
    requires Ready(p, region, c.g, main, c.places) && BlockOk(c, main, ss)
    requires Located(p, at, CodeBlock(c, ss, at)) && Starts(p, at + BlockSize(c, ss), Base(c))
    ensures Starts(p, at, Base(c))
    decreases ss, 0
  {
    hide OkAt, Typed, Starts, Located, Ready, CodeStmt, StmtSize, StmtOk, Base;
    if ss != [] {
      BlockParts(p, c, ss, at);
      BlockStarts(p, region, main, c, ss[1..], at + StmtSize(c, ss[0]));
      StmtStarts(p, region, main, c, ss[0], at);
    }
  }

  // ----- statements and blocks -----

  lemma {:induction false} TypedStmt(p: seq<Cell>, region: Region, main: nat, c: Context, s: Stmt, at: nat)
    requires ContextOk(p, region, main, c) && StmtOk(c, main, s)
    requires Located(p, at, CodeStmt(c, s, at)) && Starts(p, at + StmtSize(c, s), Base(c))
    ensures Typed(p, region, at, at + StmtSize(c, s)) && Starts(p, at, Base(c))
    decreases s, 1
  {
    hide OkAt, Typed, Starts, Located, Ready, CodeStmt, StmtSize, StmtOk, Base, BlockOk, ExprOk, CodeBlock, BlockSize,
         ExprSize;
    if Flat(s) {
      TypedFlat(p, region, main, c, s, at);
    } else if s.If? {
      IfBlocksOk(c, main, s);
      TypedBranching(p, region, main, c, s, at);
      var first := at + ExprSize(c.g, s.condition) + 1;
      TypedBlock(p, region, main, c, s.thenBranch, first);
      TypedBlock(p, region, main, c, s.elseBranch, first + BlockSize(c, s.thenBranch) + 1);
    } else if s.While? {
      TypedWhileTest(p, region, main, c, s, at);
      LoopBodyOk(c, main, s, at);
      var d := InLoop(c, at, at + StmtSize(c, s));
      BlockSizeInLoop(c, s.body, at, at + StmtSize(c, s));
      TypedBlock(p, region, main, d, s.body, at + ExprSize(c.g, s.condition) + 1);
    } else if s.Loop? {
      LoopParts(p, c, s, at);
      LoopBodyOk(c, main, s, at);
      var (d, end) := (InLoop(c, at, at + StmtSize(c, s)), at + StmtSize(c, s));
      BlockStarts(p, region, main, d, s.body, at);
      TypedBlock(p, region, main, d, s.body, at);
      TypedBranch(p, region, end - 1, Branch(at), Base(c));
      TypedSplit(p, region, at, end - 1, end);
    } else if s.Return? {
      TypedReturn(p, region, main, c, s, at);
    } else {
      TypedJump(p, region, main, c, s, at);
    }
  }

  lemma IfBlocksOk(c: Context, main: nat, s: Stmt)
    requires s.If? && StmtOk(c, main, s)
    ensures BlockOk(c, main, s.thenBranch) && BlockOk(c, main, s.elseBranch)
  {
  }

  lemma {:induction false} TypedBlock(p: seq<Cell>, region: Region, main: nat, c: Context, ss: seq<Stmt>, at: nat)
    requires ContextOk(p, region, main, c) && BlockOk(c, main, ss)
    requires Located(p, at, CodeBlock(c, ss, at)) && Starts(p, at + BlockSize(c, ss), Base(c))
    ensures Typed(p, region, at, at + BlockSize(c, ss)) && Starts(p, at, Base(c))
    decreases ss, 0
  {
    hide OkAt, Typed, Starts, Located, Ready, CodeStmt, StmtSize, StmtOk, Base, ContextOk;
    if ss == [] {
      TypedNothing(p, region, at, Base(c));
    } else {
      BlockParts(p, c, ss, at);
      var a := at + StmtSize(c, ss[0]);
      TypedBlock(p, region, main, c, ss[1..], a);
      TypedStmt(p, region, main, c, ss[0], at);
      TypedSplit(p, region, at, a, at + BlockSize(c, ss));
    }
  }
}
