/**
 * Why the stack reserve is enough: the parser bounds how deeply an expression nests, and between two
 * nesting levels the precedence ladder pushes at most four operands.
 */
module Reserve {
  import opened Kinds
  import opened Source
  import opened Machine
  import opened CodeGen

  const MAX_EXPRESSION_DEPTH: nat := 32

  /** Rungs of the ladder, loosest first; operands of the tightest operators are unary. */
  const UNARY: nat := 6

  function Rank(e: Expr): (r: nat)
    ensures r <= UNARY
  {
    match e
    case Or(_, _) => 0
    case And(_, _) => 1
    case Compare(c, _, _, _) => if c == Equal || c == NotEqual then 2 else 3
    case Arithmetic(op, _, _, _) => if op == Add || op == Subtract then 4 else 5
    case _ => UNARY
  }

  /** Recursion levels the parser needs for an expression where an operand of the given rank is
      expected: binary operators associate to the left, and a looser one there needs parentheses. */
  function Nesting(e: Expr, rank: nat): nat
    decreases e, 1
  {
    var parentheses := if rank <= Rank(e) then 0 else 1;
    match e
    case Not(a) => 1 + Nesting(a, UNARY)
    case Negate(a) => 1 + Nesting(a, UNARY)
    case Arithmetic(_, _, a, b) => parentheses + Larger(Nesting(a, Rank(e)), Nesting(b, Rank(e) + 1))
    case Compare(_, _, a, b) => parentheses + Larger(Nesting(a, Rank(e)), Nesting(b, Rank(e) + 1))
    case And(a, b) => parentheses + Larger(Nesting(a, Rank(e)), Nesting(b, Rank(e) + 1))
    case Or(a, b) => parentheses + Larger(Nesting(a, Rank(e)), Nesting(b, Rank(e) + 1))
    case Call(_, arguments) => NestingAll(arguments)
    case _ => 0
  }

  /** Each argument is an expression of its own, one level down. */
  function NestingAll(es: seq<Expr>): nat
    decreases es, 0
  {
    if es == [] then 0 else Larger(1 + Nesting(es[0], 0), NestingAll(es[1..]))
  }

  /** What an operand of the given rank can hold besides its nested levels. */
  function Spine(rank: nat): nat
  {
    if rank <= 2 then 16 else if rank <= UNARY then 4 * (UNARY - rank) else 0
  }

  lemma {:induction false} TemporariesBound(e: Expr, rank: nat)
    ensures Temporaries(e) <= 16 * Nesting(e, rank) + Spine(rank)
    decreases e
  {
    if e.Not? || e.Negate? {
      TemporariesBound(e.operand, UNARY);
    } else if e.Arithmetic? || e.Compare? || e.And? || e.Or? {
      TemporariesBound(e.left, Rank(e));
      TemporariesBound(e.right, Rank(e) + 1);
      BinaryNesting(e, rank);
    }
  }

  lemma BinaryNesting(e: Expr, rank: nat)
    requires e.Arithmetic? || e.Compare? || e.And? || e.Or?
    requires Temporaries(e.left) <= 16 * Nesting(e.left, Rank(e)) + Spine(Rank(e))
    requires Temporaries(e.right) <= 16 * Nesting(e.right, Rank(e) + 1) + Spine(Rank(e) + 1)
    ensures Temporaries(e) <= 16 * Nesting(e, rank) + Spine(rank)
  {
  }

  /** Every expression the parser accepts stays within the reserve, and so do its arguments. */
  lemma {:induction false} ParsedFits(e: Expr, rank: nat)
    requires Nesting(e, rank) <= MAX_EXPRESSION_DEPTH
    ensures WithinReserve(e)
    decreases e, 1
  {
    TemporariesBound(e, rank);
    hide Temporaries;
    match e
    case Not(a) => ParsedFits(a, UNARY);
    case Negate(a) => ParsedFits(a, UNARY);
    case Arithmetic(_, _, a, b) => ParsedFits(a, Rank(e)); ParsedFits(b, Rank(e) + 1);
    case Compare(_, _, a, b) => ParsedFits(a, Rank(e)); ParsedFits(b, Rank(e) + 1);
    case And(a, b) => ParsedFits(a, Rank(e)); ParsedFits(b, Rank(e) + 1);
    case Or(a, b) => ParsedFits(a, Rank(e)); ParsedFits(b, Rank(e) + 1);
    case Call(_, arguments) => ParsedAllFit(arguments);
    case _ =>
  }

  lemma {:induction false} ParsedAllFit(es: seq<Expr>)
    requires NestingAll(es) <= MAX_EXPRESSION_DEPTH
    ensures AllWithinReserve(es)
    decreases es, 0
  {
    if es != [] {
      ParsedFits(es[0], 0);
      ParsedAllFit(es[1..]);
    }
  }

  // ----- statements -----

  /** The parser stops below the limit; folding a constant can then put one sign in front of a literal. */
  predicate Shallow(e: Expr)
  {
    Nesting(e, 0) <= MAX_EXPRESSION_DEPTH
  }

  predicate StmtShallow(s: Stmt)
    decreases s, 1
  {
    match s
    case Let(_, _, e) => Shallow(e)
    case Assign(_, _, _, e) => Shallow(e)
    case Print(e, _) => Shallow(e)
    case Perform(f, arguments) => Shallow(Call(f, arguments))
    case If(e, a, b) => Shallow(e) && BlockShallow(a) && BlockShallow(b)
    case While(e, body) => Shallow(e) && BlockShallow(body)
    case Loop(body) => BlockShallow(body)
    case Return(r) => r == [] || Shallow(r[0])
    case _ => true
  }

  predicate BlockShallow(ss: seq<Stmt>)
    decreases ss, 0
  {
    ss == [] || (StmtShallow(ss[0]) && BlockShallow(ss[1..]))
  }

  lemma {:induction false} StmtFits(s: Stmt)
    requires StmtShallow(s)
    ensures StmtWithin(s)
    decreases s, 1
  {
    hide Nesting, NestingAll, WithinReserve, AllWithinReserve;
    match s
    case Let(_, _, e) => ParsedFits(e, 0);
    case Assign(_, _, _, e) => ParsedFits(e, 0);
    case Print(e, _) => ParsedFits(e, 0);
    case Perform(f, arguments) => CallFits(f, arguments);
    case If(e, a, b) => ParsedFits(e, 0); BlockFits(a); BlockFits(b);
    case While(e, body) => ParsedFits(e, 0); BlockFits(body);
    case Loop(body) => BlockFits(body);
    case Return(r) => if r != [] { ParsedFits(r[0], 0); }
    case _ =>
  }

  lemma CallFits(f: string, arguments: seq<Expr>)
    requires Shallow(Call(f, arguments))
    ensures AllWithinReserve(arguments)
  {
    ParsedAllFit(arguments);
  }

  lemma {:induction false} BlockFits(ss: seq<Stmt>)
    requires BlockShallow(ss)
    ensures BlockWithin(ss)
    decreases ss, 0
  {
    if ss != [] {
      StmtFits(ss[0]);
      BlockFits(ss[1..]);
    }
  }
}
