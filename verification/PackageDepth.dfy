/** The depth limit of package resolution depends on the names of dependencies. */
module PackageDepth {
  import opened Packages

  /** The package at a distance from the root along the chain. */
  function Node(i: nat): (r: Root)
    ensures |r| == i
  {
    seq(i, _ => 'p')
  }

  /** The end of the chain, which the root also needs directly. */
  const LAST: nat := MAX_DEPENDENCY_DEPTH

  /** The dependencies of the root, visited by alias: the end of the chain first, or the chain first. */
  function Two(first: nat, second: nat): seq<Dependency>
  {
    [Dependency("a", Node(first)), Dependency("b", Node(second))]
  }

  function Dependencies(i: nat, endFirst: bool): seq<Dependency>
  {
    if i == 0 then if endFirst then Two(LAST, 1) else Two(1, LAST)
    else if i < LAST then [Dependency("a", Node(i + 1))]
    else []
  }

  function Roots(n: nat): set<Root>
  {
    set i | 0 <= i < n :: Node(i)
  }

  /** A root that needs the end of a chain of packages both directly and through the chain. */
  function Detour(endFirst: bool): World
  {
    map r | r in Roots(LAST + 1) :: Manifest(r, Dependencies(|r|, endFirst))
  }

  lemma InDetour(endFirst: bool, i: nat)
    requires i <= LAST
    ensures Node(i) in Detour(endFirst) && Detour(endFirst)[Node(i)] == Manifest(Node(i), Dependencies(i, endFirst))
  {
    assert Node(i) in Roots(LAST + 1);
  }

  lemma NodesOnly(endFirst: bool, r: Root)
    requires r in Detour(endFirst)
    ensures |r| <= LAST && r == Node(|r|)
  {
  }

  /** Every step goes on along the chain, or from the root to its end. */
  lemma Step(endFirst: bool, a: Root, b: Root)
    requires Needs(Detour(endFirst), a, b)
    ensures a == Node(|a|) && |a| < LAST && b in Detour(endFirst) && b == Node(|b|) && |b| <= LAST
    ensures |b| == |a| + 1 || (a == Node(0) && |b| == LAST)
  {
    NodesOnly(endFirst, a);
    InDetour(endFirst, |a|);
    InDetour(endFirst, 1);
    InDetour(endFirst, LAST);
    if 0 < |a| < LAST {
      InDetour(endFirst, |a| + 1);
    }
  }

  lemma {:induction false} Grows(endFirst: bool, p: seq<Root>)
    requires Chain(Detour(endFirst), p)
    ensures |p| - 1 + |p[0]| <= |p[|p| - 1]|
    ensures p[0] in Detour(endFirst) ==> p[|p| - 1] in Detour(endFirst)
    decreases p
  {
    if |p| > 1 {
      var (n, q) := (|p| - 1, p[..|p| - 1]);
      assert Needs(Detour(endFirst), p[n - 1], p[n]);
      assert forall i :: 0 <= i < n - 1 ==> Needs(Detour(endFirst), q[i], q[i + 1]);
      Grows(endFirst, q);
      Step(endFirst, p[n - 1], p[n]);
    }
  }

  lemma {:induction false} RootsCount(n: nat)
    ensures |Roots(n)| <= n
    decreases n
  {
    if n > 0 {
      RootsCount(n - 1);
      assert Roots(n) == Roots(n - 1) + {Node(n - 1)};
    } else {
      assert Roots(0) == {};
    }
  }

  lemma ReachableInside(endFirst: bool, b: Root)
    requires Reachable(Detour(endFirst), Node(0), b)
    ensures b in Detour(endFirst)
  {
    var p :| Leads(Detour(endFirst), p, Node(0), b);
    InDetour(endFirst, 0);
    Grows(endFirst, p);
  }

  /** Nothing but the depth can be wrong with it. */
  lemma OtherwiseSound(endFirst: bool)
    ensures var world := Detour(endFirst);
            !HasMissing(world, Node(0)) && !HasCycle(world, Node(0)) && !HasClash(world, Node(0))
                && !HasMany(world, Node(0))
  {
    var world := Detour(endFirst);
    forall b | Reachable(world, Node(0), b) ensures b in world && world[b].id == b {
      ReachableInside(endFirst, b);
    }
    forall b, p | Leads(world, p, b, b) ensures |p| <= 1 {
      Grows(endFirst, p);
    }
    forall s: set<Root> | forall b :: b in s ==> Reachable(world, Node(0), b) ensures |s| <= MAX_PACKAGES {
      assert s <= Roots(LAST + 1) by {
        forall b | b in s ensures b in Roots(LAST + 1) {
          ReachableInside(endFirst, b);
        }
      }
      Fewer(s, Roots(LAST + 1));
      RootsCount(LAST + 1);
    }
  }

  lemma Fewer(a: set<Root>, b: set<Root>)
    requires a <= b
    ensures |a| <= |b|
  {
    assert b == a + (b - a);
  }

  /** With the end first, its first chain has two packages and every other one stays below it. */
  lemma EndFirstShallow(p: seq<Root>)
    requires FirstChain(Detour(true), p) && p[0] == Node(0)
    ensures |p| <= MAX_DEPENDENCY_DEPTH
  {
    var b := p[|p| - 1];
    FirstIsChain(p);
    Grows(true, p);
    InDetour(true, 0);
    NodesOnly(true, b);
    if b == Node(LAST) {
      EndNext(p);
      var q := p[1..];
      forall i | 0 <= i < |q| - 1 ensures Needs(Detour(true), q[i], q[i + 1]) {
        assert q[i] == p[i + 1] && Needs(Detour(true), p[i + 1], p[i + 1 + 1]);
      }
      Grows(true, q);
    }
  }

  lemma EndNext(p: seq<Root>)
    requires FirstChain(Detour(true), p) && p[0] == Node(0) && p[|p| - 1] == Node(LAST)
    ensures |p| > 1 && p[1] == Node(LAST)
  {
    var world := Detour(true);
    assert |p| > 1 by { assert |p[0]| != |p[|p| - 1]|; }
    assert FirstStep(world, p[0], p[0 + 1], Node(LAST));
    InDetour(true, 0);
    var all := world[Node(0)].dependencies;
    assert all == Two(LAST, 1) && all[0].root == Node(LAST);
    ReachableSelf(world, Node(LAST));
    var j :| 0 <= j < |all| && all[j].root == p[1] && FirstTo(world, Node(0), j, Node(LAST));
    assert j == 0;
  }

  lemma FirstIsChain(p: seq<Root>)
    requires FirstChain(Detour(true), p)
    ensures Chain(Detour(true), p)
  {
    var world := Detour(true);
    forall i | 0 <= i < |p| - 1 ensures Needs(world, p[i], p[i + 1]) {
      assert FirstStep(world, p[i], p[i + 1], p[|p| - 1]);
    }
  }

  /** With the chain first, its end is come to through all of it. */
  lemma ChainFirstDeep()
    ensures HasDeep(Detour(false), Node(0))
  {
    var world := Detour(false);
    var p := seq(LAST + 1, i requires 0 <= i => Node(i));
    forall i | 0 <= i < |p| - 1 ensures FirstStep(world, p[i], p[i + 1], p[|p| - 1]) {
      InDetour(false, i);
      assert world[p[i]].dependencies[0].root == p[i + 1] && FirstTo(world, p[i], 0, p[|p| - 1]);
    }
    assert FirstChain(world, p) && p[0] == Node(0) && |p| > MAX_DEPENDENCY_DEPTH;
  }

  /** The same packages with the same dependencies, whose two names for the root's dependencies are exchanged: one
      graph resolves and the other is refused as too deep. */
  lemma NamesDecideDepth()
    ensures Detour(true).Keys == Detour(false).Keys
    ensures forall r :: r in Detour(true) && r != Node(0) ==> Detour(true)[r] == Detour(false)[r]
    ensures Node(0) in Detour(true) && Detour(true)[Node(0)].dependencies == Two(LAST, 1)
    ensures Detour(false)[Node(0)].dependencies == Two(1, LAST)
    ensures Resolvable(Detour(true), Node(0)) && HasDeep(Detour(false), Node(0)) && !Resolvable(Detour(false), Node(0))
  {
    InDetour(true, 0);
    InDetour(false, 0);
    OtherwiseSound(true);
    forall p | FirstChain(Detour(true), p) && p[0] == Node(0) ensures |p| <= MAX_DEPENDENCY_DEPTH {
      EndFirstShallow(p);
    }
    ChainFirstDeep();
    forall r | r in Detour(true) && r != Node(0) ensures Detour(true)[r] == Detour(false)[r] {
      NodesOnly(true, r);
    }
  }
}
