/** Package resolution: a depth-first search over manifests with visiting and complete marks. */
module Packages {

  const MAX_PACKAGES: nat := 512
  const MAX_DEPENDENCY_DEPTH: nat := 128

  type Root = string
  type Identity = string

  /** `name@version`, and where each dependency alias points. */
  datatype Manifest = Manifest(id: Identity, dependencies: seq<Dependency>)

  datatype Dependency = Dependency(alias: string, root: Root)

  /** The packages that can be read, by canonical root. */
  type World = map<Root, Manifest>

  datatype Mark = Visiting | Complete

  datatype Resolved = Resolved(root: Root, dependencies: map<string, Identity>)

  datatype Failure = Missing | Cycle | TooMany | TooDeep | Clash

  datatype Outcome = Found(id: Identity) | Failed(why: Failure)

  // ----- the graph of packages -----

  predicate Needs(world: World, a: Root, b: Root)
  {
    a in world && exists i :: 0 <= i < |world[a].dependencies| && world[a].dependencies[i].root == b
  }

  predicate Chain(world: World, p: seq<Root>)
  {
    p != [] && forall i :: 0 <= i < |p| - 1 ==> Needs(world, p[i], p[i + 1])
  }

  predicate Leads(world: World, p: seq<Root>, a: Root, b: Root)
  {
    Chain(world, p) && p[0] == a && p[|p| - 1] == b
  }

  ghost predicate Reachable(world: World, a: Root, b: Root)
  {
    exists p :: Leads(world, p, a, b)
  }

  lemma ReachableSelf(world: World, a: Root)
    ensures Reachable(world, a, a)
  {
    assert Leads(world, [a], a, a);
  }

  lemma ChainExtends(world: World, p: seq<Root>, b: Root)
    requires Chain(world, p) && Needs(world, p[|p| - 1], b)
    ensures Leads(world, p + [b], p[0], b)
  {
    var q := p + [b];
    forall i | 0 <= i < |q| - 1 ensures Needs(world, q[i], q[i + 1]) {
      if i < |p| - 1 { assert q[i] == p[i] && q[i + 1] == p[i + 1]; }
    }
  }

  lemma {:induction false} ClosedContains(world: World, s: set<Root>, p: seq<Root>)
    requires Chain(world, p) && p[0] in s && forall a, b :: a in s && Needs(world, a, b) ==> b in s
    ensures forall i :: 0 <= i < |p| ==> p[i] in s
    decreases p
  {
    if |p| > 1 {
      assert Needs(world, p[0], p[1]);
      var q := p[1..];
      assert forall i :: 0 <= i < |q| ==> q[i] == p[i + 1];
      ClosedContains(world, s, q);
      assert forall i :: 0 < i < |p| ==> p[i] == q[i - 1];
    }
  }

  // ----- what can go wrong -----

  /** A package the root needs cannot be read. */
  ghost predicate HasMissing(world: World, root: Root)
  {
    exists b :: Reachable(world, root, b) && b !in world
  }

  ghost predicate HasCycle(world: World, root: Root)
  {
    exists b, p :: Reachable(world, root, b) && Leads(world, p, b, b) && |p| > 1
  }

  /** Two needed packages claim the same identity. */
  ghost predicate HasClash(world: World, root: Root)
  {
    exists a, b ::
      Reachable(world, root, a) && Reachable(world, root, b) && a != b && a in world && b in world
      && world[a].id == world[b].id
  }

  ghost predicate HasMany(world: World, root: Root)
  {
    exists s: set<Root> :: |s| > MAX_PACKAGES && forall b :: b in s ==> Reachable(world, root, b)
  }

  /** The dependency at the index is the first that leads to `b`. */
  ghost predicate FirstTo(world: World, a: Root, j: nat, b: Root)
    requires a in world && j < |world[a].dependencies|
  {
    forall k :: 0 <= k < j ==> !Reachable(world, world[a].dependencies[k].root, b)
  }

  /** The next package of a chain is the first dependency that leads to `b`. */
  ghost predicate FirstStep(world: World, a: Root, next: Root, b: Root)
  {
    a in world
        && exists j ::
          0 <= j < |world[a].dependencies| && world[a].dependencies[j].root == next && FirstTo(world, a, j, b)
  }

  /** The chain that follows, at every package, the first dependency leading to its end: how a search in
      the order of the dependencies first comes to that package. */
  ghost predicate FirstChain(world: World, p: seq<Root>)
  {
    p != [] && forall i :: 0 <= i < |p| - 1 ==> FirstStep(world, p[i], p[i + 1], p[|p| - 1])
  }

  /** Some needed package is first come to through too many others. */
  ghost predicate HasDeep(world: World, root: Root)
  {
    exists p :: FirstChain(world, p) && p[0] == root && |p| > MAX_DEPENDENCY_DEPTH
  }

  ghost predicate Explains(world: World, root: Root, why: Failure)
  {
    match why
    case Missing => HasMissing(world, root)
    case Cycle => HasCycle(world, root)
    case Clash => HasClash(world, root)
    case TooMany => HasMany(world, root)
    case TooDeep => HasDeep(world, root)
  }

  /** Nothing is wrong with what the root needs. */
  ghost predicate Resolvable(world: World, root: Root)
  {
    !HasMissing(world, root) && !HasCycle(world, root) && !HasClash(world, root) && !HasMany(world, root)
        && !HasDeep(world, root)
  }

  // ----- the search -----

  /** What a completed package resolves to. */
  ghost predicate ResolvedAs(world: World, root: Root, r: Resolved)
    requires root in world
  {
    && r.root == root
    && (forall d :: d in world[root].dependencies ==> d.root in world && d.alias in r.dependencies)
    && forall a :: a in r.dependencies ==>
         exists d ::
           d in world[root].dependencies && d.alias == a && d.root in world && r.dependencies[a] == world[d.root].id
  }

  /** Completed packages in completion order: everything they need was completed before. */
  ghost predicate Settled(world: World, order: seq<Root>)
  {
    && (forall i, j :: 0 <= i < j < |order| ==> order[i] != order[j])
    && forall i ::
      0 <= i < |order| ==> order[i] in world && forall d :: d in world[order[i]].dependencies ==> d.root in order[..i]
  }

  ghost predicate Marks(visits: map<Root, Mark>, stack: seq<Root>, order: seq<Root>)
  {
    && (forall p :: p in visits <==> p in stack || p in order)
    && (forall p :: p in visits ==> (visits[p] == Complete <==> p in order))
    && (forall p :: p in stack ==> p !in order)
    && (forall i, j :: 0 <= i < j < |stack| ==> stack[i] != stack[j])
  }

  /** Identities and roots correspond one to one for everything seen. */
  ghost predicate Named(world: World, visits: map<Root, Mark>, paths: map<Root, Identity>,
                        identities: map<Identity, Root>)
  {
    && paths.Keys == visits.Keys
    && (forall p ::
          p in visits ==>
            p in world && paths[p] == world[p].id && world[p].id in identities && identities[world[p].id] == p)
    && (forall id :: id in identities ==> identities[id] in visits && world[identities[id]].id == id)
  }

  ghost predicate Kept(world: World, order: seq<Root>, packages: map<Identity, Resolved>)
  {
    && (forall p :: p in order ==> p in world && world[p].id in packages && ResolvedAs(world, p, packages[world[p].id]))
    && (forall id ::
          id in packages ==>
            packages[id].root in order && packages[id].root in world && world[packages[id].root].id == id)
  }

  /** Everything the resolver keeps, with the completion order. */
  datatype Books = Books(packages: map<Identity, Resolved>, paths: map<Root, Identity>, identities: map<Identity, Root>,
                         visits: map<Root, Mark>, stack: seq<Root>, order: seq<Root>)

  /** A dependency of `a` all earlier ones of which are completed. */
  ghost predicate Leftmost(world: World, order: seq<Root>, a: Root, next: Root)
  {
    && a in world
    && exists j ::
      0 <= j < |world[a].dependencies| && world[a].dependencies[j].root == next && EarlierDone(world, order, a, j)
  }

  predicate EarlierDone(world: World, order: seq<Root>, a: Root, j: nat)
    requires a in world && j < |world[a].dependencies|
  {
    forall k :: 0 <= k < j ==> world[a].dependencies[k].root in order
  }

  ghost predicate LeftmostStack(world: World, order: seq<Root>, stack: seq<Root>)
  {
    forall i :: 0 <= i < |stack| - 1 ==> Leftmost(world, order, stack[i], stack[i + 1])
  }

  /** A package is come to within the depth limit. */
  ghost predicate Shallow(world: World, top: Root, b: Root)
  {
    exists p :: FirstChain(world, p) && p[0] == top && p[|p| - 1] == b && |p| <= MAX_DEPENDENCY_DEPTH
  }

  ghost predicate Sound(world: World, top: Root, b: Books)
  {
    && LeftmostStack(world, b.order, b.stack) && (forall p :: p in b.visits ==> Shallow(world, top, p))
    && Marks(b.visits, b.stack, b.order) && Named(world, b.visits, b.paths, b.identities)
    && Settled(world, b.order) && Kept(world, b.order, b.packages)
    && (forall p :: p in b.visits ==> Reachable(world, top, p))
    && (b.stack != [] ==> Chain(world, b.stack) && b.stack[0] == top)
    && |b.visits| <= MAX_PACKAGES && |b.stack| <= MAX_DEPENDENCY_DEPTH
  }

  /** A package requested by the one being visited; the first request is for the root itself. */
  ghost predicate Requested(world: World, top: Root, b: Books, root: Root)
  {
    if b.stack == [] then root == top else Leftmost(world, b.order, b.stack[|b.stack| - 1], root)
  }

  lemma RequestedReachable(world: World, top: Root, b: Books, root: Root)
    requires Sound(world, top, b) && Requested(world, top, b, root)
    ensures Reachable(world, top, root) && Chain(world, b.stack + [root]) && (b.stack + [root])[0] == top
  {
    hide Marks, Named, Settled, Kept, LeftmostStack, Shallow;
    if b.stack == [] {
      ReachableSelf(world, top);
    } else {
      ChainExtends(world, b.stack, root);
    }
  }

  /** Whatever a completed package needs, directly or not, is completed. */
  lemma SettledClosed(world: World, order: seq<Root>, a: Root, b: Root)
    requires Settled(world, order) && a in order && Reachable(world, a, b)
    ensures b in order
  {
    var chain :| Leads(world, chain, a, b);
    var s := set x | x in order;
    forall x, y | x in s && Needs(world, x, y) ensures y in s {
      var i :| 0 <= i < |order| && order[i] == x;
      var k :| 0 <= k < |world[x].dependencies| && world[x].dependencies[k].root == y;
      assert world[x].dependencies[k] in world[x].dependencies;
      assert y in order[..i];
    }
    ClosedContains(world, s, chain);
  }

  /** A dependency whose predecessors are all completed is the first to lead to a package that is not. */
  lemma LeftmostFirst(world: World, order: seq<Root>, a: Root, next: Root, b: Root)
    requires Settled(world, order) && Leftmost(world, order, a, next) && b !in order
    ensures FirstStep(world, a, next, b)
  {
    hide Settled, Reachable;
    var j :| 0 <= j < |world[a].dependencies| && world[a].dependencies[j].root == next
        && EarlierDone(world, order, a, j);
    forall k | 0 <= k < j ensures !Reachable(world, world[a].dependencies[k].root, b) {
      if Reachable(world, world[a].dependencies[k].root, b) {
        SettledClosed(world, order, world[a].dependencies[k].root, b);
      }
    }
    assert FirstTo(world, a, j, b);
  }

  /** The stack and the package requested are the first chain to it. */
  lemma RequestedFirst(world: World, top: Root, b: Books, root: Root)
    requires Sound(world, top, b) && Requested(world, top, b, root) && root !in b.visits
    ensures FirstChain(world, b.stack + [root])
  {
    var p := b.stack + [root];
    assert root !in b.order;
    hide Marks, Named, Settled, Kept, Leftmost, FirstStep, Shallow;
    forall i | 0 <= i < |p| - 1 ensures FirstStep(world, p[i], p[i + 1], root) {
      assert Leftmost(world, b.order, p[i], p[i + 1]) by {
        if i < |b.stack| - 1 { assert p[i] == b.stack[i] && p[i + 1] == b.stack[i + 1]; }
      }
      LeftmostFirst(world, b.order, p[i], p[i + 1], root);
    }
  }

  lemma ChainFrom(world: World, p: seq<Root>, k: nat)
    requires Chain(world, p) && k < |p|
    ensures Chain(world, p[k..])
  {
    hide Needs;
    var q := p[k..];
    forall i | 0 <= i < |q| - 1 ensures Needs(world, q[i], q[i + 1]) {
      assert Needs(world, p[k + i], p[k + i + 1]);
    }
  }

  lemma VisitingOnStack(b: Books, root: Root) returns (k: nat)
    requires Marks(b.visits, b.stack, b.order) && root in b.visits && b.visits[root] == Visiting
    ensures k < |b.stack| && b.stack[k] == root
  {
    k :| 0 <= k < |b.stack| && b.stack[k] == root;
  }

  lemma VisitingIsCycle(world: World, top: Root, b: Books, root: Root)
    requires Sound(world, top, b) && Requested(world, top, b, root) && root in b.visits && b.visits[root] == Visiting
    ensures HasCycle(world, top)
  {
    hide Marks, Named, Settled, Kept, Chain, LeftmostStack, Shallow, Reachable, Leftmost;
    var k := VisitingOnStack(b, root);
    RequestedReachable(world, top, b, root);
    var p := (b.stack + [root])[k..];
    ChainFrom(world, b.stack + [root], k);
    assert Leads(world, p, root, root) && |p| > 1;
  }

  lemma FullIsMany(world: World, top: Root, b: Books, root: Root)
    requires Sound(world, top, b) && Requested(world, top, b, root) && root !in b.visits && |b.visits| >= MAX_PACKAGES
    ensures HasMany(world, top)
  {
    hide Marks, Named, Settled, Kept;
    RequestedReachable(world, top, b, root);
    var s := b.visits.Keys + {root};
    assert |s| == |b.visits.Keys| + 1 && |b.visits.Keys| == |b.visits|;
    assert forall x :: x in s ==> Reachable(world, top, x);
  }

  lemma LongIsDeep(world: World, top: Root, b: Books, root: Root)
    requires Sound(world, top, b) && Requested(world, top, b, root) && root !in b.visits
             && |b.stack| >= MAX_DEPENDENCY_DEPTH
    ensures HasDeep(world, top)
  {
    hide Marks, Named, Settled, Kept, FirstChain, LeftmostStack, Shallow;
    RequestedReachable(world, top, b, root);
    RequestedFirst(world, top, b, root);
    assert |b.stack + [root]| > MAX_DEPENDENCY_DEPTH;
  }

  lemma SharedIsClash(world: World, top: Root, b: Books, root: Root)
    requires Sound(world, top, b) && Requested(world, top, b, root) && root in world
    requires world[root].id in b.identities && b.identities[world[root].id] != root
    ensures HasClash(world, top)
  {
    hide Marks, Settled, Kept;
    RequestedReachable(world, top, b, root);
    var other := b.identities[world[root].id];
    assert other in b.visits;
  }

  function Begun(b: Books, root: Root, id: Identity): Books
  {
    b.(paths := b.paths[root := id], identities := b.identities[id := root], visits := b.visits[root := Visiting],
       stack := b.stack + [root])
  }

  lemma Begins(world: World, top: Root, b: Books, root: Root)
    requires Sound(world, top, b) && Requested(world, top, b, root) && root !in b.visits && root in world
    requires |b.visits| < MAX_PACKAGES && |b.stack| < MAX_DEPENDENCY_DEPTH
    requires world[root].id in b.identities ==> b.identities[world[root].id] == root
    ensures Sound(world, top, Begun(b, root, world[root].id))
  {
    hide Marks, Named, Settled, Kept, FirstChain, Leftmost;
    RequestedReachable(world, top, b, root);
    RequestedFirst(world, top, b, root);
    var c := Begun(b, root, world[root].id);
    BeginMarks(b, root);
    BeginNames(world, b, root);
    assert |c.visits| == |b.visits| + 1;
    assert Shallow(world, top, root) by { assert (b.stack + [root])[|b.stack|] == root; }
    forall i | 0 <= i < |c.stack| - 1 ensures Leftmost(world, c.order, c.stack[i], c.stack[i + 1]) {
      if i < |b.stack| - 1 { assert c.stack[i] == b.stack[i] && c.stack[i + 1] == b.stack[i + 1]; }
    }
  }

  lemma BeginMarks(b: Books, root: Root)
    requires Marks(b.visits, b.stack, b.order) && root !in b.visits
    ensures Marks(b.visits[root := Visiting], b.stack + [root], b.order)
  {
    assert root !in b.stack && root !in b.order;
    var stack := b.stack + [root];
    forall i, j | 0 <= i < j < |stack| ensures stack[i] != stack[j] {
      if j == |b.stack| { assert stack[i] in b.stack; }
    }
  }

  lemma BeginNames(world: World, b: Books, root: Root)
    requires Named(world, b.visits, b.paths, b.identities) && root !in b.visits && root in world
    requires world[root].id in b.identities ==> b.identities[world[root].id] == root
    ensures var c := Begun(b, root, world[root].id); Named(world, c.visits, c.paths, c.identities)
  {
    var id := world[root].id;
    assert id !in b.identities;
    assert forall p :: p in b.visits ==> world[p].id != id;
  }

  function Completed(b: Books, root: Root, id: Identity, dependencies: map<string, Identity>): Books
    requires b.stack != []
  {
    b.(packages := b.packages[id := Resolved(root, dependencies)], visits := b.visits[root := Complete],
       stack := b.stack[..|b.stack| - 1], order := b.order + [root])
  }

  lemma Completes(world: World, top: Root, b: Books, root: Root, dependencies: map<string, Identity>)
    requires Sound(world, top, b) && b.stack != [] && b.stack[|b.stack| - 1] == root && root in world
    requires forall d :: d in world[root].dependencies ==> d.root in b.order
    requires ResolvedAs(world, root, Resolved(root, dependencies))
    ensures Sound(world, top, Completed(b, root, world[root].id, dependencies))
  {
    hide Marks, Named, Settled, Kept, ResolvedAs, Reachable, Chain, LeftmostStack, Shallow;
    TopMarked(b, root);
    CompleteMarks(b, root);
    CompleteNames(world, b, root);
    CompleteSettles(world, b, root);
    CompleteKeeps(world, b, root, dependencies);
    CompleteLeftmost(world, b.order, b.stack, root);
    assert b.visits[root := Complete].Keys == b.visits.Keys;
    assert |b.visits[root := Complete]| == |b.visits[root := Complete].Keys| == |b.visits.Keys|;
    if |b.stack| > 1 {
      ChainShorter(world, b.stack);
    }
  }

  lemma TopMarked(b: Books, root: Root)
    requires Marks(b.visits, b.stack, b.order) && b.stack != [] && b.stack[|b.stack| - 1] == root
    ensures root in b.visits && root !in b.order && forall p :: p in b.order ==> p in b.visits
  {
    assert root in b.stack;
  }

  lemma ChainShorter(world: World, p: seq<Root>)
    requires Chain(world, p) && |p| > 1
    ensures Chain(world, p[..|p| - 1]) && p[..|p| - 1][0] == p[0]
  {
    hide Needs;
    var q := p[..|p| - 1];
    forall i | 0 <= i < |q| - 1 ensures Needs(world, q[i], q[i + 1]) {
      assert Needs(world, p[i], p[i + 1]);
    }
  }

  lemma CompleteLeftmost(world: World, order: seq<Root>, stack: seq<Root>, root: Root)
    requires LeftmostStack(world, order, stack) && stack != []
    ensures LeftmostStack(world, order + [root], stack[..|stack| - 1])
  {
    hide Leftmost;
    var shorter := stack[..|stack| - 1];
    forall i | 0 <= i < |shorter| - 1 ensures Leftmost(world, order + [root], shorter[i], shorter[i + 1]) {
      assert Leftmost(world, order, stack[i], stack[i + 1]);
      LeftmostGrows(world, order, order + [root], stack[i], stack[i + 1]);
    }
  }

  lemma LeftmostGrows(world: World, order: seq<Root>, longer: seq<Root>, a: Root, next: Root)
    requires Leftmost(world, order, a, next) && order <= longer
    ensures Leftmost(world, longer, a, next)
  {
    var j :| 0 <= j < |world[a].dependencies| && world[a].dependencies[j].root == next
        && EarlierDone(world, order, a, j);
    forall k | 0 <= k < j ensures world[a].dependencies[k].root in longer {
      var n :| 0 <= n < |order| && order[n] == world[a].dependencies[k].root;
      assert longer[n] == order[n];
    }
    assert EarlierDone(world, longer, a, j);
  }

  lemma CompleteNames(world: World, b: Books, root: Root)
    requires Named(world, b.visits, b.paths, b.identities) && root in b.visits
    ensures Named(world, b.visits[root := Complete], b.paths, b.identities)
  {
    assert b.visits[root := Complete].Keys == b.visits.Keys;
  }

  lemma SoundBounded(world: World, top: Root, b: Books)
    requires Sound(world, top, b)
    ensures |b.visits| <= MAX_PACKAGES
  {
  }

  lemma CompleteMarks(b: Books, root: Root)
    requires Marks(b.visits, b.stack, b.order) && b.stack != [] && b.stack[|b.stack| - 1] == root
    ensures Marks(b.visits[root := Complete], b.stack[..|b.stack| - 1], b.order + [root])
  {
    var (stack, order) := (b.stack[..|b.stack| - 1], b.order + [root]);
    assert root in b.stack && b.stack == stack + [root];
    forall k | 0 <= k < |stack| ensures stack[k] != root {
      assert stack[k] == b.stack[k];
    }
    assert forall p :: p in order <==> p in b.order || p == root;
    assert forall p :: p in b.stack <==> p in stack || p == root;
  }

  lemma CompleteSettles(world: World, b: Books, root: Root)
    requires Settled(world, b.order) && root !in b.order && root in world
             && forall d :: d in world[root].dependencies ==> d.root in b.order
    ensures Settled(world, b.order + [root])
  {
    var order := b.order + [root];
    forall i | 0 <= i < |order| ensures order[i] in world
        && forall d :: d in world[order[i]].dependencies ==> d.root in order[..i] {
      if i < |b.order| {
        assert order[i] == b.order[i] && order[..i] == b.order[..i];
      } else {
        assert order[..i] == b.order;
      }
    }
    assert forall i :: 0 <= i < |b.order| ==> b.order[i] in b.order;
  }

  lemma CompleteKeeps(world: World, b: Books, root: Root, dependencies: map<string, Identity>)
    requires Kept(world, b.order, b.packages) && Named(world, b.visits, b.paths, b.identities) && root in b.visits
             && root in world
    requires (forall p :: p in b.order ==> p in b.visits) && root !in b.order
             && ResolvedAs(world, root, Resolved(root, dependencies))
    ensures Kept(world, b.order + [root], b.packages[world[root].id := Resolved(root, dependencies)])
  {
    var id := world[root].id;
    assert forall p :: p in b.order ==> world[p].id != id;
    assert forall p :: p in b.order + [root] <==> p in b.order || p == root;
  }

  lemma AlreadyThere(world: World, top: Root, b: Books, root: Root)
    requires Sound(world, top, b) && root in b.visits && b.visits[root] == Complete
    ensures root in b.order && root in world && root in b.paths && b.paths[root] == world[root].id
  {
  }

  lemma AbsentIsMissing(world: World, top: Root, b: Books, root: Root)
    requires Sound(world, top, b) && Requested(world, top, b, root) && root !in world
    ensures HasMissing(world, top)
  {
    RequestedReachable(world, top, b, root);
  }

  lemma DependencyRequested(world: World, top: Root, b: Books, root: Root, i: nat)
    requires root in world && i < |world[root].dependencies| && b.stack != [] && b.stack[|b.stack| - 1] == root
    requires forall j :: 0 <= j < i ==> world[root].dependencies[j].root in b.order
    ensures Requested(world, top, b, world[root].dependencies[i].root)
  {
    assert EarlierDone(world, b.order, root, i);
  }

  lemma {:induction false} Grown(a: set<Root>, b: set<Root>)
    requires a <= b
    ensures |a| <= |b|
    decreases a
  {
    if a != {} {
      var x :| x in a;
      Grown(a - {x}, b - {x});
    }
  }

  /** The dependency table after the first `n` dependencies. */
  ghost predicate Gathered(world: World, needed: seq<Dependency>, n: nat, m: map<string, Identity>)
    requires n <= |needed|
  {
    && (forall j :: 0 <= j < n ==> needed[j].root in world && needed[j].alias in m)
    && forall a :: a in m ==> exists j ::
      0 <= j < n && needed[j].alias == a && needed[j].root in world && m[a] == world[needed[j].root].id
  }

  lemma GatheredNone(world: World, needed: seq<Dependency>)
    ensures Gathered(world, needed, 0, map[])
  {
  }

  lemma GatheredNext(world: World, needed: seq<Dependency>, n: nat, m: map<string, Identity>)
    requires n < |needed| && Gathered(world, needed, n, m) && needed[n].root in world
    ensures Gathered(world, needed, n + 1, m[needed[n].alias := world[needed[n].root].id])
  {
    var m' := m[needed[n].alias := world[needed[n].root].id];
    forall a | a in m' ensures exists j ::
      0 <= j < n + 1 && needed[j].alias == a && needed[j].root in world && m'[a] == world[needed[j].root].id {
      if a == needed[n].alias {
        assert needed[n].alias == a;
      } else {
        var j :| 0 <= j < n && needed[j].alias == a && needed[j].root in world && m[a] == world[needed[j].root].id;
      }
    }
  }

  lemma GatheredAll(world: World, root: Root, m: map<string, Identity>)
    requires root in world && Gathered(world, world[root].dependencies, |world[root].dependencies|, m)
    ensures ResolvedAs(world, root, Resolved(root, m))
  {
    var needed := world[root].dependencies;
    forall a | a in m ensures exists d :: d in needed && d.alias == a && d.root in world && m[a] == world[d.root].id {
      var j :| 0 <= j < |needed| && needed[j].alias == a && needed[j].root in world && m[a] == world[needed[j].root].id;
      assert needed[j] in needed;
    }
  }

  class Resolver {
    const world: World
    ghost const top: Root
    var packages: map<Identity, Resolved>
    var paths: map<Root, Identity>
    var identities: map<Identity, Root>
    var visits: map<Root, Mark>
    var stack: seq<Root>
    ghost var order: seq<Root>

    constructor (world: World, ghost top: Root)
      ensures this.world == world && this.top == top && State() == Books(map[], map[], map[], map[], [], [])
    {
      this.world, this.top := world, top;
      packages, paths, identities, visits, stack, order := map[], map[], map[], map[], [], [];
    }

    ghost function State(): Books
      reads this
    {
      Books(packages, paths, identities, visits, stack, order)
    }

    /** Resolves a package and everything it needs. */
    method Visit(root: Root) returns (r: Outcome)
      requires Sound(world, top, State()) && Requested(world, top, State(), root)
      modifies this
      ensures r.Failed? ==> Explains(world, top, r.why)
      ensures r.Found? ==>
                Sound(world, top, State()) && stack == old(stack) && old(visits.Keys) <= visits.Keys
                && old(order) <= order
      ensures r.Found? ==> root in order && root in world && r.id == world[root].id
      decreases MAX_PACKAGES - |visits|, 0
    {
      hide Sound, HasCycle, HasMany, HasDeep, HasClash, HasMissing, Requested;
      ghost var b := State();
      if root in visits {
        if visits[root] == Complete {
          AlreadyThere(world, top, b, root);
          return Found(paths[root]);
        }
        VisitingIsCycle(world, top, b, root);
        return Failed(Cycle);
      }
      if |visits| >= MAX_PACKAGES {
        FullIsMany(world, top, b, root);
        return Failed(TooMany);
      }
      if |stack| >= MAX_DEPENDENCY_DEPTH {
        LongIsDeep(world, top, b, root);
        return Failed(TooDeep);
      }
      if root !in world {
        AbsentIsMissing(world, top, b, root);
        return Failed(Missing);
      }
      var id := world[root].id;
      if id in identities && identities[id] != root {
        SharedIsClash(world, top, b, root);
        return Failed(Clash);
      }
      Begins(world, top, b, root);
      visits := visits[root := Visiting];
      stack := stack + [root];
      identities := identities[id := root];
      paths := paths[root := id];
      assert State() == Begun(b, root, id);
      assert |visits| == |old(visits)| + 1;
      r := VisitDependencies(root, id);
    }

    /** The dependencies of the package on top of the stack, then the package itself. */
    method VisitDependencies(root: Root, id: Identity) returns (r: Outcome)
      requires Sound(world, top, State()) && root in world && id == world[root].id && stack != []
               && stack[|stack| - 1] == root
      modifies this
      ensures r.Failed? ==> Explains(world, top, r.why)
      ensures r.Found? ==>
                Sound(world, top, State()) && stack == old(stack)[..|old(stack)| - 1] && old(visits.Keys) <= visits.Keys
                && old(order) <= order
      ensures r.Found? ==> root in order && r.id == id
      decreases MAX_PACKAGES - |visits|, 2
    {
      hide Sound, Explains, ResolvedAs;
      var dependencies;
      r, dependencies := Gather(root);
      if r.Failed? { return; }
      ghost var b := State();
      Completes(world, top, b, root, dependencies);
      stack := stack[..|stack| - 1];
      visits := visits[root := Complete];
      packages := packages[id := Resolved(root, dependencies)];
      order := order + [root];
      assert State() == Completed(b, root, id, dependencies);
      r := Found(id);
    }

    /** Visits the dependencies in the order of their aliases and collects their identities. */
    method Gather(root: Root) returns (r: Outcome, dependencies: map<string, Identity>)
      requires Sound(world, top, State()) && root in world && stack != [] && stack[|stack| - 1] == root
      modifies this
      ensures r.Failed? ==> Explains(world, top, r.why)
      ensures r.Found? ==>
                Sound(world, top, State()) && stack == old(stack) && old(visits.Keys) <= visits.Keys
                && old(order) <= order
      ensures r.Found? ==>
                ResolvedAs(world, root, Resolved(root, dependencies))
                && forall d :: d in world[root].dependencies ==> d.root in order
      decreases MAX_PACKAGES - |visits|, 1
    {
      hide Sound, Explains, Requested, Gathered, ResolvedAs;
      var needed := world[root].dependencies;
      dependencies := map[];
      var i := 0;
      GatheredNone(world, needed);
      while i < |needed|
        invariant 0 <= i <= |needed| && Sound(world, top, State()) && stack == old(stack)
                  && old(visits.Keys) <= visits.Keys && old(order) <= order
        invariant Gathered(world, needed, i, dependencies)
        invariant forall j :: 0 <= j < i ==> needed[j].root in order
        decreases |needed| - i
      {
        DependencyRequested(world, top, State(), root, i);
        SoundBounded(world, top, State());
        Grown(old(visits.Keys), visits.Keys);
        assert |visits.Keys| == |visits| && |old(visits.Keys)| == |old(visits)|;
        r := Visit(needed[i].root);
        if r.Failed? { return; }
        GatheredNext(world, needed, i, dependencies);
        dependencies := dependencies[needed[i].alias := r.id];
        i := i + 1;
      }
      GatheredAll(world, root, dependencies);
      r := Found("");
    }
  }

  // ----- whole resolutions -----

  /** The packages resolved are exactly the needed ones, under one identity each, and nothing went wrong. */
  ghost predicate Complete'(world: World, root: Root, packages: map<Identity, Resolved>)
  {
    && (forall p ::
          Reachable(world, root, p) ==>
            p in world && world[p].id in packages && ResolvedAs(world, p, packages[world[p].id]))
    && (forall id :: id in packages ==> Reachable(world, root, packages[id].root))
    && forall id :: id in packages ==> packages[id].root in world && world[packages[id].root].id == id
  }

  lemma {:induction false} ChainDescends(world: World, order: seq<Root>, p: seq<Root>, i: nat)
    requires Settled(world, order) && Chain(world, p) && i < |order| && p[0] == order[i]
    ensures |p| > 1 ==> p[|p| - 1] in order[..i]
    decreases p
  {
    if |p| > 1 {
      assert Needs(world, p[0], p[1]);
      var k :| 0 <= k < |world[p[0]].dependencies| && world[p[0]].dependencies[k].root == p[1];
      assert world[p[0]].dependencies[k] in world[p[0]].dependencies;
      var j :| 0 <= j < i && order[j] == p[1];
      var q := p[1..];
      assert forall n :: 0 <= n < |q| ==> q[n] == p[n + 1];
      ChainDescends(world, order, q, j);
      if |q| > 1 { assert q[|q| - 1] in order[..j]; assert order[..j] <= order[..i]; }
    }
  }

  lemma SettledAcyclic(world: World, root: Root, order: seq<Root>)
    requires Settled(world, order) && forall p :: Reachable(world, root, p) ==> p in order
    ensures !HasCycle(world, root)
  {
    hide Settled, Reachable;
    forall b, p | Reachable(world, root, b) && Leads(world, p, b, b) ensures |p| <= 1 {
      var i :| 0 <= i < |order| && order[i] == b;
      if |p| > 1 {
        ChainDescends(world, order, p, i);
        NoEarlier(world, order, i);
      }
    }
  }

  lemma NoEarlier(world: World, order: seq<Root>, i: nat)
    requires Settled(world, order) && i < |order|
    ensures order[i] !in order[..i]
  {
  }

  /** Everything reachable was completed, so the resolution is complete and sound. */
  lemma Concludes(world: World, root: Root, b: Books)
    requires Sound(world, root, b) && b.stack == [] && root in b.order
    ensures Complete'(world, root, b.packages)
    ensures Resolvable(world, root)
  {
    forall p | Reachable(world, root, p) ensures p in b.order {
      OrderClosed(world, root, b, p);
    }
    assert forall p :: p in b.order ==> p in b.visits && Reachable(world, root, p);
    hide Marks, Named, Settled, Kept, Reachable, Shallow, HasDeep, LeftmostStack;
    SettledAcyclic(world, root, b.order);
    NoClash(world, root, b);
    AllKept(world, root, b.order, b.packages);
    assert |b.visits.Keys| == |b.visits|;
    NotMany(world, root, b.visits.Keys);
    NotDeep(world, root, b.visits);
  }

  lemma NoClash(world: World, root: Root, b: Books)
    requires Named(world, b.visits, b.paths, b.identities) && forall p :: Reachable(world, root, p) ==> p in b.visits
    ensures !HasClash(world, root)
  {
    hide Reachable;
  }

  lemma AllKept(world: World, root: Root, order: seq<Root>, packages: map<Identity, Resolved>)
    requires Kept(world, order, packages) && forall p :: p in order <==> Reachable(world, root, p)
    ensures Complete'(world, root, packages) && !HasMissing(world, root)
  {
    hide Reachable, ResolvedAs;
  }

  lemma NotMany(world: World, root: Root, all: set<Root>)
    requires |all| <= MAX_PACKAGES && forall p :: Reachable(world, root, p) ==> p in all
    ensures !HasMany(world, root)
  {
    hide Reachable;
    forall s: set<Root> | forall x :: x in s ==> Reachable(world, root, x) ensures |s| <= MAX_PACKAGES {
      Grown(s, all);
    }
  }

  lemma FirstLeads(world: World, p: seq<Root>)
    requires FirstChain(world, p)
    ensures Chain(world, p)
  {
    forall i | 0 <= i < |p| - 1 ensures Needs(world, p[i], p[i + 1]) {
      assert FirstStep(world, p[i], p[i + 1], p[|p| - 1]);
    }
  }

  lemma FirstTail(world: World, p: seq<Root>)
    requires FirstChain(world, p) && |p| > 1
    ensures FirstChain(world, p[1..]) && p[1..][|p| - 2] == p[|p| - 1] && Reachable(world, p[1], p[|p| - 1])
  {
    var q := p[1..];
    forall i | 0 <= i < |q| - 1 ensures FirstStep(world, q[i], q[i + 1], q[|q| - 1]) {
      assert FirstStep(world, p[i + 1], p[i + 2], p[|p| - 1]);
    }
    FirstLeads(world, q);
    assert Leads(world, q, p[1], p[|p| - 1]);
  }

  lemma SameFirstStep(world: World, a: Root, x: Root, y: Root, b: Root)
    requires FirstStep(world, a, x, b) && FirstStep(world, a, y, b) && Reachable(world, x, b) && Reachable(world, y, b)
    ensures x == y
  {
    hide Reachable;
    var i :| 0 <= i < |world[a].dependencies| && world[a].dependencies[i].root == x && FirstTo(world, a, i, b);
    var j :| 0 <= j < |world[a].dependencies| && world[a].dependencies[j].root == y && FirstTo(world, a, j, b);
  }

  /** Without cycles there is one first chain to a package. */
  lemma {:induction false} FirstChainUnique(world: World, root: Root, p: seq<Root>, q: seq<Root>)
    requires FirstChain(world, p) && FirstChain(world, q) && p[0] == q[0] && p[|p| - 1] == q[|q| - 1]
    requires !HasCycle(world, root) && Reachable(world, root, p[0])
    ensures p == q
    decreases p
  {
    hide Reachable, FirstStep, Needs;
    FirstLeads(world, p);
    FirstLeads(world, q);
    var b := p[|p| - 1];
    if |p| == 1 || |q| == 1 {
      var longer := if |p| == 1 then q else p;
      assert Leads(world, longer, b, b);
    } else {
      FirstTail(world, p);
      FirstTail(world, q);
      SameFirstStep(world, p[0], p[1], q[1], b);
      ReachesNext(world, root, p[0], p[1]);
      FirstChainUnique(world, root, p[1..], q[1..]);
      assert p == [p[0]] + p[1..] && q == [q[0]] + q[1..];
    }
  }

  lemma ReachesNext(world: World, root: Root, a: Root, b: Root)
    requires Reachable(world, root, a) && Needs(world, a, b)
    ensures Reachable(world, root, b)
  {
    var p :| Leads(world, p, root, a);
    ChainExtends(world, p, b);
  }

  lemma ShallowChain(world: World, top: Root, b: Root) returns (q: seq<Root>)
    requires Shallow(world, top, b)
    ensures FirstChain(world, q) && q != [] && q[0] == top && q[|q| - 1] == b && |q| <= MAX_DEPENDENCY_DEPTH
  {
    q :| FirstChain(world, q) && q[0] == top && q[|q| - 1] == b && |q| <= MAX_DEPENDENCY_DEPTH;
  }

  lemma NotDeep(world: World, root: Root, visits: map<Root, Mark>)
    requires !HasCycle(world, root) && (forall p :: Reachable(world, root, p) ==> p in visits)
    requires forall p :: p in visits ==> Shallow(world, root, p)
    ensures !HasDeep(world, root)
  {
    hide Reachable, FirstChain, HasCycle, Shallow;
    forall p | FirstChain(world, p) && p != [] && p[0] == root ensures |p| <= MAX_DEPENDENCY_DEPTH {
      var b := p[|p| - 1];
      FirstLeads(world, p);
      ReachedBy(world, p);
      ReachableSelf(world, root);
      var q := ShallowChain(world, root, b);
      FirstChainUnique(world, root, p, q);
    }
    FirstChainSome(world);
  }

  lemma ReachedBy(world: World, p: seq<Root>)
    requires Chain(world, p)
    ensures Reachable(world, p[0], p[|p| - 1])
  {
    assert Leads(world, p, p[0], p[|p| - 1]);
  }

  lemma FirstChainSome(world: World)
    ensures forall p :: FirstChain(world, p) ==> p != []
  {
  }

  lemma OrderClosed(world: World, root: Root, b: Books, p: Root)
    requires Sound(world, root, b) && root in b.order && Reachable(world, root, p)
    ensures p in b.order
  {
    SettledClosed(world, b.order, root, p);
  }

  /** Resolution succeeds exactly on a readable, acyclic, unambiguous graph within the limits, and then
      returns exactly its packages; every failure names a defect the graph really has. */
  method Resolve(world: World, root: Root) returns (r: Outcome, packages: map<Identity, Resolved>)
    ensures r.Found? <==> Resolvable(world, root)
    ensures r.Failed? ==> Explains(world, root, r.why)
    ensures r.Found? ==> Complete'(world, root, packages) && root in world && r.id == world[root].id
  {
    var resolver := new Resolver(world, root);
    assert Sound(world, root, resolver.State());
    r := resolver.Visit(root);
    packages := resolver.packages;
    hide Sound, HasMissing, HasCycle, HasClash, HasMany, HasDeep, Complete';
    if r.Found? {
      Concludes(world, root, resolver.State());
    }
  }
}
