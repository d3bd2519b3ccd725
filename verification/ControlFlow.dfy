/** Control-flow graphs: construction, reachability, reverse postorder and cycle detection. */
module ControlFlow {

  /** How a block ends, as far as control flow goes. */
  datatype Terminator =
    | Goto(target: nat)
    | SwitchBool(onTrue: nat, onFalse: nat)
    | SwitchValue(cases: seq<nat>, otherwise: nat)
    | SwitchEnum(cases: seq<nat>, otherwise: nat)
    | Call(next: nat, unwind: seq<nat>)
    | Spawn(next: nat)
    | Await(next: nat)
    | Return
    | Unreachable

  function Targets(t: Terminator): seq<nat>
  {
    match t
    case Goto(b) => [b]
    case SwitchBool(a, b) => [a, b]
    case SwitchValue(cases, o) => cases + [o]
    case SwitchEnum(cases, o) => cases + [o]
    case Call(n, u) => [n] + u
    case Spawn(n) => [n]
    case Await(n) => [n]
    case Return => []
    case Unreachable => []
  }

  type Graph = seq<seq<nat>>

  /** Every edge leads to a block, and there is an entry block. */
  predicate Closed(g: Graph)
  {
    g != [] && forall v :: 0 <= v < |g| ==> Bounded(g[v], |g|)
  }

  predicate Bounded(s: seq<nat>, n: nat)
  {
    forall x :: x in s ==> x < n
  }

  predicate Edge(g: Graph, a: nat, b: nat)
  {
    a < |g| && b in g[a]
  }

  // ----- paths -----

  predicate Path(g: Graph, p: seq<nat>)
  {
    && p != [] && (forall i :: 0 <= i < |p| ==> p[i] < |g|)
    && forall i :: 0 <= i < |p| - 1 ==> Edge(g, p[i], p[i + 1])
  }

  predicate Connects(g: Graph, p: seq<nat>, a: nat, b: nat)
  {
    Path(g, p) && p[0] == a && p[|p| - 1] == b
  }

  ghost predicate Reaches(g: Graph, a: nat, b: nat)
  {
    exists p :: Connects(g, p, a, b)
  }

  lemma ReachesSelf(g: Graph, a: nat)
    requires a < |g|
    ensures Reaches(g, a, a)
  {
    assert Connects(g, [a], a, a);
  }

  lemma ReachesStep(g: Graph, a: nat, b: nat, c: nat)
    requires Closed(g) && Reaches(g, a, b) && Edge(g, b, c)
    ensures Reaches(g, a, c)
  {
    var p :| Connects(g, p, a, b);
    var q := p + [c];
    assert forall i :: 0 <= i < |p| ==> q[i] == p[i];
    assert Connects(g, q, a, c);
  }

  /** A set that contains the start and is closed under edges contains everything reachable. */
  lemma {:induction false} ClosedContains(g: Graph, s: set<nat>, p: seq<nat>)
    requires Path(g, p) && p[0] in s && forall v, w :: v in s && Edge(g, v, w) ==> w in s
    ensures p[|p| - 1] in s
    decreases p
  {
    if |p| > 1 {
      assert Edge(g, p[0], p[1]);
      var q := p[1..];
      assert forall i :: 0 <= i < |q| ==> q[i] == p[i + 1];
      ClosedContains(g, s, q);
    }
  }

  // ----- construction -----

  predicate Ascending(s: seq<nat>)
  {
    forall i, j :: 0 <= i < j < |s| ==> s[i] < s[j]
  }

  function Insert(s: seq<nat>, x: nat): (r: seq<nat>)
  {
    if s == [] || x < s[0] then [x] + s else if x == s[0] then s else [s[0]] + Insert(s[1..], x)
  }

  lemma {:induction false} InsertAscending(s: seq<nat>, x: nat)
    requires Ascending(s)
    ensures Ascending(Insert(s, x)) && forall y :: y in Insert(s, x) <==> y in s || y == x
    decreases s
  {
    if s != [] && x > s[0] {
      InsertAscending(s[1..], x);
      var r := Insert(s[1..], x);
      assert forall y :: y in r ==> s[0] < y;
      assert forall y :: y in s <==> y == s[0] || y in s[1..];
    }
  }

  /** Sorting and removing duplicates. */
  method SortedUnique(s: seq<nat>) returns (r: seq<nat>)
    ensures Ascending(r) && forall y :: y in r <==> y in s
  {
    r := [];
    var i := 0;
    while i < |s|
      invariant 0 <= i <= |s| && Ascending(r)
      invariant forall y :: y in r <==> y in s[..i]
    {
      InsertAscending(r, s[i]);
      r := Insert(r, s[i]);
      assert s[..i + 1] == s[..i] + [s[i]];
      i := i + 1;
    }
    assert s[..i] == s;
  }

  /** The edge lists agree with the terminators, without duplicates, in both directions. */
  ghost predicate Built(blocks: seq<Terminator>, successors: Graph, predecessors: Graph)
  {
    && |successors| == |predecessors| == |blocks|
    && (forall v :: 0 <= v < |blocks| ==> Ascending(successors[v]) && Ascending(predecessors[v]))
    && (forall v, w :: 0 <= v < |blocks| ==> (w in successors[v] <==> w in Targets(blocks[v])))
    && (forall v, w :: 0 <= v < |blocks| && 0 <= w < |blocks| ==> (v in predecessors[w] <==> w in successors[v]))
    && (forall w :: 0 <= w < |blocks| ==> Bounded(predecessors[w], |blocks|))
  }

  class ControlFlowGraph {
    const successors: Graph
    const predecessors: Graph

    constructor (blocks: seq<Terminator>)
      requires forall v :: 0 <= v < |blocks| ==> Bounded(Targets(blocks[v]), |blocks|)
      ensures Built(blocks, successors, predecessors)
    {
      var out: Graph := [];
      var v := 0;
      while v < |blocks|
        invariant 0 <= v <= |blocks| && |out| == v
        invariant forall u :: 0 <= u < v ==> Ascending(out[u]) && forall w :: w in out[u] <==> w in Targets(blocks[u])
      {
        var edges := SortedUnique(Targets(blocks[v]));
        out := out + [edges];
        v := v + 1;
      }
      var back := Invert(out);
      successors := out;
      predecessors := back;
    }
  }

  /** Appends a source to the list of each of its targets. */
  method AddSource(r: Graph, v: nat, edges: seq<nat>) returns (q: Graph)
    requires Bounded(edges, |r|) && Ascending(edges)
    ensures |q| == |r| && forall w :: 0 <= w < |r| ==> q[w] == if w in edges then r[w] + [v] else r[w]
  {
    q := r;
    var i := 0;
    while i < |edges|
      invariant 0 <= i <= |edges| && |q| == |r|
      invariant forall w :: 0 <= w < |r| ==> q[w] == if w in edges[..i] then r[w] + [v] else r[w]
    {
      var t := edges[i];
      assert t in edges && t !in edges[..i];
      assert edges[..i + 1] == edges[..i] + [t];
      q := q[t := q[t] + [v]];
      i := i + 1;
    }
    assert edges[..i] == edges;
  }

  /** The sources below `v` of edges into `w`. */
  predicate Sources(g: Graph, v: nat, w: nat, sources: seq<nat>)
    requires v <= |g|
  {
    Ascending(sources) && Bounded(sources, v) && forall u :: 0 <= u < v ==> (u in sources <==> w in g[u])
  }

  lemma SourcesNext(g: Graph, v: nat, w: nat, sources: seq<nat>)
    requires v < |g| && Sources(g, v, w, sources)
    ensures Sources(g, v + 1, w, if w in g[v] then sources + [v] else sources)
  {
    assert v !in sources;
    var q := sources + [v];
    assert forall u :: u in q <==> u in sources || u == v;
    assert Ascending(q) by {
      forall i, j | 0 <= i < j < |q| ensures q[i] < q[j] {
        assert q[i] == sources[i] && sources[i] in sources;
      }
    }
  }

  /** For every block, the sources of its incoming edges in ascending order. */
  method Invert(g: Graph) returns (r: Graph)
    requires forall v :: 0 <= v < |g| ==> Bounded(g[v], |g|) && Ascending(g[v])
    ensures |r| == |g| && forall w :: 0 <= w < |g| ==> Sources(g, |g|, w, r[w])
  {
    r := seq(|g|, _ => []);
    var v := 0;
    while v < |g|
      invariant 0 <= v <= |g| && |r| == |g|
      invariant forall w :: 0 <= w < |g| ==> Sources(g, v, w, r[w])
    {
      ghost var before := r;
      r := AddSource(r, v, g[v]);
      forall w | 0 <= w < |g| ensures Sources(g, v + 1, w, r[w]) {
        SourcesNext(g, v, w, before[w]);
      }
      v := v + 1;
    }
  }

  // ----- reachability -----

  class Traversal {
    const g: Graph
    var seen: set<nat>
    var order: seq<nat>

    constructor (g: Graph)
      ensures this.g == g && seen == {} && order == []
    {
      this.g := g;
      seen, order := {}, [];
    }

    /** Depth-first: a block is appended once all its successors have been visited. */
    method Visit(block: nat, ghost gray: seq<nat>)
      requires Closed(g) && block < |g| && State(g, seen, order, gray) && Extends(g, gray, block)
      modifies this
      ensures State(g, seen, order, gray) && block in seen && old(seen) <= seen
      decreases |g| - |seen|
    {
      hide State, Closed, Extends;
      if block in seen {
        return;
      }
      SeenBound(g, seen, order, gray, block);
      seen := seen + {block};
      ghost var path := gray + [block];
      Enters(g, old(seen), order, gray, block);
      var i := 0;
      while i < |g[block]|
        invariant 0 <= i <= |g[block]| && State(g, seen, order, path) && old(seen) + {block} <= seen
        invariant forall x :: x in g[block][..i] ==> x in seen
        decreases |g[block]| - i
      {
        assert Edge(g, block, g[block][i]) && g[block][i] in g[block];
        NextBlock(g, gray, block, i);
        SeenGrows(g, old(seen) + {block}, seen);
        Visit(g[block][i], path);
        assert g[block][..i + 1] == g[block][..i] + [g[block][i]];
        i := i + 1;
      }
      assert g[block][..i] == g[block];
      Leaves(g, seen, order, gray, block);
      order := order + [block];
    }
  }

  predicate Once(s: seq<nat>)
  {
    forall i, j :: 0 <= i < j < |s| ==> s[i] != s[j]
  }

  /** Every successor of a finished block was finished before it, or leads back to it. */
  ghost predicate Finished(g: Graph, order: seq<nat>, i: nat)
    requires i < |order|
  {
    order[i] < |g| && forall w :: w in g[order[i]] ==> w in order[..i] || Reaches(g, w, order[i])
  }

  /** Between visits: `gray` is the path being explored, everything else seen is finished. */
  ghost predicate State(g: Graph, seen: set<nat>, order: seq<nat>, gray: seq<nat>)
  {
    && Once(order + gray)
    && (forall x :: x in seen <==> x in order + gray)
    && (forall x :: x in seen ==> x < |g| && Reaches(g, 0, x))
    && (gray != [] ==> Path(g, gray))
    && (forall i :: 0 <= i < |order| ==> Finished(g, order, i))
    && (forall x, w :: x in order && Edge(g, x, w) ==> w in seen)
  }

  /** The next block follows the path explored so far; the first one is the entry. */
  predicate Extends(g: Graph, gray: seq<nat>, block: nat)
  {
    if gray == [] then block == 0 else Edge(g, gray[|gray| - 1], block)
  }

  function Numbers(n: nat): (r: set<nat>)
    ensures |r| == n && forall x :: x in r <==> 0 <= x < n
  {
    if n == 0 then {} else Numbers(n - 1) + {n - 1}
  }

  lemma NextBlock(g: Graph, gray: seq<nat>, block: nat, i: nat)
    requires Closed(g) && block < |g| && i < |g[block]|
    ensures g[block][i] < |g| && Extends(g, gray + [block], g[block][i])
  {
    assert Bounded(g[block], |g|) && g[block][i] in g[block];
  }

  lemma SeenBound(g: Graph, seen: set<nat>, order: seq<nat>, gray: seq<nat>, block: nat)
    requires State(g, seen, order, gray) && block < |g| && block !in seen
    ensures |seen| < |g|
  {
    assert seen <= Numbers(|g|) && block in Numbers(|g|);
    SubsetSmaller(seen, Numbers(|g|));
  }

  lemma {:induction false} SubsetSmaller(a: set<nat>, b: set<nat>)
    requires a <= b
    ensures |a| <= |b| && (a != b ==> |a| < |b|)
    decreases a
  {
    if a != {} {
      var x :| x in a;
      SubsetSmaller(a - {x}, b - {x});
    }
  }

  lemma SeenGrows(g: Graph, a: set<nat>, b: set<nat>)
    requires a <= b
    ensures |a| <= |b|
  {
    SubsetSmaller(a, b);
  }

  lemma Enters(g: Graph, seen: set<nat>, order: seq<nat>, gray: seq<nat>, block: nat)
    requires Closed(g) && State(g, seen, order, gray) && block !in seen && block < |g| && Extends(g, gray, block)
    ensures State(g, seen + {block}, order, gray + [block])
  {
    hide Closed, Finished, Reaches;
    var path := gray + [block];
    assert order + path == (order + gray) + [block];
    assert Reaches(g, 0, block) by {
      if gray == [] {
        ReachesSelf(g, 0);
      } else {
        var last := gray[|gray| - 1];
        assert last in order + gray;
        ReachesStep(g, 0, last, block);
      }
    }
    assert Path(g, path);
  }

  lemma Suffix(g: Graph, p: seq<nat>, i: nat)
    requires Path(g, p) && i < |p|
    ensures Reaches(g, p[i], p[|p| - 1])
  {
    var q := p[i..];
    assert forall k :: 0 <= k < |q| ==> q[k] == p[i + k];
    assert Connects(g, q, p[i], p[|p| - 1]);
  }

  lemma OnceMoved(order: seq<nat>, gray: seq<nat>, block: nat)
    requires Once(order + (gray + [block]))
    ensures Once((order + [block]) + gray)
  {
    var (a, b) := (order + (gray + [block]), (order + [block]) + gray);
    var n := |order|;
    assert a[|a| - 1] == block == b[n];
    assert forall i :: 0 <= i < n ==> b[i] == a[i];
    assert forall i :: n < i < |b| ==> b[i] == a[i - 1];
  }

  /** The last block of the path is done: all its successors have been seen. */
  lemma Leaves(g: Graph, seen: set<nat>, order: seq<nat>, gray: seq<nat>, block: nat)
    requires block < |g| && State(g, seen, order, gray + [block]) && forall x :: x in g[block] ==> x in seen
    ensures State(g, seen, order + [block], gray)
  {
    hide Reaches;
    var (path, after) := (gray + [block], order + [block]);
    OnceMoved(order, gray, block);
    forall x ensures x in after + gray <==> x in order + path {
    }
    if gray != [] {
      assert Path(g, gray) by {
        assert forall i :: 0 <= i < |gray| ==> path[i] == gray[i];
      }
    }
    forall i | 0 <= i < |after| ensures Finished(g, after, i) {
      if i < |order| {
        assert Finished(g, order, i) && after[..i] == order[..i] && after[i] == order[i];
      } else {
        assert after[..i] == order;
        forall w | w in g[block] ensures w in order || Reaches(g, w, block) {
          if w !in order {
            assert w in order + path;
            var k :| 0 <= k < |path| && path[k] == w;
            Suffix(g, path, k);
          }
        }
      }
    }
  }

  /** A cycle some path from the entry leads to. */
  ghost predicate HasCycle(g: Graph)
  {
    exists v, p :: Reaches(g, 0, v) && Connects(g, p, v, v) && |p| > 1
  }

  /** A successor that was not finished before its block. */
  ghost predicate Backward(g: Graph, order: seq<nat>, i: nat, w: nat)
  {
    i < |order| && order[i] < |g| && w in g[order[i]] && w in order[i..]
  }

  lemma BackwardCycles(g: Graph, seen: set<nat>, order: seq<nat>, i: nat, w: nat)
    requires Closed(g) && State(g, seen, order, []) && Backward(g, order, i, w)
    ensures HasCycle(g)
  {
    var u := order[i];
    assert Finished(g, order, i) && order + [] == order;
    var k :| i <= k < |order| && order[k] == w;
    assert w !in order[..i];
    var p :| Connects(g, p, w, u);
    var q := p + [w];
    assert forall j :: 0 <= j < |p| ==> q[j] == p[j];
    assert Edge(g, u, w) && w in order;
    assert Connects(g, q, w, w) && |q| > 1 && Reaches(g, 0, w);
  }

  function IndexOf(s: seq<nat>, x: nat): (i: nat)
    requires x in s
    ensures i < |s| && s[i] == x
  {
    if s[0] == x then 0 else 1 + IndexOf(s[1..], x)
  }

  lemma NotInSuffix(s: seq<nat>, i: nat, j: nat)
    requires i < |s| && j < |s| && s[j] !in s[i..]
    ensures j < i
  {
    if i <= j { SuffixHas(s, i, j); }
  }

  lemma SuffixHas(s: seq<nat>, i: nat, j: nat)
    requires i <= j < |s|
    ensures s[j] in s[i..]
  {
    assert s[i..][j - i] == s[j];
  }

  /** Without a backward edge every edge leads to an earlier finished block. */
  lemma EdgeDescends(g: Graph, order: seq<nat>, a: nat, b: nat)
    requires Once(order) && a in order && b in order && Edge(g, a, b)
             && forall i: nat, w: nat :: !Backward(g, order, i, w)
    ensures IndexOf(order, b) < IndexOf(order, a)
  {
    var (i, j) := (IndexOf(order, a), IndexOf(order, b));
    assert !Backward(g, order, i, b);
    NotInSuffix(order, i, j);
  }

  lemma {:induction false} PathDescends(g: Graph, order: seq<nat>, p: seq<nat>)
    requires Once(order) && Path(g, p) && |p| > 1 && (forall i :: 0 <= i < |p| ==> p[i] in order)
             && forall i: nat, w: nat :: !Backward(g, order, i, w)
    ensures IndexOf(order, p[|p| - 1]) < IndexOf(order, p[0])
    decreases p
  {
    hide IndexOf, Backward;
    assert Edge(g, p[0], p[1]);
    EdgeDescends(g, order, p[0], p[1]);
    if |p| > 2 {
      var q := p[1..];
      assert forall i :: 0 <= i < |q| ==> q[i] == p[i + 1];
      PathDescends(g, order, q);
    }
  }

  /** What the finished traversal has seen is what the entry reaches. */
  lemma SeenIsReachable(g: Graph, seen: set<nat>, order: seq<nat>, x: nat)
    requires Closed(g) && State(g, seen, order, []) && 0 in seen
    ensures x in order <==> Reaches(g, 0, x)
  {
    hide Closed, Finished;
    assert order + [] == order;
    if Reaches(g, 0, x) {
      var p :| Connects(g, p, 0, x);
      ClosedContains(g, seen, p);
    }
  }

  lemma {:induction false} OnPath(g: Graph, p: seq<nat>, v: nat, i: nat)
    requires Closed(g) && Path(g, p) && i < |p| && p[0] == v && Reaches(g, 0, v)
    ensures Reaches(g, 0, p[i])
    decreases i
  {
    if i > 0 {
      OnPath(g, p, v, i - 1);
      assert Edge(g, p[i - 1], p[i]);
      ReachesStep(g, 0, p[i - 1], p[i]);
    }
  }

  lemma CycleGoesBack(g: Graph, seen: set<nat>, order: seq<nat>) returns (i: nat, w: nat)
    requires Closed(g) && State(g, seen, order, []) && 0 in seen && HasCycle(g)
    ensures Backward(g, order, i, w)
  {
    hide Closed, Finished, Backward, Reaches;
    var v, p :| Reaches(g, 0, v) && Connects(g, p, v, v) && |p| > 1;
    assert order + [] == order;
    forall k | 0 <= k < |p| ensures p[k] in order {
      OnPath(g, p, v, k);
      SeenIsReachable(g, seen, order, p[k]);
    }
    if i': nat, w': nat :| Backward(g, order, i', w') {
      i, w := i', w';
    } else {
      PathDescends(g, order, p);
      assert false;
    }
  }

  function Reverse(s: seq<nat>): (r: seq<nat>)
    ensures |r| == |s| && forall i :: 0 <= i < |s| ==> r[i] == s[|s| - 1 - i]
  {
    if s == [] then [] else Reverse(s[1..]) + [s[0]]
  }

  /** The blocks listed, each once, are the reachable ones. */
  ghost predicate Lists(g: Graph, order: seq<nat>)
  {
    Once(order) && (forall x :: x in order ==> 0 <= x < |g|) && forall x: nat :: x in order <==> Reaches(g, 0, x)
  }

  /** Every edge between listed blocks leads forward. */
  predicate Topological(g: Graph, order: seq<nat>)
  {
    forall i, j :: 0 <= i < |order| && 0 <= j < |order| && order[i] < |g| && order[j] in g[order[i]] ==> i < j
  }

  lemma ReversedLists(g: Graph, seen: set<nat>, post: seq<nat>)
    requires Closed(g) && State(g, seen, post, []) && 0 in seen
    ensures Lists(g, Reverse(post)) && (Topological(g, Reverse(post)) <==> !HasCycle(g))
  {
    hide Closed;
    var r := Reverse(post);
    assert post + [] == post;
    forall x: nat ensures x in r <==> Reaches(g, 0, x) {
      SeenIsReachable(g, seen, post, x);
      if x in post { var k :| 0 <= k < |post| && post[k] == x; assert r[|post| - 1 - k] == x; }
      if x in r { var k :| 0 <= k < |r| && r[k] == x; assert post[|post| - 1 - k] == x; }
    }
    if HasCycle(g) {
      var i, w := CycleGoesBack(g, seen, post);
      var j :| i <= j < |post| && post[j] == w;
      assert r[|post| - 1 - j] == w && r[|post| - 1 - i] == post[i];
    } else {
      forall i, j | 0 <= i < |r| && 0 <= j < |r| && r[i] < |g| && r[j] in g[r[i]] ensures i < j {
        var (a, b) := (|post| - 1 - i, |post| - 1 - j);
        if b >= a {
          assert post[a..][b - a] == r[j];
          BackwardCycles(g, seen, post, a, r[j]);
        }
      }
    }
  }

  /** Depth-first order of the reachable blocks: topological exactly when no cycle is reachable. */
  method ReversePostorder(g: Graph) returns (order: seq<nat>)
    requires Closed(g)
    ensures Lists(g, order) && (Topological(g, order) <==> !HasCycle(g))
  {
    var t := new Traversal(g);
    assert State(g, {}, [], []);
    t.Visit(0, []);
    ReversedLists(g, t.seen, t.order);
    order := Reverse(t.order);
  }

  /** The worklist version. */
  method Reachable(g: Graph) returns (seen: set<nat>)
    requires Closed(g)
    ensures forall x: nat :: x in seen <==> Reaches(g, 0, x)
  {
    seen := {};
    var stack := [0];
    ReachesSelf(g, 0);
    while stack != []
      invariant forall x :: x in seen || x in stack ==> x < |g| && Reaches(g, 0, x)
      invariant 0 in seen || 0 in stack
      invariant forall v, w :: v in seen && Edge(g, v, w) ==> w in seen || w in stack
      decreases |g| - |seen|, |stack|
    {
      var block := stack[|stack| - 1];
      ghost var before := stack;
      stack := stack[..|stack| - 1];
      assert before == stack + [block];
      if block !in seen {
        assert seen <= Numbers(|g|) && block in Numbers(|g|);
        SubsetSmaller(seen, Numbers(|g|));
        forall w | w in g[block] ensures w < |g| && Reaches(g, 0, w) {
          assert Bounded(g[block], |g|);
          ReachesStep(g, 0, block, w);
        }
        seen := seen + {block};
        stack := stack + g[block];
      }
    }
    forall x: nat | Reaches(g, 0, x) ensures x in seen {
      var p :| Connects(g, p, 0, x);
      ClosedContains(g, seen, p);
    }
  }

  /** The blocks no path reaches, in order. */
  method UnreachableBlocks(g: Graph) returns (r: seq<nat>)
    requires Closed(g)
    ensures Ascending(r) && forall x: nat :: x in r <==> x < |g| && !Reaches(g, 0, x)
  {
    var seen := Reachable(g);
    r := [];
    var i := 0;
    while i < |g|
      invariant 0 <= i <= |g| && Ascending(r) && Bounded(r, i)
      invariant forall x: nat :: x in r <==> x < i && x !in seen
    {
      if i !in seen {
        assert forall k :: 0 <= k < |r| ==> r[k] in r;
        r := r + [i];
      }
      i := i + 1;
    }
  }

  /** Positions of the listed blocks. */
  method Positions(order: seq<nat>) returns (position: map<nat, nat>)
    requires Once(order)
    ensures forall x: nat :: x in position <==> x in order
    ensures forall i :: 0 <= i < |order| ==> order[i] in position && position[order[i]] == i
  {
    position := map[];
    var i := 0;
    while i < |order|
      invariant 0 <= i <= |order|
      invariant forall x: nat :: x in position <==> x in order[..i]
      invariant forall j :: 0 <= j < i ==> order[j] in position && position[order[j]] == j
    {
      assert order[..i + 1] == order[..i] + [order[i]];
      position := position[order[i] := i];
      i := i + 1;
    }
    assert order[..i] == order;
  }

  /** Some edge leads to a block listed no later than its source. */
  predicate GoesBack(position: map<nat, nat>, source: nat, target: nat)
  {
    target in position && source in position && position[target] <= position[source]
  }

  /** True exactly when a cycle is reachable from the entry. */
  method HasBackEdge(g: Graph) returns (b: bool)
    requires Closed(g)
    ensures b <==> HasCycle(g)
  {
    var order := ReversePostorder(g);
    var position := Positions(order);
    b := false;
    var v := 0;
    while v < |g|
      invariant 0 <= v <= |g|
      invariant forall u, w :: 0 <= u < v && w in g[u] ==> !GoesBack(position, u, w)
    {
      var i := 0;
      while i < |g[v]|
        invariant 0 <= i <= |g[v]|
        invariant forall w :: w in g[v][..i] ==> !GoesBack(position, v, w)
      {
        var w := g[v][i];
        if GoesBack(position, v, w) {
          assert order[position[v]] == v by { Positioned(order, position, v); }
          assert order[position[w]] == w by { Positioned(order, position, w); }
          return true;
        }
        assert g[v][..i + 1] == g[v][..i] + [w];
        i := i + 1;
      }
      assert g[v][..i] == g[v];
      v := v + 1;
    }
    forall i, j | 0 <= i < |order| && 0 <= j < |order| && order[i] < |g| && order[j] in g[order[i]] ensures i < j {
      assert !GoesBack(position, order[i], order[j]);
    }
  }

  lemma Positioned(order: seq<nat>, position: map<nat, nat>, x: nat)
    requires x in position && (forall y: nat :: y in position <==> y in order)
    requires forall i :: 0 <= i < |order| ==> order[i] in position && position[order[i]] == i
    ensures position[x] < |order| && order[position[x]] == x
  {
    var i :| 0 <= i < |order| && order[i] == x;
  }
}
