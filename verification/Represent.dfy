/** How static slots, registers and the stack represent the source environment. */
module Represent {
  import opened Kinds
  import opened CheckedArithmetic
  import B = Bytes
  import opened Source
  import opened Machine
  import opened CodeGen

  /** The bit pattern a slot or stack entry holds for a value. */
  function Encoded(k: Kind, v: int): (n: nat)
    requires InRange(k, v)
    ensures n < TWO_32 && (!Wide(k) ==> n < TWO_16)
  {
    if v < 0 then v + TWO_32 else v
  }

  predicate SlotHolds(mem: Memory, l: Local, v: int)
  {
    Fits'(l) && InRange(l.kind, v) && ReadLocal(mem, l) == Encoded(l.kind, v)
  }

  predicate Reps(scopes: Scopes<Local>, env: Environment, mem: Memory)
  {
    && |scopes| == |env|
    && forall i :: 0 <= i < |scopes| ==> ScopeReps(scopes[i], env[i], mem)
  }

  predicate ScopeReps(scope: map<string, Local>, values: map<string, int>, mem: Memory)
  {
    scope.Keys == values.Keys && forall x :: x in scope ==> SlotHolds(mem, scope[x], values[x])
  }

  predicate Bound(scopes: Scopes<Local>, i: int, x: string)
  {
    0 <= i < |scopes| && x in scopes[i]
  }

  /** Different variables in scope live in disjoint slots of the frame. */
  ghost predicate Separate(scopes: Scopes<Local>)
  {
    forall i, x, j, y :: Bound(scopes, i, x) && Bound(scopes, j, y) && (i != j || x != y) ==>
      Disjoint(scopes[i][x], scopes[j][y])
  }

  predicate FrameOk(frame: seq<Local>)
  {
    && (forall i :: 0 <= i < |frame| ==> Fits'(frame[i]))
    && (forall i, j :: 0 <= i < j < |frame| ==> Disjoint(frame[i], frame[j]))
  }

  /** Variables in scope occupy slots before `k`, so the slots from `k` on are free. */
  ghost predicate Placed(scopes: Scopes<Local>, frame: seq<Local>, k: nat)
  {
    && Separate(scopes)
    && (forall i, x :: Bound(scopes, i, x) ==> scopes[i][x] in frame)
    && (forall i, x, j :: Bound(scopes, i, x) && k <= j < |frame| ==> Disjoint(scopes[i][x], frame[j]))
  }

  /** Memory may differ only inside the frame. */
  ghost predicate FrameOnly(before: Memory, after: Memory, frame: seq<Local>)
  {
    forall i ::
      0 <= i < LOCAL_BYTES && (forall j :: 0 <= j < |frame| ==> !Inside(frame[j], i)) ==> after[i] == before[i]
  }

  // ----- registers and slots -----

  lemma LoadRepresents(mem: Memory, l: Local, v: int, eax: Word)
    requires SlotHolds(mem, l, v)
    ensures Represents(l.kind, v, Loaded(mem, l, eax))
  {
    ReadBound(mem, l);
    if !Wide(l.kind) { LowOfSetLow(eax, ReadLocal(mem, l)); }
  }

  lemma SaveHolds(mem: Memory, l: Local, v: int, eax: Word)
    requires Fits'(l) && InRange(l.kind, v) && Represents(l.kind, v, eax)
    ensures SlotHolds(WriteLocal(mem, l, eax), l, v)
  {
    hide WriteLocal, ReadLocal, B.Pow256;
    WriteSame(mem, l, eax);
    Powers();
    if l.kind == U8 { LowByte(eax, v); }
  }

  lemma Powers()
    ensures B.Pow256(1) == 256 && B.Pow256(2) == TWO_16 && B.Pow256(4) == TWO_32
  {
    B.Pow256Constants();
    assert B.Pow256(1) == 256 && B.Pow256(2) == 65536;
  }

  lemma LowByte(eax: Word, v: int)
    requires Low(eax) == v && 0 <= v < TWO_8
    ensures eax % 256 == v
  {
    var q := eax / TWO_16;
    assert eax == TWO_16 * q + v;
    DivModUnique(eax, 256, 256 * q, v);
  }

  lemma HoldsElsewhere(mem: Memory, l: Local, eax: Word, other: Local, v: int)
    requires Fits'(l) && Disjoint(l, other) && SlotHolds(mem, other, v)
    ensures SlotHolds(WriteLocal(mem, l, eax), other, v)
  {
    WriteOther(mem, l, eax, other);
  }

  // ----- scopes -----

  lemma {:induction false} LookupReps(scopes: Scopes<Local>, env: Environment, mem: Memory, x: string) returns (i: nat)
    requires Reps(scopes, env, mem)
    ensures Lookup(scopes, x) == [] <==> Lookup(env, x) == []
    ensures Lookup(scopes, x) != [] ==>
              && |Lookup(scopes, x)| == |Lookup(env, x)| == 1
              && SlotHolds(mem, Lookup(scopes, x)[0], Lookup(env, x)[0])
              && Bound(scopes, i, x) && Lookup(scopes, x)[0] == scopes[i][x]
    decreases scopes
  {
    i := 0;
    if scopes != [] {
      var last := |scopes| - 1;
      assert ScopeReps(scopes[last], env[last], mem);
      if x in scopes[last] {
        i := last;
      } else {
        i := LookupReps(scopes[..last], env[..last], mem, x);
      }
    }
  }

  lemma ScopeUnaffected(scope: map<string, Local>, values: map<string, int>, mem: Memory, l: Local, eax: Word)
    requires ScopeReps(scope, values, mem) && Fits'(l)
    requires forall x :: x in scope ==> Disjoint(l, scope[x])
    ensures ScopeReps(scope, values, WriteLocal(mem, l, eax))
  {
    forall x | x in scope ensures SlotHolds(WriteLocal(mem, l, eax), scope[x], values[x]) {
      HoldsElsewhere(mem, l, eax, scope[x], values[x]);
    }
  }

  lemma ScopeAssigned(scope: map<string, Local>, values: map<string, int>, mem: Memory, x: string, v: int, eax: Word)
    requires ScopeReps(scope, values, mem) && x in scope && Fits'(scope[x])
    requires InRange(scope[x].kind, v) && Represents(scope[x].kind, v, eax)
    requires forall y :: y in scope && y != x ==> Disjoint(scope[x], scope[y])
    ensures ScopeReps(scope, values[x := v], WriteLocal(mem, scope[x], eax))
  {
    hide SlotHolds, WriteLocal, Represents, InRange, Fits';
    var m := WriteLocal(mem, scope[x], eax);
    SaveHolds(mem, scope[x], v, eax);
    forall y | y in scope && y != x ensures SlotHolds(m, scope[y], values[x := v][y]) {
      HoldsElsewhere(mem, scope[x], eax, scope[y], values[y]);
    }
  }

  lemma OthersUnaffected(scopes: Scopes<Local>, env: Environment, mem: Memory, i: nat, x: string, j: nat, eax: Word)
    requires Reps(scopes, env, mem) && Separate(scopes) && Bound(scopes, i, x) && Fits'(scopes[i][x])
    requires j < |scopes| && j != i
    ensures ScopeReps(scopes[j], env[j], WriteLocal(mem, scopes[i][x], eax))
  {
    hide SlotHolds, WriteLocal, ScopeReps;
    forall y | y in scopes[j] ensures Disjoint(scopes[i][x], scopes[j][y]) {
      assert Bound(scopes, j, y);
    }
    ScopeUnaffected(scopes[j], env[j], mem, scopes[i][x], eax);
  }

  lemma OwnerAssigned(scopes: Scopes<Local>, env: Environment, mem: Memory, i: nat, x: string, v: int, eax: Word)
    requires Reps(scopes, env, mem) && Separate(scopes) && Bound(scopes, i, x) && Fits'(scopes[i][x])
    requires InRange(scopes[i][x].kind, v) && Represents(scopes[i][x].kind, v, eax)
    ensures ScopeReps(scopes[i], env[i][x := v], WriteLocal(mem, scopes[i][x], eax))
  {
    hide SlotHolds, WriteLocal, ScopeReps;
    forall y | y in scopes[i] && y != x ensures Disjoint(scopes[i][x], scopes[i][y]) {
      assert Bound(scopes, i, y);
    }
    ScopeAssigned(scopes[i], env[i], mem, x, v, eax);
  }

  lemma UpdateBelow<T>(s: seq<T>, i: nat, a: T)
    requires i < |s| - 1
    ensures s[..|s| - 1][i := a] + [s[|s| - 1]] == s[i := a]
  {
  }

  lemma RepsSameNames(scopes: Scopes<Local>, env: Environment, mem: Memory)
    requires Reps(scopes, env, mem)
    ensures SameNames(scopes, env)
  {
    hide SlotHolds;
    forall i | 0 <= i < |scopes| ensures scopes[i].Keys == env[i].Keys {
      assert ScopeReps(scopes[i], env[i], mem);
    }
  }

  predicate SameNames<T, U>(a: Scopes<T>, b: Scopes<U>)
  {
    |a| == |b| && forall i :: 0 <= i < |a| ==> a[i].Keys == b[i].Keys
  }

  /** Where a name is found, and what assigning it changes. */
  lemma {:induction false} FoundAt<T, U>(scopes: Scopes<T>, env: Scopes<U>, x: string, v: U) returns (i: nat)
    requires SameNames(scopes, env) && Lookup(scopes, x) != []
    ensures i < |scopes| && x in scopes[i] && Lookup(scopes, x) == [scopes[i][x]]
    ensures Update(env, x, v) == env[i := env[i][x := v]]
    decreases scopes
  {
    var last := |scopes| - 1;
    assert scopes[last].Keys == env[last].Keys;
    assert x in scopes[last] <==> x in env[last];
    if x in scopes[last] {
      i := last;
    } else {
      i := FoundAt(scopes[..last], env[..last], x, v);
      UpdateBelow(env, i, env[i][x := v]);
    }
  }

  /** Storing into a variable's slot assigns that variable and no other. */
  lemma UpdateReps(scopes: Scopes<Local>, env: Environment, mem: Memory, x: string, v: int, eax: Word)
    requires Reps(scopes, env, mem) && Separate(scopes) && Lookup(scopes, x) != []
    requires var l := Lookup(scopes, x)[0]; Fits'(l) && InRange(l.kind, v) && Represents(l.kind, v, eax)
    ensures Reps(scopes, Update(env, x, v), WriteLocal(mem, Lookup(scopes, x)[0], eax))
  {
    hide SlotHolds, Represents, WriteLocal, ScopeReps, Update, Lookup;
    RepsSameNames(scopes, env, mem);
    var i := FoundAt(scopes, env, x, v);
    OwnerAssigned(scopes, env, mem, i, x, v, eax);
    forall j | 0 <= j < |scopes| && j != i ensures ScopeReps(scopes[j], env[j], WriteLocal(mem, scopes[i][x], eax)) {
      OthersUnaffected(scopes, env, mem, i, x, j, eax);
    }
  }

  /** Storing into a free slot declares a variable there. */
  lemma DeclareReps(scopes: Scopes<Local>, env: Environment, mem: Memory, x: string, l: Local, v: int, eax: Word)
    requires Reps(scopes, env, mem) && scopes != []
    requires Fits'(l) && InRange(l.kind, v) && Represents(l.kind, v, eax)
    requires forall i, y :: Bound(scopes, i, y) ==> Disjoint(scopes[i][y], l)
    ensures Reps(Declare(scopes, x, l), Declare(env, x, v), WriteLocal(mem, l, eax))
  {
    var last := |scopes| - 1;
    var m := WriteLocal(mem, l, eax);
    SaveHolds(mem, l, v, eax);
    hide SlotHolds, Represents, WriteLocal;
    forall i | 0 <= i < |scopes| ensures ScopeReps(scopes[i], env[i], m) {
      forall y | y in scopes[i] ensures Disjoint(l, scopes[i][y]) {
        assert Bound(scopes, i, y);
      }
      ScopeUnaffected(scopes[i], env[i], mem, l, eax);
    }
    assert ScopeReps(scopes[last][x := l], env[last][x := v], m);
  }

  lemma DeclarePlaced(scopes: Scopes<Local>, frame: seq<Local>, k: nat, x: string)
    requires Placed(scopes, frame, k) && FrameOk(frame) && k < |frame| && scopes != []
    ensures Placed(Declare(scopes, x, frame[k]), frame, k + 1)
  {
    var s := Declare(scopes, x, frame[k]);
    var last := |scopes| - 1;
    forall i, y | Bound(s, i, y) ensures (i == last && y == x && s[i][y] == frame[k])
        || (Bound(scopes, i, y) && s[i][y] == scopes[i][y]) {
    }
  }

  lemma EnterPlaced(scopes: Scopes<Local>, frame: seq<Local>, k: nat)
    requires Placed(scopes, frame, k)
    ensures Placed(scopes + [map[]], frame, k)
  {
    var s := scopes + [map[]];
    forall i, y | Bound(s, i, y) ensures Bound(scopes, i, y) && s[i][y] == scopes[i][y] {
    }
  }

  lemma PlacedLater(scopes: Scopes<Local>, frame: seq<Local>, k: nat, k': nat)
    requires Placed(scopes, frame, k) && k <= k'
    ensures Placed(scopes, frame, k')
  {
  }

  lemma EnterReps(scopes: Scopes<Local>, env: Environment, mem: Memory)
    requires Reps(scopes, env, mem)
    ensures Reps(scopes + [map[]], env + [map[]], mem)
  {
  }

  function Outer<T>(scopes: Scopes<T>): Scopes<T>
  {
    if scopes == [] then [] else scopes[..|scopes| - 1]
  }

  lemma OuterReps(scopes: Scopes<Local>, env: Environment, mem: Memory)
    requires Reps(scopes, env, mem)
    ensures Reps(Outer(scopes), Outer(env), mem)
  {
  }

  // ----- frames -----

  lemma FrameOnlyTransitive(a: Memory, b: Memory, c: Memory, frame: seq<Local>)
    requires FrameOnly(a, b, frame) && FrameOnly(b, c, frame)
    ensures FrameOnly(a, c, frame)
  {
  }

  lemma WriteFrameOnly(mem: Memory, l: Local, eax: Word, frame: seq<Local>)
    requires Fits'(l) && l in frame
    ensures FrameOnly(mem, WriteLocal(mem, l, eax), frame)
  {
    WriteBytes(mem, l, eax);
    var j :| 0 <= j < |frame| && frame[j] == l;
  }

  // ----- moving whole frames over the stack -----

  /** The word fits the slot's stack entry. */
  predicate WordsFit(ls: seq<Local>, words: seq<nat>)
  {
    |words| == |ls| && forall i :: 0 <= i < |ls| ==> words[i] < if Wide(ls[i].kind) then TWO_32 else TWO_16
  }

  function Cells(ls: seq<Local>, words: seq<nat>): (r: seq<Entry>)
    requires WordsFit(ls, words)
    ensures |r| == |ls|
  {
    seq(|ls|, i requires 0 <= i < |ls| => Cell(StackBytes(ls[i].kind), words[i]))
  }

  function Contents(mem: Memory, ls: seq<Local>): (r: seq<nat>)
    requires forall i :: 0 <= i < |ls| ==> Fits'(ls[i])
    ensures WordsFit(ls, r)
  {
    var r := seq(|ls|, i requires 0 <= i < |ls| => ReadLocal(mem, ls[i]));
    assert WordsFit(ls, r) by {
      forall i | 0 <= i < |ls| ensures r[i] < if Wide(ls[i].kind) then TWO_32 else TWO_16 {
        ReadBound(mem, ls[i]);
      }
    }
    r
  }

  /** Slots written back from the last to the first. */
  function WriteAll(mem: Memory, ls: seq<Local>, words: seq<nat>): Memory
    requires |ls| == |words| && forall i :: 0 <= i < |ls| ==> Fits'(ls[i])
    decreases |ls|
  {
    if ls == [] then mem
    else WriteAll(WriteLocal(mem, ls[|ls| - 1], words[|ls| - 1]), ls[..|ls| - 1], words[..|ls| - 1])
  }

  lemma {:induction false} CellsDepth(base: seq<Entry>, ls: seq<Local>, words: seq<nat>)
    requires WordsFit(ls, words)
    ensures Depth(base + Cells(ls, words)) == Depth(base) + SlotBytes(ls)
    decreases ls
  {
    if ls == [] {
      assert base + Cells(ls, words) == base;
    } else {
      var n := |ls| - 1;
      CellsDepth(base, ls[..n], words[..n]);
      assert Cells(ls, words) == Cells(ls[..n], words[..n]) + [Cell(StackBytes(ls[n].kind), words[n])];
      assert base + Cells(ls, words) == (base + Cells(ls[..n], words[..n])) + [Cell(StackBytes(ls[n].kind), words[n])];
      DepthPush(base + Cells(ls[..n], words[..n]), Cell(StackBytes(ls[n].kind), words[n]));
    }
  }

  /** Writing a frame's earlier contents back restores it, whatever happened inside it. */
  lemma {:induction false} WriteAllRestores(mem: Memory, earlier: Memory, ls: seq<Local>)
    requires forall i :: 0 <= i < |ls| ==> Fits'(ls[i])
    requires FrameOnly(earlier, mem, ls)
    ensures WriteAll(mem, ls, Contents(earlier, ls)) == earlier
    decreases ls
  {
    hide WriteLocal, ReadLocal;
    if ls == [] {
      assert mem == earlier;
    } else {
      var n := |ls| - 1;
      var m := WriteLocal(mem, ls[n], ReadLocal(earlier, ls[n]));
      WriteBack(mem, earlier, ls[n]);
      assert Contents(earlier, ls)[..n] == Contents(earlier, ls[..n]);
      forall i | 0 <= i < LOCAL_BYTES && (forall j :: 0 <= j < n ==> !Inside(ls[j], i)) ensures m[i] == earlier[i] {
        if !Inside(ls[n], i) {
          assert forall j :: 0 <= j < |ls| ==> !Inside(ls[j], i);
        }
      }
      assert FrameOnly(earlier, m, ls[..n]);
      WriteAllRestores(m, earlier, ls[..n]);
    }
  }

  /** Parameters popped into their disjoint slots hold the argument values. */
  lemma {:induction false} WriteAllElsewhere(mem: Memory, ls: seq<Local>, words: seq<nat>, l: Local, v: int)
    requires |ls| == |words| && (forall i :: 0 <= i < |ls| ==> Fits'(ls[i]) && words[i] < TWO_32 && Disjoint(ls[i], l))
    requires SlotHolds(mem, l, v)
    ensures SlotHolds(WriteAll(mem, ls, words), l, v)
    decreases ls
  {
    hide SlotHolds, WriteLocal;
    if ls != [] {
      var n := |ls| - 1;
      HoldsElsewhere(mem, ls[n], words[n], l, v);
      WriteAllElsewhere(WriteLocal(mem, ls[n], words[n]), ls[..n], words[..n], l, v);
    }
  }

  lemma FrameOnlySame(mem: Memory, frame: seq<Local>)
    ensures FrameOnly(mem, mem, frame)
  {
  }

  lemma {:induction false} WriteAllHolds(mem: Memory, ls: seq<Local>, vs: seq<int>, words: seq<nat>, frame: seq<Local>)
    requires |ls| == |vs| == |words| && FrameOk(ls) && (forall i :: 0 <= i < |ls| ==> ls[i] in frame)
    requires forall i :: 0 <= i < |ls| ==> InRange(ls[i].kind, vs[i]) && words[i] == Encoded(ls[i].kind, vs[i])
    ensures forall i :: 0 <= i < |ls| ==> SlotHolds(WriteAll(mem, ls, words), ls[i], vs[i])
    ensures FrameOnly(mem, WriteAll(mem, ls, words), frame)
    decreases ls
  {
    hide SlotHolds, WriteLocal, Encoded, FrameOnly, InRange;
    if ls == [] {
      FrameOnlySame(mem, frame);
    } else {
      var n := |ls| - 1;
      var m := WriteLocal(mem, ls[n], words[n]);
      EncodedRepresents(ls[n].kind, vs[n]);
      SaveHolds(mem, ls[n], vs[n], words[n]);
      WriteFrameOnly(mem, ls[n], words[n], frame);
      WriteAllHolds(m, ls[..n], vs[..n], words[..n], frame);
      FrameOnlyTransitive(mem, m, WriteAll(mem, ls, words), frame);
      WriteAllElsewhere(m, ls[..n], words[..n], ls[n], vs[n]);
    }
  }

  lemma EncodedRepresents(k: Kind, v: int)
    requires InRange(k, v)
    ensures Represents(k, v, Encoded(k, v))
  {
  }
}
