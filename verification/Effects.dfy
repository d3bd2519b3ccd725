/** Capability inference over the collected call graph, and the contracts it is checked against. */
module Effects {

  datatype Capability = FileSystem | Network | Process | Foreign | RawMemory | DeviceIo | Timer | Random | Gpu | Ui

  const ALL: set<Capability> := {FileSystem, Network, Process, Foreign, RawMemory, DeviceIo, Timer, Random, Gpu, Ui}

  type Span = nat

  datatype Use = Use(target: nat, span: Span)

  /** What one function, or one closure inside it, does itself. */
  datatype Direct = Direct(uses: map<Capability, Span>, calls: seq<Use>, values: seq<Use>, closures: seq<Direct>)

  datatype Contract = Inferred | Declared(allowed: set<Capability>)

  datatype Program = Program(direct: seq<Direct>, contracts: seq<Contract>)

  predicate Targets(uses: seq<Use>, n: nat)
  {
    forall i :: 0 <= i < |uses| ==> uses[i].target < n
  }

  predicate DirectOk(d: Direct, n: nat)
  {
    Targets(d.calls, n) && Targets(d.values, n) && forall i :: 0 <= i < |d.closures| ==> DirectOk(d.closures[i], n)
  }

  /** Every call and function value names a function of the program. */
  predicate Valid(p: Program)
  {
    |p.direct| == |p.contracts| && forall f :: 0 <= f < |p.direct| ==> DirectOk(p.direct[f], |p.direct|)
  }

  // ----- what a function can be made to do -----

  predicate Calls(p: Program, f: nat, t: nat)
  {
    f < |p.direct| && exists i :: 0 <= i < |p.direct[f].calls| && p.direct[f].calls[i].target == t
  }

  predicate CallPath(p: Program, path: seq<nat>)
  {
    && path != []
    && (forall i :: 0 <= i < |path| ==> path[i] < |p.direct|)
    && (forall i :: 0 <= i < |path| - 1 ==> Calls(p, path[i], path[i + 1]))
  }

  /** A call path through functions without contracts that ends at a direct use of the capability or at
      a contract declaring it. */
  predicate Supplies(p: Program, path: seq<nat>, c: Capability)
    requires Valid(p)
  {
    && CallPath(p, path) && (forall i :: 0 < i < |path| - 1 ==> p.contracts[path[i]].Inferred?)
    && var last := path[|path| - 1];
       if |path| > 1 && p.contracts[last].Declared? then c in p.contracts[last].allowed else c in p.direct[last].uses
  }

  ghost predicate Derived(p: Program, f: nat, c: Capability)
    requires Valid(p)
  {
    exists path :: path != [] && path[0] == f && Supplies(p, path, c)
  }

  /** What calling `t` brings in, given what is known so far. */
  function Offered(p: Program, actual: seq<map<Capability, Span>>, t: nat): set<Capability>
    requires Valid(p) && |actual| == |p.direct| && t < |p.direct|
  {
    match p.contracts[t]
    case Declared(allowed) => allowed
    case Inferred => actual[t].Keys
  }

  lemma DirectDerives(p: Program, f: nat, c: Capability)
    requires Valid(p) && f < |p.direct| && c in p.direct[f].uses
    ensures Derived(p, f, c)
  {
    assert Supplies(p, [f], c);
  }

  lemma ContractDerives(p: Program, f: nat, t: nat, c: Capability)
    requires Valid(p) && f < |p.direct| && t < |p.direct| && Calls(p, f, t) && p.contracts[t].Declared?
             && c in p.contracts[t].allowed
    ensures Derived(p, f, c)
  {
    assert Supplies(p, [f, t], c);
  }

  lemma CallDerives(p: Program, f: nat, t: nat, c: Capability)
    requires Valid(p) && f < |p.direct| && Calls(p, f, t) && p.contracts != [] && t < |p.direct|
             && p.contracts[t].Inferred? && Derived(p, t, c)
    ensures Derived(p, f, c)
  {
    var path :| path != [] && path[0] == t && Supplies(p, path, c);
    PathGrows(p, f, path);
    hide Calls, CallPath, DirectOk;
    var longer := [f] + path;
    forall i | 0 < i < |longer| - 1 ensures p.contracts[longer[i]].Inferred? {
      assert longer[i] == path[i - 1];
    }
    assert longer[|longer| - 1] == path[|path| - 1];
    assert Supplies(p, longer, c);
  }

  lemma PathGrows(p: Program, f: nat, path: seq<nat>)
    requires CallPath(p, path) && f < |p.direct| && Calls(p, f, path[0])
    ensures CallPath(p, [f] + path)
  {
    var longer := [f] + path;
    forall i | 0 <= i < |longer| - 1 ensures Calls(p, longer[i], longer[i + 1]) {
      if i > 0 { assert Calls(p, path[i - 1], path[i]); }
    }
  }

  /** Nothing a call offers is missing. */
  predicate Saturated(p: Program, actual: seq<map<Capability, Span>>)
    requires Valid(p) && |actual| == |p.direct|
  {
    && (forall f :: 0 <= f < |actual| ==> p.direct[f].uses.Keys <= actual[f].Keys)
    && forall f, t ::
      0 <= f < |actual| && 0 <= t < |actual| && Calls(p, f, t) ==> Offered(p, actual, t) <= actual[f].Keys
  }

  lemma {:induction false} SaturatedHolds(p: Program, actual: seq<map<Capability, Span>>, path: seq<nat>, c: Capability)
    requires Valid(p) && |actual| == |p.direct| && Saturated(p, actual) && path != [] && Supplies(p, path, c)
    ensures c in actual[path[0]]
    decreases path
  {
    if |path| > 1 {
      var (f, t) := (path[0], path[1]);
      assert Calls(p, f, t);
      var rest := path[1..];
      assert forall i :: 0 <= i < |rest| ==> rest[i] == path[i + 1];
      if p.contracts[t].Inferred? {
        assert Supplies(p, rest, c) by {
          forall i | 0 <= i < |rest| - 1 ensures Calls(p, rest[i], rest[i + 1]) {
            assert Calls(p, path[i + 1], path[i + 2]);
          }
        }
        SaturatedHolds(p, actual, rest, c);
      } else {
        assert |path| == 2;
      }
    }
  }

  // ----- the loop -----

  function Inserted(m: map<Capability, Span>, caps: set<Capability>, span: Span): (r: map<Capability, Span>)
    ensures r.Keys == m.Keys + caps && forall c :: c in m ==> r[c] == m[c]
  {
    map c | c in m.Keys + caps :: if c in m then m[c] else span
  }

  /** What the first `n` calls of a function offer. */
  predicate Gained(p: Program, previous: seq<map<Capability, Span>>, f: nat, n: nat, c: Capability)
    requires Valid(p) && |previous| == |p.direct| && f < |p.direct| && n <= |p.direct[f].calls|
  {
    exists i :: 0 <= i < n && Brings(p, previous, f, i, c)
  }

  predicate Brings(p: Program, previous: seq<map<Capability, Span>>, f: nat, i: nat, c: Capability)
    requires Valid(p) && |previous| == |p.direct| && f < |p.direct| && i < |p.direct[f].calls|
  {
    assert DirectOk(p.direct[f], |p.direct|);
    c in Offered(p, previous, p.direct[f].calls[i].target)
  }

  /** One function's share of a round: earlier spans stay, offered capabilities are added. */
  method Extend(p: Program, previous: seq<map<Capability, Span>>, f: nat) returns (m: map<Capability, Span>)
    requires Valid(p) && |previous| == |p.direct| && f < |p.direct|
    ensures forall c :: c in m <==> c in previous[f] || Gained(p, previous, f, |p.direct[f].calls|, c)
    ensures forall c :: c in previous[f] ==> m[c] == previous[f][c]
  {
    m := previous[f];
    var calls := p.direct[f].calls;
    assert DirectOk(p.direct[f], |p.direct|);
    var i := 0;
    while i < |calls|
      invariant 0 <= i <= |calls|
      invariant forall c :: c in m <==> c in previous[f] || Gained(p, previous, f, i, c)
      invariant forall c :: c in previous[f] ==> m[c] == previous[f][c]
    {
      hide DirectOk;
      var offered := Offered(p, previous, calls[i].target);
      assert forall c :: c in offered <==> Brings(p, previous, f, i, c);
      hide Brings, Offered;
      m := Inserted(m, offered, calls[i].span);
      i := i + 1;
    }
  }

  method Round(p: Program, previous: seq<map<Capability, Span>>) returns (actual: seq<map<Capability, Span>>)
    requires Valid(p) && |previous| == |p.direct|
    ensures |actual| == |previous|
    ensures forall f, c ::
              0 <= f < |actual| ==>
                (c in actual[f] <==> c in previous[f] || Gained(p, previous, f, |p.direct[f].calls|, c))
    ensures forall f, c :: 0 <= f < |actual| && c in previous[f] ==> c in actual[f] && actual[f][c] == previous[f][c]
  {
    hide Gained;
    actual := [];
    var f := 0;
    while f < |p.direct|
      invariant 0 <= f <= |p.direct| && |actual| == f
      invariant forall g, c ::
                  0 <= g < f ==>
                    (c in actual[g] <==> c in previous[g] || Gained(p, previous, g, |p.direct[g].calls|, c))
      invariant forall g, c :: 0 <= g < f && c in previous[g] ==> c in actual[g] && actual[g][c] == previous[g][c]
    {
      var m := Extend(p, previous, f);
      actual := actual + [m];
      f := f + 1;
    }
  }

  function Total(actual: seq<map<Capability, Span>>): nat
  {
    if actual == [] then 0 else |actual[0].Keys| + Total(actual[1..])
  }

  lemma AllCapabilities(c: Capability)
    ensures c in ALL
  {
  }

  lemma {:induction false} SubsetSize(a: set<Capability>, b: set<Capability>)
    requires a <= b
    ensures |a| <= |b| && (|a| == |b| ==> a == b)
    decreases a
  {
    if a != {} {
      var c :| c in a;
      SubsetSize(a - {c}, b - {c});
    }
  }

  lemma {:induction false} TotalBound(actual: seq<map<Capability, Span>>)
    ensures Total(actual) <= 10 * |actual|
    decreases actual
  {
    if actual != [] {
      forall c | c in actual[0].Keys ensures c in ALL { AllCapabilities(c); }
      SubsetSize(actual[0].Keys, ALL);
      TotalBound(actual[1..]);
    }
  }

  /** Growing everywhere and staying the same in total means nothing grew. */
  lemma {:induction false} TotalGrows(a: seq<map<Capability, Span>>, b: seq<map<Capability, Span>>)
    requires |a| == |b| && forall f :: 0 <= f < |a| ==> a[f].Keys <= b[f].Keys
    ensures Total(a) <= Total(b) && (Total(a) == Total(b) ==> forall f :: 0 <= f < |a| ==> a[f].Keys == b[f].Keys)
    decreases a
  {
    if a != [] {
      SubsetSize(a[0].Keys, b[0].Keys);
      TotalGrows(a[1..], b[1..]);
      assert forall f :: 0 < f < |a| ==> a[f] == a[1..][f - 1] && b[f] == b[1..][f - 1];
    }
  }

  /** Everything inferred so far is justified by a call path. */
  ghost predicate Justified(p: Program, actual: seq<map<Capability, Span>>)
    requires Valid(p) && |actual| == |p.direct|
  {
    && (forall f :: 0 <= f < |actual| ==> p.direct[f].uses.Keys <= actual[f].Keys)
    && forall f, c :: 0 <= f < |actual| && c in actual[f] ==> Derived(p, f, c)
  }

  lemma GainedDerives(p: Program, previous: seq<map<Capability, Span>>, f: nat, c: Capability)
    requires Valid(p) && |previous| == |p.direct| && f < |p.direct| && Justified(p, previous)
             && Gained(p, previous, f, |p.direct[f].calls|, c)
    ensures Derived(p, f, c)
  {
    hide Derived;
    var i :| 0 <= i < |p.direct[f].calls| && Brings(p, previous, f, i, c);
    assert DirectOk(p.direct[f], |p.direct|);
    var t := p.direct[f].calls[i].target;
    assert Calls(p, f, t);
    if p.contracts[t].Declared? {
      ContractDerives(p, f, t, c);
    } else {
      CallDerives(p, f, t, c);
    }
  }

  lemma RoundJustified(p: Program, previous: seq<map<Capability, Span>>, actual: seq<map<Capability, Span>>)
    requires Valid(p) && |previous| == |p.direct| == |actual| && Justified(p, previous)
    requires forall f, c ::
               0 <= f < |actual| ==>
                 (c in actual[f] <==> c in previous[f] || Gained(p, previous, f, |p.direct[f].calls|, c))
    ensures Justified(p, actual)
  {
    hide Gained, Derived, DirectOk;
    forall f, c | 0 <= f < |actual| && c in actual[f] ensures Derived(p, f, c) {
      if c !in previous[f] { GainedDerives(p, previous, f, c); }
    }
  }

  lemma StableSaturated(p: Program, actual: seq<map<Capability, Span>>)
    requires Valid(p) && |actual| == |p.direct| && Justified(p, actual)
    requires forall f, c :: 0 <= f < |actual| && Gained(p, actual, f, |p.direct[f].calls|, c) ==> c in actual[f]
    ensures Saturated(p, actual)
  {
    hide Derived;
    forall f, t | 0 <= f < |actual| && 0 <= t < |actual| && Calls(p, f, t)
      ensures Offered(p, actual, t) <= actual[f].Keys {
      var i :| 0 <= i < |p.direct[f].calls| && p.direct[f].calls[i].target == t;
      forall c | c in Offered(p, actual, t) ensures c in actual[f] {
        assert Brings(p, actual, f, i, c);
        assert Gained(p, actual, f, |p.direct[f].calls|, c);
      }
    }
  }

  lemma StartJustified(p: Program, actual: seq<map<Capability, Span>>)
    requires Valid(p) && |actual| == |p.direct| && forall f :: 0 <= f < |actual| ==> actual[f] == p.direct[f].uses
    ensures Justified(p, actual)
  {
    hide Derived, DirectOk;
    forall f, c | 0 <= f < |actual| && c in actual[f] ensures Derived(p, f, c) {
      DirectDerives(p, f, c);
    }
  }

  /** A round that changes anything adds a capability somewhere. */
  lemma RoundProgress(previous: seq<map<Capability, Span>>, actual: seq<map<Capability, Span>>)
    requires |previous| == |actual|
             && forall f, c ::
               0 <= f < |actual| && c in previous[f] ==> c in actual[f] && actual[f][c] == previous[f][c]
    ensures Total(previous) <= Total(actual) <= 10 * |actual|
            && (Total(previous) == Total(actual) ==> actual == previous)
  {
    TotalGrows(previous, actual);
    TotalBound(actual);
    if Total(previous) == Total(actual) {
      forall f | 0 <= f < |actual| ensures actual[f] == previous[f] {
        assert actual[f].Keys == previous[f].Keys;
      }
    }
  }

  /** Iterates until nothing changes: exactly the derivable capabilities, the least fixpoint. */
  method Infer(p: Program) returns (actual: seq<map<Capability, Span>>)
    requires Valid(p)
    ensures |actual| == |p.direct| && Saturated(p, actual)
    ensures forall f, c :: 0 <= f < |actual| ==> (c in actual[f] <==> Derived(p, f, c))
  {
    actual := seq(|p.direct|, f requires 0 <= f < |p.direct| => p.direct[f].uses);
    StartJustified(p, actual);
    var changed := true;
    while changed
      invariant |actual| == |p.direct| && Justified(p, actual)
      invariant !changed ==> forall f, c ::
                  0 <= f < |actual| && Gained(p, actual, f, |p.direct[f].calls|, c) ==> c in actual[f]
      decreases 10 * |p.direct| - Total(actual), changed
    {
      hide Derived, Gained, DirectOk, Justified, Total;
      var previous := actual;
      actual := Round(p, previous);
      changed := actual != previous;
      RoundJustified(p, previous, actual);
      RoundProgress(previous, actual);
    }
    StableSaturated(p, actual);
    forall f, c | 0 <= f < |actual| && Derived(p, f, c) ensures c in actual[f] {
      DerivedHeld(p, actual, f, c);
    }
  }

  lemma DerivedHeld(p: Program, actual: seq<map<Capability, Span>>, f: nat, c: Capability)
    requires Valid(p) && |actual| == |p.direct| && Saturated(p, actual) && f < |actual| && Derived(p, f, c)
    ensures c in actual[f]
  {
    var path :| path != [] && path[0] == f && Supplies(p, path, c);
    SaturatedHolds(p, actual, path, c);
  }

  // ----- contracts -----

  /** The contract callers see: the declared one, or what was inferred. */
  function Granted(p: Program, actual: seq<map<Capability, Span>>): (r: seq<set<Capability>>)
    requires Valid(p) && |actual| == |p.direct|
    ensures |r| == |actual|
  {
    seq(|actual|, f requires 0 <= f < |actual| => Offered(p, actual, f))
  }

  /** Function values and closures, at any depth, bring in nothing. */
  predicate EffectFree(d: Direct, granted: seq<set<Capability>>)
    requires DirectOk(d, |granted|)
  {
    && (forall i :: 0 <= i < |d.values| ==> granted[d.values[i].target] == {})
    && forall i :: 0 <= i < |d.closures| ==>
         assert DirectOk(d.closures[i], |granted|); Silent(d.closures[i], granted) && EffectFree(d.closures[i], granted)
  }

  predicate Silent(d: Direct, granted: seq<set<Capability>>)
    requires Targets(d.calls, |granted|)
  {
    d.uses == map[] && forall i :: 0 <= i < |d.calls| ==> granted[d.calls[i].target] == {}
  }

  method CheckSilent(d: Direct, granted: seq<set<Capability>>) returns (ok: bool)
    requires Targets(d.calls, |granted|)
    ensures ok <==> Silent(d, granted)
  {
    var required := d.uses.Keys;
    var i := 0;
    while i < |d.calls|
      invariant 0 <= i <= |d.calls|
      invariant required == {} <==> d.uses == map[] && forall j :: 0 <= j < i ==> granted[d.calls[j].target] == {}
    {
      required := required + granted[d.calls[i].target];
      i := i + 1;
    }
    ok := required == {};
  }

  method ValidateHidden(d: Direct, granted: seq<set<Capability>>) returns (ok: bool)
    requires DirectOk(d, |granted|)
    ensures ok <==> EffectFree(d, granted)
  {
    var i := 0;
    while i < |d.values|
      invariant 0 <= i <= |d.values| && forall j :: 0 <= j < i ==> granted[d.values[j].target] == {}
    {
      if granted[d.values[i].target] != {} {
        return false;
      }
      i := i + 1;
    }
    i := 0;
    while i < |d.closures|
      invariant 0 <= i <= |d.closures|
      invariant forall j :: 0 <= j < i ==> Silent(d.closures[j], granted) && EffectFree(d.closures[j], granted)
    {
      assert DirectOk(d.closures[i], |granted|);
      var silent := CheckSilent(d.closures[i], granted);
      if !silent {
        return false;
      }
      ok := ValidateHidden(d.closures[i], granted);
      if !ok {
        return;
      }
      i := i + 1;
    }
    ok := true;
  }

  /** Every declared contract covers what its function can be made to do. */
  ghost predicate Honest(p: Program)
    requires Valid(p)
  {
    forall f, c :: 0 <= f < |p.direct| && p.contracts[f].Declared? && Derived(p, f, c) ==> c in p.contracts[f].allowed
  }

  ghost predicate Hidden(p: Program, granted: seq<set<Capability>>)
    requires Valid(p) && |granted| == |p.direct|
  {
    forall f :: 0 <= f < |p.direct| ==> EffectFree(p.direct[f], granted)
  }

  method CheckContracts(p: Program, actual: seq<map<Capability, Span>>) returns (ok: bool)
    requires Valid(p) && |actual| == |p.direct|
    ensures ok <==> forall f ::
              0 <= f < |actual| && p.contracts[f].Declared? ==> actual[f].Keys <= p.contracts[f].allowed
  {
    var f := 0;
    while f < |actual|
      invariant 0 <= f <= |actual|
                && forall g :: 0 <= g < f && p.contracts[g].Declared? ==> actual[g].Keys <= p.contracts[g].allowed
    {
      if p.contracts[f].Declared? && !(actual[f].Keys <= p.contracts[f].allowed) {
        return false;
      }
      f := f + 1;
    }
    ok := true;
  }

  /** Accepted exactly when contracts are honest and nothing hides in a function value or closure. */
  method Analyze(p: Program) returns (ok: bool, granted: seq<set<Capability>>)
    requires Valid(p)
    ensures |granted| == |p.direct|
    ensures forall f, c :: 0 <= f < |granted| ==>
              (c in granted[f] <==> if p.contracts[f].Declared? then c in p.contracts[f].allowed else Derived(p, f, c))
    ensures ok <==> Honest(p) && Hidden(p, granted)
  {
    hide Derived, DirectOk, EffectFree;
    var actual := Infer(p);
    granted := Granted(p, actual);
    ok := CheckContracts(p, actual);
    if !ok {
      return;
    }
    var f := 0;
    while f < |p.direct|
      invariant 0 <= f <= |p.direct| && forall g :: 0 <= g < f ==> EffectFree(p.direct[g], granted)
    {
      ok := ValidateHidden(p.direct[f], granted);
      if !ok {
        return;
      }
      f := f + 1;
    }
    ok := true;
  }

  // ----- what acceptance means -----

  /** The contracts an accepted program is given. */
  ghost predicate Contracts(p: Program, granted: seq<set<Capability>>)
    requires Valid(p)
  {
    && |granted| == |p.direct| && Honest(p)
    && forall f, c :: 0 <= f < |granted| ==>
         (c in granted[f] <==> if p.contracts[f].Declared? then c in p.contracts[f].allowed else Derived(p, f, c))
  }

  lemma CallWithin(p: Program, granted: seq<set<Capability>>, f: nat, t: nat)
    requires Valid(p) && Contracts(p, granted) && f < |p.direct| && t < |p.direct| && Calls(p, f, t)
    ensures granted[t] <= granted[f]
  {
    hide Derived, Calls, DirectOk;
    forall c | c in granted[t] ensures c in granted[f] {
      if p.contracts[t].Declared? {
        ContractDerives(p, f, t, c);
      } else {
        CallDerives(p, f, t, c);
      }
    }
  }

  /** In an accepted program, whatever any chain of calls can do is within the first caller's contract. */
  lemma {:induction false} ReachedWithin(p: Program, granted: seq<set<Capability>>, path: seq<nat>, c: Capability)
    requires Valid(p) && Contracts(p, granted) && CallPath(p, path) && c in p.direct[path[|path| - 1]].uses
    ensures c in granted[path[0]]
    decreases path
  {
    if |path| == 1 {
      DirectDerives(p, path[0], c);
    } else {
      var rest := path[1..];
      assert forall i :: 0 <= i < |rest| ==> rest[i] == path[i + 1];
      assert CallPath(p, rest) by {
        forall i | 0 <= i < |rest| - 1 ensures Calls(p, rest[i], rest[i + 1]) {
          assert Calls(p, path[i + 1], path[i + 2]);
        }
      }
      ReachedWithin(p, granted, rest, c);
      assert Calls(p, path[0], path[1]);
      CallWithin(p, granted, path[0], path[1]);
    }
  }

  /** The closure found by following indices into nested closures. */
  predicate Nested(outer: Direct, at: seq<nat>, inner: Direct)
    decreases at
  {
    if at == [] then outer == inner else at[0] < |outer.closures| && Nested(outer.closures[at[0]], at[1..], inner)
  }

  /** In an accepted program no closure, however deeply nested, uses a capability or calls a function
      whose contract grants one. */
  lemma {:induction false} NestedSilent(outer: Direct, granted: seq<set<Capability>>, at: seq<nat>, inner: Direct)
    requires DirectOk(outer, |granted|) && EffectFree(outer, granted) && Nested(outer, at, inner)
    ensures DirectOk(inner, |granted|) && EffectFree(inner, granted) && (at != [] ==> Silent(inner, granted))
    decreases at
  {
    if at != [] {
      var d := outer.closures[at[0]];
      assert DirectOk(d, |granted|) && Silent(d, granted) && EffectFree(d, granted);
      NestedSilent(d, granted, at[1..], inner);
    }
  }
}
