/** Snapshots and the canonical table order used when one is written. */
module Snapshots {
  import opened Bytes

  datatype Field = Field(name: Text, storage: Text, optional: bool, primary: bool, unique: bool, indexed: bool)

  datatype Constraint = Constraint(name: Text, unique: bool, fields: seq<Text>)

  datatype Table = Table(name: Text, fields: seq<Field>, constraints: seq<Constraint>, rows: seq<seq<Byte>>)

  datatype Snapshot = Snapshot(tables: seq<Table>)

  const EMPTY := Snapshot([])

  /** String comparison: bytes, lexicographically. */
  predicate Less(a: seq<Byte>, b: seq<Byte>)
  {
    if b == [] then false
    else if a == [] then true
    else a[0] < b[0] || (a[0] == b[0] && Less(a[1..], b[1..]))
  }

  lemma {:induction false} LessTotal(a: seq<Byte>, b: seq<Byte>)
    ensures Less(a, b) || a == b || Less(b, a)
    ensures !(Less(a, b) && Less(b, a))
    ensures a == b ==> !Less(a, b)
  {
    if a != [] && b != [] {
      LessTotal(a[1..], b[1..]);
      assert a == [a[0]] + a[1..] && b == [b[0]] + b[1..];
    }
  }

  lemma {:induction false} LessTransitive(a: seq<Byte>, b: seq<Byte>, c: seq<Byte>)
    requires Less(a, b) && Less(b, c)
    ensures Less(a, c)
  {
    if a != [] && a[0] == b[0] && b[0] == c[0] {
      LessTransitive(a[1..], b[1..], c[1..]);
    }
  }

  /** Stable insertion: equal names keep their input order. */
  function Insert(t: Table, ts: seq<Table>): (r: seq<Table>)
    ensures multiset(r) == multiset(ts) + multiset{t}
  {
    if ts == [] then [t]
    else if Less(ts[0].name, t.name) then
      assert ts == [ts[0]] + ts[1..];
      [ts[0]] + Insert(t, ts[1..])
    else [t] + ts
  }

  function Sorted(ts: seq<Table>): (r: seq<Table>)
    ensures multiset(r) == multiset(ts)
  {
    if ts == [] then []
    else
      assert ts == [ts[0]] + ts[1..];
      Insert(ts[0], Sorted(ts[1..]))
  }

  lemma SortedLength(ts: seq<Table>)
    ensures |Sorted(ts)| == |ts|
  {
    assert |multiset(Sorted(ts))| == |multiset(ts)|;
  }

  predicate Ordered(ts: seq<Table>)
  {
    forall i, j :: 0 <= i < j < |ts| ==> !Less(ts[j].name, ts[i].name)
  }

  predicate DistinctNames(ts: seq<Table>)
  {
    forall i, j :: 0 <= i < j < |ts| ==> ts[i].name != ts[j].name
  }

  predicate Bounds(name: Text, ts: seq<Table>)
  {
    forall j :: 0 <= j < |ts| ==> !Less(ts[j].name, name)
  }

  lemma OrderedCons(t: Table, ts: seq<Table>)
    requires Ordered(ts) && Bounds(t.name, ts)
    ensures Ordered([t] + ts)
  {
  }

  lemma InsertBounds(name: Text, t: Table, ts: seq<Table>)
    requires Bounds(name, ts) && !Less(t.name, name)
    ensures Bounds(name, Insert(t, ts))
  {
    var r := Insert(t, ts);
    forall j | 0 <= j < |r| ensures !Less(r[j].name, name) {
      assert r[j] in multiset(r);
      assert r[j] == t || r[j] in ts;
    }
  }

  lemma FirstBounds(t: Table, ts: seq<Table>)
    requires ts != [] && Ordered(ts) && !Less(ts[0].name, t.name)
    ensures Bounds(t.name, ts)
  {
    forall j | 0 <= j < |ts| ensures !Less(ts[j].name, t.name) {
      if j > 0 && Less(ts[j].name, t.name) {
        LessTotal(t.name, ts[0].name);
        if t.name != ts[0].name {
          LessTransitive(ts[j].name, t.name, ts[0].name);
        }
      }
    }
  }

  lemma {:induction false} InsertOrdered(t: Table, ts: seq<Table>)
    requires Ordered(ts)
    ensures Ordered(Insert(t, ts))
  {
    if ts == [] {
    } else if Less(ts[0].name, t.name) {
      InsertOrdered(t, ts[1..]);
      LessTotal(t.name, ts[0].name);
      InsertBounds(ts[0].name, t, ts[1..]);
      OrderedCons(ts[0], Insert(t, ts[1..]));
    } else {
      FirstBounds(t, ts);
      OrderedCons(t, ts);
    }
  }

  lemma {:induction false} SortedIsOrdered(ts: seq<Table>)
    ensures Ordered(Sorted(ts))
  {
    if ts != [] {
      SortedIsOrdered(ts[1..]);
      InsertOrdered(ts[0], Sorted(ts[1..]));
    }
  }

  lemma {:induction false} CountsAreOne(ts: seq<Table>)
    requires DistinctNames(ts)
    ensures forall t :: t in ts ==> multiset(ts)[t] == 1
  {
    if ts != [] {
      CountsAreOne(ts[1..]);
      assert ts == [ts[0]] + ts[1..];
    }
  }

  lemma RepeatedElement(ts: seq<Table>, i: nat, j: nat)
    requires i < j < |ts| && ts[i] == ts[j]
    ensures multiset(ts)[ts[i]] >= 2
  {
    assert ts == ts[..i] + [ts[i]] + ts[i + 1..j] + [ts[j]] + ts[j + 1..];
  }

  /** Distinct names depend only on the multiset of tables. */
  lemma DistinctNamesOfPermutation(a: seq<Table>, b: seq<Table>)
    requires multiset(a) == multiset(b) && DistinctNames(a)
    ensures DistinctNames(b)
  {
    CountsAreOne(a);
    forall i, j | 0 <= i < j < |b| ensures b[i].name != b[j].name {
      assert b[i] in multiset(a) && b[j] in multiset(a);
      assert b[i] in a && b[j] in a;
      if b[i] == b[j] {
        RepeatedElement(b, i, j);
      }
    }
  }

  lemma LeastFirst(ts: seq<Table>, t: Table)
    requires Ordered(ts) && t in ts
    ensures t == ts[0] || !Less(t.name, ts[0].name)
  {
  }

  lemma HeadsAgree(a: seq<Table>, b: seq<Table>)
    requires a != [] && multiset(a) == multiset(b)
    requires Ordered(a) && Ordered(b) && DistinctNames(a)
    ensures b != [] && a[0] == b[0]
  {
    assert a[0] in multiset(b);
    assert b[0] in multiset(a);
    LeastFirst(a, b[0]);
    LeastFirst(b, a[0]);
    LessTotal(a[0].name, b[0].name);
  }

  lemma TailMultiset(ts: seq<Table>)
    requires ts != []
    ensures multiset(ts[1..]) == multiset(ts) - multiset{ts[0]}
  {
    assert ts == [ts[0]] + ts[1..];
  }

  /** A strictly ordered sequence is determined by its contents. */
  lemma {:induction false} OrderedUnique(a: seq<Table>, b: seq<Table>)
    requires multiset(a) == multiset(b)
    requires Ordered(a) && Ordered(b) && DistinctNames(a)
    ensures a == b
    decreases |a|
  {
    if a == [] {
    } else {
      HeadsAgree(a, b);
      assert a == [a[0]] + a[1..] && b == [b[0]] + b[1..];
      TailMultiset(a);
      TailMultiset(b);
      OrderedUnique(a[1..], b[1..]);
    }
  }

  /** Sorting forgets the input order of tables with distinct names. */
  lemma SortedIgnoresOrder(a: seq<Table>, b: seq<Table>)
    requires multiset(a) == multiset(b) && DistinctNames(a)
    ensures Sorted(a) == Sorted(b)
  {
    SortedIsOrdered(a);
    SortedIsOrdered(b);
    DistinctNamesOfPermutation(a, Sorted(a));
    OrderedUnique(Sorted(a), Sorted(b));
  }
}
