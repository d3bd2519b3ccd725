/** Names in the order of an ordered map. */
module TextOrder {
  import opened ConstantArithmetic

  function Order(a: string, b: string): Ordering
  {
    if a == [] then if b == [] then Equal else Lower
    else if b == [] then Higher
    else if a[0] < b[0] then Lower
    else if b[0] < a[0] then Higher
    else Order(a[1..], b[1..])
  }

  lemma {:induction false} OrderTotal(a: string, b: string)
    ensures Order(a, b) == Equal <==> a == b
    ensures Order(a, b) == Lower <==> Order(b, a) == Higher
    decreases a
  {
    if a != [] && b != [] && a[0] == b[0] {
      OrderTotal(a[1..], b[1..]);
      assert a == [a[0]] + a[1..] && b == [b[0]] + b[1..];
    }
  }

  lemma {:induction false} OrderTransitive(a: string, b: string, c: string)
    requires Order(a, b) == Lower && Order(b, c) == Lower
    ensures Order(a, c) == Lower
    decreases a
  {
    if a != [] && a[0] == b[0] == c[0] {
      OrderTransitive(a[1..], b[1..], c[1..]);
    }
  }

  predicate Ascending(s: seq<string>)
  {
    forall i, j :: 0 <= i < j < |s| ==> Order(s[i], s[j]) == Lower
  }

  function Inserted(x: string, s: seq<string>): (r: seq<string>)
    requires Ascending(s) && x !in s
    ensures Ascending(r) && |r| == |s| + 1 && (forall y :: y in r <==> y == x || y in s)
  {
    if s == [] then [x]
    else if Order(x, s[0]) == Lower then FirstOf(x, s); [x] + s
    else
      var rest := Inserted(x, s[1..]);
      BehindFirst(x, s, rest);
      [s[0]] + rest
  }

  lemma FirstOf(x: string, s: seq<string>)
    requires Ascending(s) && s != [] && Order(x, s[0]) == Lower
    ensures Ascending([x] + s)
  {
    var r := [x] + s;
    forall i, j | 0 <= i < j < |r| ensures Order(r[i], r[j]) == Lower {
      if i == 0 && j > 1 {
        OrderTransitive(x, s[0], s[j - 1]);
      }
    }
  }

  lemma BehindFirst(x: string, s: seq<string>, rest: seq<string>)
    requires Ascending(s) && s != [] && x !in s && Order(x, s[0]) != Lower
    requires Ascending(rest) && (forall y :: y in rest <==> y == x || y in s[1..])
    ensures Ascending([s[0]] + rest)
    ensures forall y :: y in [s[0]] + rest <==> y == x || y in s
  {
    var r := [s[0]] + rest;
    OrderTotal(x, s[0]);
    OrderTotal(s[0], x);
    forall i, j | 0 <= i < j < |r| ensures Order(r[i], r[j]) == Lower {
      if i == 0 {
        assert r[j] in rest;
      }
    }
    assert s == [s[0]] + s[1..];
  }

  ghost function Listed(names: set<string>): (s: seq<string>)
    ensures Ascending(s) && |s| == |names| && (forall x :: x in s <==> x in names)
    decreases |names|
  {
    if names == {} then []
    else
      var x :| x in names;
      Inserted(x, Listed(names - {x}))
  }

  /** There is one ascending list of a set. */
  lemma {:induction false} AscendingOnce(a: seq<string>, b: seq<string>)
    requires Ascending(a) && Ascending(b) && (forall x :: x in a <==> x in b)
    ensures a == b
    decreases a
  {
    if a == [] {
      HasFirst(b);
    } else {
      assert a[0] in b;
      FirstIsLeast(a, b);
      FirstIsLeast(b, a);
      OrderTotal(a[0], b[0]);
      OrderTotal(b[0], a[0]);
      assert forall x :: x in a[1..] <==> x in b[1..] by {
        RestOf(a);
        RestOf(b);
      }
      AscendingOnce(a[1..], b[1..]);
    }
  }

  lemma HasFirst(b: seq<string>)
    ensures b == [] || exists x :: x in b
  {
    if b != [] {
      assert b[0] in b;
    }
  }

  lemma FirstIsLeast(a: seq<string>, b: seq<string>)
    requires Ascending(a) && a != [] && b != [] && b[0] in a
    ensures Order(b[0], a[0]) != Lower
  {
    var i :| 0 <= i < |a| && a[i] == b[0];
    OrderTotal(a[0], b[0]);
    OrderTotal(b[0], a[0]);
  }

  lemma RestOf(a: seq<string>)
    requires Ascending(a) && a != []
    ensures Ascending(a[1..]) && (forall x :: x in a[1..] <==> x in a && x != a[0])
  {
    assert a == [a[0]] + a[1..];
    forall x | x in a[1..] ensures x != a[0] {
      OrderTotal(a[0], x);
    }
  }

  method List(names: set<string>) returns (s: seq<string>)
    ensures s == Listed(names)
  {
    s := [];
    var left := names;
    while left != {}
      invariant left <= names && Ascending(s) && (forall x :: x in s <==> x in names - left)
      decreases left
    {
      var x :| x in left;
      s := Inserted(x, s);
      left := left - {x};
    }
    AscendingOnce(s, Listed(names));
  }
}
