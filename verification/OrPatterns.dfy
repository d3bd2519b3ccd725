/** Flattening `|` patterns: every match arm becomes one arm per alternative. */
module OrPatterns {
  import opened Options

  const MAX_REPEAT_COUNT: nat := 4096

  datatype Literal = Integer(value: int) | Text(text: string) | Character(character: char) | Truth(truth: bool)

  /** The fields of a struct pattern are kept as names and patterns side by side. */
  datatype Pattern =
    | Wildcard
    | Binding(name: string)
    | Exactly(literal: Literal)
    | Or(alternatives: seq<Pattern>)
    | Struct(owner: string, names: seq<string>, patterns: seq<Pattern>, rest: bool)
    | Variant(enumeration: Option<string>, variant: string, arguments: seq<Pattern>)

  /** The type a running program keeps with an integer. */
  datatype Tag = Int | UInt | SignedOf(width: nat) | UnsignedOf(width: nat)

  /** Integers are untyped at compile time and `Whole` in a running program. Arrays match no pattern but a
      name; neither do the other values only a running program has. */
  datatype Value =
    | Scalar(literal: Literal)
    | Whole(tag: Tag, number: int)
    | Record(owner: string, fields: map<string, Value>)
    | Enum(enumeration: string, variant: string, payload: seq<Value>)
    | Sequence(items: seq<Value>)
    | Opaque(id: nat)

  type Bindings = map<string, Value>

  // ----- matching -----

  /** The values the patterns of a struct pattern are matched against; nothing if one is absent. */
  function FieldValues(names: seq<string>, fields: map<string, Value>): (r: Option<seq<Value>>)
    ensures r.Some? ==> |r.value| == |names|
  {
    if names == [] then Some([])
    else
      var n := |names| - 1;
      match FieldValues(names[..n], fields)
      case None => None
      case Some(vs) => if names[n] in fields then Some(vs + [fields[names[n]]]) else None
  }

  /** The values the inner patterns are matched against, if the outside fits. */
  function Parts(p: Pattern, v: Value): (r: Option<seq<Value>>)
    requires p.Struct? || p.Variant?
    ensures r.Some? ==> |r.value| == |Inner(p)|
  {
    match p
    case Struct(owner, names, patterns, _) =>
      if v.Record? && v.owner == owner && |names| == |patterns| then FieldValues(names, v.fields) else None
    case Variant(enumeration, variant, arguments) =>
      if v.Enum? && v.variant == variant && (enumeration.None? || enumeration.value == v.enumeration)
          && |arguments| == |v.payload|
      then Some(v.payload) else None
  }

  function Inner(p: Pattern): seq<Pattern>
    requires p.Struct? || p.Variant?
  {
    if p.Struct? then p.patterns else p.arguments
  }

  /** The bindings after a successful match; the first matching alternative counts. */
  function Match(p: Pattern, v: Value, b: Bindings): Option<Bindings>
    decreases p, 1
  {
    match p
    case Wildcard => Some(b)
    case Binding(x) => Some(b[x := v])
    case Exactly(l) => if v == Scalar(l) || (v.Whole? && l == Integer(v.number)) then Some(b) else None
    case Or(alternatives) => MatchAny(alternatives, v, b)
    case Struct(_, _, patterns, _) => (match Parts(p, v) case None => None case Some(vs) => MatchAll(patterns, vs, b))
    case Variant(_, _, arguments) => (match Parts(p, v) case None => None case Some(vs) => MatchAll(arguments, vs, b))
  }

  function MatchAny(ps: seq<Pattern>, v: Value, b: Bindings): Option<Bindings>
    decreases ps, 0
  {
    if ps == [] then None
    else match Match(ps[0], v, b)
         case Some(r) => Some(r)
         case None => MatchAny(ps[1..], v, b)
  }

  /** Left to right, each pattern adding to the bindings. */
  function MatchAll(ps: seq<Pattern>, vs: seq<Value>, b: Bindings): Option<Bindings>
    requires |ps| == |vs|
    decreases ps, 0
  {
    if ps == [] then Some(b)
    else
      var n := |ps| - 1;
      match MatchAll(ps[..n], vs[..n], b)
      case None => None
      case Some(r) => Match(ps[n], vs[n], r)
  }

  // ----- flattening -----

  function Names(p: Pattern): set<string>
    decreases p, 1
  {
    match p
    case Binding(x) => {x}
    case Or(alternatives) => NamesAll(alternatives)
    case Struct(_, _, patterns, _) => NamesAll(patterns)
    case Variant(_, _, arguments) => NamesAll(arguments)
    case _ => {}
  }

  function NamesAll(ps: seq<Pattern>): set<string>
    decreases ps, 0
  {
    if ps == [] then {} else NamesAll(ps[..|ps| - 1]) + Names(ps[|ps| - 1])
  }

  function Rebuilt(p: Pattern, inner: seq<Pattern>): Pattern
    requires p.Struct? || p.Variant?
  {
    if p.Struct? then p.(patterns := inner) else p.(arguments := inner)
  }

  function RebuiltAll(p: Pattern, inners: seq<seq<Pattern>>): (r: seq<Pattern>)
    requires p.Struct? || p.Variant?
    ensures |r| == |inners| && forall i :: 0 <= i < |r| ==> r[i] == Rebuilt(p, inners[i])
  {
    seq(|inners|, i requires 0 <= i < |inners| => Rebuilt(p, inners[i]))
  }

  function Alternatives(p: Pattern): seq<Pattern>
    decreases p, 1
  {
    match p
    case Or(alternatives) => Concatenated(alternatives)
    case Struct(_, _, patterns, _) => RebuiltAll(p, Products(patterns))
    case Variant(_, _, arguments) => RebuiltAll(p, Products(arguments))
    case _ => [p]
  }

  function Concatenated(ps: seq<Pattern>): seq<Pattern>
    decreases ps, 0
  {
    if ps == [] then [] else Concatenated(ps[..|ps| - 1]) + Alternatives(ps[|ps| - 1])
  }

  /** Every choice of one alternative per pattern, the first pattern varying slowest. */
  function Products(ps: seq<Pattern>): seq<seq<Pattern>>
    decreases ps, 0
  {
    if ps == [] then [[]] else Cross(Products(ps[..|ps| - 1]), Alternatives(ps[|ps| - 1]))
  }

  function Cross(products: seq<seq<Pattern>>, alternatives: seq<Pattern>): seq<seq<Pattern>>
  {
    if products == [] then [] else Row(products[0], alternatives) + Cross(products[1..], alternatives)
  }

  function Row(product: seq<Pattern>, alternatives: seq<Pattern>): (r: seq<seq<Pattern>>)
    ensures |r| == |alternatives| && forall i :: 0 <= i < |r| ==> r[i] == product + [alternatives[i]]
  {
    seq(|alternatives|, i requires 0 <= i < |alternatives| => product + [alternatives[i]])
  }

  // ----- matching does not depend on earlier bindings -----

  lemma {:induction false} SameSuccess(p: Pattern, v: Value, b: Bindings, b': Bindings)
    ensures Match(p, v, b).Some? == Match(p, v, b').Some?
    decreases p, 1
  {
    match p
    case Or(alternatives) => SameSuccessAny(alternatives, v, b, b');
    case Struct(_, _, patterns, _) => if Parts(p, v).Some? { SameSuccessAll(patterns, Parts(p, v).value, b, b'); }
    case Variant(_, _, arguments) => if Parts(p, v).Some? { SameSuccessAll(arguments, Parts(p, v).value, b, b'); }
    case _ =>
  }

  lemma {:induction false} SameSuccessAny(ps: seq<Pattern>, v: Value, b: Bindings, b': Bindings)
    ensures MatchAny(ps, v, b).Some? == MatchAny(ps, v, b').Some?
    decreases ps, 0
  {
    if ps != [] {
      SameSuccess(ps[0], v, b, b');
      SameSuccessAny(ps[1..], v, b, b');
    }
  }

  lemma {:induction false} SameSuccessAll(ps: seq<Pattern>, vs: seq<Value>, b: Bindings, b': Bindings)
    requires |ps| == |vs|
    ensures MatchAll(ps, vs, b).Some? == MatchAll(ps, vs, b').Some?
    decreases ps, 0
  {
    if ps != [] {
      var n := |ps| - 1;
      SameSuccessAll(ps[..n], vs[..n], b, b');
      if MatchAll(ps[..n], vs[..n], b).Some? {
        SameSuccess(ps[n], vs[n], MatchAll(ps[..n], vs[..n], b).value, MatchAll(ps[..n], vs[..n], b').value);
      }
    }
  }

  // ----- flattening preserves matching -----

  /** The first choice whose patterns all match. */
  function MatchProducts(products: seq<seq<Pattern>>, vs: seq<Value>, b: Bindings): Option<Bindings>
    requires forall i :: 0 <= i < |products| ==> |products[i]| == |vs|
  {
    if products == [] then None
    else match MatchAll(products[0], vs, b)
         case Some(r) => Some(r)
         case None => MatchProducts(products[1..], vs, b)
  }

  lemma {:induction false} MatchProductsAppend(x: seq<seq<Pattern>>, y: seq<seq<Pattern>>, vs: seq<Value>, b: Bindings)
    requires forall i :: 0 <= i < |x| ==> |x[i]| == |vs|
    requires forall i :: 0 <= i < |y| ==> |y[i]| == |vs|
    ensures MatchProducts(x + y, vs, b) == if MatchProducts(x, vs, b).Some? then MatchProducts(x, vs, b)
                                           else MatchProducts(y, vs, b)
    decreases x
  {
    if x == [] {
      assert x + y == y;
    } else {
      assert (x + y)[0] == x[0] && (x + y)[1..] == x[1..] + y;
      MatchProductsAppend(x[1..], y, vs, b);
    }
  }

  lemma {:induction false} MatchAnyAppend(x: seq<Pattern>, y: seq<Pattern>, v: Value, b: Bindings)
    ensures MatchAny(x + y, v, b) == if MatchAny(x, v, b).Some? then MatchAny(x, v, b) else MatchAny(y, v, b)
    decreases x
  {
    if x == [] {
      assert x + y == y;
    } else {
      assert (x + y)[0] == x[0] && (x + y)[1..] == x[1..] + y;
      MatchAnyAppend(x[1..], y, v, b);
    }
  }

  /** One row of the product: a fixed choice, then each alternative of the last pattern. */
  lemma {:induction false} MatchRow(product: seq<Pattern>, alternatives: seq<Pattern>, vs: seq<Value>, v: Value,
                                    b: Bindings)
    requires |product| == |vs|
    ensures MatchProducts(Row(product, alternatives), vs + [v], b) ==
            match MatchAll(product, vs, b) case None => None case Some(r) => MatchAny(alternatives, v, r)
    decreases alternatives
  {
    var row := Row(product, alternatives);
    if alternatives != [] {
      var first := product + [alternatives[0]];
      assert row[0] == first && row[1..] == Row(product, alternatives[1..]);
      assert first[..|product|] == product && (vs + [v])[..|product|] == vs;
      MatchRow(product, alternatives[1..], vs, v, b);
    }
  }

  lemma {:induction false} CrossLengths(products: seq<seq<Pattern>>, alternatives: seq<Pattern>, n: nat)
    requires forall i :: 0 <= i < |products| ==> |products[i]| == n
    ensures forall i :: 0 <= i < |Cross(products, alternatives)| ==> |Cross(products, alternatives)[i]| == n + 1
    decreases products
  {
    if products != [] {
      CrossLengths(products[1..], alternatives, n);
    }
  }

  lemma {:induction false} ProductsLengths(ps: seq<Pattern>)
    ensures forall i :: 0 <= i < |Products(ps)| ==> |Products(ps)[i]| == |ps|
    decreases ps
  {
    hide Alternatives;
    if ps != [] {
      ProductsLengths(ps[..|ps| - 1]);
      CrossLengths(Products(ps[..|ps| - 1]), Alternatives(ps[|ps| - 1]), |ps| - 1);
    }
  }

  lemma {:induction false} MatchCross(products: seq<seq<Pattern>>, alternatives: seq<Pattern>, vs: seq<Value>, v: Value,
                                      b: Bindings)
    requires forall i :: 0 <= i < |products| ==> |products[i]| == |vs|
    requires forall i :: 0 <= i < |Cross(products, alternatives)| ==> |Cross(products, alternatives)[i]| == |vs| + 1
    ensures MatchProducts(Cross(products, alternatives), vs + [v], b) ==
            match MatchProducts(products, vs, b) case None => None case Some(r) => MatchAny(alternatives, v, r)
    decreases products
  {
    if products != [] {
      var (row, rest) := (Row(products[0], alternatives), Cross(products[1..], alternatives));
      assert Cross(products, alternatives) == row + rest;
      CrossLengths(products[1..], alternatives, |vs|);
      MatchProductsAppend(row, rest, vs + [v], b);
      MatchRow(products[0], alternatives, vs, v, b);
      MatchCross(products[1..], alternatives, vs, v, b);
      var (here, later) := (MatchAll(products[0], vs, b), MatchProducts(products[1..], vs, b));
      if here.Some? && later.Some? {
        SameSuccessAny(alternatives, v, here.value, later.value);
      }
    }
  }

  /** The first alternative that matches gives the bindings of the original pattern. */
  lemma {:induction false} FlatteningMatches(p: Pattern, v: Value, b: Bindings)
    ensures MatchAny(Alternatives(p), v, b) == Match(p, v, b)
    decreases p, 1
  {
    match p
    case Or(alternatives) => ConcatenatedMatches(alternatives, v, b);
    case Struct(_, _, patterns, _) => RebuiltMatches(p, patterns, v, b);
    case Variant(_, _, arguments) => RebuiltMatches(p, arguments, v, b);
    case _ =>
      assert [p][1..] == [];
  }

  lemma {:induction false} ConcatenatedMatches(ps: seq<Pattern>, v: Value, b: Bindings)
    ensures MatchAny(Concatenated(ps), v, b) == MatchAny(ps, v, b)
    decreases ps, 0
  {
    if ps != [] {
      var n := |ps| - 1;
      ConcatenatedMatches(ps[..n], v, b);
      FlatteningMatches(ps[n], v, b);
      MatchAnyAppend(Concatenated(ps[..n]), Alternatives(ps[n]), v, b);
      MatchAnyAppend(ps[..n], [ps[n]], v, b);
      assert ps == ps[..n] + [ps[n]] && [ps[n]][1..] == [];
      assert MatchAny([ps[n]], v, b) == Match(ps[n], v, b);
    }
  }

  lemma {:induction false} ProductsMatch(ps: seq<Pattern>, vs: seq<Value>, b: Bindings)
    requires |ps| == |vs| && forall i :: 0 <= i < |Products(ps)| ==> |Products(ps)[i]| == |vs|
    ensures MatchProducts(Products(ps), vs, b) == MatchAll(ps, vs, b)
    decreases ps, 0
  {
    hide Alternatives;
    if ps == [] {
      assert Products(ps)[0] == [] && Products(ps)[1..] == [];
    } else {
      var n := |ps| - 1;
      ProductsLengths(ps[..n]);
      ProductsMatch(ps[..n], vs[..n], b);
      assert vs == vs[..n] + [vs[n]];
      CrossLengths(Products(ps[..n]), Alternatives(ps[n]), n);
      MatchCross(Products(ps[..n]), Alternatives(ps[n]), vs[..n], vs[n], b);
      if MatchAll(ps[..n], vs[..n], b).Some? {
        FlatteningMatches(ps[n], vs[n], MatchAll(ps[..n], vs[..n], b).value);
      }
    }
  }

  /** Matching rebuilt patterns is matching their inner patterns. */
  lemma {:induction false} RebuiltAny(p: Pattern, inners: seq<seq<Pattern>>, v: Value, b: Bindings)
    requires (p.Struct? || p.Variant?) && forall i :: 0 <= i < |inners| ==> |inners[i]| == |Inner(p)|
    ensures MatchAny(RebuiltAll(p, inners), v, b) == match Parts(p, v) case None => None
                                                     case Some(vs) => MatchProducts(inners, vs, b)
    decreases inners
  {
    var r := RebuiltAll(p, inners);
    if inners != [] {
      assert r[0] == Rebuilt(p, inners[0]) && r[1..] == RebuiltAll(p, inners[1..]);
      RebuiltAny(p, inners[1..], v, b);
      assert Parts(r[0], v) == Parts(p, v);
    }
  }

  lemma {:induction false} RebuiltMatches(p: Pattern, inner: seq<Pattern>, v: Value, b: Bindings)
    requires (p.Struct? || p.Variant?) && inner == Inner(p)
    ensures MatchAny(RebuiltAll(p, Products(inner)), v, b) == Match(p, v, b)
    decreases inner, 1
  {
    hide Products;
    ProductsLengths(inner);
    RebuiltAny(p, Products(inner), v, b);
    if Parts(p, v).Some? {
      ProductsMatch(inner, Parts(p, v).value, b);
    }
  }

  // ----- what the alternatives look like -----

  predicate Flat(p: Pattern)
  {
    match p
    case Or(_) => false
    case Struct(_, _, patterns, _) => forall i :: 0 <= i < |patterns| ==> Flat(patterns[i])
    case Variant(_, _, arguments) => forall i :: 0 <= i < |arguments| ==> Flat(arguments[i])
    case _ => true
  }

  /** Every `|` binds the same names in all its alternatives. */
  predicate Consistent(p: Pattern)
  {
    match p
    case Or(alternatives) =>
      forall i ::
        0 <= i < |alternatives| ==> Consistent(alternatives[i]) && Names(alternatives[i]) == Names(alternatives[0])
    case Struct(_, _, patterns, _) => forall i :: 0 <= i < |patterns| ==> Consistent(patterns[i])
    case Variant(_, _, arguments) => forall i :: 0 <= i < |arguments| ==> Consistent(arguments[i])
    case _ => true
  }

  /** A flat pattern binding exactly the given names. */
  predicate Plain(p: Pattern, names: set<string>)
  {
    Flat(p) && Names(p) == names
  }

  predicate AllFlat(ps: seq<Pattern>)
  {
    forall i :: 0 <= i < |ps| ==> Flat(ps[i])
  }

  lemma {:induction false} AlternativesPlain(p: Pattern)
    requires Consistent(p)
    ensures forall i :: 0 <= i < |Alternatives(p)| ==> Plain(Alternatives(p)[i], Names(p))
    decreases p, 1
  {
    match p
    case Or(alternatives) =>
      if alternatives != [] {
        ConcatenatedPlain(alternatives, Names(alternatives[0]));
        SameNames(alternatives, Names(alternatives[0]));
      }
    case Struct(_, _, patterns, _) => ProductsPlain(patterns);
    case Variant(_, _, arguments) => ProductsPlain(arguments);
    case _ =>
  }

  lemma {:induction false} SameNames(ps: seq<Pattern>, names: set<string>)
    requires forall i :: 0 <= i < |ps| ==> Names(ps[i]) == names
    ensures NamesAll(ps) == if ps == [] then {} else names
    decreases ps
  {
    if ps != [] {
      SameNames(ps[..|ps| - 1], names);
    }
  }

  lemma {:induction false} ConcatenatedPlain(ps: seq<Pattern>, names: set<string>)
    requires forall i :: 0 <= i < |ps| ==> Consistent(ps[i]) && Names(ps[i]) == names
    ensures forall i :: 0 <= i < |Concatenated(ps)| ==> Plain(Concatenated(ps)[i], names)
    decreases ps, 0
  {
    hide Plain, Consistent, Names;
    if ps != [] {
      ConcatenatedPlain(ps[..|ps| - 1], names);
      AlternativesPlain(ps[|ps| - 1]);
    }
  }

  lemma NamesAppend(ps: seq<Pattern>, p: Pattern)
    ensures NamesAll(ps + [p]) == NamesAll(ps) + Names(p)
  {
    assert (ps + [p])[..|ps|] == ps;
  }

  lemma {:induction false} CrossPlain(products: seq<seq<Pattern>>, alternatives: seq<Pattern>, before: set<string>,
                                      names: set<string>)
    requires forall i :: 0 <= i < |products| ==> AllFlat(products[i]) && NamesAll(products[i]) == before
    requires forall i :: 0 <= i < |alternatives| ==> Plain(alternatives[i], names)
    ensures forall i :: 0 <= i < |Cross(products, alternatives)| ==>
              AllFlat(Cross(products, alternatives)[i]) && NamesAll(Cross(products, alternatives)[i]) == before + names
    decreases products
  {
    hide NamesAll, Flat;
    if products != [] {
      CrossPlain(products[1..], alternatives, before, names);
      var row := Row(products[0], alternatives);
      forall i | 0 <= i < |row| ensures AllFlat(row[i]) && NamesAll(row[i]) == before + names {
        NamesAppend(products[0], alternatives[i]);
      }
    }
  }

  lemma {:induction false} ProductsPlain(ps: seq<Pattern>)
    requires forall i :: 0 <= i < |ps| ==> Consistent(ps[i])
    ensures forall i ::
              0 <= i < |Products(ps)| ==> AllFlat(Products(ps)[i]) && NamesAll(Products(ps)[i]) == NamesAll(ps)
    decreases ps, 0
  {
    hide Consistent, Alternatives, AllFlat;
    if ps == [] {
      assert AllFlat([]) by { NoneFlat(); }
    } else {
      var n := |ps| - 1;
      ProductsPlain(ps[..n]);
      AlternativesPlain(ps[n]);
      CrossPlain(Products(ps[..n]), Alternatives(ps[n]), NamesAll(ps[..n]), Names(ps[n]));
    }
  }

  lemma NoneFlat()
    ensures AllFlat([])
  {
  }

  // ----- limits -----

  /** The alternatives stay within the limit at every step of building them. */
  predicate Bounded(p: Pattern)
    decreases p, 1
  {
    match p
    case Or(alternatives) => BoundedSum(alternatives)
    case Struct(_, _, patterns, _) => BoundedProduct(patterns)
    case Variant(_, _, arguments) => BoundedProduct(arguments)
    case _ => true
  }

  predicate BoundedSum(ps: seq<Pattern>)
    decreases ps, 0
  {
    ps == [] || (BoundedSum(ps[..|ps| - 1]) && Bounded(ps[|ps| - 1]) && |Concatenated(ps)| <= MAX_REPEAT_COUNT)
  }

  predicate BoundedProduct(ps: seq<Pattern>)
    decreases ps, 0
  {
    ps == [] || (BoundedProduct(ps[..|ps| - 1]) && Bounded(ps[|ps| - 1]) && |Products(ps)| <= MAX_REPEAT_COUNT)
  }

  predicate Expandable(p: Pattern)
  {
    Consistent(p) && Bounded(p)
  }

  lemma {:induction false} PrefixBounded(ps: seq<Pattern>, n: nat)
    requires n <= |ps|
    ensures BoundedSum(ps) ==> BoundedSum(ps[..n])
    ensures BoundedProduct(ps) ==> BoundedProduct(ps[..n])
    decreases |ps| - n
  {
    if n < |ps| {
      PrefixBounded(ps, n + 1);
      assert ps[..n + 1][..n] == ps[..n];
    } else {
      assert ps[..n] == ps;
    }
  }

  // ----- patterns that need no flattening -----

  lemma CrossOne(product: seq<Pattern>, p: Pattern)
    ensures Cross([product], [p]) == [product + [p]]
  {
    assert [product][1..] == [] && Row(product, [p]) == [product + [p]];
  }

  /** A pattern without `|` is its own only alternative, so flattening twice is flattening once. */
  lemma {:induction false} FlatExpands(p: Pattern)
    requires Flat(p)
    ensures Alternatives(p) == [p] && Expandable(p)
    decreases p, 1
  {
    hide Products, BoundedProduct;
    match p
    case Struct(_, _, patterns, _) =>
      FlatProducts(patterns);
      assert RebuiltAll(p, [patterns]) == [p];
    case Variant(_, _, arguments) =>
      FlatProducts(arguments);
      assert RebuiltAll(p, [arguments]) == [p];
    case _ =>
  }

  lemma {:induction false} FlatProducts(ps: seq<Pattern>)
    requires forall i :: 0 <= i < |ps| ==> Flat(ps[i])
    ensures Products(ps) == [ps] && BoundedProduct(ps) && forall i :: 0 <= i < |ps| ==> Consistent(ps[i])
    decreases ps, 0
  {
    hide Alternatives, Bounded, Flat, Consistent, Cross;
    if ps != [] {
      var n := |ps| - 1;
      FlatProducts(ps[..n]);
      FlatExpands(ps[n]);
      CrossOne(ps[..n], ps[n]);
      assert ps[..n] + [ps[n]] == ps;
    }
  }

  lemma {:induction false} FlatSum(ps: seq<Pattern>)
    requires |ps| <= MAX_REPEAT_COUNT && forall i :: 0 <= i < |ps| ==> Flat(ps[i])
    ensures Concatenated(ps) == ps && BoundedSum(ps)
    decreases ps
  {
    hide Alternatives, Bounded, Flat, Consistent;
    if ps != [] {
      var n := |ps| - 1;
      FlatSum(ps[..n]);
      FlatExpands(ps[n]);
      assert ps[..n] + [ps[n]] == ps;
    }
  }

  // ----- the expansion as it is done -----

  method BindingNames(p: Pattern) returns (names: set<string>)
    ensures names == Names(p)
    decreases p, 1
  {
    match p
    case Binding(x) => names := {x};
    case Or(alternatives) => names := BindingNamesAll(alternatives);
    case Struct(_, _, patterns, _) => names := BindingNamesAll(patterns);
    case Variant(_, _, arguments) => names := BindingNamesAll(arguments);
    case _ => names := {};
  }

  method BindingNamesAll(ps: seq<Pattern>) returns (names: set<string>)
    ensures names == NamesAll(ps)
    decreases ps, 0
  {
    names := {};
    var i := 0;
    while i < |ps|
      invariant 0 <= i <= |ps| && names == NamesAll(ps[..i])
    {
      var more := BindingNames(ps[i]);
      NamesAppend(ps[..i], ps[i]);
      assert ps[..i + 1] == ps[..i] + [ps[i]];
      names := names + more;
      i := i + 1;
    }
    assert ps[..i] == ps;
  }

  /** Succeeds exactly on consistent patterns within the limit. */
  method Expand(p: Pattern) returns (r: Option<seq<Pattern>>)
    ensures r.Some? <==> Expandable(p)
    ensures r.Some? ==> r.value == Alternatives(p)
    decreases p, 1
  {
    match p
    case Or(alternatives) => r := ExpandOr(alternatives);
    case Struct(_, _, patterns, _) =>
      var products := ExpandProduct(patterns);
      r := if products.Some? then Some(RebuiltAll(p, products.value)) else None;
    case Variant(_, _, arguments) =>
      var products := ExpandProduct(arguments);
      r := if products.Some? then Some(RebuiltAll(p, products.value)) else None;
    case _ => r := Some([p]);
  }

  method ExpandOr(ps: seq<Pattern>) returns (r: Option<seq<Pattern>>)
    ensures r.Some? <==> Expandable(Or(ps))
    ensures r.Some? ==> r.value == Concatenated(ps)
    decreases ps, 0
  {
    var expected := {};
    if ps != [] {
      expected := BindingNames(ps[0]);
    }
    var expanded := [];
    var i := 0;
    while i < |ps|
      invariant 0 <= i <= |ps| && expanded == Concatenated(ps[..i]) && BoundedSum(ps[..i])
      invariant forall j :: 0 <= j < i ==> Consistent(ps[j]) && Names(ps[j]) == expected
    {
      hide Consistent, Names, Bounded, Alternatives;
      assert ps[..i + 1][..i] == ps[..i] && ps[..i + 1][i] == ps[i];
      var actual := BindingNames(ps[i]);
      if actual != expected {
        NotConsistent(ps, i);
        return None;
      }
      var more := Expand(ps[i]);
      PrefixBounded(ps, i + 1);
      if more.None? {
        NotExpandable(ps, i);
        return None;
      }
      expanded := expanded + more.value;
      if |expanded| > MAX_REPEAT_COUNT {
        return None;
      }
      i := i + 1;
    }
    assert ps[..i] == ps;
    r := Some(expanded);
  }

  lemma NotConsistent(ps: seq<Pattern>, i: nat)
    requires i < |ps| && Names(ps[i]) != Names(ps[0])
    ensures !Consistent(Or(ps))
  {
  }

  lemma NotExpandable(ps: seq<Pattern>, i: nat)
    requires i < |ps| && !Expandable(ps[i]) && (BoundedSum(ps) ==> BoundedSum(ps[..i + 1]))
    ensures !Expandable(Or(ps))
  {
    assert ps[..i + 1][i] == ps[i];
  }

  method ExpandProduct(ps: seq<Pattern>) returns (r: Option<seq<seq<Pattern>>>)
    ensures r.Some? <==> BoundedProduct(ps) && forall i :: 0 <= i < |ps| ==> Consistent(ps[i])
    ensures r.Some? ==> r.value == Products(ps)
    decreases ps, 0
  {
    var products: seq<seq<Pattern>> := [[]];
    var i := 0;
    while i < |ps|
      invariant 0 <= i <= |ps| && products == Products(ps[..i]) && BoundedProduct(ps[..i])
      invariant forall j :: 0 <= j < i ==> Consistent(ps[j])
    {
      hide Consistent, Bounded, Alternatives, Cross;
      assert ps[..i + 1][..i] == ps[..i] && ps[..i + 1][i] == ps[i];
      PrefixBounded(ps, i + 1);
      var alternatives := Expand(ps[i]);
      if alternatives.None? {
        return None;
      }
      var next := CrossWithin(products, alternatives.value);
      if next.None? {
        return None;
      }
      products := next.value;
      i := i + 1;
    }
    assert ps[..i] == ps;
    r := Some(products);
  }

  lemma {:induction false} CrossAppend(x: seq<seq<Pattern>>, product: seq<Pattern>, alternatives: seq<Pattern>)
    ensures Cross(x + [product], alternatives) == Cross(x, alternatives) + Row(product, alternatives)
    decreases x
  {
    if x == [] {
      assert [product][1..] == [] && x + [product] == [product];
      assert Cross([product], alternatives) == Row(product, alternatives) + Cross([], alternatives);
    } else {
      assert (x + [product])[1..] == x[1..] + [product] && (x + [product])[0] == x[0];
      CrossAppend(x[1..], product, alternatives);
    }
  }

  lemma {:induction false} CrossSize(x: seq<seq<Pattern>>, alternatives: seq<Pattern>)
    ensures |Cross(x, alternatives)| == |x| * |alternatives|
    decreases x
  {
    if x != [] {
      CrossSize(x[1..], alternatives);
      assert |x| * |alternatives| == |alternatives| + |x[1..]| * |alternatives|;
    }
  }

  /** Extends every product by every alternative, stopping as soon as there are too many. */
  method CrossWithin(products: seq<seq<Pattern>>, alternatives: seq<Pattern>) returns (r: Option<seq<seq<Pattern>>>)
    ensures r.Some? <==> |Cross(products, alternatives)| <= MAX_REPEAT_COUNT
    ensures r.Some? ==> r.value == Cross(products, alternatives)
  {
    var next := [];
    var i := 0;
    CrossSize(products, alternatives);
    while i < |products|
      invariant 0 <= i <= |products| && next == Cross(products[..i], alternatives) && |next| <= MAX_REPEAT_COUNT
    {
      CrossAppend(products[..i], products[i], alternatives);
      assert products[..i + 1] == products[..i] + [products[i]];
      CrossSize(products[..i + 1], alternatives);
      var j := 0;
      var before := next;
      while j < |alternatives|
        invariant 0 <= j <= |alternatives| && next == before + Row(products[i], alternatives)[..j]
                  && |next| <= MAX_REPEAT_COUNT
      {
        next := next + [products[i] + [alternatives[j]]];
        if |next| > MAX_REPEAT_COUNT {
          MoreRows(|products|, i + 1, |alternatives|);
          return None;
        }
        j := j + 1;
      }
      assert Row(products[i], alternatives)[..j] == Row(products[i], alternatives);
      i := i + 1;
    }
    assert products[..i] == products;
    r := Some(next);
  }

  lemma MoreRows(n: nat, i: nat, k: nat)
    requires i <= n
    ensures i * k <= n * k
  {
  }

  // ----- arms -----

  /** Guards and bodies are opaque here; a group marks arms made from one `|` pattern. */
  datatype Arm = Arm(pattern: Pattern, guard: Option<nat>, body: nat, group: Option<nat>)

  type Guards = (nat, Bindings) -> bool

  predicate Passes(guard: Option<nat>, b: Bindings, holds: Guards)
  {
    guard.None? || holds(guard.value, b)
  }

  /** The index of the arm taken and its bindings. */
  datatype Taken = Nowhere | Taken(arm: nat, bindings: Bindings)

  function Later(t: Taken, n: nat): Taken
  {
    match t
    case Nowhere => Nowhere
    case Taken(i, b) => Taken(i + n, b)
  }

  /** How a match expression runs: the first arm whose pattern matches and whose guard passes. */
  function Choose(arms: seq<Arm>, v: Value, holds: Guards): Taken
  {
    if arms == [] then Nowhere
    else match Match(arms[0].pattern, v, map[])
         case Some(b) => if Passes(arms[0].guard, b, holds) then Taken(0, b) else Later(Choose(arms[1..], v, holds), 1)
         case None => Later(Choose(arms[1..], v, holds), 1)
  }

  /** The first alternative that matches and passes the guard. */
  function Pick(ps: seq<Pattern>, guard: Option<nat>, v: Value, holds: Guards): Option<Bindings>
  {
    if ps == [] then None
    else match Match(ps[0], v, map[])
         case Some(b) => if Passes(guard, b, holds) then Some(b) else Pick(ps[1..], guard, v, holds)
         case None => Pick(ps[1..], guard, v, holds)
  }

  /** The first arm one of whose alternatives matches and passes its guard. */
  function ChooseAlternative(arms: seq<Arm>, v: Value, holds: Guards): Taken
  {
    if arms == [] then Nowhere
    else match Pick(Alternatives(arms[0].pattern), arms[0].guard, v, holds)
         case Some(b) => Taken(0, b)
         case None => Later(ChooseAlternative(arms[1..], v, holds), 1)
  }

  function Copies(arm: Arm, alternatives: seq<Pattern>, group: nat): (r: seq<Arm>)
    ensures |r| == |alternatives|
  {
    seq(|alternatives|, i requires 0 <= i < |alternatives| =>
      arm.(pattern := alternatives[i], group := if |alternatives| > 1 then Some(group) else None))
  }

  function NextGroup(arm: Arm, group: nat): nat
  {
    if |Alternatives(arm.pattern)| > 1 then group + 1 else group
  }

  function Rewritten(arms: seq<Arm>, group: nat): seq<Arm>
    decreases arms
  {
    if arms == [] then []
    else Copies(arms[0], Alternatives(arms[0].pattern), group) + Rewritten(arms[1..], NextGroup(arms[0], group))
  }

  lemma {:induction false} ChooseAppend(x: seq<Arm>, y: seq<Arm>, v: Value, holds: Guards)
    ensures Choose(x + y, v, holds) == if Choose(x, v, holds).Taken? then Choose(x, v, holds)
                                       else Later(Choose(y, v, holds), |x|)
    decreases x
  {
    if x == [] {
      assert x + y == y;
    } else {
      assert (x + y)[0] == x[0] && (x + y)[1..] == x[1..] + y;
      ChooseAppend(x[1..], y, v, holds);
    }
  }

  lemma {:induction false} ChooseCopies(arm: Arm, ps: seq<Pattern>, copies: seq<Arm>, v: Value, holds: Guards)
    requires |copies| == |ps|
             && forall i :: 0 <= i < |ps| ==> copies[i].pattern == ps[i] && copies[i].guard == arm.guard
    ensures match Pick(ps, arm.guard, v, holds)
            case None => Choose(copies, v, holds).Nowhere?
            case Some(b) =>
              Choose(copies, v, holds).Taken? && Choose(copies, v, holds).bindings == b
              && Choose(copies, v, holds).arm < |ps|
    decreases ps
  {
    if ps != [] {
      ChooseCopies(arm, ps[1..], copies[1..], v, holds);
    }
  }

  /** Where the copies of an arm start. */
  function Offset(arms: seq<Arm>, i: nat): nat
    requires i <= |arms|
  {
    if i == 0 then 0 else |Alternatives(arms[0].pattern)| + Offset(arms[1..], i - 1)
  }

  /** The rewritten match takes a copy of the first arm with an alternative that matches and passes. */
  lemma {:induction false} RewrittenChooses(arms: seq<Arm>, group: nat, v: Value, holds: Guards)
    ensures var (want, got) := (ChooseAlternative(arms, v, holds), Choose(Rewritten(arms, group), v, holds));
            && want.Taken? == got.Taken?
            && (want.Taken? ==>
                  want.arm < |arms| && got.bindings == want.bindings
                  && Offset(arms, want.arm) <= got.arm < Offset(arms, want.arm + 1))
    decreases arms
  {
    hide Alternatives, Match;
    if arms != [] {
      var ps := Alternatives(arms[0].pattern);
      var copies := Copies(arms[0], ps, group);
      ChooseCopies(arms[0], ps, copies, v, holds);
      RewrittenChooses(arms[1..], NextGroup(arms[0], group), v, holds);
      ChooseAppend(copies, Rewritten(arms[1..], NextGroup(arms[0], group)), v, holds);
    }
  }

  /** No alternative behind the first matching one passes a guard that the first fails. */
  predicate Settled(arm: Arm, v: Value, holds: Guards)
  {
    match Match(arm.pattern, v, map[])
    case None => true
    case Some(b) => Passes(arm.guard, b, holds) || Pick(Alternatives(arm.pattern), arm.guard, v, holds).None?
  }

  lemma {:induction false} PickFirst(ps: seq<Pattern>, guard: Option<nat>, v: Value, holds: Guards)
    ensures MatchAny(ps, v, map[]).None? ==> Pick(ps, guard, v, holds).None?
    ensures MatchAny(ps, v, map[]).Some? && Passes(guard, MatchAny(ps, v, map[]).value, holds) ==>
              Pick(ps, guard, v, holds) == MatchAny(ps, v, map[])
    decreases ps
  {
    if ps != [] {
      PickFirst(ps[1..], guard, v, holds);
    }
  }

  /** Flattening leaves a match as it was exactly when every arm before the one taken is settled. */
  lemma {:induction false} FlatteningChooses(arms: seq<Arm>, v: Value, holds: Guards)
    ensures ChooseAlternative(arms, v, holds) == Choose(arms, v, holds) <==>
            forall i ::
              0 <= i < |arms| && (Choose(arms, v, holds).Nowhere? || i < Choose(arms, v, holds).arm) ==>
                Settled(arms[i], v, holds)
    decreases arms
  {
    if arms != [] {
      var (arm, rest) := (arms[0], arms[1..]);
      FlatteningMatches(arm.pattern, v, map[]);
      PickFirst(Alternatives(arm.pattern), arm.guard, v, holds);
      FlatteningChooses(rest, v, holds);
      hide Match, MatchAny, Alternatives, Pick, Passes;
      assert forall i :: 0 < i < |arms| ==> arms[i] == rest[i - 1];
      assert forall i :: 0 <= i < |rest| ==> rest[i] == arms[i + 1];
    }
  }

  /** Without guards flattening never changes a match. */
  lemma GuardFreeChooses(arms: seq<Arm>, v: Value, holds: Guards)
    requires forall i :: 0 <= i < |arms| ==> arms[i].guard.None?
    ensures ChooseAlternative(arms, v, holds) == Choose(arms, v, holds)
  {
    FlatteningChooses(arms, v, holds);
  }

  // ----- which patterns are safe, whatever the guards -----

  /** All alternatives that match the value bind the same. */
  predicate Uniform(ps: seq<Pattern>, v: Value, b: Bindings)
  {
    forall i :: 0 <= i < |ps| && Match(ps[i], v, map[]).Some? ==> Match(ps[i], v, map[]) == Some(b)
  }

  /** No arm before this one takes the value without asking a guard. */
  predicate Open(arms: seq<Arm>, i: nat, v: Value)
    requires i <= |arms|
  {
    forall k :: 0 <= k < i ==> !(arms[k].guard.None? && Match(arms[k].pattern, v, map[]).Some?)
  }

  /** A guarded arm that a value can come to has one way of binding it. */
  predicate OneBinding(arms: seq<Arm>, i: nat, v: Value)
    requires i < |arms|
  {
    arms[i].guard.Some? && Open(arms, i, v) && Match(arms[i].pattern, v, map[]).Some? ==>
      Uniform(Alternatives(arms[i].pattern), v, Match(arms[i].pattern, v, map[]).value)
  }

  ghost predicate GuardsSafe(arms: seq<Arm>)
  {
    forall i: nat, v: Value | i < |arms| :: OneBinding(arms, i, v)
  }

  predicate OwnGuards(arms: seq<Arm>)
  {
    forall i, j :: 0 <= i < j < |arms| && arms[i].guard.Some? && arms[j].guard.Some? ==> arms[i].guard != arms[j].guard
  }

  lemma {:induction false} UniformPick(ps: seq<Pattern>, guard: Option<nat>, v: Value, b: Bindings, holds: Guards)
    requires Uniform(ps, v, b) && !Passes(guard, b, holds)
    ensures Pick(ps, guard, v, holds).None?
    decreases ps
  {
    hide Match;
    if ps != [] {
      var rest := ps[1..];
      assert Uniform(rest, v, b) by { assert forall i :: 0 <= i < |rest| ==> rest[i] == ps[i + 1]; }
      UniformPick(rest, guard, v, b, holds);
    }
  }

  lemma {:induction false} PickFinds(ps: seq<Pattern>, guard: Option<nat>, v: Value, holds: Guards, i: nat)
    requires i < |ps| && Match(ps[i], v, map[]).Some? && Passes(guard, Match(ps[i], v, map[]).value, holds)
    ensures Pick(ps, guard, v, holds).Some?
    decreases ps
  {
    hide Match;
    if i > 0 {
      PickFinds(ps[1..], guard, v, holds, i - 1);
    }
  }

  /** Passed over by every arm before the one taken: pattern or guard fails. */
  lemma {:induction false} PassedOver(arms: seq<Arm>, v: Value, holds: Guards, i: nat)
    requires i < |arms| && (Choose(arms, v, holds).Nowhere? || i < Choose(arms, v, holds).arm)
    ensures Match(arms[i].pattern, v, map[]).Some? ==>
              !Passes(arms[i].guard, Match(arms[i].pattern, v, map[]).value, holds)
    decreases arms
  {
    hide Match, Passes;
    if i > 0 {
      PassedOver(arms[1..], v, holds, i - 1);
    }
  }

  lemma {:induction false} ReachesArm(arms: seq<Arm>, v: Value, holds: Guards, i: nat)
    requires i <= |arms|
    requires forall k :: 0 <= k < i && Match(arms[k].pattern, v, map[]).Some? ==>
               !Passes(arms[k].guard, Match(arms[k].pattern, v, map[]).value, holds)
    ensures Choose(arms, v, holds).Nowhere? || i <= Choose(arms, v, holds).arm
    decreases arms
  {
    hide Match, Passes;
    if i > 0 {
      var rest := arms[1..];
      assert forall k :: 0 <= k < i - 1 ==> rest[k] == arms[k + 1];
      ReachesArm(rest, v, holds, i - 1);
    }
  }

  /** Safe patterns are settled for every guard. */
  lemma SafeChooses(arms: seq<Arm>, v: Value, holds: Guards)
    requires GuardsSafe(arms)
    ensures ChooseAlternative(arms, v, holds) == Choose(arms, v, holds)
  {
    hide Match, Alternatives, Pick, Choose, ChooseAlternative;
    var taken := Choose(arms, v, holds);
    forall i | 0 <= i < |arms| && (taken.Nowhere? || i < taken.arm) ensures Settled(arms[i], v, holds) {
      PassedOver(arms, v, holds, i);
      var r := Match(arms[i].pattern, v, map[]);
      if r.Some? {
        assert OneBinding(arms, i, v);
        assert Open(arms, i, v) by {
          forall k | 0 <= k < i ensures !(arms[k].guard.None? && Match(arms[k].pattern, v, map[]).Some?) {
            PassedOver(arms, v, holds, k);
          }
        }
        UniformPick(Alternatives(arms[i].pattern), arms[i].guard, v, r.value, holds);
      }
    }
    FlatteningChooses(arms, v, holds);
  }

  /** Patterns that are not safe are told apart by some guard. */
  lemma UnsafeDiffers(arms: seq<Arm>, i: nat, v: Value) returns (holds: Guards)
    requires OwnGuards(arms) && i < |arms| && !OneBinding(arms, i, v)
    ensures ChooseAlternative(arms, v, holds) != Choose(arms, v, holds)
  {
    hide Match, Alternatives, Pick, Choose, ChooseAlternative;
    var (ps, b) := (Alternatives(arms[i].pattern), Match(arms[i].pattern, v, map[]).value);
    var j :| 0 <= j < |ps| && Match(ps[j], v, map[]).Some? && Match(ps[j], v, map[]) != Some(b);
    var (other, guard) := (Match(ps[j], v, map[]).value, arms[i].guard.value);
    holds := (g, x) => g == guard && x == other;
    forall k | 0 <= k < i && Match(arms[k].pattern, v, map[]).Some?
      ensures !Passes(arms[k].guard, Match(arms[k].pattern, v, map[]).value, holds)
    {
      assert arms[k].guard.Some?;
    }
    assert !Passes(arms[i].guard, b, holds);
    ReachesArm(arms, v, holds, i + 1);
    PickFinds(ps, arms[i].guard, v, holds, j);
    assert !Settled(arms[i], v, holds);
    FlatteningChooses(arms, v, holds);
  }

  /** Flattening is right for every value and every guard exactly when the patterns are safe. */
  lemma FlatteningSafe(arms: seq<Arm>)
    requires OwnGuards(arms)
    ensures GuardsSafe(arms) <==> forall v: Value, holds: Guards ::
              ChooseAlternative(arms, v, holds) == Choose(arms, v, holds)
  {
    hide ChooseAlternative, Choose, OneBinding;
    if GuardsSafe(arms) {
      forall v: Value, holds: Guards ensures ChooseAlternative(arms, v, holds) == Choose(arms, v, holds) {
        SafeChooses(arms, v, holds);
      }
    } else {
      var i: nat, v: Value :| i < |arms| && !OneBinding(arms, i, v);
      var holds := UnsafeDiffers(arms, i, v);
    }
  }

  /** With a guard it can: the second alternative gets its own try. */
  lemma GuardRetried(holds: Guards, x: string, a: Value, b: Value)
    requires a != b && !holds(0, map[x := a]) && holds(0, map[x := b])
    ensures var v := Enum("Pair", "of", [a, b]);
            var p := Or([Variant(None, "of", [Binding(x), Wildcard]), Variant(None, "of", [Wildcard, Binding(x)])]);
            var arms := [Arm(p, Some(0), 7, None)];
            Expandable(p) && Choose(arms, v, holds).Nowhere?
                && ChooseAlternative(arms, v, holds) == Taken(0, map[x := b])
  {
    var v := Enum("Pair", "of", [a, b]);
    var (p1, p2) := (Variant(None, "of", [Binding(x), Wildcard]), Variant(None, "of", [Wildcard, Binding(x)]));
    var arm := Arm(Or([p1, p2]), Some(0), 7, None);
    PairMatches(x, a, b);
    PairExpands(x);
    assert MatchAny([p1, p2], v, map[]) == Some(map[x := a]);
    assert [p1, p2][1..] == [p2] && [arm][1..] == [];
    assert Pick([p1, p2], Some(0), v, holds) == Some(map[x := b]);
  }

  lemma PairMatches(x: string, a: Value, b: Value)
    ensures Match(Variant(None, "of", [Binding(x), Wildcard]), Enum("Pair", "of", [a, b]), map[]) == Some(map[x := a])
    ensures Match(Variant(None, "of", [Wildcard, Binding(x)]), Enum("Pair", "of", [a, b]), map[]) == Some(map[x := b])
  {
    AllOfTwo(Binding(x), Wildcard, a, b);
    AllOfTwo(Wildcard, Binding(x), a, b);
  }

  lemma AllOfTwo(p: Pattern, q: Pattern, a: Value, b: Value)
    ensures MatchAll([p, q], [a, b], map[]) == match Match(p, a, map[]) case None => None case Some(r) => Match(q, b, r)
  {
    assert [p, q][..1] == [p] && [a, b][..1] == [a] && [p][..0] == [] && [a][..0] == [];
    assert MatchAll([], [], map[]) == Some(map[]);
    assert MatchAll([p], [a], map[]) == Match(p, a, map[]);
  }

  lemma PairExpands(x: string)
    ensures var (p1, p2) := (Variant(None, "of", [Binding(x), Wildcard]), Variant(None, "of", [Wildcard, Binding(x)]));
            Alternatives(Or([p1, p2])) == [p1, p2] && Expandable(Or([p1, p2]))
  {
    hide Alternatives, Products, Concatenated, BoundedSum, BoundedProduct;
    var (p1, p2) := (Variant(None, "of", [Binding(x), Wildcard]), Variant(None, "of", [Wildcard, Binding(x)]));
    PairNames(Binding(x), Wildcard);
    PairNames(Wildcard, Binding(x));
    PairFlat(Binding(x), Wildcard);
    PairFlat(Wildcard, Binding(x));
    FlatExpands(p1);
    FlatExpands(p2);
    FlatSum([p1, p2]);
    ExpandsOr([p1, p2]);
  }

  lemma PairFlat(a: Pattern, b: Pattern)
    requires Flat(a) && Flat(b)
    ensures Flat(Variant(None, "of", [a, b]))
  {
    var pair := [a, b];
    assert pair[0] == a && pair[1] == b;
  }

  lemma PairNames(a: Pattern, b: Pattern)
    ensures Names(Variant(None, "of", [a, b])) == Names(a) + Names(b)
  {
    hide Names;
    NamesAppend([a], b);
    NamesAppend([], a);
    assert [a] + [b] == [a, b] && [] + [a] == [a];
    VariantNames([a, b]);
  }

  lemma VariantNames(ps: seq<Pattern>)
    ensures Names(Variant(None, "of", ps)) == NamesAll(ps) && NamesAll([]) == {}
  {
  }

  lemma ExpandsOr(ps: seq<Pattern>)
    ensures Alternatives(Or(ps)) == Concatenated(ps) && Bounded(Or(ps)) == BoundedSum(ps)
  {
    hide Concatenated, BoundedSum;
  }

  /** All patterns expand and the arms stay within the limit at every step. */
  predicate ArmsBounded(arms: seq<Arm>)
  {
    forall i :: 0 <= i < |arms| ==> Expandable(arms[i].pattern) && Offset(arms, i + 1) <= MAX_REPEAT_COUNT
  }

  predicate ArmFits(arms: seq<Arm>, i: nat)
    requires i < |arms|
  {
    Expandable(arms[i].pattern) && Offset(arms, i + 1) <= MAX_REPEAT_COUNT
  }

  /** The arms before `i` are done. */
  predicate Expanding(arms: seq<Arm>, firstGroup: nat, i: nat, expanded: seq<Arm>, group: nat)
    requires i <= |arms|
  {
    && |expanded| == Offset(arms, i)
    && expanded + Rewritten(arms[i..], group) == Rewritten(arms, firstGroup)
    && forall j :: 0 <= j < i ==> ArmFits(arms, j)
  }

  lemma ExpandingStarts(arms: seq<Arm>, firstGroup: nat)
    ensures Expanding(arms, firstGroup, 0, [], firstGroup)
  {
    hide Rewritten;
    assert arms[0..] == arms && [] + Rewritten(arms, firstGroup) == Rewritten(arms, firstGroup);
  }

  lemma RewrittenNext(arms: seq<Arm>, i: nat, group: nat)
    requires i < |arms|
    ensures Rewritten(arms[i..], group) ==
            Copies(arms[i], Alternatives(arms[i].pattern), group) + Rewritten(arms[i + 1..], NextGroup(arms[i], group))
  {
    hide Alternatives, Copies, NextGroup;
    assert arms[i..][0] == arms[i] && arms[i..][1..] == arms[i + 1..];
  }

  lemma ExpandingNext(arms: seq<Arm>, firstGroup: nat, i: nat, expanded: seq<Arm>, group: nat)
    requires i < |arms| && Expanding(arms, firstGroup, i, expanded, group) && ArmFits(arms, i)
    ensures Expanding(arms, firstGroup, i + 1,
                      expanded + Copies(arms[i], Alternatives(arms[i].pattern), group), NextGroup(arms[i], group))
  {
    hide Alternatives, Rewritten, NextGroup, Offset, ArmFits;
    OffsetNext(arms, i);
    RewrittenNext(arms, i, group);
    var (copies, rest) := (Copies(arms[i], Alternatives(arms[i].pattern), group),
                           Rewritten(arms[i + 1..], NextGroup(arms[i], group)));
    hide Copies;
    assert (expanded + copies) + rest == expanded + (copies + rest);
  }

  lemma ExpandingEnds(arms: seq<Arm>, firstGroup: nat, expanded: seq<Arm>, group: nat)
    requires Expanding(arms, firstGroup, |arms|, expanded, group)
    ensures ArmsBounded(arms) && expanded == Rewritten(arms, firstGroup)
  {
    hide Expandable, Offset;
    assert arms[|arms|..] == [] && expanded + [] == expanded;
    forall i | 0 <= i < |arms| ensures Expandable(arms[i].pattern) && Offset(arms, i + 1) <= MAX_REPEAT_COUNT {
      assert ArmFits(arms, i);
    }
  }

  method ExpandArms(arms: seq<Arm>, firstGroup: nat) returns (r: Option<seq<Arm>>)
    ensures r.Some? <==> ArmsBounded(arms)
    ensures r.Some? ==> r.value == Rewritten(arms, firstGroup)
  {
    hide Expandable, Alternatives, Expanding, Rewritten, Offset;
    var expanded: seq<Arm> := [];
    var group := firstGroup;
    var i := 0;
    ExpandingStarts(arms, firstGroup);
    while i < |arms|
      invariant 0 <= i <= |arms| && Expanding(arms, firstGroup, i, expanded, group)
    {
      var alternatives := Expand(arms[i].pattern);
      if alternatives.None? {
        return None;
      }
      ExpandingLength(arms, firstGroup, i, expanded, group);
      if |expanded| + |alternatives.value| > MAX_REPEAT_COUNT {
        return None;
      }
      ExpandingNext(arms, firstGroup, i, expanded, group);
      expanded := expanded + Copies(arms[i], alternatives.value, group);
      group := NextGroup(arms[i], group);
      i := i + 1;
    }
    ExpandingEnds(arms, firstGroup, expanded, group);
    r := Some(expanded);
  }

  lemma ExpandingLength(arms: seq<Arm>, firstGroup: nat, i: nat, expanded: seq<Arm>, group: nat)
    requires i < |arms| && Expanding(arms, firstGroup, i, expanded, group)
    ensures Offset(arms, i + 1) == |expanded| + |Alternatives(arms[i].pattern)|
  {
    hide Alternatives, Rewritten, Offset;
    OffsetNext(arms, i);
  }

  lemma {:induction false} OffsetNext(arms: seq<Arm>, i: nat)
    requires i < |arms|
    ensures Offset(arms, i + 1) == Offset(arms, i) + |Alternatives(arms[i].pattern)|
    decreases i
  {
    hide Alternatives;
    if i > 0 {
      OffsetNext(arms[1..], i - 1);
    }
  }
}
