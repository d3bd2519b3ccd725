/** The integers of compile-time evaluation: a sign and a 128-bit magnitude. */
module ConstantArithmetic {
  import opened Options
  import opened Lexing

  type Magnitude = n: int | 0 <= n < INTEGER_LIMIT

  datatype Signed = Signed(negative: bool, magnitude: Magnitude)

  datatype Ordering = Lower | Equal | Higher

  /** There is no negative zero. */
  function Normalized(negative: bool, magnitude: Magnitude): Signed
  {
    Signed(negative && magnitude != 0, magnitude)
  }

  predicate Normal(i: Signed)
  {
    i.negative ==> i.magnitude != 0
  }

  function Opposite(i: Signed): Signed
  {
    Normalized(!i.negative, i.magnitude)
  }

  function Sum(a: Signed, b: Signed): Option<Signed>
  {
    if a.negative == b.negative then
      if a.magnitude + b.magnitude < INTEGER_LIMIT then Some(Normalized(a.negative, a.magnitude + b.magnitude))
      else None
    else if a.magnitude >= b.magnitude then Some(Normalized(a.negative, a.magnitude - b.magnitude))
    else Some(Normalized(b.negative, b.magnitude - a.magnitude))
  }

  function Product(a: Signed, b: Signed): Option<Signed>
  {
    var magnitude := a.magnitude * b.magnitude;
    assert magnitude >= 0;
    if magnitude < INTEGER_LIMIT then Some(Normalized(a.negative != b.negative, magnitude)) else None
  }

  function Quotient(a: Signed, b: Signed): Option<Signed>
  {
    if b.magnitude == 0 then None
    else
      QuotientBounded(a.magnitude, b.magnitude);
      Some(Normalized(a.negative != b.negative, a.magnitude / b.magnitude))
  }

  function Remainder(a: Signed, b: Signed): Option<Signed>
  {
    if b.magnitude == 0 then None else Some(Normalized(a.negative, a.magnitude % b.magnitude))
  }

  lemma QuotientBounded(a: nat, b: nat)
    requires b > 0
    ensures 0 <= a / b <= a
  {
    Grows(a / b, b);
  }

  lemma Grows(q: nat, b: nat)
    requires b > 0
    ensures q <= b * q
  {
    assert b * q == (b - 1) * q + q;
  }

  function Natural(a: nat, b: nat): Ordering
  {
    if a < b then Lower else if a == b then Equal else Higher
  }

  function Compared(a: Signed, b: Signed): Ordering
  {
    if a.negative && !b.negative then Lower
    else if !a.negative && b.negative then Higher
    else if a.negative then Natural(b.magnitude, a.magnitude)
    else Natural(a.magnitude, b.magnitude)
  }

  // ----- what they denote -----

  predicate InRange(n: int)
  {
    n < INTEGER_LIMIT && -n < INTEGER_LIMIT
  }

  function Denoted(i: Signed): (n: int)
    ensures InRange(n)
  {
    if i.negative then 0 - i.magnitude else i.magnitude
  }

  function Represented(n: int): (i: Signed)
    requires InRange(n)
    ensures Normal(i) && Denoted(i) == n
  {
    if n < 0 then Signed(true, -n) else Signed(false, n)
  }

  /** Addition fails exactly when the true sum has no 128-bit magnitude. */
  lemma SumDenotes(a: Signed, b: Signed)
    ensures Sum(a, b).Some? <==> InRange(Denoted(a) + Denoted(b))
    ensures Sum(a, b).Some? ==> Normal(Sum(a, b).value) && Denoted(Sum(a, b).value) == Denoted(a) + Denoted(b)
  {
  }

  lemma SignsMultiply(a: Signed, b: Signed)
    ensures Denoted(a) * Denoted(b)
            == if a.negative != b.negative then 0 - a.magnitude * b.magnitude else a.magnitude * b.magnitude
  {
  }

  lemma ProductDenotes(a: Signed, b: Signed)
    ensures Product(a, b).Some? <==> InRange(Denoted(a) * Denoted(b))
    ensures Product(a, b).Some? ==>
              Normal(Product(a, b).value) && Denoted(Product(a, b).value) == Denoted(a) * Denoted(b)
  {
    SignsMultiply(a, b);
    assert a.magnitude * b.magnitude >= 0;
  }

  /** Division truncates toward zero and the remainder takes the sign of the dividend. */
  lemma QuotientDenotes(a: Signed, b: Signed)
    ensures Quotient(a, b).Some? <==> Denoted(b) != 0
    ensures Remainder(a, b).Some? <==> Denoted(b) != 0
    ensures Quotient(a, b).Some? ==>
              var (q, r) := (Denoted(Quotient(a, b).value), Denoted(Remainder(a, b).value));
              && Normal(Quotient(a, b).value) && Normal(Remainder(a, b).value)
              && Denoted(a) == q * Denoted(b) + r
              && (if Denoted(a) >= 0 then 0 <= r else r <= 0)
              && r < b.magnitude && -r < b.magnitude
  {
    if b.magnitude != 0 {
      var q := Quotient(a, b).value;
      assert a.magnitude == (a.magnitude / b.magnitude) * b.magnitude + a.magnitude % b.magnitude;
      SignsMultiply(q, b);
    }
  }

  lemma ComparedDenotes(a: Signed, b: Signed)
    requires Normal(a) && Normal(b)
    ensures Compared(a, b)
            == if Denoted(a) < Denoted(b) then Lower else if Denoted(a) == Denoted(b) then Equal else Higher
  {
  }
}
