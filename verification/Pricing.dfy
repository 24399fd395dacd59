/** Cumulative ceiling billing and the runway it leaves (section 6.1 of offering-axes). */
module Pricing {

  const MAX_INT64: int := 0x7fff_ffff_ffff_ffff

  /** A denominator of zero reads as one. */
  function Per(perUnits: nat): (per: nat)
    ensures 0 < per
  {
    if perUnits == 0 then 1 else perUnits
  }

  /** The quotient of big.Int's QuoRem, which truncates toward zero. */
  function TruncatedQuotient(n: int, d: int): int
    requires 0 < d
  {
    if 0 <= n then n / d else -((-n) / d)
  }

  /** The truncated quotient, plus one when something was left over. */
  function Rounded(n: int, d: int): int
    requires 0 < d
  {
    var quotient := TruncatedQuotient(n, d);
    if n - quotient * d != 0 then quotient + 1 else quotient
  }

  function BillFor(price: int, perUnits: nat, units: nat): int {
    if price == 0 || units == 0 then 0 else Rounded(price * units, Per(perUnits))
  }

  function RunwayUnits(balance: int, price: int, perUnits: nat): int {
    if price <= 0 || balance <= 0 then 0
    else
      var units := balance * Per(perUnits) / price;
      if MAX_INT64 < units then MAX_INT64 else units
  }

  /** c is the least integer with num <= c * den. */
  ghost predicate IsCeiling(c: int, num: int, den: int) {
    (c - 1) * den < num <= c * den
  }

  lemma QuotientBounds(n: int, d: int)
    requires 0 < d
    ensures n / d * d <= n < (n / d + 1) * d
    ensures n % d == n - n / d * d
  {
    assert n == n / d * d + n % d;
  }

  /** Scaling by a positive factor preserves and reflects strict order. */
  lemma ScaleLess(a: int, b: int, d: int)
    requires 0 < d
    ensures a < b <==> a * d < b * d
  {
    if a < b {
      assert 0 < (b - a) * d;
    } else {
      assert 0 <= (a - b) * d;
    }
  }

  lemma CeilingUnique(c: int, c': int, num: int, den: int)
    requires 0 < den
    requires IsCeiling(c, num, den) && IsCeiling(c', num, den)
    ensures c == c'
  {
    ScaleLess(c - 1, c', den);
    ScaleLess(c' - 1, c, den);
  }

  lemma RoundedIsCeiling(n: int, d: int)
    requires 0 < d
    ensures IsCeiling(Rounded(n, d), n, d) <==> 0 <= n || n % d == 0
  {
    if 0 <= n {
      QuotientBounds(n, d);
      assert (n / d + 1 - 1) * d == n / d * d;
      assert (n / d - 1) * d == n / d * d - d;
    } else {
      RoundedBelowZero(-n, d);
      ExactBothSigns(n, d);
    }
  }

  lemma RoundedBelowZero(m: int, d: int)
    requires 0 < d && 0 < m
    ensures IsCeiling(Rounded(-m, d), -m, d) <==> m % d == 0
  {
    var q := m / d;
    QuotientBounds(m, d);
    assert -q * d == -(q * d);
    assert (-q - 1) * d == -(q * d) - d;
    assert (-q + 1 - 1) * d == -(q * d);
  }

  lemma NegativeProduct(price: int, units: nat)
    requires price < 0 && 0 < units
    ensures price * units < 0
  {
    assert 0 < (-price) * units;
  }

  /** The bill is the ceiling the specification asks for, exactly when the price is not negative
      or the division is exact: below zero the source adds one to an already rounded-up quotient. */
  lemma BillIsCeiling(price: int, perUnits: nat, units: nat)
    ensures IsCeiling(BillFor(price, perUnits, units), price * units, Per(perUnits))
            <==> 0 <= price || price * units % Per(perUnits) == 0
  {
    if price == 0 || units == 0 {
      assert price * units == 0;
    } else {
      RoundedIsCeiling(price * units, Per(perUnits));
      if 0 < price { ProductsGrow(price, 0, units); } else { NegativeProduct(price, units); }
    }
  }

  lemma ExactBothSigns(n: int, d: int)
    requires 0 < d
    ensures n % d == 0 <==> (-n) % d == 0
  {
    QuotientBounds(n, d);
    QuotientBounds(-n, d);
    if n % d == 0 {
      assert (-n) == (-(n / d)) * d;
      MultipleHasNoRemainder(-(n / d), d);
    }
    if (-n) % d == 0 {
      assert n == (-((-n) / d)) * d;
      MultipleHasNoRemainder(-((-n) / d), d);
    }
  }

  lemma MultipleHasNoRemainder(q: int, d: int)
    requires 0 < d
    ensures q * d % d == 0
  {
    QuotientBounds(q * d, d);
    var r := q * d / d;
    ScaleLess(r, q + 1, d);
    ScaleLess(q, r + 1, d);
  }

  /** The rounding is not the ceiling below zero: half a wei refunded bills one wei instead of none. */
  lemma NegativePriceOvercharges()
    ensures BillFor(-1, 2, 1) == 1 && IsCeiling(0, -1, 2)
  {
  }

  lemma ProductsGrow(price: int, u: nat, v: nat)
    requires 0 <= price && u <= v
    ensures 0 <= price * u <= price * v
  {
    assert price * v == price * u + price * (v - u);
    assert 0 <= price * u && 0 <= price * (v - u);
  }

  lemma CeilingGrows(c: int, c': int, num: int, num': int, den: int)
    requires 0 < den && 0 <= num <= num' && IsCeiling(c, num, den) && IsCeiling(c', num', den)
    ensures 0 <= c <= c'
  {
    ScaleLess(c - 1, c', den);
    ScaleLess(-1, c, den);
  }

  /** The ceiling of a sum is the sum of the ceilings or one less. */
  lemma CeilingOfSum(c: int, d: int, e: int, m: int, n: int, den: int)
    requires 0 < den && IsCeiling(c, m, den) && IsCeiling(d, n, den) && IsCeiling(e, m + n, den)
    ensures d - 1 <= e - c <= d
  {
    assert (c + d) * den == c * den + d * den;
    assert (c - 1 + (d - 1)) * den == (c - 1) * den + (d - 1) * den;
    ScaleLess(e - 1, c + d, den);
    ScaleLess(c - 1 + (d - 1), e, den);
  }

  /** num/den rounds up to at most q exactly when num is at most q dens, for any quotient q. */
  lemma CeilingAtMost(c: int, num: int, den: int, q: int)
    requires 0 < den && IsCeiling(c, num, den)
    ensures c <= q <==> num <= q * den
  {
    ScaleLess(q, c, den);
    ScaleLess(c - 1, q, den);
    assert c <= q ==> c * den <= q * den;
    assert q <= c - 1 ==> q * den <= (c - 1) * den;
  }

  /** More work never costs less. */
  lemma BillMonotone(price: int, perUnits: nat, u: nat, v: nat)
    requires 0 <= price && u <= v
    ensures 0 <= BillFor(price, perUnits, u) <= BillFor(price, perUnits, v)
  {
    BillIsCeiling(price, perUnits, u);
    BillIsCeiling(price, perUnits, v);
    ProductsGrow(price, u, v);
    CeilingGrows(BillFor(price, perUnits, u), BillFor(price, perUnits, v), price * u, price * v, Per(perUnits));
  }

  lemma ProductOfSum(price: int, u: int, n: int)
    ensures price * (u + n) == price * u + price * n
  {
  }

  /** From any position u on the curve, n further units cost their own bill or one wei less. */
  lemma BillIncrement(price: int, perUnits: nat, u: nat, n: nat)
    requires 0 <= price
    ensures BillFor(price, perUnits, n) - 1
            <= BillFor(price, perUnits, u + n) - BillFor(price, perUnits, u)
            <= BillFor(price, perUnits, n)
  {
    BillIsCeiling(price, perUnits, u);
    BillIsCeiling(price, perUnits, n);
    BillIsCeiling(price, perUnits, u + n);
    ProductOfSum(price, u, n);
    CeilingOfSum(BillFor(price, perUnits, u), BillFor(price, perUnits, n), BillFor(price, perUnits, u + n),
                 price * u, price * n, Per(perUnits));
  }

  lemma FloorAtLeast(m: int, d: int, n: int)
    requires 0 < d
    ensures n <= m / d <==> d * n <= m
  {
    QuotientBounds(m, d);
    ScaleLess(m / d, n, d);
    ScaleLess(n, m / d + 1, d);
    assert n * d == d * n;
    assert m / d < n ==> (m / d + 1) * d <= n * d;
    assert n <= m / d ==> n * d <= m / d * d;
  }

  /** The runway quotient is the Galois inverse of the bill. */
  lemma AffordableUnits(price: int, perUnits: nat, balance: nat, n: nat)
    requires 0 < price
    ensures BillFor(price, perUnits, n) <= balance <==> n <= balance * Per(perUnits) / price
  {
    BillIsCeiling(price, perUnits, n);
    CeilingAtMost(BillFor(price, perUnits, n), price * n, Per(perUnits), balance);
    FloorAtLeast(balance * Per(perUnits), price, n);
  }

  /** RunwayUnits is the greatest affordable count, or the int64 ceiling when that is smaller. */
  lemma RunwayIsGreatest(balance: int, price: int, perUnits: nat, n: nat)
    requires 0 < price && 0 <= balance
    ensures 0 <= RunwayUnits(balance, price, perUnits) <= MAX_INT64
    ensures n <= RunwayUnits(balance, price, perUnits)
            <==> BillFor(price, perUnits, n) <= balance && n <= MAX_INT64
  {
    AffordableUnits(price, perUnits, balance, n);
    assert 0 <= balance * Per(perUnits);
    if balance == 0 {
      QuotientBounds(0, price);
      assert balance * Per(perUnits) == 0;
    }
  }

  /** The runway computed from the balance alone is safe wherever the session already stands. */
  lemma RunwayIsSafeFromAnywhere(balance: int, price: int, perUnits: nat, u: nat, n: nat)
    requires 0 < price && 0 <= balance
    requires n <= RunwayUnits(balance, price, perUnits)
    ensures BillFor(price, perUnits, u + n) - BillFor(price, perUnits, u) <= balance
  {
    RunwayIsGreatest(balance, price, perUnits, n);
    BillIncrement(price, perUnits, u, n);
  }

  /** A denominator left out is one: each unit then costs the price, at any price, with nothing to round. */
  lemma NoDenominatorIsOne(price: int, units: nat, balance: int)
    ensures BillFor(price, 0, units) == price * units && BillFor(price, 1, units) == price * units
    ensures RunwayUnits(balance, price, 0) == RunwayUnits(balance, price, 1)
  {
    assert forall n: int :: TruncatedQuotient(n, 1) == n && Rounded(n, 1) == n;
  }
}
