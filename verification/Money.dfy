/** Amounts per denomination, as the bank and distribution modules account for them.  A `DecCoins` value counts
    units of 10^-18 coin, a `Coins` value counts whole coins; both are canonical (no zero entry), so equality of
    the maps is equality of the amounts. */
module Money {
  type Denom = string

  // One whole coin is 10^18 units of a DecCoins value.
  function Units(coins: nat): nat {
    1_000_000_000_000_000_000 * coins
  }

  function WholePart(units: nat): nat {
    units / 1_000_000_000_000_000_000
  }

  function FractionPart(units: nat): (r: nat)
    ensures units == Units(WholePart(units)) + r
  {
    units % 1_000_000_000_000_000_000
  }

  type Amounts = c: map<Denom, nat> | forall d :: d in c ==> c[d] > 0 witness map[]

  const ZERO: Amounts := map[]

  function Amt(c: map<Denom, nat>, d: Denom): nat {
    if d in c then c[d] else 0
  }

  predicate IsZero(c: Amounts) {
    |c| == 0
  }

  lemma SameAmounts(a: Amounts, b: Amounts)
    requires forall d :: Amt(a, d) == Amt(b, d)
    ensures a == b
  {
    forall d ensures d in a <==> d in b {
      assert Amt(a, d) == Amt(b, d);
    }
    forall d | d in a ensures a[d] == b[d] {
      assert Amt(a, d) == Amt(b, d);
    }
  }

  ghost predicate Leq(a: Amounts, b: Amounts) {
    forall d :: Amt(a, d) <= Amt(b, d)
  }

  // `Leq` as a program evaluates it: only the denominations of `a` can exceed those of `b`.
  predicate Covers(b: Amounts, a: Amounts)
    ensures Covers(b, a) <==> Leq(a, b)
  {
    assert (forall d :: d in a ==> a[d] <= Amt(b, d)) ==> forall d :: Amt(a, d) <= Amt(b, d);
    assert (forall d :: Amt(a, d) <= Amt(b, d)) ==> forall d :: d in a ==> Amt(a, d) <= Amt(b, d);
    forall d | d in a :: a[d] <= Amt(b, d)
  }

  function Add(a: Amounts, b: Amounts): (r: Amounts)
    ensures forall d :: Amt(r, d) == Amt(a, d) + Amt(b, d)
  {
    map d | d in a.Keys + b.Keys :: Amt(a, d) + Amt(b, d)
  }

  function Sub(a: Amounts, b: Amounts): (r: Amounts)
    requires Leq(b, a)
    ensures forall d :: Amt(r, d) == Amt(a, d) - Amt(b, d)
  {
    map d | d in a && a[d] > Amt(b, d) :: a[d] - Amt(b, d)
  }

  function Min(a: Amounts, b: Amounts): (r: Amounts)
    ensures forall d :: Amt(r, d) == if Amt(a, d) <= Amt(b, d) then Amt(a, d) else Amt(b, d)
  {
    map d | d in a && d in b :: if a[d] <= b[d] then a[d] else b[d]
  }

  /** The whole coins in a decimal amount, in coins. */
  function Whole(a: Amounts): (r: Amounts)
    ensures forall d :: Amt(r, d) == WholePart(Amt(a, d))
  {
    map d | d in a && WholePart(a[d]) > 0 :: WholePart(a[d])
  }

  /** What truncation leaves behind, in decimal units. */
  function Fraction(a: Amounts): (r: Amounts)
    ensures forall d :: Amt(r, d) == FractionPart(Amt(a, d))
  {
    map d | d in a && FractionPart(a[d]) > 0 :: FractionPart(a[d])
  }

  /** Whole coins seen as a decimal amount. */
  function Decimal(a: Amounts): (r: Amounts)
    ensures forall d :: Amt(r, d) == Units(Amt(a, d))
  {
    map d | d in a :: Units(a[d])
  }

  function Quotient(a: Amounts, n: nat): (r: Amounts)
    requires n > 0
    ensures forall d :: Amt(r, d) == Amt(a, d) / n
  {
    map d | d in a && a[d] / n > 0 :: a[d] / n
  }
}
