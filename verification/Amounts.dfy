/** Amounts of micro CCD, signed deltas of them, and the price of energy. */
module Amounts {

  const MAX_AMOUNT: nat := 0xFFFF_FFFF_FFFF_FFFF

  /** A positive or negative delta of an amount. Both `+0` and `-0` are zero. */
  datatype AmountDelta = Positive(amount: nat) | Negative(amount: nat) {

    function Value(): int { if Positive? then amount as int else -(amount as int) }

    function SubtractAmount(a: nat): (r: AmountDelta)
      ensures r.Value() == Value() - a
    {
      match this
      case Positive(current) => if current >= a then Positive(current - a) else Negative(a - current)
      case Negative(current) => Negative(current + a)
    }

    function AddAmount(a: nat): (r: AmountDelta)
      ensures r.Value() == Value() + a
    {
      match this
      case Positive(current) => Positive(current + a)
      case Negative(current) => if current >= a then Negative(current - a) else Positive(a - current)
    }

    function AddDelta(d: AmountDelta): (r: AmountDelta)
      ensures r.Value() == Value() + d.Value()
    {
      match d
      case Positive(a) => AddAmount(a)
      case Negative(a) => SubtractAmount(a)
    }

    /** Adding `d` goes the same way and exceeds 64 bits: a build with overflow checks panics. */
    predicate Overflows(d: AmountDelta) { Positive? == d.Positive? && amount + d.amount > MAX_AMOUNT }

    predicate IsZero() { amount == 0 }

    /** The balance with the delta applied, in 64 bits. */
    function ApplyToBalance(balance: nat): (r: BalanceResult)
      ensures r.Balance? <==> 0 <= balance + Value() && (Positive? ==> balance + Value() <= MAX_AMOUNT)
      ensures r.Balance? ==> r.amount == balance + Value()
      ensures r.Insufficient? <==> balance + Value() < 0
    {
      match this
      case Positive(d) => if balance + d <= MAX_AMOUNT then Balance(balance + d) else Overflow
      case Negative(d) => if d <= balance then Balance(balance - d) else Insufficient
    }
  }

  datatype BalanceResult = Balance(amount: nat) | Overflow | Insufficient

  // ---------------------------------------------------------------- the price of energy

  /** An exchange rate; both parts are positive 64-bit numbers. */
  datatype ExchangeRate = ExchangeRate(numerator: nat, denominator: nat) {
    ghost predicate Valid() { 0 < numerator <= MAX_AMOUNT && 0 < denominator <= MAX_AMOUNT }
  }

  function CeilDiv(a: nat, b: nat): nat
    requires b > 0
  {
    (a + b - 1) / b
  }

  /** The price of `energy`, rounded up, before it is squeezed into 64 bits. */
  function EnergyCost(energy: nat, euroPerEnergy: ExchangeRate, microCcdPerEuro: ExchangeRate): nat
    requires euroPerEnergy.Valid() && microCcdPerEuro.Valid()
  {
    Positive(euroPerEnergy.denominator, microCcdPerEuro.denominator);
    CeilDiv(euroPerEnergy.numerator * microCcdPerEuro.numerator * energy,
            euroPerEnergy.denominator * microCcdPerEuro.denominator)
  }

  lemma Positive(a: nat, b: nat)
    requires a > 0 && b > 0
    ensures a * b > 0
  {
  }

  /** The largest whole price of one energy that `check_exchange_rates` lets through. */
  const MAX_RATE: nat := MAX_AMOUNT / 100_000_000_000

  predicate CheckExchangeRates(euroPerEnergy: ExchangeRate, microCcdPerEuro: ExchangeRate)
    requires euroPerEnergy.Valid() && microCcdPerEuro.Valid()
  {
    Positive(euroPerEnergy.denominator, microCcdPerEuro.denominator);
    (euroPerEnergy.numerator * microCcdPerEuro.numerator) /
    (euroPerEnergy.denominator * microCcdPerEuro.denominator) <= MAX_RATE
  }

  /** `CeilDiv` is the least number that is not too small. */
  lemma CeilDivLeast(a: nat, b: nat, c: nat)
    requires b > 0
    ensures CeilDiv(a, b) <= c <==> a <= c * b
  {
    var q := CeilDiv(a, b);
    DivBounds(a + b - 1, b);
    if q <= c { Mul(q, c, b); }
    if c < q { Mul(c + 1, q, b); assert (c + 1) * b == c * b + b; }
  }

  lemma DivBounds(a: nat, b: nat)
    requires b > 0
    ensures (a / b) * b <= a < (a / b) * b + b
  {
  }

  lemma Mul(a: nat, b: nat, c: nat)
    requires a <= b
    ensures a * c <= b * c
  {
  }

  /** The price is the least number that covers the energy at the two rates: it is rounded up. */
  lemma CostIsLeast(energy: nat, e: ExchangeRate, m: ExchangeRate)
    requires e.Valid() && m.Valid()
    ensures var cost, n, d := EnergyCost(energy, e, m), e.numerator * m.numerator, e.denominator * m.denominator;
            cost * d >= n * energy && (cost > 0 ==> (cost - 1) * d < n * energy)
  {
    Positive(e.denominator, m.denominator);
    var cost, n, d := EnergyCost(energy, e, m), e.numerator * m.numerator, e.denominator * m.denominator;
    CeilDivLeast(n * energy, d, cost);
    if cost > 0 { CeilDivLeast(n * energy, d, cost - 1); }
  }

  /** More energy never costs less: what is used is covered by what is reserved. */
  lemma CostGrows(used: nat, reserved: nat, e: ExchangeRate, m: ExchangeRate)
    requires e.Valid() && m.Valid() && used <= reserved
    ensures EnergyCost(used, e, m) <= EnergyCost(reserved, e, m)
  {
    Positive(e.denominator, m.denominator);
    var n, d := e.numerator * m.numerator, e.denominator * m.denominator;
    Mul(used, reserved, n);
    CeilDivLeast(n * reserved, d, CeilDiv(n * reserved, d));
    CeilDivLeast(n * used, d, CeilDiv(n * reserved, d));
  }

  /** Rates that pass the check price every energy below the documented limit within 64 bits. */
  lemma CheckedCostFits(energy: nat, e: ExchangeRate, m: ExchangeRate)
    requires e.Valid() && m.Valid() && CheckExchangeRates(e, m)
    requires (MAX_RATE + 1) * energy <= MAX_AMOUNT
    ensures EnergyCost(energy, e, m) <= MAX_AMOUNT
  {
    Positive(e.denominator, m.denominator);
    var n, d := e.numerator * m.numerator, e.denominator * m.denominator;
    DivBounds(n, d);
    Mul(n / d, MAX_RATE, d);
    assert n <= (MAX_RATE + 1) * d;
    Mul(n, (MAX_RATE + 1) * d, energy);
    assert ((MAX_RATE + 1) * d) * energy == ((MAX_RATE + 1) * energy) * d;
    CeilDivLeast(n * energy, d, (MAX_RATE + 1) * energy);
  }

  /** The energy up to which every price that passes the check fits 64 bits. */
  const SAFE_ENERGY: nat := 99_999_999_857

  /** Rates whose price of one energy is just below the first whole number that is too large. */
  const STEEP: ExchangeRate := ExchangeRate(18446744073621155936, 99_999_999_857)
  const EVEN: ExchangeRate := ExchangeRate(1, 1)

  lemma SafeEnergyIs()
    ensures (MAX_RATE + 1) * SAFE_ENERGY <= MAX_AMOUNT < (MAX_RATE + 1) * (SAFE_ENERGY + 1)
    ensures STEEP.numerator == (MAX_RATE + 1) * SAFE_ENERGY - 1
  {
    assert MAX_RATE == 184_467_440;
  }

  lemma SteepPasses()
    ensures STEEP.Valid() && EVEN.Valid() && CheckExchangeRates(STEEP, EVEN)
  {
  }

  /** Beyond that energy they overflow. */
  lemma SteepOverflows(energy: nat)
    requires energy > SAFE_ENERGY
    ensures STEEP.Valid() && EVEN.Valid() && EnergyCost(energy, STEEP, EVEN) > MAX_AMOUNT
  {
    Overflows(STEEP.numerator, STEEP.denominator, energy);
  }

  lemma Overflows(n: nat, d: nat, energy: nat)
    requires d > 0 && n == 18446744073621155936 && d == 99_999_999_857 && energy > SAFE_ENERGY
    ensures CeilDiv(n * 1 * energy, d * 1) > MAX_AMOUNT
  {
    assert n * energy > MAX_AMOUNT * d;
    CeilDivLeast(n * energy, d, MAX_AMOUNT);
  }

  /** The check rules overflow out exactly for energy up to a limit below the documented 10^11. */
  lemma CheckIsExact(energy: nat)
    ensures (forall e: ExchangeRate, m: ExchangeRate :: e.Valid() && m.Valid() && CheckExchangeRates(e, m) ==>
             EnergyCost(energy, e, m) <= MAX_AMOUNT)
       <==> energy <= SAFE_ENERGY
    ensures SAFE_ENERGY < 100_000_000_000
  {
    if energy <= SAFE_ENERGY {
      SafeEnergyIs();
      Mul(energy, SAFE_ENERGY, MAX_RATE + 1);
      forall e: ExchangeRate, m: ExchangeRate | e.Valid() && m.Valid() && CheckExchangeRates(e, m)
        ensures EnergyCost(energy, e, m) <= MAX_AMOUNT
      {
        CheckedCostFits(energy, e, m);
      }
    } else {
      SteepPasses();
      SteepOverflows(energy);
    }
  }
}
