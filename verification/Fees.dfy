/** Fee policies and their exact half-up arithmetic, in cents (ingestion/schemas.py:183-207). */
module Fees {
  datatype FeePolicy = FeePolicy(policyId: string, percentageRate: real, fixedCharge: real, currency: string, processor: string,
                                 merchantId: string, paymentMethod: string)

  /** Decimal.quantize to cents with ROUND_HALF_UP: ties go away from zero. */
  function HalfUp(x: real): int {
    if x >= 0.0 then (x * 100.0 + 0.5).Floor else -((-x * 100.0 + 0.5).Floor)
  }

  /** The exact fee before rounding. */
  function ExactFee(p: FeePolicy, gross: real): real {
    gross * (p.percentageRate / 100.0) + p.fixedCharge
  }

  /** The fee in cents. */
  function CalculateFee(p: FeePolicy, gross: real): int {
    HalfUp(ExactFee(p, gross))
  }

  /** The net amount in cents. */
  function CalculateNet(p: FeePolicy, gross: real): int {
    HalfUp(gross - CalculateFee(p, gross) as real / 100.0)
  }

  lemma HalfUpOfCents(c: int)
    ensures HalfUp(c as real / 100.0) == c
  {
  }

  /** The whole number nearest to x; halves go away from zero. */
  ghost predicate Nearest(n: int, x: real) {
    if x < 0.0 then n as real - 0.5 < x <= n as real + 0.5 else n as real - 0.5 <= x < n as real + 0.5
  }

  /** The whole cents nearest to the percentage of the gross amount plus the fixed charge. */
  ghost predicate IsFee(p: FeePolicy, gross: real, fee: int) {
    Nearest(fee, gross * p.percentageRate + 100.0 * p.fixedCharge)
  }

  lemma FeeIsNearest(p: FeePolicy, gross: real, fee: int)
    ensures CalculateFee(p, gross) == fee <==> IsFee(p, gross, fee)
  {
    assert 100.0 * ExactFee(p, gross) == gross * p.percentageRate + 100.0 * p.fixedCharge;
  }

  /** The net amount is the whole cents nearest to what the fee leaves. */
  lemma NetIsNearest(p: FeePolicy, gross: real, net: int)
    ensures CalculateNet(p, gross) == net <==> Nearest(net, 100.0 * gross - CalculateFee(p, gross) as real)
  {
  }

  /** A fee is within half a cent of the exact one. */
  lemma FeeWithinHalfCent(p: FeePolicy, gross: real)
    ensures -0.5 <= CalculateFee(p, gross) as real - 100.0 * ExactFee(p, gross) <= 0.5
  {
  }

  /** A larger gross amount never has a smaller fee. */
  lemma FeeMonotone(p: FeePolicy, g: real, h: real)
    requires p.percentageRate >= 0.0 && g <= h
    ensures CalculateFee(p, g) <= CalculateFee(p, h)
  {
  }

  /** Fee and net add up to the gross amount exactly when that is a whole number of cents, for every policy. */
  lemma FeePlusNet(p: FeePolicy, gross: real)
    ensures (CalculateFee(p, gross) + CalculateNet(p, gross)) as real == 100.0 * gross <==> 100.0 * gross == (100.0 * gross).Floor as real
  {
    hide CalculateFee;
    RestInCents(gross, CalculateFee(p, gross));
  }

  lemma RestInCents(gross: real, fee: int)
    ensures (fee + HalfUp(gross - fee as real / 100.0)) as real == 100.0 * gross <==> 100.0 * gross == (100.0 * gross).Floor as real
  {
    hide HalfUp;
    var net, cents := HalfUp(gross - fee as real / 100.0), (100.0 * gross).Floor;
    if 100.0 * gross == cents as real {
      CentsLeft(gross, cents, fee);
      HalfUpOfCents(cents - fee);
    } else if (fee + net) as real == 100.0 * gross {
      WholeIsFloor(100.0 * gross, fee + net);
    }
  }

  lemma CentsLeft(gross: real, cents: int, fee: int)
    requires 100.0 * gross == cents as real
    ensures gross - fee as real / 100.0 == (cents - fee) as real / 100.0
  {
  }

  lemma WholeIsFloor(x: real, n: int)
    requires x == n as real
    ensures x == x.Floor as real
  {
  }

  function Sum(gs: seq<real>): real {
    if gs == [] then 0.0 else Sum(gs[..|gs| - 1]) + gs[|gs| - 1]
  }

  function SumOfFees(p: FeePolicy, gs: seq<real>): int {
    if gs == [] then 0 else SumOfFees(p, gs[..|gs| - 1]) + CalculateFee(p, gs[|gs| - 1])
  }

  lemma ExactFeeAdds(p: FeePolicy, a: real, b: real)
    requires p.fixedCharge == 0.0
    ensures ExactFee(p, a + b) == ExactFee(p, a) + ExactFee(p, b)
  {
  }

  lemma {:induction false} SumNearExact(p: FeePolicy, gs: seq<real>)
    requires p.fixedCharge == 0.0
    ensures var off := SumOfFees(p, gs) as real - 100.0 * ExactFee(p, Sum(gs));
            -(|gs| as real) / 2.0 <= off <= |gs| as real / 2.0
  {
    hide CalculateFee, ExactFee;
    if gs == [] {
      ExactFeeAdds(p, 0.0, 0.0);
    } else {
      var front, last := gs[..|gs| - 1], gs[|gs| - 1];
      SumNearExact(p, front);
      FeeWithinHalfCent(p, last);
      ExactFeeAdds(p, Sum(front), last);
    }
  }

  /** Without a fixed charge, splitting a payment into n parts moves the total fee by at most (n+1)/2 cents. */
  lemma SplittingMovesFee(p: FeePolicy, gs: seq<real>)
    requires p.fixedCharge == 0.0
    ensures var off := SumOfFees(p, gs) - CalculateFee(p, Sum(gs));
            -(|gs| + 1) <= 2 * off <= |gs| + 1
  {
    SumNearExact(p, gs);
    FeeWithinHalfCent(p, Sum(gs));
  }
}
