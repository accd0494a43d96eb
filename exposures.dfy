/**
 * Per-contract exposure arithmetic, the neutral threshold and the sign rule:
 * calculate_contract_exposures with its validate_greek and
 * calculate_safe_exposure helpers, calculate_neutral_threshold and
 * classify_regime.
 */
module ExposureCalc {
  import opened Wrappers
  import opened Models
  import opened BlackScholes
  import opened Sorting

  function Abs(x: real): real { if x < 0.0 then -x else x }

  /** Market inputs of one pricing pass; the clock and date parser are `secondsUntil`. */
  datatype Pricing = Pricing(
    spot: real,
    riskFreeRate: real,
    dividendYield: real,
    secondsUntil: string -> Option<real>,
    math: Numerics)

  /** validate_greek: clamp into [lo, hi]. */
  function Clamp(value: real, lo: real, hi: real): (r: real)
    requires lo <= hi
    ensures lo <= r <= hi
    ensures lo <= value <= hi ==> r == value
    ensures value < lo ==> r == lo
    ensures value > hi ==> r == hi
  {
    if lo > (if hi < value then hi else value) then lo
    else if hi < value then hi else value
  }

  /** The volatility used by the Black-Scholes fallback: the IV when 0 < IV < 5, else 0.20. */
  function FallbackSigma(impliedVolatility: Option<real>): (sigma: real)
    ensures 0.0 < sigma < 5.0
    ensures sigma != 0.20 ==> impliedVolatility == Some(sigma)
    ensures impliedVolatility.Some? && 0.0 < impliedVolatility.value < 5.0 ==> sigma == impliedVolatility.value
  {
    match impliedVolatility
    case None => 0.20
    case Some(iv) => if 0.0 < iv < 5.0 then iv else 0.20
  }

  /** The supplied delta and gamma, defaulted to 0 and clamped. */
  function SuppliedDelta(c: OptionContract): real { Clamp(c.delta.GetOr(0.0), -5.0, 5.0) }
  function SuppliedGamma(c: OptionContract): real { Clamp(c.gamma.GetOr(0.0), -1.0, 1.0) }

  /** The supplied Greeks are used iff the clamped delta or gamma is meaningful. */
  predicate UsesSuppliedGreeks(c: OptionContract) {
    Abs(SuppliedDelta(c)) > 0.001 || Abs(SuppliedGamma(c)) > 0.0001
  }

  /** Charm derived from theta: -theta per year (theta is per day), zero for tiny theta. */
  function CharmFromTheta(theta: real): real {
    Clamp(if Abs(theta) > 0.001 then -theta / 365.25 else 0.0, -10.0, 10.0)
  }

  /** Vanna estimate: a tenth of vega, or gamma * sqrt(T) when vega is tiny. */
  function VannaEstimate(m: Numerics, vega: real, gamma: real, t: real): real {
    Clamp(if Abs(vega) > 0.001 then vega * 0.1 else if t > 0.0 then gamma * m.sqrt(t) else 0.0,
          -10.0, 10.0)
  }

  /** The Greeks chosen for a contract: supplied ones when meaningful, else Black-Scholes. */
  function ContractGreeks(c: OptionContract, p: Pricing): (g: Greeks)
    ensures -5.0 <= g.delta <= 5.0 && -1.0 <= g.gamma <= 1.0
    ensures -10.0 <= g.vanna <= 10.0 && -10.0 <= g.charm <= 10.0
    ensures UsesSuppliedGreeks(c) ==> g.delta == SuppliedDelta(c) && g.gamma == SuppliedGamma(c)
    ensures !UsesSuppliedGreeks(c) ==>
      var t := TimeToExpiration(p.secondsUntil(c.expirationDate));
      match CalculateGreeks(p.math, p.spot, c.strike, t, p.riskFreeRate, p.dividendYield,
                            FallbackSigma(c.impliedVolatility), c.optionType)
      case Ok(bs) =>
        && g.delta == Clamp(bs.delta, -5.0, 5.0) && g.gamma == Clamp(bs.gamma, -1.0, 1.0)
        && g.vanna == Clamp(bs.vanna, -10.0, 10.0) && g.charm == Clamp(bs.charm, -10.0, 10.0)
      case Err(_) => g == NoGreeks
  {
    var t := TimeToExpiration(p.secondsUntil(c.expirationDate));
    var delta := SuppliedDelta(c);
    var gamma := SuppliedGamma(c);
    var theta := Clamp(c.theta.GetOr(0.0), -10.0, 10.0);
    var vega := Clamp(c.vega.GetOr(0.0), -10.0, 10.0);
    if Abs(delta) > 0.001 || Abs(gamma) > 0.0001 then
      Greeks(delta, gamma, VannaEstimate(p.math, vega, gamma, t), CharmFromTheta(theta))
    else
      var sigma := FallbackSigma(c.impliedVolatility);
      match CalculateGreeks(p.math, p.spot, c.strike, t, p.riskFreeRate, p.dividendYield, sigma, c.optionType)
      case Ok(bs) =>
        Greeks(Clamp(bs.delta, -5.0, 5.0), Clamp(bs.gamma, -1.0, 1.0),
               Clamp(bs.vanna, -10.0, 10.0), Clamp(bs.charm, -10.0, 10.0))
      case Err(_) => NoGreeks
  }

  /** calculate_safe_exposure: the dealer-short exposure -OI * greek * multiplier. */
  function SafeExposure(openInterest: int, greek: real, multiplier: real): (x: real)
    ensures openInterest <= 0 || multiplier <= 0.0 ==> x == 0.0
    ensures openInterest > 0 && multiplier > 0.0 ==>
      (x < 0.0 <==> greek > 0.0) && (x > 0.0 <==> greek < 0.0) && Abs(x) == openInterest as real * Abs(greek) * multiplier
  {
    if openInterest < 0 || multiplier <= 0.0 then 0.0
    else -(openInterest as real) * greek * multiplier
  }

  /**
   * The dealer-short convention for exposures `e` of `openInterest` contracts
   * with Greeks `g` at `spot`: no open interest means no exposure; with open
   * interest each exposure has the opposite sign of its Greek, scaled by
   * OI * spot^2 * 100 for gamma (any nonzero spot) and OI * spot * 100 for the
   * others (positive spot only; a non-positive multiplier gives zero).
   */
  predicate DealerShort(openInterest: int, g: Greeks, spot: real, e: Exposures) {
    && (openInterest <= 0 || spot == 0.0 ==> e == NoExposures)
    && (spot < 0.0 ==> e.dex == 0.0 && e.vex == 0.0 && e.cex == 0.0)
    && (openInterest > 0 && spot != 0.0 ==>
          && (e.gex < 0.0 <==> g.gamma > 0.0) && (e.gex > 0.0 <==> g.gamma < 0.0)
          && Abs(e.gex) == openInterest as real * Abs(g.gamma) * (spot * spot * 100.0))
    && (openInterest > 0 && spot > 0.0 ==>
          && (e.dex < 0.0 <==> g.delta > 0.0) && (e.dex > 0.0 <==> g.delta < 0.0)
          && (e.vex < 0.0 <==> g.vanna > 0.0) && (e.vex > 0.0 <==> g.vanna < 0.0)
          && (e.cex < 0.0 <==> g.charm > 0.0) && (e.cex > 0.0 <==> g.charm < 0.0)
          && Abs(e.dex) == openInterest as real * Abs(g.delta) * (spot * 100.0)
          && Abs(e.vex) == openInterest as real * Abs(g.vanna) * (spot * 100.0)
          && Abs(e.cex) == openInterest as real * Abs(g.charm) * (spot * 100.0))
  }

  /** The four exposures of `openInterest` contracts with Greeks `g` at `spot`. */
  function DealerExposures(openInterest: int, g: Greeks, spot: real): (e: Exposures)
    ensures DealerShort(openInterest, g, spot, e)
  {
    assert spot != 0.0 ==> spot * spot * 100.0 > 0.0;
    Exposures(SafeExposure(openInterest, g.gamma, spot * spot * 100.0),
              SafeExposure(openInterest, g.delta, spot * 100.0),
              SafeExposure(openInterest, g.vanna, spot * 100.0),
              SafeExposure(openInterest, g.charm, spot * 100.0))
  }

  /**
   * calculate_contract_exposures: the Greeks chosen for the contract (within
   * their clamping bounds) and the dealer-short exposures of its open interest.
   */
  function ContractExposures(c: OptionContract, p: Pricing): (r: (Exposures, Greeks))
    ensures r.1 == ContractGreeks(c, p)
    ensures -5.0 <= r.1.delta <= 5.0 && -1.0 <= r.1.gamma <= 1.0
    ensures -10.0 <= r.1.vanna <= 10.0 && -10.0 <= r.1.charm <= 10.0
    ensures DealerShort(c.openInterest, r.1, p.spot, r.0)
  {
    var g := ContractGreeks(c, p);
    var e := DealerExposures(c.openInterest, g, p.spot);
    (e, g)
  }

  /**
   * Supplied Greeks: with a meaningful delta or gamma the contract keeps them,
   * charm is -theta/365.25 (0 for |theta| <= 0.001) and vanna is vega/10 when
   * |vega| > 0.001, else gamma * sqrt(T) while time is left and 0 after
   * expiry, all after clamping.
   */
  lemma SuppliedGreeksBranch(c: OptionContract, p: Pricing)
    requires UsesSuppliedGreeks(c)
    ensures var g := ContractGreeks(c, p);
      var theta := Clamp(c.theta.GetOr(0.0), -10.0, 10.0);
      var vega := Clamp(c.vega.GetOr(0.0), -10.0, 10.0);
      && (Abs(theta) <= 0.001 ==> g.charm == 0.0)
      && (Abs(theta) > 0.001 ==> g.charm == -theta / 365.25)
      && (Abs(vega) > 0.001 ==> g.vanna == vega * 0.1)
      && (Abs(vega) <= 0.001 ==>
            var t := TimeToExpiration(p.secondsUntil(c.expirationDate));
            g.vanna == if t > 0.0 then Clamp(SuppliedGamma(c) * p.math.sqrt(t), -10.0, 10.0) else 0.0)
  {
  }

  /**
   * Fallback: without meaningful supplied Greeks the Black-Scholes Greeks (at
   * the fallback volatility) are used, clamped; a contract with OI, a positive
   * spot and strike, time left and type "call" then has negative gex.
   */
  lemma FallbackCallHasNegativeGex(c: OptionContract, p: Pricing)
    requires !UsesSuppliedGreeks(c) && IsCall(c.optionType)
    requires c.openInterest > 0 && p.spot > 0.0 && c.strike > 0.0
    requires TimeToExpiration(p.secondsUntil(c.expirationDate)) > 0.0
    ensures var (e, g) := ContractExposures(c, p); g.gamma > 0.0 && g.delta > 0.0 && e.gex < 0.0 && e.dex < 0.0
  {
    var g := ContractGreeks(c, p);
    assert g.gamma > 0.0 && g.delta > 0.0 by {
      var t := TimeToExpiration(p.secondsUntil(c.expirationDate));
      var sigma := FallbackSigma(c.impliedVolatility);
      CallGreeksPositive(p.math, p.spot, c.strike, t, p.riskFreeRate, p.dividendYield, sigma, c.optionType);
    }
  }

  /** Absolute values, element by element. */
  function AbsAll(xs: seq<real>): (r: seq<real>)
    ensures |r| == |xs| && forall i :: 0 <= i < |xs| ==> r[i] == Abs(xs[i]) && r[i] >= 0.0
  {
    seq(|xs|, i requires 0 <= i < |xs| => Abs(xs[i]))
  }

  /** np.median: the middle of the sorted values, or the mean of the two middle ones. */
  function Median(xs: seq<real>): (m: real)
    requires |xs| > 0
    ensures Sort(xs)[0] <= m <= Sort(xs)[|xs| - 1]
    ensures (exists i :: 0 <= i < |xs| && xs[i] <= m) && (exists j :: 0 <= j < |xs| && m <= xs[j])
  {
    var s := Sort(xs);
    var n := |s|;
    assert s[0] in multiset(xs) && s[n - 1] in multiset(xs);
    if n % 2 == 1 then s[n / 2] else (s[n / 2 - 1] + s[n / 2]) / 2.0
  }

  /** calculate_neutral_threshold: epsilon for no values, else max(epsilon, 0.05 * median |v|). */
  function NeutralThreshold(values: seq<real>, epsilon: real): (t: real)
    ensures t >= epsilon
    ensures values == [] ==> t == epsilon
    ensures values != [] ==> t >= 0.05 * Median(AbsAll(values)) &&
                             (t == epsilon || t == 0.05 * Median(AbsAll(values)))
  {
    if values == [] then epsilon
    else
      var m := 0.05 * Median(AbsAll(values));
      if epsilon >= m then epsilon else m
  }

  /** The threshold depends only on the multiset of values, not on their order. */
  lemma ThresholdIgnoresOrder(xs: seq<real>, ys: seq<real>, epsilon: real)
    requires multiset(xs) == multiset(ys)
    ensures NeutralThreshold(xs, epsilon) == NeutralThreshold(ys, epsilon)
  {
    assert |xs| == |multiset(xs)| == |multiset(ys)| == |ys|;
    if xs != [] {
      AbsAllMultiset(xs, ys);
      MedianIgnoresOrder(AbsAll(xs), AbsAll(ys));
    }
  }

  /** The median is a function of the multiset of values. */
  lemma MedianIgnoresOrder(xs: seq<real>, ys: seq<real>)
    requires |xs| > 0 && multiset(xs) == multiset(ys)
    ensures |ys| > 0 && Median(xs) == Median(ys)
  {
    assert Sort(xs) == Sort(ys) by { SortPermutationInvariant(xs, ys); }
  }

  lemma {:induction false} AbsAllMultiset(xs: seq<real>, ys: seq<real>)
    requires multiset(xs) == multiset(ys)
    ensures multiset(AbsAll(xs)) == multiset(AbsAll(ys))
  {
    if xs == [] {
      assert |ys| == |multiset(ys)| == 0;
    } else {
      var x := xs[0];
      assert x in multiset(ys);
      var i :| 0 <= i < |ys| && ys[i] == x;
      var rest := ys[..i] + ys[i + 1..];
      RemoveMatching(xs, 0, ys, i);
      assert xs[..0] + xs[1..] == xs[1..];
      AbsAllMultiset(xs[1..], rest);
      AbsAllRemoveAt(xs, 0);
      AbsAllRemoveAt(ys, i);
      calc {
        multiset(AbsAll(xs));
        multiset(AbsAll(xs[1..])) + multiset{Abs(x)};
        multiset(AbsAll(rest)) + multiset{Abs(x)};
        multiset(AbsAll(ys));
      }
    }
  }

  lemma AbsAllRemoveAt(ys: seq<real>, i: int)
    requires 0 <= i < |ys|
    ensures multiset(AbsAll(ys)) == multiset(AbsAll(ys[..i] + ys[i + 1..])) + multiset{Abs(ys[i])}
  {
    var a := AbsAll(ys);
    assert AbsAll(ys[..i] + ys[i + 1..]) == a[..i] + a[i + 1..];
    assert a == a[..i] + [a[i]] + a[i + 1..];
  }

  /** The threshold of [1, -1, 2, -2, 10, -10] with the default epsilon is 0.1. */
  lemma ThresholdExample(xs: seq<real>)
    requires xs == [1.0, -1.0, 2.0, -2.0, 10.0, -10.0]
    ensures NeutralThreshold(xs, 0.05) == 0.1
  {
    var a := AbsAll(xs);
    assert a == [1.0, 1.0, 2.0, 2.0, 10.0, 10.0];
    assert Median(a) == 2.0 by {
      assert Sorted(a) && |a| == 6 && a[2] == 2.0 && a[3] == 2.0;
      MedianOfSorted(a);
    }
  }

  /** On already sorted values the median reads the middle directly. */
  lemma MedianOfSorted(a: seq<real>)
    requires Sorted(a) && |a| > 0
    ensures Median(a) == if |a| % 2 == 1 then a[|a| / 2] else (a[|a| / 2 - 1] + a[|a| / 2]) / 2.0
  {
    SortedUnique(Sort(a), a);
  }

  /**
   * classify_regime: neutral iff |value| < threshold, else "+" for a positive
   * value and "-" otherwise. For a positive threshold: "+" iff value >= t,
   * "-" iff value <= -t; a value exactly at the threshold gets a sign.
   */
  function ClassifyRegime(value: real, threshold: real): (s: Sign)
    ensures s == Neutral <==> Abs(value) < threshold
    ensures threshold > 0.0 ==>
      (s == Pos <==> value >= threshold) && (s == Neg <==> value <= -threshold)
    ensures threshold <= 0.0 ==> (s == Pos <==> value > 0.0) && (s == Neg <==> value <= 0.0)
  {
    if Abs(value) < threshold then Neutral
    else if value > 0.0 then Pos else Neg
  }
}
