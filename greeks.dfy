/**
 * Black-Scholes Greeks over abstract transcendental functions. Only the
 * structure is modelled: the degenerate-input guard, the call/put dispatch and
 * the relations between the call and the put outputs.
 */
module BlackScholes {
  import opened Wrappers
  import opened Models

  /** The numeric library: natural log, exp, sqrt, standard normal cdf and pdf. */
  datatype Transcendentals = Transcendentals(
    log: real -> real,
    exp: real -> real,
    sqrt: real -> real,
    cdf: real -> real,
    pdf: real -> real)

  /** The only facts about the library the model relies on. */
  ghost predicate Laws(m: Transcendentals) {
    && (forall x :: m.exp(x) > 0.0)
    && (forall x :: x > 0.0 ==> m.sqrt(x) > 0.0)
    && (forall x :: 0.0 < m.cdf(x) < 1.0)
    && (forall x :: m.pdf(x) > 0.0)
  }

  type Numerics = m: Transcendentals | Laws(m)
    witness Transcendentals(x => 0.0, x => 1.0, x => if x > 0.0 then x else 1.0, x => 0.5, x => 1.0)

  /** ASCII model of Python's `str.lower`. */
  function Lower(s: string): (r: string)
    ensures |r| == |s|
    ensures forall i :: 0 <= i < |s| ==> r[i] == LowerChar(s[i])
  {
    if s == [] then [] else [LowerChar(s[0])] + Lower(s[1..])
  }

  function LowerChar(ch: char): char {
    if 'A' <= ch <= 'Z' then (ch as int - 'A' as int + 'a' as int) as char else ch
  }

  predicate IsCall(optionType: string) { Lower(optionType) == "call" }
  predicate IsPut(optionType: string) { Lower(optionType) == "put" }

  /** Lower-casing twice is lower-casing once, so the type test ignores case. */
  lemma LowerIdempotent(s: string)
    ensures Lower(Lower(s)) == Lower(s)
    ensures IsCall(Lower(s)) == IsCall(s) && IsPut(Lower(s)) == IsPut(s)
  {
  }

  /** The lowercase names themselves are recognised, and each as only one kind. */
  lemma TypeNames()
    ensures IsCall("call") && !IsPut("call")
    ensures IsPut("put") && !IsCall("put")
  {
    assert Lower("call") == "call";
    assert Lower("put") == "put";
  }

  datatype GreeksError = InvalidOptionType

  /** Black-Scholes d1. */
  function D1(m: Numerics, s: real, k: real, t: real, r: real, q: real, sigma: real): real
    requires s > 0.0 && k > 0.0 && t > 0.0 && sigma > 0.0
  {
    (m.log(s / k) + (r - q + 0.5 * sigma * sigma) * t) / (sigma * m.sqrt(t))
  }

  /** The charm expression shared by calls and puts. */
  function Charm(m: Numerics, s: real, k: real, t: real, r: real, q: real, sigma: real): real
    requires s > 0.0 && k > 0.0 && t > 0.0 && sigma > 0.0
  {
    var d1 := D1(m, s, k, t, r, q, sigma);
    var d2 := d1 - sigma * m.sqrt(t);
    -m.exp(-q * t) * m.pdf(d1) * (q + (r - q) * d1 / (sigma * m.sqrt(t)) - d2 * sigma / (2.0 * m.sqrt(t)))
  }

  /** Positive-input predicate of the guard: anything else yields all-zero Greeks. */
  predicate NonDegenerate(s: real, k: real, t: real, sigma: real) {
    t > 0.0 && sigma > 0.0 && s > 0.0 && k > 0.0
  }

  /**
   * calculate_greeks: zero Greeks on degenerate input (checked before the type),
   * otherwise the call or put closed forms; an unknown type is an error.
   */
  function CalculateGreeks(m: Numerics, s: real, k: real, t: real, r: real, q: real,
                           sigma: real, optionType: string): (res: Result<Greeks, GreeksError>)
    ensures !NonDegenerate(s, k, t, sigma) ==> res == Ok(NoGreeks)
    ensures NonDegenerate(s, k, t, sigma) ==> (res.Err? <==> !IsCall(optionType) && !IsPut(optionType))
  {
    if t <= 0.0 || sigma <= 0.0 || s <= 0.0 || k <= 0.0 then
      Ok(NoGreeks)
    else
      var d1 := D1(m, s, k, t, r, q, sigma);
      var discount := m.exp(-q * t);
      var gamma := discount * m.pdf(d1) / (s * sigma * m.sqrt(t));
      var vanna := discount * m.pdf(d1) * m.sqrt(t);
      var charm := Charm(m, s, k, t, r, q, sigma);
      if IsCall(optionType) then
        Ok(Greeks(discount * m.cdf(d1), gamma, vanna, charm))
      else if IsPut(optionType) then
        Ok(Greeks(-discount * m.cdf(-d1), gamma, -vanna, charm))
      else
        Err(InvalidOptionType)
  }

  /** On valid inputs a call has positive delta and gamma. */
  lemma CallGreeksPositive(m: Numerics, s: real, k: real, t: real, r: real, q: real,
                           sigma: real, optionType: string)
    requires NonDegenerate(s, k, t, sigma) && IsCall(optionType)
    ensures var res := CalculateGreeks(m, s, k, t, r, q, sigma, optionType);
      res.Ok? && res.value.delta > 0.0 && res.value.gamma > 0.0
  {
    var d1 := D1(m, s, k, t, r, q, sigma);
    var discount := m.exp(-q * t);
    assert m.sqrt(t) > 0.0 && s * sigma > 0.0 && s * sigma * m.sqrt(t) > 0.0;
    assert discount * m.pdf(d1) > 0.0 && discount * m.cdf(d1) > 0.0;
  }

  /**
   * For identical inputs the call and put gamma and charm coincide and the put
   * vanna is the negated call vanna; call delta is positive, put delta negative
   * and gamma positive.
   */
  lemma CallPutRelations(m: Numerics, s: real, k: real, t: real, r: real, q: real, sigma: real)
    requires NonDegenerate(s, k, t, sigma)
    ensures var call := CalculateGreeks(m, s, k, t, r, q, sigma, "call");
            var put := CalculateGreeks(m, s, k, t, r, q, sigma, "put");
            && call.Ok? && put.Ok?
            && call.value.gamma == put.value.gamma
            && call.value.charm == put.value.charm
            && put.value.vanna == -call.value.vanna
            && call.value.delta > 0.0 && put.value.delta < 0.0
            && call.value.gamma > 0.0
  {
    var d1 := D1(m, s, k, t, r, q, sigma);
    var discount := m.exp(-q * t);
    assert Lower("call") == "call";
    assert Lower("put") == "put";
    assert discount > 0.0 && m.cdf(d1) > 0.0 && m.cdf(-d1) > 0.0;
    assert discount * m.cdf(d1) > 0.0;
    assert discount * m.cdf(-d1) > 0.0;
    var den := s * sigma * m.sqrt(t);
    assert m.sqrt(t) > 0.0;
    assert s * sigma > 0.0;
    assert den > 0.0;
    assert discount * m.pdf(d1) > 0.0;
  }

  /**
   * calculate_time_to_expiration: `secondsUntil` is the expiry minus the current
   * time in seconds, or None when the date does not parse.
   */
  function TimeToExpiration(secondsUntil: Option<real>): (years: real)
    ensures years >= 0.0
    ensures secondsUntil.None? ==> years == 0.0
    ensures secondsUntil.Some? ==>
      (years > 0.0 <==> secondsUntil.value > 0.0) &&
      (secondsUntil.value > 0.0 ==> years * (365.25 * 24.0 * 3600.0) == secondsUntil.value)
  {
    match secondsUntil
    case None => 0.0
    case Some(d) =>
      var y := d / (365.25 * 24.0 * 3600.0);
      if 0.0 >= y then 0.0 else y
  }
}
