/**
 * get_chain_data: the upstream option records of one expiration, filtered to
 * strikes within 30% of spot, then turned into contracts with their defaults.
 */
module Chain {
  import opened Wrappers
  import opened Models

  /** A member of an upstream JSON record: absent, explicitly null, or present. */
  datatype Field<T> = Missing | Null | Present(value: T)

  /** The nested `greeks` record; `.get` gives None for an absent or a null member alike. */
  datatype RawGreeks = RawGreeks(
    midIv: Option<real>,
    smvVol: Option<real>,
    delta: Option<real>,
    gamma: Option<real>,
    theta: Option<real>,
    vega: Option<real>)

  /** `opt.get("greeks", {})` for an absent member. */
  const NoRawGreeks := RawGreeks(None, None, None, None, None, None)

  /** One option record of the upstream chain. */
  datatype RawOption = RawOption(
    symbol: Field<string>,
    optionType: Field<string>,
    strike: Field<real>,
    bid: Field<real>,
    ask: Field<real>,
    last: Field<real>,
    volume: Field<int>,
    openInterest: Field<int>,
    greeks: Field<RawGreeks>)

  /** `float(opt.get("strike", 0))`: an absent strike reads as 0, a null one raises (None). */
  function StrikeOf(o: RawOption): (s: Option<real>)
    ensures s.None? <==> o.strike.Null?
    ensures o.strike.Missing? ==> s == Some(0.0)
    ensures o.strike.Present? ==> s == Some(o.strike.value)
  {
    match o.strike
    case Missing => Some(0.0)
    case Null => None
    case Present(x) => Some(x)
  }

  /** The filter band: within 30% of spot on either side, both ends included. */
  predicate InBand(spot: real, strike: real) {
    spot * 0.7 <= strike <= spot * 1.3
  }

  /**
   * The strike-filter comprehension. It keeps the records whose strike is in the
   * band, in order; it is None when some strike is null, which makes the whole
   * comprehension raise.
   */
  function FilterStrikes(options: seq<RawOption>, spot: real): (r: Option<seq<RawOption>>)
    ensures r.Some? ==> |r.value| <= |options|
  {
    if options == [] then Some([])
    else
      var o := options[|options| - 1];
      match FilterStrikes(options[..|options| - 1], spot)
      case None => None
      case Some(kept) =>
        match StrikeOf(o)
        case None => None
        case Some(x) => Some(if InBand(spot, x) then kept + [o] else kept)
  }

  /** The comprehension fails exactly when some record has a null strike. */
  lemma {:induction false} FilterFails(options: seq<RawOption>, spot: real)
    ensures FilterStrikes(options, spot).None? <==> exists i :: 0 <= i < |options| && options[i].strike.Null?
  {
    if options != [] {
      var prefix := options[..|options| - 1];
      FilterFails(prefix, spot);
      if exists i :: 0 <= i < |prefix| && prefix[i].strike.Null? {
        var i :| 0 <= i < |prefix| && prefix[i].strike.Null?;
        assert options[i] == prefix[i];
      }
      if exists i :: 0 <= i < |options| && options[i].strike.Null? {
        var i :| 0 <= i < |options| && options[i].strike.Null?;
        if i < |prefix| {
          assert prefix[i] == options[i];
        }
      }
    }
  }

  /** When it succeeds, the filter keeps exactly the records whose strike lies in the band. */
  lemma {:induction false} FilterKeeps(options: seq<RawOption>, spot: real, o: RawOption)
    requires FilterStrikes(options, spot).Some?
    ensures o in FilterStrikes(options, spot).value <==>
            o in options && StrikeOf(o).Some? && InBand(spot, StrikeOf(o).value)
  {
    if options != [] {
      var prefix := options[..|options| - 1];
      var last := options[|options| - 1];
      FilterKeeps(prefix, spot, o);
      assert options == prefix + [last];
      if o in options && o != last {
        assert o in prefix;
      }
    }
  }

  /** `x or 0` on a number: absent, null and zero all give zero. */
  function RealOrZero(f: Field<real>): real {
    if f.Present? then f.value else 0.0
  }

  function IntOrZero(f: Field<int>): int {
    if f.Present? then f.value else 0
  }

  /** `opt.get("symbol", "")`. */
  function SymbolOf(o: RawOption): string {
    if o.symbol.Present? then o.symbol.value else ""
  }

  /** `greeks.get("mid_iv") or greeks.get("smv_vol")`: a zero or missing mid IV falls back to the SMV volatility. */
  function ImpliedVolatility(g: RawGreeks): (iv: Option<real>)
    ensures g.midIv.Some? && g.midIv.value != 0.0 ==> iv == g.midIv
    ensures (g.midIv.None? || g.midIv.value == 0.0) ==> iv == g.smvVol
  {
    if g.midIv.Some? && g.midIv.value != 0.0 then g.midIv else g.smvVol
  }

  /**
   * The contract built from one record, or None where building it raises and the
   * record is skipped: a null symbol, type, strike or greeks member.
   */
  function ToContract(o: RawOption, expiration: string): (c: Option<OptionContract>)
    ensures c.Some? <==> !o.symbol.Null? && !o.optionType.Null? && !o.strike.Null? && !o.greeks.Null?
    ensures c.Some? ==>
      && c.value.expirationDate == expiration
      && (o.strike.Missing? ==> c.value.strike == 0.0)
      && (o.strike.Present? ==> c.value.strike == o.strike.value)
      && (o.optionType.Present? ==> c.value.optionType == o.optionType.value)
      && (o.optionType.Missing? ==> (c.value.optionType == "call" <==> 'C' in SymbolOf(o)))
      && (o.optionType.Missing? ==> (c.value.optionType == "call" || c.value.optionType == "put"))
      && (!o.openInterest.Present? ==> c.value.openInterest == 0)
      && (!o.volume.Present? ==> c.value.volume == 0)
      && (!o.bid.Present? ==> c.value.bid == 0.0)
      && (!o.ask.Present? ==> c.value.ask == 0.0)
      && (!o.last.Present? ==> c.value.last == 0.0)
      && c.value.symbol == SymbolOf(o)
      && (o.symbol.Present? ==> c.value.symbol == o.symbol.value)
      && (o.openInterest.Present? ==> c.value.openInterest == o.openInterest.value)
      && (o.volume.Present? ==> c.value.volume == o.volume.value)
      && (o.bid.Present? ==> c.value.bid == o.bid.value)
      && (o.ask.Present? ==> c.value.ask == o.ask.value)
      && (o.last.Present? ==> c.value.last == o.last.value)
      && (o.greeks.Present? ==>
            && c.value.impliedVolatility == ImpliedVolatility(o.greeks.value)
            && c.value.delta == o.greeks.value.delta && c.value.gamma == o.greeks.value.gamma
            && c.value.theta == o.greeks.value.theta && c.value.vega == o.greeks.value.vega)
      && (o.greeks.Missing? ==>
            && c.value.impliedVolatility.None? && c.value.delta.None? && c.value.gamma.None?
            && c.value.theta.None? && c.value.vega.None?)
      && c.value.rho.None?
  {
    if o.symbol.Null? || o.optionType.Null? || o.strike.Null? || o.greeks.Null? then None
    else
      var symbol := SymbolOf(o);
      var inferred := if 'C' in symbol then "call" else "put";
      var g := if o.greeks.Present? then o.greeks.value else NoRawGreeks;
      Some(OptionContract(
        symbol,
        if o.optionType.Present? then o.optionType.value else inferred,
        StrikeOf(o).value,
        expiration,
        RealOrZero(o.bid), RealOrZero(o.ask), RealOrZero(o.last),
        IntOrZero(o.volume), IntOrZero(o.openInterest),
        ImpliedVolatility(g), g.delta, g.gamma, g.theta, g.vega, None))
  }

  /** The conversion loop: the contracts of the records that convert, in order. */
  function Contracts(options: seq<RawOption>, expiration: string): (cs: seq<OptionContract>)
    ensures |cs| <= |options|
  {
    if options == [] then []
    else
      var rest := Contracts(options[..|options| - 1], expiration);
      match ToContract(options[|options| - 1], expiration)
      case None => rest
      case Some(c) => rest + [c]
  }

  /** Every contract comes from some record, and every convertible record yields its contract. */
  lemma {:induction false} ContractsFrom(options: seq<RawOption>, expiration: string, c: OptionContract)
    ensures c in Contracts(options, expiration) <==>
            exists i :: 0 <= i < |options| && ToContract(options[i], expiration) == Some(c)
  {
    if options != [] {
      var prefix := options[..|options| - 1];
      ContractsFrom(prefix, expiration, c);
      if exists i :: 0 <= i < |prefix| && ToContract(prefix[i], expiration) == Some(c) {
        var i :| 0 <= i < |prefix| && ToContract(prefix[i], expiration) == Some(c);
        assert options[i] == prefix[i];
      }
      if exists i :: 0 <= i < |options| && ToContract(options[i], expiration) == Some(c) {
        var i :| 0 <= i < |options| && ToContract(options[i], expiration) == Some(c);
        if i < |prefix| {
          assert prefix[i] == options[i];
        }
      }
    }
  }

  /** Records without null members all convert: nothing is dropped. */
  lemma {:induction false} NothingDropped(options: seq<RawOption>, expiration: string)
    requires forall o :: o in options ==> ToContract(o, expiration).Some?
    ensures |Contracts(options, expiration)| == |options|
  {
    if options != [] {
      var prefix := options[..|options| - 1];
      assert forall o :: o in prefix ==> o in options;
      NothingDropped(prefix, expiration);
      assert options[|options| - 1] in options;
    }
  }

  /**
   * get_chain_data for a fetched chain (None when the upstream call raises) and an
   * optional spot: the error path yields no contracts.
   */
  function ChainData(fetched: Option<seq<RawOption>>, expiration: string, spot: Option<real>): seq<OptionContract> {
    match fetched
    case None => []
    case Some(options) =>
      var filtered := if spot.Some? then FilterStrikes(options, spot.value) else Some(options);
      match filtered
      case None => []
      case Some(kept) => Contracts(kept, expiration)
  }

  /** With a spot price, every contract returned lies in the band. */
  lemma ChainInBand(fetched: Option<seq<RawOption>>, expiration: string, spot: real, c: OptionContract)
    requires c in ChainData(fetched, expiration, Some(spot))
    ensures InBand(spot, c.strike) && c.expirationDate == expiration
  {
    var filtered := FilterStrikes(fetched.value, spot).value;
    ContractsFrom(filtered, expiration, c);
    var i :| 0 <= i < |filtered| && ToContract(filtered[i], expiration) == Some(c);
    FilterKeeps(fetched.value, spot, filtered[i]);
  }

  /** The conversion loop of get_chain_data; records that raise are skipped. */
  method ConvertOptions(options: seq<RawOption>, expiration: string) returns (contracts: seq<OptionContract>)
    ensures contracts == Contracts(options, expiration)
  {
    contracts := [];
    for i := 0 to |options|
      invariant contracts == Contracts(options[..i], expiration)
    {
      assert options[..i + 1][..i] == options[..i];
      match ToContract(options[i], expiration)
      case None =>
      case Some(c) => contracts := contracts + [c];
    }
    assert options[..|options|] == options;
  }

  /** get_chain_data without its cache. */
  method GetChainData(fetched: Option<seq<RawOption>>, expiration: string, spot: Option<real>)
    returns (contracts: seq<OptionContract>)
    ensures contracts == ChainData(fetched, expiration, spot)
  {
    contracts := [];
    if fetched.Some? {
      var options := fetched.value;
      var filtered := if spot.Some? then FilterStrikes(options, spot.value) else Some(options);
      if filtered.Some? {
        contracts := ConvertOptions(filtered.value, expiration);
      }
    }
  }
}
