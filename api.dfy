/**
 * The exposures endpoint of the service: request validation, the VIX regime
 * actually used, the per-strike table (one expiration, or the merge of the
 * first five), the classification of every strike, and the aggregate record.
 */
module Api {
  import opened Wrappers
  import opened Models
  import opened BlackScholes
  import opened ExposureCalc
  import opened OrderedDict
  import opened Aggregation
  import opened Interpretation
  import opened Chain
  import opened Merge

  /** An HTTP error response: status code and detail text. */
  datatype HttpError = HttpError(status: int, detail: string)

  const VixRegimeError := HttpError(400, "vix_regime must be RISING, FALLING, or AUTO")
  /** Every failure after validation; the 503 for an empty table is caught and re-raised as this. */
  const ExposuresFailure := HttpError(500, "Failed to calculate exposures")
  const AutoWarning := "AUTO regime used without VIX data available - defaulting to FALLING"

  /** The VIX regime used for conductivity and the warning that goes with it. */
  datatype VixChoice = VixChoice(used: string, warning: Option<string>)

  predicate ValidVixRegime(vix: string) {
    vix == "RISING" || vix == "FALLING" || vix == "AUTO"
  }

  /** Validation of `vix_regime`, then AUTO replaced by FALLING with a warning. */
  function ResolveVixRegime(vix: string): (r: Result<VixChoice, HttpError>)
    ensures r.Err? <==> !ValidVixRegime(vix)
    ensures r.Err? ==> r.error == VixRegimeError
    ensures r.Ok? ==> r.value.used == "RISING" || r.value.used == "FALLING"
    ensures r.Ok? ==> (r.value.warning.Some? <==> vix == "AUTO")
    ensures r.Ok? && vix != "AUTO" ==> r.value.used == vix
  {
    if !ValidVixRegime(vix) then Err(VixRegimeError)
    else if vix == "AUTO" then Ok(VixChoice("FALLING", Some(AutoWarning)))
    else Ok(VixChoice(vix, None))
  }

  /** The regime used is itself accepted, and resolves to itself without a warning. */
  lemma ResolvedIsFixedPoint(vix: string)
    requires ResolveVixRegime(vix).Ok?
    ensures var used := ResolveVixRegime(vix).value.used;
      ResolveVixRegime(used) == Ok(VixChoice(used, None))
  {
  }

  /**
   * What the handlers read from outside: the quote and expiration list of the
   * market-data service (None when the call fails), each expiration's raw
   * chain, the configured rate and dividend yield, the clock and the numerics.
   */
  datatype Env = Env(
    quote: Option<real>,
    expirations: Option<seq<string>>,
    chains: string -> Option<seq<RawOption>>,
    riskFreeRate: real,
    dividendYield: real,
    secondsUntil: string -> Option<real>,
    math: Numerics)

  function PriceAt(env: Env, spot: real): Pricer {
    PriceWith(Pricing(spot, env.riskFreeRate, env.dividendYield, env.secondsUntil, env.math))
  }

  /** Python's `xs[:n]`. */
  function Head<T>(xs: seq<T>, n: nat): (r: seq<T>)
    ensures |r| == if |xs| < n then |xs| else n
    ensures forall i :: 0 <= i < |r| ==> r[i] == xs[i]
  {
    if |xs| < n then xs else xs[..n]
  }

  /** One expiration's table: the chain within 30% of spot, aggregated with logging. */
  function ExpirationTable(env: Env, expiration: string, spot: real): (t: StrikeTable)
    ensures t.Valid()
  {
    var price := PriceAt(env, spot);
    ByStrike(Kept(ChainData(env.chains(expiration), expiration, Some(spot)), price), price)
  }

  method LoadExpiration(env: Env, expiration: string, spot: real) returns (t: StrikeTable)
    ensures t == ExpirationTable(env, expiration, spot)
  {
    var contracts := GetChainData(env.chains(expiration), expiration, Some(spot));
    var processed, skipped;
    t, processed, skipped := AggregateByStrikeWithLogging(contracts, PriceAt(env, spot));
  }

  function Tables(env: Env, expirations: seq<string>, spot: real): (ts: seq<StrikeTable>)
    ensures |ts| == |expirations| && AllValid(ts)
    ensures forall i :: 0 <= i < |ts| ==> ts[i] == ExpirationTable(env, expirations[i], spot)
  {
    seq(|expirations|, i requires 0 <= i < |expirations| => ExpirationTable(env, expirations[i], spot))
  }

  lemma TablesSnoc(env: Env, expirations: seq<string>, expiration: string, spot: real)
    ensures Tables(env, expirations + [expiration], spot) ==
            Tables(env, expirations, spot) + [ExpirationTable(env, expiration, spot)]
  {
  }

  /** One step of the ALL merge: the tables of one more expiration fold into the merge. */
  lemma MergeStep(env: Env, first: seq<string>, i: nat, spot: real)
    requires i < |first|
    ensures MergeAll(Tables(env, first[..i + 1], spot)) ==
            MergeTable(MergeAll(Tables(env, first[..i], spot)), ExpirationTable(env, first[i], spot))
  {
    assert first[..i + 1] == first[..i] + [first[i]];
    TablesSnoc(env, first[..i], first[i], spot);
    MergeAllSnoc(Tables(env, first[..i], spot), ExpirationTable(env, first[i], spot));
  }

  /** The ALL merge: the first five expirations' tables merged in order. */
  method MergeExpirations(env: Env, expirations: seq<string>, spot: real) returns (merged: StrikeTable)
    ensures merged == MergeAll(Tables(env, Head(expirations, 5), spot))
  {
    var first := Head(expirations, 5);
    merged := Empty();
    for i := 0 to |first|
      invariant merged == MergeAll(Tables(env, first[..i], spot))
    {
      var t := LoadExpiration(env, first[i], spot);
      MergeStep(env, first, i, spot);
      merged := MergeInto(merged, t);
    }
    assert first[..|first|] == first;
  }

  /** The strike table the handler classifies, or None when the expiration list cannot be fetched. */
  function StrikeAggregations(env: Env, expiration: string, spot: real): (t: Option<StrikeTable>)
    ensures t.Some? ==> t.value.Valid()
  {
    if expiration == "ALL" then
      match env.expirations
      case None => None
      case Some(all) => Some(MergeAll(Tables(env, Head(all, 5), spot)))
    else Some(ExpirationTable(env, expiration, spot))
  }

  // ----- the per-strike classification loop -----

  function FourValues(e: Exposures): seq<real> {
    [e.gex, e.dex, e.vex, e.cex]
  }

  /** `all_exposure_values` after the strikes `ks`: four values per strike, in order. */
  function Values(m: map<real, StrikeAgg>, ks: seq<real>): (vs: seq<real>)
    requires Covers(m, ks)
    ensures |vs| == 4 * |ks|
  {
    if ks == [] then []
    else Values(m, ks[..|ks| - 1]) + FourValues(m[ks[|ks| - 1]].totals)
  }

  /**
   * The record of one strike, classified against `values`, or None where the
   * terrain divides by a zero spot.
   */
  function StrikeRow(strike: real, data: StrikeAgg, values: seq<real>, spot: real): (r: Option<StrikeData>)
    ensures r.None? <==> spot == 0.0
    ensures r.Some? ==>
      && r.value.strike == strike
      && r.value.totals == data.totals
      && r.value.callOi == data.callOi && r.value.putOi == data.putOi
      && (r.value.regime, r.value.regimeCode) == ClassifyExposureRegime(data.totals, values, DefaultEpsilon)
      && r.value.patternFlags == PatternFlags(r.value.regimeCode)
      && r.value.classification == TerrainLabel(r.value.regimeCode) + MoneynessSuffix(spot, strike).value
  {
    var (regime, code) := ClassifyExposureRegime(data.totals, values, DefaultEpsilon);
    match ClassifyStrikeTerrain(code, spot, strike)
    case None => None
    case Some(terrain) =>
      Some(StrikeData(strike, data.totals, regime, code, terrain.classification, terrain.patternFlags,
                      data.callOi, data.putOi))
  }

  /** What one iteration makes of a strike, its record and the values so far; None where it raises. */
  type RowBuilder = (real, StrikeAgg, seq<real>) -> Option<StrikeData>

  /** The handler's iteration: classify_exposure_regime, then classify_strike_terrain at `spot`. */
  function RowAt(spot: real): RowBuilder {
    (strike, data, values) => StrikeRow(strike, data, values, spot)
  }

  /** `strikes_data` after the strikes `ks`, or None once an iteration raises. */
  function Rows(m: map<real, StrikeAgg>, ks: seq<real>, build: RowBuilder): Option<seq<StrikeData>>
    requires Covers(m, ks)
  {
    if ks == [] then Some([])
    else
      var k := ks[|ks| - 1];
      match Rows(m, ks[..|ks| - 1], build)
      case None => None
      case Some(previous) =>
        match build(k, m[k], Values(m, ks))
        case None => None
        case Some(row) => Some(previous + [row])
  }

  /**
   * The loop fails exactly when some iteration fails. Otherwise the i-th row is
   * built from the i-th strike and the first 4(i+1) values, those of strikes
   * 0..i only: a growing prefix, not the full list.
   */
  lemma {:induction false} RowsMeaning(m: map<real, StrikeAgg>, ks: seq<real>, build: RowBuilder)
    requires Covers(m, ks)
    ensures Rows(m, ks, build).None? <==>
      exists i :: 0 <= i < |ks| && build(ks[i], m[ks[i]], Values(m, ks)[..4 * i + 4]).None?
    ensures Rows(m, ks, build).Some? ==>
      var rows := Rows(m, ks, build).value;
      && |rows| == |ks|
      && forall i :: 0 <= i < |ks| ==> Some(rows[i]) == build(ks[i], m[ks[i]], Values(m, ks)[..4 * i + 4])
  {
    if ks != [] {
      var prefix, k := ks[..|ks| - 1], ks[|ks| - 1];
      RowsMeaning(m, prefix, build);
      var vs := Values(m, ks);
      var before := Values(m, prefix);
      assert vs == before + FourValues(m[k].totals);
      assert forall i :: 0 <= i < |prefix| ==> vs[..4 * i + 4] == before[..4 * i + 4] && ks[i] == prefix[i];
      assert vs[..4 * |prefix| + 4] == vs;
      if Rows(m, prefix, build).Some? {
        var previous := Rows(m, prefix, build).value;
        if Rows(m, ks, build).Some? {
          var rows := Rows(m, ks, build).value;
          assert rows == previous + [build(k, m[k], vs).value];
          assert forall i :: 0 <= i < |prefix| ==> rows[i] == previous[i];
        }
      } else {
        var i :| 0 <= i < |prefix| && build(prefix[i], m[prefix[i]], before[..4 * i + 4]).None?;
        assert build(ks[i], m[ks[i]], vs[..4 * i + 4]).None?;
      }
    }
  }

  /**
   * With the handler's iteration: the loop fails exactly when there is a strike
   * and the spot is zero; otherwise the i-th row is the record of the i-th strike
   * classified against the values of strikes 0..i.
   */
  lemma StrikeRowsMeaning(m: map<real, StrikeAgg>, ks: seq<real>, spot: real)
    requires Covers(m, ks)
    ensures Rows(m, ks, RowAt(spot)).None? <==> spot == 0.0 && ks != []
    ensures Rows(m, ks, RowAt(spot)).Some? ==>
      var rows := Rows(m, ks, RowAt(spot)).value;
      && |rows| == |ks|
      && forall i :: 0 <= i < |ks| ==> Some(rows[i]) == StrikeRow(ks[i], m[ks[i]], Values(m, ks)[..4 * i + 4], spot)
  {
    RowsMeaning(m, ks, RowAt(spot));
    if spot == 0.0 && ks != [] {
      assert RowAt(spot)(ks[0], m[ks[0]], Values(m, ks)[..4]).None?;
    }
  }

  /** Once an iteration fails, the whole loop has failed. */
  lemma {:induction false} RowsFailureSticks(m: map<real, StrikeAgg>, ks: seq<real>, n: nat, build: RowBuilder)
    requires Covers(m, ks) && n <= |ks| && Covers(m, ks[..n]) && Rows(m, ks[..n], build).None?
    ensures Rows(m, ks, build).None?
  {
    if n < |ks| {
      var prefix := ks[..|ks| - 1];
      assert prefix[..n] == ks[..n];
      RowsFailureSticks(m, prefix, n, build);
    } else {
      assert ks[..n] == ks;
    }
  }

  /** One more strike: four more values, and one more row unless the loop has failed. */
  lemma RowsSnoc(m: map<real, StrikeAgg>, ks: seq<real>, k: real, build: RowBuilder)
    requires Covers(m, ks) && k in m
    ensures Covers(m, ks + [k])
    ensures Values(m, ks + [k]) == Values(m, ks) + FourValues(m[k].totals)
    ensures Rows(m, ks + [k], build) ==
      match Rows(m, ks, build)
      case None => None
      case Some(previous) =>
        match build(k, m[k], Values(m, ks + [k]))
        case None => None
        case Some(row) => Some(previous + [row])
  {
    assert (ks + [k])[..|ks|] == ks;
  }

  /** The classification loop over the table, in its iteration order. */
  method ClassifyStrikes(t: StrikeTable, build: RowBuilder) returns (rows: Option<seq<StrikeData>>, values: seq<real>)
    requires t.Valid()
    ensures Covers(t.entries, t.keys)
    ensures rows == Rows(t.entries, t.keys, build)
    ensures rows.Some? ==> values == Values(t.entries, t.keys)
  {
    assert Covers(t.entries, t.keys);
    var built: seq<StrikeData> := [];
    values := [];
    ghost var done: seq<real> := [];
    for i := 0 to |t.keys|
      invariant done == t.keys[..i] && Covers(t.entries, done)
      invariant values == Values(t.entries, done)
      invariant Rows(t.entries, done, build) == Some(built)
    {
      var strike := t.keys[i];
      var data := t.entries[strike];
      values := values + [data.totals.gex, data.totals.dex, data.totals.vex, data.totals.cex];
      var row := build(strike, data, values);
      RowsSnoc(t.entries, done, strike, build);
      done := done + [strike];
      assert t.keys[..i + 1] == done;
      if row.None? {
        RowsFailureSticks(t.entries, t.keys, i + 1, build);
        return None, values;
      }
      built := built + [row.value];
    }
    assert done == t.keys;
    rows := Some(built);
  }

  // ----- get_exposures -----

  /** The response of the exposures endpoint, without its timestamp. */
  datatype ExposuresResponse = ExposuresResponse(
    spot: real,
    expiration: string,
    aggregate: AggregateData,
    vixRegimeUsed: string,
    strikes: seq<StrikeData>,
    vixWarning: Option<string>)

  /**
   * The aggregate record: the totals over all strikes, classified against the
   * threshold of all the strike-level values, with the code of that regime and
   * the conductivity label and note for the VIX regime used.
   */
  function Aggregate(t: StrikeTable, used: string): (a: AggregateData)
    requires t.Valid()
    ensures Covers(t.entries, t.keys)
    ensures a.totals == TotalAlong(t.entries, t.keys)
    ensures ClassifiedAgainst(a.totals, NeutralThreshold(Values(t.entries, t.keys), DefaultEpsilon), a.regime)
    ensures ParseRegimeCode(a.regimeCode) == Some(a.regime)
    ensures a.conductivity == ConductivityOf(a.regime, used).Label()
    ensures a.notes == ConductivityNote(ConductivityOf(a.regime, used), a.regime)
  {
    assert Covers(t.entries, t.keys);
    var total := TotalAlong(t.entries, t.keys);
    var (regime, code) := ClassifyExposureRegime(total, Values(t.entries, t.keys), DefaultEpsilon);
    var (conductivity, notes) := DetermineConductivity(regime, used);
    AggregateData(total, regime, code, conductivity, notes)
  }

  /**
   * get_exposures for an expiration (or "ALL") and a `vix_regime`. A bad
   * `vix_regime` is a 400; every later failure is the same 500. A response
   * echoes the spot and expiration, uses RISING or FALLING, warns exactly for
   * AUTO, and labels the aggregate with the conductivity of its regime.
   */
  function ExposuresOf(env: Env, expiration: string, vix: string): (r: Result<ExposuresResponse, HttpError>)
    ensures r.Err? ==> r.error == VixRegimeError || r.error == ExposuresFailure
    ensures r == Err(VixRegimeError) <==> !ValidVixRegime(vix)
    ensures r.Ok? ==>
      && env.quote == Some(r.value.spot)
      && r.value.expiration == expiration
      && |r.value.strikes| > 0
      && (r.value.vixRegimeUsed == "RISING" || r.value.vixRegimeUsed == "FALLING")
      && (r.value.vixWarning.Some? <==> vix == "AUTO")
      && r.value.vixRegimeUsed == (if vix == "AUTO" then "FALLING" else vix)
      && r.value.aggregate.conductivity == ConductivityOf(r.value.aggregate.regime, r.value.vixRegimeUsed).Label()
  {
    match ResolveVixRegime(vix)
    case Err(e) => Err(e)
    case Ok(choice) =>
      match env.quote
      case None => Err(ExposuresFailure)
      case Some(spot) =>
        match StrikeAggregations(env, expiration, spot)
        case None => Err(ExposuresFailure)
        case Some(t) => Respond(spot, expiration, t, choice)
  }

  /**
   * The part of get_exposures after the strike table is built: classify, check,
   * aggregate. Any failure is the one 500; a response echoes the spot, the
   * expiration and the VIX choice, holds the classified rows and the aggregate.
   */
  function Respond(spot: real, expiration: string, t: StrikeTable, choice: VixChoice): (r: Result<ExposuresResponse, HttpError>)
    requires t.Valid()
    ensures Covers(t.entries, t.keys)
    ensures r.Err? ==> r.error == ExposuresFailure
    ensures r.Ok? ==>
      && r.value.spot == spot && r.value.expiration == expiration
      && r.value.vixRegimeUsed == choice.used && r.value.vixWarning == choice.warning
      && r.value.aggregate == Aggregate(t, choice.used)
      && r.value.strikes != []
      && Rows(t.entries, t.keys, RowAt(spot)) == Some(r.value.strikes)
  {
    assert Covers(t.entries, t.keys);
    match Rows(t.entries, t.keys, RowAt(spot))
    case None => Err(ExposuresFailure)
    case Some(rows) =>
      if rows == [] then Err(ExposuresFailure)
      else Ok(ExposuresResponse(spot, expiration, Aggregate(t, choice.used), choice.used, rows, choice.warning))
  }

  /**
   * A response after the table is built holds the rows of the classification
   * loop, one per strike (StrikeRowsMeaning says how each is classified), and
   * its aggregate holds the sum over all of them. It exists exactly when the
   * spot is non-zero and the table is not empty.
   */
  lemma RespondRows(spot: real, expiration: string, t: StrikeTable, choice: VixChoice)
    requires t.Valid()
    ensures Covers(t.entries, t.keys)
    ensures Respond(spot, expiration, t, choice).Ok? <==> spot != 0.0 && t.keys != []
    ensures Respond(spot, expiration, t, choice).Ok? ==>
      var r := Respond(spot, expiration, t, choice).value;
      && |r.strikes| == |t.keys|
      && r.aggregate == Aggregate(t, choice.used)
      && r.aggregate.totals == TotalAlong(t.entries, t.keys)
      && Rows(t.entries, t.keys, RowAt(spot)) == Some(r.strikes)
  {
    assert Covers(t.entries, t.keys);
    StrikeRowsMeaning(t.entries, t.keys, spot);
  }

  /** A builder whose every row carries the strike, totals and open interest it was built from. */
  ghost predicate KeepsRecords(build: RowBuilder) {
    forall strike, data, values :: build(strike, data, values).Some? ==>
      var row := build(strike, data, values).value;
      row.strike == strike && row.totals == data.totals && row.callOi == data.callOi && row.putOi == data.putOi
  }

  lemma RowAtKeepsRecords(spot: real)
    ensures KeepsRecords(RowAt(spot))
  {
    forall strike, data, values | RowAt(spot)(strike, data, values).Some?
      ensures var row := RowAt(spot)(strike, data, values).value;
        row.strike == strike && row.totals == data.totals && row.callOi == data.callOi && row.putOi == data.putOi
    {
      var row := StrikeRow(strike, data, values, spot);
    }
  }

  /** With such a builder, the i-th row carries the record of the i-th strike. */
  lemma {:induction false} RowsKeepRecords(m: map<real, StrikeAgg>, ks: seq<real>, build: RowBuilder)
    requires Covers(m, ks) && KeepsRecords(build) && Rows(m, ks, build).Some?
    ensures var rows := Rows(m, ks, build).value;
      && |rows| == |ks|
      && forall i :: 0 <= i < |ks| ==>
           && rows[i].strike == ks[i]
           && rows[i].totals == m[ks[i]].totals
           && rows[i].callOi == m[ks[i]].callOi
           && rows[i].putOi == m[ks[i]].putOi
  {
    if ks != [] {
      var prefix := ks[..|ks| - 1];
      RowsKeepRecords(m, prefix, build);
      assert forall i :: 0 <= i < |prefix| ==> ks[i] == prefix[i];
    }
  }

  /**
   * The request succeeds exactly when `vix_regime` is valid, the quote is
   * available and non-zero, the strike table can be built and it is not empty.
   */
  lemma ExposuresSucceed(env: Env, expiration: string, vix: string)
    ensures ExposuresOf(env, expiration, vix).Ok? <==>
      && ValidVixRegime(vix)
      && env.quote.Some? && env.quote.value != 0.0
      && StrikeAggregations(env, expiration, env.quote.value).Some?
      && StrikeAggregations(env, expiration, env.quote.value).value.keys != []
  {
    if ValidVixRegime(vix) && env.quote.Some? && StrikeAggregations(env, expiration, env.quote.value).Some? {
      var spot := env.quote.value;
      RespondRows(spot, expiration, StrikeAggregations(env, expiration, spot).value, ResolveVixRegime(vix).value);
    }
  }

  /** A response of get_exposures is the response built from its strike table. */
  lemma ExposuresRows(env: Env, expiration: string, vix: string)
    requires ExposuresOf(env, expiration, vix).Ok?
    ensures var r := ExposuresOf(env, expiration, vix).value;
      && StrikeAggregations(env, expiration, r.spot).Some?
      && ResolveVixRegime(vix).Ok?
      && Respond(r.spot, expiration, StrikeAggregations(env, expiration, r.spot).value, ResolveVixRegime(vix).value)
         == Ok(r)
  {
  }

  /**
   * AUTO is resolved to FALLING before conductivity is determined, so an AUTO
   * request is never labelled SELL-OFF-CONDUCIVE.
   */
  lemma AutoNeverSellOff(env: Env, expiration: string)
    requires ExposuresOf(env, expiration, "AUTO").Ok?
    ensures ExposuresOf(env, expiration, "AUTO").value.vixRegimeUsed == "FALLING"
    ensures ExposuresOf(env, expiration, "AUTO").value.aggregate.conductivity != "SELL-OFF-CONDUCIVE"
  {
    var r := ExposuresOf(env, expiration, "AUTO").value;
    var k := ConductivityOf(r.aggregate.regime, "FALLING");
    LabelsDistinct(k, SellOffConducive);
  }

  /** For one expiration, the aggregate totals are the exposures of every contract kept. */
  lemma SingleExpirationTotals(env: Env, expiration: string, vix: string)
    requires expiration != "ALL" && ExposuresOf(env, expiration, vix).Ok?
    ensures var r := ExposuresOf(env, expiration, vix).value;
      var price := PriceAt(env, r.spot);
      r.aggregate.totals == SumExposures(Kept(ChainData(env.chains(expiration), expiration, Some(r.spot)), price), price)
  {
    var spot := env.quote.value;
    var price := PriceAt(env, spot);
    ExposuresRows(env, expiration, vix);
    RespondRows(spot, expiration, ExpirationTable(env, expiration, spot), ResolveVixRegime(vix).value);
    TotalOfByStrike(Kept(ChainData(env.chains(expiration), expiration, Some(spot)), price), price);
  }

  /**
   * For ALL, every strike of the response occurs in one of the first five
   * expirations, with its totals and open interest summed over those that have it.
   */
  lemma AllExpirationRows(env: Env, vix: string, i: int)
    requires ExposuresOf(env, "ALL", vix).Ok?
    requires 0 <= i < |ExposuresOf(env, "ALL", vix).value.strikes|
    ensures var r := ExposuresOf(env, "ALL", vix).value;
      var ts := Tables(env, Head(env.expirations.value, 5), r.spot);
      var row := r.strikes[i];
      && Seen(ts, row.strike)
      && row.totals == SumTotals(ts, row.strike)
      && row.callOi == SumCallOi(ts, row.strike)
      && row.putOi == SumPutOi(ts, row.strike)
  {
    var r := ExposuresOf(env, "ALL", vix).value;
    var ts := Tables(env, Head(env.expirations.value, 5), r.spot);
    var t := MergeAll(ts);
    ExposuresRows(env, "ALL", vix);
    RespondRows(r.spot, "ALL", t, ResolveVixRegime(vix).value);
    RowAtKeepsRecords(r.spot);
    RowsKeepRecords(t.entries, t.keys, RowAt(r.spot));
    var k := t.keys[i];
    assert k in t.entries;
    MergedKeys(ts, k);
    MergedRecord(ts, k);
  }

  /** The strikes of a response are distinct: they are the keys of one table. */
  lemma ResponseStrikesDistinct(env: Env, expiration: string, vix: string)
    requires ExposuresOf(env, expiration, vix).Ok?
    ensures var rows := ExposuresOf(env, expiration, vix).value.strikes;
      forall k, k' :: 0 <= k < k' < |rows| ==> rows[k].strike != rows[k'].strike
  {
    var r := ExposuresOf(env, expiration, vix).value;
    var t := StrikeAggregations(env, expiration, r.spot).value;
    ExposuresRows(env, expiration, vix);
    RespondRows(r.spot, expiration, t, ResolveVixRegime(vix).value);
    RowAtKeepsRecords(r.spot);
    RowsKeepRecords(t.entries, t.keys, RowAt(r.spot));
  }

  method GetExposures(env: Env, expiration: string, vix: string) returns (r: Result<ExposuresResponse, HttpError>)
    ensures r == ExposuresOf(env, expiration, vix)
  {
    var choice := ResolveVixRegime(vix);
    if choice.Err? {
      return Err(choice.error);
    }
    if env.quote.None? {
      return Err(ExposuresFailure);
    }
    var spot := env.quote.value;
    var t: StrikeTable;
    if expiration == "ALL" {
      if env.expirations.None? {
        return Err(ExposuresFailure);
      }
      t := MergeExpirations(env, env.expirations.value, spot);
    } else {
      t := LoadExpiration(env, expiration, spot);
    }
    r := BuildResponse(spot, expiration, t, choice.value);
  }

  /** The tail of get_exposures: the classification loop, the empty check and the aggregate. */
  method BuildResponse(spot: real, expiration: string, t: StrikeTable, choice: VixChoice)
    returns (r: Result<ExposuresResponse, HttpError>)
    requires t.Valid()
    ensures r == Respond(spot, expiration, t, choice)
  {
    var rows, values := ClassifyStrikes(t, RowAt(spot));
    if rows.None? {
      return Err(ExposuresFailure);
    }
    if |rows.value| == 0 {
      return Err(ExposuresFailure);
    }
    var aggregate := AggregateRecord(t, values, choice.used);
    r := Ok(ExposuresResponse(spot, expiration, aggregate, choice.used, rows.value, choice.warning));
  }

  /** The aggregate step of get_exposures, given the values the classification loop collected. */
  method AggregateRecord(t: StrikeTable, values: seq<real>, used: string) returns (a: AggregateData)
    requires t.Valid() && Covers(t.entries, t.keys) && values == Values(t.entries, t.keys)
    ensures a == Aggregate(t, used)
  {
    var total := AggregateAllExpirations(t);
    var (regime, code) := ClassifyExposureRegime(total, values, DefaultEpsilon);
    var (conductivity, notes) := DetermineConductivity(regime, used);
    a := AggregateData(total, regime, code, conductivity, notes);
  }
}
