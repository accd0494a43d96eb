# SPX market-maker Greek exposures, modelled in Dafny

The service reads an SPX option chain. It prices every contract's Greeks and
turns them into dealer-short exposures: gamma (GEX), delta (DEX), vanna (VEX)
and charm (CEX). These are folded per strike, each strike is classified into a
regime code such as `G- D- V- C+` with a terrain label, and the aggregate over
all strikes gets a conductivity label. Two HTTP handlers are modelled:

- the exposures endpoint, for one expiration or the first five merged;
- the heat-map endpoint, which shows one metric over the first eight
  expirations and the 25 smallest strikes.

The model works over `real`. It has no NaN or infinity. Transcendental
functions are uninterpreted: they are the fields of a `Numerics` record
constrained only by exp > 0, sqrt > 0 on positive input, 0 < N < 1 and n > 0.

Modules, leaf first:

- `Wrappers` (`Option`, `Result`).
- `Models`: the data shapes of `backend/models.py`.
- `OrderedDict`: a Python `dict` as insertion-ordered keys plus a map.
- `Sorting`: insertion sort as the reference for `np.median` and `sorted`.
- `BlackScholes`: `backend/greeks.py`.
- `ExposureCalc`: per-contract exposures, the neutral threshold and the sign rule.
- `Interpretation`: `backend/interpretation.py`.
- `Aggregation`: the per-strike folds and the all-strike total.
- `Chain`: `get_chain_data`.
- `Merge`: the ALL-expirations merge.
- `Api`: `get_exposures`.
- `HeatMap`: `get_exposures_matrix`.

The loops of the source are methods. Each is proved equal to a specification
function, and the properties are proved about that function:

- the two per-strike aggregations;
- the all-strike total;
- the merge;
- the classification loop;
- the chain conversion;
- the heat-map collection and matrix loops.

Where the code and its own documentation differ, the model follows the code:

- **Duplicate terrain codes.** The terrain dict literal lists `G- D- V+ C-`
  and `G+ D+ V- C+` twice. Python keeps the later value, so CONDITIONAL VOID
  and STRUCTURAL SUPPORT win (`Interpretation.TerrainMapContents`). A
  first-listed-wins reading of the table is not what the code does.
- **The threshold's comparison set.** The strike-level threshold is computed
  from all four metrics of the strikes classified so far. That is a growing
  prefix in dict order (`Api.RowsMeaning`), not the same-Greek values of
  every strike.
- **A value at the threshold.** `classify_regime` gives such a value a sign,
  because the test is a strict `<`. `backend/tests/test_exposures.py:175-177`
  expects `o` there. The model keeps the code (`ExposureCalc.ClassifyRegime`).

## Model

| member | source | states |
|---|---|---|
| BlackScholes.Lower | backend/greeks.py:29 | lowercasing keeps the length and lowers each character |
| BlackScholes.LowerIdempotent | backend/greeks.py:29-43 | lowercasing is idempotent, so the call/put test is case-insensitive |
| BlackScholes.TypeNames | backend/greeks.py:29-57 | "call" is a call and not a put; "put" is a put and not a call |
| BlackScholes.CalculateGreeks | backend/greeks.py:5-64 | degenerate S, K, T or sigma gives all-zero Greeks before the type is examined; otherwise it is an error exactly when the type is neither call nor put |
| BlackScholes.CallGreeksPositive | backend/greeks.py:29-41 | on valid inputs a call has positive delta and gamma |
| BlackScholes.CallPutRelations | backend/greeks.py:29-54 | same inputs: equal call/put gamma and charm, put vanna = -call vanna, call delta > 0 > put delta, gamma > 0 |
| BlackScholes.TimeToExpiration | backend/greeks.py:66-73 | never negative; 0 on a parse failure; positive iff the expiry is in the future, and then the seconds over 365.25 days |
| ExposureCalc.Clamp | backend/exposures.py:25-28 | result within [lo, hi]; unchanged inside, the nearer bound outside |
| ExposureCalc.FallbackSigma | backend/exposures.py:52-61 | sigma in (0, 5); the IV when 0 < IV < 5, otherwise 0.20 |
| ExposureCalc.ContractGreeks | backend/exposures.py:30-82 | delta in [-5,5], gamma in [-1,1], vanna and charm in [-10,10]; meaningful supplied delta/gamma are kept (clamped); otherwise the Black-Scholes Greeks at the fallback volatility, each clamped, or all zero when pricing fails |
| ExposureCalc.SafeExposure | backend/exposures.py:88-112 | zero without open interest or with a non-positive multiplier, else -OI * greek * multiplier |
| ExposureCalc.ContractExposures | backend/exposures.py:7-126 | the Greeks are the chosen ones, within their clamping bounds; no OI or a zero spot gives zero exposure; otherwise each exposure has the sign opposite to its Greek, magnitude OI*abs(gamma)*spot^2*100 for GEX and OI*abs(greek)*spot*100 for the others (zero for a negative spot) |
| ExposureCalc.DealerExposures | backend/exposures.py:85-117 | the dealer-short convention: no OI or zero spot gives zero exposure; with OI each exposure has the sign opposite to its Greek, magnitude OI*abs(greek)*spot^2*100 for GEX (any nonzero spot) and OI*abs(greek)*spot*100 for the others (positive spot; zero otherwise) |
| ExposureCalc.SuppliedGreeksBranch | backend/exposures.py:36-49 | charm = -theta/365.25, or 0 when abs(theta) <= 0.001; vanna = vega/10 when abs(vega) > 0.001, else gamma*sqrt(T) clamped while T > 0 and 0 after expiry |
| ExposureCalc.FallbackCallHasNegativeGex | backend/exposures.py:50-82 | fallback pricing of a call with OI, positive spot, strike and time gives gamma, delta > 0 and GEX, DEX < 0 |
| ExposureCalc.AbsAll | backend/exposures.py:246 | same length, each element the absolute value, all non-negative |
| ExposureCalc.Median | backend/exposures.py:247 | between the least and greatest value, and bounded by input elements on both sides |
| ExposureCalc.NeutralThreshold | backend/exposures.py:241-248 | at least epsilon; epsilon for no values; otherwise at least 0.05 * median of the absolute values and equal to one of the two |
| ExposureCalc.ThresholdIgnoresOrder | backend/exposures.py:241-248 | the threshold depends only on the multiset of values |
| ExposureCalc.MedianIgnoresOrder | backend/exposures.py:247 | the median depends only on the multiset of values |
| ExposureCalc.MedianOfSorted | backend/exposures.py:247 | on sorted input, the middle element, or the mean of the two middle ones |
| ExposureCalc.ThresholdExample | backend/tests/test_exposures.py:151-158 | [1,-1,2,-2,10,-10] with epsilon 0.05 gives 0.1 |
| ExposureCalc.ClassifyRegime | backend/exposures.py:250-254 | neutral iff abs(value) < threshold; for a positive threshold + iff value >= threshold and - iff value <= -threshold, so a value exactly at the threshold has a sign |
| Sorting.Insert | backend/exposures.py:247 | insertion keeps the sequence sorted and adds exactly the new element |
| Sorting.Sort | backend/main.py:333 | ascending and a permutation of the input |
| Sorting.SortedUnique | backend/main.py:333 | two sorted permutations of one multiset are equal |
| Sorting.SortPermutationInvariant | backend/main.py:333 | sorting depends only on the multiset |
| Sorting.SortedDistinctStrict | backend/main.py:333 | sorted without repetitions means strictly ascending |
| Sorting.SortKeepsDistinct | backend/main.py:333 | sorting distinct values gives a strictly ascending sequence |
| OrderedDict.Dict.Put | backend/exposures.py:147-151 | the map is updated at k; a new key goes to the end, a known one keeps its place; keys stay distinct |
| OrderedDict.Empty | backend/exposures.py:136-140 | the empty dict is well formed, with no keys |
| Aggregation.Step | backend/exposures.py:142-162 | one iteration keeps the table well formed |
| Aggregation.ByStrike | backend/exposures.py:142-164 | the folded table is well formed |
| Aggregation.ByStrikeKeys | backend/exposures.py:142-164 | a strike is a key iff some contract has that strike |
| Aggregation.AggregateByStrike | backend/exposures.py:128-164 | the loop computes the fold over the contracts in order |
| Aggregation.At | backend/exposures.py:147 | the contracts gathered at k are input contracts at strike k |
| Aggregation.Entries | backend/exposures.py:158-162 | one list entry per contract, in order, holding that contract |
| Aggregation.OiSplit | backend/exposures.py:153-156 | call OI + put OI = total OI: each contract counts in exactly one |
| Aggregation.ByStrikeGroups | backend/exposures.py:142-164 | the record of strike k is built from exactly the contracts at k, in order |
| Aggregation.SummarizeFields | backend/exposures.py:147-162 | a record holds the summed exposures, the call and put OI and one entry per contract |
| Aggregation.StrikeRecord | backend/exposures.py:128-164 | each strike of some contract is present, with the sum of its contracts' exposures and its call/put OI |
| Aggregation.CallPutExample | backend/tests/test_exposures.py:93-131 | a call with OI 1000 and a put with OI 800 at 4700 give call_oi 1000 and put_oi 800 |
| Aggregation.Kept | backend/exposures.py:186-199 | the kept contracts are no more than the input |
| Aggregation.KeptMembers | backend/exposures.py:193-196 | a contract is kept iff it is in the input and not all four exposures are below 1e-10 |
| Aggregation.AggregateByStrikeWithLogging | backend/exposures.py:167-225 | the table of the kept contracts; processed counts them and processed + skipped = input length |
| Aggregation.NoOpenInterestIsSkipped | backend/exposures.py:85-117 | a contract without open interest has negligible exposure, so it is skipped |
| Aggregation.NothingSkipped | backend/exposures.py:167-225 | with no negligible contract the logging variant keeps every contract |
| Aggregation.AggregateAllExpirations | backend/exposures.py:227-239 | the total is the sum of the records' totals over the keys |
| Aggregation.TotalIgnoresOrder | backend/exposures.py:234-237 | the total does not depend on the order of the strikes |
| Aggregation.TotalOfByStrike | backend/exposures.py:142-164 | the all-strike total of the per-strike table is the sum of every contract's exposures |
| Aggregation.TotalExample | backend/tests/test_exposures.py:133-145 | the two test strikes total -1800, 800, -350, 150 |
| Chain.StrikeOf | backend/main.py:383 | an absent strike reads 0, a present one its value, a null one fails |
| Chain.FilterStrikes | backend/main.py:379-384 | the filter keeps no more records than it was given |
| Chain.FilterFails | backend/main.py:381-384 | the comprehension fails iff some record has a null strike |
| Chain.FilterKeeps | backend/main.py:381-384 | a record is kept iff its strike lies within [0.7 spot, 1.3 spot] |
| Chain.ImpliedVolatility | backend/main.py:407 | mid IV when present and non-zero, else the SMV volatility |
| Chain.ToContract | backend/main.py:394-413 | fails iff a null symbol, type, strike or greeks member; otherwise present members are copied and missing numbers default to 0, type call iff the symbol has "C" when the type is missing, IV is mid_iv or else smv_vol, the Greeks are copied from the greeks record (none without one), the expiration echoed |
| Chain.Contracts | backend/main.py:392-416 | at most one contract per record |
| Chain.ContractsFrom | backend/main.py:392-416 | the contracts are exactly those of the records that convert |
| Chain.NothingDropped | backend/main.py:392-416 | records without null members all convert |
| Chain.ChainInBand | backend/main.py:367-424 | with a spot, every returned contract lies in the band and carries the expiration |
| Chain.ConvertOptions | backend/main.py:391-416 | the conversion loop computes the contracts of the records |
| Chain.GetChainData | backend/main.py:367-424 | filtered and converted chain; no contracts when the upstream call fails |
| Interpretation.RegimeCode | backend/interpretation.py:21 | 11 characters with the four sign characters at positions 1, 4, 7, 10 |
| Interpretation.ParseSign | backend/interpretation.py:21 | a parsed sign prints back as its character |
| Interpretation.ParseRegimeCode | backend/interpretation.py:21 | a parsed code prints back as the same string |
| Interpretation.CodeRoundTrip | backend/interpretation.py:12-23 | every regime code parses back to its regime |
| Interpretation.CodeDeterminesRegime | backend/interpretation.py:12-23 | distinct regimes have distinct codes |
| Interpretation.ClassifyExposureRegime | backend/interpretation.py:6-23 | the code parses back to the regime; each sign is neutral iff its value is below the one threshold of all values, else + iff the value is positive and - otherwise |
| Interpretation.LabelsDistinct | backend/interpretation.py:38-71 | the eight conductivity labels are distinct |
| Interpretation.ConductivityOf | backend/interpretation.py:33-71 | RALLY iff all minus and vix FALLING/AUTO; SELL-OFF iff G- D+ V+ C+ and vix RISING/AUTO; MIXED for those signs with the other vix; the four fixed patterns independent of vix; otherwise MIXED_CHOP |
| Interpretation.DetermineConductivity | backend/interpretation.py:25-71 | the returned label is that of the decision table and the note is the one of that label (of the aligned pattern for MIXED) |
| Interpretation.NoteDeterminesConductivity | backend/interpretation.py:42-71 | the nine notes are pairwise distinct: a note determines its label, and the two MIXED notes tell the bearish pattern from the bullish one |
| Interpretation.PatternFlags | backend/interpretation.py:79-83 | the flag list is [MAX_DOWNSIDE_ACCELERATION] iff the code is G- D- V- C+, else empty |
| Interpretation.FlagIffRegime | backend/interpretation.py:79-83 | on computed codes the flag is raised iff the regime is G- D- V- C+ |
| Interpretation.DictDisplay | backend/interpretation.py:86-93 | the keys of a dict display are the keys of its entries |
| Interpretation.TerrainKeys | backend/interpretation.py:86-93 | the six literal keys are the codes of four regimes, the last two repeating the third and fourth |
| Interpretation.TerrainMapContents | backend/interpretation.py:86-93 | the effective map has four keys; the later CONDITIONAL VOID and STRUCTURAL SUPPORT values win |
| Interpretation.TerrainLabel | backend/interpretation.py:95 | the label is one of the four effective labels or NEUTRAL |
| Interpretation.ShadowedTerrainUnreachable | backend/interpretation.py:89-90 | HIGH-VELOCITY DOWN and BOUNCE CANDIDATE are never produced |
| Interpretation.TerrainOfRegime | backend/interpretation.py:86-95 | the terrain of each regime: its map entry, NEUTRAL for the others |
| Interpretation.MoneynessSuffix | backend/interpretation.py:98-104 | fails iff spot = 0; for spot > 0 exactly one suffix: ATM iff within 1% of spot, else OTM call iff strike > spot, else OTM put |
| Interpretation.RelativeDistance | backend/interpretation.py:98-99 | for spot > 0 the relative 1% test is the absolute test against 0.01 spot |
| Interpretation.ClassifyStrikeTerrain | backend/interpretation.py:73-106 | fails iff spot = 0; otherwise the terrain label plus its suffix, and the pattern flags |
| Interpretation.AnalyzeVixRegime | backend/interpretation.py:108-119 | RISING iff above 20, FALLING iff below 15, AUTO for none or 15..20 |
| Merge.MergeEntry | backend/main.py:138-146 | one merge step keeps the table well formed |
| Merge.MergeKeys | backend/main.py:138-146 | the inner loop keeps the table well formed |
| Merge.MergeTable | backend/main.py:138-146 | merging one expiration keeps the table well formed |
| Merge.MergeAll | backend/main.py:126-151 | the merged table is well formed |
| Merge.MergeKeysGet | backend/main.py:138-146 | each strike of the expiration is merged once into what the table held |
| Merge.MergeAllGet | backend/main.py:127-151 | the merged record of k joins, in order, what every table held for k |
| Merge.GatherSums | backend/main.py:127-151 | k is present iff some table has it; its record sums totals and OI over those tables, with the first one's contract list |
| Merge.MergedKeys | backend/main.py:127-151 | the merged strike set is the union of the expirations' strike sets |
| Merge.MergedRecord | backend/main.py:138-146 | each merged record sums gex, dex, vex, cex, call_oi and put_oi over the expirations that have the strike |
| Merge.EmptyTableIsSkipped | backend/main.py:148-149 | an expiration whose chain failed or is empty leaves the merge unchanged |
| Merge.MergeInto | backend/main.py:137-146 | the inner loop computes the merge of one expiration's table |
| Api.ResolveVixRegime | backend/main.py:101-112 | rejected iff not RISING, FALLING or AUTO; the used regime is RISING or FALLING, unchanged unless AUTO; a warning iff AUTO |
| Api.ResolvedIsFixedPoint | backend/main.py:101-112 | the used regime resolves to itself without a warning |
| Api.Head | backend/main.py:127 | `xs[:n]`: length min(n, len(xs)), the leading elements |
| Api.ExpirationTable | backend/main.py:129-135 | each expiration's table is well formed |
| Api.LoadExpiration | backend/main.py:129-135 | loading computes that expiration's table |
| Api.Tables | backend/main.py:127-135 | one table per expiration, in order |
| Api.MergeExpirations | backend/main.py:126-151 | the ALL loop computes the merge of the first five expirations' tables |
| Api.StrikeAggregations | backend/main.py:119-161 | the table classified is well formed |
| Api.Values | backend/main.py:169-171 | four values per strike |
| Api.StrikeRow | backend/main.py:173-203 | fails iff spot = 0; otherwise it carries the strike, totals and OI, the regime and code classified against the values so far, the flags and the terrain label with suffix |
| Api.RowsMeaning | backend/main.py:164-204 | the loop fails iff some iteration fails; otherwise row i is built from strike i and the values of strikes 0..i |
| Api.StrikeRowsMeaning | backend/main.py:164-204 | the loop fails iff the spot is 0 and there is a strike; row i is classified against the values of strikes 0..i only |
| Api.ClassifyStrikes | backend/main.py:164-204 | the loop computes the rows, and all the values when it succeeds |
| Api.RowsKeepRecords | backend/main.py:184-195 | row i carries the strike, totals and call/put OI of strike i |
| Api.Aggregate | backend/main.py:206-226 | the totals are the sum over all strikes, the regime follows the sign rule against the threshold of all strike values, the code parses back to it, and label and note are those of its conductivity |
| Api.AggregateRecord | backend/main.py:206-226 | the aggregate is the all-strike total classified against all values, with its conductivity |
| Api.Respond | backend/main.py:206-246 | any failure is the 500; a response echoes spot, expiration and the VIX choice, has the non-empty classified rows and the aggregate |
| Api.BuildResponse | backend/main.py:165-246 | the classification loop, the empty check and the aggregate step compute that response |
| Api.RespondRows | backend/main.py:206-246 | a response exists iff spot != 0 and some strike exists; it has one row per strike and an aggregate summing all of them |
| Api.ExposuresOf | backend/main.py:95-253 | bad vix_regime is the 400 and the only 400; any later failure is the 500; a response echoes spot and expiration, is non-empty, uses the resolved regime, warns iff AUTO, and labels the aggregate by the decision table |
| Api.ExposuresSucceed | backend/main.py:101-253 | success iff valid vix_regime, a non-zero quote, a strike table and at least one strike (the 503 becomes the 500) |
| Api.ExposuresRows | backend/main.py:164-246 | a response is the one built from its strike table |
| Api.AutoNeverSellOff | backend/main.py:109-112 | AUTO is answered as FALLING, so the aggregate is never SELL-OFF-CONDUCIVE |
| Api.SingleExpirationTotals | backend/main.py:152-161 | for one expiration the aggregate totals are the exposures of every kept contract |
| Api.AllExpirationRows | backend/main.py:126-151 | for ALL, each row's strike occurs in one of the first five expirations, with totals and OI summed over those |
| Api.ResponseStrikesDistinct | backend/main.py:169-204 | the strikes of a response are distinct |
| Api.GetExposures | backend/main.py:95-253 | the handler computes the exposures response |
| HeatMap.ParseMetric | backend/main.py:263-264 | accepted iff GEX, DEX, VEX or CEX, naming the same metric |
| HeatMap.MatrixOf | backend/main.py:255-365 | metric, then expiration = ALL, then vix_regime is checked; only those errors and the 500; success iff all pass and the quote and expirations are available; first 8 expirations, the resolved regime and warning |
| HeatMap.AllRowsMembers | backend/main.py:298-330 | the rows met are exactly those of the expirations that answered |
| HeatMap.StrikesMembers | backend/main.py:295-309 | all_strikes holds exactly the strikes of those rows, each once |
| HeatMap.DetailsKeys | backend/main.py:311-323 | details exist for every strike seen |
| HeatMap.DetailsFirstWins | backend/main.py:311-323 | a strike's details are those of the first row with it |
| HeatMap.ColumnKeys | backend/main.py:304-308 | an expiration's column covers exactly its rows' strikes |
| HeatMap.ColumnValue | backend/main.py:304-308 | a strike's value is the metric of the last row with it |
| HeatMap.ColumnsLookup | backend/main.py:298-330 | expiration_data has the column of exactly the answering expirations |
| HeatMap.CommonStrikesSmallest | backend/main.py:333 | strictly ascending, min(25, n) strikes, all seen, smaller than every strike left out |
| HeatMap.BuildShape | backend/main.py:333-362 | one row per expiration, each as long as y_strikes; y_strikes are the smallest strikes seen |
| HeatMap.SeenStrikes | backend/main.py:298-333 | a strike is seen iff some answering expiration has a row with it |
| HeatMap.BuildCell | backend/main.py:337-348 | a cell is the metric of that strike in that expiration, 0.0 for a failed expiration or a missing strike |
| HeatMap.MatrixCell | backend/main.py:298-348 | the same with the exposures endpoint's own responses |
| HeatMap.AddStrikes | backend/main.py:304-323 | the inner loop computes the column and extends all_strikes and the details |
| HeatMap.CollectExpirations | backend/main.py:294-330 | the collection loop computes expiration_data, all_strikes and strike_details |
| HeatMap.BuildMatrix | backend/main.py:337-348 | the matrix loop computes one row per expiration |
| HeatMap.GetExposuresMatrix | backend/main.py:255-365 | the handler computes the matrix response |

## Left out

- Caching: the TTL caches of quotes, expirations and chains have wall-clock expiry. The model fetches afresh every time.
- The market-data client (`backend/tradier_client.py`) is not part of this model. Its answers are the fields of `Api.Env`: the quote, the expiration list, each expiration's raw chain, and None where a call raises.
- Black-Scholes numerics: log, exp, sqrt, the normal cdf and pdf are uninterpreted. Only the laws listed above are assumed of them, as a subset type.
- The clock and `strptime`: `calculate_time_to_expiration` takes the seconds until expiry as a parameter, None when the date does not parse.
- NaN, infinity, `isinstance` and the overflow handlers: reals have none of these, so those branches are absent.
- `generate_aggregate_notes`: it formats floats and no handler calls it.
- FastAPI routing, pydantic validation, `print` logging, the health, config, spot, expirations and debug endpoints, the `meta` placeholders and the `timestamp` fields.
- Api.ExposuresOf: the pydantic response model of the exposures endpoint has no `vix_warning` field, so the HTTP body drops the warning that the handler's dict holds. The model keeps it.
- Api.ExposuresOf: the 500 details carry `str(e)` after the fixed text. The model keeps only the fixed text.
- Api.ExposuresOf: the `except` branches that skip a failing expiration are unreachable in the model. A failing chain is already `[]`, and `Merge.EmptyTableIsSkipped` shows that such a table changes nothing.
- HeatMap.CollectExpirations: proved for any per-expiration answer function. `HeatMap.GetExposuresMatrix` passes it `Api.ExposuresOf`, which `Api.GetExposures` implements.
- Aggregation.AggregateByStrike and Api.ClassifyStrikes: proved for any per-contract pricer and any per-strike row builder. The handlers pass the concrete ones, and `Api.RowAtKeepsRecords` connects the concrete builder.
- HeatMap.MatrixOf: `strike_details` is keyed by `str(strike)` in the source and by the strike here. Distinct reals print differently, so the two coincide.
- HeatMap.MatrixOf: `all_strikes` is a set in the source. Here it is the distinct strikes in order of first appearance, which is sorted before use.
- BlackScholes.Lower: `str.lower` is modelled on ASCII letters only.
- Python's dict iteration order is modelled, via `OrderedDict`. Python's set iteration order is not needed, because the set is sorted.
