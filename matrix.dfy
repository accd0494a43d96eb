/**
 * get_exposures_matrix: the heat map of one metric over the first eight
 * expirations (rows) and the 25 smallest strikes seen in any of them
 * (columns), with the details of every strike seen, taken from the first
 * expiration that has it.
 */
module HeatMap {
  import opened Wrappers
  import opened Models
  import opened Sorting
  import opened Api

  const MetricError := HttpError(400, "metric must be GEX, DEX, VEX, or CEX")
  const AllOnlyError := HttpError(400, "Matrix endpoint only supports expiration=ALL")
  /** Every failure after validation: the quote or the expiration list cannot be fetched. */
  const MatrixFailure := HttpError(500, "Failed to generate matrix")

  function MetricName(m: Metric): string {
    match m
    case GEX => "GEX"
    case DEX => "DEX"
    case VEX => "VEX"
    case CEX => "CEX"
  }

  /** The metric validation; `getattr(strike_data, metric.lower())` then reads the matching total. */
  function ParseMetric(s: string): (m: Option<Metric>)
    ensures m.Some? <==> s == "GEX" || s == "DEX" || s == "VEX" || s == "CEX"
    ensures m.Some? ==> MetricName(m.value) == s
  {
    if s == "GEX" then Some(GEX)
    else if s == "DEX" then Some(DEX)
    else if s == "VEX" then Some(VEX)
    else if s == "CEX" then Some(CEX)
    else None
  }

  /** The exposures response of each expiration (get_exposures called with the request's `vix_regime`). */
  type Fetch = string -> Result<ExposuresResponse, HttpError>

  function FetchAt(env: Env, vix: string): Fetch {
    exp => ExposuresOf(env, exp, vix)
  }

  /** The rows of an expiration that answered, none for one that failed. */
  function RowsOf(out: Result<ExposuresResponse, HttpError>): seq<StrikeData> {
    if out.Ok? then out.value.strikes else []
  }

  /** Every strike row met by the collection loop, expiration after expiration. */
  function AllRows(exps: seq<string>, fetch: Fetch): seq<StrikeData> {
    if exps == [] then []
    else AllRows(exps[..|exps| - 1], fetch) + RowsOf(fetch(exps[|exps| - 1]))
  }

  /** `strike_exposures` of one expiration: each strike's metric value. */
  function Column(rows: seq<StrikeData>, metric: Metric): map<real, real> {
    if rows == [] then map[]
    else
      var row := rows[|rows| - 1];
      Column(rows[..|rows| - 1], metric)[row.strike := MetricOf(row.totals, metric)]
  }

  /** `expiration_data`: the column of every expiration that answered. */
  function Columns(exps: seq<string>, fetch: Fetch, metric: Metric): map<string, map<real, real>> {
    if exps == [] then map[]
    else
      var exp := exps[|exps| - 1];
      var previous := Columns(exps[..|exps| - 1], fetch, metric);
      if fetch(exp).Ok? then previous[exp := Column(fetch(exp).value.strikes, metric)] else previous
  }

  /** `all_strikes`, as the distinct strikes of the rows in order of first appearance. */
  function Strikes(rows: seq<StrikeData>): seq<real> {
    if rows == [] then []
    else
      var previous := Strikes(rows[..|rows| - 1]);
      var strike := rows[|rows| - 1].strike;
      if strike in previous then previous else previous + [strike]
  }

  function Detail(row: StrikeData): StrikeMatrixDetail {
    StrikeMatrixDetail(row.regimeCode, row.classification, row.patternFlags, row.totals, row.callOi, row.putOi)
  }

  /** `strike_details_map`: a strike's details are written once, from the first row with it. */
  function DetailsOf(rows: seq<StrikeData>): map<real, StrikeMatrixDetail> {
    if rows == [] then map[]
    else
      var previous := DetailsOf(rows[..|rows| - 1]);
      var row := rows[|rows| - 1];
      if row.strike in previous then previous else previous[row.strike := Detail(row)]
  }

  /** `sorted(list(all_strikes))[:25]`. */
  function CommonStrikes(strikes: seq<real>): seq<real> {
    Head(Sort(strikes), 25)
  }

  /** `expiration_data[exp].get(strike, 0.0)`, and 0.0 for an expiration without data. */
  function Cell(columns: map<string, map<real, real>>, exp: string, strike: real): real {
    if exp in columns && strike in columns[exp] then columns[exp][strike] else 0.0
  }

  function MatrixRow(columns: map<string, map<real, real>>, exp: string, common: seq<real>): seq<real> {
    seq(|common|, j requires 0 <= j < |common| => Cell(columns, exp, common[j]))
  }

  function Matrix(columns: map<string, map<real, real>>, exps: seq<string>, common: seq<real>): seq<seq<real>> {
    seq(|exps|, i requires 0 <= i < |exps| => MatrixRow(columns, exps[i], common))
  }

  /** The response of the matrix endpoint, without its timestamp. */
  datatype MatrixResponse = MatrixResponse(
    spot: real,
    metric: string,
    xExpirations: seq<string>,
    yStrikes: seq<real>,
    z: seq<seq<real>>,
    strikeDetails: map<real, StrikeMatrixDetail>,
    vixRegimeUsed: string,
    vixWarning: Option<string>)

  /** The response built from the first expirations and their exposures responses. */
  function Build(spot: real, metric: Metric, first: seq<string>, fetch: Fetch, choice: VixChoice): MatrixResponse {
    var rows := AllRows(first, fetch);
    var common := CommonStrikes(Strikes(rows));
    MatrixResponse(spot, MetricName(metric), first, common, Matrix(Columns(first, fetch, metric), first, common),
                   DetailsOf(rows), choice.used, choice.warning)
  }

  /**
   * get_exposures_matrix. The metric is checked first, then the expiration,
   * then `vix_regime`; an unavailable quote or expiration list is the 500.
   * A failing expiration does not fail the request.
   */
  function MatrixOf(env: Env, metric: string, expiration: string, vix: string): (r: Result<MatrixResponse, HttpError>)
    ensures ParseMetric(metric).None? ==> r == Err(MetricError)
    ensures ParseMetric(metric).Some? && expiration != "ALL" ==> r == Err(AllOnlyError)
    ensures ParseMetric(metric).Some? && expiration == "ALL" && !ValidVixRegime(vix) ==> r == Err(VixRegimeError)
    ensures r.Err? ==> r.error in {MetricError, AllOnlyError, VixRegimeError, MatrixFailure}
    ensures r.Ok? <==>
      ParseMetric(metric).Some? && expiration == "ALL" && ValidVixRegime(vix) && env.quote.Some? && env.expirations.Some?
    ensures r.Ok? ==>
      && r.value.spot == env.quote.value
      && r.value.metric == metric
      && r.value.xExpirations == Head(env.expirations.value, 8)
      && r.value.vixRegimeUsed == (if vix == "AUTO" then "FALLING" else vix)
      && (r.value.vixWarning.Some? <==> vix == "AUTO")
  {
    match ParseMetric(metric)
    case None => Err(MetricError)
    case Some(m) =>
      if expiration != "ALL" then Err(AllOnlyError)
      else
        match ResolveVixRegime(vix)
        case Err(e) => Err(e)
        case Ok(choice) =>
          if env.quote.None? || env.expirations.None? then Err(MatrixFailure)
          else Ok(Build(env.quote.value, m, Head(env.expirations.value, 8), FetchAt(env, vix), choice))
  }

  // ----- the collection loop -----

  /** The rows met are exactly the rows of the expirations that answered. */
  lemma {:induction false} AllRowsMembers(exps: seq<string>, fetch: Fetch, row: StrikeData)
    ensures row in AllRows(exps, fetch) <==> exists i :: 0 <= i < |exps| && row in RowsOf(fetch(exps[i]))
  {
    if exps != [] {
      var prefix := exps[..|exps| - 1];
      AllRowsMembers(prefix, fetch, row);
      if exists i :: 0 <= i < |prefix| && row in RowsOf(fetch(prefix[i])) {
        var i :| 0 <= i < |prefix| && row in RowsOf(fetch(prefix[i]));
        assert exps[i] == prefix[i];
      }
      if exists i :: 0 <= i < |exps| && row in RowsOf(fetch(exps[i])) {
        var i :| 0 <= i < |exps| && row in RowsOf(fetch(exps[i]));
        if i < |prefix| {
          assert prefix[i] == exps[i];
        }
      }
    }
  }

  /** `all_strikes` holds each strike of the rows, once. */
  lemma {:induction false} StrikesMembers(rows: seq<StrikeData>, s: real)
    ensures s in Strikes(rows) <==> exists k :: 0 <= k < |rows| && rows[k].strike == s
    ensures Distinct(Strikes(rows))
  {
    if rows != [] {
      var prefix := rows[..|rows| - 1];
      StrikesMembers(prefix, s);
      StrikesMembers(prefix, rows[|rows| - 1].strike);
      if exists k :: 0 <= k < |prefix| && prefix[k].strike == s {
        var k :| 0 <= k < |prefix| && prefix[k].strike == s;
        assert rows[k] == prefix[k];
      }
      if exists k :: 0 <= k < |rows| && rows[k].strike == s {
        var k :| 0 <= k < |rows| && rows[k].strike == s;
        if k < |prefix| {
          assert prefix[k] == rows[k];
        }
      }
    }
  }

  /** Details are kept for every strike seen, not only for the strikes shown. */
  lemma {:induction false} DetailsKeys(rows: seq<StrikeData>, s: real)
    ensures s in DetailsOf(rows) <==> s in Strikes(rows)
  {
    if rows != [] {
      DetailsKeys(rows[..|rows| - 1], s);
    }
  }

  /** The details of a strike are those of the first row that has it. */
  lemma {:induction false} DetailsFirstWins(rows: seq<StrikeData>, k: int)
    requires 0 <= k < |rows|
    requires forall k' :: 0 <= k' < k ==> rows[k'].strike != rows[k].strike
    ensures rows[k].strike in DetailsOf(rows)
    ensures DetailsOf(rows)[rows[k].strike] == Detail(rows[k])
  {
    var prefix := rows[..|rows| - 1];
    var s := rows[k].strike;
    if k == |rows| - 1 {
      DetailsKeys(prefix, s);
      StrikesMembers(prefix, s);
      assert forall k' :: 0 <= k' < |prefix| ==> prefix[k'] == rows[k'];
    } else {
      assert forall k' :: 0 <= k' < k ==> prefix[k'] == rows[k'];
      DetailsFirstWins(prefix, k);
      assert prefix[k] == rows[k];
    }
  }

  /** `strike_exposures` has a value for exactly the strikes of the expiration's rows. */
  lemma {:induction false} ColumnKeys(rows: seq<StrikeData>, metric: Metric, s: real)
    ensures s in Column(rows, metric) <==> exists k :: 0 <= k < |rows| && rows[k].strike == s
  {
    if rows != [] {
      var prefix := rows[..|rows| - 1];
      ColumnKeys(prefix, metric, s);
      if exists k :: 0 <= k < |prefix| && prefix[k].strike == s {
        var k :| 0 <= k < |prefix| && prefix[k].strike == s;
        assert rows[k] == prefix[k];
      }
      if exists k :: 0 <= k < |rows| && rows[k].strike == s {
        var k :| 0 <= k < |rows| && rows[k].strike == s;
        if k < |prefix| {
          assert prefix[k] == rows[k];
        }
      }
    }
  }

  /** A strike's value is the metric of the last row with that strike. */
  lemma {:induction false} ColumnValue(rows: seq<StrikeData>, metric: Metric, k: int)
    requires 0 <= k < |rows|
    requires forall k' :: k < k' < |rows| ==> rows[k'].strike != rows[k].strike
    ensures rows[k].strike in Column(rows, metric)
    ensures Column(rows, metric)[rows[k].strike] == MetricOf(rows[k].totals, metric)
  {
    if k < |rows| - 1 {
      var prefix := rows[..|rows| - 1];
      assert forall k' :: k < k' < |prefix| ==> prefix[k'] == rows[k'];
      ColumnValue(prefix, metric, k);
    }
  }

  /** `expiration_data` has the column of exactly the expirations that answered. */
  lemma {:induction false} ColumnsLookup(exps: seq<string>, fetch: Fetch, metric: Metric, exp: string)
    ensures exp in Columns(exps, fetch, metric) <==> exp in exps && fetch(exp).Ok?
    ensures exp in Columns(exps, fetch, metric) ==>
      Columns(exps, fetch, metric)[exp] == Column(fetch(exp).value.strikes, metric)
  {
    if exps != [] {
      var prefix := exps[..|exps| - 1];
      ColumnsLookup(prefix, fetch, metric, exp);
      assert exps == prefix + [exps[|exps| - 1]];
    }
  }

  // ----- the strikes shown -----

  /**
   * The strikes shown: strictly ascending, at most 25, all seen, and smaller
   * than every strike seen but not shown.
   */
  lemma CommonStrikesSmallest(strikes: seq<real>)
    requires Distinct(strikes)
    ensures var common := CommonStrikes(strikes);
      && StrictlyAscending(common)
      && |common| == (if |strikes| < 25 then |strikes| else 25)
      && (forall x :: x in common ==> x in strikes)
      && (forall x, j :: x in strikes && x !in common && 0 <= j < |common| ==> common[j] < x)
  {
    var sorted := Sort(strikes);
    var common := CommonStrikes(strikes);
    SortKeepsDistinct(strikes);
    forall x | x in common
      ensures x in strikes
    {
      assert x in multiset(sorted);
    }
    forall x, j | x in strikes && x !in common && 0 <= j < |common|
      ensures common[j] < x
    {
      assert x in multiset(sorted);
      var p :| 0 <= p < |sorted| && sorted[p] == x;
    }
  }

  // ----- the response -----

  /**
   * The matrix has one row per expiration and one column per strike shown;
   * the strikes shown are the smallest of those seen in any answering
   * expiration, strictly ascending, at most 25.
   */
  lemma BuildShape(spot: real, metric: Metric, first: seq<string>, fetch: Fetch, choice: VixChoice)
    ensures var r := Build(spot, metric, first, fetch, choice);
      var seen := Strikes(AllRows(first, fetch));
      && r.xExpirations == first
      && |r.z| == |first|
      && (forall i :: 0 <= i < |r.z| ==> |r.z[i]| == |r.yStrikes|)
      && StrictlyAscending(r.yStrikes)
      && |r.yStrikes| == (if |seen| < 25 then |seen| else 25)
      && (forall x :: x in r.yStrikes ==> x in seen)
      && (forall x, j :: x in seen && x !in r.yStrikes && 0 <= j < |r.yStrikes| ==> r.yStrikes[j] < x)
  {
    var rows := AllRows(first, fetch);
    StrikesMembers(rows, 0.0);
    CommonStrikesSmallest(Strikes(rows));
  }

  /** A strike is seen iff some answering expiration has a row with it. */
  lemma SeenStrikes(first: seq<string>, fetch: Fetch, s: real)
    ensures s in Strikes(AllRows(first, fetch)) <==>
      exists i, row :: 0 <= i < |first| && row in RowsOf(fetch(first[i])) && row.strike == s
  {
    var rows := AllRows(first, fetch);
    StrikesMembers(rows, s);
    if s in Strikes(rows) {
      var k :| 0 <= k < |rows| && rows[k].strike == s;
      AllRowsMembers(first, fetch, rows[k]);
    }
    if exists i, row :: 0 <= i < |first| && row in RowsOf(fetch(first[i])) && row.strike == s {
      var i, row :| 0 <= i < |first| && row in RowsOf(fetch(first[i])) && row.strike == s;
      AllRowsMembers(first, fetch, row);
    }
  }

  /**
   * A cell is the metric of the strike in that expiration's response, and 0.0
   * when the expiration failed or has no row at that strike.
   */
  lemma BuildCell(spot: real, metric: Metric, first: seq<string>, fetch: Fetch, choice: VixChoice, i: int, j: int)
    requires 0 <= i < |first|
    requires 0 <= j < |Build(spot, metric, first, fetch, choice).yStrikes|
    ensures var r := Build(spot, metric, first, fetch, choice);
      var out := fetch(first[i]);
      var y := r.yStrikes[j];
      && (out.Err? ==> r.z[i][j] == 0.0)
      && (out.Ok? && (forall k :: 0 <= k < |out.value.strikes| ==> out.value.strikes[k].strike != y) ==> r.z[i][j] == 0.0)
      && (forall k ::
            (&& out.Ok? && 0 <= k < |out.value.strikes| && out.value.strikes[k].strike == y
             && (forall k' :: k < k' < |out.value.strikes| ==> out.value.strikes[k'].strike != y))
            ==> r.z[i][j] == MetricOf(out.value.strikes[k].totals, metric))
  {
    var r := Build(spot, metric, first, fetch, choice);
    var exp := first[i];
    var y := r.yStrikes[j];
    var columns := Columns(first, fetch, metric);
    assert r.z[i][j] == Cell(columns, exp, y);
    ColumnsLookup(first, fetch, metric, exp);
    if fetch(exp).Ok? {
      var rows := fetch(exp).value.strikes;
      ColumnKeys(rows, metric, y);
      forall k | 0 <= k < |rows| && rows[k].strike == y && (forall k' :: k < k' < |rows| ==> rows[k'].strike != y)
        ensures r.z[i][j] == MetricOf(rows[k].totals, metric)
      {
        ColumnValue(rows, metric, k);
      }
    }
  }

  /**
   * With the exposures endpoint's own responses: a cell is the metric of that
   * expiration's row at that strike, and 0.0 when the expiration failed or has
   * no row there.
   */
  lemma MatrixCell(env: Env, metric: string, vix: string, i: int, j: int)
    requires MatrixOf(env, metric, "ALL", vix).Ok?
    requires 0 <= i < |MatrixOf(env, metric, "ALL", vix).value.xExpirations|
    requires 0 <= j < |MatrixOf(env, metric, "ALL", vix).value.yStrikes|
    ensures var r := MatrixOf(env, metric, "ALL", vix).value;
      var out := ExposuresOf(env, r.xExpirations[i], vix);
      var y := r.yStrikes[j];
      && |r.z| == |r.xExpirations| && |r.z[i]| == |r.yStrikes|
      && (out.Err? ==> r.z[i][j] == 0.0)
      && (out.Ok? && (forall k :: 0 <= k < |out.value.strikes| ==> out.value.strikes[k].strike != y) ==> r.z[i][j] == 0.0)
      && (forall k :: out.Ok? && 0 <= k < |out.value.strikes| && out.value.strikes[k].strike == y ==>
            r.z[i][j] == MetricOf(out.value.strikes[k].totals, ParseMetric(metric).value))
  {
    var m := ParseMetric(metric).value;
    var first := Head(env.expirations.value, 8);
    var fetch := FetchAt(env, vix);
    var choice := ResolveVixRegime(vix).value;
    var r := Build(env.quote.value, m, first, fetch, choice);
    assert MatrixOf(env, metric, "ALL", vix).value == r;
    BuildShape(env.quote.value, m, first, fetch, choice);
    var out := ExposuresOf(env, first[i], vix);
    assert fetch(first[i]) == out;
    if out.Ok? {
      ResponseStrikesDistinct(env, first[i], vix);
    }
    DistinctCell(env.quote.value, m, first, fetch, choice, i, j);
  }

  /** BuildCell for an expiration whose rows have distinct strikes: any row at the strike gives the cell. */
  lemma DistinctCell(spot: real, metric: Metric, first: seq<string>, fetch: Fetch, choice: VixChoice, i: int, j: int)
    requires 0 <= i < |first|
    requires 0 <= j < |Build(spot, metric, first, fetch, choice).yStrikes|
    requires fetch(first[i]).Ok? ==>
      var rows := fetch(first[i]).value.strikes;
      forall k, k' :: 0 <= k < k' < |rows| ==> rows[k].strike != rows[k'].strike
    ensures var r := Build(spot, metric, first, fetch, choice);
      var out := fetch(first[i]);
      var y := r.yStrikes[j];
      && (out.Err? ==> r.z[i][j] == 0.0)
      && (out.Ok? && (forall k :: 0 <= k < |out.value.strikes| ==> out.value.strikes[k].strike != y) ==> r.z[i][j] == 0.0)
      && (forall k :: out.Ok? && 0 <= k < |out.value.strikes| && out.value.strikes[k].strike == y ==>
            r.z[i][j] == MetricOf(out.value.strikes[k].totals, metric))
  {
    BuildCell(spot, metric, first, fetch, choice, i, j);
  }

  // ----- the handler -----

  /** One more row: its strike's column entry is overwritten, a new strike and its detail appended. */
  lemma AddStrikeStep(rows: seq<StrikeData>, metric: Metric, seen: seq<StrikeData>, j: int)
    requires 0 <= j < |rows|
    ensures var row := rows[j];
      var before := seen + rows[..j];
      && Column(rows[..j + 1], metric) == Column(rows[..j], metric)[row.strike := MetricOf(row.totals, metric)]
      && Strikes(seen + rows[..j + 1]) == (if row.strike in Strikes(before) then Strikes(before) else Strikes(before) + [row.strike])
      && DetailsOf(seen + rows[..j + 1]) ==
           (if row.strike in DetailsOf(before) then DetailsOf(before) else DetailsOf(before)[row.strike := Detail(row)])
  {
    assert rows[..j + 1][..j] == rows[..j];
    assert (seen + rows[..j + 1])[..|seen| + j] == seen + rows[..j];
  }

  /** The inner loop for one answering expiration: its column, and the strikes and details seen so far. */
  method AddStrikes(rows: seq<StrikeData>, metric: Metric, strikes0: seq<real>,
                    details0: map<real, StrikeMatrixDetail>, ghost seen: seq<StrikeData>)
    returns (column: map<real, real>, strikes: seq<real>, details: map<real, StrikeMatrixDetail>)
    requires strikes0 == Strikes(seen) && details0 == DetailsOf(seen)
    ensures column == Column(rows, metric)
    ensures strikes == Strikes(seen + rows) && details == DetailsOf(seen + rows)
  {
    column, strikes, details := map[], strikes0, details0;
    assert seen + rows[..0] == seen;
    for j := 0 to |rows|
      invariant column == Column(rows[..j], metric)
      invariant strikes == Strikes(seen + rows[..j]) && details == DetailsOf(seen + rows[..j])
    {
      var row := rows[j];
      AddStrikeStep(rows, metric, seen, j);
      column := column[row.strike := MetricOf(row.totals, metric)];
      if row.strike !in strikes {
        strikes := strikes + [row.strike];
      }
      if row.strike !in details {
        details := details[row.strike := Detail(row)];
      }
    }
    assert rows[..|rows|] == rows;
  }

  /**
   * The collection loop over the first expirations, each answered by `fetch`;
   * an expiration that fails is skipped.
   */
  method CollectExpirations(fetch: Fetch, first: seq<string>, metric: Metric)
    returns (columns: map<string, map<real, real>>, strikes: seq<real>, details: map<real, StrikeMatrixDetail>)
    ensures columns == Columns(first, fetch, metric)
    ensures strikes == Strikes(AllRows(first, fetch))
    ensures details == DetailsOf(AllRows(first, fetch))
  {
    columns, strikes, details := map[], [], map[];
    for i := 0 to |first|
      invariant columns == Columns(first[..i], fetch, metric)
      invariant strikes == Strikes(AllRows(first[..i], fetch)) && details == DetailsOf(AllRows(first[..i], fetch))
    {
      var exp := first[i];
      assert first[..i + 1][..i] == first[..i];
      var out := fetch(exp);
      ghost var seen := AllRows(first[..i], fetch);
      assert AllRows(first[..i + 1], fetch) == seen + RowsOf(out);
      if out.Ok? {
        var column;
        column, strikes, details := AddStrikes(out.value.strikes, metric, strikes, details, seen);
        columns := columns[exp := column];
      } else {
        assert seen + RowsOf(out) == seen;
      }
    }
    assert first[..|first|] == first;
  }

  /** The matrix loop: one row per expiration, zeros for one without data. */
  method BuildMatrix(columns: map<string, map<real, real>>, first: seq<string>, common: seq<real>)
    returns (z: seq<seq<real>>)
    ensures z == Matrix(columns, first, common)
  {
    z := [];
    for i := 0 to |first|
      invariant |z| == i && forall i' :: 0 <= i' < i ==> z[i'] == MatrixRow(columns, first[i'], common)
    {
      var exp := first[i];
      var row: seq<real>;
      if exp in columns {
        row := [];
        for j := 0 to |common|
          invariant |row| == j && forall j' :: 0 <= j' < j ==> row[j'] == Cell(columns, exp, common[j'])
        {
          var value := if common[j] in columns[exp] then columns[exp][common[j]] else 0.0;
          row := row + [value];
        }
      } else {
        row := seq(|common|, _ => 0.0);
      }
      z := z + [row];
    }
  }

  method GetExposuresMatrix(env: Env, metric: string, expiration: string, vix: string)
    returns (r: Result<MatrixResponse, HttpError>)
    ensures r == MatrixOf(env, metric, expiration, vix)
  {
    var m := ParseMetric(metric);
    if m.None? {
      return Err(MetricError);
    }
    if expiration != "ALL" {
      return Err(AllOnlyError);
    }
    if !ValidVixRegime(vix) {
      return Err(VixRegimeError);
    }
    var used, warning := vix, None;
    if vix == "AUTO" {
      used, warning := "FALLING", Some(AutoWarning);
    }
    if env.quote.None? || env.expirations.None? {
      return Err(MatrixFailure);
    }
    var spot := env.quote.value;
    var first := Head(env.expirations.value, 8);
    var columns, strikes, details := CollectExpirations(FetchAt(env, vix), first, m.value);
    var common := Head(Sort(strikes), 25);
    var z := BuildMatrix(columns, first, common);
    r := Ok(MatrixResponse(spot, metric, first, common, z, details, used, warning));
  }
}
