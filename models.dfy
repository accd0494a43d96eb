/**
 * The data shapes of the service: option contracts as delivered by the chain
 * endpoint, per-contract Greeks and exposures, the four-sign regime, and the
 * per-strike records returned to the dashboard.
 */
module Models {
  import opened Wrappers

  /** One option contract; optional fields are `None` when the upstream omits them. */
  datatype OptionContract = OptionContract(
    symbol: string,
    optionType: string,            // "call" or "put", compared case-insensitively
    strike: real,
    expirationDate: string,
    bid: real,
    ask: real,
    last: real,
    volume: int,
    openInterest: int,
    impliedVolatility: Option<real>,
    delta: Option<real>,
    gamma: Option<real>,
    theta: Option<real>,
    vega: Option<real>,
    rho: Option<real>)

  /** Delta, gamma, vanna (dDelta/dSigma) and charm (dDelta/dt per year). */
  datatype Greeks = Greeks(delta: real, gamma: real, vanna: real, charm: real)

  const NoGreeks := Greeks(0.0, 0.0, 0.0, 0.0)

  /** Dealer exposures; also used for per-strike and all-strike totals. */
  datatype Exposures = Exposures(gex: real, dex: real, vex: real, cex: real) {
    function Plus(o: Exposures): Exposures {
      Exposures(gex + o.gex, dex + o.dex, vex + o.vex, cex + o.cex)
    }
  }

  const NoExposures := Exposures(0.0, 0.0, 0.0, 0.0)

  /** The selectable metric of the heat map. */
  datatype Metric = GEX | DEX | VEX | CEX

  function MetricOf(e: Exposures, m: Metric): real {
    match m
    case GEX => e.gex
    case DEX => e.dex
    case VEX => e.vex
    case CEX => e.cex
  }

  /** A regime sign: "+", "-" or "o" (neutral). */
  datatype Sign = Pos | Neg | Neutral {
    function Char(): char {
      match this
      case Pos => '+'
      case Neg => '-'
      case Neutral => 'o'
    }
  }

  /** One sign per Greek, in the fixed order G, D, V, C. */
  datatype Regime = Regime(g: Sign, d: Sign, v: Sign, c: Sign)

  datatype StrikeData = StrikeData(
    strike: real,
    totals: Exposures,
    regime: Regime,
    regimeCode: string,
    classification: string,
    patternFlags: seq<string>,
    callOi: int,
    putOi: int)

  datatype AggregateData = AggregateData(
    totals: Exposures,
    regime: Regime,
    regimeCode: string,
    conductivity: string,
    notes: string)

  datatype StrikeMatrixDetail = StrikeMatrixDetail(
    regimeCode: string,
    classification: string,
    patternFlags: seq<string>,
    totals: Exposures,
    callOi: int,
    putOi: int)
}
