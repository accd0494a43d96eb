/**
 * Regime classification: the four-sign regime and its code string, the
 * aggregate conductivity decision table, the strike terrain lookup with its
 * pattern flag and moneyness suffix, and the VIX-level bucketing.
 */
module Interpretation {
  import opened Wrappers
  import opened Models
  import opened ExposureCalc

  /** The fixed-format code "G? D? V? C?" of a regime. */
  function RegimeCode(r: Regime): (code: string)
    ensures |code| == 11
    ensures code[1] == r.g.Char() && code[4] == r.d.Char() && code[7] == r.v.Char() && code[10] == r.c.Char()
  {
    "G" + [r.g.Char()] + " D" + [r.d.Char()] + " V" + [r.v.Char()] + " C" + [r.c.Char()]
  }

  function ParseSign(ch: char): (s: Option<Sign>)
    ensures s.Some? ==> s.value.Char() == ch
  {
    if ch == '+' then Some(Pos) else if ch == '-' then Some(Neg) else if ch == 'o' then Some(Neutral) else None
  }

  /** Reads a regime code back; None for any string not of the form "G? D? V? C?". */
  function ParseRegimeCode(code: string): (r: Option<Regime>)
    ensures r.Some? ==> RegimeCode(r.value) == code
  {
    if |code| == 11 && code[0] == 'G' && code[2] == ' ' && code[3] == 'D' && code[5] == ' '
       && code[6] == 'V' && code[8] == ' ' && code[9] == 'C'
       && ParseSign(code[1]).Some? && ParseSign(code[4]).Some?
       && ParseSign(code[7]).Some? && ParseSign(code[10]).Some?
    then
      var r := Regime(ParseSign(code[1]).value, ParseSign(code[4]).value,
                      ParseSign(code[7]).value, ParseSign(code[10]).value);
      assert RegimeCode(r) == code;
      Some(r)
    else None
  }

  /** The code parses back to its regime. */
  lemma CodeRoundTrip(r: Regime)
    ensures ParseRegimeCode(RegimeCode(r)) == Some(r)
  {
    var code := RegimeCode(r);
    assert code[0] == 'G' && code[2] == ' ' && code[3] == 'D' && code[5] == ' ';
    assert code[6] == 'V' && code[8] == ' ' && code[9] == 'C';
  }

  /** Distinct regimes have distinct codes. */
  lemma CodeDeterminesRegime(r1: Regime, r2: Regime)
    requires RegimeCode(r1) == RegimeCode(r2)
    ensures r1 == r2
  {
    CodeRoundTrip(r1);
    CodeRoundTrip(r2);
  }

  /**
   * The sign rule of regime `r` for exposures `e` against threshold `t`: each
   * field is neutral below the threshold in magnitude, else positive for a
   * positive exposure and negative otherwise.
   */
  predicate ClassifiedAgainst(e: Exposures, t: real, r: Regime) {
    && (r.g == Neutral <==> Abs(e.gex) < t) && (r.d == Neutral <==> Abs(e.dex) < t)
    && (r.v == Neutral <==> Abs(e.vex) < t) && (r.c == Neutral <==> Abs(e.cex) < t)
    && (r.g == Pos <==> !(Abs(e.gex) < t) && e.gex > 0.0) && (r.g == Neg <==> !(Abs(e.gex) < t) && e.gex <= 0.0)
    && (r.d == Pos <==> !(Abs(e.dex) < t) && e.dex > 0.0) && (r.d == Neg <==> !(Abs(e.dex) < t) && e.dex <= 0.0)
    && (r.v == Pos <==> !(Abs(e.vex) < t) && e.vex > 0.0) && (r.v == Neg <==> !(Abs(e.vex) < t) && e.vex <= 0.0)
    && (r.c == Pos <==> !(Abs(e.cex) < t) && e.cex > 0.0) && (r.c == Neg <==> !(Abs(e.cex) < t) && e.cex <= 0.0)
  }

  /**
   * classify_exposure_regime: the four signs against the one threshold derived
   * from `allValues`, and the regime code.
   */
  function ClassifyExposureRegime(e: Exposures, allValues: seq<real>, epsilon: real): (r: (Regime, string))
    ensures ParseRegimeCode(r.1) == Some(r.0)
    ensures ClassifiedAgainst(e, NeutralThreshold(allValues, epsilon), r.0)
  {
    var t := NeutralThreshold(allValues, epsilon);
    var regime := Regime(ClassifyRegime(e.gex, t), ClassifyRegime(e.dex, t),
                         ClassifyRegime(e.vex, t), ClassifyRegime(e.cex, t));
    CodeRoundTrip(regime);
    (regime, RegimeCode(regime))
  }

  /** The default epsilon of classify_exposure_regime. */
  const DefaultEpsilon: real := 0.05

  /** The eight aggregate labels. */
  datatype Conductivity =
    | RallyConducive | SellOffConducive | Mixed | ConditionalVoid
    | BounceCandidate | CeilingMagnet | StructuralSupport | MixedChop
  {
    function Label(): string {
      match this
      case RallyConducive => "RALLY-CONDUCIVE"
      case SellOffConducive => "SELL-OFF-CONDUCIVE"
      case Mixed => "MIXED"
      case ConditionalVoid => "CONDITIONAL_VOID"
      case BounceCandidate => "BOUNCE_CANDIDATE"
      case CeilingMagnet => "CEILING_MAGNET"
      case StructuralSupport => "STRUCTURAL_SUPPORT"
      case MixedChop => "MIXED_CHOP"
    }
  }

  /** The labels are pairwise distinct, so a label names its conductivity. */
  lemma LabelsDistinct(a: Conductivity, b: Conductivity)
    ensures a.Label() == b.Label() ==> a == b
  {
  }

  /** The VIX settings under which each aligned pattern is conducive. */
  predicate RallyVix(vixRegime: string) { vixRegime == "FALLING" || vixRegime == "AUTO" }
  predicate SellOffVix(vixRegime: string) { vixRegime == "RISING" || vixRegime == "AUTO" }

  const AllNegative := Regime(Neg, Neg, Neg, Neg)
  const SellOffPattern := Regime(Neg, Pos, Pos, Pos)

  /**
   * The decision table of determine_conductivity. RALLY-CONDUCIVE iff all four
   * signs are "-" and VIX is FALLING or AUTO; SELL-OFF-CONDUCIVE iff
   * G- D+ V+ C+ and VIX is RISING or AUTO; those patterns otherwise give MIXED;
   * four fixed patterns ignore VIX; everything else is MIXED_CHOP.
   */
  function ConductivityOf(r: Regime, vixRegime: string): (k: Conductivity)
    ensures k == RallyConducive <==> r == AllNegative && RallyVix(vixRegime)
    ensures k == SellOffConducive <==> r == SellOffPattern && SellOffVix(vixRegime)
    ensures k == Mixed <==>
      (r == AllNegative && !RallyVix(vixRegime)) || (r == SellOffPattern && !SellOffVix(vixRegime))
    ensures k == ConditionalVoid <==> r == Regime(Neg, Neg, Pos, Neg)
    ensures k == BounceCandidate <==> r == Regime(Neg, Pos, Neg, Pos)
    ensures k == CeilingMagnet <==> r == Regime(Pos, Pos, Pos, Neg)
    ensures k == StructuralSupport <==> r == Regime(Pos, Pos, Neg, Pos)
    ensures r.g == Neutral ==> k == MixedChop
  {
    var (g, d, v, c) := (r.g, r.d, r.v, r.c);
    if g == Neg && d == Neg && v == Neg && c == Neg then
      if RallyVix(vixRegime) then RallyConducive else Mixed
    else if g == Neg && d == Pos && v == Pos && c == Pos then
      if SellOffVix(vixRegime) then SellOffConducive else Mixed
    else if g == Neg && d == Neg && v == Pos && c == Neg then ConditionalVoid
    else if g == Neg && d == Pos && v == Neg && c == Pos then BounceCandidate
    else if g == Pos && d == Pos && v == Pos && c == Neg then CeilingMagnet
    else if g == Pos && d == Pos && v == Neg && c == Pos then StructuralSupport
    else MixedChop
  }

  /** The notes of determine_conductivity, one per branch. */
  const RallyNote := "Strong bearish alignment with supportive VIX regime. Momentum amplification likely to accelerate rallies."
  const BearishMixedNote := "Bearish alignment but VIX rising creates uncertainty. Watch for volatility spike cushioning."
  const BullishMixedNote := "Bullish alignment but VIX falling creates uncertainty. VEX cushion may protect upside."
  const SellOffNote := "Strong bullish alignment with rising VIX. Momentum amplification likely to accelerate sell-offs."
  const VoidNote := "Accelerates downside momentum but VEX provides cushion during volatility spikes. High-probability floor formation zone."
  const BounceNote := "Strong compression with buying pressure and volatility cushion. Potential reversal setup zone."
  const CeilingNote := "Extreme compression with strong directional buying support. Pin behavior expected at this level."
  const SupportNote := "Strong compression with aggressive market maker buying. High-probability support level."
  const ChopNote := "No clear directional alignment across exposures. Expect range-bound or choppy conditions."

  /** The note returned beside each label; MIXED has one note per aligned pattern. */
  function ConductivityNote(k: Conductivity, r: Regime): string {
    match k
    case RallyConducive => RallyNote
    case Mixed => if r == AllNegative then BearishMixedNote else BullishMixedNote
    case SellOffConducive => SellOffNote
    case ConditionalVoid => VoidNote
    case BounceCandidate => BounceNote
    case CeilingMagnet => CeilingNote
    case StructuralSupport => SupportNote
    case MixedChop => ChopNote
  }

  /**
   * The nine notes are pairwise distinct: a note names its label, and the two
   * MIXED notes tell the bearish pattern from the bullish one.
   */
  lemma NoteDeterminesConductivity(a: Conductivity, r1: Regime, b: Conductivity, r2: Regime)
    requires ConductivityNote(a, r1) == ConductivityNote(b, r2)
    ensures a == b
    ensures a == Mixed ==> (r1 == AllNegative <==> r2 == AllNegative)
  {
  }

  /** determine_conductivity: the label and its note. */
  function DetermineConductivity(r: Regime, vixRegime: string): (res: (string, string))
    ensures res.0 == ConductivityOf(r, vixRegime).Label()
    ensures res.1 == ConductivityNote(ConductivityOf(r, vixRegime), r)
  {
    var k := ConductivityOf(r, vixRegime);
    (k.Label(), ConductivityNote(k, r))
  }

  const MaxDownsideCode := "G- D- V- C+"
  const MaxDownsideFlag := "MAX_DOWNSIDE_ACCELERATION"

  /** The pattern flags of a strike's regime code. */
  function PatternFlags(code: string): (flags: seq<string>)
    ensures flags == [MaxDownsideFlag] || flags == []
    ensures flags != [] <==> code == MaxDownsideCode
  {
    if code == MaxDownsideCode then [MaxDownsideFlag] else []
  }

  /** On computed codes the flag is raised exactly for the regime G- D- V- C+. */
  lemma FlagIffRegime(r: Regime)
    ensures PatternFlags(RegimeCode(r)) != [] <==> r == Regime(Neg, Neg, Neg, Pos)
  {
    var target := Regime(Neg, Neg, Neg, Pos);
    assert RegimeCode(target) == MaxDownsideCode;
    if RegimeCode(r) == MaxDownsideCode {
      CodeDeterminesRegime(r, target);
    }
  }

  const CeilingTerrain := "CEILING/MAGNET — Extreme compression + directional buying support. Pin behavior expected."
  const AccelerationTerrain := "ACCELERATION ZONE (DOWN) — All directional Greeks aligned bearish. No support structure."
  const HighVelocityTerrain := "HIGH-VELOCITY DOWN — Momentum amplified, but VEX provides vol-spike cushion. Trapped longs above."
  const BounceTerrain := "BOUNCE CANDIDATE — Compression + buying pressure + vol-spike cushion. Reversal setup zone."
  const VoidTerrain := "CONDITIONAL VOID — Accelerates down, BUT vol spike triggers MM buying (V+ override)."
  const SupportTerrain := "STRUCTURAL SUPPORT — Strong compression + aggressive MM buying. High-probability floor."
  const NeutralTerrain := "NEUTRAL — No significant terrain features identified."

  /** The terrain dict literal, entry by entry, in source order (two codes appear twice). */
  const TerrainEntries: seq<(string, string)> := [
    ("G+ D+ V+ C-", CeilingTerrain),
    ("G- D- V- C+", AccelerationTerrain),
    ("G- D- V+ C-", HighVelocityTerrain),
    ("G+ D+ V- C+", BounceTerrain),
    ("G- D- V+ C-", VoidTerrain),
    ("G+ D+ V- C+", SupportTerrain)
  ]

  /** A dict display: entries are inserted in order, so a repeated key keeps its last value. */
  function DictDisplay(entries: seq<(string, string)>): (m: map<string, string>)
    ensures forall k :: k in m <==> exists i :: 0 <= i < |entries| && entries[i].0 == k
  {
    if entries == [] then map[]
    else
      var n := |entries| - 1;
      var m := DictDisplay(entries[..n]);
      assert forall i :: 0 <= i < n ==> entries[..n][i] == entries[i];
      m[entries[n].0 := entries[n].1]
  }

  /** The regimes whose codes the terrain map names. */
  const CeilingRegime := Regime(Pos, Pos, Pos, Neg)
  const AccelerationRegime := Regime(Neg, Neg, Neg, Pos)
  const VoidRegime := Regime(Neg, Neg, Pos, Neg)
  const SupportRegime := Regime(Pos, Pos, Neg, Pos)

  /** The keys of the dict literal are the codes of those four regimes, the last two repeated. */
  lemma TerrainKeys()
    ensures TerrainEntries[0].0 == RegimeCode(CeilingRegime)
    ensures TerrainEntries[1].0 == RegimeCode(AccelerationRegime)
    ensures TerrainEntries[2].0 == RegimeCode(VoidRegime) == TerrainEntries[4].0
    ensures TerrainEntries[3].0 == RegimeCode(SupportRegime) == TerrainEntries[5].0
  {
  }

  /** Six entries whose last two repeat the third and fourth key: the later values win. */
  lemma DisplaySix(e: seq<(string, string)>)
    requires |e| == 6 && e[4].0 == e[2].0 && e[5].0 == e[3].0
    requires e[0].0 != e[1].0 && e[0].0 != e[2].0 && e[0].0 != e[3].0
    requires e[1].0 != e[2].0 && e[1].0 != e[3].0 && e[2].0 != e[3].0
    ensures DictDisplay(e) == map[e[0].0 := e[0].1, e[1].0 := e[1].1, e[2].0 := e[4].1, e[3].0 := e[5].1]
  {
    assert DictDisplay(e[..4]) == map[e[0].0 := e[0].1, e[1].0 := e[1].1, e[2].0 := e[2].1, e[3].0 := e[3].1] by {
      assert e[..0] == [];
      DisplayStep(e, 1);
      DisplayStep(e, 2);
      DisplayStep(e, 3);
      DisplayStep(e, 4);
    }
    DisplayStep(e, 5);
    DisplayStep(e, 6);
    assert e[..6] == e;
  }

  lemma DisplayStep(entries: seq<(string, string)>, n: nat)
    requires 0 < n <= |entries|
    ensures DictDisplay(entries[..n]) == DictDisplay(entries[..n - 1])[entries[n - 1].0 := entries[n - 1].1]
  {
    assert entries[..n][..n - 1] == entries[..n - 1];
  }

  /**
   * The effective terrain map has four keys; the later CONDITIONAL VOID and
   * STRUCTURAL SUPPORT entries replace HIGH-VELOCITY DOWN and BOUNCE CANDIDATE.
   */
  lemma TerrainMapContents()
    ensures DictDisplay(TerrainEntries) == map[
      RegimeCode(CeilingRegime) := CeilingTerrain,
      RegimeCode(AccelerationRegime) := AccelerationTerrain,
      RegimeCode(VoidRegime) := VoidTerrain,
      RegimeCode(SupportRegime) := SupportTerrain]
  {
    TerrainKeys();
    var rs := [CeilingRegime, AccelerationRegime, VoidRegime, SupportRegime];
    forall i, j | 0 <= i < j < 4 ensures RegimeCode(rs[i]) != RegimeCode(rs[j]) {
      if RegimeCode(rs[i]) == RegimeCode(rs[j]) {
        CodeDeterminesRegime(rs[i], rs[j]);
      }
    }
    DisplaySix(TerrainEntries);
  }

  /** terrain_map.get(code, NEUTRAL). */
  function TerrainLabel(code: string): (name: string)
    ensures name in {CeilingTerrain, AccelerationTerrain, VoidTerrain, SupportTerrain, NeutralTerrain}
  {
    TerrainMapContents();
    var m := DictDisplay(TerrainEntries);
    if code in m then m[code] else NeutralTerrain
  }

  /** The shadowed HIGH-VELOCITY DOWN and BOUNCE CANDIDATE labels are never produced. */
  lemma ShadowedTerrainUnreachable(code: string)
    ensures TerrainLabel(code) != HighVelocityTerrain && TerrainLabel(code) != BounceTerrain
  {
  }

  /** The terrain label of a regime's code, by regime. */
  lemma TerrainOfRegime(r: Regime)
    ensures TerrainLabel(RegimeCode(r)) ==
      if r == CeilingRegime then CeilingTerrain
      else if r == AccelerationRegime then AccelerationTerrain
      else if r == VoidRegime then VoidTerrain
      else if r == SupportRegime then SupportTerrain
      else NeutralTerrain
  {
    TerrainMapContents();
    var code := RegimeCode(r);
    var rs := [CeilingRegime, AccelerationRegime, VoidRegime, SupportRegime];
    forall i | 0 <= i < 4 && code == RegimeCode(rs[i]) ensures r == rs[i] {
      CodeDeterminesRegime(r, rs[i]);
    }
  }

  const AtTheMoney := " (AT-THE-MONEY)"
  const OutOfTheMoneyCall := " (OUT-OF-THE-MONEY CALL)"
  const OutOfTheMoneyPut := " (OUT-OF-THE-MONEY PUT)"

  /**
   * The positional suffix: at the money within 1% of spot, else an OTM call
   * above spot and an OTM put otherwise. A zero spot divides by zero: None.
   */
  function MoneynessSuffix(spot: real, strike: real): (suffix: Option<string>)
    ensures suffix.None? <==> spot == 0.0
    ensures spot > 0.0 ==>
      && (suffix == Some(AtTheMoney) <==> Abs(strike - spot) < 0.01 * spot)
      && (suffix == Some(OutOfTheMoneyCall) <==> Abs(strike - spot) >= 0.01 * spot && strike > spot)
      && (suffix == Some(OutOfTheMoneyPut) <==> Abs(strike - spot) >= 0.01 * spot && strike <= spot)
    ensures spot < 0.0 ==> suffix == Some(AtTheMoney)
  {
    if spot == 0.0 then None
    else
      var distance := Abs(strike - spot) / spot;
      RelativeDistance(spot, strike);
      if distance < 0.01 then Some(AtTheMoney)
      else if strike > spot then Some(OutOfTheMoneyCall)
      else Some(OutOfTheMoneyPut)
  }

  /** Within 1% of a positive spot, measured relatively or absolutely. */
  lemma RelativeDistance(spot: real, strike: real)
    requires spot != 0.0
    ensures spot > 0.0 ==> (Abs(strike - spot) / spot < 0.01 <==> Abs(strike - spot) < 0.01 * spot)
  {
    if spot > 0.0 {
      DivideBelow(Abs(strike - spot), spot, 0.01);
    }
  }

  /** Dividing by a positive number and comparing is comparing against the scaled bound. */
  lemma DivideBelow(d: real, c: real, bound: real)
    requires c > 0.0
    ensures d / c < bound <==> d < bound * c
  {
    var a := d / c;
    assert a * c == d;
    if a < bound {
      assert (bound - a) * c > 0.0;
      assert (bound - a) * c == bound * c - d;
    } else {
      assert (a - bound) * c >= 0.0;
      assert (a - bound) * c == d - bound * c;
    }
  }

  datatype Terrain = Terrain(classification: string, patternFlags: seq<string>)

  /**
   * classify_strike_terrain: the terrain label with exactly one moneyness
   * suffix, and the pattern flags; None where the source divides by a zero spot.
   */
  function ClassifyStrikeTerrain(code: string, spot: real, strike: real): (t: Option<Terrain>)
    ensures t.None? <==> spot == 0.0
    ensures t.Some? ==>
      && t.value.patternFlags == PatternFlags(code)
      && t.value.classification == TerrainLabel(code) + MoneynessSuffix(spot, strike).value
  {
    match MoneynessSuffix(spot, strike)
    case None => None
    case Some(suffix) => Some(Terrain(TerrainLabel(code) + suffix, PatternFlags(code)))
  }

  /** analyze_vix_regime: None and the 15..20 band give AUTO, above 20 RISING, below 15 FALLING. */
  function AnalyzeVixRegime(vix: Option<real>): (regime: string)
    ensures regime == "RISING" <==> vix.Some? && vix.value > 20.0
    ensures regime == "FALLING" <==> vix.Some? && vix.value < 15.0
    ensures regime == "AUTO" <==> vix.None? || 15.0 <= vix.value <= 20.0
  {
    match vix
    case None => "AUTO"
    case Some(x) => if x > 20.0 then "RISING" else if x < 15.0 then "FALLING" else "AUTO"
  }
}
