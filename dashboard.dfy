/**
 * The composite scorer: three percentiles taken as points, a fixed bonus
 * gated on the basis percentile, the verdict bands on the sum, and the
 * monitor object that caches the datasets and the latest score.
 */
module Dashboard {
  import opened Rounding
  import opened Ranker
  import opened Indicators

  const BonusThreshold: real := 90.0
  const BonusPoints: real := 25.0

  /** All or nothing: 25 points at or above the 90 threshold, none below it. */
  function BasisBonus(basisPct: real): (b: real)
    ensures b == BonusPoints <==> basisPct >= BonusThreshold
    ensures b == 0.0 <==> basisPct < BonusThreshold
  {
    if basisPct >= BonusThreshold then BonusPoints else 0.0
  }

  /** Backwardation, inventory and net-shorts percentiles as points, plus the basis bonus. */
  function CompositeScore(p: Percentiles): real {
    p.backwardationPct + p.inventoryTightness + p.cftcPct + BasisBonus(p.basisPct)
  }

  /** With three percentiles in [0, 100] the composite lies in [0, 325]. */
  lemma CompositeRange(p: Percentiles)
    requires 0.0 <= p.backwardationPct <= 100.0
    requires 0.0 <= p.inventoryTightness <= 100.0
    requires 0.0 <= p.cftcPct <= 100.0
    ensures 0.0 <= CompositeScore(p) <= 325.0
    ensures CompositeScore(p) - BasisBonus(p.basisPct) <= 300.0
  {
  }

  /**
   * Snapshot mode caps the basis figure at 25, below the 90 threshold, so
   * a composite built from it never earns the bonus and never exceeds 300.
   */
  lemma SnapshotNeverEarnsBonus(d: CopperIndicators)
    requires d.Valid()
    ensures BasisBonus(GetAll(d).basisPct) == 0.0
    ensures 0.0 <= CompositeScore(GetAll(d)) <= 300.0
  {
    CompositeRange(GetAll(d));
  }

  /**
   * The gate sees the figure after rounding to one decimal place: an
   * unrounded percentile earns the bonus exactly when it is at least 89.95,
   * so values in [89.95, 90) pass.
   */
  lemma BonusGateSeesRoundedValue(x: real)
    ensures BasisBonus(Round1(x)) == BonusPoints <==> x >= 89.95
  {
    assert RoundHalfEven(899.5) == 900;
    assert Round1(89.95) == 90.0;
    if x >= 89.95 {
      Round1Monotone(89.95, x);
    } else {
      var n := RoundHalfEven(x * 10.0);
      assert n as real <= x * 10.0 + 0.5 < 900.0;
      assert n <= 899;
    }
  }

  /**
   * Without the cap, the bonus fires exactly when the unrounded basis
   * percentile is at least 89.95, in particular whenever the latest basis
   * is the largest of its ten-year window.
   */
  lemma UncappedBasisEarnsBonus(d: CopperIndicators)
    requires d.Valid()
    ensures BasisBonus(UncappedBasisPct(d)) == BonusPoints <==> SnapshotRank(BasisWindow(d)) >= 89.95
    ensures LatestIsWindowMax(BasisWindow(d)) ==> BasisBonus(UncappedBasisPct(d)) == BonusPoints
  {
    BonusGateSeesRoundedValue(SnapshotRank(BasisWindow(d)));
  }

  datatype Verdict = LowRisk | ElevatedRisk | HighSqueezeRisk | ExtremeSqueezeRisk {

    function Label(): string {
      match this
      case LowRisk => "Low risk"
      case ElevatedRisk => "Elevated risk"
      case HighSqueezeRisk => "High squeeze risk"
      case ExtremeSqueezeRisk => "Extreme squeeze risk"
    }

    function Colour(): string {
      match this
      case LowRisk => "green"
      case ElevatedRisk => "yellow"
      case HighSqueezeRisk => "orange"
      case ExtremeSqueezeRisk => "red"
    }

    /** Position in the order of severity. */
    function Level(): nat {
      match this
      case LowRisk => 0
      case ElevatedRisk => 1
      case HighSqueezeRisk => 2
      case ExtremeSqueezeRisk => 3
    }
  }

  /** The verdict bands: each lower bound belongs to its band. */
  function VerdictOf(composite: real): (v: Verdict)
    ensures v == LowRisk <==> composite < 150.0
    ensures v == ElevatedRisk <==> 150.0 <= composite < 200.0
    ensures v == HighSqueezeRisk <==> 200.0 <= composite < 250.0
    ensures v == ExtremeSqueezeRisk <==> 250.0 <= composite
  {
    if composite < 150.0 then LowRisk
    else if composite < 200.0 then ElevatedRisk
    else if composite < 250.0 then HighSqueezeRisk
    else ExtremeSqueezeRisk
  }

  /** A higher composite never gives a milder verdict. */
  lemma VerdictMonotone(c1: real, c2: real)
    requires c1 <= c2
    ensures VerdictOf(c1).Level() <= VerdictOf(c2).Level()
  {
  }

  /** Bar colour of one indicator in the chart. */
  datatype Severity = Low | Elevated | High | Extreme {

    function Hex(): string {
      match this
      case Low => "#2ca02c"
      case Elevated => "#ff7f0e"
      case High => "#d62728"
      case Extreme => "#8B0000"
    }

    function Level(): nat {
      match this
      case Low => 0
      case Elevated => 1
      case High => 2
      case Extreme => 3
    }
  }

  /** The colour bands of a raw figure: below 50, below 75, below 90, and the rest. */
  function SeverityOf(v: real): (s: Severity)
    ensures s == Low <==> v < 50.0
    ensures s == Elevated <==> 50.0 <= v < 75.0
    ensures s == High <==> 75.0 <= v < 90.0
    ensures s == Extreme <==> 90.0 <= v
  {
    if v < 50.0 then Low
    else if v < 75.0 then Elevated
    else if v < 90.0 then High
    else Extreme
  }

  /** A higher figure never gets a milder colour. */
  lemma SeverityMonotone(v1: real, v2: real)
    requires v1 <= v2
    ensures SeverityOf(v1).Level() <= SeverityOf(v2).Level()
  {
  }

  /**
   * The monitor: the indicator engine and its four datasets copied onto the
   * object, all assigned once, and the figures, composite and bonus of the
   * latest update, which every update reassigns.
   */
  class SqueezeMonitor {
    const ind: CopperIndicators
    const lme: seq<LmeRow>
    const inv: Series
    const cftc: Series
    const basis: Series
    var data: Percentiles
    var composite: real
    var basisBonusApplied: real

    /** The engine's datasets are usable, and the copies are the engine's. */
    predicate Valid() {
      ind.Valid() && lme == ind.lme && inv == ind.inv && cftc == ind.cftc && basis == ind.basis
    }

    /**
     * Takes the engine (its datasets fetched elsewhere), copies its four
     * datasets onto the monitor and scores once.
     */
    constructor (indicators: CopperIndicators)
      requires indicators.Valid()
      ensures Valid() && ind == indicators
      ensures data == GetAll(indicators)
      ensures basisBonusApplied == BasisBonus(data.basisPct)
      ensures composite == CompositeScore(data)
    {
      ind := indicators;
      lme, inv, cftc, basis := indicators.lme, indicators.inv, indicators.cftc, indicators.basis;
      new;
      Update();
    }

    /**
     * Re-scores from snapshot mode. Only the figures, the composite and the
     * bonus change, and they depend on nothing but the cached datasets, so a
     * second update leaves them as they are. The bonus is always 0.
     */
    method Update()
      requires Valid()
      modifies this`data, this`composite, this`basisBonusApplied
      ensures data == GetAll(ind)
      ensures basisBonusApplied == BasisBonus(data.basisPct)
      ensures composite == CompositeScore(data)
      ensures basisBonusApplied == 0.0 && 0.0 <= composite <= 300.0
    {
      var snapshot := GetAll(ind);
      var bck, inventory, netShorts, basisRaw :=
        snapshot.backwardationPct, snapshot.inventoryTightness, snapshot.cftcPct, snapshot.basisPct;
      var basisBonus := if basisRaw >= 90.0 then 25.0 else 0.0;
      assert basisBonus == BasisBonus(basisRaw);
      var score := bck + inventory + netShorts + basisBonus;
      assert score == CompositeScore(snapshot);
      SnapshotNeverEarnsBonus(ind);
      data := snapshot;
      composite := score;
      basisBonusApplied := basisBonus;
    }

    /** The verdict label and colour for the current composite. */
    method GetVerdict() returns (verdict: string, colour: string)
      ensures verdict == VerdictOf(composite).Label()
      ensures colour == VerdictOf(composite).Colour()
    {
      var c := composite;
      if c < 150.0 {
        verdict, colour := "Low risk", "green";
      } else if c < 200.0 {
        verdict, colour := "Elevated risk", "yellow";
      } else if c < 250.0 {
        verdict, colour := "High squeeze risk", "orange";
      } else {
        verdict, colour := "Extreme squeeze risk", "red";
      }
    }
  }
}
