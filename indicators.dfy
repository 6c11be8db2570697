/**
 * The indicator engine: four series held as an immutable snapshot, each
 * ranked against its own trailing window, in two modes. Snapshot mode
 * ranks each series' latest reading; override mode ranks caller-supplied
 * readings against the same stored windows.
 */
module Indicators {
  import opened Wrappers
  import opened Dates
  import opened Rounding
  import opened Ranker

  /** Lookback of each indicator, in years. */
  const BackwardationYears: nat := 5
  const InventoryYears: nat := 10
  const CftcYears: nat := 8
  const BasisYears: nat := 10

  /** Pounds in a metric tonne: turns a USD/lb quote into USD/t. */
  const PoundsPerTonne: real := 2204.62

  /** The snapshot's basis percentile is capped at this value. */
  const BasisCap: real := 25.0

  /** One day of exchange prices: cash and three-month, in USD/t. */
  datatype LmeRow = LmeRow(date: Date, cash: real, threeMonth: real)

  /** The cash minus three-month spread. */
  function CashThreeMonthSpread(r: LmeRow): real {
    r.cash - r.threeMonth
  }

  predicate LmeChronological(lme: seq<LmeRow>) {
    forall i, j :: 0 <= i < j < |lme| ==> DayKey(lme[i].date) < DayKey(lme[j].date)
  }

  /**
   * The four cached datasets: exchange prices, visible inventory in tonnes,
   * net shorts in contracts and the cross-exchange basis in USD/t.
   */
  datatype CopperIndicators = CopperIndicators(lme: seq<LmeRow>, inv: Series, cftc: Series, basis: Series) {

    /**
     * Every series is non-empty, indexed by calendar dates in increasing
     * order; no three-month price is zero.
     */
    predicate Valid() {
      && |lme| > 0 && LmeChronological(lme)
      && (forall i :: 0 <= i < |lme| ==> ValidDate(lme[i].date))
      && (forall i :: 0 <= i < |lme| ==> lme[i].threeMonth != 0.0)
      && |inv| > 0 && Chronological(inv) && DatesValid(inv)
      && |cftc| > 0 && Chronological(cftc) && DatesValid(cftc)
      && |basis| > 0 && Chronological(basis) && DatesValid(basis)
    }

    /** The most recent day of exchange prices. */
    function LatestRow(): LmeRow
      requires |lme| > 0
    {
      lme[|lme| - 1]
    }
  }

  /** The four figures both modes report. */
  datatype Percentiles = Percentiles(backwardationPct: real, inventoryTightness: real, cftcPct: real, basisPct: real) {

    predicate InRange() {
      && 0.0 <= backwardationPct <= 100.0
      && 0.0 <= inventoryTightness <= 100.0
      && 0.0 <= cftcPct <= 100.0
      && 0.0 <= basisPct <= 100.0
    }
  }

  /** Each figure rounded to one decimal place, as both modes report them. */
  function RoundEach(p: Percentiles): (q: Percentiles)
    requires p.InRange()
    ensures q.InRange()
    ensures p.basisPct <= BasisCap ==> q.basisPct <= BasisCap
  {
    Round1Percentage(p.backwardationPct);
    Round1Percentage(p.inventoryTightness);
    Round1Percentage(p.cftcPct);
    Round1Percentage(p.basisPct);
    Round1KeepsUpperBound(p.basisPct, 250);
    Percentiles(Round1(p.backwardationPct), Round1(p.inventoryTightness), Round1(p.cftcPct), Round1(p.basisPct))
  }

  /** The backwardation ratio, spread over three-month price, date by date. */
  function BackwardationSeries(lme: seq<LmeRow>): (s: Series)
    requires LmeChronological(lme)
    requires forall i :: 0 <= i < |lme| ==> lme[i].threeMonth != 0.0
    ensures |s| == |lme| && Chronological(s)
    ensures forall i :: 0 <= i < |s| ==> s[i].date == lme[i].date
  {
    seq(|lme|, i requires 0 <= i < |lme| => Point(lme[i].date, CashThreeMonthSpread(lme[i]) / lme[i].threeMonth))
  }

  lemma LatestBackwardation(lme: seq<LmeRow>)
    requires |lme| > 0 && LmeChronological(lme)
    requires forall i :: 0 <= i < |lme| ==> lme[i].threeMonth != 0.0
    ensures Last(BackwardationSeries(lme)).value
         == CashThreeMonthSpread(lme[|lme| - 1]) / lme[|lme| - 1].threeMonth
  {
  }

  function BackwardationWindow(d: CopperIndicators): (w: Series)
    requires d.Valid()
    ensures |w| > 0 && Last(w) == Last(BackwardationSeries(d.lme))
  {
    TrailingWindow(BackwardationSeries(d.lme), BackwardationYears)
  }

  function InventoryWindow(d: CopperIndicators): (w: Series)
    requires d.Valid()
    ensures |w| > 0 && Last(w) == Last(d.inv)
  {
    TrailingWindow(d.inv, InventoryYears)
  }

  function CftcWindow(d: CopperIndicators): (w: Series)
    requires d.Valid()
    ensures |w| > 0 && Last(w) == Last(d.cftc)
  {
    TrailingWindow(d.cftc, CftcYears)
  }

  function BasisWindow(d: CopperIndicators): (w: Series)
    requires d.Valid()
    ensures |w| > 0 && Last(w) == Last(d.basis)
  {
    TrailingWindow(d.basis, BasisYears)
  }

  /** The latest reading is the largest in its window. */
  predicate LatestIsWindowMax(w: Series)
    requires |w| > 0
  {
    forall i :: 0 <= i < |w| ==> w[i].value <= Last(w).value
  }

  /**
   * The snapshot percentile of a window: the share of points at most the
   * window's own latest reading. It counts that reading itself, so it is
   * never below 100/|w|, and it is 100 when that reading is the window's
   * largest.
   */
  function SnapshotRank(w: Series): (r: real)
    requires |w| > 0
    ensures 100.0 / |w| as real <= r <= 100.0
    ensures LatestIsWindowMax(w) ==> r == 100.0
  {
    RankOfLatest(w);
    RankExtremes(w, Last(w).value);
    Rank(w, Last(w).value, AtMost)
  }

  /**
   * Snapshot inventory tightness: 100 minus the share of points at most the
   * latest stock, which is the share of points strictly above it. It never
   * reaches 100, since the latest stock is never above itself.
   */
  function SnapshotInventoryTightness(w: Series): (r: real)
    requires |w| > 0
    ensures r == Rank(w, Last(w).value, Above)
    ensures 0.0 <= r < 100.0
  {
    RankComplements(w, Last(w).value);
    RankOfLatest(w);
    100.0 - SnapshotRank(w)
  }

  /** The smaller of two values, as Python's `min`. */
  function Min(a: real, b: real): (m: real)
    ensures m <= a && m <= b
    ensures m == a || m == b
  {
    if b < a then b else a
  }

  /**
   * The snapshot figures before rounding: the percentile of each series'
   * latest reading in its trailing window, inventory inverted, basis capped.
   */
  function SnapshotUnrounded(d: CopperIndicators): (p: Percentiles)
    requires d.Valid()
    ensures p.InRange()
    ensures p.basisPct <= BasisCap
  {
    var backwardationPct := SnapshotRank(BackwardationWindow(d));
    var inventoryTightness := SnapshotInventoryTightness(InventoryWindow(d));
    var cftcPct := SnapshotRank(CftcWindow(d));
    var basisPoints := Min(SnapshotRank(BasisWindow(d)), BasisCap);
    Percentiles(backwardationPct, inventoryTightness, cftcPct, basisPoints)
  }

  /**
   * Snapshot mode: every figure is in [0, 100], and the basis figure is
   * additionally capped at 25.
   */
  function GetAll(d: CopperIndicators): (p: Percentiles)
    requires d.Valid()
    ensures p.InRange()
    ensures p.basisPct <= BasisCap
  {
    RoundEach(SnapshotUnrounded(d))
  }

  /**
   * When the latest backwardation ratio, or the latest net-shorts figure, is
   * the largest of its window, snapshot mode reports exactly 100.0 for it.
   */
  lemma LatestMaxReportsHundred(d: CopperIndicators)
    requires d.Valid()
    ensures LatestIsWindowMax(BackwardationWindow(d)) ==> GetAll(d).backwardationPct == 100.0
    ensures LatestIsWindowMax(CftcWindow(d)) ==> GetAll(d).cftcPct == 100.0
  {
    Round1Tenths(1000);
  }

  /**
   * Caller-supplied readings, one per dictionary key; a missing key is
   * `None`.
   */
  datatype Overrides = Overrides(
    cashPrice: Option<real>,
    threeMPrice: Option<real>,
    inventoryTonnes: Option<real>,
    netShorts: Option<real>,
    comexPriceUsdLb: Option<real>)

  const NoOverrides := Overrides(None, None, None, None, None)

  /** Dividing by a zero three-month price leaves no backwardation ratio. */
  datatype RawError = ZeroThreeMonthPrice

  /** Each reading in override mode: the supplied one, or else the stored latest. */
  function CashPrice(d: CopperIndicators, raw: Overrides): real
    requires d.Valid()
  {
    raw.cashPrice.GetOr(d.LatestRow().cash)
  }

  function ThreeMonthPrice(d: CopperIndicators, raw: Overrides): real
    requires d.Valid()
  {
    raw.threeMPrice.GetOr(d.LatestRow().threeMonth)
  }

  function InventoryTonnes(d: CopperIndicators, raw: Overrides): real
    requires d.Valid()
  {
    raw.inventoryTonnes.GetOr(Last(d.inv).value)
  }

  function NetShorts(d: CopperIndicators, raw: Overrides): real
    requires d.Valid()
  {
    raw.netShorts.GetOr(Last(d.cftc).value)
  }

  /** The effective three-month price is zero only when the caller supplies a zero. */
  lemma ThreeMonthPriceZeroIff(d: CopperIndicators, raw: Overrides)
    requires d.Valid()
    ensures ThreeMonthPrice(d, raw) == 0.0 <==> raw.threeMPrice == Some(0.0)
  {
    assert d.LatestRow().threeMonth != 0.0;
  }

  /** The live backwardation ratio, `(cash - 3M) / 3M`. */
  function CurrentBackwardation(d: CopperIndicators, raw: Overrides): real
    requires d.Valid() && ThreeMonthPrice(d, raw) != 0.0
  {
    (CashPrice(d, raw) - ThreeMonthPrice(d, raw)) / ThreeMonthPrice(d, raw)
  }

  /** The live basis: the COMEX quote in USD/t minus the three-month price. */
  function CurrentBasis(d: CopperIndicators, raw: Overrides): real
    requires d.Valid() && raw.comexPriceUsdLb.Some?
  {
    raw.comexPriceUsdLb.value * PoundsPerTonne - ThreeMonthPrice(d, raw)
  }

  /**
   * Override inventory score as written: 100 minus the share of points at
   * least the stock, which is the share of points strictly below it. It
   * rises with the stock.
   */
  function OverrideInventoryScore(w: Series, inventory: real): (r: real)
    requires |w| > 0
    ensures r == Rank(w, inventory, Below)
  {
    RankComplements(w, inventory);
    100.0 - Rank(w, inventory, AtLeast)
  }

  /**
   * The override figures before rounding, each ranked against the stored
   * window of its series; the basis figure falls back to the snapshot one
   * when no COMEX quote is given.
   */
  function OverrideUnrounded(d: CopperIndicators, raw: Overrides): (p: Percentiles)
    requires d.Valid() && ThreeMonthPrice(d, raw) != 0.0
    ensures p.InRange()
    ensures raw.comexPriceUsdLb.None? ==> p.basisPct <= BasisCap
  {
    var backwardationPct := Rank(BackwardationWindow(d), CurrentBackwardation(d, raw), AtMost);
    var inventoryScore := OverrideInventoryScore(InventoryWindow(d), InventoryTonnes(d, raw));
    var cftcPct := Rank(CftcWindow(d), NetShorts(d, raw), AtMost);
    var basisPct :=
      if raw.comexPriceUsdLb.Some? then Rank(BasisWindow(d), CurrentBasis(d, raw), AtMost)
      else GetAll(d).basisPct;
    Percentiles(backwardationPct, inventoryScore, cftcPct, basisPct)
  }

  /**
   * Override mode. It fails exactly when the caller supplies a zero
   * three-month price; otherwise every figure is in [0, 100], and the basis
   * figure keeps the snapshot's cap when no COMEX quote is given.
   */
  function ComputePercentilesFromRaw(d: CopperIndicators, raw: Overrides): (r: Result<Percentiles, RawError>)
    requires d.Valid()
    ensures r.Failure? <==> raw.threeMPrice == Some(0.0)
    ensures r.Success? ==> r.value.InRange()
    ensures r.Success? && raw.comexPriceUsdLb.None? ==> r.value.basisPct <= BasisCap
  {
    ThreeMonthPriceZeroIff(d, raw);
    if ThreeMonthPrice(d, raw) == 0.0 then Failure(ZeroThreeMonthPrice)
    else Success(RoundEach(OverrideUnrounded(d, raw)))
  }

  /** With neither price overridden, the live ratio is the stored latest one. */
  lemma CurrentBackwardationWithoutOverride(d: CopperIndicators, raw: Overrides)
    requires d.Valid() && raw.cashPrice.None? && raw.threeMPrice.None?
    ensures ThreeMonthPrice(d, raw) != 0.0
    ensures CurrentBackwardation(d, raw) == Last(BackwardationWindow(d)).value
  {
    var row := d.LatestRow();
    LatestBackwardation(d.lme);
    assert CashPrice(d, raw) - ThreeMonthPrice(d, raw) == CashThreeMonthSpread(row);
  }

  /**
   * A supplied reading is used as given; a missing one is the latest point
   * of the very window that reading is ranked in.
   */
  lemma OverrideReadingsFallBack(d: CopperIndicators, raw: Overrides)
    requires d.Valid()
    ensures raw.cashPrice.Some? ==> CashPrice(d, raw) == raw.cashPrice.value
    ensures raw.threeMPrice.Some? ==> ThreeMonthPrice(d, raw) == raw.threeMPrice.value
    ensures raw.inventoryTonnes.Some? ==> InventoryTonnes(d, raw) == raw.inventoryTonnes.value
    ensures raw.netShorts.Some? ==> NetShorts(d, raw) == raw.netShorts.value
    ensures raw.cashPrice.None? ==> CashPrice(d, raw) == d.lme[|d.lme| - 1].cash
    ensures raw.threeMPrice.None? ==> ThreeMonthPrice(d, raw) == d.lme[|d.lme| - 1].threeMonth
    ensures raw.inventoryTonnes.None? ==> InventoryTonnes(d, raw) == Last(InventoryWindow(d)).value
    ensures raw.netShorts.None? ==> NetShorts(d, raw) == Last(CftcWindow(d)).value
  {
  }

  /**
   * With a positive three-month price, the live ratio is positive exactly in
   * backwardation (cash above three-month), zero exactly when the two prices
   * are equal, and negative exactly in contango.
   */
  lemma CurrentBackwardationSign(d: CopperIndicators, raw: Overrides)
    requires d.Valid() && ThreeMonthPrice(d, raw) > 0.0
    ensures CurrentBackwardation(d, raw) > 0.0 <==> CashPrice(d, raw) > ThreeMonthPrice(d, raw)
    ensures CurrentBackwardation(d, raw) == 0.0 <==> CashPrice(d, raw) == ThreeMonthPrice(d, raw)
    ensures CurrentBackwardation(d, raw) < 0.0 <==> CashPrice(d, raw) < ThreeMonthPrice(d, raw)
  {
    var c, t := CashPrice(d, raw), ThreeMonthPrice(d, raw);
    assert CurrentBackwardation(d, raw) * t == c - t;
  }

  /**
   * The live basis rises with the COMEX quote and falls with the three-month
   * price; one cent per pound more on COMEX is 22.0462 USD/t more basis.
   */
  lemma CurrentBasisMonotone(d: CopperIndicators, raw1: Overrides, raw2: Overrides)
    requires d.Valid() && raw1.comexPriceUsdLb.Some? && raw2.comexPriceUsdLb.Some?
    requires raw1.comexPriceUsdLb.value <= raw2.comexPriceUsdLb.value
    requires ThreeMonthPrice(d, raw2) <= ThreeMonthPrice(d, raw1)
    ensures CurrentBasis(d, raw1) <= CurrentBasis(d, raw2)
    ensures raw2.comexPriceUsdLb.value == raw1.comexPriceUsdLb.value + 0.01
         && ThreeMonthPrice(d, raw1) == ThreeMonthPrice(d, raw2)
        ==> CurrentBasis(d, raw2) == CurrentBasis(d, raw1) + 22.0462
  {
  }

  /**
   * Each figure of override mode whose keys are all missing is the
   * snapshot figure, except inventory, which is ranked the other way.
   */
  lemma OverrideFallsBackPerKey(d: CopperIndicators, raw: Overrides)
    requires d.Valid() && raw.threeMPrice != Some(0.0)
    ensures ComputePercentilesFromRaw(d, raw).Success?
    ensures raw.cashPrice.None? && raw.threeMPrice.None? ==>
      ComputePercentilesFromRaw(d, raw).value.backwardationPct == GetAll(d).backwardationPct
    ensures raw.netShorts.None? ==>
      ComputePercentilesFromRaw(d, raw).value.cftcPct == GetAll(d).cftcPct
    ensures raw.comexPriceUsdLb.None? ==>
      ComputePercentilesFromRaw(d, raw).value.basisPct == GetAll(d).basisPct
    ensures raw.inventoryTonnes.None? ==>
      ComputePercentilesFromRaw(d, raw).value.inventoryTightness
        == Round1(Rank(InventoryWindow(d), Last(d.inv).value, Below))
  {
    ThreeMonthPriceZeroIff(d, raw);
    var o, g := OverrideUnrounded(d, raw), SnapshotUnrounded(d);
    assert ComputePercentilesFromRaw(d, raw).value == RoundEach(o);
    if raw.cashPrice.None? && raw.threeMPrice.None? {
      CurrentBackwardationWithoutOverride(d, raw);
    }
    if raw.comexPriceUsdLb.None? {
      Round1Idempotent(g.basisPct);
    }
  }

  /**
   * With no override at all, backwardation, net shorts and basis agree with
   * snapshot mode, while the two inventory figures add up to 100 minus the
   * share of points tied with the latest stock: they are the shares strictly
   * above and strictly below it, so they agree only by coincidence.
   */
  lemma EmptyOverrideVersusSnapshot(d: CopperIndicators)
    requires d.Valid()
    ensures ComputePercentilesFromRaw(d, NoOverrides).Success?
    ensures ComputePercentilesFromRaw(d, NoOverrides).value.backwardationPct == GetAll(d).backwardationPct
    ensures ComputePercentilesFromRaw(d, NoOverrides).value.cftcPct == GetAll(d).cftcPct
    ensures ComputePercentilesFromRaw(d, NoOverrides).value.basisPct == GetAll(d).basisPct
    ensures SnapshotInventoryTightness(InventoryWindow(d))
          + OverrideInventoryScore(InventoryWindow(d), InventoryTonnes(d, NoOverrides))
         == 100.0 - Rank(InventoryWindow(d), Last(d.inv).value, Equal)
  {
    OverrideFallsBackPerKey(d, NoOverrides);
    var w := InventoryWindow(d);
    RankComplements(w, Last(w).value);
  }

  /**
   * Override figures follow their readings: a higher effective reading never
   * gives a lower backwardation, net-shorts or basis percentile, and, as
   * written, never a lower inventory score either.
   */
  lemma OverrideMonotone(d: CopperIndicators, raw1: Overrides, raw2: Overrides)
    requires d.Valid() && raw1.threeMPrice != Some(0.0) && raw2.threeMPrice != Some(0.0)
    ensures ComputePercentilesFromRaw(d, raw1).Success? && ComputePercentilesFromRaw(d, raw2).Success?
    ensures CurrentBackwardation(d, raw1) <= CurrentBackwardation(d, raw2) ==>
      ComputePercentilesFromRaw(d, raw1).value.backwardationPct <= ComputePercentilesFromRaw(d, raw2).value.backwardationPct
    ensures InventoryTonnes(d, raw1) <= InventoryTonnes(d, raw2) ==>
      ComputePercentilesFromRaw(d, raw1).value.inventoryTightness <= ComputePercentilesFromRaw(d, raw2).value.inventoryTightness
    ensures NetShorts(d, raw1) <= NetShorts(d, raw2) ==>
      ComputePercentilesFromRaw(d, raw1).value.cftcPct <= ComputePercentilesFromRaw(d, raw2).value.cftcPct
    ensures raw1.comexPriceUsdLb.Some? && raw2.comexPriceUsdLb.Some? && CurrentBasis(d, raw1) <= CurrentBasis(d, raw2) ==>
      ComputePercentilesFromRaw(d, raw1).value.basisPct <= ComputePercentilesFromRaw(d, raw2).value.basisPct
  {
    ThreeMonthPriceZeroIff(d, raw1);
    ThreeMonthPriceZeroIff(d, raw2);
    var b1, b2 := CurrentBackwardation(d, raw1), CurrentBackwardation(d, raw2);
    if b1 <= b2 {
      RankMonotone(BackwardationWindow(d), b1, b2);
      Round1Monotone(Rank(BackwardationWindow(d), b1, AtMost), Rank(BackwardationWindow(d), b2, AtMost));
    }
    var i1, i2 := InventoryTonnes(d, raw1), InventoryTonnes(d, raw2);
    if i1 <= i2 {
      RankMonotone(InventoryWindow(d), i1, i2);
      Round1Monotone(Rank(InventoryWindow(d), i1, Below), Rank(InventoryWindow(d), i2, Below));
    }
    var n1, n2 := NetShorts(d, raw1), NetShorts(d, raw2);
    if n1 <= n2 {
      RankMonotone(CftcWindow(d), n1, n2);
      Round1Monotone(Rank(CftcWindow(d), n1, AtMost), Rank(CftcWindow(d), n2, AtMost));
    }
    if raw1.comexPriceUsdLb.Some? && raw2.comexPriceUsdLb.Some? && CurrentBasis(d, raw1) <= CurrentBasis(d, raw2) {
      var c1, c2 := CurrentBasis(d, raw1), CurrentBasis(d, raw2);
      RankMonotone(BasisWindow(d), c1, c2);
      Round1Monotone(Rank(BasisWindow(d), c1, AtMost), Rank(BasisWindow(d), c2, AtMost));
    }
  }

  /**
   * Unlike snapshot mode, override mode does not cap the basis figure: a
   * live basis at or above every stored basis in the window reports 100.
   */
  lemma OverrideBasisUncapped(d: CopperIndicators, raw: Overrides)
    requires d.Valid() && raw.threeMPrice != Some(0.0) && raw.comexPriceUsdLb.Some?
    requires forall i :: 0 <= i < |BasisWindow(d)| ==> BasisWindow(d)[i].value <= CurrentBasis(d, raw)
    ensures ComputePercentilesFromRaw(d, raw).Success?
    ensures ComputePercentilesFromRaw(d, raw).value.basisPct == 100.0
  {
    ThreeMonthPriceZeroIff(d, raw);
    var o := OverrideUnrounded(d, raw);
    RankExtremes(BasisWindow(d), CurrentBasis(d, raw));
    assert o.basisPct == 100.0;
    Round1Tenths(1000);
    assert RoundEach(o).basisPct == 100.0;
  }

  /**
   * Override inventory as it should read, in the snapshot's sense: 100 minus
   * the share of points at most the stock, the share strictly above it.
   */
  function CorrectedInventoryScore(w: Series, inventory: real): (r: real)
    requires |w| > 0
    ensures r == Rank(w, inventory, Above)
  {
    RankComplements(w, inventory);
    100.0 - Rank(w, inventory, AtMost)
  }

  /**
   * The corrected score falls as the stock rises, and at the stored latest
   * stock it is the snapshot tightness.
   */
  lemma CorrectedInventoryScoreSound(w: Series, lower: real, higher: real)
    requires |w| > 0 && lower <= higher
    ensures CorrectedInventoryScore(w, lower) >= CorrectedInventoryScore(w, higher)
    ensures CorrectedInventoryScore(w, Last(w).value) == SnapshotInventoryTightness(w)
  {
    RankMonotone(w, lower, higher);
  }

  /**
   * A stock below every stored stock in the window, a record low and the
   * tightest market, scores 0 as written; the corrected score is 100.
   */
  lemma OverrideInventoryAtRecordLow(w: Series, inventory: real)
    requires |w| > 0
    requires forall i :: 0 <= i < |w| ==> w[i].value > inventory
    ensures OverrideInventoryScore(w, inventory) == 0.0
    ensures CorrectedInventoryScore(w, inventory) == 100.0
  {
    RankExtremes(w, inventory);
    RankComplements(w, inventory);
  }

  /**
   * The basis figure without the cap at 25: in [0, 100], and 100 when the
   * latest basis is the largest of its window.
   */
  function UncappedBasisPct(d: CopperIndicators): (r: real)
    requires d.Valid()
    ensures 0.0 <= r <= 100.0
    ensures LatestIsWindowMax(BasisWindow(d)) ==> r == 100.0
  {
    Round1Percentage(SnapshotRank(BasisWindow(d)));
    Round1Tenths(1000);
    Round1(SnapshotRank(BasisWindow(d)))
  }
}
