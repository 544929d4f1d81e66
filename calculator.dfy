/**
 * The trade calculator of src/lib/calculator.ts: base metrics of a trade,
 * per-target and total take-profit metrics, and the Average True Range.
 * The journal statistics of the same file are in module Performance.
 */
module Calculator {
  import opened Common
  import opened Types

  /** `fees.div(100)`: the fee rate as a fraction. */
  function FeeFactor(v: TradeValues): real
  {
    v.fees / 100.0
  }

  /** `|entry - stop-loss|`: what one unit loses when the stop-loss is hit. */
  function RiskPerUnit(v: TradeValues): real
  {
    Abs(v.entryPrice - v.stopLossPrice)
  }

  // ---------------------------------------------------------------------
  // Base metrics
  // ---------------------------------------------------------------------

  /**
   * `calculateBaseMetrics`: position size from the risked amount, margin,
   * fees, net loss at the stop-loss, break-even and liquidation price.
   * `None` when the stop-loss sits at the entry price.
   */
  function CalculateBaseMetrics(v: TradeValues, tradeType: TradeType): (r: Option<BaseMetrics>)
    ensures r.None? <==> v.entryPrice == v.stopLossPrice
    ensures r.Some? ==> r.value.riskAmount == v.accountSize * v.riskPercentage / 100.0
  {
    var riskAmount := v.accountSize * (v.riskPercentage / 100.0);
    var riskPerUnit := Abs(v.entryPrice - v.stopLossPrice);
    if riskPerUnit == 0.0 then None
    else
      var positionSize := riskAmount / riskPerUnit;
      var orderVolume := positionSize * v.entryPrice;
      var requiredMargin := if v.leverage > 0.0 then orderVolume / v.leverage else orderVolume;
      var entryFee := orderVolume * (v.fees / 100.0);
      var slExitFee := positionSize * v.stopLossPrice * (v.fees / 100.0);
      var netLoss := riskAmount + entryFee + slExitFee;
      var feeFactor := v.fees / 100.0;
      var breakEvenPrice :=
        if tradeType == Long then
          (if 1.0 - feeFactor == 0.0 then PosInf else Fin(v.entryPrice * (feeFactor + 1.0) / (1.0 - feeFactor)))
        else DecimalDiv(v.entryPrice * (1.0 - feeFactor), feeFactor + 1.0);
      var liquidation :=
        if v.leverage > 0.0 then
          (if tradeType == Long then v.entryPrice * (1.0 - 1.0 / v.leverage)
           else v.entryPrice * (1.0 + 1.0 / v.leverage))
        else 0.0;
      Some(BaseMetrics(positionSize, requiredMargin, netLoss, breakEvenPrice, liquidation, entryFee, riskAmount))
  }

  lemma DivMul(a: real, b: real)
    requires b != 0.0
    ensures (a / b) * b == a
  {
  }

  /** The position is sized so that hitting the stop-loss loses exactly the risk amount. */
  lemma PositionSizeMatchesRisk(v: TradeValues, tradeType: TradeType)
    requires v.entryPrice != v.stopLossPrice
    ensures var m := CalculateBaseMetrics(v, tradeType).value;
      m.positionSize * RiskPerUnit(v) == m.riskAmount
  {
    var m := CalculateBaseMetrics(v, tradeType).value;
    assert m.positionSize == m.riskAmount / RiskPerUnit(v);
    DivMul(m.riskAmount, RiskPerUnit(v));
  }

  /** Net loss = risk amount + the fee paid on entry + the fee paid on exit at the stop-loss. */
  lemma NetLossDecomposition(v: TradeValues, tradeType: TradeType)
    requires v.entryPrice != v.stopLossPrice
    ensures var m := CalculateBaseMetrics(v, tradeType).value;
      && m.entryFee == m.positionSize * v.entryPrice * FeeFactor(v)
      && m.netLoss == m.riskAmount + m.entryFee + m.positionSize * v.stopLossPrice * FeeFactor(v)
  {
  }

  /** The margin is the order volume divided by the leverage, or the whole volume without leverage. */
  lemma MarginFromLeverage(v: TradeValues, tradeType: TradeType)
    requires v.entryPrice != v.stopLossPrice
    ensures var m := CalculateBaseMetrics(v, tradeType).value;
      && (v.leverage > 0.0 ==> m.requiredMargin * v.leverage == m.positionSize * v.entryPrice)
      && (v.leverage <= 0.0 ==> m.requiredMargin == m.positionSize * v.entryPrice)
  {
    var m := CalculateBaseMetrics(v, tradeType).value;
    if v.leverage > 0.0 {
      DivMul(m.positionSize * v.entryPrice, v.leverage);
    }
  }

  /** The liquidation price lies 1/leverage of the entry price against the trade; 0 without leverage. */
  lemma LiquidationPrice(v: TradeValues, tradeType: TradeType)
    requires v.entryPrice != v.stopLossPrice
    ensures var m := CalculateBaseMetrics(v, tradeType).value;
      && (v.leverage <= 0.0 ==> m.estimatedLiquidationPrice == 0.0)
      && (v.leverage > 0.0 && tradeType == Long ==> m.estimatedLiquidationPrice == v.entryPrice - v.entryPrice / v.leverage)
      && (v.leverage > 0.0 && tradeType != Long ==> m.estimatedLiquidationPrice == v.entryPrice + v.entryPrice / v.leverage)
  {
  }

  /**
   * Break-even: closing there pays back both fees. For a long the price is
   * infinite when the fee rate is 100 %; for a short it is not finite when
   * the fee rate is -100 %.
   */
  lemma BreakEvenCoversFees(v: TradeValues, tradeType: TradeType)
    requires v.entryPrice != v.stopLossPrice
    ensures var m := CalculateBaseMetrics(v, tradeType).value;
      && (tradeType == Long ==>
            (m.breakEvenPrice == PosInf <==> FeeFactor(v) == 1.0)
            && (FeeFactor(v) != 1.0 ==>
                  (m.breakEvenPrice.Fin? && m.breakEvenPrice.r * (1.0 - FeeFactor(v)) == v.entryPrice * (1.0 + FeeFactor(v)))))
      && (tradeType != Long ==>
            (m.breakEvenPrice.Fin? <==> FeeFactor(v) != -1.0)
            && (m.breakEvenPrice.Fin? ==> m.breakEvenPrice.r * (1.0 + FeeFactor(v)) == v.entryPrice * (1.0 - FeeFactor(v))))
  {
    var m := CalculateBaseMetrics(v, tradeType).value;
    var f := FeeFactor(v);
    if tradeType == Long {
      if f != 1.0 {
        DivMul(v.entryPrice * (f + 1.0), 1.0 - f);
      }
    } else if f != -1.0 {
      DivMul(v.entryPrice * (1.0 - f), f + 1.0);
    }
  }

  /** With non-negative inputs and fees, the net loss at the stop-loss is never below the risk amount. */
  lemma NetLossCoversRisk(v: TradeValues, tradeType: TradeType)
    requires v.entryPrice != v.stopLossPrice
    requires v.accountSize >= 0.0 && v.riskPercentage >= 0.0 && v.fees >= 0.0
    requires v.entryPrice >= 0.0 && v.stopLossPrice >= 0.0
    ensures CalculateBaseMetrics(v, tradeType).Some?
    ensures CalculateBaseMetrics(v, tradeType).value.netLoss >= CalculateBaseMetrics(v, tradeType).value.riskAmount
  {
    var m := CalculateBaseMetrics(v, tradeType).value;
    NetLossDecomposition(v, tradeType);
    NonNegProduct(v.accountSize, v.riskPercentage);
    assert m.positionSize == m.riskAmount / RiskPerUnit(v);
    NonNegQuotient(m.riskAmount, RiskPerUnit(v));
    NonNegProduct(m.positionSize, v.entryPrice);
    NonNegProduct(m.positionSize * v.entryPrice, FeeFactor(v));
    NonNegProduct(m.positionSize, v.stopLossPrice);
    NonNegProduct(m.positionSize * v.stopLossPrice, FeeFactor(v));
  }

  lemma NonNegProduct(a: real, b: real)
    requires a >= 0.0 && b >= 0.0
    ensures a * b >= 0.0
  {
  }

  lemma NonNegQuotient(a: real, b: real)
    requires a >= 0.0 && b > 0.0
    ensures a / b >= 0.0
  {
  }

  // The two worked examples of src/lib/calculator.test.ts: account 1000, risk 1 %,
  // entry 100, leverage 10, fees 0.1 %, stop-loss 99 (long) or 101 (short).
  function ExampleValues(stopLoss: real): TradeValues
  {
    TradeValues(1000.0, 1.0, 100.0, 10.0, 0.1, "BTCUSDT", false, 0.0, 0.0, stopLoss, [], 0.0)
  }

  lemma LongBaseMetricsExample()
    ensures var m := CalculateBaseMetrics(ExampleValues(99.0), Long);
      && m.Some?
      && m.value.positionSize == 10.0
      && m.value.requiredMargin == 100.0
      && m.value.netLoss == 11.99
      && m.value.estimatedLiquidationPrice == 90.0
      && m.value.breakEvenPrice.Fin? && 100.195 <= m.value.breakEvenPrice.r < 100.205
  {
  }

  lemma ShortBaseMetricsExample()
    ensures var m := CalculateBaseMetrics(ExampleValues(101.0), Short);
      && m.Some?
      && m.value.positionSize == 10.0
      && m.value.requiredMargin == 100.0
      && m.value.netLoss == 12.01
      && m.value.estimatedLiquidationPrice == 110.0
      && m.value.breakEvenPrice.Fin? && 99.795 <= m.value.breakEvenPrice.r < 99.805
  {
  }

  // ---------------------------------------------------------------------
  // One take-profit target
  // ---------------------------------------------------------------------

  /** `positionSize × percent / 100`: the units one target sells. */
  function PartVolume(m: BaseMetrics, percent: real): real
  {
    m.positionSize * (percent / 100.0)
  }

  /** The exit fee paid on the units sold at `tpPrice`. */
  function TpExitFee(tpPrice: real, percent: real, m: BaseMetrics, v: TradeValues): real
  {
    PartVolume(m, percent) * tpPrice * FeeFactor(v)
  }

  /** The entry fee attributable to the units sold at one target. */
  function TpEntryFee(percent: real, m: BaseMetrics, v: TradeValues): real
  {
    PartVolume(m, percent) * v.entryPrice * FeeFactor(v)
  }

  /** Gross gain of the units sold at `tpPrice`, less their entry and exit fees. */
  function TpNetProfit(tpPrice: real, percent: real, m: BaseMetrics, v: TradeValues): real
  {
    Abs(tpPrice - v.entryPrice) * PartVolume(m, percent) - TpEntryFee(percent, m, v) - TpExitFee(tpPrice, percent, m, v)
  }

  /**
   * `calculateIndividualTp`: profit, reward-to-risk ratio, price change and
   * return on capital of selling `percent` % of the position at `tpPrice`.
   */
  function CalculateIndividualTp(tpPrice: real, percent: real, m: BaseMetrics, v: TradeValues, index: nat, tradeType: TradeType)
    : (r: IndividualTpResult)
    ensures r.partialVolume * 100.0 == m.positionSize * percent
    ensures r.netProfit + r.exitFee + TpEntryFee(percent, m, v) == Abs(tpPrice - v.entryPrice) * r.partialVolume
    ensures r.netProfit == TpNetProfit(tpPrice, percent, m, v) && r.exitFee == TpExitFee(tpPrice, percent, m, v)
    ensures r.index == index && r.percentSold == percent
  {
    var gainPerUnit := Abs(tpPrice - v.entryPrice);
    var positionPart := PartVolume(m, percent);
    var netProfit := TpNetProfit(tpPrice, percent, m, v);
    var riskPerUnit := RiskPerUnit(v);
    var riskRewardRatio := if riskPerUnit > 0.0 then gainPerUnit / riskPerUnit else 0.0;
    var priceChangePercent :=
      if v.entryPrice > 0.0 then
        (if tradeType == Long then (tpPrice - v.entryPrice) / v.entryPrice * 100.0
         else (v.entryPrice - tpPrice) / v.entryPrice * 100.0)
      else 0.0;
    var partialROC := if m.requiredMargin > 0.0 then netProfit / m.requiredMargin * 100.0 else 0.0;
    IndividualTpResult(netProfit, riskRewardRatio, priceChangePercent, partialROC, positionPart,
      TpExitFee(tpPrice, percent, m, v), index, percent)
  }

  /**
   * The ratios of one target: reward-to-risk is the gain per unit in units
   * of the risk per unit, the price change is signed by the direction, the
   * return on capital is the net profit over the margin; each is 0 where
   * its divisor is not positive.
   */
  lemma TpRatios(tpPrice: real, percent: real, m: BaseMetrics, v: TradeValues, index: nat, tradeType: TradeType)
    ensures var r := CalculateIndividualTp(tpPrice, percent, m, v, index, tradeType);
      && (RiskPerUnit(v) > 0.0 ==> r.riskRewardRatio * RiskPerUnit(v) == Abs(tpPrice - v.entryPrice))
      && (RiskPerUnit(v) == 0.0 ==> r.riskRewardRatio == 0.0)
      && (v.entryPrice > 0.0 ==>
            r.priceChangePercent * v.entryPrice == 100.0 * (if tradeType == Long then tpPrice - v.entryPrice else v.entryPrice - tpPrice))
      && (v.entryPrice <= 0.0 ==> r.priceChangePercent == 0.0)
      && (m.requiredMargin > 0.0 ==> r.partialROC * m.requiredMargin == 100.0 * r.netProfit)
      && (m.requiredMargin <= 0.0 ==> r.partialROC == 0.0)
  {
    var r := CalculateIndividualTp(tpPrice, percent, m, v, index, tradeType);
    if RiskPerUnit(v) > 0.0 {
      DivMul(Abs(tpPrice - v.entryPrice), RiskPerUnit(v));
    }
    if v.entryPrice > 0.0 {
      var d := if tradeType == Long then tpPrice - v.entryPrice else v.entryPrice - tpPrice;
      assert r.priceChangePercent == d / v.entryPrice * 100.0;
      DivMul(d, v.entryPrice);
    }
    if m.requiredMargin > 0.0 {
      assert r.partialROC == r.netProfit / m.requiredMargin * 100.0;
      DivMul(r.netProfit, m.requiredMargin);
    }
  }

  /** Without fees a target nets exactly its gross gain; with non-negative fees and prices it nets no more. */
  lemma TpFeesOnlyReduceProfit(tpPrice: real, percent: real, m: BaseMetrics, v: TradeValues)
    requires m.positionSize >= 0.0 && percent >= 0.0 && tpPrice >= 0.0 && v.entryPrice >= 0.0
    ensures v.fees == 0.0 ==> TpNetProfit(tpPrice, percent, m, v) == Abs(tpPrice - v.entryPrice) * PartVolume(m, percent)
    ensures v.fees >= 0.0 ==> TpNetProfit(tpPrice, percent, m, v) <= Abs(tpPrice - v.entryPrice) * PartVolume(m, percent)
  {
    var part := PartVolume(m, percent);
    var f := FeeFactor(v);
    assert part >= 0.0;
    if v.fees >= 0.0 {
      assert part * tpPrice >= 0.0;
      assert TpExitFee(tpPrice, percent, m, v) == (part * tpPrice) * f;
      assert part * v.entryPrice >= 0.0;
      assert TpEntryFee(percent, m, v) == (part * v.entryPrice) * f;
    }
  }

  /** The worked example of src/lib/calculator.test.ts: half of 10 units sold at 105 after entering at 100. */
  lemma IndividualTpExample()
    ensures var m := BaseMetrics(10.0, 100.0, 10.0, Fin(100.2), 90.0, 1.0, 10.0);
      var r := CalculateIndividualTp(105.0, 50.0, m, ExampleValues(99.0), 0, Long);
      && r.netProfit == 23.975
      && r.riskRewardRatio == 5.0
      && r.priceChangePercent == 5.0
      && r.partialROC == 23.975
      && r.partialVolume == 5.0
  {
  }

  // ---------------------------------------------------------------------
  // Totals over all targets
  // ---------------------------------------------------------------------

  /** Whether the loop of `calculateTotalMetrics` sells at target `tp` after `sold` % are gone. */
  predicate Processes(tp: Target, sold: real)
  {
    tp.price > 0.0 && tp.percent > 0.0 && sold < 100.0
  }

  /** The percent a target sells once `sold` % are gone: its own percent capped by what is left. */
  function Allocation(tp: Target, sold: real): real
  {
    if Processes(tp, sold) then Min(tp.percent, 100.0 - sold) else 0.0
  }

  /** Cumulative percent sold at the targets after the loop has seen `ts`. */
  function SoldAtTargets(ts: seq<Target>): real
  {
    if ts == [] then 0.0
    else
      var sold := SoldAtTargets(ts[..|ts| - 1]);
      sold + Allocation(ts[|ts| - 1], sold)
  }

  /** Net profit summed over the targets the loop sells at. */
  function TargetsNetProfit(ts: seq<Target>, m: BaseMetrics, v: TradeValues): real
  {
    if ts == [] then 0.0
    else
      var init := ts[..|ts| - 1];
      var tp := ts[|ts| - 1];
      TargetsNetProfit(init, m, v)
      + if Processes(tp, SoldAtTargets(init)) then TpNetProfit(tp.price, Allocation(tp, SoldAtTargets(init)), m, v) else 0.0
  }

  /** Exit fees summed over the targets the loop sells at. */
  function TargetsExitFees(ts: seq<Target>, m: BaseMetrics, v: TradeValues): real
  {
    if ts == [] then 0.0
    else
      var init := ts[..|ts| - 1];
      var tp := ts[|ts| - 1];
      TargetsExitFees(init, m, v)
      + if Processes(tp, SoldAtTargets(init)) then TpExitFee(tp.price, Allocation(tp, SoldAtTargets(init)), m, v) else 0.0
  }

  /** Units sold at the targets the loop sells at. */
  function TargetsVolume(ts: seq<Target>, m: BaseMetrics): real
  {
    if ts == [] then 0.0
    else
      var init := ts[..|ts| - 1];
      var tp := ts[|ts| - 1];
      TargetsVolume(init, m)
      + if Processes(tp, SoldAtTargets(init)) then PartVolume(m, Allocation(tp, SoldAtTargets(init))) else 0.0
  }

  /** Units of the `pct` % of the position that are left to the stop-loss. */
  function SlVolume(m: BaseMetrics, pct: real): real
  {
    if pct > 0.0 then PartVolume(m, pct) else 0.0
  }

  /** Loss of the stop-loss remainder: gross loss + its entry fee + its exit fee. */
  function SlNetLoss(m: BaseMetrics, v: TradeValues, pct: real): real
  {
    if pct > 0.0 then
      var part := PartVolume(m, pct);
      RiskPerUnit(v) * part + part * v.entryPrice * FeeFactor(v) + part * v.stopLossPrice * FeeFactor(v)
    else 0.0
  }

  /** Exit fee paid on the stop-loss remainder. */
  function SlExitFee(m: BaseMetrics, v: TradeValues, pct: real): real
  {
    if pct > 0.0 then PartVolume(m, pct) * v.stopLossPrice * FeeFactor(v) else 0.0
  }

  /** `q` is `scale × a / b` when `b > 0`, and 0 otherwise. */
  predicate IsRatio(q: real, a: real, b: real, scale: real)
  {
    && (b > 0.0 ==> q * b == scale * a)
    && (b <= 0.0 ==> q == 0.0)
  }

  /** `a.div(b).times(scale)` when `b > 0`, otherwise 0: the guarded ratios of `calculateTotalMetrics`. */
  function GuardedRatio(a: real, b: real, scale: real): (q: real)
    ensures IsRatio(q, a, b, scale)
  {
    if b > 0.0 then
      DivMul(a, b);
      a / b * scale
    else 0.0
  }

  /** The totals of `calculateTotalMetrics` as a value, for callers that are functions. */
  function TotalMetricsOf(targets: seq<Target>, m: BaseMetrics, v: TradeValues): TotalMetrics
  {
    var sold := SoldAtTargets(targets);
    var net := TargetsNetProfit(targets, m, v) - SlNetLoss(m, v, 100.0 - sold);
    TotalMetrics(
      net, GuardedRatio(net, m.netLoss, 1.0),
      m.entryFee + TargetsExitFees(targets, m, v) + SlExitFee(m, v, 100.0 - sold),
      m.riskAmount, GuardedRatio(net, m.requiredMargin, 100.0))
  }

  /**
   * `calculateTotalMetrics`: sells at the targets in order until 100 % are
   * gone, charges whatever remains at the stop-loss, and totals the result.
   */
  method CalculateTotalMetrics(targets: seq<Target>, m: BaseMetrics, v: TradeValues, tradeType: TradeType)
    returns (r: TotalMetrics)
    ensures r == TotalMetricsOf(targets, m, v)
    ensures var sold := SoldAtTargets(targets);
      && r.totalNetProfit == TargetsNetProfit(targets, m, v) - SlNetLoss(m, v, 100.0 - sold)
      && r.totalFees == m.entryFee + TargetsExitFees(targets, m, v) + SlExitFee(m, v, 100.0 - sold)
    ensures IsRatio(r.totalRR, r.totalNetProfit, m.netLoss, 1.0)
    ensures IsRatio(r.totalROC, r.totalNetProfit, m.requiredMargin, 100.0)
    ensures r.riskAmount == m.riskAmount
  {
    var totalPercentSoldAtTp, netProfitAtTp, feesAtTp := SellAtTargets(targets, m, v, tradeType);
    var totalNetProfit, totalFees := ChargeStopLoss(100.0 - totalPercentSoldAtTp, netProfitAtTp, feesAtTp, m, v);
    var totalRR := GuardedRatio(totalNetProfit, m.netLoss, 1.0);
    var totalROC := GuardedRatio(totalNetProfit, m.requiredMargin, 100.0);
    r := TotalMetrics(totalNetProfit, totalRR, totalFees, m.riskAmount, totalROC);
  }

  /** The target loop of `calculateTotalMetrics`; the fee total starts from the entry fee. */
  method SellAtTargets(targets: seq<Target>, m: BaseMetrics, v: TradeValues, tradeType: TradeType)
    returns (totalPercentSoldAtTp: real, totalNetProfit: real, totalFees: real)
    ensures totalPercentSoldAtTp == SoldAtTargets(targets)
    ensures totalNetProfit == TargetsNetProfit(targets, m, v)
    ensures totalFees == m.entryFee + TargetsExitFees(targets, m, v)
  {
    totalNetProfit := 0.0;
    totalFees := m.entryFee;
    totalPercentSoldAtTp := 0.0;
    var i := 0;
    while i < |targets|
      invariant 0 <= i <= |targets|
      invariant totalPercentSoldAtTp == SoldAtTargets(targets[..i])
      invariant totalNetProfit == TargetsNetProfit(targets[..i], m, v)
      invariant totalFees == m.entryFee + TargetsExitFees(targets[..i], m, v)
    {
      assert targets[..i + 1][..i] == targets[..i];
      totalPercentSoldAtTp, totalNetProfit, totalFees :=
        SellAtTarget(targets[i], i, totalPercentSoldAtTp, totalNetProfit, totalFees, m, v, tradeType);
      i := i + 1;
    }
    assert targets[..|targets|] == targets;
  }

  /** One pass of the target loop: sell at `tp` if it qualifies, after `sold` % are gone. */
  method SellAtTarget(tp: Target, index: nat, sold: real, netProfit: real, fees: real, m: BaseMetrics, v: TradeValues, tradeType: TradeType)
    returns (sold': real, netProfit': real, fees': real)
    ensures sold' == sold + Allocation(tp, sold)
    ensures netProfit' == netProfit + if Processes(tp, sold) then TpNetProfit(tp.price, Allocation(tp, sold), m, v) else 0.0
    ensures fees' == fees + if Processes(tp, sold) then TpExitFee(tp.price, Allocation(tp, sold), m, v) else 0.0
  {
    sold', netProfit', fees' := sold, netProfit, fees;
    if tp.price > 0.0 && tp.percent > 0.0 && sold < 100.0 {
      var remainingPercent := 100.0 - sold;
      var percentToProcess := Min(tp.percent, remainingPercent);
      assert percentToProcess == Allocation(tp, sold);
      var individual := CalculateIndividualTp(tp.price, percentToProcess, m, v, index, tradeType);
      netProfit' := netProfit + individual.netProfit;
      fees' := fees + individual.exitFee;
      sold' := sold + percentToProcess;
    }
  }

  /** The stop-loss step of `calculateTotalMetrics`: the unsold `percentHittingSl` % closes at the stop-loss. */
  method ChargeStopLoss(percentHittingSl: real, netProfit: real, fees: real, m: BaseMetrics, v: TradeValues)
    returns (totalNetProfit: real, totalFees: real)
    ensures totalNetProfit == netProfit - SlNetLoss(m, v, percentHittingSl)
    ensures totalFees == fees + SlExitFee(m, v, percentHittingSl)
  {
    totalNetProfit, totalFees := netProfit, fees;
    if percentHittingSl > 0.0 {
      var positionPartHittingSl := m.positionSize * (percentHittingSl / 100.0);
      assert positionPartHittingSl == PartVolume(m, percentHittingSl);
      var grossLossOnSlPart := RiskPerUnit(v) * positionPartHittingSl;
      var entryFeeOnSlPart := positionPartHittingSl * v.entryPrice * FeeFactor(v);
      var exitFeeOnSlPart := positionPartHittingSl * v.stopLossPrice * FeeFactor(v);
      assert grossLossOnSlPart + entryFeeOnSlPart + exitFeeOnSlPart == SlNetLoss(m, v, percentHittingSl);
      assert exitFeeOnSlPart == SlExitFee(m, v, percentHittingSl);
      totalFees := totalFees + exitFeeOnSlPart;
      totalNetProfit := totalNetProfit - (grossLossOnSlPart + entryFeeOnSlPart + exitFeeOnSlPart);
    }
  }

  /** The cumulative percent sold at the targets stays within [0, 100]. */
  lemma {:induction false} SoldAtTargetsBounds(ts: seq<Target>)
    ensures 0.0 <= SoldAtTargets(ts) <= 100.0
  {
    if ts != [] {
      SoldAtTargetsBounds(ts[..|ts| - 1]);
    }
  }

  /** Selling `a` % and then `b` % sells as many units as selling `a + b` %. */
  lemma PartVolumeAdditive(m: BaseMetrics, a: real, b: real)
    ensures PartVolume(m, a) + PartVolume(m, b) == PartVolume(m, a + b)
  {
  }

  /** The units sold at the targets are the percent sold at the targets, applied to the position size. */
  lemma {:induction false} TargetsVolumeMatchesSold(ts: seq<Target>, m: BaseMetrics)
    ensures TargetsVolume(ts, m) == PartVolume(m, SoldAtTargets(ts))
  {
    if ts == [] {
      assert PartVolume(m, 0.0) == 0.0;
    } else {
      var init := ts[..|ts| - 1];
      var sold := SoldAtTargets(init);
      var pct := Allocation(ts[|ts| - 1], sold);
      TargetsVolumeMatchesSold(init, m);
      PartVolumeAdditive(m, sold, pct);
      if !Processes(ts[|ts| - 1], sold) {
        assert pct == 0.0;
      }
    }
  }

  /**
   * The targets and the stop-loss remainder together account for the whole
   * position: the units sold at the targets plus the units left to the
   * stop-loss equal the position size.
   */
  lemma PositionSplitsBetweenTargetsAndStop(ts: seq<Target>, m: BaseMetrics)
    ensures TargetsVolume(ts, m) + SlVolume(m, 100.0 - SoldAtTargets(ts)) == m.positionSize
  {
    var sold := SoldAtTargets(ts);
    SoldAtTargetsBounds(ts);
    TargetsVolumeMatchesSold(ts, m);
    PartVolumeAdditive(m, sold, 100.0 - sold);
    assert PartVolume(m, 100.0) == m.positionSize;
    if sold == 100.0 {
      assert PartVolume(m, 0.0) == 0.0;
    }
  }

  /** Sum of the percents of the targets with a positive price and percent. */
  function ActivePercentSum(ts: seq<Target>): real
  {
    if ts == [] then 0.0
    else
      var last := ts[|ts| - 1];
      ActivePercentSum(ts[..|ts| - 1]) + if last.price > 0.0 && last.percent > 0.0 then last.percent else 0.0
  }

  /**
   * When the active targets ask for at most 100 % together, nothing is
   * capped: every active target sells exactly its own percent.
   */
  lemma {:induction false} NoCapWithinHundred(ts: seq<Target>)
    requires ActivePercentSum(ts) <= 100.0
    ensures SoldAtTargets(ts) == ActivePercentSum(ts)
  {
    if ts != [] {
      var init := ts[..|ts| - 1];
      assert ActivePercentSum(init) <= ActivePercentSum(ts);
      NoCapWithinHundred(init);
    }
  }

  /**
   * The worked example of src/lib/calculator.test.ts: two halves sold at
   * 105 and 110 give a net profit of 72.925, reward/risk 7.2925, fees 2.075,
   * risk 10 and a return on capital of 72.925 %, which print at two places
   * as 72.93, 7.29, 2.08, 10.00 and 72.93.
   */
  lemma TotalMetricsExample()
    ensures var m := BaseMetrics(10.0, 100.0, 10.0, Fin(100.2), 90.0, 1.0, 10.0);
      var ts := [Target(105.0, 50.0, false), Target(110.0, 50.0, false)];
      && SoldAtTargets(ts) == 100.0
      && TotalMetricsOf(ts, m, ExampleValues(99.0)) == TotalMetrics(72.925, 7.2925, 2.075, 10.0, 72.925)
  {
    var m := BaseMetrics(10.0, 100.0, 10.0, Fin(100.2), 90.0, 1.0, 10.0);
    var ts := [Target(105.0, 50.0, false), Target(110.0, 50.0, false)];
    assert ts[..1] == [Target(105.0, 50.0, false)];
    assert ts[..1][..0] == [];
    var v := ExampleValues(99.0);
    assert TargetsNetProfit(ts, m, v) - SlNetLoss(m, v, 0.0) == 72.925;
    assert m.entryFee + TargetsExitFees(ts, m, v) + SlExitFee(m, v, 0.0) == 2.075;
  }
  // ---------------------------------------------------------------------
  // Average True Range
  // ---------------------------------------------------------------------

  /** One candlestick. */
  datatype Kline = Kline(open: real, high: real, low: real, close: real)

  /** The true range of candle `k` after candle `prev`: the largest of the three spans. */
  function TrueRange(prev: Kline, k: Kline): (tr: real)
    ensures tr >= k.high - k.low && tr >= Abs(k.high - prev.close) && tr >= Abs(k.low - prev.close)
    ensures tr == k.high - k.low || tr == Abs(k.high - prev.close) || tr == Abs(k.low - prev.close)
  {
    Max(Max(k.high - k.low, Abs(k.high - prev.close)), Abs(k.low - prev.close))
  }

  /** The true ranges of every candle after the first, in order. */
  function TrueRanges(ks: seq<Kline>): (trs: seq<real>)
    ensures |trs| == if |ks| == 0 then 0 else |ks| - 1
  {
    if |ks| <= 1 then [] else TrueRanges(ks[..|ks| - 1]) + [TrueRange(ks[|ks| - 2], ks[|ks| - 1])]
  }

  /** The `i`-th true range belongs to candle `i + 1` and its predecessor. */
  lemma {:induction false} TrueRangesAt(ks: seq<Kline>)
    ensures forall i :: 0 <= i < |TrueRanges(ks)| ==> TrueRanges(ks)[i] == TrueRange(ks[i], ks[i + 1])
  {
    if |ks| > 1 {
      var init := ks[..|ks| - 1];
      TrueRangesAt(init);
      assert forall i :: 0 <= i < |init| ==> init[i] == ks[i];
    }
  }

  lemma TrueRangesSnoc(ks: seq<Kline>, i: nat)
    requires 1 <= i < |ks|
    ensures TrueRanges(ks[..i + 1]) == TrueRanges(ks[..i]) + [TrueRange(ks[i - 1], ks[i])]
  {
    assert ks[..i + 1][..i] == ks[..i];
  }

  /** Wilder's smoothing: each further true range moves the average by 1/period of the difference. */
  function WilderSmooth(init: real, trs: seq<real>, period: nat): real
    requires period >= 1
  {
    if trs == [] then init
    else SmoothStep(WilderSmooth(init, trs[..|trs| - 1], period), trs[|trs| - 1], period)
  }

  /** One step of Wilder's smoothing: `(atr × (period - 1) + tr) / period`. */
  function SmoothStep(atr: real, tr: real, period: nat): (next: real)
    requires period >= 1
    // the new average lies between the old one and the new true range
    ensures atr <= tr ==> atr <= next <= tr
    ensures tr <= atr ==> tr <= next <= atr
  {
    StepBetween(atr, tr, period);
    (atr * ((period - 1) as real) + tr) / (period as real)
  }

  lemma StepBetween(atr: real, tr: real, period: nat)
    requires period >= 1
    ensures var next := (atr * ((period - 1) as real) + tr) / (period as real);
      && (atr <= tr ==> atr <= next <= tr)
      && (tr <= atr ==> tr <= next <= atr)
  {
    var p := period as real;
    var next := (atr * (p - 1.0) + tr) / p;
    DivMul(atr * (p - 1.0) + tr, p);
    assert next * p == atr * p + (tr - atr);
  }

  /**
   * The ATR: the mean of the first `period` true ranges, then Wilder's
   * smoothing over the rest; 0 without `period + 1` candles.
   */
  function Atr(ks: seq<Kline>, period: nat): (a: real)
    requires period >= 1
    ensures |ks| < period + 1 ==> a == 0.0
  {
    if |ks| < period + 1 then 0.0
    else
      var trs := TrueRanges(ks);
      WilderSmooth(Sum(trs[..period]) / (period as real), trs[period..], period)
  }

  /**
   * `calculateATR`. The source's second guard (fewer than `period` true
   * ranges) cannot fire after the first one and has no counterpart here.
   */
  method CalculateAtr(klines: seq<Kline>, period: nat) returns (atr: real)
    requires period >= 1
    ensures atr == Atr(klines, period)
  {
    if |klines| < period + 1 {
      return 0.0;
    }
    var trueRanges := CollectTrueRanges(klines);
    var sum := SumPrefix(trueRanges, period);
    atr := SmoothFrom(sum / (period as real), trueRanges, period);
  }

  /** Step 1 of `calculateATR`: the true range of every candle after the first. */
  method CollectTrueRanges(klines: seq<Kline>) returns (trueRanges: seq<real>)
    requires |klines| >= 1
    ensures trueRanges == TrueRanges(klines)
  {
    trueRanges := [];
    var i := 1;
    while i < |klines|
      invariant 1 <= i <= |klines|
      invariant trueRanges == TrueRanges(klines[..i])
    {
      var kline := klines[i];
      var prevKline := klines[i - 1];
      var highLow := kline.high - kline.low;
      var highPrevClose := Abs(kline.high - prevKline.close);
      var lowPrevClose := Abs(kline.low - prevKline.close);
      var trueRange := Max(Max(highLow, highPrevClose), lowPrevClose);
      TrueRangesSnoc(klines, i);
      trueRanges := trueRanges + [trueRange];
      i := i + 1;
    }
    assert klines[..|klines|] == klines;
  }

  /** Step 2 of `calculateATR`: the `reduce` that sums the first `n` true ranges. */
  method SumPrefix(trueRanges: seq<real>, n: nat) returns (sum: real)
    requires n <= |trueRanges|
    ensures sum == Sum(trueRanges[..n])
  {
    sum := 0.0;
    var j := 0;
    while j < n
      invariant 0 <= j <= n
      invariant sum == Sum(trueRanges[..j])
    {
      assert trueRanges[..j + 1][..j] == trueRanges[..j];
      sum := sum + trueRanges[j];
      j := j + 1;
    }
  }

  /** Step 3 of `calculateATR`: Wilder's smoothing over the true ranges after the first `period`. */
  method SmoothFrom(init: real, trueRanges: seq<real>, period: nat) returns (atr: real)
    requires 1 <= period <= |trueRanges|
    ensures atr == WilderSmooth(init, trueRanges[period..], period)
  {
    atr := init;
    var k := period;
    while k < |trueRanges|
      invariant period <= k <= |trueRanges|
      invariant atr == WilderSmooth(init, trueRanges[period..k], period)
    {
      assert trueRanges[period..k + 1][..k - period] == trueRanges[period..k];
      atr := SmoothStep(atr, trueRanges[k], period);
      k := k + 1;
    }
    assert trueRanges[period..k] == trueRanges[period..];
  }

  lemma MulDiv(c: real, p: real)
    requires p != 0.0
    ensures (p * c) / p == c
  {
  }

  lemma {:induction false} SumOfConstant(s: seq<real>, c: real)
    requires forall i :: 0 <= i < |s| ==> s[i] == c
    ensures Sum(s) == (|s| as real) * c
  {
    if s != [] {
      SumOfConstant(s[..|s| - 1], c);
    }
  }

  lemma {:induction false} SmoothOfConstant(trs: seq<real>, c: real, period: nat)
    requires period >= 1
    requires forall i :: 0 <= i < |trs| ==> trs[i] == c
    ensures WilderSmooth(c, trs, period) == c
  {
    if trs != [] {
      SmoothOfConstant(trs[..|trs| - 1], c, period);
    }
  }

  /** When every true range equals `c`, the ATR is `c`. */
  lemma ConstantTrueRangeAtr(ks: seq<Kline>, period: nat, c: real)
    requires period >= 1 && |ks| >= period + 1
    requires forall i :: 0 <= i < |TrueRanges(ks)| ==> TrueRanges(ks)[i] == c
    ensures Atr(ks, period) == c
  {
    var trs := TrueRanges(ks);
    SmoothedAverageOfConstant(trs, period, c);
  }

  /** The first average and the smoothing after it both keep a constant true range. */
  lemma SmoothedAverageOfConstant(trs: seq<real>, period: nat, c: real)
    requires 1 <= period <= |trs|
    requires forall i :: 0 <= i < |trs| ==> trs[i] == c
    ensures WilderSmooth(Sum(trs[..period]) / (period as real), trs[period..], period) == c
  {
    var p := period as real;
    var head, tail := trs[..period], trs[period..];
    assert forall i :: 0 <= i < |head| ==> head[i] == c;
    SumOfConstant(head, c);
    assert Sum(head) == p * c;
    MulDiv(c, p);
    assert Sum(head) / p == c;
    assert forall i :: 0 <= i < |tail| ==> tail[i] == c;
    SmoothOfConstant(tail, c, period);
  }
}
