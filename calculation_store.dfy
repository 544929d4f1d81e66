/**
 * The derived store of src/stores/calculationStore.ts: from the trade
 * inputs to a result record, by validation, then the calculator, then
 * assembling the displayed results. The pieces shared with the older
 * `calculateAndDisplay` of src/services/app.ts (reading the inputs, the
 * per-target details, the displayed results) are defined here once.
 */
module CalculationStore {
  import opened Common
  import opened Types
  import opened Utils
  import opened TradeStore
  import opened Calculator

  // ---------------------------------------------------------------------
  // Reading the inputs
  // ---------------------------------------------------------------------

  /** `x || fallback` on an input. */
  function OrDefault(x: Input, fallback: Input): Input
  {
    if Truthy(x) then x else fallback
  }

  function ParseTargets(ts: seq<TargetInput>, syn: NumberSyntax): (r: seq<Target>)
    ensures |r| == |ts|
    ensures forall i :: 0 <= i < |ts| ==>
      r[i] == Target(ParseDecimal(ts[i].price, syn), ParseDecimal(ts[i].percent, syn), ts[i].isLocked)
  {
    if ts == [] then []
    else ParseTargets(ts[..|ts| - 1], syn) + [Target(ParseDecimal(ts[|ts| - 1].price, syn), ParseDecimal(ts[|ts| - 1].percent, syn), ts[|ts| - 1].isLocked)]
  }

  /**
   * The parsed inputs both validators start from; leverage, fees and the ATR
   * multiplier fall back to their defaults when empty, the percent sold
   * starts at 0.
   */
  function ValuesOf(st: TradeState, cfg: Config, syn: NumberSyntax): TradeValues
  {
    TradeValues(
      ParseDecimal(st.accountSize, syn),
      ParseDecimal(st.riskPercentage, syn),
      ParseDecimal(st.entryPrice, syn),
      ParseDecimal(OrDefault(st.leverage, cfg.defaultLeverage), syn),
      ParseDecimal(OrDefault(st.fees, cfg.defaultFees), syn),
      st.symbol,
      st.useAtrSl,
      ParseDecimal(st.atrValue, syn),
      ParseDecimal(OrDefault(st.atrMultiplier, cfg.defaultAtrMultiplier), syn),
      ParseDecimal(st.stopLossPrice, syn),
      ParseTargets(st.targets, syn),
      0.0)
  }

  /** The percents of the targets, summed left to right. */
  function PercentSum(ts: seq<Target>): real
  {
    if ts == [] then 0.0 else PercentSum(ts[..|ts| - 1]) + ts[|ts| - 1].percent
  }

  /** The stop-loss derived from the ATR: below the entry for a long, above it otherwise. */
  function AtrStopLoss(v: TradeValues, tradeType: TradeType): real
  {
    if tradeType == Long then v.entryPrice - v.atrValue * v.atrMultiplier
    else v.entryPrice + v.atrValue * v.atrMultiplier
  }

  /** What the ATR stop-loss display shows next to the inputs. */
  datatype AtrDisplay = AtrDisplay(showAtrFormulaDisplay: bool, atrFormula: Option<AtrFormula>, isAtrSlInvalid: bool)

  const NoAtrDisplay: AtrDisplay := AtrDisplay(false, None, false)

  function ShownFormula(v: TradeValues, tradeType: TradeType): AtrDisplay
  {
    AtrDisplay(true, Some(AtrFormula(v.entryPrice, tradeType == Long, v.atrValue, v.atrMultiplier, AtrStopLoss(v, tradeType))), false)
  }

  datatype Validation =
    | Incomplete
    | Invalid(reason: InvalidReason)
    | Valid(values: TradeValues, display: AtrDisplay)

  // ---------------------------------------------------------------------
  // Validation of the derived store
  // ---------------------------------------------------------------------

  /** A required field of the derived store reads as zero: account, risk, entry, and the ATR value or the stop-loss. */
  predicate StoreRequiredMissing(v: TradeValues)
  {
    v.accountSize == 0.0 || v.riskPercentage == 0.0 || v.entryPrice == 0.0
    || (v.useAtrSl && v.atrValue == 0.0) || (!v.useAtrSl && v.stopLossPrice == 0.0)
  }

  /** With the ATR on and entry, ATR value and multiplier positive, the stop-loss is derived from them. */
  predicate DerivesStopLoss(v: TradeValues)
  {
    v.useAtrSl && v.entryPrice > 0.0 && v.atrValue > 0.0 && v.atrMultiplier > 0.0
  }

  /**
   * `getAndValidateInputs` of the derived store, after the fields are read.
   * Incomplete exactly when a required field is zero, the ATR inputs are
   * positive but the entry is not, or the stop-loss in use is not positive.
   * A valid result carries the stop-loss in use (entry ∓ ATR × multiplier
   * when derived), on the losing side of the entry, and the percents summing
   * to at most 100; anything else is invalid.
   */
  function StoreValidate(values: TradeValues, tradeType: TradeType): (r: Validation)
    ensures var sl := if DerivesStopLoss(values) then AtrStopLoss(values, tradeType) else values.stopLossPrice;
      r.Incomplete? <==>
        StoreRequiredMissing(values)
        || (values.useAtrSl && !DerivesStopLoss(values) && values.atrValue > 0.0 && values.atrMultiplier > 0.0)
        || sl <= 0.0
    ensures r.Valid? ==>
      && r.values == values.(stopLossPrice := r.values.stopLossPrice, totalPercentSold := r.values.totalPercentSold)
      && r.values.stopLossPrice > 0.0
      && (DerivesStopLoss(values) ==> r.values.stopLossPrice == AtrStopLoss(values, tradeType) && r.display.showAtrFormulaDisplay)
      && (!DerivesStopLoss(values) ==> r.values.stopLossPrice == values.stopLossPrice && r.display == NoAtrDisplay)
      && (tradeType == Long ==> r.values.entryPrice > r.values.stopLossPrice)
      && (tradeType == Short ==> r.values.entryPrice < r.values.stopLossPrice)
      && r.values.totalPercentSold == PercentSum(values.targets) <= 100.0
    ensures var sl := if DerivesStopLoss(values) then AtrStopLoss(values, tradeType) else values.stopLossPrice;
      !r.Incomplete? ==>
        (r.Valid? <==>
          && (tradeType == Long ==> values.entryPrice > sl)
          && (tradeType == Short ==> values.entryPrice < sl)
          && PercentSum(values.targets) <= 100.0)
  {
    if StoreRequiredMissing(values) then Incomplete
    else
      var derive := DerivesStopLoss(values);
      if values.useAtrSl && !derive && values.atrValue > 0.0 && values.atrMultiplier > 0.0 then Incomplete
      else
        var v := if derive then values.(stopLossPrice := AtrStopLoss(values, tradeType)) else values;
        var display := if derive then ShownFormula(values, tradeType) else NoAtrDisplay;
        if v.stopLossPrice <= 0.0 then Incomplete
        else if tradeType == Long && v.entryPrice <= v.stopLossPrice then Invalid(LongStopNotBelowEntry)
        else if tradeType == Short && v.entryPrice >= v.stopLossPrice then Invalid(ShortStopNotAboveEntry)
        else
          var total := PercentSum(v.targets);
          if total > 100.0 then Invalid(PercentSumAboveHundred(total))
          else Valid(v.(totalPercentSold := total), display)
  }

  // ---------------------------------------------------------------------
  // Per-target details
  // ---------------------------------------------------------------------

  predicate Active(t: Target)
  {
    t.price > 0.0 && t.percent > 0.0
  }

  /** The positions of the targets with a positive price and percent, in order. */
  function ActiveIndices(ts: seq<Target>): (idx: seq<nat>)
    ensures forall k :: 0 <= k < |idx| ==> idx[k] < |ts| && Active(ts[idx[k]])
    ensures forall k, l :: 0 <= k < l < |idx| ==> idx[k] < idx[l]
    ensures forall i :: 0 <= i < |ts| && Active(ts[i]) ==> i in idx
  {
    if ts == [] then []
    else
      var n := |ts| - 1;
      var prev := ActiveIndices(ts[..n]);
      assert forall k :: 0 <= k < |prev| ==> ts[..n][prev[k]] == ts[prev[k]];
      prev + if Active(ts[n]) then [n] else []
  }

  /** The `forEach` of the calculation that collects the details of the active targets. */
  function TpDetails(ts: seq<Target>, m: BaseMetrics, v: TradeValues, tradeType: TradeType): (ds: seq<IndividualTpResult>)
    ensures |ds| == |ActiveIndices(ts)|
  {
    if ts == [] then []
    else
      var n := |ts| - 1;
      TpDetails(ts[..n], m, v, tradeType)
      + if Active(ts[n]) then [CalculateIndividualTp(ts[n].price, ts[n].percent, m, v, n, tradeType)] else []
  }

  /** `ds[k]` is the detail of target `idx[k]`, for every `k`. */
  predicate DetailsOf(ts: seq<Target>, idx: seq<nat>, ds: seq<IndividualTpResult>, m: BaseMetrics, v: TradeValues, tradeType: TradeType)
  {
    |ds| == |idx|
    && forall k :: 0 <= k < |ds| ==>
      idx[k] < |ts| && ds[k] == CalculateIndividualTp(ts[idx[k]].price, ts[idx[k]].percent, m, v, idx[k], tradeType)
  }

  /**
   * The details are exactly those of the active targets, in input order,
   * each carrying its target's position as `index`.
   */
  lemma {:induction false} TpDetailsOfActiveTargets(ts: seq<Target>, m: BaseMetrics, v: TradeValues, tradeType: TradeType)
    ensures DetailsOf(ts, ActiveIndices(ts), TpDetails(ts, m, v, tradeType), m, v, tradeType)
  {
    if ts != [] {
      var n := |ts| - 1;
      TpDetailsOfActiveTargets(ts[..n], m, v, tradeType);
      var prev, prevDs := ActiveIndices(ts[..n]), TpDetails(ts[..n], m, v, tradeType);
      var idx, ds := ActiveIndices(ts), TpDetails(ts, m, v, tradeType);
      forall k | 0 <= k < |ds|
        ensures idx[k] < |ts| && ds[k] == CalculateIndividualTp(ts[idx[k]].price, ts[idx[k]].percent, m, v, idx[k], tradeType)
      {
        if k < |prev| {
          assert ds[k] == prevDs[k] && idx[k] == prev[k];
          assert ts[..n][prev[k]] == ts[prev[k]];
        } else {
          assert Active(ts[n]) && idx == prev + [n];
          assert ds == prevDs + [CalculateIndividualTp(ts[n].price, ts[n].percent, m, v, n, tradeType)];
        }
      }
    }
  }

  // ---------------------------------------------------------------------
  // Results
  // ---------------------------------------------------------------------

  /**
   * The displayed results of a successful calculation: the base metrics
   * (net loss negated, liquidation price only above leverage 1), the
   * details, the ATR display, and the totals only when some percent is sold.
   */
  function ResultsFor(v: TradeValues, m: BaseMetrics, totals: TotalMetrics, details: seq<IndividualTpResult>, display: AtrDisplay): (r: ResultsState)
    ensures r.positionSize == Some(m.positionSize) && r.netLoss == Some(-m.netLoss)
    ensures r.estimatedLiquidationPrice.Some? <==> v.leverage > 1.0
    ensures r.calculatedTpDetails == details
    ensures r.showTotalMetricsGroup <==> v.totalPercentSold > 0.0
    ensures !r.showTotalMetricsGroup ==> r.totalRR.None? && r.totalNetProfit.None? && r.totalFees.None? && r.totalROC.None?
    ensures r.showTotalMetricsGroup ==> r.totalNetProfit == Some(totals.totalNetProfit) && r.riskAmountCurrency == Some(-totals.riskAmount)
  {
    var base := InitialResultsState.(
      positionSize := Some(m.positionSize),
      requiredMargin := Some(m.requiredMargin),
      netLoss := Some(-m.netLoss),
      estimatedLiquidationPrice := if v.leverage > 1.0 then Some(m.estimatedLiquidationPrice) else None,
      breakEvenPrice := Some(m.breakEvenPrice),
      entryFee := Some(m.entryFee),
      isAtrSlInvalid := display.isAtrSlInvalid,
      showAtrFormulaDisplay := display.showAtrFormulaDisplay,
      atrFormula := display.atrFormula,
      calculatedTpDetails := details);
    if v.totalPercentSold > 0.0 then
      base.(
        totalRR := Some(totals.totalRR),
        totalNetProfit := Some(totals.totalNetProfit),
        totalPercentSold := Some(v.totalPercentSold),
        riskAmountCurrency := Some(-totals.riskAmount),
        totalFees := Some(totals.totalFees),
        totalROC := Some(totals.totalROC),
        showTotalMetricsGroup := true)
    else base
  }

  /** The record the derived store publishes. */
  datatype CalculationResult = CalculationResult(results: ResultsState, error: Option<Message>, currentTradeData: Option<CurrentTradeData>)

  function ReturnError(m: Message): CalculationResult
  {
    CalculationResult(InitialResultsState, Some(m), None)
  }

  /**
   * `calculationStore`: an error record (initial results, no trade data)
   * for incomplete or invalid input and for a trade without a positive
   * position size; otherwise the results and the trade data of the
   * calculation, never a mix of the two.
   */
  function Calculate(st: TradeState, cfg: Config, syn: NumberSyntax): (r: CalculationResult)
    ensures r.error.Some? <==> r.currentTradeData.None?
    ensures r.error.Some? ==> r.results == InitialResultsState
    ensures StoreValidate(ValuesOf(st, cfg, syn), st.tradeType).Incomplete? <==> r.error == Some(PromptForData)
    ensures r.currentTradeData.Some? ==>
      var d := r.currentTradeData.value;
      var val := StoreValidate(ValuesOf(st, cfg, syn), st.tradeType);
      && val.Valid? && val.values == d.values
      && CalculateBaseMetrics(d.values, st.tradeType) == Some(d.baseMetrics)
      && d.baseMetrics.positionSize > 0.0
      && d.totalMetrics == TotalMetricsOf(d.values.targets, d.baseMetrics, d.values)
      && d.calculatedTpDetails == r.results.calculatedTpDetails
      && d.status == Open && d.tradeType == st.tradeType
  {
    match StoreValidate(ValuesOf(st, cfg, syn), st.tradeType)
    case Incomplete => ReturnError(PromptForData)
    case Invalid(reason) => ReturnError(InvalidInput(reason))
    case Valid(values, display) =>
      var base := CalculateBaseMetrics(values, st.tradeType);
      if base.None? || base.value.positionSize <= 0.0 then ReturnError(InvalidTradeParameters)
      else
        var m := base.value;
        var details := TpDetails(values.targets, m, values, st.tradeType);
        var totals := TotalMetricsOf(values.targets, m, values);
        CalculationResult(
          ResultsFor(values, m, totals, details, display), None,
          Some(CurrentTradeData(values, m, totals, st.tradeType, Open, details)))
  }
}
