/**
 * Record shapes shared by the calculator, the stores and the journal
 * (src/stores/types.ts and src/stores/resultsStore.ts). Every decimal.js
 * field is an exact `real`.
 */
module Types {
  import opened Common

  /** One take-profit row after parsing: price, share of the position in percent, lock flag. */
  datatype Target = Target(price: real, percent: real, isLocked: bool)

  /** The parsed inputs of one calculation (`TradeValues`). */
  datatype TradeValues = TradeValues(
    accountSize: real,
    riskPercentage: real,
    entryPrice: real,
    leverage: real,
    fees: real,
    symbol: string,
    useAtrSl: bool,
    atrValue: real,
    atrMultiplier: real,
    stopLossPrice: real,
    targets: seq<Target>,
    totalPercentSold: real)

  datatype BaseMetrics = BaseMetrics(
    positionSize: real,
    requiredMargin: real,
    netLoss: real,
    breakEvenPrice: Ext,
    estimatedLiquidationPrice: real,
    entryFee: real,
    riskAmount: real)

  datatype IndividualTpResult = IndividualTpResult(
    netProfit: real,
    riskRewardRatio: real,
    priceChangePercent: real,
    partialROC: real,
    partialVolume: real,
    exitFee: real,
    index: nat,
    percentSold: real)

  datatype TotalMetrics = TotalMetrics(
    totalNetProfit: real,
    totalRR: real,
    totalFees: real,
    riskAmount: real,
    totalROC: real)

  /** The journal status string: 'Open', 'Won', 'Lost' or anything else. */
  datatype Status = Open | Won | Lost | OtherStatus(name: string)

  /** `CurrentTradeData`: the inputs, the metrics and the per-target details of the last calculation. */
  datatype CurrentTradeData = CurrentTradeData(
    values: TradeValues,
    baseMetrics: BaseMetrics,
    totalMetrics: TotalMetrics,
    tradeType: TradeType,
    status: Status,
    calculatedTpDetails: seq<IndividualTpResult>)

  /**
   * One journal entry. `date` is the ISO date string; where trades are
   * ordered by time, its timestamp is supplied by the caller. `netLoss` is
   * absent from entries imported from CSV.
   */
  datatype JournalEntry = JournalEntry(
    id: int,
    date: string,
    symbol: string,
    tradeType: TradeType,
    status: Status,
    accountSize: real,
    riskPercentage: real,
    leverage: real,
    fees: real,
    entryPrice: real,
    stopLossPrice: real,
    totalRR: real,
    totalNetProfit: real,
    realizedPnl: Option<real>,
    riskAmount: real,
    netLoss: Option<real>,
    totalFees: real,
    notes: string,
    targets: seq<Target>,
    calculatedTpDetails: seq<IndividualTpResult>)

  /** The inputs and result of the ATR stop-loss formula shown beside the stop-loss field. */
  datatype AtrFormula = AtrFormula(entryPrice: real, subtracted: bool, atrValue: real, atrMultiplier: real, stopLossPrice: real)

  /**
   * The results store. `None` stands for the `null` of an empty result,
   * `atrFormula == None` for an empty formula text.
   */
  datatype ResultsState = ResultsState(
    positionSize: Option<real>,
    requiredMargin: Option<real>,
    netLoss: Option<real>,
    entryFee: Option<real>,
    estimatedLiquidationPrice: Option<real>,
    breakEvenPrice: Option<Ext>,
    totalRR: Option<real>,
    totalNetProfit: Option<real>,
    totalPercentSold: Option<real>,
    riskAmountCurrency: Option<real>,
    totalFees: Option<real>,
    calculatedTpDetails: seq<IndividualTpResult>,
    totalROC: Option<real>,
    showTotalMetricsGroup: bool,
    showAtrFormulaDisplay: bool,
    atrFormula: Option<AtrFormula>,
    isAtrSlInvalid: bool)

  /** `initialResultsState`: every result empty, every flag off. */
  const InitialResultsState: ResultsState :=
    ResultsState(None, None, None, None, None, None, None, None, None, None, None, [], None, false, false, None, false)

  /** Why the validator rejects an input; the user sees a message built from it. */
  datatype InvalidReason =
    | LongStopNotBelowEntry
    | ShortStopNotAboveEntry
    | LongTargetNotAboveStop(price: real)
    | LongTargetNotAboveEntry(price: real)
    | ShortTargetNotBelowStop(price: real)
    | ShortTargetNotBelowEntry(price: real)
    | PercentSumAboveHundred(sum: real)

  /** The error line of the interface (`uiStore.errorMessage`). */
  datatype Message =
    | NoMessage
    | PromptForData
    | InvalidInput(reason: InvalidReason)
    | StopLossTooClose
    | PositionSizeNotLockable
    | RiskAmountNotLockable
    | InvalidTradeParameters
    | InvalidPnl
    | CsvTooShort
    | CsvMissingHeaders(missing: seq<string>)
    | CsvNoEntries

  /** The parts of `uiStore` the calculator writes. */
  datatype UiState = UiState(errorMessage: Message, showErrorMessage: bool, symbolSuggestions: seq<string>, showSymbolSuggestions: bool)

  /** `uiStore.showError`. */
  function ShowError(ui: UiState, m: Message): UiState
  {
    ui.(errorMessage := m, showErrorMessage := true)
  }

  /** `uiStore.hideError`. */
  function HideError(ui: UiState): UiState
  {
    ui.(errorMessage := NoMessage, showErrorMessage := false)
  }
}
