/**
 * The trade store of src/stores/tradeStore.ts: the input state of the
 * calculator, its initial value, and the two transitions the file defines.
 * The store is a class whose fields are the three Svelte stores the
 * application writes (trade inputs, results, interface).
 */
module TradeStore {
  import opened Common
  import opened Types
  import opened Utils

  datatype AtrMode = Manual | Auto

  /** One take-profit row as typed: price and percent may be empty. */
  datatype TargetInput = TargetInput(price: Input, percent: Input, isLocked: bool)

  /** The input part of the application state (`initialTradeState`'s fields, plus `slippage`). */
  datatype TradeState = TradeState(
    tradeType: TradeType,
    accountSize: Input,
    riskPercentage: Input,
    entryPrice: Input,
    stopLossPrice: Input,
    leverage: Input,
    fees: Input,
    slippage: Input,
    symbol: string,
    atrValue: Input,
    atrMultiplier: Input,
    useAtrSl: bool,
    atrMode: AtrMode,
    atrTimeframe: string,
    tradeNotes: string,
    targets: seq<TargetInput>,
    isPositionSizeLocked: bool,
    lockedPositionSize: Option<real>,
    isRiskAmountLocked: bool,
    riskAmount: Input,
    journalSearchQuery: string,
    journalFilterStatus: string,
    currentTradeData: Option<CurrentTradeData>)

  /**
   * The application constants the model needs. Their values live in a
   * constants file that is not part of this model, so they are parameters.
   */
  datatype Config = Config(
    defaultLeverage: Input,
    defaultFees: Input,
    defaultAtrMultiplier: Input,
    suggestedSymbols: seq<string>)

  /** `initialTradeState`. `slippage` is not among its keys, so it starts undefined. */
  function InitialTradeState(cfg: Config): (s: TradeState)
    ensures !s.isPositionSizeLocked && !s.isRiskAmountLocked
    ensures s.lockedPositionSize == None && s.riskAmount == Null
    ensures |s.targets| == 3 && forall i :: 0 <= i < 3 ==> s.targets[i].price == Null && !s.targets[i].isLocked
  {
    TradeState(
      Long, Text("1000"), Text("1"), Null, Null, cfg.defaultLeverage, cfg.defaultFees, Null, "",
      Null, cfg.defaultAtrMultiplier, false, Manual, "1d", "",
      [TargetInput(Null, Text("50"), false), TargetInput(Null, Text("25"), false), TargetInput(Null, Text("25"), false)],
      false, None, false, Null, "", "all", None)
  }

  /** The percents of the target rows, as `parseDecimal` reads them. */
  function TargetPercents(ts: seq<TargetInput>, syn: NumberSyntax): (ps: seq<real>)
    ensures |ps| == |ts|
    ensures forall i :: 0 <= i < |ts| ==> ps[i] == ParseDecimal(ts[i].percent, syn)
  {
    if ts == [] then [] else TargetPercents(ts[..|ts| - 1], syn) + [ParseDecimal(ts[|ts| - 1].percent, syn)]
  }

  /** The initial targets split the position 50/25/25, all of it. */
  lemma InitialPercentsSumToHundred(cfg: Config, syn: NumberSyntax)
    requires syn.isNumeric("50") && syn.valueOf("50") == 50.0
    requires syn.isNumeric("25") && syn.valueOf("25") == 25.0
    ensures TargetPercents(InitialTradeState(cfg).targets, syn) == [50.0, 25.0, 25.0]
    ensures Sum(TargetPercents(InitialTradeState(cfg).targets, syn)) == 100.0
  {
    InitialPercentsParse(syn);
    var ts := InitialTradeState(cfg).targets;
    assert ts[0].percent == Text("50") && ts[1].percent == Text("25") && ts[2].percent == Text("25");
    var ps := TargetPercents(ts, syn);
    assert |ps| == 3 && ps[0] == 50.0 && ps[1] == 25.0 && ps[2] == 25.0;
    ThreeItems(ps, 50.0, 25.0, 25.0);
    InitialSplitSum();
  }

  /** A sequence of three known items is their display. */
  lemma ThreeItems(ps: seq<real>, a: real, b: real, c: real)
    requires |ps| == 3 && ps[0] == a && ps[1] == b && ps[2] == c
    ensures ps == [a, b, c]
  {
  }

  /** The initial percent texts read as 50 and 25. */
  lemma InitialPercentsParse(syn: NumberSyntax)
    requires syn.isNumeric("50") && syn.valueOf("50") == 50.0
    requires syn.isNumeric("25") && syn.valueOf("25") == 25.0
    ensures ParseDecimal(Text("50"), syn) == 50.0 && ParseDecimal(Text("25"), syn) == 25.0
  {
    assert !IsJsSpace('5') && !IsJsSpace('2');
    assert "50"[0] == '5' && "25"[0] == '2';
    NumericParsesAsValue("50", syn);
    NumericParsesAsValue("25", syn);
  }

  /** 50 + 25 + 25 = 100. */
  lemma InitialSplitSum()
    ensures Sum([50.0, 25.0, 25.0]) == 100.0
  {
    var ps := [50.0, 25.0, 25.0];
    assert ps[..2] == [50.0, 25.0];
    assert ps[..2][..1] == [50.0];
    assert [50.0][..0] == [];
    assert Sum([50.0]) == 50.0;
    assert Sum([50.0, 25.0]) == 75.0;
  }

  /** The locks never hold together, and a position-size lock always carries a positive size. */
  predicate LocksConsistent(s: TradeState)
  {
    && !(s.isPositionSizeLocked && s.isRiskAmountLocked)
    && (s.isPositionSizeLocked <==> s.lockedPositionSize.Some?)
    && (s.lockedPositionSize.Some? ==> s.lockedPositionSize.value > 0.0)
  }

  /** `initialUiState`'s fields the model keeps. */
  const InitialUiState: UiState := UiState(NoMessage, false, [], false)

  /** The contents of the three stores at one moment. */
  datatype AppState = AppState(trade: TradeState, results: ResultsState, ui: UiState)

  /** The application's stores: trade inputs, results, interface state. */
  class Stores {
    var trade: TradeState
    var results: ResultsState
    var ui: UiState

    function State(): AppState
      reads this
    {
      AppState(trade, results, ui)
    }

    constructor (cfg: Config)
      ensures trade == InitialTradeState(cfg) && results == InitialResultsState && ui == InitialUiState
    {
      trade := InitialTradeState(cfg);
      results := InitialResultsState;
      ui := InitialUiState;
    }

    /**
     * `toggleAtrInputs(useAtrSl)`: sets the flag; switching it on also sets
     * the ATR mode to automatic, switching it off keeps the mode. Nothing
     * else changes.
     */
    method ToggleAtrInputs(useAtrSl: bool)
      modifies this
      ensures trade == old(trade).(useAtrSl := useAtrSl, atrMode := if useAtrSl then Auto else old(trade).atrMode)
      ensures results == old(results) && ui == old(ui)
      ensures LocksConsistent(old(trade)) ==> LocksConsistent(trade)
    {
      trade := trade.(useAtrSl := useAtrSl, atrMode := if useAtrSl then Auto else trade.atrMode);
    }

    /**
     * `resetAllInputs`: the inputs and the results return to their initial
     * values, and the prompt for data is shown.
     */
    method ResetAllInputs(cfg: Config)
      modifies this
      ensures trade == InitialTradeState(cfg) && results == InitialResultsState
      ensures ui == ShowError(old(ui), PromptForData)
      ensures LocksConsistent(trade)
    {
      trade := InitialTradeState(cfg);
      results := InitialResultsState;
      ui := ShowError(ui, PromptForData);
    }
  }
}
