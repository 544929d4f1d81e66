/**
 * The controller of src/services/app.ts: `calculateAndDisplay` with its
 * own validation and the two locks (risk amount, position size), the two
 * lock toggles, `clearResults` and the symbol suggestions. Each operation
 * is a method on the application's stores, proved equal to a function of
 * the state before it; the properties are proved about those functions.
 */
module App {
  import opened Common
  import opened Types
  import opened Utils
  import opened TradeStore
  import opened Calculator
  import CalculationStore

  // ---------------------------------------------------------------------
  // Validation of calculateAndDisplay
  // ---------------------------------------------------------------------

  datatype Verdict =
    | Incomplete
    | Invalid(reason: InvalidReason)
    | Valid(values: TradeValues)

  /** The verdict, and what the ATR stop-loss display shows whatever the verdict. */
  datatype Checked = Checked(verdict: Verdict, display: CalculationStore.AtrDisplay)

  /** A required field reads as zero: account, risk, entry, and ATR value and multiplier or the stop-loss. */
  predicate RequiredMissing(v: TradeValues)
  {
    v.accountSize == 0.0 || v.riskPercentage == 0.0 || v.entryPrice == 0.0
    || (v.useAtrSl && (v.atrValue == 0.0 || v.atrMultiplier == 0.0))
    || (!v.useAtrSl && v.stopLossPrice == 0.0)
  }

  /** A take-profit price lies on the profit side of both stop-loss and entry (short rules for any type but long). */
  predicate OnProfitSide(price: real, tradeType: TradeType, sl: real, entry: real)
  {
    if tradeType == Long then price > sl && price > entry else price < sl && price < entry
  }

  /** The message for a take-profit price on the wrong side: the stop-loss is checked before the entry. */
  function SideReason(price: real, tradeType: TradeType, sl: real): InvalidReason
  {
    if tradeType == Long then
      (if price <= sl then LongTargetNotAboveStop(price) else LongTargetNotAboveEntry(price))
    else
      (if price >= sl then ShortTargetNotBelowStop(price) else ShortTargetNotBelowEntry(price))
  }

  /**
   * The loop over the targets: the first target with a positive price on
   * the wrong side, if any; targets without a positive price are skipped.
   */
  function TargetViolation(ts: seq<Target>, tradeType: TradeType, sl: real, entry: real): (r: Option<InvalidReason>)
    ensures r.None? <==> forall i :: 0 <= i < |ts| && ts[i].price > 0.0 ==> OnProfitSide(ts[i].price, tradeType, sl, entry)
    ensures r.Some? ==>
      exists i :: 0 <= i < |ts| && ts[i].price > 0.0 && !OnProfitSide(ts[i].price, tradeType, sl, entry)
        && r.value == SideReason(ts[i].price, tradeType, sl)
        && forall j :: 0 <= j < i ==> ts[j].price <= 0.0 || OnProfitSide(ts[j].price, tradeType, sl, entry)
  {
    if ts == [] then None
    else if ts[0].price > 0.0 && !OnProfitSide(ts[0].price, tradeType, sl, entry) then
      Some(SideReason(ts[0].price, tradeType, sl))
    else
      var r := TargetViolation(ts[1..], tradeType, sl, entry);
      assert forall i :: 1 <= i < |ts| ==> ts[i] == ts[1..][i - 1];
      r
  }

  /**
   * `getAndValidateInputs` of `calculateAndDisplay`. Unlike the derived
   * store it requires the ATR multiplier, flags a non-positive ATR
   * stop-loss instead of reporting incomplete input, and checks every
   * priced target against stop-loss and entry.
   */
  function ValidateInputs(values: TradeValues, tradeType: TradeType): (r: Checked)
    ensures var sl := if CalculationStore.DerivesStopLoss(values) then CalculationStore.AtrStopLoss(values, tradeType) else values.stopLossPrice;
      var early := RequiredMissing(values)
        || (values.useAtrSl && !CalculationStore.DerivesStopLoss(values) && values.atrValue > 0.0 && values.atrMultiplier > 0.0);
      && (r.verdict.Incomplete? <==> early || (!values.useAtrSl && sl <= 0.0))
      && (r.display.isAtrSlInvalid <==> !early && values.useAtrSl && sl <= 0.0)
      && (!r.verdict.Incomplete? ==>
            (r.verdict.Valid? <==>
              && (tradeType == Long ==> values.entryPrice > sl)
              && (tradeType == Short ==> values.entryPrice < sl)
              && (forall i :: 0 <= i < |values.targets| && values.targets[i].price > 0.0 ==>
                    OnProfitSide(values.targets[i].price, tradeType, sl, values.entryPrice))
              && CalculationStore.PercentSum(values.targets) <= 100.0))
      && (r.verdict.Valid? ==>
            && r.verdict.values == values.(stopLossPrice := sl, totalPercentSold := CalculationStore.PercentSum(values.targets))
            && (CalculationStore.DerivesStopLoss(values) <==> r.display.showAtrFormulaDisplay))
  {
    if RequiredMissing(values) then Checked(Incomplete, CalculationStore.NoAtrDisplay)
    else
      var derive := CalculationStore.DerivesStopLoss(values);
      if values.useAtrSl && !derive && values.atrValue > 0.0 && values.atrMultiplier > 0.0 then
        Checked(Incomplete, CalculationStore.NoAtrDisplay)
      else
        var v := if derive then values.(stopLossPrice := CalculationStore.AtrStopLoss(values, tradeType)) else values;
        var shown := if derive then CalculationStore.ShownFormula(values, tradeType) else CalculationStore.NoAtrDisplay;
        var display := shown.(isAtrSlInvalid := values.useAtrSl && v.stopLossPrice <= 0.0);
        if v.stopLossPrice <= 0.0 && !display.isAtrSlInvalid then Checked(Incomplete, display)
        else if tradeType == Long && v.entryPrice <= v.stopLossPrice then Checked(Invalid(LongStopNotBelowEntry), display)
        else if tradeType == Short && v.entryPrice >= v.stopLossPrice then Checked(Invalid(ShortStopNotAboveEntry), display)
        else
          match TargetViolation(v.targets, tradeType, v.stopLossPrice, v.entryPrice)
          case Some(reason) => Checked(Invalid(reason), display)
          case None =>
            var total := CalculationStore.PercentSum(v.targets);
            if total > 100.0 then Checked(Invalid(PercentSumAboveHundred(total)), display)
            else Checked(Valid(v.(totalPercentSold := total)), display)
  }

  // ---------------------------------------------------------------------
  // The locks
  // ---------------------------------------------------------------------

  /** The position-size lock is in force: locked, with a positive size. */
  predicate PositionLockActive(t: TradeState)
  {
    t.isPositionSizeLocked && t.lockedPositionSize.Some? && t.lockedPositionSize.value > 0.0
  }

  datatype LockOutcome =
    | StopTooClose
    | Locked(trade: TradeState, values: TradeValues, base: Option<BaseMetrics>)

  /** A locked risk amount sets the risk percentage from it, when amount and account are positive. */
  function RiskLock(t: TradeState, values: TradeValues, syn: NumberSyntax): LockOutcome
  {
    var riskAmount := ParseDecimal(t.riskAmount, syn);
    if riskAmount > 0.0 && values.accountSize > 0.0 then
      var pct := riskAmount / values.accountSize * 100.0;
      var v := values.(riskPercentage := pct);
      Locked(t.(riskPercentage := Dec(pct)), v, CalculateBaseMetrics(v, t.tradeType))
    else Locked(t, values, CalculateBaseMetrics(values, t.tradeType))
  }

  /**
   * A locked position size sets risk amount and percentage from it and
   * overrides the computed size; a zero distance to the stop-loss is refused.
   */
  function PositionLock(t: TradeState, values: TradeValues, size: real): LockOutcome
  {
    var riskPerUnit := RiskPerUnit(values);
    if riskPerUnit <= 0.0 then StopTooClose
    else
      var riskAmount := riskPerUnit * size;
      var pct := if values.accountSize == 0.0 then 0.0 else riskAmount / values.accountSize * 100.0;
      var v := values.(riskPercentage := pct);
      var base := CalculateBaseMetrics(v, t.tradeType);
      Locked(t.(riskPercentage := Dec(pct), riskAmount := Dec(riskAmount)), v,
        if base.Some? then Some(base.value.(positionSize := size)) else None)
  }

  /** Without a lock the computed risk amount is written back. */
  function NoLock(t: TradeState, values: TradeValues): LockOutcome
  {
    var base := CalculateBaseMetrics(values, t.tradeType);
    Locked(if base.Some? then t.(riskAmount := Dec(base.value.riskAmount)) else t, values, base)
  }

  /** The three branches that compute the base metrics; the risk-amount lock takes precedence. */
  function ApplyLock(t: TradeState, values: TradeValues, syn: NumberSyntax): (r: LockOutcome)
    ensures r.StopTooClose? <==> !t.isRiskAmountLocked && PositionLockActive(t) && RiskPerUnit(values) <= 0.0
    ensures r.Locked? ==> SameLocks(r.trade, t) && r.trade.tradeType == t.tradeType
  {
    if t.isRiskAmountLocked then RiskLock(t, values, syn)
    else if PositionLockActive(t) then PositionLock(t, values, t.lockedPositionSize.value)
    else NoLock(t, values)
  }

  /**
   * A locked risk amount: the risk percentage becomes amount / account × 100,
   * so the metrics risk exactly the locked amount.
   */
  lemma RiskLockSetsPercentage(t: TradeState, values: TradeValues, syn: NumberSyntax)
    requires t.isRiskAmountLocked && values.entryPrice != values.stopLossPrice
    requires ParseDecimal(t.riskAmount, syn) > 0.0 && values.accountSize > 0.0
    ensures var r := ApplyLock(t, values, syn);
      var amount := ParseDecimal(t.riskAmount, syn);
      && r.Locked?
      && r.trade == t.(riskPercentage := Dec(amount / values.accountSize * 100.0))
      && r.base.Some? && r.base.value.riskAmount == amount
  {
    var amount := ParseDecimal(t.riskAmount, syn);
    var pct := amount / values.accountSize * 100.0;
    var v := values.(riskPercentage := pct);
    assert ApplyLock(t, values, syn) == Locked(t.(riskPercentage := Dec(pct)), v, CalculateBaseMetrics(v, t.tradeType));
    PercentOfAccount(amount, values.accountSize);
  }

  /** Locking a risk amount of 200 on an account of 10000 sets the risk to 2 %. */
  lemma RiskLockExample(t: TradeState, values: TradeValues, syn: NumberSyntax)
    requires t.isRiskAmountLocked && t.riskAmount == Dec(200.0) && values.accountSize == 10000.0
    ensures ApplyLock(t, values, syn).Locked?
    ensures ApplyLock(t, values, syn).trade.riskPercentage == Dec(2.0)
    ensures ApplyLock(t, values, syn).values.riskPercentage == 2.0
  {
  }

  /**
   * A locked position size: the risk amount is distance × size, and with a
   * non-zero account the metrics computed from the new percentage size the
   * position at exactly the locked size, which the override then keeps.
   */
  lemma PositionLockKeepsSize(t: TradeState, values: TradeValues, syn: NumberSyntax)
    requires !t.isRiskAmountLocked && PositionLockActive(t)
    requires values.entryPrice != values.stopLossPrice && values.accountSize != 0.0
    ensures var r := ApplyLock(t, values, syn);
      var size := t.lockedPositionSize.value;
      && r.Locked?
      && r.trade.riskAmount == Dec(RiskPerUnit(values) * size)
      && CalculateBaseMetrics(r.values, t.tradeType).value.positionSize == size
      && r.base.Some? && r.base.value.positionSize == size
  {
    var size := t.lockedPositionSize.value;
    var riskAmount := RiskPerUnit(values) * size;
    var pct := riskAmount / values.accountSize * 100.0;
    var v := values.(riskPercentage := pct);
    assert RiskPerUnit(values) > 0.0;
    var r := PositionLock(t, values, size);
    assert ApplyLock(t, values, syn) == r;
    assert r.Locked? && r.values == v && r.trade.riskAmount == Dec(riskAmount);
    LockedSizeMetrics(v, t.tradeType, size);
    assert RiskPerUnit(v) == RiskPerUnit(values);
    assert CalculateBaseMetrics(v, t.tradeType).Some?;
  }

  /** Metrics computed with the percentage a locked size implies size the position at that size. */
  lemma LockedSizeMetrics(v: TradeValues, tradeType: TradeType, size: real)
    requires v.entryPrice != v.stopLossPrice && v.accountSize != 0.0
    requires v.riskPercentage == RiskPerUnit(v) * size / v.accountSize * 100.0
    ensures CalculateBaseMetrics(v, tradeType).value.positionSize == size
  {
    var rpu := RiskPerUnit(v);
    PositionSizeMatchesRisk(v, tradeType);
    PercentOfAccount(rpu * size, v.accountSize);
    var m := CalculateBaseMetrics(v, tradeType).value;
    assert m.positionSize * rpu == size * rpu;
  }

  /** `a / account × 100` percent of the account, as the metrics compute it, is `a` again. */
  lemma PercentOfAccount(a: real, account: real)
    requires account != 0.0
    ensures account * (a / account * 100.0) / 100.0 == a
  {
    DivMul(a, account);
  }

  // ---------------------------------------------------------------------
  // clearResults and the reporting of errors
  // ---------------------------------------------------------------------

  /** What `clearResults(showGuidance)` does to the interface: prompt for data, or hide the error. */
  function ClearResultsUi(ui: UiState, showGuidance: bool): UiState
  {
    if showGuidance then ShowError(ui, PromptForData) else HideError(ui)
  }

  /**
   * The error report as written: `showError(m)` followed by
   * `clearResults()`, whose `hideError` removes the message again.
   */
  function ReportThenClear(ui: UiState, m: Message): UiState
  {
    ClearResultsUi(ShowError(ui, m), false)
  }

  /** As written, the reported message never stays on screen. */
  lemma ReportThenClearLosesMessage(ui: UiState, m: Message)
    requires m != NoMessage
    ensures ReportThenClear(ui, m) == HideError(ui)
    ensures ReportThenClear(ui, m).errorMessage != m && !ReportThenClear(ui, m).showErrorMessage
  {
  }

  /** The error report as intended: clear the results, then show the message. */
  function ReportError(ui: UiState, m: Message): (r: UiState)
    ensures r.errorMessage == m && r.showErrorMessage
    ensures r.symbolSuggestions == ui.symbolSuggestions && r.showSymbolSuggestions == ui.showSymbolSuggestions
  {
    ShowError(ClearResultsUi(ui, false), m)
  }

  // ---------------------------------------------------------------------
  // calculateAndDisplay and the lock toggles, as functions of the state
  // ---------------------------------------------------------------------

  /** The lock fields of two trade states agree. */
  predicate SameLocks(a: TradeState, b: TradeState)
  {
    a.isPositionSizeLocked == b.isPositionSizeLocked && a.lockedPositionSize == b.lockedPositionSize
    && a.isRiskAmountLocked == b.isRiskAmountLocked
  }

  /** Both locks released. */
  predicate Unlocked(t: TradeState)
  {
    !t.isPositionSizeLocked && t.lockedPositionSize.None? && !t.isRiskAmountLocked
  }

  /** The results shown while the ATR stop-loss is not positive: the formula and the flag, nothing else. */
  function AtrInvalidResults(display: CalculationStore.AtrDisplay): ResultsState
  {
    InitialResultsState.(showAtrFormulaDisplay := display.showAtrFormulaDisplay, atrFormula := display.atrFormula, isAtrSlInvalid := true)
  }

  /**
   * `calculateAndDisplay`. Only a failed calculation under a position-size
   * lock touches the locks: it releases both; otherwise they are kept, and
   * their consistency is preserved.
   */
  function CalculateAndDisplaySpec(s: AppState, cfg: Config, syn: NumberSyntax): (r: AppState)
    decreases if s.trade.isPositionSizeLocked then 2 else 0
    ensures SameLocks(r.trade, s.trade) || (s.trade.isPositionSizeLocked && Unlocked(r.trade))
    ensures !s.trade.isPositionSizeLocked ==> SameLocks(r.trade, s.trade)
    ensures LocksConsistent(s.trade) ==> LocksConsistent(r.trade)
  {
    var ui := HideError(s.ui);
    var checked := ValidateInputs(CalculationStore.ValuesOf(s.trade, cfg, syn), s.trade.tradeType);
    if checked.display.isAtrSlInvalid then s.(results := AtrInvalidResults(checked.display), ui := ui)
    else
      match checked.verdict
      case Invalid(reason) => s.(results := InitialResultsState, ui := ReportThenClear(ui, InvalidInput(reason)))
      case Incomplete => s.(results := InitialResultsState, ui := ClearResultsUi(ui, true))
      case Valid(values) =>
        match ApplyLock(s.trade, values, syn)
        case StopTooClose => s.(results := InitialResultsState, ui := ReportThenClear(ui, StopLossTooClose))
        case Locked(trade, v, base) =>
          if base.None? || base.value.positionSize <= 0.0 then
            var cleared := AppState(trade, InitialResultsState, ClearResultsUi(ui, false));
            if s.trade.isPositionSizeLocked then TogglePositionSizeLockSpec(cleared, Some(false), cfg, syn) else cleared
          else
            var m := base.value;
            var details := CalculationStore.TpDetails(v.targets, m, v, s.trade.tradeType);
            var totals := TotalMetricsOf(v.targets, m, v);
            AppState(
              trade.(currentTradeData := Some(CurrentTradeData(v, m, totals, s.trade.tradeType, Open, details)),
                     stopLossPrice := Dec(v.stopLossPrice)),
              CalculationStore.ResultsFor(v, m, totals, details, checked.display),
              ui)
  }

  /** The state the lock of the position size is toggled to; `None` flips it. */
  function ShouldBeLocked(force: Option<bool>, current: bool): bool
  {
    if force.Some? then force.value else !current
  }

  /** Locking needs a displayed position size that is positive. */
  predicate PositionSizeLockable(results: ResultsState)
  {
    results.positionSize.Some? && results.positionSize.value > 0.0
  }

  /**
   * `togglePositionSizeLock(forceState)`. A lock without a positive
   * position size is refused with a message and nothing else changes;
   * otherwise the position lock takes the displayed size, the risk-amount
   * lock is released, and the locks end consistent whatever they were.
   */
  function TogglePositionSizeLockSpec(s: AppState, force: Option<bool>, cfg: Config, syn: NumberSyntax): (r: AppState)
    decreases if force == Some(false) then 1 else 3
    ensures var lock := ShouldBeLocked(force, s.trade.isPositionSizeLocked);
      && (lock && !PositionSizeLockable(s.results) ==> r == s.(ui := ShowError(s.ui, PositionSizeNotLockable)))
      && (!(lock && !PositionSizeLockable(s.results)) ==>
            && !r.trade.isRiskAmountLocked
            && (r.trade.isPositionSizeLocked ==> lock && r.trade.lockedPositionSize == s.results.positionSize)
            && LocksConsistent(r.trade))
    ensures LocksConsistent(s.trade) ==> LocksConsistent(r.trade)
  {
    var lock := ShouldBeLocked(force, s.trade.isPositionSizeLocked);
    if lock && !PositionSizeLockable(s.results) then s.(ui := ShowError(s.ui, PositionSizeNotLockable))
    else
      var trade := s.trade.(isPositionSizeLocked := lock,
                            lockedPositionSize := if lock then Some(s.results.positionSize.value) else None,
                            isRiskAmountLocked := false);
      CalculateAndDisplaySpec(s.(trade := trade), cfg, syn)
  }

  /**
   * `toggleRiskAmountLock(forceState)`. A lock without a positive risk
   * amount is refused with a message and nothing else changes; otherwise
   * the risk-amount lock takes the requested state and the position lock
   * is released.
   */
  function ToggleRiskAmountLockSpec(s: AppState, force: Option<bool>, cfg: Config, syn: NumberSyntax): (r: AppState)
    ensures var lock := ShouldBeLocked(force, s.trade.isRiskAmountLocked);
      && (lock && ParseDecimal(s.trade.riskAmount, syn) <= 0.0 ==> r == s.(ui := ShowError(s.ui, RiskAmountNotLockable)))
      && (!(lock && ParseDecimal(s.trade.riskAmount, syn) <= 0.0) ==>
            && r.trade.isRiskAmountLocked == lock
            && !r.trade.isPositionSizeLocked && r.trade.lockedPositionSize.None?
            && LocksConsistent(r.trade))
    ensures LocksConsistent(s.trade) ==> LocksConsistent(r.trade)
  {
    var lock := ShouldBeLocked(force, s.trade.isRiskAmountLocked);
    if lock && ParseDecimal(s.trade.riskAmount, syn) <= 0.0 then s.(ui := ShowError(s.ui, RiskAmountNotLockable))
    else
      var trade := s.trade.(isRiskAmountLocked := lock, isPositionSizeLocked := false, lockedPositionSize := None);
      CalculateAndDisplaySpec(s.(trade := trade), cfg, syn)
  }

  /**
   * What `calculateAndDisplay` leaves on screen when it cannot calculate.
   * An invalid ATR stop-loss: the flag set, no size, no error. Incomplete
   * input: the results cleared and the prompt shown. Invalid input: the
   * results cleared and the reason, shown and hidden again by
   * `clearResults()`, gone from the screen. The trade inputs stay as they were.
   */
  lemma CalculateAndDisplayErrors(s: AppState, cfg: Config, syn: NumberSyntax)
    ensures var r := CalculateAndDisplaySpec(s, cfg, syn);
      var checked := ValidateInputs(CalculationStore.ValuesOf(s.trade, cfg, syn), s.trade.tradeType);
      && (checked.display.isAtrSlInvalid ==>
            r.trade == s.trade && r.results.isAtrSlInvalid && r.results.positionSize.None? && !r.ui.showErrorMessage)
      && (!checked.display.isAtrSlInvalid && checked.verdict.Incomplete? ==>
            r.trade == s.trade && r.results == InitialResultsState && r.ui == ShowError(s.ui, PromptForData))
      && (!checked.display.isAtrSlInvalid && checked.verdict.Invalid? ==>
            r.trade == s.trade && r.results == InitialResultsState
            && r.ui == HideError(s.ui) && r.ui.errorMessage != InvalidInput(checked.verdict.reason) && !r.ui.showErrorMessage)
  {
  }

  /**
   * A successful calculation: no error, a positive position size shown,
   * the trade data recorded with the stop-loss in use; under a
   * position-size lock the size shown is the locked one.
   */
  lemma CalculateAndDisplaySuccess(s: AppState, cfg: Config, syn: NumberSyntax)
    requires !s.trade.isPositionSizeLocked
    ensures var r := CalculateAndDisplaySpec(s, cfg, syn);
      var checked := ValidateInputs(CalculationStore.ValuesOf(s.trade, cfg, syn), s.trade.tradeType);
      r.results.positionSize.Some? ==>
        && checked.verdict.Valid?
        && r.results.positionSize.value > 0.0 && !r.ui.showErrorMessage
        && r.trade.currentTradeData.Some?
        && r.trade.currentTradeData.value.baseMetrics.positionSize == r.results.positionSize.value
        && r.trade.stopLossPrice == Dec(checked.verdict.values.stopLossPrice)
  {
  }

  /** Under an active position-size lock a displayed size is the locked one. */
  lemma CalculateAndDisplayLockedSize(s: AppState, cfg: Config, syn: NumberSyntax)
    requires PositionLockActive(s.trade) && !s.trade.isRiskAmountLocked
    ensures var r := CalculateAndDisplaySpec(s, cfg, syn);
      r.results.positionSize.Some? ==> r.results.positionSize == s.trade.lockedPositionSize
  {
  }

  // ---------------------------------------------------------------------
  // Symbol suggestions
  // ---------------------------------------------------------------------

  /** `toUpperCase` on the ASCII letters. */
  function UpperChar(c: char): (u: char)
    ensures 'a' <= c <= 'z' ==> 'A' <= u <= 'Z'
    ensures !('a' <= c <= 'z') ==> u == c
  {
    if 'a' <= c <= 'z' then (c as int - 'a' as int + 'A' as int) as char else c
  }

  function ToUpper(s: string): (u: string)
    ensures |u| == |s| && forall i :: 0 <= i < |s| ==> u[i] == UpperChar(s[i])
  {
    if s == [] then [] else [UpperChar(s[0])] + ToUpper(s[1..])
  }

  /** `replace('/', '')`: the first '/' removed. */
  function RemoveFirst(s: string, c: char): (t: string)
    ensures c !in s ==> t == s
    ensures c in s ==> |t| == |s| - 1 && t == s[..IndexOf(s, c)] + s[IndexOf(s, c) + 1..]
  {
    var i := IndexOf(s, c);
    if i < 0 then s else s[..i] + s[i + 1..]
  }

  /** The symbols of the list that start with the query, in list order. */
  function StartingWith(symbols: seq<string>, q: string): (r: seq<string>)
    ensures forall x :: x in r <==> x in symbols && StartsWith(x, q)
    ensures |r| <= |symbols|
  {
    if symbols == [] then []
    else (if StartsWith(symbols[0], q) then [symbols[0]] else []) + StartingWith(symbols[1..], q)
  }

  /** `updateSymbolSuggestions(query)` as a function of the interface state. */
  function SymbolSuggestionsSpec(ui: UiState, query: string, cfg: Config): (r: UiState)
    ensures var q := RemoveFirst(ToUpper(query), '/');
      && (forall x :: x in r.symbolSuggestions <==> q != "" && x in cfg.suggestedSymbols && StartsWith(x, q))
      && (r.showSymbolSuggestions <==> r.symbolSuggestions != [])
      && r.errorMessage == ui.errorMessage && r.showErrorMessage == ui.showErrorMessage
  {
    var q := RemoveFirst(ToUpper(query), '/');
    var filtered := if q != "" then StartingWith(cfg.suggestedSymbols, q) else [];
    ui.(symbolSuggestions := filtered, showSymbolSuggestions := |filtered| > 0)
  }

  /** "btc/u" looks up symbols starting with "BTCU". */
  lemma SymbolQueryNormalised()
    ensures RemoveFirst(ToUpper("btc/u"), '/') == "BTCU"
  {
    UpperQuery();
    SlashRemoved();
  }

  /** Removing the slash of "BTC/U" leaves "BTCU". */
  lemma SlashRemoved()
    ensures RemoveFirst("BTC/U", '/') == "BTCU"
  {
    var u := "BTC/U";
    SlashPosition();
    assert u[..3] == "BTC" && u[4..] == "U";
  }

  /** The slash of "BTC/U" is its fourth character. */
  lemma SlashPosition()
    ensures IndexOf("BTC/U", '/') == 3
  {
    var u := "BTC/U";
    var i := IndexOf(u, '/');
    assert u[3] == '/';
    assert i <= 3 by {
      assert u[..4][3] == '/';
    }
  }

  /** The letters of "btc/u" in capitals. */
  lemma UpperQuery()
    ensures ToUpper("btc/u") == "BTC/U"
  {
    var u := ToUpper("btc/u");
    assert u[0] == 'B' && u[1] == 'T' && u[2] == 'C' && u[3] == '/' && u[4] == 'U';
  }

  // ---------------------------------------------------------------------
  // The operations on the stores
  // ---------------------------------------------------------------------

  /** `clearResults(showGuidance)`. */
  method ClearResults(stores: Stores, showGuidance: bool)
    modifies stores
    ensures stores.trade == old(stores.trade) && stores.results == InitialResultsState
    ensures stores.ui == ClearResultsUi(old(stores.ui), showGuidance)
  {
    stores.results := InitialResultsState;
    if showGuidance {
      stores.ui := ShowError(stores.ui, PromptForData);
    } else {
      stores.ui := HideError(stores.ui);
    }
  }

  /** `uiStore.showError(m)` followed by `app.clearResults()`. */
  method ReportInvalid(stores: Stores, m: Message)
    modifies stores
    ensures stores.State() == old(stores.State()).(results := InitialResultsState, ui := ReportThenClear(old(stores.ui), m))
  {
    stores.ui := ShowError(stores.ui, m);
    ClearResults(stores, false);
  }

  /**
   * The lock branches of `calculateAndDisplay`: they write the risk
   * percentage and amount back to the trade store and yield the values and
   * metrics to display; a stop-loss at the entry under a position lock
   * reports the error and clears the results instead, which hides it again.
   */
  method ApplyLocks(stores: Stores, values: TradeValues, syn: NumberSyntax) returns (refused: bool, v: TradeValues, base: Option<BaseMetrics>)
    modifies stores
    ensures refused == ApplyLock(old(stores.trade), values, syn).StopTooClose?
    ensures refused ==>
      && stores.trade == old(stores.trade) && stores.results == InitialResultsState
      && stores.ui == ReportThenClear(old(stores.ui), StopLossTooClose)
    ensures !refused ==>
      && stores.trade == ApplyLock(old(stores.trade), values, syn).trade
      && v == ApplyLock(old(stores.trade), values, syn).values
      && base == ApplyLock(old(stores.trade), values, syn).base
      && stores.results == old(stores.results) && stores.ui == old(stores.ui)
  {
    var current := stores.trade;
    refused, v := false, values;
    if current.isRiskAmountLocked {
      var riskAmount := ParseDecimal(current.riskAmount, syn);
      if riskAmount > 0.0 && values.accountSize > 0.0 {
        var newRiskPercentage := riskAmount / values.accountSize * 100.0;
        stores.trade := stores.trade.(riskPercentage := Dec(newRiskPercentage));
        v := values.(riskPercentage := newRiskPercentage);
      }
      base := CalculateBaseMetrics(v, current.tradeType);
      assert stores.trade == ApplyLock(current, values, syn).trade;
    } else if PositionLockActive(current) {
      refused, v, base := LockPosition(stores, values);
    } else {
      base := CalculateBaseMetrics(values, current.tradeType);
      if base.Some? {
        stores.trade := stores.trade.(riskAmount := Dec(base.value.riskAmount));
      }
      assert stores.trade == ApplyLock(current, values, syn).trade;
    }
  }

  /** The position-lock branch of `calculateAndDisplay`. */
  method LockPosition(stores: Stores, values: TradeValues) returns (refused: bool, v: TradeValues, base: Option<BaseMetrics>)
    requires PositionLockActive(stores.trade)
    modifies stores
    ensures var r := PositionLock(old(stores.trade), values, old(stores.trade).lockedPositionSize.value);
      && (refused <==> r.StopTooClose?)
      && (refused ==>
            && stores.trade == old(stores.trade) && stores.results == InitialResultsState
            && stores.ui == ReportThenClear(old(stores.ui), StopLossTooClose))
      && (!refused ==>
            && stores.trade == r.trade && v == r.values && base == r.base
            && stores.results == old(stores.results) && stores.ui == old(stores.ui))
  {
    var current := stores.trade;
    var riskPerUnit := RiskPerUnit(values);
    if riskPerUnit <= 0.0 {
      ReportInvalid(stores, StopLossTooClose);
      return true, values, None;
    }
    var size := current.lockedPositionSize.value;
    var riskAmount := riskPerUnit * size;
    var newRiskPercentage := if values.accountSize == 0.0 then 0.0 else riskAmount / values.accountSize * 100.0;
    stores.trade := stores.trade.(riskPercentage := Dec(newRiskPercentage), riskAmount := Dec(riskAmount));
    v := values.(riskPercentage := newRiskPercentage);
    base := CalculateBaseMetrics(v, current.tradeType);
    if base.Some? {
      base := Some(base.value.(positionSize := size));
    }
    refused := false;
    assert PositionLock(current, values, size).Locked?;
    assert PositionLock(current, values, size).trade.riskAmount == Dec(riskAmount);
    assert PositionLock(current, values, size).trade.riskPercentage == Dec(newRiskPercentage);
  }

  /** `calculateAndDisplay`. */
  method CalculateAndDisplay(stores: Stores, cfg: Config, syn: NumberSyntax)
    modifies stores
    decreases if stores.trade.isPositionSizeLocked then 2 else 0
    ensures stores.State() == CalculateAndDisplaySpec(old(stores.State()), cfg, syn)
  {
    stores.ui := HideError(stores.ui);
    var current := stores.trade;
    var checked := ValidateInputs(CalculationStore.ValuesOf(current, cfg, syn), current.tradeType);
    if checked.display.isAtrSlInvalid {
      stores.results := AtrInvalidResults(checked.display);
      return;
    }
    if checked.verdict.Invalid? {
      ReportInvalid(stores, InvalidInput(checked.verdict.reason));
      return;
    }
    if checked.verdict.Incomplete? {
      ClearResults(stores, true);
      return;
    }
    var refused, values, base := ApplyLocks(stores, checked.verdict.values, syn);
    if refused {
      return;
    }
    if base.None? || base.value.positionSize <= 0.0 {
      ClearResults(stores, false);
      if current.isPositionSizeLocked {
        TogglePositionSizeLock(stores, Some(false), cfg, syn);
      }
      return;
    }
    var m := base.value;
    var details := CalculationStore.TpDetails(values.targets, m, values, current.tradeType);
    var totals := CalculateTotalMetrics(values.targets, m, values, current.tradeType);
    stores.results := CalculationStore.ResultsFor(values, m, totals, details, checked.display);
    stores.trade := stores.trade.(currentTradeData := Some(CurrentTradeData(values, m, totals, current.tradeType, Open, details)),
                                  stopLossPrice := Dec(values.stopLossPrice));
  }

  /** `togglePositionSizeLock(forceState)`. */
  method TogglePositionSizeLock(stores: Stores, force: Option<bool>, cfg: Config, syn: NumberSyntax)
    modifies stores
    decreases if force == Some(false) then 1 else 3
    ensures stores.State() == TogglePositionSizeLockSpec(old(stores.State()), force, cfg, syn)
  {
    var shouldBeLocked := ShouldBeLocked(force, stores.trade.isPositionSizeLocked);
    if shouldBeLocked && !PositionSizeLockable(stores.results) {
      stores.ui := ShowError(stores.ui, PositionSizeNotLockable);
      return;
    }
    stores.trade := stores.trade.(isPositionSizeLocked := shouldBeLocked,
                                  lockedPositionSize := if shouldBeLocked then Some(stores.results.positionSize.value) else None,
                                  isRiskAmountLocked := false);
    CalculateAndDisplay(stores, cfg, syn);
  }

  /** `toggleRiskAmountLock(forceState)`. */
  method ToggleRiskAmountLock(stores: Stores, force: Option<bool>, cfg: Config, syn: NumberSyntax)
    modifies stores
    ensures stores.State() == ToggleRiskAmountLockSpec(old(stores.State()), force, cfg, syn)
  {
    var shouldBeLocked := ShouldBeLocked(force, stores.trade.isRiskAmountLocked);
    if shouldBeLocked && ParseDecimal(stores.trade.riskAmount, syn) <= 0.0 {
      stores.ui := ShowError(stores.ui, RiskAmountNotLockable);
      return;
    }
    stores.trade := stores.trade.(isRiskAmountLocked := shouldBeLocked, isPositionSizeLocked := false, lockedPositionSize := None);
    CalculateAndDisplay(stores, cfg, syn);
  }

  /** `updateSymbolSuggestions(query)`. */
  method UpdateSymbolSuggestions(stores: Stores, query: string, cfg: Config)
    modifies stores
    ensures stores.State() == old(stores.State()).(ui := SymbolSuggestionsSpec(old(stores.ui), query, cfg))
  {
    var upperQuery := RemoveFirst(ToUpper(query), '/');
    var filtered: seq<string> := [];
    if upperQuery != "" {
      filtered := StartingWith(cfg.suggestedSymbols, upperQuery);
    }
    stores.ui := stores.ui.(symbolSuggestions := filtered, showSymbolSuggestions := |filtered| > 0);
  }
}
