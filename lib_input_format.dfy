/**
 * The older `numberInput` action of src/lib/inputUtils.ts. Its
 * `formatValue` is steps 1 to 4 of the one in src/utils/inputUtils.ts with
 * dots always allowed and the decimal places always limited; it has no
 * upper bound.
 */
module LibInputFormat {
  import opened Common
  import opened InputFormat

  /** `formatValue` with the `decimalPlaces` the action was created with. */
  function LibFormatValue(s: string, decimalPlaces: nat): string
  {
    LimitDecimals(KeepFirstDot(KeepAllowed(CommasToDots(s), false)), Some(decimalPlaces), false)
  }

  /** The same pipeline as the options of the newer action with these settings. */
  function AsOptions(decimalPlaces: nat, isPercentage: bool): (o: Options)
    ensures !o.noDecimals && o.decimalPlaces == Some(decimalPlaces) && o.maxValue.None?
  {
    Options(Some(decimalPlaces), isPercentage, false, None, _ => None)
  }

  /**
   * The output holds only digits and at most one dot, has at most
   * `decimalPlaces` decimals, and is never longer than the input (every
   * step replaces one character by one or deletes).
   */
  lemma LibFormatValueOutput(s: string, decimalPlaces: nat)
    ensures var r := LibFormatValue(s, decimalPlaces);
      && (forall i :: 0 <= i < |r| ==> IsDigit(r[i]) || r[i] == '.')
      && DotCount(r) <= 1
      && DecimalsWithin(r, decimalPlaces)
      && |r| <= |s|
  {
    var o := AsOptions(decimalPlaces, false);
    assert LibFormatValue(s, decimalPlaces) == Sanitise(s, o);
    SanitiseIsClean(s, o);
  }

  /** The length bound alone, for callers that need nothing else. */
  lemma LibFormatValueShorter(s: string, decimalPlaces: nat)
    ensures |LibFormatValue(s, decimalPlaces)| <= |s|
  {
    LibFormatValueOutput(s, decimalPlaces);
  }

  /** `formatValue` is idempotent. */
  lemma LibFormatValueIdempotent(s: string, decimalPlaces: nat)
    ensures LibFormatValue(LibFormatValue(s, decimalPlaces), decimalPlaces) == LibFormatValue(s, decimalPlaces)
  {
    var o := AsOptions(decimalPlaces, false);
    assert forall t :: LibFormatValue(t, decimalPlaces) == Sanitise(t, o);
    SanitiseIdempotent(s, o);
  }

  /**
   * The action's state. `formatValue` reads the `decimalPlaces` destructured
   * when the action was created; `update` replaces the `options` object,
   * which nothing reads afterwards.
   */
  class LibNumberInput {
    const decimalPlaces: nat
    const isPercentage: bool
    var options: (nat, bool)

    constructor (decimalPlaces: nat, isPercentage: bool)
      ensures this.decimalPlaces == decimalPlaces && this.isPercentage == isPercentage
      ensures options == (decimalPlaces, isPercentage)
    {
      this.decimalPlaces := decimalPlaces;
      this.isPercentage := isPercentage;
      options := (decimalPlaces, isPercentage);
    }

    /**
     * `handleInput`: rewrite the field, shift the selection by the change in
     * length and re-dispatch only when the formatted text differs; the
     * re-dispatched event then finds nothing to change.
     */
    method HandleInput(el: InputElement)
      modifies el
      ensures var newValue := LibFormatValue(old(el.value), decimalPlaces);
        if newValue != old(el.value) then
          && el.value == newValue
          && el.dispatched == old(el.dispatched) + 1
          && var diff := |newValue| - |old(el.value)|;
            if old(el.selectionStart).Some? && old(el.selectionEnd).Some? then
              el.selectionStart == Some(old(el.selectionStart).value + diff)
              && el.selectionEnd == Some(old(el.selectionEnd).value + diff)
            else el.selectionStart == old(el.selectionStart) && el.selectionEnd == old(el.selectionEnd)
        else
          el.value == old(el.value) && el.dispatched == old(el.dispatched)
          && el.selectionStart == old(el.selectionStart) && el.selectionEnd == old(el.selectionEnd)
      ensures LibFormatValue(el.value, decimalPlaces) == el.value
      ensures |el.value| <= |old(el.value)|
    {
      var start, end, oldValue := el.selectionStart, el.selectionEnd, el.value;
      var newValue := LibFormatValue(oldValue, decimalPlaces);
      LibFormatValueIdempotent(oldValue, decimalPlaces);
      LibFormatValueShorter(oldValue, decimalPlaces);
      if newValue != oldValue {
        el.value := newValue;
        var newLengthDiff := |newValue| - |oldValue|;
        if start.Some? && end.Some? {
          el.selectionStart, el.selectionEnd := Some(start.value + newLengthDiff), Some(end.value + newLengthDiff);
        }
        el.dispatched := el.dispatched + 1;
      }
    }

    /** `update`: replaces the options object; the formatting is not affected. */
    method Update(decimalPlaces: nat, isPercentage: bool)
      modifies this
      ensures options == (decimalPlaces, isPercentage)
    {
      options := (decimalPlaces, isPercentage);
    }
  }
}
