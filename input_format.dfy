/**
 * The `numberInput` action of src/utils/inputUtils.ts: the sanitiser
 * `formatValue` that rewrites what is typed into a numeric field, and
 * `handleInput`, which writes the sanitised text back into the field.
 */
module InputFormat {
  import opened Common

  predicate IsDigit(c: char)
  {
    '0' <= c <= '9'
  }

  /** The characters step 2 keeps: digits, and '.' unless `noDecimals`. */
  predicate Allowed(c: char, noDecimals: bool)
  {
    IsDigit(c) || (!noDecimals && c == '.')
  }

  /** Step 1, `value.replace(/,/g, '.')`: every comma becomes a dot. */
  function CommasToDots(s: string): (t: string)
    ensures |t| == |s| && ',' !in t
    ensures forall i :: 0 <= i < |s| && s[i] != ',' ==> t[i] == s[i]
    ensures forall i :: 0 <= i < |s| && s[i] == ',' ==> t[i] == '.'
  {
    if s == [] then [] else [if s[0] == ',' then '.' else s[0]] + CommasToDots(s[1..])
  }

  /** Step 2, `replace(/[^0-9.]/g, '')` or `replace(/[^0-9]/g, '')`: drops every other character. */
  function KeepAllowed(s: string, noDecimals: bool): string
  {
    if s == [] then [] else (if Allowed(s[0], noDecimals) then [s[0]] else []) + KeepAllowed(s[1..], noDecimals)
  }

  /** `s` without its dots. */
  function RemoveDots(s: string): string
  {
    if s == [] then [] else (if s[0] == '.' then [] else [s[0]]) + RemoveDots(s[1..])
  }

  function DotCount(s: string): nat
  {
    if s == [] then 0 else (if s[0] == '.' then 1 else 0) + DotCount(s[1..])
  }

  /**
   * Step 3: with more than one dot (`split('.')` gives more than two parts),
   * the text before the first dot, one dot, and the rest without dots.
   */
  function KeepFirstDot(s: string): string
  {
    if DotCount(s) > 1 then
      DotCountZero(s);
      var i := IndexOf(s, '.');
      s[..i] + "." + RemoveDots(s[i + 1..])
    else s
  }

  /** `s.split('.')[1]` for a string whose first dot is followed by `s`: the text up to the next dot. */
  function UpToDot(s: string): (t: string)
    ensures |t| <= |s| && t == s[..|t|]
    ensures '.' !in s ==> t == s
  {
    if s == [] || s[0] == '.' then [] else [s[0]] + UpToDot(s[1..])
  }

  /**
   * Step 4: when decimals are allowed and limited, a decimal part longer
   * than `decimalPlaces` is cut to that many characters.
   */
  function LimitDecimals(s: string, decimalPlaces: Option<nat>, noDecimals: bool): string
  {
    if !noDecimals && decimalPlaces.Some? && '.' in s then
      var i := IndexOf(s, '.');
      var decimalPart := UpToDot(s[i + 1..]);
      if decimalPart != "" && |decimalPart| > decimalPlaces.value then s[..i + decimalPlaces.value + 1] else s
    else s
  }

  /** The upper bound of the field: its value and `maxValue.toString()`. */
  datatype MaxValue = MaxValue(value: real, text: string)

  /**
   * The options of the action. `parseFloat` is JavaScript's `parseFloat`,
   * `None` standing for NaN (every comparison with NaN is false).
   */
  datatype Options = Options(
    decimalPlaces: Option<nat>,
    isPercentage: bool,
    noDecimals: bool,
    maxValue: Option<MaxValue>,
    parseFloat: string -> Option<real>)

  /** Steps 1 to 4 of `formatValue`. */
  function Sanitise(s: string, o: Options): string
  {
    LimitDecimals(KeepFirstDot(KeepAllowed(CommasToDots(s), o.noDecimals)), o.decimalPlaces, o.noDecimals)
  }

  /** `formatValue`: steps 1 to 4, then step 5 replaces a value above `maxValue` by `maxValue`'s text. */
  function FormatValue(s: string, o: Options): (r: string)
    ensures r == Sanitise(s, o) || (o.maxValue.Some? && r == o.maxValue.value.text)
  {
    var t := Sanitise(s, o);
    if o.maxValue.Some? && o.parseFloat(t).Some? && o.parseFloat(t).value > o.maxValue.value.value then
      o.maxValue.value.text
    else t
  }

  // ---------------------------------------------------------------------
  // What each step guarantees
  // ---------------------------------------------------------------------

  /** The number of places after the first dot is at most `dp` (vacuous without a dot). */
  predicate DecimalsWithin(s: string, dp: nat)
  {
    '.' in s ==> |s| - IndexOf(s, '.') - 1 <= dp
  }

  /** What `Sanitise` promises: no comma, only allowed characters, at most one dot, limited decimals. */
  predicate Clean(s: string, o: Options)
  {
    && (forall i :: 0 <= i < |s| ==> Allowed(s[i], o.noDecimals))
    && DotCount(s) <= 1
    && (!o.noDecimals && o.decimalPlaces.Some? ==> DecimalsWithin(s, o.decimalPlaces.value))
  }

  lemma {:induction false} KeepAllowedOnlyAllowed(s: string, noDecimals: bool)
    ensures var t := KeepAllowed(s, noDecimals);
      |t| <= |s| && forall i :: 0 <= i < |t| ==> Allowed(t[i], noDecimals)
  {
    if s != [] {
      KeepAllowedOnlyAllowed(s[1..], noDecimals);
    }
  }

  /** Step 2 keeps exactly the allowed characters, in their order: it leaves an all-allowed string alone. */
  lemma {:induction false} KeepAllowedFixed(s: string, noDecimals: bool)
    requires forall i :: 0 <= i < |s| ==> Allowed(s[i], noDecimals)
    ensures KeepAllowed(s, noDecimals) == s
  {
    if s != [] {
      KeepAllowedFixed(s[1..], noDecimals);
    }
  }

  lemma {:induction false} NoCommaFixed(s: string)
    requires ',' !in s
    ensures CommasToDots(s) == s
  {
    if s != [] {
      NoCommaFixed(s[1..]);
    }
  }

  lemma {:induction false} DotCountAppend(s: string, t: string)
    ensures DotCount(s + t) == DotCount(s) + DotCount(t)
  {
    if s != [] {
      assert (s + t)[0] == s[0];
      assert (s + t)[1..] == s[1..] + t;
      DotCountAppend(s[1..], t);
    } else {
      assert s + t == t;
    }
  }

  lemma {:induction false} DotCountZero(s: string)
    ensures DotCount(s) == 0 <==> '.' !in s
  {
    if s != [] {
      DotCountZero(s[1..]);
      assert s == [s[0]] + s[1..];
    }
  }

  lemma {:induction false} RemoveDotsProperties(s: string, noDecimals: bool)
    ensures |RemoveDots(s)| <= |s| && DotCount(RemoveDots(s)) == 0
    ensures (forall i :: 0 <= i < |s| ==> Allowed(s[i], noDecimals)) ==>
      forall i :: 0 <= i < |RemoveDots(s)| ==> Allowed(RemoveDots(s)[i], noDecimals)
  {
    if s != [] {
      RemoveDotsProperties(s[1..], noDecimals);
      var head := if s[0] == '.' then [] else [s[0]];
      DotCountAppend(head, RemoveDots(s[1..]));
    }
  }

  /**
   * Step 3 leaves at most one dot, keeps the text before the first dot, and
   * removes nothing but dots.
   */
  lemma KeepFirstDotProperties(s: string, noDecimals: bool)
    requires forall i :: 0 <= i < |s| ==> Allowed(s[i], noDecimals)
    ensures var t := KeepFirstDot(s);
      && |t| <= |s|
      && DotCount(t) <= 1
      && (forall i :: 0 <= i < |t| ==> Allowed(t[i], noDecimals))
      && ('.' in s <==> '.' in t)
      && ('.' in s ==> IndexOf(t, '.') == IndexOf(s, '.') && t[..IndexOf(s, '.')] == s[..IndexOf(s, '.')])
  {
    if DotCount(s) > 1 {
      DotCountZero(s);
      var i := IndexOf(s, '.');
      var t := s[..i] + "." + RemoveDots(s[i + 1..]);
      assert KeepFirstDot(s) == t;
      CollapsedAllowed(s, i, t, noDecimals);
      CollapsedCount(s, i, t);
      CollapsedFirstDot(s, i, t);
    } else {
      DotCountZero(s);
    }
  }

  /** Collapsing the dots after position `i` keeps only allowed characters. */
  lemma CollapsedAllowed(s: string, i: nat, t: string, noDecimals: bool)
    requires i < |s| && s[i] == '.' && t == s[..i] + "." + RemoveDots(s[i + 1..])
    requires forall k :: 0 <= k < |s| ==> Allowed(s[k], noDecimals)
    ensures forall k :: 0 <= k < |t| ==> Allowed(t[k], noDecimals)
  {
    var rest := s[i + 1..];
    forall k | 0 <= k < |rest| ensures Allowed(rest[k], noDecimals) {
      assert rest[k] == s[i + 1 + k];
    }
    RemoveDotsProperties(rest, noDecimals);
    forall k | 0 <= k < |t| ensures Allowed(t[k], noDecimals) {
      if k < i {
        assert t[k] == s[k];
      } else if k > i {
        assert t[k] == RemoveDots(rest)[k - i - 1];
      }
    }
  }

  /** Collapsing the dots after the first one, at `i`, leaves one dot and no longer a text. */
  lemma CollapsedCount(s: string, i: nat, t: string)
    requires i < |s| && '.' !in s[..i] && t == s[..i] + "." + RemoveDots(s[i + 1..])
    ensures |t| <= |s| && DotCount(t) == 1
  {
    var rest := s[i + 1..];
    RemoveDotsProperties(rest, false);
    DotCountZero(s[..i]);
    DotCountAppend(s[..i], ".");
    DotCountAppend(s[..i] + ".", RemoveDots(rest));
  }

  /** Collapsing keeps the first dot where it was and the text before it. */
  lemma CollapsedFirstDot(s: string, i: nat, t: string)
    requires i < |s| && '.' !in s[..i] && t == s[..i] + "." + RemoveDots(s[i + 1..])
    ensures IndexOf(t, '.') == i && t[..i] == s[..i]
  {
    assert t[i] == '.';
    assert t[..i] == s[..i];
    IndexOfAt(t, i);
  }

  /** `IndexOf` finds position `i` when `s[i]` is the character and no earlier position holds it. */
  lemma IndexOfAt(s: string, i: nat)
    requires i < |s| && s[i] == '.' && '.' !in s[..i]
    ensures IndexOf(s, '.') == i
  {
    var j := IndexOf(s, '.');
    assert forall k :: 0 <= k < j ==> s[..j][k] == s[k];
    assert forall k :: 0 <= k < i ==> s[..i][k] == s[k];
  }

  /** In a string with one dot, nothing after that dot is a dot. */
  lemma {:induction false} AfterOnlyDot(s: string)
    requires DotCount(s) <= 1 && '.' in s
    ensures var i := IndexOf(s, '.');
      '.' !in s[i + 1..] && '.' !in s[..i] && s[i] == '.'
  {
    var i := IndexOf(s, '.');
    assert s == s[..i] + [s[i]] + s[i + 1..];
    DotCountAppend(s[..i] + [s[i]], s[i + 1..]);
    DotCountAppend(s[..i], [s[i]]);
    DotCountZero(s[i + 1..]);
  }

  /** Step 4 keeps a prefix; after it the decimal part fits. */
  lemma LimitDecimalsProperties(s: string, dp: Option<nat>, noDecimals: bool)
    requires DotCount(s) <= 1
    ensures var t := LimitDecimals(s, dp, noDecimals);
      && |t| <= |s| && t == s[..|t|]
      && ('.' in s ==> '.' in t && IndexOf(t, '.') == IndexOf(s, '.'))
      && (!noDecimals && dp.Some? ==> DecimalsWithin(t, dp.value))
  {
    var t := LimitDecimals(s, dp, noDecimals);
    if '.' in s {
      var i := IndexOf(s, '.');
      AfterOnlyDot(s);
      assert UpToDot(s[i + 1..]) == s[i + 1..];
      if t != s {
        LimitedPrefix(s, i, dp.value);
      }
    }
  }

  /** Cutting after `dp` decimals keeps the dot where it was. */
  lemma LimitedPrefix(s: string, i: nat, dp: nat)
    requires i + dp + 1 <= |s| && s[i] == '.' && '.' !in s[..i]
    ensures var t := s[..i + dp + 1];
      '.' in t && IndexOf(t, '.') == i && DecimalsWithin(t, dp)
  {
    var t := s[..i + dp + 1];
    assert t[..i] == s[..i];
    IndexOfAt(t, i);
  }

  /** Every sanitised string is clean, and no longer than the input. */
  lemma SanitiseIsClean(s: string, o: Options)
    ensures Clean(Sanitise(s, o), o) && |Sanitise(s, o)| <= |s|
  {
    var a := CommasToDots(s);
    var b := KeepAllowed(a, o.noDecimals);
    KeepAllowedOnlyAllowed(a, o.noDecimals);
    var c := KeepFirstDot(b);
    KeepFirstDotProperties(b, o.noDecimals);
    var d := LimitDecimals(c, o.decimalPlaces, o.noDecimals);
    LimitDecimalsProperties(c, o.decimalPlaces, o.noDecimals);
    forall i | 0 <= i < |d| ensures Allowed(d[i], o.noDecimals) {
      assert d[i] == c[i];
    }
    DotCountAppend(d, c[|d|..]);
    assert c == d + c[|d|..];
  }

  /** A clean string is left alone by steps 1 to 4. */
  lemma CleanIsFixed(s: string, o: Options)
    requires Clean(s, o)
    ensures Sanitise(s, o) == s
  {
    forall i | 0 <= i < |s| ensures s[i] != ',' {
      assert Allowed(s[i], o.noDecimals);
    }
    NoCommaFixed(s);
    KeepAllowedFixed(s, o.noDecimals);
    assert KeepFirstDot(s) == s;
    LimitFixed(s, o);
  }

  /** A clean text has no decimals to cut. */
  lemma LimitFixed(s: string, o: Options)
    requires Clean(s, o)
    ensures LimitDecimals(s, o.decimalPlaces, o.noDecimals) == s
  {
    if !o.noDecimals && o.decimalPlaces.Some? && '.' in s {
      var i := IndexOf(s, '.');
      DotCountZero(s[..i]);
      assert s == s[..i] + [s[i]] + s[i + 1..];
      DotCountAppend(s[..i] + [s[i]], s[i + 1..]);
      DotCountAppend(s[..i], [s[i]]);
      DotCountZero(s[i + 1..]);
    }
  }

  /** Steps 1 to 4 are idempotent. */
  lemma SanitiseIdempotent(s: string, o: Options)
    ensures Sanitise(Sanitise(s, o), o) == Sanitise(s, o)
  {
    SanitiseIsClean(s, o);
    CleanIsFixed(Sanitise(s, o), o);
  }

  /**
   * The properties of `formatValue`'s output: no comma; only digits (and,
   * unless `noDecimals`, dots); at most one dot; at most `decimalPlaces`
   * decimals; unless the value was replaced by `maxValue`'s text.
   */
  lemma FormatValueOutput(s: string, o: Options)
    ensures var r := FormatValue(s, o);
      r != Sanitise(s, o) ==> o.maxValue.Some? && r == o.maxValue.value.text
    ensures var r := Sanitise(s, o);
      && ',' !in r
      && (forall i :: 0 <= i < |r| ==> IsDigit(r[i]) || (!o.noDecimals && r[i] == '.'))
      && DotCount(r) <= 1
      && (!o.noDecimals && o.decimalPlaces.Some? ==> DecimalsWithin(r, o.decimalPlaces.value))
  {
    SanitiseIsClean(s, o);
    var r := Sanitise(s, o);
    forall i | 0 <= i < |r| ensures r[i] != ',' {
      assert Allowed(r[i], o.noDecimals);
    }
  }

  /**
   * Options under which step 5 is stable: `maxValue`'s text is clean and
   * parses back to `maxValue` (as `toString` of an ordinary number does).
   */
  predicate StableMax(o: Options)
  {
    o.maxValue.Some? ==>
      Clean(o.maxValue.value.text, o) && o.parseFloat(o.maxValue.value.text) == Some(o.maxValue.value.value)
  }

  /** Formatting settles after one pass whenever the bound's text is itself settled. */
  lemma FormatValueSettles(s: string, o: Options)
    ensures StableMax(o) ==> FormatValue(FormatValue(s, o), o) == FormatValue(s, o)
  {
    if StableMax(o) {
      FormatValueIdempotent(s, o);
    }
  }

  /** `formatValue` is idempotent, so the event `handleInput` re-dispatches changes nothing. */
  lemma FormatValueIdempotent(s: string, o: Options)
    requires StableMax(o)
    ensures FormatValue(FormatValue(s, o), o) == FormatValue(s, o)
  {
    var t := Sanitise(s, o);
    SanitiseIdempotent(s, o);
    if FormatValue(s, o) != t {
      CleanIsFixed(o.maxValue.value.text, o);
    }
  }

  // ---------------------------------------------------------------------
  // The input element
  // ---------------------------------------------------------------------

  /**
   * The field the action is attached to: its text, its selection (absent
   * when the element has none) and the number of `input` events the action
   * has dispatched on it.
   */
  class InputElement {
    var value: string
    var selectionStart: Option<int>
    var selectionEnd: Option<int>
    var dispatched: nat

    constructor (value: string, selectionStart: Option<int>, selectionEnd: Option<int>)
      ensures this.value == value && this.selectionStart == selectionStart && this.selectionEnd == selectionEnd
      ensures dispatched == 0
    {
      this.value := value;
      this.selectionStart := selectionStart;
      this.selectionEnd := selectionEnd;
      dispatched := 0;
    }
  }

  /**
   * The changed-value branch of `handleInput`: write the new text, shift
   * both ends of the selection by the change in length, and dispatch a new
   * `input` event.
   */
  method Rewrite(el: InputElement, newValue: string)
    modifies el
    ensures el.value == newValue && el.dispatched == old(el.dispatched) + 1
    ensures var diff := |newValue| - |old(el.value)|;
      if old(el.selectionStart).Some? && old(el.selectionEnd).Some? then
        el.selectionStart == Some(old(el.selectionStart).value + diff)
        && el.selectionEnd == Some(old(el.selectionEnd).value + diff)
      else el.selectionStart == old(el.selectionStart) && el.selectionEnd == old(el.selectionEnd)
  {
    var start, end, oldValue := el.selectionStart, el.selectionEnd, el.value;
    el.value := newValue;
    var newLengthDiff := |newValue| - |oldValue|;
    if start.Some? && end.Some? {
      el.selectionStart, el.selectionEnd := Some(start.value + newLengthDiff), Some(end.value + newLengthDiff);
    }
    el.dispatched := el.dispatched + 1;
  }

  /**
   * The closure state of the action: the current options, which `update`
   * replaces.
   */
  class NumberInput {
    var options: Options

    constructor (options: Options)
      ensures this.options == options
    {
      this.options := options;
    }

    /**
     * `handleInput`: when the formatted text differs, write it, shift both
     * ends of the selection by the change in length, and dispatch a new
     * `input` event; otherwise change nothing.
     */
    method HandleInput(el: InputElement)
      modifies el
      ensures var newValue := FormatValue(old(el.value), options);
        if newValue != old(el.value) then
          && el.value == newValue
          && el.dispatched == old(el.dispatched) + 1
          && var diff := |newValue| - |old(el.value)|;
            if old(el.selectionStart).Some? && old(el.selectionEnd).Some? then
              el.selectionStart == Some(old(el.selectionStart).value + diff)
              && el.selectionEnd == Some(old(el.selectionEnd).value + diff)
            else el.selectionStart == old(el.selectionStart) && el.selectionEnd == old(el.selectionEnd)
        else
          el.value == old(el.value) && el.dispatched == old(el.dispatched)
          && el.selectionStart == old(el.selectionStart) && el.selectionEnd == old(el.selectionEnd)
      ensures StableMax(options) ==> FormatValue(el.value, options) == el.value
    {
      var oldValue, opts := el.value, options;
      var newValue := FormatValue(oldValue, opts);
      FormatValueSettles(oldValue, opts);
      if newValue != oldValue {
        Rewrite(el, newValue);
      }
      assert options == opts;
    }

    /**
     * `update`: the decimal places and the bound are replaced outright (an
     * option left out becomes undefined); `isPercentage` and `noDecimals`
     * keep their value unless given.
     */
    method Update(decimalPlaces: Option<nat>, isPercentage: Option<bool>, noDecimals: Option<bool>, maxValue: Option<MaxValue>)
      modifies this
      ensures options.decimalPlaces == decimalPlaces && options.maxValue == maxValue
      ensures options.isPercentage == if isPercentage.Some? then isPercentage.value else old(options.isPercentage)
      ensures options.noDecimals == if noDecimals.Some? then noDecimals.value else old(options.noDecimals)
      ensures options.parseFloat == old(options.parseFloat)
    {
      options := options.(
        decimalPlaces := decimalPlaces,
        isPercentage := if isPercentage.Some? then isPercentage.value else options.isPercentage,
        noDecimals := if noDecimals.Some? then noDecimals.value else options.noDecimals,
        maxValue := maxValue);
    }
  }
}
