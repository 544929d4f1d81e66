/**
 * The lenient number parser `parseDecimal` of src/utils/utils.ts. Every
 * numeric input field of the calculator goes through it.
 */
module Utils {
  import opened Common

  /**
   * A value handed to `parseDecimal`: `null`/`undefined`, a string typed
   * into a field, or a value that is already a number (a `Decimal` written
   * back by the application).
   */
  datatype Input = Null | Text(s: string) | Dec(d: real)

  /**
   * The two pieces of JavaScript number syntax the parser relies on:
   * `isNumeric(s)` is `!isNaN(s)` (the string converts to a number), and
   * `valueOf(s)` is the value of `new Decimal(s)`.
   */
  datatype NumberSyntax = NumberSyntax(isNumeric: string -> bool, valueOf: string -> real)

  /**
   * JavaScript truthiness of an input, as in `value || DEFAULT`: `null` and
   * the empty string are falsy, a number object is not.
   */
  predicate Truthy(x: Input)
  {
    match x
    case Null => false
    case Text(s) => s != ""
    case Dec(_) => true
  }

  /**
   * `parseDecimal`: 0 for `null`, `undefined` and the empty string; the
   * first ',' becomes '.'; a string that is not numeric or holds only white
   * space gives 0; any other string gives its value. A number is passed
   * through unchanged.
   */
  function ParseDecimal(x: Input, syn: NumberSyntax): (d: real)
    ensures x == Null || x == Text("") ==> d == 0.0
    ensures x.Dec? ==> d == x.d
    ensures x.Text? && x.s != "" && !syn.isNumeric(ReplaceFirst(x.s, ',', '.')) ==> d == 0.0
  {
    match x
    case Null => 0.0
    case Dec(v) => v
    case Text(s) =>
      if s == "" then 0.0
      else
        var t := ReplaceFirst(s, ',', '.');
        if !syn.isNumeric(t) || Trim(t) == "" then 0.0 else syn.valueOf(t)
  }

  /** A string of white space only parses as 0. */
  lemma WhitespaceParsesAsZero(s: string, syn: NumberSyntax)
    requires forall i :: 0 <= i < |s| ==> IsJsSpace(s[i])
    ensures ParseDecimal(Text(s), syn) == 0.0
  {
    assert ',' !in s by {
      forall i | 0 <= i < |s| ensures s[i] != ',' {
        assert IsJsSpace(s[i]);
      }
    }
    assert ReplaceFirst(s, ',', '.') == s;
  }

  /** A numeric string without a comma parses as its own value. */
  lemma NumericParsesAsValue(s: string, syn: NumberSyntax)
    requires ',' !in s && syn.isNumeric(s) && Trim(s) != ""
    ensures ParseDecimal(Text(s), syn) == syn.valueOf(s)
  {
    assert s != "";
    assert ReplaceFirst(s, ',', '.') == s;
  }

  /**
   * Only the first comma is a decimal separator: the string is read with
   * that comma replaced by '.', and every later comma kept.
   */
  lemma FirstCommaIsDecimalPoint(s: string, syn: NumberSyntax)
    requires ',' in s
    ensures var i := IndexOf(s, ',');
      var t := s[..i] + "." + s[i + 1..];
      && ',' !in s[..i] && t[i] == '.'
      && ParseDecimal(Text(s), syn) == if syn.isNumeric(t) && Trim(t) != "" then syn.valueOf(t) else 0.0
  {
    var i := IndexOf(s, ',');
    assert ReplaceFirst(s, ',', '.') == s[..i] + "." + s[i + 1..];
  }

  /** "1,5" is read as "1.5". */
  lemma CommaExample(syn: NumberSyntax)
    requires syn.isNumeric("1.5")
    ensures ParseDecimal(Text("1,5"), syn) == syn.valueOf("1.5")
  {
    CommaBecomesPoint();
    PointNotBlank();
  }

  lemma CommaBecomesPoint()
    ensures ReplaceFirst("1,5", ',', '.') == "1.5"
  {
    var s := "1,5";
    assert s[0] == '1' && s[1] == ',';
    assert IndexOf(s[1..], ',') == 0;
    assert IndexOf(s, ',') == 1;
  }

  lemma PointNotBlank()
    ensures Trim("1.5") != ""
  {
    assert !IsJsSpace("1.5"[0]);
  }
}
