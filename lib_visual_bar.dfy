/**
 * `updateVisualBar` of src/lib/uiManager.ts, the older bar. Its scale and
 * zones are those of the newer one; its take-profit markers come from the
 * targets themselves, one for each target on the profit side of the entry.
 */
module LibVisualBar {
  import opened Common
  import opened Types
  import opened Utils
  import opened TradeStore
  import opened VisualBar

  /** The side test of the marker loop: above the entry for a long trade, below it for a short one, never otherwise. */
  predicate OnProfitSide(tradeType: TradeType, p: real, entry: real)
  {
    (tradeType == Long && p > entry) || (tradeType == Short && p < entry)
  }

  /** Whether target price `p` gets a marker; `positiveOnly` also asks for a positive price. */
  predicate Shown(tradeType: TradeType, p: real, entry: real, positiveOnly: bool)
  {
    OnProfitSide(tradeType, p, entry) && (positiveOnly ==> p > 0.0)
  }

  /**
   * The markers of the first `n` targets: target `i` shown gives a marker
   * at its price labelled `TP{i + 1}` with index `i`. With `positiveOnly`
   * false this is the loop as written.
   */
  function TargetMarkers(ts: seq<TargetInput>, syn: NumberSyntax, tradeType: TradeType, entry: real, sc: Scale, n: nat, positiveOnly: bool): (ms: seq<Marker>)
    requires sc.range > 0.0 && n <= |ts|
    ensures |ms| <= n
    ensures forall k :: 0 <= k < |ms| ==>
      && ms[k].index.Some? && ms[k].index.value < n
      && Shown(tradeType, ParseDecimal(ts[ms[k].index.value].price, syn), entry, positiveOnly)
      && ms[k].caption == TpLabel(ms[k].index.value + 1) && !ms[k].isEntry && ms[k].rr.None?
      && ms[k].pos == Position(ParseDecimal(ts[ms[k].index.value].price, syn), sc)
    ensures forall k :: 0 <= k < |ms| - 1 ==> ms[k].index.value < ms[k + 1].index.value
  {
    if n == 0 then []
    else
      var prev := TargetMarkers(ts, syn, tradeType, entry, sc, n - 1, positiveOnly);
      var p := ParseDecimal(ts[n - 1].price, syn);
      if Shown(tradeType, p, entry, positiveOnly) then
        var ms := prev + [Marker(Position(p, sc), TpLabel(n), false, Some(n - 1), None)];
        assert forall k :: 0 <= k < |prev| ==> ms[k] == prev[k];
        ms
      else prev
  }

  /** Every target that is shown has its marker: there are as many markers as shown targets. */
  function ShownCount(ts: seq<TargetInput>, syn: NumberSyntax, tradeType: TradeType, entry: real, n: nat, positiveOnly: bool): nat
    requires n <= |ts|
  {
    if n == 0 then 0
    else
      var shown := if Shown(tradeType, ParseDecimal(ts[n - 1].price, syn), entry, positiveOnly) then 1 else 0;
      ShownCount(ts, syn, tradeType, entry, n - 1, positiveOnly) + shown
  }

  lemma {:induction false} TargetMarkersCount(ts: seq<TargetInput>, syn: NumberSyntax, tradeType: TradeType, entry: real, sc: Scale, n: nat, positiveOnly: bool)
    requires sc.range > 0.0 && n <= |ts|
    ensures |TargetMarkers(ts, syn, tradeType, entry, sc, n, positiveOnly)| == ShownCount(ts, syn, tradeType, entry, n, positiveOnly)
  {
    if n > 0 {
      TargetMarkersCount(ts, syn, tradeType, entry, sc, n - 1, positiveOnly);
    }
  }

  /** The bar drawn by `updateVisualBar(values, targets)`; `positiveOnly` selects the marker filter. */
  function LibBar(v: BarValues, ts: seq<TargetInput>, syn: NumberSyntax, positiveOnly: bool): Bar
  {
    var all := AllPrices(v, ts, syn);
    match BarScale(all)
    case None => EmptyBar
    case Some(sc) =>
      var slPos := Position(ParseDecimal(v.stopLossPrice, syn), sc);
      var entryPos := Position(ParseDecimal(v.entryPrice, syn), sc);
      Bar(Zones(v.tradeType, slPos, entryPos),
          FixedMarkers(slPos, entryPos) + TargetMarkers(ts, syn, v.tradeType, ParseDecimal(v.entryPrice, syn), sc, |ts|, positiveOnly))
  }

  /**
   * `updateVisualBar(values, targets)` as written: the scale, the zones and
   * the stop-loss and entry markers of the newer bar drawn without
   * take-profit details, then a marker for every target on the profit side
   * of the entry, whatever its price.
   */
  function LibUpdateVisualBar(v: BarValues, ts: seq<TargetInput>, syn: NumberSyntax): (bar: Bar)
    ensures bar.zones == UpdateVisualBar(v, ts, [], syn).zones
    ensures UpdateVisualBar(v, ts, [], syn).markers <= bar.markers
  {
    LibBar(v, ts, syn, false)
  }

  /** The bar as evidently intended: take-profit markers only for positive target prices. */
  function LibUpdateVisualBarIntended(v: BarValues, ts: seq<TargetInput>, syn: NumberSyntax): Bar
  {
    LibBar(v, ts, syn, true)
  }

  /** The older bar is empty in the same cases as the newer one. */
  lemma LibEmptyBarCases(v: BarValues, ts: seq<TargetInput>, syn: NumberSyntax)
    ensures var all := AllPrices(v, ts, syn);
      LibUpdateVisualBar(v, ts, syn) == EmptyBar <==>
        ParseDecimal(v.entryPrice, syn) <= 0.0 || ParseDecimal(v.stopLossPrice, syn) <= 0.0 || Highest(all) <= Lowest(all)
  {
    ScaleExists(v, ts, syn);
  }

  /**
   * A drawn bar has two zones, the stop-loss marker, the entry marker, then
   * one marker per target on the profit side of the entry, in target order.
   */
  lemma LibBarLayout(v: BarValues, ts: seq<TargetInput>, syn: NumberSyntax)
    requires LibUpdateVisualBar(v, ts, syn) != EmptyBar
    ensures var bar := LibUpdateVisualBar(v, ts, syn);
      && |bar.zones| == 2
      && |bar.markers| == 2 + ShownCount(ts, syn, v.tradeType, ParseDecimal(v.entryPrice, syn), |ts|, false)
      && bar.markers[0].caption == SlLabel && bar.markers[1].caption == EntryLabel
      && forall i :: 2 <= i < |bar.markers| ==> bar.markers[i].caption.TpLabel?
  {
    var sc := BarScale(AllPrices(v, ts, syn)).value;
    TargetMarkersCount(ts, syn, v.tradeType, ParseDecimal(v.entryPrice, syn), sc, |ts|, false);
  }

  /** Every marker of a drawn bar lies between 0 and 100 once markers need a positive price. */
  lemma LibPositionsInBar(v: BarValues, ts: seq<TargetInput>, syn: NumberSyntax)
    requires LibUpdateVisualBarIntended(v, ts, syn) != EmptyBar
    ensures var bar := LibUpdateVisualBarIntended(v, ts, syn);
      forall i :: 0 <= i < |bar.markers| ==> 0.0 <= bar.markers[i].pos <= 100.0
  {
    var all := AllPrices(v, ts, syn);
    var sc := BarScale(all).value;
    var tm := TargetMarkers(ts, syn, v.tradeType, ParseDecimal(v.entryPrice, syn), sc, |ts|, true);
    var fixed := FixedMarkers(Position(all[1], sc), Position(all[0], sc));
    assert LibUpdateVisualBarIntended(v, ts, syn).markers == fixed + tm;
    assert all[0] in all && all[1] in all;
    PriceInBar(all, all[0]);
    PriceInBar(all, all[1]);
    TargetMarkersInBar(ts, syn, v.tradeType, ParseDecimal(v.entryPrice, syn), all, |ts|);
    assert forall k :: 0 <= k < |fixed| ==> 0.0 <= fixed[k].pos <= 100.0;
    MarkersInBar(fixed, tm);
  }

  /** Two runs of markers between 0 and 100 make one. */
  lemma MarkersInBar(a: seq<Marker>, b: seq<Marker>)
    requires forall k :: 0 <= k < |a| ==> 0.0 <= a[k].pos <= 100.0
    requires forall k :: 0 <= k < |b| ==> 0.0 <= b[k].pos <= 100.0
    ensures forall k :: 0 <= k < |a + b| ==> 0.0 <= (a + b)[k].pos <= 100.0
  {
    forall k | 0 <= k < |a + b|
      ensures 0.0 <= (a + b)[k].pos <= 100.0
    {
      if k >= |a| {
        assert (a + b)[k] == b[k - |a|];
      }
    }
  }

  /** The target markers with positive prices lie between 0 and 100 when the scale spans every positive price. */
  lemma TargetMarkersInBar(ts: seq<TargetInput>, syn: NumberSyntax, tradeType: TradeType, entry: real, all: seq<real>, n: nat)
    requires all != [] && BarScale(all).Some? && n <= |ts|
    requires forall i :: 0 <= i < |ts| && ParseDecimal(ts[i].price, syn) > 0.0 ==> ParseDecimal(ts[i].price, syn) in all
    ensures forall k :: 0 <= k < |TargetMarkers(ts, syn, tradeType, entry, BarScale(all).value, n, true)| ==>
      0.0 <= TargetMarkers(ts, syn, tradeType, entry, BarScale(all).value, n, true)[k].pos <= 100.0
  {
    var tm := TargetMarkers(ts, syn, tradeType, entry, BarScale(all).value, n, true);
    forall k | 0 <= k < |tm|
      ensures 0.0 <= tm[k].pos <= 100.0
    {
      PriceInBar(all, ParseDecimal(ts[tm[k].index.value].price, syn));
    }
  }

  /**
   * A short trade whose target row is still empty: the loop as written
   * reads the empty price as 0, finds it below the entry, and puts a
   * `TP1` marker at -1000, far outside the bar; the intended bar has only
   * the stop-loss and entry markers.
   */
  lemma EmptyShortTargetMarked(syn: NumberSyntax)
    ensures var v := BarValues(Dec(100.0), Dec(110.0), Short);
      var ts := [TargetInput(Null, Null, false)];
      && |LibUpdateVisualBar(v, ts, syn).markers| == 3
      && LibUpdateVisualBar(v, ts, syn).markers[2..] == [Marker(-1000.0, TpLabel(1), false, Some(0), None)]
      && |LibUpdateVisualBarIntended(v, ts, syn).markers| == 2
  {
    var v := BarValues(Dec(100.0), Dec(110.0), Short);
    var ts := [TargetInput(Null, Null, false)];
    var sc := Scale(100.0, 10.0);
    EmptyTargetScale(syn);
    assert Position(0.0, sc) == -1000.0;
    assert TargetMarkers(ts, syn, Short, 100.0, sc, 1, false) == [Marker(-1000.0, TpLabel(1), false, Some(0), None)];
    assert TargetMarkers(ts, syn, Short, 100.0, sc, 1, true) == [];
  }

  /** With one empty target, entry 100 and stop-loss 110 the bar spans 100 to 110. */
  lemma EmptyTargetScale(syn: NumberSyntax)
    ensures BarScale(AllPrices(BarValues(Dec(100.0), Dec(110.0), Short), [TargetInput(Null, Null, false)], syn)) == Some(Scale(100.0, 10.0))
  {
    var ts := [TargetInput(Null, Null, false)];
    assert PositivePrices(ts[1..], syn) == [];
    assert PositivePrices(ts, syn) == [];
    var all := AllPrices(BarValues(Dec(100.0), Dec(110.0), Short), ts, syn);
    assert all == [100.0, 110.0];
    assert Highest(all) == 110.0 && Lowest(all) == 100.0;
  }
}
