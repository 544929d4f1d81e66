/**
 * `updateVisualBar` of src/services/uiManager.ts: the bar under the
 * calculator that places the stop-loss, the entry and the take-profit
 * targets on a 0 to 100 scale between the lowest and the highest price,
 * with a loss zone and a gain zone. The style strings the source builds
 * (`"<n>%"`) are kept as the numbers they print.
 */
module VisualBar {
  import opened Common
  import opened Types
  import opened Utils
  import opened TradeStore

  datatype ZoneKind = LossZone | GainZone

  /** One coloured stretch of the bar: where it starts and how wide it is, in percent. */
  datatype Zone = Zone(kind: ZoneKind, left: real, width: real)

  /** A marker's label: 'SL', 'Einstieg', or `TP{n}`. */
  datatype Label = SlLabel | EntryLabel | TpLabel(number: nat)

  datatype Marker = Marker(pos: real, caption: Label, isEntry: bool, index: Option<nat>, rr: Option<real>)

  /** `VisualBarData`. */
  datatype Bar = Bar(zones: seq<Zone>, markers: seq<Marker>)

  const EmptyBar := Bar([], [])

  /** The values the bar reads. */
  datatype BarValues = BarValues(entryPrice: Input, stopLossPrice: Input, tradeType: TradeType)

  /** `targets.map(t => parseDecimal(t.price)).filter(p => p.gt(0))`. */
  function PositivePrices(ts: seq<TargetInput>, syn: NumberSyntax): (ps: seq<real>)
    ensures forall p :: p in ps ==> p > 0.0
    ensures forall i :: 0 <= i < |ts| && ParseDecimal(ts[i].price, syn) > 0.0 ==> ParseDecimal(ts[i].price, syn) in ps
  {
    if ts == [] then []
    else
      var p := ParseDecimal(ts[0].price, syn);
      var rest := PositivePrices(ts[1..], syn);
      assert forall i :: 1 <= i < |ts| ==> ts[i] == ts[1..][i - 1];
      var head := if p > 0.0 then [p] else [];
      var ps := head + rest;
      assert forall x :: x in rest ==> x in ps;
      ps
  }

  /** `Decimal.max(...s)`. */
  function Highest(s: seq<real>): (m: real)
    requires s != []
    ensures m in s && forall x :: x in s ==> x <= m
  {
    if |s| == 1 then s[0]
    else
      assert s == [s[0]] + s[1..];
      Max(s[0], Highest(s[1..]))
  }

  /** `Decimal.min(...s)`. */
  function Lowest(s: seq<real>): (m: real)
    requires s != []
    ensures m in s && forall x :: x in s ==> m <= x
  {
    if |s| == 1 then s[0]
    else
      assert s == [s[0]] + s[1..];
      Min(s[0], Lowest(s[1..]))
  }

  /** The scale of the bar: its lowest price and the width of the price range. */
  datatype Scale = Scale(lowest: real, range: real)

  /**
   * The scale of a bar over the prices `all`, or `None` (an empty bar)
   * when a price is not positive or the prices do not span a range.
   */
  function BarScale(all: seq<real>): (sc: Option<Scale>)
    requires all != []
    ensures sc.Some? <==> (forall p :: p in all ==> p > 0.0) && Lowest(all) < Highest(all)
    ensures sc.Some? ==> sc.value.lowest == Lowest(all) && sc.value.lowest + sc.value.range == Highest(all)
  {
    if exists p :: p in all && p <= 0.0 then None
    else
      var range := Highest(all) - Lowest(all);
      if range <= 0.0 then None else Some(Scale(Lowest(all), range))
  }

  /** `p.minus(lowestPrice).dividedBy(totalRange).times(100)`. */
  function Position(p: real, sc: Scale): real
    requires sc.range > 0.0
  {
    (p - sc.lowest) / sc.range * 100.0
  }

  lemma DivAtMostOne(a: real, b: real)
    requires 0.0 <= a <= b && b > 0.0
    ensures 0.0 <= a / b <= 1.0
  {
    assert a / b * b == a;
  }

  /** A price between the lowest and the highest lies between 0 and 100 on the bar, the ends at the ends. */
  lemma PositionInBar(p: real, sc: Scale)
    requires sc.range > 0.0 && sc.lowest <= p <= sc.lowest + sc.range
    ensures 0.0 <= Position(p, sc) <= 100.0
    ensures p == sc.lowest ==> Position(p, sc) == 0.0
    ensures p == sc.lowest + sc.range ==> Position(p, sc) == 100.0
  {
    DivAtMostOne(p - sc.lowest, sc.range);
  }

  /**
   * The two zones: for a long trade a loss zone from the stop-loss to the
   * entry, then a gain zone from the entry to the end; otherwise a gain
   * zone from the start to the entry, then a loss zone from the entry to
   * the stop-loss. Each zone starts where the one before it ends.
   */
  function Zones(tradeType: TradeType, slPos: real, entryPos: real): (zs: seq<Zone>)
    ensures |zs| == 2 && zs[0].left + zs[0].width == zs[1].left
    ensures tradeType == Long ==>
      && zs[0].kind == LossZone && zs[0].left == slPos && zs[1].left == entryPos
      && zs[1].kind == GainZone && zs[1].left + zs[1].width == 100.0
    ensures tradeType != Long ==>
      && zs[0].kind == GainZone && zs[0].left == 0.0 && zs[1].left == entryPos
      && zs[1].kind == LossZone && zs[1].left + zs[1].width == slPos
  {
    if tradeType == Long then [Zone(LossZone, slPos, entryPos - slPos), Zone(GainZone, entryPos, 100.0 - entryPos)]
    else [Zone(GainZone, 0.0, entryPos), Zone(LossZone, entryPos, slPos - entryPos)]
  }

  /** The stop-loss marker and the entry marker. */
  function FixedMarkers(slPos: real, entryPos: real): seq<Marker>
  {
    [Marker(slPos, SlLabel, false, None, None), Marker(entryPos, EntryLabel, true, None, None)]
  }

  /** The details name targets that exist: `targets[tpDetail.index]` is read for each. */
  predicate DetailsInRange(ts: seq<TargetInput>, details: seq<IndividualTpResult>)
  {
    forall i :: 0 <= i < |details| ==> details[i].index < |ts|
  }

  /**
   * `calculatedTpDetails.forEach(...)`: one marker per detail, in order,
   * at the price of the target the detail names, labelled with that
   * target's number and carrying the detail's risk/reward ratio.
   */
  function DetailMarkers(ts: seq<TargetInput>, details: seq<IndividualTpResult>, syn: NumberSyntax, sc: Scale): (ms: seq<Marker>)
    requires sc.range > 0.0 && DetailsInRange(ts, details)
    ensures |ms| == |details|
    ensures forall i :: 0 <= i < |details| ==>
      && ms[i].caption == TpLabel(details[i].index + 1) && ms[i].index == Some(details[i].index)
      && ms[i].rr == Some(details[i].riskRewardRatio) && !ms[i].isEntry
      && ms[i].pos == Position(ParseDecimal(ts[details[i].index].price, syn), sc)
  {
    if details == [] then []
    else
      var d := details[|details| - 1];
      DetailMarkers(ts, details[..|details| - 1], syn, sc)
      + [Marker(Position(ParseDecimal(ts[d.index].price, syn), sc), TpLabel(d.index + 1), false, Some(d.index), Some(d.riskRewardRatio))]
  }

  /** Every price the bar spans: entry, stop-loss, and the positive target prices. */
  function AllPrices(v: BarValues, ts: seq<TargetInput>, syn: NumberSyntax): (all: seq<real>)
    ensures |all| >= 2 && all[0] == ParseDecimal(v.entryPrice, syn) && all[1] == ParseDecimal(v.stopLossPrice, syn)
  {
    [ParseDecimal(v.entryPrice, syn), ParseDecimal(v.stopLossPrice, syn)] + PositivePrices(ts, syn)
  }

  /** `updateVisualBar(values, targets, calculatedTpDetails)`. */
  function UpdateVisualBar(v: BarValues, ts: seq<TargetInput>, details: seq<IndividualTpResult>, syn: NumberSyntax): (bar: Bar)
    requires DetailsInRange(ts, details)
  {
    var all := AllPrices(v, ts, syn);
    match BarScale(all)
    case None => EmptyBar
    case Some(sc) =>
      var slPos := Position(ParseDecimal(v.stopLossPrice, syn), sc);
      var entryPos := Position(ParseDecimal(v.entryPrice, syn), sc);
      Bar(Zones(v.tradeType, slPos, entryPos), FixedMarkers(slPos, entryPos) + DetailMarkers(ts, details, syn, sc))
  }

  /** The scale exists exactly when entry and stop-loss are positive and the prices span a range. */
  lemma ScaleExists(v: BarValues, ts: seq<TargetInput>, syn: NumberSyntax)
    ensures var all := AllPrices(v, ts, syn);
      BarScale(all).Some? <==>
        ParseDecimal(v.entryPrice, syn) > 0.0 && ParseDecimal(v.stopLossPrice, syn) > 0.0 && Lowest(all) < Highest(all)
  {
    var all := AllPrices(v, ts, syn);
    var rest := PositivePrices(ts, syn);
    assert forall p :: p in all ==> p == all[0] || p == all[1] || p in rest;
  }

  /**
   * The bar is empty when the entry or the stop-loss is not positive, or
   * when all prices coincide; otherwise it has its two zones and at least
   * its two fixed markers.
   */
  lemma EmptyBarCases(v: BarValues, ts: seq<TargetInput>, details: seq<IndividualTpResult>, syn: NumberSyntax)
    requires DetailsInRange(ts, details)
    ensures var all := AllPrices(v, ts, syn);
      var bar := UpdateVisualBar(v, ts, details, syn);
      && (bar == EmptyBar <==>
          ParseDecimal(v.entryPrice, syn) <= 0.0 || ParseDecimal(v.stopLossPrice, syn) <= 0.0 || Highest(all) <= Lowest(all))
      && (bar != EmptyBar ==> |bar.zones| == 2 && |bar.markers| == 2 + |details|)
  {
    ScaleExists(v, ts, syn);
  }

  /** Every price the scale was taken from lies between 0 and 100 on the bar. */
  lemma PriceInBar(all: seq<real>, p: real)
    requires all != [] && BarScale(all).Some? && p in all
    ensures 0.0 <= Position(p, BarScale(all).value) <= 100.0
  {
    PositionInBar(p, BarScale(all).value);
  }

  /**
   * On a drawn bar the stop-loss and the entry lie between 0 and 100,
   * the lowest price at 0 and the highest at 100.
   */
  lemma PositionsInBar(v: BarValues, ts: seq<TargetInput>, details: seq<IndividualTpResult>, syn: NumberSyntax)
    requires DetailsInRange(ts, details)
    requires UpdateVisualBar(v, ts, details, syn) != EmptyBar
    ensures var all := AllPrices(v, ts, syn);
      var bar := UpdateVisualBar(v, ts, details, syn);
      && BarScale(all).Some?
      && Position(Lowest(all), BarScale(all).value) == 0.0
      && Position(Highest(all), BarScale(all).value) == 100.0
      && 0.0 <= bar.markers[0].pos <= 100.0
      && 0.0 <= bar.markers[1].pos <= 100.0
  {
    var all := AllPrices(v, ts, syn);
    var sc := BarScale(all).value;
    PositionInBar(Lowest(all), sc);
    PositionInBar(Highest(all), sc);
    assert all[0] in all && all[1] in all;
    PriceInBar(all, all[0]);
    PriceInBar(all, all[1]);
  }

  /** On a drawn bar every take-profit marker whose target price is positive lies between 0 and 100. */
  lemma TpPositionsInBar(v: BarValues, ts: seq<TargetInput>, details: seq<IndividualTpResult>, syn: NumberSyntax)
    requires DetailsInRange(ts, details)
    requires UpdateVisualBar(v, ts, details, syn) != EmptyBar
    ensures var bar := UpdateVisualBar(v, ts, details, syn);
      forall i :: 2 <= i < |bar.markers| && ParseDecimal(ts[details[i - 2].index].price, syn) > 0.0 ==>
        0.0 <= bar.markers[i].pos <= 100.0
  {
    var all := AllPrices(v, ts, syn);
    var sc := BarScale(all).value;
    var bar := UpdateVisualBar(v, ts, details, syn);
    var dm := DetailMarkers(ts, details, syn, sc);
    assert bar.markers == FixedMarkers(bar.markers[0].pos, bar.markers[1].pos) + dm;
    forall i | 2 <= i < |bar.markers| && ParseDecimal(ts[details[i - 2].index].price, syn) > 0.0
      ensures 0.0 <= bar.markers[i].pos <= 100.0
    {
      var p := ParseDecimal(ts[details[i - 2].index].price, syn);
      assert p in all;
      assert bar.markers[i] == dm[i - 2];
      PriceInBar(all, p);
    }
  }

  /**
   * A drawn bar lists the stop-loss marker, then the entry marker, then
   * one marker per detail labelled `TP{index + 1}` with that detail's
   * risk/reward ratio; for a long trade the loss zone runs from the
   * stop-loss to the entry and the gain zone from the entry to 100,
   * otherwise the gain zone runs from 0 to the entry and the loss zone
   * from the entry to the stop-loss.
   */
  lemma BarLayout(v: BarValues, ts: seq<TargetInput>, details: seq<IndividualTpResult>, syn: NumberSyntax)
    requires DetailsInRange(ts, details)
    requires UpdateVisualBar(v, ts, details, syn) != EmptyBar
    ensures var bar := UpdateVisualBar(v, ts, details, syn);
      var sl := bar.markers[0].pos;
      var entry := bar.markers[1].pos;
      && |bar.markers| == 2 + |details|
      && bar.markers[0].caption == SlLabel && !bar.markers[0].isEntry
      && bar.markers[1].caption == EntryLabel && bar.markers[1].isEntry
      && (forall i :: 2 <= i < |bar.markers| ==>
            bar.markers[i].caption == TpLabel(details[i - 2].index + 1) && bar.markers[i].rr == Some(details[i - 2].riskRewardRatio))
      && |bar.zones| == 2
      && (v.tradeType == Long ==>
            bar.zones[0] == Zone(LossZone, sl, entry - sl) && bar.zones[1] == Zone(GainZone, entry, 100.0 - entry))
      && (v.tradeType != Long ==>
            bar.zones[0] == Zone(GainZone, 0.0, entry) && bar.zones[1] == Zone(LossZone, entry, sl - entry))
  {
    var all := AllPrices(v, ts, syn);
    var sc := BarScale(all).value;
    var bar := UpdateVisualBar(v, ts, details, syn);
    var dm := DetailMarkers(ts, details, syn, sc);
    assert bar.markers == FixedMarkers(bar.markers[0].pos, bar.markers[1].pos) + dm;
    forall i | 2 <= i < |bar.markers|
      ensures bar.markers[i].caption == TpLabel(details[i - 2].index + 1) && bar.markers[i].rr == Some(details[i - 2].riskRewardRatio)
    {
      assert bar.markers[i] == dm[i - 2];
    }
  }
}
