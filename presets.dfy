/**
 * The presets of src/lib/presets.ts: named copies of the application
 * state, kept as one JSON object in local storage. Saving and deleting
 * rewrite that object and refresh the store's list of preset names;
 * applying one overlays its fields on the store. The store is the
 * application state of src/lib/stores.ts, a record of named fields.
 */
module Presets {

  /** A JSON value, the shape of every state field and every stored preset. */
  datatype Json =
    | JNull
    | JBool(b: bool)
    | JNum(n: real)
    | JStr(s: string)
    | JArray(items: seq<Json>)
    | JObject(fields: map<string, Json>)

  const AvailablePresetsKey := "availablePresets"
  const SelectedPresetKey := "selectedPreset"

  /** A preset, like the state it was taken from, is a record of named fields. */
  type Fields = map<string, Json>

  /** The names in stored order as a JSON array of strings. */
  function NameList(names: seq<string>): (j: Json)
    ensures j.JArray? && |j.items| == |names|
    ensures forall i :: 0 <= i < |names| ==> j.items[i] == JStr(names[i])
  {
    if names == [] then JArray([])
    else JArray(NameList(names[..|names| - 1]).items + [JStr(names[|names| - 1])])
  }

  /** No name occurs twice. */
  predicate Distinct(names: seq<string>)
  {
    forall i, j :: 0 <= i < j < |names| ==> names[i] != names[j]
  }

  /** The names without `name`, order kept. */
  function Without(names: seq<string>, name: string): (r: seq<string>)
    ensures forall x :: x in r <==> x in names && x != name
    ensures Distinct(names) ==> Distinct(r)
  {
    if names == [] then []
    else if names[0] == name then Without(names[1..], name)
    else
      var rest := Without(names[1..], name);
      assert Distinct(names) ==> names[0] !in names[1..];
      [names[0]] + rest
  }

  /**
   * The result fields `clearResults(showGuidance)` resets, with their reset
   * values: dashes for the figures, no take-profit details, hidden groups,
   * and the data prompt when guidance is asked for.
   */
  function ClearedResults(showGuidance: bool): (m: Fields)
    ensures SelectedPresetKey !in m && AvailablePresetsKey !in m
    ensures "showErrorMessage" in m && m["showErrorMessage"] == JBool(showGuidance)
  {
    map[
      "positionSize" := JStr("-"),
      "requiredMargin" := JStr("-"),
      "netLoss" := JStr("-"),
      "liquidationPrice" := JStr("-"),
      "breakEvenPrice" := JStr("-"),
      "totalRR" := JStr("-"),
      "totalNetProfit" := JStr("-"),
      "totalPercentSold" := JStr("-"),
      "riskAmountCurrency" := JStr("-"),
      "totalFees" := JStr("-"),
      "maxPotentialProfit" := JStr("-"),
      "calculatedTpDetails" := JArray([]),
      "showTotalMetricsGroup" := JBool(false),
      "showAtrFormulaDisplay" := JBool(false),
      "atrFormulaText" := JStr(""),
      "errorMessage" := JStr(if showGuidance then "dashboard.promptForData" else ""),
      "showErrorMessage" := JBool(showGuidance)]
  }

  /** `{...state, ...overlay}`: the overlay's fields win. */
  function Spread(state: Fields, overlay: Fields): (r: Fields)
    ensures forall k :: k in r <==> k in state || k in overlay
    ensures forall k :: k in overlay ==> r[k] == overlay[k]
    ensures forall k :: k in state && k !in overlay ==> r[k] == state[k]
  {
    map k | k in state.Keys + overlay.Keys :: if k in overlay then overlay[k] else state[k]
  }

  /**
   * The stored presets, the order of their names in the stored object
   * (insertion order, as `Object.keys` gives it), and the application state.
   */
  class PresetStore {
    var presets: map<string, Fields>
    var names: seq<string>
    var state: Fields

    /** The name list is the stored object's key set, each name once. */
    ghost predicate Valid()
      reads this
    {
      Distinct(names) && (forall x :: x in names <==> x in presets)
    }

    constructor (state: Fields)
      ensures presets == map[] && names == [] && this.state == state
      ensures Valid()
    {
      presets := map[];
      names := [];
      this.state := state;
    }

    /**
     * `savePreset(name, data)`: stores `data` under `name` (a new name goes
     * to the end of the list), publishes the names and selects `name`. When
     * the write to storage fails nothing changes.
     */
    method SavePreset(name: string, data: Fields, writeFails: bool)
      requires Valid()
      modifies this
      ensures Valid()
      ensures writeFails ==> presets == old(presets) && names == old(names) && state == old(state)
      ensures !writeFails ==>
        && presets == old(presets)[name := data]
        && names == (if name in old(presets) then old(names) else old(names) + [name])
        && state == old(state)[AvailablePresetsKey := NameList(names)][SelectedPresetKey := JStr(name)]
    {
      if writeFails {
        return;
      }
      var newNames := if name in presets then names else names + [name];
      presets := presets[name := data];
      names := newNames;
      state := state[AvailablePresetsKey := NameList(names)][SelectedPresetKey := JStr(name)];
    }

    /**
     * `deletePreset(name)`: removes `name` from the stored presets and the
     * list, and clears the selection exactly when it was `name`. An absent
     * selection reads as `JNull`. When the write fails nothing changes.
     */
    method DeletePreset(name: string, writeFails: bool)
      requires Valid()
      modifies this
      ensures Valid()
      ensures writeFails ==> presets == old(presets) && names == old(names) && state == old(state)
      ensures !writeFails ==>
        && presets == old(presets) - {name}
        && names == Without(old(names), name)
        && state == old(state)[AvailablePresetsKey := NameList(names)][SelectedPresetKey := Deselected(old(state), name)]
    {
      if writeFails {
        return;
      }
      presets := presets - {name};
      names := Without(names, name);
      state := state[AvailablePresetsKey := NameList(names)][SelectedPresetKey := Deselected(state, name)];
    }

    /**
     * `applyPreset(name)`: an unknown name changes nothing; a known one
     * overlays the preset's fields, selects `name`, then clears the results
     * with guidance shown.
     */
    method ApplyPreset(name: string)
      modifies this
      ensures presets == old(presets) && names == old(names)
      ensures name !in presets ==> state == old(state)
      ensures name in presets ==> state == Spread(Spread(old(state), presets[name])[SelectedPresetKey := JStr(name)], ClearedResults(true))
    {
      if name in presets {
        state := Spread(state, presets[name])[SelectedPresetKey := JStr(name)];
        state := Spread(state, ClearedResults(true));
      }
    }
  }

  /** The selection after deleting `name`: cleared when it was `name`, kept otherwise. */
  function Deselected(state: Fields, name: string): (j: Json)
  {
    var current := if SelectedPresetKey in state then state[SelectedPresetKey] else JNull;
    if current == JStr(name) then JStr("") else current
  }

  /** The selection is cleared exactly when it named the deleted preset. */
  lemma DeselectedIff(state: Fields, name: string)
    ensures Deselected(state, name) == JStr("") <==>
      SelectedPresetKey in state && (state[SelectedPresetKey] == JStr(name) || state[SelectedPresetKey] == JStr(""))
    ensures SelectedPresetKey in state && state[SelectedPresetKey] != JStr(name) ==> Deselected(state, name) == state[SelectedPresetKey]
  {
  }

  /**
   * After applying a known preset, every field that is neither a result
   * nor the selection holds the preset's value if the preset has the
   * field and its old value otherwise; the selection is the preset's name;
   * the results show the data prompt.
   */
  lemma AppliedFields(state: Fields, preset: Fields, name: string)
    ensures var r := Spread(Spread(state, preset)[SelectedPresetKey := JStr(name)], ClearedResults(true));
      && r[SelectedPresetKey] == JStr(name)
      && r["errorMessage"] == JStr("dashboard.promptForData") && r["showErrorMessage"] == JBool(true)
      && forall k :: k != SelectedPresetKey && k !in ClearedResults(true) ==>
           && (k in r <==> k in state || k in preset)
           && (k in preset ==> r[k] == preset[k])
           && (k in state && k !in preset ==> r[k] == state[k])
  {
  }

  /** The published list names exactly the stored presets, in stored order. */
  lemma PublishedNames(names: seq<string>, presets: map<string, Fields>)
    requires Distinct(names) && forall x :: x in names <==> x in presets
    ensures forall x :: JStr(x) in NameList(names).items <==> x in presets
    ensures |NameList(names).items| == |presets.Keys|
  {
    var j := NameList(names);
    forall x | JStr(x) in j.items
      ensures x in presets
    {
      var i :| 0 <= i < |j.items| && j.items[i] == JStr(x);
      assert names[i] == x;
    }
    forall x | x in presets
      ensures JStr(x) in j.items
    {
      var i :| 0 <= i < |names| && names[i] == x;
      assert j.items[i] == JStr(x);
    }
    DistinctCard(names, presets);
  }

  /** A list of distinct names has as many entries as the set it lists. */
  lemma {:induction false} DistinctCard(names: seq<string>, presets: map<string, Fields>)
    requires Distinct(names) && forall x :: x in names <==> x in presets
    ensures |names| == |presets.Keys|
  {
    if names == [] {
      assert presets.Keys == {};
    } else {
      var last := names[|names| - 1];
      var rest := names[..|names| - 1];
      assert forall x :: x in rest <==> x in names && x != last;
      DistinctCard(rest, presets - {last});
      assert presets.Keys == (presets - {last}).Keys + {last};
    }
  }
}
