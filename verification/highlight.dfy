/**
 * The marker highlight of js/utils.js: `highlightState.objectId`, the
 * module variable `_highlightedMarker`, and the icons the markers show.
 * The marker registry (`markerLookup` of js/layers.js) is passed in.
 */
module Highlight {
  import opened Values

  /**
   * A layer the points layer created for a feature. `handle` is the
   * object's identity; the two flags say whether it has the Leaflet marker
   * methods `getLatLng` and `setIcon`.
   */
  datatype Marker = Marker(handle: nat, feature: Option<Feature>, hasGetLatLng: bool, hasSetIcon: bool)

  /** `markerLookup`: `Number(OBJECTID)` to the last layer created for it. */
  type Registry = map<JsNum, Marker>

  /** `isLeafletMarker(layer)` */
  predicate IsLeafletMarker(m: Marker) {
    m.hasGetLatLng && m.hasSetIcon
  }

  /**
   * The highlight: the recorded OBJECTID, `_highlightedMarker`, and the
   * markers currently showing the selected (red) icon.
   */
  datatype HighlightView = HighlightView(objectId: Option<int>, marker: Option<Marker>, selected: set<Marker>)

  /** `applyIconState(m, on)`: only Leaflet markers change icon. */
  function Paint(selected: set<Marker>, m: Marker, on: bool): (r: set<Marker>)
    ensures IsLeafletMarker(m) && on ==> r == selected + {m}
    ensures IsLeafletMarker(m) && !on ==> r == selected - {m}
    ensures !IsLeafletMarker(m) ==> r == selected
  {
    if !IsLeafletMarker(m) then selected else if on then selected + {m} else selected - {m}
  }

  /** The invariant: at most the highlighted marker shows the selected icon, and only markers can. */
  predicate AtMostOneSelected(v: HighlightView) {
    (forall m :: m in v.selected ==> v.marker == Some(m))
    && (forall m :: m in v.selected ==> IsLeafletMarker(m))
  }

  /** `setHighlightedMarkerById(objectId)` after `Number(objectId)`. */
  function SetHighlightedById(v: HighlightView, registry: Registry, id: JsNum): HighlightView {
    match id
    case NaN => v
    case Finite(i) =>
      if id !in registry then v.(objectId := Some(i))
      else
        var m := registry[id];
        var unpainted := if v.marker.Some? && v.marker.value != m then Paint(v.selected, v.marker.value, false) else v.selected;
        HighlightView(Some(i), Some(m), Paint(unpainted, m, true))
  }

  /** `clearHighlightedMarker()` */
  function ClearHighlighted(v: HighlightView): HighlightView {
    HighlightView(None, None, if v.marker.Some? then Paint(v.selected, v.marker.value, false) else v.selected)
  }

  /**
   * A non-finite id changes nothing; a finite one is recorded whether or
   * not a marker is registered; a registered marker becomes the
   * highlighted one and, if it is a Leaflet marker, the only one selected.
   */
  lemma SetHighlightedEffect(v: HighlightView, registry: Registry, id: JsNum)
    requires AtMostOneSelected(v)
    ensures var r := SetHighlightedById(v, registry, id);
      AtMostOneSelected(r)
      && (id.NaN? ==> r == v)
      && (id.Finite? ==> r.objectId == Some(id.i))
      && (id.Finite? && id !in registry ==> r.marker == v.marker && r.selected == v.selected)
      && (id.Finite? && id in registry ==>
            r.marker == Some(registry[id])
            && r.selected == (if IsLeafletMarker(registry[id]) then {registry[id]} else {}))
  {
    var r := SetHighlightedById(v, registry, id);
    if id.Finite? && id in registry {
      var m := registry[id];
      if v.marker.Some? && v.marker.value != m {
        var old_ := v.marker.value;
        if IsLeafletMarker(old_) {
          assert v.selected - {old_} == {};
        } else {
          assert old_ !in v.selected;
          assert v.selected == {};
        }
      } else {
        assert v.selected <= {m};
      }
    }
  }

  /** Clearing leaves no id, no highlighted marker and no selected icon. */
  lemma ClearEffect(v: HighlightView)
    requires AtMostOneSelected(v)
    ensures var r := ClearHighlighted(v);
      r.objectId.None? && r.marker.None? && r.selected == {} && AtMostOneSelected(r)
  {
    if v.marker.Some? && !IsLeafletMarker(v.marker.value) {
      assert v.marker.value !in v.selected;
    }
  }

  /** Highlighting a sequence of ids one after another: the last finite one is recorded. */
  function SetMany(v: HighlightView, registry: Registry, ids: seq<JsNum>): HighlightView
    decreases |ids|
  {
    if ids == [] then v else SetMany(SetHighlightedById(v, registry, ids[0]), registry, ids[1..])
  }

  lemma {:induction false} SetManyKeepsInvariant(v: HighlightView, registry: Registry, ids: seq<JsNum>)
    requires AtMostOneSelected(v)
    ensures AtMostOneSelected(SetMany(v, registry, ids))
    ensures |ids| > 0 && ids[|ids| - 1].Finite? ==>
      SetMany(v, registry, ids).objectId == Some(ids[|ids| - 1].i)
    decreases |ids|
  {
    if ids != [] {
      SetHighlightedEffect(v, registry, ids[0]);
      SetManyKeepsInvariant(SetHighlightedById(v, registry, ids[0]), registry, ids[1..]);
      if |ids| == 1 {
        assert SetMany(SetHighlightedById(v, registry, ids[0]), registry, ids[1..])
          == SetHighlightedById(v, registry, ids[0]);
      } else {
        assert ids[1..][|ids[1..]| - 1] == ids[|ids| - 1];
      }
    }
  }

  /**
   * The re-apply step of the `createfeature` handler in js/layers.js as
   * written: a new layer for the highlighted id gets the selected icon
   * when it has `setIcon`, but `_highlightedMarker` keeps the old layer.
   */
  function ReapplyAsWritten(v: HighlightView, id: JsNum, layer: Marker): HighlightView {
    if v.objectId.Some? && id == Finite(v.objectId.value) && layer.hasSetIcon
    then v.(selected := v.selected + {layer})
    else v
  }

  /**
   * The re-apply step as intended: a new layer for the highlighted id
   * takes over the highlight exactly as `setHighlightedMarkerById` would.
   */
  function Reapply(v: HighlightView, registry: Registry, id: JsNum): HighlightView
    requires id in registry
  {
    if v.objectId.Some? && id == Finite(v.objectId.value) then SetHighlightedById(v, registry, id) else v
  }

  /** The intended re-apply keeps the invariant and selects the new marker. */
  lemma ReapplyEffect(v: HighlightView, registry: Registry, id: JsNum)
    requires id in registry && AtMostOneSelected(v)
    ensures AtMostOneSelected(Reapply(v, registry, id))
    ensures v.objectId.Some? && id == Finite(v.objectId.value) ==>
      Reapply(v, registry, id).marker == Some(registry[id])
      && (IsLeafletMarker(registry[id]) ==> registry[id] in Reapply(v, registry, id).selected)
  {
    SetHighlightedEffect(v, registry, id);
  }

  /** The highlight state of js/utils.js. */
  class HighlightState {
    /** `highlightState.objectId` */
    var objectId: Option<int>
    /** `_highlightedMarker` */
    var marker: Option<Marker>
    /** markers showing the selected icon */
    ghost var selected: set<Marker>

    constructor ()
      ensures View() == HighlightView(None, None, {})
    {
      objectId := None;
      marker := None;
      selected := {};
    }

    ghost function View(): HighlightView
      reads this
    {
      HighlightView(objectId, marker, selected)
    }

    ghost predicate Valid()
      reads this
    {
      AtMostOneSelected(View())
    }

    /** `setHighlightedMarkerById(objectId)` */
    method SetHighlightedMarkerById(registry: Registry, objectId: Value)
      requires Valid()
      modifies this
      ensures Valid()
      ensures View() == SetHighlightedById(old(View()), registry, ToNumber(objectId))
    {
      SetHighlightedEffect(View(), registry, ToNumber(objectId));
      var id := ToNumber(objectId);
      if id.NaN? {
        return;
      }
      this.objectId := Some(id.i);
      if id !in registry {
        return;
      }
      var m := registry[id];
      if marker.Some? && marker.value != m {
        selected := Paint(selected, marker.value, false);
      }
      selected := Paint(selected, m, true);
      marker := Some(m);
    }

    /** `clearHighlightedMarker()` */
    method ClearHighlightedMarker()
      requires Valid()
      modifies this
      ensures Valid()
      ensures View() == ClearHighlighted(old(View()))
      ensures objectId.None? && marker.None? && selected == {}
    {
      ClearEffect(View());
      objectId := None;
      if marker.Some? {
        selected := Paint(selected, marker.value, false);
      }
      marker := None;
    }

    /** The re-apply step of js/layers.js `createfeature`, as written. */
    method ReapplyAsWrittenStep(id: JsNum, layer: Marker)
      modifies this
      ensures View() == ReapplyAsWritten(old(View()), id, layer)
    {
      if objectId.Some? && id == Finite(objectId.value) && layer.hasSetIcon {
        selected := selected + {layer};
      }
    }

    /** The re-apply step as intended: the new layer takes over the highlight. */
    method ReapplyStep(registry: Registry, id: JsNum)
      requires Valid() && id in registry
      modifies this
      ensures Valid()
      ensures View() == Reapply(old(View()), registry, id)
    {
      ReapplyEffect(View(), registry, id);
      if objectId.Some? && id == Finite(objectId.value) {
        SetHighlightedMarkerById(registry, Num(objectId.value));
      }
    }
  }
}
