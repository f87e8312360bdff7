/**
 * The map layers of js/layers.js as far as the routing core sees them: the
 * marker registry `markerLookup` filled by the points layer's
 * `createfeature` handler, the filters (`where`) of the three project
 * layers, and the cached jurisdiction-boundary load.
 */
module Layers {
  import opened Values
  import opened Highlight
  import opened Memo

  /** A `createfeature` event: `e.feature`, `e.layer` (with its `feature`) and `e.target.feature`. */
  datatype LayerEvent = LayerEvent(feature: Option<Feature>, layer: Option<Marker>, target: Option<Feature>)

  /** `f?.properties?.OBJECTID` */
  function OptObjectId(f: Option<Feature>): Value {
    if f.Some? then ObjectIdOf(f.value) else Undefined
  }

  /** The event's id: the first present of `e.feature`, `e.layer.feature`, `e.target.feature`. */
  function EventObjectId(e: LayerEvent): Value {
    var fromLayer := if e.layer.Some? then OptObjectId(e.layer.value.feature) else Undefined;
    Coalesce(Coalesce(OptObjectId(e.feature), fromLayer), OptObjectId(e.target))
  }

  /** The id is taken from the first of the three places that holds a non-null one. */
  lemma EventObjectIdOrder(e: LayerEvent)
    ensures var a, b, c := OptObjectId(e.feature),
                           (if e.layer.Some? then OptObjectId(e.layer.value.feature) else Undefined),
                           OptObjectId(e.target);
      var id := EventObjectId(e);
      (!IsNullish(a) ==> id == a)
      && (IsNullish(a) && !IsNullish(b) ==> id == b)
      && (IsNullish(a) && IsNullish(b) ==> id == c)
      && (IsNullish(id) <==> IsNullish(a) && IsNullish(b) && IsNullish(c))
  {
  }

  /** The event registers a layer when it has a non-null id and a layer. */
  predicate Registers(e: LayerEvent) {
    !IsNullish(EventObjectId(e)) && e.layer.Some?
  }

  /** `markerLookup[Number(objId)] = e.layer` when the event registers. */
  function Register(registry: Registry, e: LayerEvent): Registry {
    if Registers(e) then registry[ToNumber(EventObjectId(e)) := e.layer.value] else registry
  }

  /**
   * An event without id or layer leaves the registry alone; otherwise the
   * layer is found under `Number(id)`, replacing any earlier layer for that
   * id, and every other entry is unchanged.
   */
  lemma RegisterEffect(registry: Registry, e: LayerEvent)
    ensures !Registers(e) ==> Register(registry, e) == registry
    ensures Registers(e) ==>
      var key := ToNumber(EventObjectId(e));
      key in Register(registry, e) && Register(registry, e)[key] == e.layer.value
      && Register(registry, e).Keys == registry.Keys + {key}
      && forall k :: k in registry && k != key ==> Register(registry, e)[k] == registry[k]
  {
  }

  /** A layer whose feature carries a string id is found under that id's number. */
  lemma RegisterNumericString(registry: Registry, m: Marker, n: int)
    requires m.feature.Some? && ObjectIdOf(m.feature.value) == Str(IntToDecimal(n))
    ensures var r := Register(registry, LayerEvent(None, Some(m), None));
      Finite(n) in r && r[Finite(n)] == m
  {
    NumberOfString(n);
  }

  /** Cached boundary load: the memo plus the built layer (identified by the promise that built it). */
  class Boundary {
    /** `jurisdictionBoundaryReady` */
    const ready: PromiseMemo
    /** `jurisdictionBoundaryLayer` */
    var layer: Option<nat>

    constructor ()
      ensures fresh(ready) && ready.View() == MemoView(None, 0) && layer.None?
    {
      ready := new PromiseMemo();
      layer := None;
    }

    ghost predicate Valid()
      reads this, ready
    {
      MemoValid(ready.View())
    }

    /**
     * `loadJurisdictionBoundary(url, style)`: the cached promise when there
     * is one; otherwise a new request (`started`) whose promise is cached.
     */
    method Load() returns (p: nat, started: bool)
      requires Valid()
      modifies ready
      ensures Valid()
      ensures (ready.View(), p) == LoadView(old(ready.View()))
      ensures started <==> old(ready.cached).None?
      ensures layer == old(layer)
    {
      p, started := ready.Load();
    }

    /** The second `.then`: the GeoJSON arrived and the layer is built from it. */
    method Loaded(p: nat)
      modifies this
      ensures layer == Some(p)
    {
      layer := Some(p);
    }

    /** The `.catch`: both variables go back to null so the next call retries. */
    method Failed()
      requires Valid()
      modifies this, ready
      ensures Valid()
      ensures ready.View() == FailView(old(ready.View())) && layer.None?
    {
      ready.Fail();
      layer := None;
    }
  }

  /** The where clause the related layers start with: nothing shown. */
  const HiddenWhere := "1=0"
  /** The where clause that shows every feature (the Esri default). */
  const AllWhere := "1=1"

  /** The three project layers' filters, the marker registry, and the boundary loader. */
  class LayerState {
    var markerLookup: Registry
    /** `projectsLayer` filter */
    var pointsWhere: string
    /** `linesLayer` filter */
    var linesWhere: string
    /** `polygonsLayer` filter */
    var polygonsWhere: string
    const boundary: Boundary

    /** Module load: an empty registry, every point shown, the related layers hidden. */
    constructor ()
      ensures markerLookup == map[] && pointsWhere == AllWhere
      ensures linesWhere == HiddenWhere && polygonsWhere == HiddenWhere
      ensures fresh(boundary) && fresh(boundary.ready) && boundary.Valid() && boundary.layer.None?
    {
      markerLookup := map[];
      pointsWhere := AllWhere;
      linesWhere := HiddenWhere;
      polygonsWhere := HiddenWhere;
      boundary := new Boundary();
    }

    /**
     * The `createfeature` handler as written: register the layer, then,
     * when the highlighted id equals the event's id, give the new layer the
     * selected icon if it has `setIcon` — without making it the highlighted
     * marker.
     */
    method OnCreateFeatureAsWritten(hl: HighlightState, e: LayerEvent)
      modifies this, hl
      ensures markerLookup == Register(old(markerLookup), e)
      ensures Registers(e) ==> hl.View() == ReapplyAsWritten(old(hl.View()), ToNumber(EventObjectId(e)), e.layer.value)
      ensures !Registers(e) ==> hl.View() == old(hl.View())
      ensures pointsWhere == old(pointsWhere) && linesWhere == old(linesWhere) && polygonsWhere == old(polygonsWhere)
    {
      var objId := EventObjectId(e);
      if !IsNullish(objId) && e.layer.Some? {
        markerLookup := markerLookup[ToNumber(objId) := e.layer.value];
        hl.ReapplyAsWrittenStep(ToNumber(objId), e.layer.value);
      }
    }

    /**
     * The handler with the re-apply it intends: a re-created layer for the
     * highlighted id becomes the highlighted marker, so at most one marker
     * stays selected.
     */
    method OnCreateFeature(hl: HighlightState, e: LayerEvent)
      requires hl.Valid()
      modifies this, hl
      ensures hl.Valid()
      ensures markerLookup == Register(old(markerLookup), e)
      ensures Registers(e) ==> hl.View() == Reapply(old(hl.View()), markerLookup, ToNumber(EventObjectId(e)))
      ensures !Registers(e) ==> hl.View() == old(hl.View())
      ensures pointsWhere == old(pointsWhere) && linesWhere == old(linesWhere) && polygonsWhere == old(polygonsWhere)
    {
      var objId := EventObjectId(e);
      if !IsNullish(objId) && e.layer.Some? {
        markerLookup := markerLookup[ToNumber(objId) := e.layer.value];
        hl.ReapplyStep(markerLookup, ToNumber(objId));
      }
    }
  }

  /**
   * A re-created marker takes over the highlight: after the intended
   * handler runs for the highlighted id, the new layer is the highlighted
   * marker and, if it is a Leaflet marker, the one showing the selected icon.
   */
  lemma RecreatedMarkerSelected(v: HighlightView, registry: Registry, e: LayerEvent)
    requires AtMostOneSelected(v) && Registers(e)
    requires v.objectId.Some? && ToNumber(EventObjectId(e)) == Finite(v.objectId.value)
    ensures var r := Reapply(v, Register(registry, e), ToNumber(EventObjectId(e)));
      AtMostOneSelected(r)
      && r.marker == e.layer
      && (IsLeafletMarker(e.layer.value) ==> r.selected == {e.layer.value})
  {
    var reg := Register(registry, e);
    SetHighlightedEffect(v, reg, ToNumber(EventObjectId(e)));
  }

  /**
   * As written, the handler leaves a stale selected icon: project 5 is
   * highlighted on one marker, clustering re-creates its marker, project 7
   * is highlighted next, and both the re-created marker and project 7's
   * marker show the selected icon; clearing instead of highlighting leaves
   * the re-created marker selected.
   */
  lemma CreateFeatureAsWrittenTwoSelected()
    ensures var first := Marker(1, None, true, true);
      var recreated := Marker(2, Some(Feature(map["OBJECTID" := Num(5)], None)), true, true);
      var other := Marker(3, None, true, true);
      var registry := map[Finite(5) := first, Finite(7) := other];
      var v := HighlightView(Some(5), Some(first), {first});
      var e := LayerEvent(None, Some(recreated), None);
      var reg2 := Register(registry, e);
      var w := ReapplyAsWritten(v, ToNumber(EventObjectId(e)), recreated);
      AtMostOneSelected(v)
      && Registers(e)
      && SetHighlightedById(w, reg2, Finite(7)).selected == {recreated, other}
      && !AtMostOneSelected(SetHighlightedById(w, reg2, Finite(7)))
      && ClearHighlighted(w).selected == {recreated}
  {
    var first := Marker(1, None, true, true);
    var recreated := Marker(2, Some(Feature(map["OBJECTID" := Num(5)], None)), true, true);
    var other := Marker(3, None, true, true);
    var e := LayerEvent(None, Some(recreated), None);
    assert EventObjectId(e) == Num(5);
    assert {first, recreated} - {first} + {other} == {recreated, other};
    assert {first, recreated} - {first} == {recreated};
  }
}
