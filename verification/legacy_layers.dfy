/**
 * The earlier revision projectmap-main/projectmap-main/js/layers.js: the
 * same registry, filters and boundary loader as js/layers.js, with a
 * `createfeature` handler that only registers the layer.
 */
module LegacyLayers {
  import opened Values
  import opened Highlight
  import opened Memo
  import opened Layers

  class LayerState {
    var markerLookup: Registry
    var pointsWhere: string
    var linesWhere: string
    var polygonsWhere: string
    const boundary: Boundary

    constructor ()
      ensures markerLookup == map[] && pointsWhere == AllWhere
      ensures linesWhere == HiddenWhere && polygonsWhere == HiddenWhere
      ensures fresh(boundary) && fresh(boundary.ready) && boundary.Valid() && boundary.layer.None?
    {
      markerLookup := map[];
      pointsWhere := AllWhere;
      linesWhere := HiddenWhere;
      polygonsWhere := HiddenWhere;
      boundary := new Boundary();
    }

    /** The `createfeature` handler: register the layer under `Number(id)`; no icon changes. */
    method OnCreateFeature(e: LayerEvent)
      modifies this
      ensures markerLookup == Register(old(markerLookup), e)
      ensures pointsWhere == old(pointsWhere) && linesWhere == old(linesWhere) && polygonsWhere == old(polygonsWhere)
    {
      var objId := EventObjectId(e);
      if !IsNullish(objId) && e.layer.Some? {
        markerLookup := markerLookup[ToNumber(objId) := e.layer.value];
      }
    }

    /** `loadJurisdictionBoundary(url, style)`: the cached promise, or a newly started request. */
    method LoadJurisdictionBoundary() returns (p: nat, started: bool)
      requires boundary.Valid()
      modifies boundary.ready
      ensures boundary.Valid()
      ensures (boundary.ready.View(), p) == LoadView(old(boundary.ready.View()))
      ensures started <==> old(boundary.ready.cached).None?
    {
      p, started := boundary.Load();
    }

    /** The loader's `.catch`: promise and layer back to null, so the next call retries. */
    method BoundaryFailed()
      requires boundary.Valid()
      modifies boundary, boundary.ready
      ensures boundary.Valid()
      ensures boundary.ready.View() == FailView(old(boundary.ready.View())) && boundary.layer.None?
    {
      boundary.Failed();
    }
  }
}
