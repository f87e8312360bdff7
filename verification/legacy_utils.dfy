/**
 * The earlier revision projectmap-main/projectmap-main/js/utils.js. It
 * keeps the same related-geometry token, filters, gallery and attachment
 * token as js/utils.js (the pure parts are shared with module Utils), and
 * differs in three ways: `highlightFeature` only records the feature,
 * `resetTableHighlights` touches no marker, and an accepted attachment
 * response also records `_galleryObjectId`. It defines `showOnlyProject`.
 */
module LegacyUtils {
  import opened Values
  import opened Layers
  import opened Utils
  import LegacyLayers

  class UtilsState {
    const layers: LegacyLayers.LayerState
    var currentHighlight: Option<Feature>
    var relatedToken: nat
    var attachmentsToken: nat
    var gallery: seq<Slide>
    var galleryIndex: int
    /** `_galleryObjectId`: the id whose attachments fill the gallery */
    var galleryObjectId: string
    const hasHost: bool
    var hostObjectId: string
    var hostView: AttachmentsView

    constructor (layers: LegacyLayers.LayerState, hasHost: bool)
      ensures this.layers == layers && this.hasHost == hasHost
      ensures currentHighlight.None? && relatedToken == 0 && attachmentsToken == 0
      ensures gallery == [] && galleryIndex == 0 && galleryObjectId == ""
      ensures hostObjectId == "" && hostView == Untouched
    {
      this.layers := layers;
      this.hasHost := hasHost;
      currentHighlight := None;
      relatedToken := 0;
      attachmentsToken := 0;
      gallery := [];
      galleryIndex := 0;
      galleryObjectId := "";
      hostObjectId := "";
      hostView := Untouched;
    }

    /** `highlightFeature(feature)`: records a present feature and nothing else. */
    method HighlightFeature(feature: Option<Feature>)
      modifies this
      ensures feature.Some? ==> currentHighlight == feature
      ensures feature.None? ==> currentHighlight == old(currentHighlight)
      ensures relatedToken == old(relatedToken) && attachmentsToken == old(attachmentsToken)
      ensures gallery == old(gallery) && galleryIndex == old(galleryIndex) && galleryObjectId == old(galleryObjectId)
      ensures hostObjectId == old(hostObjectId) && hostView == old(hostView)
    {
      if feature.Some? {
        currentHighlight := feature;
      }
    }

    /** `showRelatedFeatures(projectName, map)` up to its `await`. */
    method ShowRelatedFeatures(projectName: Value, hasMap: bool) returns (token: Option<nat>)
      modifies this, layers
      ensures !Truthy(projectName) || !hasMap ==>
        token.None? && relatedToken == old(relatedToken)
        && layers.linesWhere == old(layers.linesWhere) && layers.polygonsWhere == old(layers.polygonsWhere)
      ensures Truthy(projectName) && hasMap ==>
        relatedToken == old(relatedToken) + 1 && token == Some(relatedToken)
        && layers.linesWhere == RelatedWhere(projectName) && layers.polygonsWhere == RelatedWhere(projectName)
      ensures layers.pointsWhere == old(layers.pointsWhere) && layers.markerLookup == old(layers.markerLookup)
      ensures currentHighlight == old(currentHighlight) && attachmentsToken == old(attachmentsToken)
      ensures gallery == old(gallery) && galleryIndex == old(galleryIndex) && galleryObjectId == old(galleryObjectId)
      ensures hostObjectId == old(hostObjectId) && hostView == old(hostView)
    {
      if !Truthy(projectName) || !hasMap {
        return None;
      }
      relatedToken := relatedToken + 1;
      token := Some(relatedToken);
      layers.linesWhere := RelatedWhere(projectName);
      layers.polygonsWhere := RelatedWhere(projectName);
    }

    /**
     * `waitForEsriLayerLoad(layer, token)` settling: `[]` for a stale token,
     * else `getLayers()` with a null result read as `[]`.
     */
    method LayerLoadDone(token: nat, loaded: Option<seq<Option<Feature>>>) returns (r: seq<Option<Feature>>)
      ensures token != relatedToken ==> r == []
      ensures token == relatedToken && loaded.Some? ==> r == loaded.value
      ensures token == relatedToken && loaded.None? ==> r == []
    {
      if token != relatedToken {
        return [];
      }
      r := if loaded.Some? then loaded.value else [];
    }

    /** The continuation after both waits: stale token or `fit` off means no fit. */
    method RelatedSettled(token: nat, fit: bool, lineLayers: seq<Option<Feature>>, polyLayers: seq<Option<Feature>>)
      returns (choice: FitChoice)
      ensures token != relatedToken || !fit ==> choice == NoFit
      ensures token == relatedToken && fit ==> choice == ChooseBounds(lineLayers, polyLayers)
    {
      if token != relatedToken {
        return NoFit;
      }
      if !fit {
        return NoFit;
      }
      choice := ChooseBounds(lineLayers, polyLayers);
    }

    /** `resetRelatedFeatures()` */
    method ResetRelatedFeatures()
      modifies layers
      ensures layers.linesWhere == HiddenWhere && layers.polygonsWhere == HiddenWhere
      ensures layers.pointsWhere == old(layers.pointsWhere) && layers.markerLookup == old(layers.markerLookup)
    {
      layers.linesWhere := HiddenWhere;
      layers.polygonsWhere := HiddenWhere;
    }

    /** `showOnlyProject(objectId)`: the points filter `OBJECTID = <id>`; nothing for a null id. */
    method ShowOnlyProject(objectId: Value)
      modifies layers
      ensures IsNullish(objectId) ==> layers.pointsWhere == old(layers.pointsWhere)
      ensures !IsNullish(objectId) ==> layers.pointsWhere == OnlyProjectWhere(objectId)
      ensures layers.linesWhere == old(layers.linesWhere) && layers.polygonsWhere == old(layers.polygonsWhere)
      ensures layers.markerLookup == old(layers.markerLookup)
    {
      if !IsNullish(objectId) {
        layers.pointsWhere := OnlyProjectWhere(objectId);
      }
    }

    /** `resetProjectFilter()` */
    method ResetProjectFilter()
      modifies layers
      ensures layers.pointsWhere == AllWhere
      ensures layers.linesWhere == old(layers.linesWhere) && layers.polygonsWhere == old(layers.polygonsWhere)
      ensures layers.markerLookup == old(layers.markerLookup)
    {
      layers.pointsWhere := AllWhere;
    }

    /** `resetTableHighlights()`: forget the feature, cancel related loads, reset all three filters. */
    method ResetTableHighlights()
      modifies this, layers
      ensures currentHighlight.None? && relatedToken == old(relatedToken) + 1
      ensures layers.linesWhere == HiddenWhere && layers.polygonsWhere == HiddenWhere && layers.pointsWhere == AllWhere
      ensures layers.markerLookup == old(layers.markerLookup)
      ensures attachmentsToken == old(attachmentsToken) && gallery == old(gallery) && galleryIndex == old(galleryIndex)
      ensures galleryObjectId == old(galleryObjectId) && hostObjectId == old(hostObjectId) && hostView == old(hostView)
    {
      currentHighlight := None;
      relatedToken := relatedToken + 1;
      ResetRelatedFeatures();
      ResetProjectFilter();
    }

    /** `galleryPrev()` */
    method GalleryPrev()
      modifies this
      ensures galleryIndex == GalleryPrevIndex(old(galleryIndex), |gallery|)
      ensures gallery == old(gallery) && galleryObjectId == old(galleryObjectId)
      ensures relatedToken == old(relatedToken) && attachmentsToken == old(attachmentsToken)
      ensures currentHighlight == old(currentHighlight) && hostObjectId == old(hostObjectId) && hostView == old(hostView)
    {
      if |gallery| <= 1 {
        return;
      }
      galleryIndex := JsRem(galleryIndex - 1 + |gallery|, |gallery|);
    }

    /** `galleryNext()` */
    method GalleryNext()
      modifies this
      ensures galleryIndex == GalleryNextIndex(old(galleryIndex), |gallery|)
      ensures gallery == old(gallery) && galleryObjectId == old(galleryObjectId)
      ensures relatedToken == old(relatedToken) && attachmentsToken == old(attachmentsToken)
      ensures currentHighlight == old(currentHighlight) && hostObjectId == old(hostObjectId) && hostView == old(hostView)
    {
      if |gallery| <= 1 {
        return;
      }
      galleryIndex := JsRem(galleryIndex + 1, |gallery|);
    }

    /** `renderProjectAttachments(objectId)` up to its `await`. */
    method RenderProjectAttachments(objectId: Value) returns (token: Option<nat>)
      modifies this
      ensures !hasHost ==>
        token.None? && attachmentsToken == old(attachmentsToken)
        && hostObjectId == old(hostObjectId) && hostView == old(hostView)
      ensures hasHost ==>
        attachmentsToken == old(attachmentsToken) + 1 && token == Some(attachmentsToken)
        && hostObjectId == ToStr(objectId) && hostView == Loading
      ensures gallery == old(gallery) && galleryIndex == old(galleryIndex) && galleryObjectId == old(galleryObjectId)
      ensures relatedToken == old(relatedToken) && currentHighlight == old(currentHighlight)
    {
      if !hasHost {
        return None;
      }
      hostObjectId := ToStr(objectId);
      attachmentsToken := attachmentsToken + 1;
      token := Some(attachmentsToken);
      hostView := Loading;
    }

    /**
     * The continuation with the records: a stale response changes nothing;
     * a current one records the gallery's id, replaces the gallery and shows
     * the featured attachment.
     */
    method AttachmentsLoaded(token: nat, objectId: Value, infos: Option<seq<AttachmentInfo>>)
      modifies this
      ensures !(old(token == attachmentsToken) && old(hostObjectId) == ToStr(objectId)) ==>
        gallery == old(gallery) && galleryObjectId == old(galleryObjectId) && hostView == old(hostView)
      ensures old(token == attachmentsToken) && old(hostObjectId) == ToStr(objectId) ==>
        var all := if infos.Some? then infos.value else [];
        galleryObjectId == ToStr(objectId) && gallery == Gallery(all) && hostView == LoadedView(all)
      ensures galleryIndex == old(galleryIndex) && attachmentsToken == old(attachmentsToken) && hostObjectId == old(hostObjectId)
      ensures relatedToken == old(relatedToken) && currentHighlight == old(currentHighlight)
    {
      if token != attachmentsToken || hostObjectId != ToStr(objectId) {
        return;
      }
      var all := if infos.Some? then infos.value else [];
      galleryObjectId := ToStr(objectId);
      gallery := Gallery(all);
      hostView := LoadedView(all);
    }

    /** The `catch`: a stale failure changes nothing; a current one shows the error. */
    method AttachmentsFailed(token: nat, objectId: Value)
      modifies this
      ensures !(old(token == attachmentsToken) && old(hostObjectId) == ToStr(objectId)) ==> hostView == old(hostView)
      ensures old(token == attachmentsToken) && old(hostObjectId) == ToStr(objectId) ==> hostView == LoadFailed
      ensures gallery == old(gallery) && galleryIndex == old(galleryIndex) && galleryObjectId == old(galleryObjectId)
      ensures attachmentsToken == old(attachmentsToken) && hostObjectId == old(hostObjectId)
      ensures relatedToken == old(relatedToken) && currentHighlight == old(currentHighlight)
    {
      if token != attachmentsToken || hostObjectId != ToStr(objectId) {
        return;
      }
      hostView := LoadFailed;
    }
  }
}
