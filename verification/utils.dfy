/**
 * The shared map state of js/utils.js: the marker highlight, the
 * related-geometry request token with the filters it sets and the bounds it
 * chooses, the project filter, and the attachment gallery with its request
 * token.
 */
module Utils {
  import opened Values
  import opened Format
  import opened Highlight
  import opened Layers

  // ---------------------------------------------------------------
  // Module exports
  // ---------------------------------------------------------------

  /** The names js/utils.js exports. */
  const UtilsExports: set<string> := {
    "highlightState", "getSidebarLngOffset", "initHoverTooltip", "setHoverTooltip",
    "hideHoverTooltip", "wireHoverTooltipToProjectsLayer", "flyToFeature",
    "highlightFeature", "showRelatedFeatures", "resetRelatedFeatures",
    "resetProjectFilter", "resetTableHighlights", "renderProjectAttachments"
  }

  /** The names js/router.js imports from js/utils.js. */
  const RouterImports: set<string> := {
    "showOnlyProject", "highlightFeature", "flyToFeature", "showRelatedFeatures",
    "resetTableHighlights", "resetRelatedFeatures", "resetProjectFilter",
    "renderProjectAttachments"
  }

  /** The exports with `showOnlyProject` added, as the router expects. */
  const UtilsExportsCorrected: set<string> := UtilsExports + {"showOnlyProject"}

  /** As written, exactly one imported name is not exported, so the module graph cannot link. */
  lemma RouterImportUnresolved()
    ensures RouterImports - UtilsExports == {"showOnlyProject"}
  {
  }

  /** With the missing export, every name the router imports resolves. */
  lemma RouterImportsResolved()
    ensures RouterImports <= UtilsExportsCorrected
  {
  }

  // ---------------------------------------------------------------
  // Filters
  // ---------------------------------------------------------------

  /** The related layers' filter for a project name. */
  function RelatedWhere(projectName: Value): string {
    EqualsLiteral("project_name", projectName)
  }

  /** The related filter names exactly the given project. */
  lemma RelatedWhereNamesProject(projectName: Value)
    ensures ParseEqualsLiteral(RelatedWhere(projectName), "project_name") == Some(ToStrOrEmpty(projectName))
  {
    EqualsLiteralRoundTrip("project_name", projectName);
  }

  /** The points filter of `showOnlyProject(id)`: `OBJECTID = <String(id)>`. */
  function OnlyProjectWhere(objectId: Value): string {
    "OBJECTID = " + ToStr(objectId)
  }

  /** For a numeric id the filter selects that id: it reads back as the same number. */
  lemma OnlyProjectWhereNumber(n: int)
    ensures var w := OnlyProjectWhere(Num(n));
      StartsWith(w, "OBJECTID = ") && StringToNumber(w[|"OBJECTID = "|..]) == Finite(n)
  {
    NumberOfString(n);
  }

  // ---------------------------------------------------------------
  // Bounds choice
  // ---------------------------------------------------------------

  /** The features of the loaded layers that have one (`layers.map(l => l?.feature).filter(Boolean)`). */
  function PresentFeatures(layers: seq<Option<Feature>>): seq<Feature>
    decreases |layers|
  {
    if layers == [] then []
    else (if layers[0].Some? then [layers[0].value] else []) + PresentFeatures(layers[1..])
  }

  lemma {:induction false} PresentFeaturesEmpty(layers: seq<Option<Feature>>)
    ensures PresentFeatures(layers) == [] <==> forall i :: 0 <= i < |layers| ==> layers[i].None?
    decreases |layers|
  {
    if layers != [] {
      PresentFeaturesEmpty(layers[1..]);
      if layers[0].None? {
        forall i | 1 <= i < |layers| ensures layers[i] == layers[1..][i - 1] {}
      }
    }
  }

  /** Whether and to what the map fits after the related layers load. */
  datatype FitChoice = NoFit | FitTo(features: seq<Feature>)

  /** Fit to the polygon features if any, else to the line features if any, else do not fit. */
  function ChooseBounds(lineLayers: seq<Option<Feature>>, polyLayers: seq<Option<Feature>>): FitChoice {
    var polys := PresentFeatures(polyLayers);
    var lines := PresentFeatures(lineLayers);
    if |polys| > 0 then FitTo(polys) else if |lines| > 0 then FitTo(lines) else NoFit
  }

  /**
   * Polygons win whenever one polygon layer has a feature; lines are used
   * only when no polygon layer has one; there is no fit only when neither
   * has.
   */
  lemma ChooseBoundsPrefersPolygons(lineLayers: seq<Option<Feature>>, polyLayers: seq<Option<Feature>>)
    ensures (exists i :: 0 <= i < |polyLayers| && polyLayers[i].Some?) ==>
      ChooseBounds(lineLayers, polyLayers) == FitTo(PresentFeatures(polyLayers))
    ensures ((forall i :: 0 <= i < |polyLayers| ==> polyLayers[i].None?)
             && (exists i :: 0 <= i < |lineLayers| && lineLayers[i].Some?)) ==>
      ChooseBounds(lineLayers, polyLayers) == FitTo(PresentFeatures(lineLayers))
    ensures ChooseBounds(lineLayers, polyLayers) == NoFit <==>
      (forall i :: 0 <= i < |polyLayers| ==> polyLayers[i].None?)
      && (forall i :: 0 <= i < |lineLayers| ==> lineLayers[i].None?)
  {
    PresentFeaturesEmpty(polyLayers);
    PresentFeaturesEmpty(lineLayers);
  }

  // ---------------------------------------------------------------
  // Attachments and gallery
  // ---------------------------------------------------------------

  /** An attachment record from `/queryAttachments`. */
  datatype AttachmentInfo = AttachmentInfo(url: Value, name: Value, contentType: Value)

  /** A gallery entry `{ url, name, type }`. */
  datatype Slide = Slide(url: Value, name: Value, kind: Value)

  /** `isImageContentType(ct)`: a string starting with `image/`. */
  predicate IsImageContentType(ct: Value) {
    ct.Str? && StartsWith(ct.s, "image/")
  }

  /** The gallery filter: a truthy URL and an image content type. */
  predicate IsGalleryImage(info: AttachmentInfo) {
    Truthy(info.url) && IsImageContentType(Or(info.contentType, Str("")))
  }

  function SlideOf(info: AttachmentInfo): Slide {
    Slide(info.url, Or(info.name, Str("Attachment")), Or(info.contentType, Str("image")))
  }

  /** `_gallery` built from the attachment records, in their order. */
  function Gallery(infos: seq<AttachmentInfo>): seq<Slide>
    decreases |infos|
  {
    if infos == [] then []
    else (if IsGalleryImage(infos[0]) then [SlideOf(infos[0])] else []) + Gallery(infos[1..])
  }

  /**
   * The gallery is exactly the image records: every slide is the slide of
   * an image record with a URL, every such record has its slide in the
   * gallery, and each slide's URL is truthy and its type an image type.
   */
  lemma {:induction false} GalleryIsImages(infos: seq<AttachmentInfo>)
    ensures |Gallery(infos)| <= |infos|
    ensures forall s :: s in Gallery(infos) ==>
      exists i :: 0 <= i < |infos| && IsGalleryImage(infos[i]) && s == SlideOf(infos[i])
    ensures forall i :: 0 <= i < |infos| && IsGalleryImage(infos[i]) ==> SlideOf(infos[i]) in Gallery(infos)
    ensures forall s :: s in Gallery(infos) ==> Truthy(s.url) && IsImageContentType(s.kind)
    decreases |infos|
  {
    if infos != [] {
      var rest := infos[1..];
      GalleryIsImages(rest);
      forall s | s in Gallery(infos)
        ensures exists i :: 0 <= i < |infos| && IsGalleryImage(infos[i]) && s == SlideOf(infos[i])
      {
        if s !in Gallery(rest) {
          assert IsGalleryImage(infos[0]) && s == SlideOf(infos[0]);
        } else {
          var j :| 0 <= j < |rest| && IsGalleryImage(rest[j]) && s == SlideOf(rest[j]);
          assert infos[j + 1] == rest[j];
        }
      }
      forall i | 0 <= i < |infos| && IsGalleryImage(infos[i]) ensures SlideOf(infos[i]) in Gallery(infos) {
        if i > 0 {
          assert infos[i] == rest[i - 1];
        }
      }
    }
  }

  /** The first slide is the slide of the first image record. */
  lemma {:induction false} GalleryFirst(infos: seq<AttachmentInfo>, k: nat)
    requires k < |infos| && IsGalleryImage(infos[k])
    requires forall i :: 0 <= i < k ==> !IsGalleryImage(infos[i])
    ensures |Gallery(infos)| > 0 && Gallery(infos)[0] == SlideOf(infos[k])
    decreases k
  {
    if k > 0 {
      forall i | 0 <= i < k - 1 ensures !IsGalleryImage(infos[1..][i]) {
        assert infos[1..][i] == infos[i + 1];
      }
      GalleryFirst(infos[1..], k - 1);
    }
  }

  /** The first record with a truthy URL, as the featured-file fallback shows it. */
  function FirstFile(infos: seq<AttachmentInfo>): Option<AttachmentInfo>
    decreases |infos|
  {
    if infos == [] then None
    else if Truthy(infos[0].url) then Some(infos[0])
    else FirstFile(infos[1..])
  }

  lemma {:induction false} FirstFileIsFirst(infos: seq<AttachmentInfo>)
    ensures FirstFile(infos).None? <==> forall i :: 0 <= i < |infos| ==> !Truthy(infos[i].url)
    ensures FirstFile(infos).Some? ==>
      exists k :: (0 <= k < |infos| && FirstFile(infos) == Some(infos[k])
                   && Truthy(infos[k].url) && forall i :: 0 <= i < k ==> !Truthy(infos[i].url))
    decreases |infos|
  {
    if infos != [] && !Truthy(infos[0].url) {
      var rest := infos[1..];
      FirstFileIsFirst(rest);
      if FirstFile(rest).Some? {
        var k :| 0 <= k < |rest| && FirstFile(rest) == Some(rest[k])
          && Truthy(rest[k].url) && forall i :: 0 <= i < k ==> !Truthy(rest[i].url);
        assert infos[k + 1] == rest[k];
        forall i | 0 <= i < k + 1 ensures !Truthy(infos[i].url) {
          if i > 0 { assert infos[i] == rest[i - 1]; }
        }
      } else {
        forall i | 0 <= i < |infos| ensures !Truthy(infos[i].url) {
          if i > 0 { assert infos[i] == rest[i - 1]; }
        }
      }
    } else if infos != [] {
      assert FirstFile(infos) == Some(infos[0]);
    }
  }

  /** What the attachments host shows. */
  datatype AttachmentsView =
    | Untouched
    | Cleared
    | Loading
    | Blank                                          // no attachments at all
    | FeaturedImage(first: Slide, total: nat)       // first image, with "(1/total)" when total > 1
    | FeaturedFile(fileUrl: Value, fileName: Value, fileType: Value)
    | NoViewable
    | LoadFailed

  /** The host after an accepted response. */
  function LoadedView(infos: seq<AttachmentInfo>): AttachmentsView {
    var gallery := Gallery(infos);
    if infos == [] then Blank
    else if gallery != [] then FeaturedImage(gallery[0], |gallery|)
    else
      var file := FirstFile(infos);
      if file.Some? then FeaturedFile(file.value.url, Or(file.value.name, Str("Attachment")), Or(file.value.contentType, Str("file")))
      else NoViewable
  }

  /**
   * No records shows nothing; any image record is featured (the first
   * one, with the gallery size); otherwise the first record with a URL is
   * featured as a file; "No viewable attachments" only when no record has
   * a URL.
   */
  lemma LoadedViewChoice(infos: seq<AttachmentInfo>)
    ensures LoadedView(infos) == Blank <==> infos == []
    ensures (exists i :: 0 <= i < |infos| && IsGalleryImage(infos[i])) ==>
      LoadedView(infos).FeaturedImage? && LoadedView(infos).total == |Gallery(infos)|
      && LoadedView(infos).first in Gallery(infos)
    ensures LoadedView(infos).FeaturedImage? ==> exists i :: 0 <= i < |infos| && IsGalleryImage(infos[i])
    ensures LoadedView(infos) == NoViewable <==>
      infos != [] && forall i :: 0 <= i < |infos| ==> !Truthy(infos[i].url)
  {
    GalleryIsImages(infos);
    FirstFileIsFirst(infos);
    if LoadedView(infos) == NoViewable {
      assert FirstFile(infos).None?;
    }
    if infos != [] && (forall i :: 0 <= i < |infos| ==> !Truthy(infos[i].url)) {
      GalleryEmptyWithoutUrls(infos);
    }
  }

  lemma {:induction false} GalleryEmptyWithoutUrls(infos: seq<AttachmentInfo>)
    requires forall i :: 0 <= i < |infos| ==> !Truthy(infos[i].url)
    ensures Gallery(infos) == []
    decreases |infos|
  {
    if infos != [] {
      assert forall i :: 0 <= i < |infos[1..]| ==> infos[1..][i] == infos[i + 1];
      GalleryEmptyWithoutUrls(infos[1..]);
    }
  }

  /** `a % n` in JavaScript: the remainder takes the sign of `a`. */
  function JsRem(a: int, n: int): int
    requires n > 0
  {
    if a >= 0 then a % n else 0 - ((0 - a) % n)
  }

  /** `galleryNext`: index + 1 modulo the gallery size; no change for one slide or none. */
  function GalleryNextIndex(i: int, n: nat): int {
    if n <= 1 then i else JsRem(i + 1, n)
  }

  /** `galleryPrev`: index − 1 + size modulo the size; no change for one slide or none. */
  function GalleryPrevIndex(i: int, n: nat): int {
    if n <= 1 then i else JsRem(i - 1 + n, n)
  }

  /**
   * With two or more slides, a step from any non-negative index lands in
   * [0, n), and prev and next undo each other on valid indices.
   */
  lemma GalleryStepsInRange(i: int, n: nat)
    requires n > 1 && 0 <= i
    ensures 0 <= GalleryNextIndex(i, n) < n && 0 <= GalleryPrevIndex(i, n) < n
  {
  }

  /** On a valid index, next moves one forward and wraps from the last slide to the first. */
  lemma GalleryNextStep(i: int, n: nat)
    requires n > 1 && 0 <= i < n
    ensures GalleryNextIndex(i, n) == if i == n - 1 then 0 else i + 1
  {
    if i < n - 1 {
      ModBelow(i + 1, n);
    } else {
      ModBelow(0, n);
      assert i + 1 == 0 + n * 1;
      ModShift(0, n);
    }
  }

  /** On a valid index, prev moves one back and wraps from the first slide to the last. */
  lemma GalleryPrevStep(i: int, n: nat)
    requires n > 1 && 0 <= i < n
    ensures GalleryPrevIndex(i, n) == if i == 0 then n - 1 else i - 1
  {
    if i == 0 {
      ModBelow(n - 1, n);
    } else {
      ModBelow(i - 1, n);
      ModShift(i - 1, n);
    }
  }

  /** Prev and next undo each other on valid indices. */
  lemma GalleryPrevNextInverse(i: int, n: nat)
    requires n > 1 && 0 <= i < n
    ensures GalleryPrevIndex(GalleryNextIndex(i, n), n) == i
    ensures GalleryNextIndex(GalleryPrevIndex(i, n), n) == i
  {
    GalleryNextStep(i, n);
    GalleryPrevStep(i, n);
    GalleryPrevStep(GalleryNextIndex(i, n), n);
    GalleryNextStep(GalleryPrevIndex(i, n), n);
  }

  lemma ModBelow(a: int, n: int)
    requires 0 <= a < n
    ensures a % n == a
  {
  }

  lemma ModShift(a: int, n: int)
    requires 0 <= a < n
    ensures (a + n) % n == a
  {
  }

  /**
   * With a negative index JavaScript's `%` can leave the range: from an
   * index in (-n, 0) prev still lands in [0, n), but from n or more below
   * zero the result lies in (-n, 0], and from -n itself it is -1. The step
   * therefore relies on a non-negative index.
   */
  lemma GalleryPrevNegative(i: int, n: nat)
    requires n > 1 && i < 0
    ensures 0 < i + n ==> 0 <= GalleryPrevIndex(i, n) < n
    ensures i + n <= 0 ==> 0 < GalleryPrevIndex(i, n) + n && GalleryPrevIndex(i, n) <= 0
    ensures i + n == 0 ==> GalleryPrevIndex(i, n) == -1
  {
    if i + n <= 0 {
      assert GalleryPrevIndex(i, n) == 0 - ((1 - i - n) % n);
    }
  }

  // ---------------------------------------------------------------
  // The module state
  // ---------------------------------------------------------------

  class UtilsState {
    const layers: LayerState
    const highlight: HighlightState
    /** `currentHighlight` */
    var currentHighlight: Option<Feature>
    /** `relatedRequestToken` */
    var relatedToken: nat
    /** `_attachmentsRequestToken` */
    var attachmentsToken: nat
    /** `_gallery` and `_galleryIndex` */
    var gallery: seq<Slide>
    var galleryIndex: int
    /** the `#project-attachments` element exists */
    const hasHost: bool
    /** its `dataset.objectid` and what it shows */
    var hostObjectId: string
    var hostView: AttachmentsView

    constructor (layers: LayerState, highlight: HighlightState, hasHost: bool)
      ensures this.layers == layers && this.highlight == highlight && this.hasHost == hasHost
      ensures currentHighlight.None? && relatedToken == 0 && attachmentsToken == 0
      ensures gallery == [] && galleryIndex == 0 && hostObjectId == "" && hostView == Untouched
    {
      this.layers := layers;
      this.highlight := highlight;
      this.hasHost := hasHost;
      currentHighlight := None;
      relatedToken := 0;
      attachmentsToken := 0;
      gallery := [];
      galleryIndex := 0;
      hostObjectId := "";
      hostView := Untouched;
    }

    ghost predicate Valid()
      reads highlight
    {
      highlight.Valid()
    }

    /** `setHighlightedMarkerById(objectId)` against the current registry. */
    method SetHighlightedMarkerById(objectId: Value)
      requires Valid()
      modifies highlight
      ensures Valid()
      ensures highlight.View() == SetHighlightedById(old(highlight.View()), layers.markerLookup, ToNumber(objectId))
    {
      highlight.SetHighlightedMarkerById(layers.markerLookup, objectId);
    }

    /** `clearHighlightedMarker()` */
    method ClearHighlightedMarker()
      requires Valid()
      modifies highlight
      ensures Valid()
      ensures highlight.View() == ClearHighlighted(old(highlight.View()))
    {
      highlight.ClearHighlightedMarker();
    }

    /** `highlightFeature(feature)`: record it and highlight its marker when it has an id. */
    method HighlightFeature(feature: Option<Feature>)
      requires Valid()
      modifies this, highlight
      ensures Valid()
      ensures feature.None? ==> currentHighlight == old(currentHighlight) && highlight.View() == old(highlight.View())
      ensures feature.Some? ==> currentHighlight == feature
      ensures feature.Some? && IsNullish(ObjectIdOf(feature.value)) ==> highlight.View() == old(highlight.View())
      ensures feature.Some? && !IsNullish(ObjectIdOf(feature.value)) ==>
        highlight.View() == SetHighlightedById(old(highlight.View()), layers.markerLookup, ToNumber(ObjectIdOf(feature.value)))
      ensures relatedToken == old(relatedToken) && attachmentsToken == old(attachmentsToken)
      ensures gallery == old(gallery) && galleryIndex == old(galleryIndex)
      ensures hostObjectId == old(hostObjectId) && hostView == old(hostView)
    {
      if feature.None? {
        return;
      }
      currentHighlight := feature;
      var objectId := ObjectIdOf(feature.value);
      if !IsNullish(objectId) {
        SetHighlightedMarkerById(objectId);
      }
    }

    /**
     * `showRelatedFeatures(projectName, map)` up to its `await`: with a
     * name and a map, take a new token and filter both related layers to
     * the project; returns the token the continuation carries.
     */
    method ShowRelatedFeatures(projectName: Value, hasMap: bool) returns (token: Option<nat>)
      modifies this, layers
      ensures !Truthy(projectName) || !hasMap ==>
        token.None? && relatedToken == old(relatedToken)
        && layers.linesWhere == old(layers.linesWhere) && layers.polygonsWhere == old(layers.polygonsWhere)
      ensures Truthy(projectName) && hasMap ==>
        relatedToken == old(relatedToken) + 1 && token == Some(relatedToken)
        && layers.linesWhere == RelatedWhere(projectName) && layers.polygonsWhere == RelatedWhere(projectName)
      ensures layers.pointsWhere == old(layers.pointsWhere) && layers.markerLookup == old(layers.markerLookup)
      ensures currentHighlight == old(currentHighlight) && attachmentsToken == old(attachmentsToken)
      ensures gallery == old(gallery) && galleryIndex == old(galleryIndex)
      ensures hostObjectId == old(hostObjectId) && hostView == old(hostView)
    {
      if !Truthy(projectName) || !hasMap {
        return None;
      }
      relatedToken := relatedToken + 1;
      token := Some(relatedToken);
      layers.linesWhere := RelatedWhere(projectName);
      layers.polygonsWhere := RelatedWhere(projectName);
    }

    /**
     * `waitForEsriLayerLoad(layer, token)` settling (on `load` or after its
     * timeout): the layer's features when the token is current, `[]` when
     * a newer request has started.
     */
    method LayerLoadDone(token: nat, loaded: seq<Option<Feature>>) returns (r: seq<Option<Feature>>)
      ensures token == relatedToken ==> r == loaded
      ensures token != relatedToken ==> r == []
    {
      if token != relatedToken {
        return [];
      }
      return loaded;
    }

    /**
     * The continuation of `showRelatedFeatures` after both waits: no fit
     * when the token moved or `fit` is off; otherwise the bounds choice.
     */
    method RelatedSettled(token: nat, fit: bool, lineLayers: seq<Option<Feature>>, polyLayers: seq<Option<Feature>>)
      returns (choice: FitChoice)
      ensures token != relatedToken || !fit ==> choice == NoFit
      ensures token == relatedToken && fit ==> choice == ChooseBounds(lineLayers, polyLayers)
    {
      if token != relatedToken || !fit {
        return NoFit;
      }
      choice := ChooseBounds(lineLayers, polyLayers);
    }

    /** `resetRelatedFeatures()`: hide both related layers. */
    method ResetRelatedFeatures()
      modifies layers
      ensures layers.linesWhere == HiddenWhere && layers.polygonsWhere == HiddenWhere
      ensures layers.pointsWhere == old(layers.pointsWhere) && layers.markerLookup == old(layers.markerLookup)
    {
      layers.linesWhere := HiddenWhere;
      layers.polygonsWhere := HiddenWhere;
    }

    /** `resetProjectFilter()`: show every point. */
    method ResetProjectFilter()
      modifies layers
      ensures layers.pointsWhere == AllWhere
      ensures layers.linesWhere == old(layers.linesWhere) && layers.polygonsWhere == old(layers.polygonsWhere)
      ensures layers.markerLookup == old(layers.markerLookup)
    {
      layers.pointsWhere := AllWhere;
    }

    /** `showOnlyProject(objectId)`: filter the points to one OBJECTID; nothing for a null id. */
    method ShowOnlyProject(objectId: Value)
      modifies layers
      ensures IsNullish(objectId) ==> layers.pointsWhere == old(layers.pointsWhere)
      ensures !IsNullish(objectId) ==> layers.pointsWhere == OnlyProjectWhere(objectId)
      ensures layers.linesWhere == old(layers.linesWhere) && layers.polygonsWhere == old(layers.polygonsWhere)
      ensures layers.markerLookup == old(layers.markerLookup)
    {
      if !IsNullish(objectId) {
        layers.pointsWhere := OnlyProjectWhere(objectId);
      }
    }

    /**
     * `resetTableHighlights()`: forget the highlighted feature, clear the
     * marker highlight, cancel pending related loads, hide the related
     * layers and show every point.
     */
    method ResetTableHighlights()
      requires Valid()
      modifies this, highlight, layers
      ensures Valid()
      ensures currentHighlight.None? && relatedToken == old(relatedToken) + 1
      ensures highlight.View() == ClearHighlighted(old(highlight.View())) && highlight.selected == {}
      ensures layers.linesWhere == HiddenWhere && layers.polygonsWhere == HiddenWhere && layers.pointsWhere == AllWhere
      ensures layers.markerLookup == old(layers.markerLookup)
      ensures attachmentsToken == old(attachmentsToken) && gallery == old(gallery) && galleryIndex == old(galleryIndex)
      ensures hostObjectId == old(hostObjectId) && hostView == old(hostView)
    {
      currentHighlight := None;
      ClearHighlightedMarker();
      relatedToken := relatedToken + 1;
      ResetRelatedFeatures();
      ResetProjectFilter();
    }

    /** `galleryPrev()` */
    method GalleryPrev()
      modifies this
      ensures galleryIndex == GalleryPrevIndex(old(galleryIndex), |gallery|)
      ensures gallery == old(gallery) && relatedToken == old(relatedToken) && attachmentsToken == old(attachmentsToken)
      ensures currentHighlight == old(currentHighlight) && hostObjectId == old(hostObjectId) && hostView == old(hostView)
    {
      if |gallery| <= 1 {
        return;
      }
      galleryIndex := JsRem(galleryIndex - 1 + |gallery|, |gallery|);
    }

    /** `galleryNext()` */
    method GalleryNext()
      modifies this
      ensures galleryIndex == GalleryNextIndex(old(galleryIndex), |gallery|)
      ensures gallery == old(gallery) && relatedToken == old(relatedToken) && attachmentsToken == old(attachmentsToken)
      ensures currentHighlight == old(currentHighlight) && hostObjectId == old(hostObjectId) && hostView == old(hostView)
    {
      if |gallery| <= 1 {
        return;
      }
      galleryIndex := JsRem(galleryIndex + 1, |gallery|);
    }

    /** The gallery branch of `openAttachmentModal`: a finite index with a non-empty gallery is taken as is. */
    method OpenGallerySlide(galleryIndex: JsNum)
      modifies this
      ensures galleryIndex.Finite? && |gallery| > 0 ==> this.galleryIndex == galleryIndex.i
      ensures !(galleryIndex.Finite? && |gallery| > 0) ==> this.galleryIndex == old(this.galleryIndex)
      ensures gallery == old(gallery) && relatedToken == old(relatedToken) && attachmentsToken == old(attachmentsToken)
      ensures currentHighlight == old(currentHighlight) && hostObjectId == old(hostObjectId) && hostView == old(hostView)
    {
      if galleryIndex.Finite? && |gallery| > 0 {
        this.galleryIndex := galleryIndex.i;
      }
    }

    /**
     * `renderProjectAttachments(objectId)` up to its `await`: record the id
     * on the host, take a new token and show "Loading…"; nothing without
     * the host.
     */
    method RenderProjectAttachments(objectId: Value) returns (token: Option<nat>)
      modifies this
      ensures !hasHost ==>
        token.None? && attachmentsToken == old(attachmentsToken)
        && hostObjectId == old(hostObjectId) && hostView == old(hostView)
      ensures hasHost ==>
        attachmentsToken == old(attachmentsToken) + 1 && token == Some(attachmentsToken)
        && hostObjectId == ToStr(objectId) && hostView == Loading
      ensures gallery == old(gallery) && galleryIndex == old(galleryIndex)
      ensures relatedToken == old(relatedToken) && currentHighlight == old(currentHighlight)
    {
      if !hasHost {
        return None;
      }
      hostObjectId := ToStr(objectId);
      attachmentsToken := attachmentsToken + 1;
      token := Some(attachmentsToken);
      hostView := Loading;
    }

    /** A response is current when no newer request started and the host still shows the same id. */
    predicate AttachmentsCurrent(token: nat, objectId: Value)
      reads this
    {
      token == attachmentsToken && hostObjectId == ToStr(objectId)
    }

    /**
     * The continuation with the records (`infos || []`): a stale response
     * changes nothing; a current one replaces the gallery and shows the
     * featured attachment.
     */
    method AttachmentsLoaded(token: nat, objectId: Value, infos: Option<seq<AttachmentInfo>>)
      modifies this
      ensures !old(AttachmentsCurrent(token, objectId)) ==> gallery == old(gallery) && hostView == old(hostView)
      ensures old(AttachmentsCurrent(token, objectId)) ==>
        var all := if infos.Some? then infos.value else [];
        gallery == Gallery(all) && hostView == LoadedView(all)
      ensures galleryIndex == old(galleryIndex) && attachmentsToken == old(attachmentsToken) && hostObjectId == old(hostObjectId)
      ensures relatedToken == old(relatedToken) && currentHighlight == old(currentHighlight)
    {
      if token != attachmentsToken || hostObjectId != ToStr(objectId) {
        return;
      }
      var all := if infos.Some? then infos.value else [];
      gallery := Gallery(all);
      hostView := LoadedView(all);
    }

    /** The `catch`: a stale failure changes nothing; a current one shows the error. */
    method AttachmentsFailed(token: nat, objectId: Value)
      modifies this
      ensures !old(AttachmentsCurrent(token, objectId)) ==> hostView == old(hostView)
      ensures old(AttachmentsCurrent(token, objectId)) ==> hostView == LoadFailed
      ensures gallery == old(gallery) && galleryIndex == old(galleryIndex)
      ensures attachmentsToken == old(attachmentsToken) && hostObjectId == old(hostObjectId)
      ensures relatedToken == old(relatedToken) && currentHighlight == old(currentHighlight)
    {
      if token != attachmentsToken || hostObjectId != ToStr(objectId) {
        return;
      }
      hostView := LoadFailed;
    }
  }
}
