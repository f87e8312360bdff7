# Project map: routing and state synchronisation, modelled in Dafny

The project map is a browser application. It shows the city's capital
projects as clustered points on a Leaflet map, with a sidebar beside the map.

The sidebar holds:

- a home pane;
- one list pane per project type;
- a project detail pane, with an attribute table and an attachments gallery.

The URL fragment drives the whole user interface. `#home` and `#pane-…`
open a pane. `#project-<OBJECTID>` opens a project's detail. A monotonically
increasing route token cancels the asynchronous work of a route the user
has already left.

This project models the parts of that application that decide what is
shown. Each module corresponds to one source file:

| module | source file | form |
|---|---|---|
| `Values` | the JavaScript built-ins the core relies on: nullish and truthy tests, `??`, `\|\|`, `String()`, `Number()`, `trim()` | functions and lemmas |
| `Format` | `js/ui/format.js`: HTML escaping, cell formatting, SQL string literals, error messages | functions and lemmas |
| `Table` | `js/ui/table.js`: the detail table and its idempotence guard | functions, a `TableBody` class |
| `Highlight` | the marker highlight state of `js/utils.js` | pure transitions, a `HighlightState` class |
| `Memo` | the memoised promise with reset on failure, used twice (the project cache, the boundary) | a `PromiseMemo` class |
| `Layers` | `js/layers.js`: the marker registry, the layer filters, the boundary loader | classes |
| `LegacyLayers` | `projectmap-main/projectmap-main/js/layers.js` | a class |
| `Utils` | `js/utils.js`: the highlight, the related geometry, the project filter and the attachments gallery | pure functions, a `UtilsState` class |
| `LegacyUtils` | `projectmap-main/projectmap-main/js/utils.js` | a class |
| `Service` | `js/services/projectsService.js`: the attribute cache, its indexes and the by-id fetch | functions, lemmas, a `ProjectsService` class |
| `Sidebar` | `js/leaflet-sidebar.js`: tabs, panes, open and close, and the mobile bottom sheet | pure functions, a `SidebarState` class |
| `Router` | `js/router.js`: hash classification, dispatch, the origin pane and the route token | functions, `MarkerWaiter` and `RouterState` classes |
| `SidebarBuilder` | `js/sidebarBuilder.js`: pane construction, list rendering, click delegation, the instant detail fast path | functions and methods |

**How the code is turned into Dafny.**

- Module-level `let` variables become fields of a class, and the methods that update them have `modifies` clauses.
- Each method is proved against a pure function of the old state. Example: `highlight.View() == SetHighlightedById(old(highlight.View()), …)`.
- The properties the application relies on are proved as lemmas about those functions.
- Every `await` splits a handler into steps. The step after the `await` is a separate method. It receives the token captured before the `await`, and its contract states that a stale token changes nothing.
- DOM elements become fields: a table body's rows and its `data-objectid`, and a layer's `where` filter.
- The network, timers, the clock and the map are parameters of the step that consumes their result.

## Model

| member | source | states |
|---|---|---|
| `Values.NumberOfString` | js/services/projectsService.js:135-137 | `Number()` of the decimal text of an integer gives the integer back, so an id that went through `String()` or a `data-objectid` attribute finds the same cache entry |
| `Values.NumberOfToStr` | js/layers.js:38 | `Number(String(n))` equals `Number(n)` for every integer, so a numeric and a string OBJECTID register under the same key |
| `Format.EscapeHtml` | js/ui/format.js:2-9 | null and undefined escape to the empty string; every other value escapes `String(v)`, and `EscapeTextSafe` and `UnescapeEscape` state what that escaping guarantees |
| `Format.EscapeTextSafe` | js/ui/format.js:3-8 | the escaped text contains no `<`, `>`, `"` or `'`, and every `&` in it starts one of the five entities |
| `Format.UnescapeEscape` | js/ui/format.js:3-8 | decoding the five entities recovers the original text exactly, so escaping loses nothing, even for input that already contains entities |
| `Format.FormatCellValue` | js/ui/format.js:11-23 | null and undefined render as the empty string |
| `Format.FormatCellText` | js/ui/format.js:20-22 | a non-URL value renders with no raw newline and no `"`; turning `<br>` back into newlines and unescaping yields `String(v)` |
| `Format.BreaksRoundTrip` | js/ui/format.js:22 | on escaped text, which has no `<`, replacing newlines by `<br>` is undone by the reverse replacement |
| `Format.FormatCellLink` | js/ui/format.js:16-19 | a value whose trimmed text starts with `http://` or `https://`, in any letter case, becomes the fixed "View Page" anchor; its `href` is the escaped trimmed text, which cannot close the attribute and unescapes to the URL |
| `Format.SafeSqlString` | js/ui/format.js:25-28 | nullish values give the empty string |
| `Format.SqlEscapeLength` | js/ui/format.js:25-28 | doubling quotes adds exactly one character per single quote |
| `Format.ReadQuotedEscape` | js/ui/format.js:25-28 | reading an SQL string literal from the escaped text plus a closing quote recovers the original string and stops at exactly that quote |
| `Format.EqualsLiteralRoundTrip` | js/ui/format.js:25-28 | the `column = '<escaped>'` clause the core builds parses back to `column` compared with the exact original text |
| `Format.EsriErrorToString` | js/ui/format.js:30-41 | a falsy error gives "Unknown error"; an `Error` gives its message; a non-empty string gives itself; a plain object gives its `message` when truthy, and otherwise its `error.message` when that is truthy; the result is `None` exactly in the `JSON.stringify` fallback cases (a truthy non-string primitive, or an object with neither message); every other result is truthy |
| `Table.DetailRowsFollowFields` | js/ui/table.js:28-35 | the rows are the shown fields in configuration order; a field is shown iff its value is neither nullish nor blank after trimming, and each row pairs the escaped label with the formatted value |
| `Table.PlaceholderIffNothingShown` | js/ui/table.js:37-39 | the body is the single "No details available." row exactly when no configured field is shown |
| `Table.PairLabel` | js/ui/table.js:33 | a row's label unescapes to `label ?? key` |
| `Table.FillIdempotent` | js/ui/table.js:23-24 | rendering the same feature twice leaves the table exactly as the first rendering did |
| `Table.FillRecordsObjectId` | js/ui/table.js:23-24 | after a rendering inside a table, a second rendering of a feature with the same non-empty OBJECTID is recognised and skipped |
| `Table.TableBody.constructor` | js/ui/table.js:22-26 | a fresh body: no rows, no recorded OBJECTID, no click listener |
| `Table.TableBody.Fill` | js/ui/table.js:19-39 | the new rows and recorded id are `FillView` of the old ones: unchanged if this OBJECTID is already recorded, otherwise the id is recorded and the rows are replaced |
| `Table.RenderDetailTable` | js/ui/table.js:16-40 | with no body, no feature or no field array nothing happens; otherwise the body is filled as `TableBody.Fill` states |
| `Highlight.Paint` | js/utils.js:131-142 | only a Leaflet marker (one with `getLatLng` and `setIcon`) gains or loses the selected icon; any other layer is left alone |
| `Highlight.SetHighlightedEffect` | js/utils.js:144-159 | keeps at most one marker selected; a non-finite id changes nothing; a finite id is recorded; a registered marker becomes the only selected marker, and an unregistered id leaves the marker alone |
| `Highlight.ClearEffect` | js/utils.js:161-165 | after clearing, no id is recorded, no marker is remembered and no marker is painted selected |
| `Highlight.SetManyKeepsInvariant` | js/utils.js:144-159 | any sequence of highlight requests keeps at most one marker selected, and the last finite id is the recorded one |
| `Highlight.ReapplyEffect` | js/layers.js:41-46 | the corrected re-apply keeps at most one marker selected, and it makes the recreated marker both the remembered and the painted one |
| `Highlight.HighlightState.constructor` | js/utils.js:7-11 | no id recorded, no marker remembered, nothing selected |
| `Highlight.HighlightState.SetHighlightedMarkerById` | js/utils.js:144-159 | the new state is `SetHighlightedById` of the old state and `Number(objectId)`, and at most one marker stays selected |
| `Highlight.HighlightState.ClearHighlightedMarker` | js/utils.js:161-165 | the new state is `ClearHighlighted` of the old: nothing recorded, remembered or selected |
| `Highlight.HighlightState.ReapplyAsWrittenStep` | js/layers.js:41-46 | the as-written re-apply paints the recreated marker but leaves `_highlightedMarker` unchanged |
| `Highlight.HighlightState.ReapplyStep` | js/layers.js:41-46 | the corrected re-apply, which also remembers the recreated marker, keeps the one-selected invariant |
| `Memo.LoadEffect` | js/services/projectsService.js:121-130 | loading returns the cached promise if there is one and then changes nothing; otherwise it starts a fresh promise and caches it |
| `Memo.LoadTwiceSame` | js/services/projectsService.js:121-130 | two loads in a row return the same promise and start at most one request |
| `Memo.RetryAfterFailure` | js/services/projectsService.js:124-127 | after a failure clears the memo, the next load starts a new request rather than returning the failed promise |
| `Memo.PromiseMemo.constructor` | js/services/projectsService.js:7 | nothing is cached and no request has been issued |
| `Memo.PromiseMemo.Load` | js/services/projectsService.js:121-130 | the new state and the returned promise are `LoadView` of the old state; a request starts iff nothing was cached |
| `Memo.PromiseMemo.Fail` | js/services/projectsService.js:124-127 | the `.catch` empties the memo (`FailView`) |
| `Layers.EventObjectIdOrder` | js/layers.js:32-35 | the first non-nullish of the three is chosen, and the result is nullish only when all three are |
| `Layers.RegisterEffect` | js/layers.js:37-38 | an event with an id and a layer stores the layer under `Number(id)` and leaves every other key unchanged; any other event leaves the registry unchanged |
| `Layers.RegisterNumericString` | js/layers.js:38 | a marker whose OBJECTID is the decimal string of n is found under the number n |
| `Layers.Boundary.constructor` | js/layers.js:79-80 | no boundary layer, no pending promise |
| `Layers.Boundary.Load` | js/layers.js:83-86 | `loadJurisdictionBoundary` returns the pending promise when there is one, otherwise it starts one |
| `Layers.Boundary.Loaded` | js/layers.js:91-94 | the resolved promise records the boundary layer |
| `Layers.Boundary.Failed` | js/layers.js:95-99 | a failure clears both the promise and the layer, so the next call retries |
| `Layers.LayerState.constructor` | js/layers.js:11-80 | the points filter starts as `1=1`, the lines and polygons filters as `1=0`, and the registry is empty |
| `Layers.LayerState.OnCreateFeatureAsWritten` | js/layers.js:31-48 | registers the marker and runs the as-written re-apply on the highlight |
| `Layers.LayerState.OnCreateFeature` | js/layers.js:31-48 | registers the marker and runs the corrected re-apply, keeping at most one marker selected |
| `Layers.RecreatedMarkerSelected` | js/layers.js:41-46 | when clustering recreates the highlighted project's marker, the corrected handler makes that marker the single selected and remembered one |
| `Layers.CreateFeatureAsWrittenTwoSelected` | js/layers.js:41-46 | as written, after re-apply and then a highlight of another project, two markers are painted red; clearing leaves the recreated marker red |
| `LegacyLayers.LayerState.constructor` | projectmap-main/projectmap-main/js/layers.js:19-80 | the same initial filters and an empty registry |
| `LegacyLayers.LayerState.OnCreateFeature` | projectmap-main/projectmap-main/js/layers.js:33-42 | registers the marker with the same `??` chain, and never touches the highlight |
| `LegacyLayers.LayerState.LoadJurisdictionBoundary` | projectmap-main/projectmap-main/js/layers.js:88-99 | the same memoised promise |
| `LegacyLayers.LayerState.BoundaryFailed` | projectmap-main/projectmap-main/js/layers.js:100-105 | a failure clears the memo and the layer so the next call retries |
| `Utils.RouterImportUnresolved` | js/router.js:14-23 | of the names the router imports from js/utils.js, exactly `showOnlyProject` is not exported |
| `Utils.RouterImportsResolved` | js/router.js:14-23 | with `showOnlyProject` exported, every import resolves |
| `Utils.RelatedWhereNamesProject` | js/utils.js:261-264 | the related-geometry filter parses back to `project_name` compared with exactly `String(name)`, quotes included |
| `Utils.OnlyProjectWhereNumber` | projectmap-main/projectmap-main/js/utils.js:204-208 | the single-project filter is `OBJECTID = ` followed by a numeral denoting the id |
| `Utils.PresentFeaturesEmpty` | js/utils.js:273-274 | the features kept from the loaded layers are empty iff no layer carries a feature |
| `Utils.ChooseBoundsPrefersPolygons` | js/utils.js:273-282 | polygons win when any is present, then lines, and nothing is fitted iff neither has a feature |
| `Utils.GalleryIsImages` | js/utils.js:505-511 | the gallery holds exactly the attachments with a truthy URL and an image content type, never more slides than attachments |
| `Utils.GalleryFirst` | js/utils.js:505-511 | the first gallery slide is the first image attachment, in service order |
| `Utils.FirstFileIsFirst` | js/utils.js:546-575 | the file fallback picks the first attachment with a truthy URL, and none iff no attachment has one |
| `Utils.LoadedViewChoice` | js/utils.js:513-580 | a blank host iff no attachments; a featured image iff some attachment is an image, counting the whole gallery; "No viewable attachments." iff attachments exist but none has a URL |
| `Utils.GalleryEmptyWithoutUrls` | js/utils.js:505-511 | without URLs the gallery is empty |
| `Utils.GalleryStepsInRange` | js/utils.js:375-385 | with two or more slides, a step from a non-negative index stays in range |
| `Utils.GalleryNextStep` | js/utils.js:381-385 | next moves forward one slide and wraps from the last slide to the first |
| `Utils.GalleryPrevStep` | js/utils.js:375-379 | prev moves back one slide and wraps from the first slide to the last |
| `Utils.GalleryPrevNextInverse` | js/utils.js:375-385 | prev and next undo each other on valid indices |
| `Utils.GalleryPrevNegative` | js/utils.js:375-379 | for every negative index and two or more slides: from (-n, 0) prev still lands in [0, n), but from -n or below JavaScript's truncating `%` leaves the result in (-n, 0], and from -n exactly it is -1, so the range property needs a non-negative index |
| `Utils.UtilsState.constructor` | js/utils.js:224-308 | module load: no current highlight, both request tokens zero, an empty gallery at index 0, and the attachments host untouched |
| `Utils.UtilsState.SetHighlightedMarkerById` | js/utils.js:144-159 | delegates to the highlight state with the current registry |
| `Utils.UtilsState.ClearHighlightedMarker` | js/utils.js:161-165 | delegates the clear |
| `Utils.UtilsState.HighlightFeature` | js/utils.js:226-231 | no feature changes nothing; a feature becomes current, and its OBJECTID, when present, highlights the marker |
| `Utils.UtilsState.ShowRelatedFeatures` | js/utils.js:257-264 | a falsy name or a missing map changes nothing; otherwise the related token is incremented and returned, and the lines and polygons filters select the project |
| `Utils.UtilsState.LayerLoadDone` | js/utils.js:243-246 | a layer load under the current token yields its layers; under a stale token it yields none |
| `Utils.UtilsState.RelatedSettled` | js/utils.js:271-282 | a stale token or `fit: false` fits nothing; otherwise the bounds follow `ChooseBounds` |
| `Utils.UtilsState.ResetRelatedFeatures` | js/utils.js:285-288 | lines and polygons are hidden with `1=0`; the points filter is untouched |
| `Utils.UtilsState.ResetProjectFilter` | js/utils.js:290-292 | the points filter shows everything with `1=1` |
| `Utils.UtilsState.ShowOnlyProject` | projectmap-main/projectmap-main/js/utils.js:204-208 | a nullish id changes nothing; otherwise the points filter is the single-project clause; this is the definition the router expects from js/utils.js |
| `Utils.UtilsState.ResetTableHighlights` | js/utils.js:294-300 | clears the current highlight and the marker; invalidates pending related work by incrementing the token; hides related geometry; shows all points |
| `Utils.UtilsState.GalleryPrev` | js/utils.js:375-379 | the index becomes `GalleryPrevIndex` of the old index and the gallery size |
| `Utils.UtilsState.GalleryNext` | js/utils.js:381-385 | the index becomes `GalleryNextIndex` of the old index and the gallery size |
| `Utils.UtilsState.OpenGallerySlide` | js/utils.js:427-434 | with a non-empty gallery and a finite index, the lightbox moves to that slide; otherwise the index stays |
| `Utils.UtilsState.RenderProjectAttachments` | js/utils.js:486-495 | without a host nothing happens; otherwise the host records `String(objectId)`, the attachments token increments and the host shows "Loading…" |
| `Utils.UtilsState.AttachmentsLoaded` | js/utils.js:497-580 | a reply for a stale token or another object changes nothing; a current reply sets the gallery and the host view from the attachment list (null counts as empty) |
| `Utils.UtilsState.AttachmentsFailed` | js/utils.js:582-590 | a current failure shows the error view; a stale one changes nothing |
| `LegacyUtils.UtilsState.constructor` | projectmap-main/projectmap-main/js/utils.js:6-17 | module load: no current highlight, both request tokens zero, an empty gallery with no recorded object, and the host untouched |
| `LegacyUtils.UtilsState.HighlightFeature` | projectmap-main/projectmap-main/js/utils.js:145-148 | a feature becomes current; markers are not touched in this version |
| `LegacyUtils.UtilsState.ShowRelatedFeatures` | projectmap-main/projectmap-main/js/utils.js:169-176 | the same token increment and filters as the current version |
| `LegacyUtils.UtilsState.LayerLoadDone` | projectmap-main/projectmap-main/js/utils.js:150-167 | a stale token, or a layer without `getLayers`, yields no layers |
| `LegacyUtils.UtilsState.RelatedSettled` | projectmap-main/projectmap-main/js/utils.js:183-196 | a stale token or no fit fits nothing; otherwise polygons, then lines |
| `LegacyUtils.UtilsState.ResetRelatedFeatures` | projectmap-main/projectmap-main/js/utils.js:199-202 | hides related geometry |
| `LegacyUtils.UtilsState.ShowOnlyProject` | projectmap-main/projectmap-main/js/utils.js:204-208 | a nullish id changes nothing; otherwise the single-project filter |
| `LegacyUtils.UtilsState.ResetProjectFilter` | projectmap-main/projectmap-main/js/utils.js:210-212 | shows all points |
| `LegacyUtils.UtilsState.ResetTableHighlights` | projectmap-main/projectmap-main/js/utils.js:214-220 | clears the current highlight, increments the related token, hides related geometry and shows all points |
| `LegacyUtils.UtilsState.GalleryPrev` | projectmap-main/projectmap-main/js/utils.js:287-291 | the same index arithmetic as the current version |
| `LegacyUtils.UtilsState.GalleryNext` | projectmap-main/projectmap-main/js/utils.js:293-297 | the same index arithmetic as the current version |
| `LegacyUtils.UtilsState.RenderProjectAttachments` | projectmap-main/projectmap-main/js/utils.js:406-415 | records the object, increments the token and shows "Loading…" |
| `LegacyUtils.UtilsState.AttachmentsLoaded` | projectmap-main/projectmap-main/js/utils.js:417-502 | a current reply also records `_galleryObjectId`; a stale reply changes nothing |
| `LegacyUtils.UtilsState.AttachmentsFailed` | projectmap-main/projectmap-main/js/utils.js:503-511 | a current failure shows the error view |
| `Service.KeptExactly` | js/services/projectsService.js:25 | the cache keeps exactly the features whose OBJECTID is not nullish |
| `Service.IdIndexKeys` | js/services/projectsService.js:29-34 | the id index has a key for exactly the `Number(OBJECTID)` values of the kept features |
| `Service.IdIndexLast` | js/services/projectsService.js:34 | when two features share an id, the later one wins |
| `Service.OfTypeMembers` | js/services/projectsService.js:32-37 | a type's members are exactly the kept features whose `project_type \|\| 'Unknown'` is that type |
| `Service.BucketsAreTypes` | js/services/projectsService.js:36-37 | a bucket exists iff some feature has that type, and it holds exactly that type's features |
| `Service.ExactlyOneBucket` | js/services/projectsService.js:32-37 | every kept feature lies in its own type's bucket and in no other |
| `Service.LexTotal` | js/services/projectsService.js:16-19 | the name order compares any two names |
| `Service.LexTrans` | js/services/projectsService.js:16-19 | the name order is transitive |
| `Service.SortByNameCorrect` | js/services/projectsService.js:15-22 | sorting gives a permutation of its input, ordered by lower-cased `project_name \|\| ''` |
| `Service.SortThrowsOnlyOnBadNames` | js/services/projectsService.js:15-22 | the comparator's key throws only for a truthy name that is not a string; a sort of fewer than two never throws, and a numeric name among two or more does |
| `Service.AllSorted` | js/services/projectsService.js:40 | `_all` is a sorted permutation of the kept features |
| `Service.SortedBucketAgrees` | js/services/projectsService.js:41 | each bucket is a sorted permutation of its type's features |
| `Service.FeatureInItsBucket` | js/services/projectsService.js:36-41 | every feature of `_all` is found in its type's sorted bucket |
| `Service.NormalizeEsriJsonExactly` | js/services/projectsService.js:48-57 | a missing feature array gives no features; every output has an OBJECTID and no geometry; every record with an OBJECTID appears |
| `Service.GeoJsonRoundTrip` | js/services/projectsService.js:208-216 | converting a GeoJSON point, line set or polygon to Esri form and back gives it unchanged |
| `Service.ToGeoJsonOrder` | js/services/projectsService.js:208-216 | `x`/`y` give a point before `paths` give lines before `rings` give a polygon; otherwise there is no geometry |
| `Service.FetchFallbackOnlyWhenNeeded` | js/services/projectsService.js:153-226 | without a service URL the result is null; when the GeoJSON attempt answers, the fallback is irrelevant; a fallback feature comes from a clean Esri reply with a first record whose geometry is converted |
| `Service.BuildWhereForProjectTypeMeaning` | js/services/projectsService.js:228-232 | a falsy type gives `1=1`; otherwise the clause selects exactly that `project_type` |
| `Service.IndexPass` | js/services/projectsService.js:29-38 | the loop builds exactly the id index and the type buckets of the kept features |
| `Service.ProjectsService.constructor` | js/services/projectsService.js:7-11 | an empty cache, empty indexes, no pending promise |
| `Service.ProjectsService.BuildIndexes` | js/services/projectsService.js:24-42 | `_all`, `_byId` and `_byType` become the sorted kept features, their id index and their sorted buckets; it throws exactly when the name sort throws, and then the id index is built and the buckets are left unsorted |
| `Service.ProjectsService.CacheLoaded` | js/services/projectsService.js:95-98 | the REST reply is normalised and indexed, and the load rejects exactly when indexing throws |
| `Service.ProjectsService.LoadProjectsOnce` | js/services/projectsService.js:121-130 | memoised: a fetch starts iff none is cached |
| `Service.ProjectsService.LoadFailed` | js/services/projectsService.js:124-127 | a failure clears the memo |
| `Service.ProjectsService.GetCachedById` | js/services/projectsService.js:135-137 | a feature is found iff `Number(objectId)` is a key of the id index |
| `Service.ProjectsService.GetFeaturesForPane` | js/services/projectsService.js:143-146 | a falsy type gives `_all`; an unknown type gives the empty list |
| `Service.KeptOfKept` | js/services/projectsService.js:25 | filtering already normalised features again changes nothing |
| `Service.CachedByIdAfterIndexing` | js/services/projectsService.js:29-34 | a cached lookup succeeds iff some kept feature has that id, and returns the last such feature |
| `Sidebar.IndexOfId` | js/leaflet-sidebar.js:393-396 | the index of the first tab or pane with the id, or the length when there is none |
| `Sidebar.IndexOfIdAppend` | js/leaflet-sidebar.js:230-249 | an id appended once is found at the end |
| `Sidebar.RemovePanelEffect` | js/leaflet-sidebar.js:288-313 | removal takes out exactly the first tab and the first pane with the id and keeps the others in order; an absent id changes nothing |
| `Sidebar.AddThenRemovePanel` | js/leaflet-sidebar.js:230-313 | adding a panel with a fresh id and then removing it restores the tabs and the panes |
| `Sidebar.OpenActivatesOnePane` | js/leaflet-sidebar.js:183-186 | with distinct pane ids, opening marks active exactly the pane with the id, so at most one pane is active |
| `Sidebar.OpenActivatesOneTab` | js/leaflet-sidebar.js:188-193 | with distinct hashes, at most one tab is active, and one is active iff some tab links to `#id` |
| `Sidebar.OpenActivatesTabForId` | js/leaflet-sidebar.js:188-193 | when every tab links to `#<its id>`, the active tab is the one with that id |
| `Sidebar.DropFirstHash` | js/leaflet-sidebar.js:353 | `replace("#", "")` removes the first `#` only: a leading `#` is dropped, and text without `#` is unchanged |
| `Sidebar.DesiredPaneCases` | js/leaflet-sidebar.js:352-357 | `home` and `pane-…` open themselves; `project-…` opens the detail pane; anything else opens the last pane, or home; the result is never empty |
| `Sidebar.PeekOffset` | js/leaflet-sidebar.js:521-529 | the peek offset is never negative; it leaves at least 28px of handle visible, and exactly the handle height when that height fits |
| `Sidebar.Clamp` | js/leaflet-sidebar.js:540 | the transform stays between the full and peek offsets and is unchanged inside them |
| `Sidebar.SnapChoice` | js/leaflet-sidebar.js:653-658 | the sheet snaps full only when the biased position is strictly nearer the full offset; ties go to peek |
| `Sidebar.BiasMonotone` | js/leaflet-sidebar.js:646-651 | a faster downward release never biases the sheet further up |
| `Sidebar.SnapChoiceMidpoint` | js/leaflet-sidebar.js:644-658 | full iff the biased position lies above the midpoint; a release higher and with lower velocity than one that snaps full also snaps full |
| `Sidebar.SidebarState.constructor` | js/leaflet-sidebar.js:19-53 | no tabs, no panes, no current pane, the given collapsed flag, desktop mode, the sheet at peek with no transform, the map button hidden |
| `Sidebar.SidebarState.UpdateMapButtonVisibility` | js/leaflet-sidebar.js:560-564 | the map button shows iff bottom-sheet mode is on and the sheet is full |
| `Sidebar.SidebarState.RecalcSnapPoints` | js/leaflet-sidebar.js:521-534 | peek is `PeekOffset` of the larger viewport height and the handle height, 34 when unmeasured; full, min and max follow |
| `Sidebar.SidebarState.ApplyTransform` | js/leaflet-sidebar.js:536-548 | the transform becomes the target clamped to the snap range |
| `Sidebar.SidebarState.SnapTo` | js/leaflet-sidebar.js:550-558 | outside bottom-sheet mode nothing changes; otherwise the state and the transform go to that snap point |
| `Sidebar.SidebarState.EnableBottomsheet` | js/leaflet-sidebar.js:452-466 | bottom-sheet mode, expanded, at peek, the map button hidden |
| `Sidebar.SidebarState.DisableBottomsheet` | js/leaflet-sidebar.js:468-477 | desktop mode, the map button hidden, the panels untouched |
| `Sidebar.SidebarState.OnResize` | js/leaflet-sidebar.js:427-450 | the mode follows the media query; on entering it the sheet peeks; staying in it, the sheet keeps its state at the recomputed offsets |
| `Sidebar.SidebarState.GetTab` | js/leaflet-sidebar.js:393-396 | the first tab with the id; none is the "not found" error |
| `Sidebar.SidebarState.ActivatePaneFlags` | js/leaflet-sidebar.js:183-186 | the pane loop of `open` |
| `Sidebar.SidebarState.ActivateTabFlags` | js/leaflet-sidebar.js:188-193 | the tab loop of `open` |
| `Sidebar.SidebarState.Open` | js/leaflet-sidebar.js:170-213 | `_current` is set first; a disabled tab stops there with no content event; otherwise exactly the matching pane and tab become active and `content` fires; the bottom sheet goes full, its transform moving to the full snap point for `pane-projectInfo` or from peek and staying put otherwise; the desktop sidebar expands; the snap points and the drag flag are untouched |
| `Sidebar.SidebarState.Close` | js/leaflet-sidebar.js:215-228 | the bottom sheet peeks; on desktop the sidebar collapses; the panels are untouched |
| `Sidebar.SidebarState.AddPanel` | js/leaflet-sidebar.js:230-286 | appends a tab, unless `skipTab`, and a pane; in bottom-sheet mode the snap points are recomputed for the viewport height and the handle height (34 when the handle measures 0), so peek is `PeekOffset` of those, and the transform is re-clamped, starting from peek when there is none; outside bottom-sheet mode the position is untouched |
| `Sidebar.SidebarState.RemoveFirstTab` | js/leaflet-sidebar.js:291-299 | removes the first tab with the id |
| `Sidebar.SidebarState.RemoveFirstPane` | js/leaflet-sidebar.js:301-310 | removes the first pane with the id |
| `Sidebar.SidebarState.RemovePanel` | js/leaflet-sidebar.js:288-313 | removes the first tab and the first pane with the id, nothing else |
| `Sidebar.FirstActivePaneId` | js/leaflet-sidebar.js:335-342 | none iff no pane is active; otherwise the id of an active pane with no active pane before it |
| `Sidebar.SidebarState.ActivePaneId` | js/leaflet-sidebar.js:335-342 | the loop returns the first active pane's id, `FirstActivePaneId` of the panes |
| `Sidebar.SidebarState.OnTabClick` | js/leaflet-sidebar.js:327-368 | ignored in bottom-sheet mode; an expanded sidebar collapses and opens nothing; a collapsed one expands and opens a pane exactly when no pane is active or the first active one has an empty id; the pane it opens is the desired pane for the hash, becomes current, and its pane and tab become the only active ones unless its tab is disabled; opening nothing leaves the panels alone |
| `Sidebar.SidebarState.OnPointerUp` | js/leaflet-sidebar.js:631-659 | ends the drag and snaps to `SnapChoice` of the current offset, or peek when there is none, and the release velocity |
| `Router.ProjectHashIff` | js/router.js:44-46 | `project-` followed by text is a project hash iff that text is all digits |
| `Router.ProjectHashOfId` | js/router.js:266-270 | `project-<n>` is a project hash iff n is not negative, and the id read back from it is n |
| `Router.GetPaneById` | js/router.js:62-64 | none iff no pane has the id; otherwise the first pane with it |
| `Router.GetDetailPane` | js/router.js:58-60 | none iff no pane is a detail pane; otherwise the first detail pane |
| `Router.PaneHashOrigin` | js/router.js:48-56 | a non-empty known pane that is not a detail pane is exactly an origin pane, which is what the click handler's check at lines 384-386 tests |
| `Router.RouteOfExactlyOne` | js/router.js:415-431 | the empty hash goes home without resetting the filter; a project hash goes to the project handler; every other hash goes to the pane handler after resetting the filter; exactly one case applies |
| `Router.ResolvePaneFallback` | js/router.js:322-328 | a known pane resolves to itself; an unknown pane falls back to home when home exists, and otherwise nothing resolves |
| `Router.PaneFilter` | js/router.js:339-343 | the points filter is the pane's `where`, or `1=1`; never empty |
| `Router.SampleConfigIds` | projectmap-main/projectmap-main/js/sidebarConfig.js:5-110 | the shipped configuration's pane ids, in order |
| `Router.SampleDetailPane` | projectmap-main/projectmap-main/js/sidebarConfig.js:99-109 | its detail pane is `pane-projectInfo`, with the project-info fields and the `project-attachments` host |
| `Router.SampleUnknownPaneGoesHome` | js/router.js:322-328 | with the shipped configuration, an unknown pane resolves to home |
| `Router.SampleListPaneIsOrigin` | js/router.js:53-56 | a list pane of the shipped configuration is an origin pane |
| `Router.SampleDetailPaneIsNotOrigin` | js/router.js:53-56 | the shipped detail pane is not an origin pane |
| `Router.MarkerWaiter.constructor` | js/router.js:144-149 | an already registered marker resolves at once; otherwise the waiter listens, unless the timeout is negative |
| `Router.MarkerWaiter.OnLayerEvent` | js/router.js:151-159 | `createfeature` and `load` resolve with the marker once it is registered; a result, once set, never changes |
| `Router.MarkerWaiter.Tick` | js/router.js:161-166 | resolves with the marker when it is registered; resolves with null only after more than the timeout has elapsed; otherwise keeps waiting |
| `Router.RouterState.constructor` | js/router.js:31-35 | the origin and the last pane start as `home`, and the token starts at 0 |
| `Router.RouterState.SetLastOriginPane` | js/router.js:446-451 | a non-empty string becomes both the origin and the last pane; anything else is ignored |
| `Router.RouterState.SetBackButtonTarget` | js/router.js:245-249 | the back button, when present, links to `#<origin>` |
| `Router.RouterState.ClearDetailAttachments` | js/router.js:220-226 | when the detail pane's host is `project-attachments` and that element exists, it is emptied; otherwise nothing changes |
| `Router.RouterState.StartDetailAttachments` | js/router.js:228-240 | only the `project-attachments` host starts a load, for this object with a fresh token |
| `Router.RouterState.FillDetailTableFromFeature` | js/router.js:188-218 | the detail body is filled, with the same-OBJECTID guard, when the pane names a table and has a field array |
| `Router.RouterState.ShowFeature` | js/router.js:292-298 | fills the table; makes the feature current and highlights its marker; flies to it; with a truthy project name, starts related geometry under a fresh token |
| `Router.RouterState.ShowPane` | js/router.js:338-357 | sets the pane's points filter, hides related geometry, clears the attachments when leaving the detail pane, and fits home |
| `Router.RouterState.HandlePaneHash` | js/router.js:318-358 | always increments the token; an unresolved pane changes nothing else; otherwise the resolved pane opens, an origin pane is remembered, and the filters, attachments and home fit follow |
| `Router.RouterState.HandleProjectHash` | js/router.js:260-280 | no detail pane: nothing at all; otherwise the token increments; a matching `#project-<digits>` opens the detail pane, sets the back link, starts attachments and isolates the project, and returns the captured token |
| `Router.RouterState.OnProjectFetched` | js/router.js:288-300 | a stale token does nothing; a fresh null result goes on to the marker wait; a fresh feature fills the table, becomes the highlight and is flown to, then the marker wait follows; a truthy `project_name` shows the related lines and polygons under a fresh related token, which is returned, and otherwise they are untouched; the points filter, marker registry, attachments and origin are never touched |
| `Router.RouterState.OnMarkerWaitResolved` | js/router.js:303-315 | a stale token, or no marker feature, does nothing; otherwise the marker's feature fills the table, is highlighted and flown to, and its truthy `project_name` shows the related lines and polygons under a fresh, returned related token; the points filter, marker registry, attachments and origin are never touched |
| `Router.RouterState.ReopenDetail` | js/router.js:393-399 | the detail pane becomes current, the back button points at the origin, the attachments load for this object when the host exists, and the origin, route token and fly-to record are untouched |
| `Router.RouterState.OnMarkerClick` | js/router.js:376-405 | no numeric id: nothing; an origin pane in the hash is remembered; another project sets the hash; the same project re-opens the detail and requests a refresh tagged with the current token |
| `Router.RouterState.OnRefreshFetchedAsWritten` | js/router.js:406-408 | as written, the fetched feature fills the table whatever the route is by then |
| `Router.RouterState.OnRefreshFetched` | js/router.js:406-408 | the corrected continuation fills only while its token is current |
| `Router.RouterState.OnBackClick` | js/router.js:250-254 | resets highlights, filters and related geometry, and navigates to `#<origin>` |
| `Router.RouterState.Route` | js/router.js:415-431 | dispatches by `RouteOf`; pane routes end with the resolved pane open and its filter set; project routes, with a detail pane, end with the detail open and the project isolated |
| `Router.RefreshAsWrittenOverwrites` | js/router.js:406-408 | a late refresh for project 5 overwrites a table that shows project 7 |
| `Router.MarkerClickHashRoutes` | js/router.js:380-381 | the hash a marker click sets is routed to the project handler iff the id is not negative |
| `SidebarBuilder.ShowTableMessage` | js/sidebarBuilder.js:54-57 | the body becomes one escaped message row |
| `SidebarBuilder.ListRowFor` | js/sidebarBuilder.js:68-79 | one cell per column with the formatted value; `data-objectid` is `String(OBJECTID ?? '')` |
| `SidebarBuilder.RenderListRows` | js/sidebarBuilder.js:62-83 | the body is exactly one row per feature, in order |
| `SidebarBuilder.ListClickAction` | js/sidebarBuilder.js:127-145 | clicks on links, outside rows or on non-numeric ids are ignored; for a row with a numeric id, a missing or empty route is ignored, a `project-` route with a detail pane opens the detail with that id, and any other route becomes exactly `#route` |
| `SidebarBuilder.RowClickOpensItsProject` | js/sidebarBuilder.js:127-145 | clicking a rendered row of a project-routed pane opens that feature's own id, and the resulting hash routes to the project handler iff the id is not negative |
| `SidebarBuilder.RowClickWithoutDetailSetsHash` | js/sidebarBuilder.js:139-144 | without a detail pane the same click sets `#project-<id>` |
| `SidebarBuilder.RowClickFixedRoute` | js/sidebarBuilder.js:137-144 | a pane with a fixed non-empty route sets it as the hash for any numeric row, unless it is a `project-` route with a detail pane, which opens that row's detail |
| `SidebarBuilder.WireListClickDelegation` | js/sidebarBuilder.js:122-126 | the listener is installed at most once per body |
| `SidebarBuilder.WireListPanes` | js/sidebarBuilder.js:217-233 | after the cache loads, every list pane with a table is wired; the rows are untouched |
| `SidebarBuilder.InstantFields` | js/sidebarBuilder.js:102 | the detail's field array, else the project-info fields |
| `SidebarBuilder.PrepareDetail` | js/sidebarBuilder.js:91-98 | records the list pane as origin (and as last pane), resets highlights, opens the detail pane, starts the attachments with a fresh token when a host is configured and leaves them alone otherwise; the back link and the home-fit flag are untouched |
| `SidebarBuilder.OpenDetailInstant` | js/sidebarBuilder.js:91-118 | returns `#project-<id>`; the origin and last pane follow `setLastOriginPane`; the attachments token is returned exactly when a host is configured and present; the points filter is reset to all and the marker lookup is kept; a cached feature fills the table, is highlighted and flown to, and a truthy `project_name` shows its related lines and polygons with the returned token (the related token moves twice); otherwise the related layers stay hidden and no token is returned, and a miss shows "Loading…"; the route token, back link and home-fit flag are untouched |
| `SidebarBuilder.OnListClick` | js/sidebarBuilder.js:127-145 | performs `ListClickAction`: ignore, set the hash, or run the instant detail with this pane as origin |
| `SidebarBuilder.PaneBodyFor` | js/sidebarBuilder.js:168-186 | home keeps its content; other panes get a back button; a list pane gets its table with one escaped header per column; a detail pane gets its table and a host iff one is configured; `None` marks the configurations on which building throws |
| `SidebarBuilder.ListPaneBody` | js/sidebarBuilder.js:173-175 | a list pane as the shipped configuration writes it gets its table and one "Project Name" header |
| `SidebarBuilder.BuiltPanels` | js/sidebarBuilder.js:160-197 | building appends one pane per configured pane in order, and one tab per pane without `skipTab`; no pane becomes active and tab hashes follow ids |
| `SidebarBuilder.AddConfiguredPanels` | js/sidebarBuilder.js:160-197 | each pane's body is built before it is added, so the loop adds exactly the panes before the first one whose body throws (all of them when none does), leaving the tabs and panes `BuiltPanels` describes for that prefix; in bottom-sheet mode, once any panel is added, peek is `PeekOffset` of the viewport and handle heights |
| `SidebarBuilder.OnPaneContent` | js/sidebarBuilder.js:239-253 | reacts iff the id names a configured list pane with a table id and its body exists: the body shows "Loading…" and the cache load goes through the memo; otherwise the body and the cache are untouched |
| `SidebarBuilder.PaneContentLoaded` | js/sidebarBuilder.js:254-256 | the body lists the pane's features with its columns, defaulting to the name column |
| `SidebarBuilder.PaneContentFailed` | js/sidebarBuilder.js:257-260 | the body says "Failed to load projects" |

## Left out

- The network, the timers and the clock are left out. `fetch`, `setTimeout`, `Date.now()` and the Esri layer loads appear only as the results or times passed to the step that consumes them. Request URLs and query parameters are not modelled.
- The DOM is reduced to the state the core reads back. That state is a table body's rows, its `data-objectid` and its click listener; the attachments host's record and view; the sidebar's tab and pane flags; and the layer filters. Markup is kept only where the core escapes or parses it.
- Map drawing is left out: `flyToFeature`, `fitBounds`, `L.geoJSON`, icons and styles. `flyToFeature` is recorded as a list of features flown to. `fitHomeToBoundary` is recorded as a counter. The icon state is a set of painted markers.
- Numbers are integers. Fractional OBJECTIDs, floating-point coordinates and `Math.round` are not modelled. `Number()` accepts decimal integers with optional whitespace and sign, and anything else is `NaN`.
- `Service.SortByNameCorrect` uses code-unit order on names with ASCII letters lower-cased. The source's `localeCompare` and Unicode case folding are not modelled.
- `Service.ProjectsService.BuildIndexes` does not state `_all` after the name sort throws: what an interrupted in-place `Array.prototype.sort` leaves behind depends on the engine.
- `Format.EsriErrorToString` returns `None` on the `JSON.stringify` path, which is not modelled.
- The hover tooltip, the attachment modal's markup and keyboard handling, the splash screen, `main.js` and `map.js` are left out. These are user-interface code outside the routing and state core.
- The bottom sheet's pointer-down and pointer-move handlers (drag tracking and the velocity estimate) are left out. `Sidebar.SidebarState.OnPointerUp` takes the velocity as a parameter.
- `enablePanel`, `disablePanel` and the `_panMap` pan are left out. The disabled flag is modelled as data and is honoured by `open`.
- The requestAnimationFrame marking of the home tab in `buildSidebar` is left out. It only adds a CSS class.
- `Router.RouterState.ClearDetailAttachments` empties only the `project-attachments` host. The model has that one host, so clearing any other configured host is not represented.
- `Router.RouterState.StartDetailAttachments` admits only the `project-attachments` host, for the same reason: loading attachments into any other configured host is not represented.
- `Router.RouterState.HandleProjectHash` does not model the `Number.isFinite(objectId)` early return (js/router.js:269-270): integers are unbounded here, and a digit run too long for a double, which JavaScript parses to Infinity, is treated as an ordinary id.
- `loadProjectsFresh` is not modelled separately. It is `loadCacheViaRestFetch` without the memo, and its effect is `Service.ProjectsService.CacheLoaded`.
- `_desiredPaneFromHashOrLast` reads `window.location.hash`. In the model the hash is a parameter.
- Concurrency is modelled only through step methods and tokens. The interleavings themselves are not enumerated.
- The router's `await fetchProjectById` comes before its `waitForMarker`. The two steps run in that order, as the code does, and not concurrently. A stale token after the fetch ends the handler before the marker wait.
- Clicking the project already shown does not increment the route token in the code, and the model follows the code.

## Findings

| source | as written | input that shows it | evidently intended | confidence | as-written member | corrected member |
|---|---|---|---|---|---|---|
| js/layers.js:41-46 | when clustering recreates the highlighted project's marker, the handler paints it red but does not remember it as `_highlightedMarker`. Later highlights and clears therefore unpaint only the old marker. | project 5 highlighted; its marker is recreated; then project 7 is highlighted: markers 5 and 7 are both red, and a clear leaves marker 5 red | the recreated marker replaces the remembered one, so at most one marker is ever red | high; not executed | `Layers.CreateFeatureAsWrittenTwoSelected` | `Layers.RecreatedMarkerSelected` |
| js/router.js:406-408 | re-clicking the marker of the project on display fetches it again, and the `.then` fills the detail table without checking the route token | click project 5's marker while on `#project-5`; go to project 7 before the fetch returns: the table shows project 5 under `#project-7` | the refresh fills the table only while its route is current, as the other continuations do | high; not executed | `Router.RefreshAsWrittenOverwrites` | `Router.RouterState.OnRefreshFetched` |
| js/router.js:15 | the router imports `showOnlyProject` from js/utils.js, which does not export it | loading the page: the ES module graph fails to link | js/utils.js exports `showOnlyProject`, as the earlier version in `projectmap-main/projectmap-main/js/utils.js:204-208` does | high; not executed | `Utils.RouterImportUnresolved` | `Utils.RouterImportsResolved` |
