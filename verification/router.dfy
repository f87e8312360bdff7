/**
 * The hash router of js/router.js: the classification of URL fragments
 * (home, configured pane, `project-<digits>`), the dispatch to exactly one
 * handler, the origin-pane memory, and the generation counter
 * `projectRouteToken` that every `await` continuation compares with the
 * token it captured. Each continuation is its own step method taking the
 * captured token.
 */
module Router {
  import opened Values
  import opened Table
  import opened Highlight
  import opened Layers
  import opened Utils
  import Service
  import Sidebar

  // ---------------------------------------------------------------
  // Pane configuration
  // ---------------------------------------------------------------

  /** A list pane's `rowRoute`: absent, `project-${OBJECTID}`, or a fixed route. */
  datatype RowRoute = NoRowRoute | ProjectRowRoute | FixedRowRoute(route: string)

  /** `pane.list`: `tableId`, `projectType`, `columns` and `rowRoute`. */
  datatype ListConfig = ListConfig(tableId: string, projectType: Value, columns: Option<seq<FieldSpec>>, rowRoute: RowRoute)

  /** `pane.detail`: `tableId`, `fields` (when an array) and `attachments.hostId` ("" when absent). */
  datatype DetailConfig = DetailConfig(tableId: string, fields: Option<seq<FieldSpec>>, hostId: string)

  /** One entry of the sidebar configuration; an absent `where` is "". */
  datatype PaneConfig = PaneConfig(
    id: string, kind: string, where: string, skipTab: bool,
    list: Option<ListConfig>, detail: Option<DetailConfig>)

  /** `PROJECT_INFO_FIELDS` of js/config.js. */
  const ProjectInfoFields: seq<FieldSpec> := [
    FieldSpec("project_name", Str("Project Name")),
    FieldSpec("project_type", Str("Project Type")),
    FieldSpec("lead_agency", Str("Lead Agency")),
    FieldSpec("summary", Str("Summary")),
    FieldSpec("timeline", Str("Timeline")),
    FieldSpec("status", Str("Project Status")),
    FieldSpec("project_mangager", Str("Project Contact")),
    FieldSpec("url", Str("View Project Page"))
  ]

  const NameColumn: seq<FieldSpec> := [FieldSpec("project_name", Str("Project Name"))]

  function ListPane(id: string, where: string, tableId: string, projectType: Value): PaneConfig {
    PaneConfig(id, "list", where, true, Some(ListConfig(tableId, projectType, Some(NameColumn), ProjectRowRoute)), None)
  }

  /** The configuration of projectmap-main/projectmap-main/js/sidebarConfig.js. */
  function SampleConfig(): seq<PaneConfig> {
    [
      PaneConfig("home", "home", "", false, None, None),
      ListPane("pane-all", "1=1", "table-all", Null),
      ListPane("pane-engineering", Service.BuildWhereForProjectType(Str("Streets & Utilities")), "table-engineering", Str("Streets & Utilities")),
      ListPane("pane-parks", Service.BuildWhereForProjectType(Str("Parks & Trails")), "table-parks", Str("Parks & Trails")),
      ListPane("pane-planning", Service.BuildWhereForProjectType(Str("Planning & Development")), "table-planning", Str("Planning & Development")),
      PaneConfig("pane-projectInfo", "detail", "", true, None,
        Some(DetailConfig("table-projectInfo", Some(ProjectInfoFields), "project-attachments")))
    ]
  }

  // ---------------------------------------------------------------
  // Hash helpers
  // ---------------------------------------------------------------

  /** `getHashId()`: the location hash without its first `#`. */
  function HashId(hash: string): string {
    Sidebar.DropFirstHash(hash)
  }

  /** `isProjectHash(h)`: `/^project-\d+$/` */
  predicate IsProjectHash(h: string) {
    |h| > 8 && h[..8] == "project-" && IsDigits(h[8..])
  }

  /** A fragment is a project route exactly when `project-` is followed by one or more digits and nothing else. */
  lemma ProjectHashIff(d: string)
    ensures IsProjectHash("project-" + d) <==> IsDigits(d)
    ensures forall h :: IsProjectHash(h) ==> StartsWith(h, "project-")
  {
    assert ("project-" + d)[..8] == "project-";
    assert ("project-" + d)[8..] == d;
  }

  /** The route a marker click writes, `project-${objectId}`, is a project route exactly for ids >= 0. */
  lemma ProjectHashOfId(n: int)
    ensures IsProjectHash("project-" + IntToDecimal(n)) <==> n >= 0
    ensures n >= 0 ==> ProjectIdOf("project-" + IntToDecimal(n)) == n
  {
    var h := "project-" + IntToDecimal(n);
    assert h[..8] == "project-";
    assert h[8..] == IntToDecimal(n);
    if n < 0 {
      assert !IsDigit(h[8]);
    } else {
      DigitsValueOfDecimal(n);
    }
  }

  /** `Number(match[1])` for a project route. */
  function ProjectIdOf(h: string): nat
    requires IsProjectHash(h)
  {
    DigitsValue(h[8..])
  }

  function ConfigIds(cfg: seq<PaneConfig>): (ids: seq<string>)
    ensures |ids| == |cfg| && forall i :: 0 <= i < |cfg| ==> ids[i] == cfg[i].id
  {
    if cfg == [] then [] else [cfg[0].id] + ConfigIds(cfg[1..])
  }

  /** `getPaneById(cfg, id)`: the first pane with that id. */
  function GetPaneById(cfg: seq<PaneConfig>, id: string): (r: Option<PaneConfig>)
    ensures r.None? <==> id !in ConfigIds(cfg)
    ensures r.Some? ==>
      var k := Sidebar.IndexOfId(ConfigIds(cfg), id);
      k < |cfg| && r.value == cfg[k] && r.value.id == id
  {
    var k := Sidebar.IndexOfId(ConfigIds(cfg), id);
    if k < |cfg| then Some(cfg[k]) else None
  }

  /** `getDetailPane(cfg)`: the first pane of kind `detail`. */
  function GetDetailPane(cfg: seq<PaneConfig>): (r: Option<PaneConfig>)
    ensures r.None? <==> forall i :: 0 <= i < |cfg| ==> cfg[i].kind != "detail"
    ensures r.Some? ==> exists k :: (0 <= k < |cfg| && cfg[k] == r.value && r.value.kind == "detail"
      && forall j :: 0 <= j < k ==> cfg[j].kind != "detail")
  {
    if cfg == [] then None
    else if cfg[0].kind == "detail" then Some(cfg[0])
    else
      var r := GetDetailPane(cfg[1..]);
      assert r.Some? ==> exists k :: (0 <= k < |cfg| - 1 && cfg[1..][k] == r.value && r.value.kind == "detail"
        && forall j :: 0 <= j < k ==> cfg[1..][j].kind != "detail");
      if r.Some? then
        var k :| 0 <= k < |cfg| - 1 && cfg[1..][k] == r.value && forall j :: 0 <= j < k ==> cfg[1..][j].kind != "detail";
        assert cfg[k + 1] == r.value;
        assert forall j :: 0 <= j < k + 1 ==> cfg[j].kind != "detail" by {
          forall j | 0 <= j < k + 1 ensures cfg[j].kind != "detail" {
            if j > 0 { assert cfg[j] == cfg[1..][j - 1]; }
          }
        }
        r
      else
        assert forall i :: 0 <= i < |cfg| ==> cfg[i].kind != "detail" by {
          forall i | 0 <= i < |cfg| ensures cfg[i].kind != "detail" {
            if i > 0 { assert cfg[i] == cfg[1..][i - 1]; }
          }
        }
        r
  }

  /** `isPaneHash(h, cfg)`: a non-empty fragment that is some pane's id. */
  predicate IsPaneHash(h: string, cfg: seq<PaneConfig>) {
    h != "" && h in ConfigIds(cfg)
  }

  /** `isOriginPaneId(id, cfg)`: the pane exists and is not the detail pane kind. */
  predicate IsOriginPaneId(id: string, cfg: seq<PaneConfig>) {
    GetPaneById(cfg, id).Some? && GetPaneById(cfg, id).value.kind != "detail"
  }

  /** The marker-click test (a pane route whose pane is not a detail pane) is `isOriginPaneId`. */
  lemma PaneHashOrigin(h: string, cfg: seq<PaneConfig>)
    ensures (IsPaneHash(h, cfg) && GetPaneById(cfg, h).Some? && GetPaneById(cfg, h).value.kind != "detail")
      <==> (h != "" && IsOriginPaneId(h, cfg))
  {
  }

  /** Which handler `route()` runs for a fragment. */
  datatype Dispatch = ToPane(paneId: string, resetFilter: bool) | ToProject

  /** `route()`: empty goes home, a project route to the project handler, anything else resets the points filter and goes to the pane handler. */
  function RouteOf(h: string): Dispatch {
    if h == "" then ToPane("home", false)
    else if IsProjectHash(h) then ToProject
    else ToPane(h, true)
  }

  /** Every fragment goes to exactly one handler. */
  lemma RouteOfExactlyOne(h: string)
    ensures RouteOf(h) == ToPane("home", false) <==> h == ""
    ensures RouteOf(h) == ToProject <==> IsProjectHash(h)
    ensures RouteOf(h) == ToPane(h, true) <==> h != "" && !IsProjectHash(h)
  {
  }

  /** The pane `handlePaneHash` opens: the named pane, else `home`, else none. */
  function ResolvePane(cfg: seq<PaneConfig>, paneId: string): Option<PaneConfig> {
    var target := if paneId == "" then "home" else paneId;
    var pane := GetPaneById(cfg, target);
    if pane.Some? then pane else GetPaneById(cfg, "home")
  }

  /** An unknown pane id resolves to the `home` pane, or to nothing when `home` is not configured. */
  lemma ResolvePaneFallback(cfg: seq<PaneConfig>, paneId: string)
    requires paneId != ""
    ensures paneId in ConfigIds(cfg) ==> ResolvePane(cfg, paneId).Some? && ResolvePane(cfg, paneId).value.id == paneId
    ensures paneId !in ConfigIds(cfg) && "home" in ConfigIds(cfg) ==>
      ResolvePane(cfg, paneId).Some? && ResolvePane(cfg, paneId).value.id == "home"
    ensures paneId !in ConfigIds(cfg) && "home" !in ConfigIds(cfg) ==> ResolvePane(cfg, paneId).None?
  {
  }

  /** The points filter for a pane: its `where`, else every point. */
  function PaneFilter(p: PaneConfig): (w: string)
    ensures w != ""
  {
    if p.where != "" then p.where else AllWhere
  }

  /** The detail table's fields, when the pane has a `tableId` and an array of fields. */
  function DetailFields(d: PaneConfig): Option<seq<FieldSpec>> {
    if d.detail.Some? && d.detail.value.tableId != "" then d.detail.value.fields else None
  }

  /** `detailPane.detail.attachments.hostId`, "" when absent. */
  function HostId(d: PaneConfig): string {
    if d.detail.Some? then d.detail.value.hostId else ""
  }

  /** What `renderDetailTable` leaves in a table: a fill when there are fields, else nothing changes. */
  function FillWith(inTable: bool, v: TableView, fields: Option<seq<FieldSpec>>, props: Props): TableView {
    if fields.Some? then FillView(inTable, v, props, fields.value) else v
  }

  /** What `fillDetailTableFromFeature` leaves in the detail table. */
  function DetailFill(inTable: bool, v: TableView, detail: PaneConfig, props: Props): TableView {
    FillWith(inTable, v, DetailFields(detail), props)
  }

  /** What `highlightFeature(feature)` does to the marker highlight. */
  function FeatureHighlight(v: HighlightView, registry: Registry, f: Feature): HighlightView {
    if IsNullish(ObjectIdOf(f)) then v else SetHighlightedById(v, registry, ToNumber(ObjectIdOf(f)))
  }

  lemma SampleConfigIds()
    ensures ConfigIds(SampleConfig()) == ["home", "pane-all", "pane-engineering", "pane-parks", "pane-planning", "pane-projectInfo"]
  {
  }

  /** The sample configuration's detail pane is `pane-projectInfo`, showing `PROJECT_INFO_FIELDS`. */
  lemma SampleDetailPane()
    ensures GetDetailPane(SampleConfig()).Some? && GetDetailPane(SampleConfig()).value.id == "pane-projectInfo"
    ensures DetailFields(GetDetailPane(SampleConfig()).value) == Some(ProjectInfoFields)
    ensures HostId(GetDetailPane(SampleConfig()).value) == "project-attachments"
  {
    var cfg := SampleConfig();
    var d := PaneConfig("pane-projectInfo", "detail", "", true, None,
      Some(DetailConfig("table-projectInfo", Some(ProjectInfoFields), "project-attachments")));
    assert cfg[5..] == [d];
    assert GetDetailPane(cfg[5..]) == Some(d);
    assert GetDetailPane(cfg[4..]) == GetDetailPane(cfg[5..]) by { assert cfg[4..][1..] == cfg[5..]; }
    assert GetDetailPane(cfg[3..]) == GetDetailPane(cfg[4..]) by { assert cfg[3..][1..] == cfg[4..]; }
    assert GetDetailPane(cfg[2..]) == GetDetailPane(cfg[3..]) by { assert cfg[2..][1..] == cfg[3..]; }
    assert GetDetailPane(cfg[1..]) == GetDetailPane(cfg[2..]) by { assert cfg[1..][1..] == cfg[2..]; }
  }

  /** In the sample configuration an unknown pane falls back to `home`. */
  lemma SampleUnknownPaneGoesHome()
    ensures ResolvePane(SampleConfig(), "pane-unknown").Some? && ResolvePane(SampleConfig(), "pane-unknown").value.id == "home"
  {
    SampleConfigIds();
    var ids := ConfigIds(SampleConfig());
    assert ids[0] == "home";
    assert "pane-unknown" !in ids;
  }

  /** In the sample configuration a list pane is an origin pane. */
  lemma SampleListPaneIsOrigin()
    ensures IsOriginPaneId("pane-parks", SampleConfig())
  {
    var cfg := SampleConfig();
    SampleConfigIds();
    var ids := ConfigIds(cfg);
    assert Sidebar.IndexOfId(ids, "pane-parks") == 3 by {
      assert ids[3] == "pane-parks";
      assert forall j :: 0 <= j < 3 ==> ids[j] != "pane-parks";
    }
    assert GetPaneById(cfg, "pane-parks") == Some(cfg[3]);
  }

  /** In the sample configuration the detail pane is not an origin pane. */
  lemma SampleDetailPaneIsNotOrigin()
    ensures !IsOriginPaneId("pane-projectInfo", SampleConfig())
  {
    var cfg := SampleConfig();
    SampleConfigIds();
    var ids := ConfigIds(cfg);
    assert Sidebar.IndexOfId(ids, "pane-projectInfo") == 5 by {
      assert ids[5] == "pane-projectInfo";
      assert forall j :: 0 <= j < 5 ==> ids[j] != "pane-projectInfo";
    }
    assert GetPaneById(cfg, "pane-projectInfo") == Some(cfg[5]);
  }

  /** A marker-click re-fetch request: the id and the route token at the click. */
  datatype RefreshRequest = RefreshRequest(objectId: int, token: nat)

  // ---------------------------------------------------------------
  // waitForMarker
  // ---------------------------------------------------------------

  /**
   * One pending `waitForMarker(objectId, timeoutMs)`: `result` is `None`
   * while pending, then the marker or null it resolved with; `listening`
   * says whether the `createfeature` and `load` listeners are attached.
   */
  class MarkerWaiter {
    const objectId: JsNum
    const start: int
    const timeoutMs: int
    var result: Option<Option<Marker>>
    var listening: bool

    ghost predicate Valid()
      reads this
    {
      listening <==> result.None?
    }

    /** The promise body: an existing entry resolves at once; otherwise listen and take the first tick. */
    constructor (registry: Registry, objectId: JsNum, now: int, timeoutMs: int)
      ensures Valid()
      ensures this.objectId == objectId && start == now && this.timeoutMs == timeoutMs
      ensures objectId in registry ==> result == Some(Some(registry[objectId]))
      ensures objectId !in registry && timeoutMs < 0 ==> result == Some(None)
      ensures objectId !in registry && timeoutMs >= 0 ==> result.None?
    {
      this.objectId := objectId;
      start := now;
      this.timeoutMs := timeoutMs;
      if objectId in registry {
        result := Some(Some(registry[objectId]));
        listening := false;
      } else if now - now > timeoutMs {
        result := Some(None);
        listening := false;
      } else {
        result := None;
        listening := true;
      }
    }

    /** The `createfeature` or `load` listener: resolves once the entry exists. */
    method OnLayerEvent(registry: Registry)
      requires Valid()
      modifies this
      ensures Valid()
      ensures old(result).Some? ==> result == old(result)
      ensures old(result).None? && objectId in registry ==> result == Some(Some(registry[objectId]))
      ensures old(result).None? && objectId !in registry ==> result.None?
    {
      if !listening {
        return;
      }
      if objectId in registry {
        result := Some(Some(registry[objectId]));
        listening := false;
      }
    }

    /** The 90 ms poll: the entry if present, else null once more than `timeoutMs` has elapsed. */
    method Tick(registry: Registry, now: int)
      requires Valid()
      modifies this
      ensures Valid()
      ensures old(result).Some? ==> result == old(result)
      ensures old(result).None? && objectId in registry ==> result == Some(Some(registry[objectId]))
      ensures old(result).None? && objectId !in registry && now - start > timeoutMs ==> result == Some(None)
      ensures old(result).None? && objectId !in registry && now - start <= timeoutMs ==> result.None?
    {
      if !listening {
        return;
      }
      if objectId in registry {
        result := Some(Some(registry[objectId]));
        listening := false;
      } else if now - start > timeoutMs {
        result := Some(None);
        listening := false;
      }
    }
  }

  // ---------------------------------------------------------------
  // The router state
  // ---------------------------------------------------------------

  class RouterState {
    const cfg: seq<PaneConfig>
    const sidebar: Sidebar.SidebarState
    const utils: UtilsState
    /** the detail pane's `<tbody>`, when the page has one */
    const detailBody: TableBody?
    /** the detail pane has a `.sidebar-back-button` */
    const hasBackButton: bool
    var lastOriginPaneId: string
    var lastPaneId: string
    var projectRouteToken: nat
    /** the back button's `href` */
    var backHref: string
    /** the features `flyToFeature` was asked to show, in order */
    var flownTo: seq<Feature>
    /** how many times `fitHomeToBoundary` was started */
    var homeFits: nat

    constructor (cfg: seq<PaneConfig>, sidebar: Sidebar.SidebarState, utils: UtilsState, detailBody: TableBody?, hasBackButton: bool)
      ensures this.cfg == cfg && this.sidebar == sidebar && this.utils == utils
      ensures this.detailBody == detailBody && this.hasBackButton == hasBackButton
      ensures lastOriginPaneId == "home" && lastPaneId == "home" && projectRouteToken == 0
      ensures backHref == "" && flownTo == [] && homeFits == 0
    {
      this.cfg := cfg;
      this.sidebar := sidebar;
      this.utils := utils;
      this.detailBody := detailBody;
      this.hasBackButton := hasBackButton;
      lastOriginPaneId := "home";
      lastPaneId := "home";
      projectRouteToken := 0;
      backHref := "";
      flownTo := [];
      homeFits := 0;
    }

    ghost predicate Valid()
      reads sidebar, utils.highlight
    {
      sidebar.Valid() && utils.Valid()
    }

    /** `setLastOriginPane(paneId)`: only a non-empty string is recorded. */
    method SetLastOriginPane(paneId: Value)
      modifies this
      ensures paneId.Str? && paneId.s != "" ==> lastOriginPaneId == paneId.s && lastPaneId == paneId.s
      ensures !(paneId.Str? && paneId.s != "") ==> lastOriginPaneId == old(lastOriginPaneId) && lastPaneId == old(lastPaneId)
      ensures projectRouteToken == old(projectRouteToken) && backHref == old(backHref)
      ensures flownTo == old(flownTo) && homeFits == old(homeFits)
    {
      if paneId.Str? && paneId.s != "" {
        lastOriginPaneId := paneId.s;
        lastPaneId := paneId.s;
      }
    }

    /** `setBackButtonTarget(detailPane)`: the back button points at the origin pane. */
    method SetBackButtonTarget()
      modifies this
      ensures hasBackButton ==> backHref == "#" + lastOriginPaneId
      ensures !hasBackButton ==> backHref == old(backHref)
      ensures lastOriginPaneId == old(lastOriginPaneId) && lastPaneId == old(lastPaneId)
      ensures projectRouteToken == old(projectRouteToken) && flownTo == old(flownTo) && homeFits == old(homeFits)
    {
      if hasBackButton {
        backHref := "#" + lastOriginPaneId;
      }
    }

    /** `clearDetailAttachments(detailPane)`: empties the attachments host. */
    method ClearDetailAttachments(detail: PaneConfig)
      modifies utils
      ensures HostId(detail) == "project-attachments" && utils.hasHost ==> utils.hostView == Cleared
      ensures !(HostId(detail) == "project-attachments" && utils.hasHost) ==> utils.hostView == old(utils.hostView)
      ensures utils.currentHighlight == old(utils.currentHighlight) && utils.relatedToken == old(utils.relatedToken)
      ensures utils.attachmentsToken == old(utils.attachmentsToken) && utils.hostObjectId == old(utils.hostObjectId)
      ensures utils.gallery == old(utils.gallery) && utils.galleryIndex == old(utils.galleryIndex)
    {
      var hostId := HostId(detail);
      if hostId == "" {
        return;
      }
      if hostId == "project-attachments" && utils.hasHost {
        utils.hostView := Cleared;
      }
    }

    /** `startDetailAttachments(detailPane, objectId)`: loads attachments into `#project-attachments` only. */
    method StartDetailAttachments(detail: PaneConfig, objectId: int) returns (token: Option<nat>)
      modifies utils
      ensures HostId(detail) == "project-attachments" && utils.hasHost ==>
        utils.attachmentsToken == old(utils.attachmentsToken) + 1 && token == Some(utils.attachmentsToken)
        && utils.hostObjectId == IntToDecimal(objectId) && utils.hostView == Loading
      ensures !(HostId(detail) == "project-attachments" && utils.hasHost) ==>
        token.None? && utils.attachmentsToken == old(utils.attachmentsToken)
        && utils.hostObjectId == old(utils.hostObjectId) && utils.hostView == old(utils.hostView)
      ensures utils.currentHighlight == old(utils.currentHighlight) && utils.relatedToken == old(utils.relatedToken)
      ensures utils.gallery == old(utils.gallery) && utils.galleryIndex == old(utils.galleryIndex)
    {
      var hostId := HostId(detail);
      if hostId == "" || hostId != "project-attachments" {
        return None;
      }
      token := utils.RenderProjectAttachments(Num(objectId));
    }

    /** `fillDetailTableFromFeature(detailPane, feature)` */
    method FillDetailTableFromFeature(detail: PaneConfig, feature: Feature)
      modifies detailBody
      ensures detailBody != null ==>
        detailBody.View() == DetailFill(detailBody.inTable, old(detailBody.View()), detail, feature.properties)
        && detailBody.wired == old(detailBody.wired)
    {
      var fields := DetailFields(detail);
      if fields.None? || detailBody == null {
        return;
      }
      detailBody.Fill(feature.properties, fields.value);
    }

    /**
     * The common tail of both project continuations: fill the table,
     * highlight the feature, fly to it, and show its related geometry when
     * it has a project name.
     */
    method ShowFeature(fields: Option<seq<FieldSpec>>, feature: Feature) returns (relatedToken: Option<nat>)
      requires Valid()
      modifies this, detailBody, utils, utils.highlight, utils.layers
      ensures Valid()
      ensures detailBody != null ==>
        detailBody.View() == FillWith(detailBody.inTable, old(detailBody.View()), fields, feature.properties)
        && detailBody.wired == old(detailBody.wired)
      ensures utils.currentHighlight == Some(feature)
      ensures utils.highlight.View() == FeatureHighlight(old(utils.highlight.View()), old(utils.layers.markerLookup), feature)
      ensures flownTo == old(flownTo) + [feature]
      ensures Truthy(Get(feature.properties, "project_name")) ==>
        utils.relatedToken == old(utils.relatedToken) + 1 && relatedToken == Some(utils.relatedToken)
        && utils.layers.linesWhere == RelatedWhere(Get(feature.properties, "project_name"))
        && utils.layers.polygonsWhere == RelatedWhere(Get(feature.properties, "project_name"))
      ensures !Truthy(Get(feature.properties, "project_name")) ==>
        relatedToken.None? && utils.relatedToken == old(utils.relatedToken)
        && utils.layers.linesWhere == old(utils.layers.linesWhere) && utils.layers.polygonsWhere == old(utils.layers.polygonsWhere)
      ensures utils.layers.pointsWhere == old(utils.layers.pointsWhere) && utils.layers.markerLookup == old(utils.layers.markerLookup)
      ensures lastOriginPaneId == old(lastOriginPaneId) && lastPaneId == old(lastPaneId)
      ensures projectRouteToken == old(projectRouteToken) && backHref == old(backHref) && homeFits == old(homeFits)
      ensures utils.attachmentsToken == old(utils.attachmentsToken) && utils.hostObjectId == old(utils.hostObjectId)
      ensures utils.hostView == old(utils.hostView)
    {
      RenderDetailTable(detailBody, Some(feature), fields);
      utils.HighlightFeature(Some(feature));
      flownTo := flownTo + [feature];
      var pn := Get(feature.properties, "project_name");
      relatedToken := None;
      if Truthy(pn) {
        relatedToken := utils.ShowRelatedFeatures(pn, true);
      }
    }

    /**
     * The part of `handlePaneHash` after opening the pane: the points
     * filter, hidden related geometry, cleared attachments when leaving the
     * detail pane, and the boundary fit on `home`.
     */
    method ShowPane(p: PaneConfig)
      modifies this, utils, utils.layers
      ensures utils.layers.pointsWhere == PaneFilter(p)
      ensures utils.layers.linesWhere == HiddenWhere && utils.layers.polygonsWhere == HiddenWhere
      ensures homeFits == old(homeFits) + (if p.id == "home" then 1 else 0)
      ensures (GetDetailPane(cfg).Some? && p.id != GetDetailPane(cfg).value.id
               && HostId(GetDetailPane(cfg).value) == "project-attachments" && utils.hasHost) ==> utils.hostView == Cleared
      ensures !(GetDetailPane(cfg).Some? && p.id != GetDetailPane(cfg).value.id) ==> utils.hostView == old(utils.hostView)
      ensures utils.layers.markerLookup == old(utils.layers.markerLookup)
      ensures utils.currentHighlight == old(utils.currentHighlight) && utils.relatedToken == old(utils.relatedToken)
      ensures utils.attachmentsToken == old(utils.attachmentsToken) && utils.hostObjectId == old(utils.hostObjectId)
      ensures utils.gallery == old(utils.gallery) && utils.galleryIndex == old(utils.galleryIndex)
      ensures lastOriginPaneId == old(lastOriginPaneId) && lastPaneId == old(lastPaneId)
      ensures projectRouteToken == old(projectRouteToken) && backHref == old(backHref) && flownTo == old(flownTo)
    {
      utils.layers.pointsWhere := PaneFilter(p);
      utils.ResetRelatedFeatures();
      var detail := GetDetailPane(cfg);
      if detail.Some? && p.id != detail.value.id {
        ClearDetailAttachments(detail.value);
      }
      if p.id == "home" {
        homeFits := homeFits + 1;
      }
    }

    /**
     * `handlePaneHash(paneId)`: bump the token, resolve the pane (falling
     * back to `home`), open it, remember it when it can be an origin, set
     * the points filter, hide related geometry, clear the attachments when
     * leaving the detail pane, and fit the boundary on `home`.
     */
    method HandlePaneHash(paneId: string) returns (shown: Option<string>)
      requires Valid()
      modifies this, sidebar, utils, utils.layers
      ensures Valid()
      ensures projectRouteToken == old(projectRouteToken) + 1
      ensures ResolvePane(cfg, paneId).None? ==>
        shown.None? && unchanged(sidebar, utils, utils.layers)
        && lastOriginPaneId == old(lastOriginPaneId) && lastPaneId == old(lastPaneId) && homeFits == old(homeFits)
      ensures ResolvePane(cfg, paneId).Some? ==>
        var p := ResolvePane(cfg, paneId).value;
        shown == Some(p.id) && sidebar.current == Some(p.id)
        && (IsOriginPaneId(p.id, cfg) ==> lastOriginPaneId == p.id && lastPaneId == p.id)
        && (!IsOriginPaneId(p.id, cfg) ==> lastOriginPaneId == old(lastOriginPaneId) && lastPaneId == old(lastPaneId))
        && utils.layers.pointsWhere == PaneFilter(p)
        && utils.layers.linesWhere == HiddenWhere && utils.layers.polygonsWhere == HiddenWhere
        && homeFits == old(homeFits) + (if p.id == "home" then 1 else 0)
        && ((GetDetailPane(cfg).Some? && p.id != GetDetailPane(cfg).value.id
             && HostId(GetDetailPane(cfg).value) == "project-attachments" && utils.hasHost) ==> utils.hostView == Cleared)
      ensures utils.layers.markerLookup == old(utils.layers.markerLookup)
      ensures utils.currentHighlight == old(utils.currentHighlight) && utils.relatedToken == old(utils.relatedToken)
      ensures utils.attachmentsToken == old(utils.attachmentsToken) && utils.hostObjectId == old(utils.hostObjectId)
      ensures backHref == old(backHref) && flownTo == old(flownTo)
    {
      projectRouteToken := projectRouteToken + 1;
      var resolved := ResolvePane(cfg, paneId);
      if resolved.None? {
        return None;
      }
      var p := resolved.value;
      var _ := sidebar.Open(p.id);
      if IsOriginPaneId(p.id, cfg) {
        lastOriginPaneId := p.id;
        lastPaneId := p.id;
      }
      ShowPane(p);
      shown := Some(p.id);
    }

    /**
     * `handleProjectHash()` up to its first `await`: with a detail pane,
     * bump the token; for a `#project-<digits>` hash open the detail pane,
     * aim the back button, start the attachments and isolate the project's
     * point. Returns the captured token and the id for the continuations.
     */
    method HandleProjectHash(hash: string) returns (token: Option<nat>, objectId: nat)
      requires Valid()
      modifies this, sidebar, utils, utils.layers
      ensures Valid()
      ensures GetDetailPane(cfg).None? ==>
        token.None? && projectRouteToken == old(projectRouteToken) && unchanged(this, sidebar, utils, utils.layers)
      ensures GetDetailPane(cfg).Some? ==> projectRouteToken == old(projectRouteToken) + 1
      ensures GetDetailPane(cfg).Some? && !(|hash| > 0 && hash[0] == '#' && IsProjectHash(hash[1..])) ==>
        token.None? && unchanged(sidebar, utils, utils.layers) && backHref == old(backHref)
      ensures GetDetailPane(cfg).Some? && |hash| > 0 && hash[0] == '#' && IsProjectHash(hash[1..]) ==>
        token == Some(projectRouteToken) && objectId == ProjectIdOf(hash[1..])
        && sidebar.current == Some(GetDetailPane(cfg).value.id)
        && (hasBackButton ==> backHref == "#" + lastOriginPaneId)
        && utils.layers.pointsWhere == OnlyProjectWhere(Num(objectId))
        && (HostId(GetDetailPane(cfg).value) == "project-attachments" && utils.hasHost ==>
              utils.hostObjectId == IntToDecimal(objectId) && utils.hostView == Loading)
      ensures lastOriginPaneId == old(lastOriginPaneId) && lastPaneId == old(lastPaneId)
      ensures flownTo == old(flownTo) && homeFits == old(homeFits)
      ensures utils.layers.linesWhere == old(utils.layers.linesWhere) && utils.layers.polygonsWhere == old(utils.layers.polygonsWhere)
      ensures utils.layers.markerLookup == old(utils.layers.markerLookup)
      ensures utils.currentHighlight == old(utils.currentHighlight) && utils.relatedToken == old(utils.relatedToken)
    {
      objectId := 0;
      var detail := GetDetailPane(cfg);
      if detail.None? {
        return None, 0;
      }
      projectRouteToken := projectRouteToken + 1;
      var myToken := projectRouteToken;
      if !(|hash| > 0 && hash[0] == '#' && IsProjectHash(hash[1..])) {
        return None, 0;
      }
      objectId := ProjectIdOf(hash[1..]);
      var _ := sidebar.Open(detail.value.id);
      SetBackButtonTarget();
      var _ := StartDetailAttachments(detail.value, objectId);
      utils.ShowOnlyProject(Num(objectId));
      token := Some(myToken);
    }

    /**
     * After `await fetchProjectById`: a stale token stops everything;
     * otherwise a fetched feature is shown, and the marker wait follows
     * (`featNow` is `None` when the fetch yields null).
     */
    method OnProjectFetched(token: nat, featNow: Option<Feature>) returns (waitForMarker: bool, relatedToken: Option<nat>)
      requires Valid() && GetDetailPane(cfg).Some?
      modifies this, detailBody, utils, utils.highlight, utils.layers
      ensures Valid()
      ensures token != old(projectRouteToken) ==>
        !waitForMarker && relatedToken.None? && unchanged(this, utils, utils.highlight, utils.layers)
        && (detailBody != null ==> unchanged(detailBody))
      ensures token == old(projectRouteToken) && featNow.None? ==>
        waitForMarker && relatedToken.None? && unchanged(this, utils, utils.highlight, utils.layers)
        && (detailBody != null ==> unchanged(detailBody))
      ensures token == old(projectRouteToken) && featNow.Some? ==>
        waitForMarker && utils.currentHighlight == featNow && flownTo == old(flownTo) + [featNow.value]
        && utils.highlight.View() == FeatureHighlight(old(utils.highlight.View()), old(utils.layers.markerLookup), featNow.value)
        && (detailBody != null ==>
              detailBody.View() == DetailFill(detailBody.inTable, old(detailBody.View()), GetDetailPane(cfg).value, featNow.value.properties))
      // the related geometry of a fetched feature with a project name
      ensures token == old(projectRouteToken) && featNow.Some? && Truthy(Get(featNow.value.properties, "project_name")) ==>
        utils.relatedToken == old(utils.relatedToken) + 1 && relatedToken == Some(utils.relatedToken)
        && utils.layers.linesWhere == RelatedWhere(Get(featNow.value.properties, "project_name"))
        && utils.layers.polygonsWhere == RelatedWhere(Get(featNow.value.properties, "project_name"))
      ensures token == old(projectRouteToken) && featNow.Some? && !Truthy(Get(featNow.value.properties, "project_name")) ==>
        relatedToken.None? && utils.relatedToken == old(utils.relatedToken)
        && utils.layers.linesWhere == old(utils.layers.linesWhere) && utils.layers.polygonsWhere == old(utils.layers.polygonsWhere)
      // what showing a feature leaves alone: the single-project points filter among them
      ensures utils.layers.pointsWhere == old(utils.layers.pointsWhere) && utils.layers.markerLookup == old(utils.layers.markerLookup)
      ensures utils.attachmentsToken == old(utils.attachmentsToken) && utils.hostObjectId == old(utils.hostObjectId)
      ensures utils.hostView == old(utils.hostView)
      ensures lastOriginPaneId == old(lastOriginPaneId) && lastPaneId == old(lastPaneId)
      ensures backHref == old(backHref) && homeFits == old(homeFits)
      ensures projectRouteToken == old(projectRouteToken)
    {
      if token != projectRouteToken {
        return false, None;
      }
      relatedToken := None;
      if featNow.Some? {
        relatedToken := ShowFeature(DetailFields(GetDetailPane(cfg).value), featNow.value);
      }
      waitForMarker := true;
    }

    /** After `await waitForMarker`: a stale token or a marker without feature stops; else the marker's feature is shown. */
    method OnMarkerWaitResolved(token: nat, marker: Option<Marker>) returns (relatedToken: Option<nat>)
      requires Valid() && GetDetailPane(cfg).Some?
      modifies this, detailBody, utils, utils.highlight, utils.layers
      ensures Valid()
      ensures token != old(projectRouteToken) || marker.None? || marker.value.feature.None? ==>
        relatedToken.None? && unchanged(this, utils, utils.highlight, utils.layers)
        && (detailBody != null ==> unchanged(detailBody))
      ensures token == old(projectRouteToken) && marker.Some? && marker.value.feature.Some? ==>
        var f := marker.value.feature.value;
        utils.currentHighlight == Some(f) && flownTo == old(flownTo) + [f]
        && utils.highlight.View() == FeatureHighlight(old(utils.highlight.View()), old(utils.layers.markerLookup), f)
        && (detailBody != null ==>
              detailBody.View() == DetailFill(detailBody.inTable, old(detailBody.View()), GetDetailPane(cfg).value, f.properties))
      // the related geometry of the marker's feature with a project name
      ensures token == old(projectRouteToken) && marker.Some? && marker.value.feature.Some?
              && Truthy(Get(marker.value.feature.value.properties, "project_name")) ==>
        utils.relatedToken == old(utils.relatedToken) + 1 && relatedToken == Some(utils.relatedToken)
        && utils.layers.linesWhere == RelatedWhere(Get(marker.value.feature.value.properties, "project_name"))
        && utils.layers.polygonsWhere == RelatedWhere(Get(marker.value.feature.value.properties, "project_name"))
      ensures token == old(projectRouteToken) && marker.Some? && marker.value.feature.Some?
              && !Truthy(Get(marker.value.feature.value.properties, "project_name")) ==>
        relatedToken.None? && utils.relatedToken == old(utils.relatedToken)
        && utils.layers.linesWhere == old(utils.layers.linesWhere) && utils.layers.polygonsWhere == old(utils.layers.polygonsWhere)
      // what showing a feature leaves alone: the single-project points filter among them
      ensures utils.layers.pointsWhere == old(utils.layers.pointsWhere) && utils.layers.markerLookup == old(utils.layers.markerLookup)
      ensures utils.attachmentsToken == old(utils.attachmentsToken) && utils.hostObjectId == old(utils.hostObjectId)
      ensures utils.hostView == old(utils.hostView)
      ensures lastOriginPaneId == old(lastOriginPaneId) && lastPaneId == old(lastPaneId)
      ensures backHref == old(backHref) && homeFits == old(homeFits)
      ensures projectRouteToken == old(projectRouteToken)
    {
      if token != projectRouteToken {
        return None;
      }
      if marker.None? || marker.value.feature.None? {
        return None;
      }
      relatedToken := ShowFeature(DetailFields(GetDetailPane(cfg).value), marker.value.feature.value);
    }

    /**
     * The marker click's manual refresh of the project already shown: open
     * the detail pane, point the back button at the origin and start its
     * attachments.
     */
    method ReopenDetail(detail: PaneConfig, objectId: int)
      requires Valid()
      modifies this, sidebar, utils
      ensures Valid()
      ensures sidebar.current == Some(detail.id)
      ensures hasBackButton ==> backHref == "#" + lastOriginPaneId
      ensures HostId(detail) == "project-attachments" && utils.hasHost ==>
        utils.hostObjectId == IntToDecimal(objectId) && utils.hostView == Loading
      ensures lastOriginPaneId == old(lastOriginPaneId) && lastPaneId == old(lastPaneId)
      ensures projectRouteToken == old(projectRouteToken) && flownTo == old(flownTo) && homeFits == old(homeFits)
    {
      var _ := sidebar.Open(detail.id);
      SetBackButtonTarget();
      var _ := StartDetailAttachments(detail, objectId);
    }

    /**
     * The points layer's `click` handler: ignore a click without a finite
     * id; remember a non-detail pane route as origin; on the project
     * already shown, re-open and re-fetch it; otherwise set the hash.
     */
    method OnMarkerClick(e: LayerEvent, hash: string) returns (newHash: Option<string>, refresh: Option<RefreshRequest>)
      requires Valid()
      modifies this, sidebar, utils
      ensures Valid()
      ensures IsNullish(EventObjectId(e)) || ToNumber(EventObjectId(e)).NaN? ==>
        newHash.None? && refresh.None? && unchanged(this, sidebar, utils)
      ensures !IsNullish(EventObjectId(e)) && ToNumber(EventObjectId(e)).Finite? ==>
        var n := ToNumber(EventObjectId(e)).i;
        var current := HashId(hash);
        (IsOriginPaneId(current, cfg) && current != "" ==> lastOriginPaneId == current && lastPaneId == current)
        && (!(IsOriginPaneId(current, cfg) && current != "") ==> lastOriginPaneId == old(lastOriginPaneId) && lastPaneId == old(lastPaneId))
        && (current != "project-" + IntToDecimal(n) ==>
              newHash == Some("#project-" + IntToDecimal(n)) && refresh.None? && unchanged(sidebar, utils))
        && (current == "project-" + IntToDecimal(n) && GetDetailPane(cfg).None? ==>
              newHash.None? && refresh.None? && unchanged(sidebar, utils))
        && (current == "project-" + IntToDecimal(n) && GetDetailPane(cfg).Some? ==>
              newHash.None? && refresh == Some(RefreshRequest(n, projectRouteToken))
              && sidebar.current == Some(GetDetailPane(cfg).value.id))
      ensures projectRouteToken == old(projectRouteToken) && flownTo == old(flownTo) && homeFits == old(homeFits)
    {
      var idv := EventObjectId(e);
      if IsNullish(idv) {
        return None, None;
      }
      var num := ToNumber(idv);
      if num.NaN? {
        return None, None;
      }
      var current := HashId(hash);
      var next := "project-" + IntToDecimal(num.i);
      if IsPaneHash(current, cfg) {
        var pane := GetPaneById(cfg, current);
        if pane.Some? && pane.value.kind != "detail" {
          lastOriginPaneId := current;
          lastPaneId := current;
        }
      }
      if current == next {
        var detail := GetDetailPane(cfg);
        if detail.None? {
          return None, None;
        }
        ReopenDetail(detail.value, num.i);
        return None, Some(RefreshRequest(num.i, projectRouteToken));
      }
      assert "#" + next == "#project-" + IntToDecimal(num.i);
      return Some("#" + next), None;
    }

    /** The re-fetch's `.then` as written: a fetched feature fills the table, whatever route is current. */
    method OnRefreshFetchedAsWritten(feat: Option<Feature>)
      requires GetDetailPane(cfg).Some?
      modifies detailBody
      ensures feat.Some? && detailBody != null ==>
        detailBody.View() == DetailFill(detailBody.inTable, old(detailBody.View()), GetDetailPane(cfg).value, feat.value.properties)
      ensures feat.None? && detailBody != null ==> detailBody.View() == old(detailBody.View())
    {
      if feat.Some? {
        FillDetailTableFromFeature(GetDetailPane(cfg).value, feat.value);
      }
    }

    /** The re-fetch's `.then` with the token check the other continuations make. */
    method OnRefreshFetched(req: RefreshRequest, feat: Option<Feature>)
      requires GetDetailPane(cfg).Some?
      modifies detailBody
      ensures (req.token != projectRouteToken || feat.None?) && detailBody != null ==> unchanged(detailBody)
      ensures req.token == projectRouteToken && feat.Some? && detailBody != null ==>
        detailBody.View() == DetailFill(detailBody.inTable, old(detailBody.View()), GetDetailPane(cfg).value, feat.value.properties)
    {
      if req.token != projectRouteToken {
        return;
      }
      if feat.Some? {
        FillDetailTableFromFeature(GetDetailPane(cfg).value, feat.value);
      }
    }

    /** The back button's click: reset highlights and go to the origin pane. */
    method OnBackClick() returns (newHash: string)
      requires Valid()
      modifies utils, utils.highlight, utils.layers
      ensures Valid()
      ensures newHash == "#" + lastOriginPaneId
      ensures utils.currentHighlight.None? && utils.relatedToken == old(utils.relatedToken) + 1
      ensures utils.highlight.View() == ClearHighlighted(old(utils.highlight.View()))
      ensures utils.layers.pointsWhere == AllWhere
      ensures utils.layers.linesWhere == HiddenWhere && utils.layers.polygonsWhere == HiddenWhere
    {
      utils.ResetTableHighlights();
      newHash := "#" + lastOriginPaneId;
    }

    /**
     * `route()`: one handler per fragment. An empty fragment opens `home`,
     * a project route runs the project handler, and anything else first
     * shows every point and then runs the pane handler.
     */
    method Route(hash: string) returns (d: Dispatch, token: Option<nat>)
      requires Valid()
      modifies this, sidebar, utils, utils.layers
      ensures Valid()
      ensures d == RouteOf(HashId(hash))
      ensures d.ToPane? ==>
        token.None? && projectRouteToken == old(projectRouteToken) + 1
        && (ResolvePane(cfg, d.paneId).Some? ==>
              (utils.layers.pointsWhere == PaneFilter(ResolvePane(cfg, d.paneId).value)
               && sidebar.current == Some(ResolvePane(cfg, d.paneId).value.id)))
        && (ResolvePane(cfg, d.paneId).None? ==>
              utils.layers.pointsWhere == (if d.resetFilter then AllWhere else old(utils.layers.pointsWhere)))
      ensures d == ToProject ==>
        projectRouteToken == old(projectRouteToken) + (if GetDetailPane(cfg).Some? then 1 else 0)
        && (GetDetailPane(cfg).Some? && hash == "#" + HashId(hash) ==>
              token == Some(projectRouteToken) && sidebar.current == Some(GetDetailPane(cfg).value.id)
              && utils.layers.pointsWhere == OnlyProjectWhere(Num(ProjectIdOf(HashId(hash)))))
      ensures utils.layers.markerLookup == old(utils.layers.markerLookup)
      ensures utils.currentHighlight == old(utils.currentHighlight) && utils.relatedToken == old(utils.relatedToken)
    {
      var h := HashId(hash);
      d := RouteOf(h);
      token := None;
      if h == "" {
        var _ := HandlePaneHash("home");
        return;
      }
      if IsProjectHash(h) {
        assert hash == "#" + h ==> hash[1..] == h;
        var objectId;
        token, objectId := HandleProjectHash(hash);
        return;
      }
      utils.ResetProjectFilter();
      var _ := HandlePaneHash(h);
    }
  }

  /**
   * The re-fetch continuation as written overwrites a newer project: the
   * detail table shows project 7 (the route moved on after project 5 was
   * re-clicked), and project 5's late response replaces it.
   */
  lemma RefreshAsWrittenOverwrites(detail: PaneConfig, rows: seq<Row>)
    requires DetailFields(detail).Some?
    ensures var p5 := map["OBJECTID" := Num(5), "project_name" := Str("Five")];
      DetailFill(true, TableView("7", rows), detail, p5).objectid == "5"
  {
    var p5 := map["OBJECTID" := Num(5), "project_name" := Str("Five")];
    assert Get(p5, "OBJECTID") == Num(5);
    assert IntToDecimal(5) == "5";
  }

  /** A marker click's new hash routes to the project handler exactly for ids >= 0. */
  lemma MarkerClickHashRoutes(n: int)
    ensures RouteOf(HashId("#project-" + IntToDecimal(n))) == ToProject <==> n >= 0
  {
    var h := "project-" + IntToDecimal(n);
    assert "#project-" + IntToDecimal(n) == "#" + h;
    assert ("#" + h)[1..] == h;
    ProjectHashOfId(n);
  }
}
