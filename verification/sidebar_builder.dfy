/**
 * js/sidebarBuilder.js: panes from the configuration, list tables filled
 * when their pane opens, click delegation on the list rows, and the fast
 * path that opens a project's detail from the cache before handing off to
 * the router through the hash.
 */
module SidebarBuilder {
  import opened Values
  import opened Format
  import opened Table
  import opened Highlight
  import opened Layers
  import opened Utils
  import opened Router
  import opened Memo
  import Service
  import Sidebar

  // ---------------------------------------------------------------
  // Table content
  // ---------------------------------------------------------------

  /** `showTableMessage(tbody, message)`: one escaped message row. */
  method ShowTableMessage(tbody: TableBody?, message: string)
    modifies tbody
    ensures tbody != null ==> tbody.rows == [Message(EscapeHtml(Str(message)))]
    ensures tbody != null ==> tbody.objectid == old(tbody.objectid) && tbody.wired == old(tbody.wired)
  {
    if tbody == null {
      return;
    }
    tbody.rows := [Message(EscapeHtml(Str(message)))];
  }

  /** One list row: `data-objectid` is `String(OBJECTID ?? '')`, one formatted cell per column. */
  function ListRowFor(f: Feature, columns: seq<FieldSpec>): (r: Row)
    ensures r.ListRow? && |r.cells| == |columns|
    ensures forall i :: 0 <= i < |columns| ==> r.cells[i] == FormatCellValue(Get(f.properties, columns[i].key))
    ensures r.objectid == ToStrOrEmpty(Get(f.properties, "OBJECTID"))
  {
    ListRow(ToStrOrEmpty(Get(f.properties, "OBJECTID")),
      seq(|columns|, i requires 0 <= i < |columns| => FormatCellValue(Get(f.properties, columns[i].key))))
  }

  /** `renderListRows(tbody, features, columns)`: the body is replaced by one row per feature, in order. */
  method RenderListRows(tbody: TableBody?, features: seq<Feature>, columns: seq<FieldSpec>)
    modifies tbody
    ensures tbody != null ==>
      |tbody.rows| == |features| && forall i :: 0 <= i < |features| ==> tbody.rows[i] == ListRowFor(features[i], columns)
    ensures tbody != null ==> tbody.objectid == old(tbody.objectid) && tbody.wired == old(tbody.wired)
  {
    if tbody == null {
      return;
    }
    var frag: seq<Row> := [];
    var i := 0;
    while i < |features|
      invariant 0 <= i <= |features|
      invariant |frag| == i && forall j :: 0 <= j < i ==> frag[j] == ListRowFor(features[j], columns)
    {
      var f := features[i];
      var id := ToStrOrEmpty(Get(f.properties, "OBJECTID"));
      var cells := seq(|columns|, k requires 0 <= k < |columns| => FormatCellValue(Get(f.properties, columns[k].key)));
      frag := frag + [ListRow(id, cells)];
      i := i + 1;
    }
    tbody.rows := frag;
  }

  // ---------------------------------------------------------------
  // Row clicks
  // ---------------------------------------------------------------

  /** What a click inside a list body does. */
  datatype ClickAction = IgnoreClick | OpenDetail(objectId: int) | SetHash(hash: string)

  /** `rowRoute({ OBJECTID: objectId })`, or null when the pane has no `rowRoute`. */
  function RowRouteFor(rowRoute: RowRoute, objectId: int): Option<string> {
    match rowRoute
    case NoRowRoute => None
    case ProjectRowRoute => Some("project-" + IntToDecimal(objectId))
    case FixedRowRoute(r) => Some(r)
  }

  /**
   * The delegated click listener: a click on a link, or outside a row
   * carrying `data-objectid`, or on a row whose id is not a number, does
   * nothing; a `project-` route with a detail pane opens the detail at
   * once; any other non-empty route becomes the hash.
   */
  function ListClickAction(inLink: bool, rowObjectId: Option<string>, rowRoute: RowRoute, hasDetail: bool): (a: ClickAction)
    ensures inLink || rowObjectId.None? || StringToNumber(rowObjectId.value).NaN? ==> a == IgnoreClick
    ensures a.OpenDetail? ==> hasDetail && rowObjectId.Some? && StringToNumber(rowObjectId.value) == Finite(a.objectId)
    ensures a.SetHash? ==> |a.hash| > 1 && a.hash[0] == '#'
    // a row with a finite id: the route decides, and an empty or missing one does nothing
    ensures !inLink && rowObjectId.Some? && StringToNumber(rowObjectId.value).Finite? ==>
      var n := StringToNumber(rowObjectId.value).i;
      var route := RowRouteFor(rowRoute, n);
      (a == IgnoreClick <==> route.None? || route.value == "")
      && (a.OpenDetail? <==> route.Some? && StartsWith(route.value, "project-") && hasDetail)
      && (a.OpenDetail? ==> a.objectId == n)
      && (a.SetHash? <==> route.Some? && route.value != "" && !(StartsWith(route.value, "project-") && hasDetail))
      && (a.SetHash? ==> a.hash == "#" + route.value)
  {
    if inLink || rowObjectId.None? then IgnoreClick
    else
      var n := StringToNumber(rowObjectId.value);
      if n.NaN? then IgnoreClick
      else
        var route := RowRouteFor(rowRoute, n.i);
        if route.Some? && route.value != "" && StartsWith(route.value, "project-") && hasDetail then OpenDetail(n.i)
        else if route.Some? && route.value != "" then SetHash("#" + route.value)
        else IgnoreClick
  }

  /**
   * A click on a rendered row of a pane routing to `project-${OBJECTID}`
   * opens that feature's detail, and the hash the fast path then sets is
   * handled by the project handler exactly when the id is not negative.
   */
  lemma RowClickOpensItsProject(f: Feature, columns: seq<FieldSpec>, n: int)
    requires Get(f.properties, "OBJECTID") == Num(n)
    ensures ListClickAction(false, Some(ListRowFor(f, columns).objectid), ProjectRowRoute, true) == OpenDetail(n)
    ensures RouteOf(HashId("#project-" + IntToDecimal(n))) == ToProject <==> n >= 0
  {
    NumberOfToStr(n);
    NumberOfString(n);
    assert StartsWith("project-" + IntToDecimal(n), "project-") by {
      assert ("project-" + IntToDecimal(n))[..8] == "project-";
    }
    MarkerClickHashRoutes(n);
  }

  /** Without a detail pane, a project row route becomes the hash instead. */
  lemma RowClickWithoutDetailSetsHash(f: Feature, columns: seq<FieldSpec>, n: int)
    requires Get(f.properties, "OBJECTID") == Num(n)
    ensures ListClickAction(false, Some(ListRowFor(f, columns).objectid), ProjectRowRoute, false)
      == SetHash("#project-" + IntToDecimal(n))
  {
    NumberOfToStr(n);
    NumberOfString(n);
  }

  /**
   * A pane with a fixed route sets that route as the hash for any row
   * with a numeric id, unless it is a `project-` route and a detail pane
   * exists, in which case the detail opens for the row's id.
   */
  lemma RowClickFixedRoute(f: Feature, columns: seq<FieldSpec>, n: int, r: string, hasDetail: bool)
    requires Get(f.properties, "OBJECTID") == Num(n) && r != ""
    ensures !(StartsWith(r, "project-") && hasDetail) ==>
      ListClickAction(false, Some(ListRowFor(f, columns).objectid), FixedRowRoute(r), hasDetail) == SetHash("#" + r)
    ensures StartsWith(r, "project-") && hasDetail ==>
      ListClickAction(false, Some(ListRowFor(f, columns).objectid), FixedRowRoute(r), hasDetail) == OpenDetail(n)
  {
    NumberOfToStr(n);
    NumberOfString(n);
  }

  /** `wireListClickDelegation(...)`: the listener is installed at most once per body. */
  method WireListClickDelegation(tbody: TableBody?) returns (installed: bool)
    modifies tbody
    ensures installed <==> tbody != null && !old(tbody.wired)
    ensures tbody != null ==> tbody.wired && tbody.View() == old(tbody.View())
  {
    if tbody == null || tbody.wired {
      return false;
    }
    tbody.wired := true;
    installed := true;
  }

  /** A pane whose list rows get click delegation: a list pane with a `tableId`. */
  predicate WantsWiring(p: PaneConfig) {
    p.kind == "list" && p.list.Some? && p.list.value.tableId != ""
  }

  /**
   * The loop after `loadProjectsOnce()` resolves: every list pane with a
   * table has its body wired; `bodies[i]` is pane i's body, when present.
   */
  method WireListPanes(cfg: seq<PaneConfig>, bodies: seq<TableBody?>)
    requires |bodies| == |cfg|
    modifies set i | 0 <= i < |bodies| && bodies[i] != null :: bodies[i]
    ensures forall i :: 0 <= i < |cfg| && WantsWiring(cfg[i]) && bodies[i] != null ==> bodies[i].wired
    ensures forall i :: 0 <= i < |cfg| && bodies[i] != null ==>
      bodies[i].View() == old(bodies[i].View()) && (old(bodies[i].wired) ==> bodies[i].wired)
  {
    var i := 0;
    while i < |cfg|
      invariant 0 <= i <= |cfg|
      invariant forall j :: 0 <= j < i && WantsWiring(cfg[j]) && bodies[j] != null ==> bodies[j].wired
      invariant forall j :: 0 <= j < |cfg| && bodies[j] != null ==>
        bodies[j].View() == old(bodies[j].View()) && (old(bodies[j].wired) ==> bodies[j].wired)
    {
      if WantsWiring(cfg[i]) {
        var _ := WireListClickDelegation(bodies[i]);
      }
      i := i + 1;
    }
  }

  // ---------------------------------------------------------------
  // Opening a detail from a list
  // ---------------------------------------------------------------

  /** `detailPaneConfig?.detail?.fields ?? PROJECT_INFO_FIELDS` */
  function InstantFields(detail: PaneConfig): (fields: seq<FieldSpec>)
    ensures detail.detail.Some? && detail.detail.value.fields.Some? ==> fields == detail.detail.value.fields.value
    ensures !(detail.detail.Some? && detail.detail.value.fields.Some?) ==> fields == ProjectInfoFields
  {
    if detail.detail.Some? && detail.detail.value.fields.Some? then detail.detail.value.fields.value
    else ProjectInfoFields
  }

  /** The detail table is looked up only when the detail pane names one. */
  predicate HasDetailTable(detail: PaneConfig) {
    detail.detail.Some? && detail.detail.value.tableId != ""
  }

  /**
   * The first half of `openDetailInstant`: remember the list pane as
   * origin, reset the highlights, open the detail pane and start the
   * attachments when the pane has an attachments host.
   */
  method PrepareDetail(router: RouterState, originPaneId: Value, objectId: int, detail: PaneConfig)
    returns (attachmentsToken: Option<nat>)
    requires router.Valid()
    modifies router, router.sidebar, router.utils, router.utils.highlight, router.utils.layers
    ensures router.Valid()
    ensures originPaneId.Str? && originPaneId.s != "" ==> router.lastOriginPaneId == originPaneId.s
    ensures !(originPaneId.Str? && originPaneId.s != "") ==> router.lastOriginPaneId == old(router.lastOriginPaneId)
    ensures router.sidebar.current == Some(detail.id)
    ensures router.utils.currentHighlight.None? && router.utils.relatedToken == old(router.utils.relatedToken) + 1
    ensures router.utils.highlight.View() == ClearHighlighted(old(router.utils.highlight.View()))
    ensures router.utils.layers.pointsWhere == AllWhere
    ensures router.utils.layers.linesWhere == HiddenWhere && router.utils.layers.polygonsWhere == HiddenWhere
    ensures router.utils.layers.markerLookup == old(router.utils.layers.markerLookup)
    ensures HostId(detail) != "" && router.utils.hasHost ==>
      attachmentsToken == Some(router.utils.attachmentsToken) && router.utils.hostObjectId == IntToDecimal(objectId)
      && router.utils.hostView == Loading
    ensures !(HostId(detail) != "" && router.utils.hasHost) ==>
      attachmentsToken.None? && router.utils.hostView == old(router.utils.hostView)
    ensures originPaneId.Str? && originPaneId.s != "" ==> router.lastPaneId == originPaneId.s
    ensures !(originPaneId.Str? && originPaneId.s != "") ==> router.lastPaneId == old(router.lastPaneId)
    ensures HostId(detail) != "" && router.utils.hasHost ==>
      router.utils.attachmentsToken == old(router.utils.attachmentsToken) + 1
    ensures !(HostId(detail) != "" && router.utils.hasHost) ==>
      router.utils.attachmentsToken == old(router.utils.attachmentsToken)
      && router.utils.hostObjectId == old(router.utils.hostObjectId)
    ensures router.projectRouteToken == old(router.projectRouteToken) && router.flownTo == old(router.flownTo)
    ensures router.backHref == old(router.backHref) && router.homeFits == old(router.homeFits)
  {
    router.SetLastOriginPane(originPaneId);
    router.utils.ResetTableHighlights();
    var _ := router.sidebar.Open(detail.id);
    attachmentsToken := None;
    if HostId(detail) != "" {
      attachmentsToken := router.utils.RenderProjectAttachments(Num(objectId));
    }
  }

  /**
   * `openDetailInstant(...)`: after `PrepareDetail`, a cached feature is
   * shown at once (table, highlight, fly-to, related geometry), a missing
   * one leaves "Loading…" in the table, and the hash hands over to the
   * router.
   */
  method OpenDetailInstant(router: RouterState, service: Service.ProjectsService, originPaneId: Value, objectId: int, detail: PaneConfig)
    returns (newHash: string, attachmentsToken: Option<nat>, relatedToken: Option<nat>)
    requires router.Valid()
    modifies router, router.sidebar, router.utils, router.utils.highlight, router.utils.layers, router.detailBody
    ensures router.Valid()
    ensures newHash == "#project-" + IntToDecimal(objectId)
    // the origin, as `setLastOriginPane` records it
    ensures originPaneId.Str? && originPaneId.s != "" ==>
      router.lastOriginPaneId == originPaneId.s && router.lastPaneId == originPaneId.s
    ensures !(originPaneId.Str? && originPaneId.s != "") ==>
      router.lastOriginPaneId == old(router.lastOriginPaneId) && router.lastPaneId == old(router.lastPaneId)
    ensures router.sidebar.current == Some(detail.id)
    // the attachments, started only when the pane names a host that exists
    ensures HostId(detail) != "" && router.utils.hasHost ==>
      attachmentsToken == Some(router.utils.attachmentsToken)
      && router.utils.attachmentsToken == old(router.utils.attachmentsToken) + 1
      && router.utils.hostObjectId == IntToDecimal(objectId) && router.utils.hostView == Loading
    ensures !(HostId(detail) != "" && router.utils.hasHost) ==>
      attachmentsToken.None? && router.utils.attachmentsToken == old(router.utils.attachmentsToken)
      && router.utils.hostObjectId == old(router.utils.hostObjectId) && router.utils.hostView == old(router.utils.hostView)
    // the table, the highlight and the fly-to: the cached feature, or "Loading…"
    ensures var cached := service.GetCachedById(Num(objectId));
      var shown := HasDetailTable(detail) && router.detailBody != null && cached.Some?;
      (shown ==>
        router.detailBody.View() == FillView(router.detailBody.inTable, old(router.detailBody.View()), cached.value.properties, InstantFields(detail))
        && router.utils.currentHighlight == cached && router.flownTo == old(router.flownTo) + [cached.value]
        && router.utils.highlight.View() == FeatureHighlight(ClearHighlighted(old(router.utils.highlight.View())), old(router.utils.layers.markerLookup), cached.value))
      && (!shown ==>
            (router.utils.currentHighlight.None? && router.flownTo == old(router.flownTo)
             && router.utils.highlight.View() == ClearHighlighted(old(router.utils.highlight.View()))))
      && (HasDetailTable(detail) && router.detailBody != null && cached.None? ==>
        router.detailBody.rows == [Message(EscapeHtml(Str("Loading…")))]
        && router.detailBody.objectid == old(router.detailBody.objectid))
      && (!(HasDetailTable(detail) && router.detailBody != null) && router.detailBody != null ==>
        router.detailBody.View() == old(router.detailBody.View()))
    // the filters and the related geometry: reset, then the cached project's related features
    ensures router.utils.layers.pointsWhere == AllWhere
    ensures router.utils.layers.markerLookup == old(router.utils.layers.markerLookup)
    ensures var cached := service.GetCachedById(Num(objectId));
      var related := HasDetailTable(detail) && router.detailBody != null && cached.Some?
                     && Truthy(Get(cached.value.properties, "project_name"));
      (related ==>
        relatedToken == Some(router.utils.relatedToken)
        && router.utils.relatedToken == old(router.utils.relatedToken) + 2
        && router.utils.layers.linesWhere == RelatedWhere(Get(cached.value.properties, "project_name"))
        && router.utils.layers.polygonsWhere == RelatedWhere(Get(cached.value.properties, "project_name")))
      && (!related ==>
        relatedToken.None? && router.utils.relatedToken == old(router.utils.relatedToken) + 1
        && router.utils.layers.linesWhere == HiddenWhere && router.utils.layers.polygonsWhere == HiddenWhere)
    ensures router.projectRouteToken == old(router.projectRouteToken)
    ensures router.backHref == old(router.backHref) && router.homeFits == old(router.homeFits)
  {
    attachmentsToken := PrepareDetail(router, originPaneId, objectId, detail);
    var fields := InstantFields(detail);
    var tbody := if HasDetailTable(detail) then router.detailBody else null;
    var feature := service.GetCachedById(Num(objectId));
    relatedToken := None;
    if feature.Some? && tbody != null {
      relatedToken := router.ShowFeature(Some(fields), feature.value);
    } else if tbody != null {
      ShowTableMessage(tbody, "Loading…");
    }
    newHash := "#project-" + IntToDecimal(objectId);
  }

  /**
   * The list body's click listener: the action for the clicked row, and
   * the fast path when it opens a detail. Returns the new hash, if any.
   */
  method OnListClick(router: RouterState, service: Service.ProjectsService, pane: PaneConfig,
                     inLink: bool, rowObjectId: Option<string>)
    returns (newHash: Option<string>)
    requires router.Valid() && pane.list.Some?
    modifies router, router.sidebar, router.utils, router.utils.highlight, router.utils.layers, router.detailBody
    ensures router.Valid()
    ensures var a := ListClickAction(inLink, rowObjectId, pane.list.value.rowRoute, GetDetailPane(router.cfg).Some?);
      (a == IgnoreClick ==> newHash.None?)
      && (a.SetHash? ==> newHash == Some(a.hash))
      && (a.OpenDetail? ==>
            (newHash == Some("#project-" + IntToDecimal(a.objectId))
             && router.sidebar.current == Some(GetDetailPane(router.cfg).value.id)
             && (pane.id != "" ==> router.lastOriginPaneId == pane.id)))
    ensures router.projectRouteToken == old(router.projectRouteToken)
  {
    var detail := GetDetailPane(router.cfg);
    var a := ListClickAction(inLink, rowObjectId, pane.list.value.rowRoute, detail.Some?);
    match a
    case IgnoreClick =>
      newHash := None;
    case SetHash(h) =>
      newHash := Some(h);
    case OpenDetail(n) =>
      var h, _, _ := OpenDetailInstant(router, service, Str(pane.id), n, detail.value);
      newHash := Some(h);
  }

  // ---------------------------------------------------------------
  // Building the sidebar and filling list panes
  // ---------------------------------------------------------------

  /**
   * The body a pane gets in `buildSidebar`: the configured content for
   * "home"; for every other kind a back button, then a list table (its id
   * and one escaped header per column) for "list", and an optional
   * attachments host and a detail table for "detail". Ids are escaped.
   */
  datatype PaneBody =
    | ContentBody
    | BackBody(listTable: Option<(string, seq<string>)>, attachmentsHost: Option<string>, detailTable: Option<string>)

  /** One list header: `escapeHtml(c.label ?? c.key)`. */
  function HeaderFor(c: FieldSpec): string {
    EscapeHtml(Coalesce(c.caption, Str(c.key)))
  }

  /**
   * `None` where `buildSidebar` throws: a list pane without `list` or
   * without `columns` (`buildListTableHTML` destructures and maps them),
   * or a detail pane without `detail`.
   */
  function PaneBodyFor(p: PaneConfig): (r: Option<PaneBody>)
    ensures p.kind == "home" ==> r == Some(ContentBody)
    ensures p.kind != "home" && r.Some? ==> r.value.BackBody?
    ensures r.None? <==> (p.kind == "list" && (p.list.None? || p.list.value.columns.None?))
                         || (p.kind == "detail" && p.detail.None?)
    ensures r.Some? && r.value.BackBody? ==>
      (r.value.listTable.Some? <==> p.kind == "list")
      && (r.value.detailTable.Some? <==> p.kind == "detail")
      && (r.value.attachmentsHost.Some? ==> p.kind == "detail" && HostId(p) != "")
    ensures r.Some? && p.kind == "list" ==>
      var cols := p.list.value.columns.value;
      var hs := r.value.listTable.value.1;
      r.value.listTable.value.0 == EscapeHtml(Str(p.list.value.tableId))
      && |hs| == |cols| && forall i :: 0 <= i < |cols| ==> hs[i] == HeaderFor(cols[i])
    ensures r.Some? && p.kind == "detail" ==>
      r.value.detailTable == Some(EscapeHtml(Str(p.detail.value.tableId)))
      && (r.value.attachmentsHost.Some? <==> HostId(p) != "")
  {
    if p.kind == "home" then Some(ContentBody)
    else if p.kind == "list" then
      if p.list.None? || p.list.value.columns.None? then None
      else
        var cols := p.list.value.columns.value;
        Some(BackBody(Some((EscapeHtml(Str(p.list.value.tableId)), seq(|cols|, i requires 0 <= i < |cols| => HeaderFor(cols[i])))), None, None))
    else if p.kind == "detail" then
      if p.detail.None? then None
      else
        var host := HostId(p);
        Some(BackBody(None, if host != "" then Some(EscapeHtml(Str(host))) else None,
                      Some(EscapeHtml(Str(p.detail.value.tableId)))))
    else Some(BackBody(None, None, None))
  }

  /** A list pane as the shipped configuration writes it gets its table and one "Project Name" header. */
  lemma ListPaneBody(id: string, where: string, tableId: string, projectType: Value)
    ensures PaneBodyFor(ListPane(id, where, tableId, projectType))
      == Some(BackBody(Some((EscapeHtml(Str(tableId)), [EscapeHtml(Str("Project Name"))])), None, None))
  {
    var p := ListPane(id, where, tableId, projectType);
    assert p.kind != "home" by { assert p.kind[0] != "home"[0]; }
    var r := PaneBodyFor(p);
    var hs := r.value.listTable.value.1;
    assert |hs| == 1 && hs[0] == HeaderFor(NameColumn[0]);
    assert hs == [EscapeHtml(Str("Project Name"))];
  }

  /** The `addPanel` call for a configured pane: it always carries a pane element. */
  function PanelFor(p: PaneConfig): Sidebar.PanelData {
    Sidebar.PanelData(p.id, p.skipTab, false, true)
  }

  /** The tabs after adding every configured pane in order. */
  function TabsAfter(ts: seq<Sidebar.Tab>, cfg: seq<PaneConfig>): seq<Sidebar.Tab>
    decreases |cfg|
  {
    if cfg == [] then ts else TabsAfter(Sidebar.AddTab(ts, PanelFor(cfg[0])), cfg[1..])
  }

  /** The panes after adding every configured pane in order. */
  function PanesAfter(ps: seq<Sidebar.Pane>, cfg: seq<PaneConfig>): seq<Sidebar.Pane>
    decreases |cfg|
  {
    if cfg == [] then ps else PanesAfter(Sidebar.AddPane(ps, PanelFor(cfg[0])), cfg[1..])
  }

  /** The ids of the panes that get a tab. */
  function TabbedIds(cfg: seq<PaneConfig>): seq<string>
    decreases |cfg|
  {
    if cfg == [] then [] else (if cfg[0].skipTab then [] else [cfg[0].id]) + TabbedIds(cfg[1..])
  }

  /**
   * Building appends one inactive pane per configured pane, in order, and
   * one inactive tab with hash `#<id>` per pane not marked `skipTab`.
   */
  lemma {:induction false} BuiltPanels(ts: seq<Sidebar.Tab>, ps: seq<Sidebar.Pane>, cfg: seq<PaneConfig>)
    ensures Sidebar.PaneIds(PanesAfter(ps, cfg)) == Sidebar.PaneIds(ps) + ConfigIds(cfg)
    ensures Sidebar.TabIds(TabsAfter(ts, cfg)) == Sidebar.TabIds(ts) + TabbedIds(cfg)
    ensures Sidebar.ActivePaneCount(PanesAfter(ps, cfg)) == Sidebar.ActivePaneCount(ps)
    ensures Sidebar.HashesFollowIds(ts) ==> Sidebar.HashesFollowIds(TabsAfter(ts, cfg))
    decreases |cfg|
  {
    if cfg != [] {
      var d := PanelFor(cfg[0]);
      var ts1 := Sidebar.AddTab(ts, d);
      var ps1 := Sidebar.AddPane(ps, d);
      BuiltPanels(ts1, ps1, cfg[1..]);
      AddPanelStep(ts, ps, d);
      assert ConfigIds(cfg) == [cfg[0].id] + ConfigIds(cfg[1..]);
    }
  }

  lemma AddPanelStep(ts: seq<Sidebar.Tab>, ps: seq<Sidebar.Pane>, d: Sidebar.PanelData)
    requires d.hasPane
    ensures Sidebar.PaneIds(Sidebar.AddPane(ps, d)) == Sidebar.PaneIds(ps) + [d.id]
    ensures Sidebar.TabIds(Sidebar.AddTab(ts, d)) == Sidebar.TabIds(ts) + (if d.skipTab then [] else [d.id])
    ensures Sidebar.ActivePaneCount(Sidebar.AddPane(ps, d)) == Sidebar.ActivePaneCount(ps)
    ensures Sidebar.HashesFollowIds(ts) ==> Sidebar.HashesFollowIds(Sidebar.AddTab(ts, d))
  {
    if d.hasPane {
      ActiveCountAppend(ps, Sidebar.Pane(d.id, false));
    }
  }

  lemma {:induction false} ActiveCountAppend(ps: seq<Sidebar.Pane>, p: Sidebar.Pane)
    ensures Sidebar.ActivePaneCount(ps + [p]) == Sidebar.ActivePaneCount(ps) + (if p.active then 1 else 0)
    decreases |ps|
  {
    if ps != [] {
      assert (ps + [p])[1..] == ps[1..] + [p];
      ActiveCountAppend(ps[1..], p);
    }
  }

  /** Adding one more configured pane extends the tabs by its tab. */
  lemma {:induction false} TabsAfterSnoc(ts: seq<Sidebar.Tab>, cfg: seq<PaneConfig>, p: PaneConfig)
    ensures TabsAfter(ts, cfg + [p]) == Sidebar.AddTab(TabsAfter(ts, cfg), PanelFor(p))
    decreases |cfg|
  {
    if cfg == [] {
      assert [] + [p] == [p];
      assert TabsAfter(Sidebar.AddTab(ts, PanelFor(p)), []) == Sidebar.AddTab(ts, PanelFor(p));
    } else {
      assert (cfg + [p])[1..] == cfg[1..] + [p];
      TabsAfterSnoc(Sidebar.AddTab(ts, PanelFor(cfg[0])), cfg[1..], p);
    }
  }

  /** Adding one more configured pane extends the panes by its pane. */
  lemma {:induction false} PanesAfterSnoc(ps: seq<Sidebar.Pane>, cfg: seq<PaneConfig>, p: PaneConfig)
    ensures PanesAfter(ps, cfg + [p]) == Sidebar.AddPane(PanesAfter(ps, cfg), PanelFor(p))
    decreases |cfg|
  {
    if cfg == [] {
      assert [] + [p] == [p];
      assert PanesAfter(Sidebar.AddPane(ps, PanelFor(p)), []) == Sidebar.AddPane(ps, PanelFor(p));
    } else {
      assert (cfg + [p])[1..] == cfg[1..] + [p];
      PanesAfterSnoc(Sidebar.AddPane(ps, PanelFor(cfg[0])), cfg[1..], p);
    }
  }

  /**
   * The pane loop of `buildSidebar`: each pane's body is built before its
   * `addPanel`, every call measuring the same viewport and handle. A body
   * that cannot be built throws out of `buildSidebar`, so the panes before
   * it are the only ones added; `added` is how many were.
   */
  method AddConfiguredPanels(sidebar: Sidebar.SidebarState, cfg: seq<PaneConfig>,
                             clientHeight: nat, innerHeight: nat, handleH: int)
    returns (added: nat)
    requires sidebar.Valid()
    modifies sidebar
    ensures sidebar.Valid()
    ensures added <= |cfg|
    ensures forall j :: 0 <= j < added ==> PaneBodyFor(cfg[j]).Some?
    ensures added < |cfg| ==> PaneBodyFor(cfg[added]).None?
    ensures sidebar.tabs == TabsAfter(old(sidebar.tabs), cfg[..added])
    ensures sidebar.panes == PanesAfter(old(sidebar.panes), cfg[..added])
    ensures sidebar.current == old(sidebar.current) && sidebar.isBottomsheet == old(sidebar.isBottomsheet)
    ensures sidebar.isBottomsheet && added > 0 ==>
      sidebar.peekY == Sidebar.PeekOffset(if clientHeight > innerHeight then clientHeight else innerHeight,
                                          if handleH == 0 then 34 else handleH)
  {
    var i := 0;
    while i < |cfg|
      invariant 0 <= i <= |cfg|
      invariant sidebar.Valid()
      invariant forall j :: 0 <= j < i ==> PaneBodyFor(cfg[j]).Some?
      invariant sidebar.tabs == TabsAfter(old(sidebar.tabs), cfg[..i])
      invariant sidebar.panes == PanesAfter(old(sidebar.panes), cfg[..i])
      invariant sidebar.current == old(sidebar.current) && sidebar.isBottomsheet == old(sidebar.isBottomsheet)
      invariant sidebar.isBottomsheet && i > 0 ==>
        sidebar.peekY == Sidebar.PeekOffset(if clientHeight > innerHeight then clientHeight else innerHeight,
                                            if handleH == 0 then 34 else handleH)
    {
      var body := PaneBodyFor(cfg[i]);
      if body.None? {
        return i;
      }
      assert cfg[..i + 1] == cfg[..i] + [cfg[i]];
      TabsAfterSnoc(old(sidebar.tabs), cfg[..i], cfg[i]);
      PanesAfterSnoc(old(sidebar.panes), cfg[..i], cfg[i]);
      sidebar.AddPanel(PanelFor(cfg[i]), clientHeight, innerHeight, handleH);
      i := i + 1;
    }
    assert cfg[..i] == cfg;
    return i;
  }

  /**
   * The `content` listener of `buildSidebar` up to its `await`: only a
   * configured list pane with a table body is filled; it shows
   * "Loading…" and asks for the project cache.
   */
  method OnPaneContent(cfg: seq<PaneConfig>, paneId: string, tbody: TableBody?, service: Service.ProjectsService)
    returns (loading: Option<PaneConfig>)
    requires MemoValid(service.cachePromise.View())
    modifies tbody, service.cachePromise
    ensures MemoValid(service.cachePromise.View())
    ensures var p := GetPaneById(cfg, paneId);
      (loading.Some? <==> paneId != "" && p.Some? && p.value.kind == "list" && p.value.list.Some?
                           && p.value.list.value.tableId != "" && tbody != null)
      && (loading.Some? ==> loading == p && tbody.rows == [Message(EscapeHtml(Str("Loading…")))])
    ensures loading.Some? ==> service.cachePromise.View() == LoadView(old(service.cachePromise.View())).0
    ensures loading.None? ==> service.cachePromise.View() == old(service.cachePromise.View())
    ensures loading.None? && tbody != null ==> tbody.View() == old(tbody.View())
    ensures tbody != null ==> tbody.wired == old(tbody.wired)
  {
    if paneId == "" {
      return None;
    }
    var pane := GetPaneById(cfg, paneId);
    if pane.None? || pane.value.kind != "list" {
      return None;
    }
    if pane.value.list.None? || pane.value.list.value.tableId == "" || tbody == null {
      return None;
    }
    ShowTableMessage(tbody, "Loading…");
    var _, _ := service.LoadProjectsOnce();
    loading := pane;
  }

  /** `pane?.list?.columns ?? [{ key: 'project_name', label: 'Project Name' }]` */
  function ListColumns(l: ListConfig): seq<FieldSpec> {
    if l.columns.Some? then l.columns.value else NameColumn
  }

  /** The cache resolved: the body lists the pane's features, one row per feature. */
  method PaneContentLoaded(pane: PaneConfig, tbody: TableBody, service: Service.ProjectsService)
    requires pane.list.Some?
    modifies tbody
    ensures var features := service.GetFeaturesForPane(pane.list.value.projectType);
      |tbody.rows| == |features|
      && forall i :: 0 <= i < |features| ==> tbody.rows[i] == ListRowFor(features[i], ListColumns(pane.list.value))
    ensures tbody.objectid == old(tbody.objectid) && tbody.wired == old(tbody.wired)
  {
    RenderListRows(tbody, service.GetFeaturesForPane(pane.list.value.projectType), ListColumns(pane.list.value));
  }

  /** The cache failed: the body says so. */
  method PaneContentFailed(tbody: TableBody)
    modifies tbody
    ensures tbody.rows == [Message(EscapeHtml(Str("Failed to load projects")))]
    ensures tbody.objectid == old(tbody.objectid) && tbody.wired == old(tbody.wired)
  {
    ShowTableMessage(tbody, "Failed to load projects");
  }
}
