/**
 * The sidebar control of js/leaflet-sidebar.js: the registry of tabs and
 * panes with their exclusive "active" flag, the current pane id, and the
 * bottom-sheet mode used on narrow screens (snap points, clamping of the
 * sheet offset, snapping and the map button).
 */
module Sidebar {
  import opened Values

  /** A tab item: `_id`, its link's `hash`, the `disabled` class and the `active` class. */
  datatype Tab = Tab(id: string, hash: string, disabled: bool, active: bool)

  /** A pane element: its `id` and the `active` class. */
  datatype Pane = Pane(id: string, active: bool)

  /** The `addPanel` argument: `id`, `skipTab`, `disabled`, and whether it carries a `pane`. */
  datatype PanelData = PanelData(id: string, skipTab: bool, disabled: bool, hasPane: bool)

  /** `_bs.state` */
  datatype SheetState = Peek | Full

  // ---------------------------------------------------------------
  // Registry of tabs and panes
  // ---------------------------------------------------------------

  function TabIds(ts: seq<Tab>): (ids: seq<string>)
    ensures |ids| == |ts| && forall i :: 0 <= i < |ts| ==> ids[i] == ts[i].id
  {
    if ts == [] then [] else [ts[0].id] + TabIds(ts[1..])
  }

  function PaneIds(ps: seq<Pane>): (ids: seq<string>)
    ensures |ids| == |ps| && forall i :: 0 <= i < |ps| ==> ids[i] == ps[i].id
  {
    if ps == [] then [] else [ps[0].id] + PaneIds(ps[1..])
  }

  /** The position of the first `id` in `ids`, or `|ids|` when there is none. */
  function IndexOfId(ids: seq<string>, id: string): (k: nat)
    ensures k <= |ids|
    ensures k < |ids| ==> ids[k] == id
    ensures forall j :: 0 <= j < k ==> ids[j] != id
    ensures k == |ids| <==> id !in ids
  {
    if ids == [] then 0
    else if ids[0] == id then 0
    else 1 + IndexOfId(ids[1..], id)
  }

  /** `splice(k, 1)`, or the sequence itself when `k` is past its end. */
  function RemoveAt<T>(xs: seq<T>, k: nat): seq<T> {
    if k < |xs| then xs[..k] + xs[k + 1..] else xs
  }

  /** The tab `addPanel` appends, unless `skipTab`. */
  function AddTab(ts: seq<Tab>, data: PanelData): seq<Tab> {
    if data.skipTab then ts else ts + [Tab(data.id, "#" + data.id, data.disabled, false)]
  }

  /** The pane `addPanel` appends when the data carries one. */
  function AddPane(ps: seq<Pane>, data: PanelData): seq<Pane> {
    if data.hasPane then ps + [Pane(data.id, false)] else ps
  }

  /** `removePanel(id)` on the tabs: only the first tab with that `_id` goes. */
  function RemoveTab(ts: seq<Tab>, id: string): seq<Tab> {
    RemoveAt(ts, IndexOfId(TabIds(ts), id))
  }

  /** `removePanel(id)` on the panes: only the first pane with that id goes. */
  function RemovePane(ps: seq<Pane>, id: string): seq<Pane> {
    RemoveAt(ps, IndexOfId(PaneIds(ps), id))
  }

  lemma IndexOfIdAppend(ids: seq<string>, id: string)
    requires id !in ids
    ensures IndexOfId(ids + [id], id) == |ids|
  {
    assert (ids + [id])[|ids|] == id;
  }

  /**
   * `removePanel` removes exactly one tab when some tab has the id (the
   * first one, the others keeping their order) and none otherwise; the same
   * holds for panes.
   */
  lemma RemovePanelEffect(ts: seq<Tab>, ps: seq<Pane>, id: string)
    ensures id in TabIds(ts) ==>
      var k := IndexOfId(TabIds(ts), id);
      |RemoveTab(ts, id)| == |ts| - 1 && ts[k].id == id
      && RemoveTab(ts, id)[..k] == ts[..k] && RemoveTab(ts, id)[k..] == ts[k + 1..]
      && forall j :: 0 <= j < k ==> ts[j].id != id
    ensures id !in TabIds(ts) ==> RemoveTab(ts, id) == ts
    ensures id in PaneIds(ps) ==>
      var k := IndexOfId(PaneIds(ps), id);
      |RemovePane(ps, id)| == |ps| - 1 && ps[k].id == id
      && RemovePane(ps, id)[..k] == ps[..k] && RemovePane(ps, id)[k..] == ps[k + 1..]
      && forall j :: 0 <= j < k ==> ps[j].id != id
    ensures id !in PaneIds(ps) ==> RemovePane(ps, id) == ps
  {
  }

  /** Removing a panel whose id was not registered before adding it restores both lists. */
  lemma AddThenRemovePanel(ts: seq<Tab>, ps: seq<Pane>, data: PanelData)
    requires data.id !in TabIds(ts) && data.id !in PaneIds(ps)
    ensures RemoveTab(AddTab(ts, data), data.id) == ts
    ensures RemovePane(AddPane(ps, data), data.id) == ps
  {
    if !data.skipTab {
      var t := Tab(data.id, "#" + data.id, data.disabled, false);
      assert TabIds(ts + [t]) == TabIds(ts) + [data.id];
      IndexOfIdAppend(TabIds(ts), data.id);
      assert (ts + [t])[..|ts|] == ts;
    }
    if data.hasPane {
      var p := Pane(data.id, false);
      assert PaneIds(ps + [p]) == PaneIds(ps) + [data.id];
      IndexOfIdAppend(PaneIds(ps), data.id);
      assert (ps + [p])[..|ps|] == ps;
    }
  }

  /** The id of the first active pane, as `getActivePaneId()` in `onTabClick` finds it. */
  function FirstActivePaneId(ps: seq<Pane>): (r: Option<string>)
    ensures r.None? <==> forall j :: 0 <= j < |ps| ==> !ps[j].active
    ensures r.Some? ==>
      exists j :: 0 <= j < |ps| && ps[j].active && ps[j].id == r.value && forall k :: 0 <= k < j ==> !ps[k].active
  {
    if ps == [] then None
    else if ps[0].active then Some(ps[0].id)
    else
      var r := FirstActivePaneId(ps[1..]);
      assert r.Some? ==> exists j :: 0 <= j < |ps| && ps[j].active && ps[j].id == r.value && forall k :: 0 <= k < j ==> !ps[k].active by {
        if r.Some? {
          var j :| 0 <= j < |ps[1..]| && ps[1..][j].active && ps[1..][j].id == r.value && forall k :: 0 <= k < j ==> !ps[1..][k].active;
          assert forall k :: 0 <= k < j + 1 ==> !ps[k].active by {
            forall k | 0 <= k < j + 1 ensures !ps[k].active {
              if k > 0 { assert ps[k] == ps[1..][k - 1]; }
            }
          }
        }
      }
      assert r.None? ==> forall j :: 0 <= j < |ps| ==> !ps[j].active by {
        if r.None? {
          forall j | 0 <= j < |ps| ensures !ps[j].active {
            if j > 0 { assert ps[j] == ps[1..][j - 1]; }
          }
        }
      }
      r
  }

  /** `open(id)`'s pane loop: each pane is active exactly when its id is `id`. */
  function ActivatePanes(ps: seq<Pane>, id: string): seq<Pane> {
    seq(|ps|, i requires 0 <= i < |ps| => ps[i].(active := ps[i].id == id))
  }

  /** `open(id)`'s tab loop: each tab is active exactly when its link's hash is `#id`. */
  function ActivateTabs(ts: seq<Tab>, id: string): seq<Tab> {
    seq(|ts|, i requires 0 <= i < |ts| => ts[i].(active := ts[i].hash == "#" + id))
  }

  function ActivePaneCount(ps: seq<Pane>): nat {
    if ps == [] then 0 else (if ps[0].active then 1 else 0) + ActivePaneCount(ps[1..])
  }

  function ActiveTabCount(ts: seq<Tab>): nat {
    if ts == [] then 0 else (if ts[0].active then 1 else 0) + ActiveTabCount(ts[1..])
  }

  predicate Distinct(ids: seq<string>) {
    forall i, j :: 0 <= i < j < |ids| ==> ids[i] != ids[j]
  }

  /** The hashes of the tabs' links. */
  function TabHashes(ts: seq<Tab>): (hs: seq<string>)
    ensures |hs| == |ts| && forall i :: 0 <= i < |ts| ==> hs[i] == ts[i].hash
  {
    if ts == [] then [] else [ts[0].hash] + TabHashes(ts[1..])
  }

  /**
   * With distinct pane ids, `open(id)` leaves exactly one active pane when
   * a pane has that id and none otherwise; ids and order are unchanged.
   */
  lemma {:induction false} OpenActivatesOnePane(ps: seq<Pane>, id: string)
    requires Distinct(PaneIds(ps))
    ensures PaneIds(ActivatePanes(ps, id)) == PaneIds(ps)
    ensures ActivePaneCount(ActivatePanes(ps, id)) == (if id in PaneIds(ps) then 1 else 0)
    ensures forall i :: 0 <= i < |ps| ==> (ActivatePanes(ps, id)[i].active <==> ps[i].id == id)
  {
    if ps != [] {
      var rest := ps[1..];
      assert PaneIds(rest) == PaneIds(ps)[1..];
      assert Distinct(PaneIds(rest));
      OpenActivatesOnePane(rest, id);
      assert ActivatePanes(ps, id)[1..] == ActivatePanes(rest, id);
      if ps[0].id == id {
        assert id !in PaneIds(rest);
      } else {
        assert id in PaneIds(ps) <==> id in PaneIds(rest);
      }
    }
  }

  /**
   * With distinct link hashes, `open(id)` leaves exactly one active tab
   * when a tab links to `#id` and none otherwise.
   */
  lemma {:induction false} OpenActivatesOneTab(ts: seq<Tab>, id: string)
    requires Distinct(TabHashes(ts))
    ensures TabIds(ActivateTabs(ts, id)) == TabIds(ts)
    ensures ActiveTabCount(ActivateTabs(ts, id)) == (if "#" + id in TabHashes(ts) then 1 else 0)
  {
    if ts != [] {
      var rest := ts[1..];
      assert TabHashes(rest) == TabHashes(ts)[1..];
      assert Distinct(TabHashes(rest));
      OpenActivatesOneTab(rest, id);
      var after := ActivateTabs(ts, id);
      assert after[1..] == ActivateTabs(rest, id);
      assert ActiveTabCount(after) == (if after[0].active then 1 else 0) + ActiveTabCount(ActivateTabs(rest, id));
      assert TabIds(after) == [after[0].id] + TabIds(after[1..]);
      assert TabHashes(ts) == [ts[0].hash] + TabHashes(rest);
      if ts[0].hash == "#" + id {
        assert "#" + id !in TabHashes(rest);
      } else {
        assert "#" + id in TabHashes(ts) <==> "#" + id in TabHashes(rest);
      }
    }
  }

  /** Tabs added by `addPanel` link to `#` followed by their id. */
  predicate HashesFollowIds(ts: seq<Tab>) {
    forall i :: 0 <= i < |ts| ==> ts[i].hash == "#" + ts[i].id
  }

  /** For tabs added by `addPanel`, the active tab after `open(id)` is the tab with that id. */
  lemma OpenActivatesTabForId(ts: seq<Tab>, id: string)
    requires HashesFollowIds(ts)
    ensures forall i :: 0 <= i < |ts| ==> (ActivateTabs(ts, id)[i].active <==> ts[i].id == id)
  {
    forall i | 0 <= i < |ts|
      ensures ActivateTabs(ts, id)[i].active <==> ts[i].id == id
    {
      if ts[i].hash == "#" + id {
        assert ("#" + ts[i].id)[1..] == ts[i].id;
        assert ("#" + id)[1..] == id;
      }
    }
  }

  // ---------------------------------------------------------------
  // Which pane a tab click opens
  // ---------------------------------------------------------------

  /** `s.replace("#", "")`: drops the first `#`, if any. */
  function DropFirstHash(s: string): (r: string)
    ensures '#' !in s ==> r == s
    ensures |s| > 0 && s[0] == '#' ==> r == s[1..]
  {
    if s == [] then []
    else if s[0] == '#' then s[1..]
    else [s[0]] + DropFirstHash(s[1..])
  }

  /**
   * `desiredPaneFromHashOrLast()`: the pane named by the location hash
   * (`home` or `pane-*`), the project-info pane for a project route, else
   * the current pane or `home`.
   */
  function DesiredPaneFromHashOrLast(hash: string, current: Option<string>): string {
    var h := DropFirstHash(hash);
    if h != "" && (h == "home" || StartsWith(h, "pane-")) then h
    else if h != "" && StartsWith(h, "project-") then "pane-projectInfo"
    else if current.Some? && current.value != "" then current.value
    else "home"
  }

  /**
   * The pane a tab click opens: the pane route `#id` opens `id`, a project
   * route opens the project-info pane, any other hash falls back to the
   * current pane, and the result is never empty.
   */
  lemma DesiredPaneCases(id: string, current: Option<string>)
    ensures id == "home" || StartsWith(id, "pane-") ==> DesiredPaneFromHashOrLast("#" + id, current) == id
    ensures StartsWith(id, "project-") ==> DesiredPaneFromHashOrLast("#" + id, current) == "pane-projectInfo"
    ensures !(id == "home" || StartsWith(id, "pane-") || StartsWith(id, "project-")) ==>
      DesiredPaneFromHashOrLast("#" + id, current) == (if current.Some? && current.value != "" then current.value else "home")
    ensures DesiredPaneFromHashOrLast("#" + id, current) != ""
  {
    assert DropFirstHash("#" + id) == id by {
      assert ("#" + id)[1..] == id;
    }
    if StartsWith(id, "project-") {
      assert id[..8][1] == 'r';
      assert "pane-"[1] == 'a';
    }
  }

  // ---------------------------------------------------------------
  // Bottom sheet
  // ---------------------------------------------------------------

  /** `max(0, vh - max(28, handleH))`, the offset at which only the handle shows. */
  function PeekOffset(vh: int, handleH: int): (peekY: int)
    ensures peekY >= 0
    ensures peekY <= vh - 28 || peekY == 0
    ensures handleH >= 28 && vh >= handleH ==> peekY + handleH == vh
  {
    var peekH := if handleH > 28 then handleH else 28;
    if vh - peekH > 0 then vh - peekH else 0
  }

  /** `Math.max(minY, Math.min(maxY, y))` */
  function Clamp(lo: int, hi: int, y: int): (r: int)
    ensures lo <= hi ==> lo <= r <= hi
    ensures lo <= y <= hi ==> r == y
    ensures lo <= hi && y < lo ==> r == lo
    ensures lo <= hi && y > hi ==> r == hi
  {
    var m := if hi < y then hi else y;
    if lo > m then lo else m
  }

  /** The pointer-up bias: 120 or 60 pixels against a fast or moderate flick. */
  function Bias(v: real): int {
    if v < -0.6 then -120
    else if v < -0.25 then -60
    else if v > 0.6 then 120
    else if v > 0.25 then 60
    else 0
  }

  function Abs(x: int): nat {
    if x < 0 then -x else x
  }

  /** `_bsOnPointerUp`'s choice: the nearer of full and peek to the biased offset; a tie goes to peek. */
  function SnapChoice(y: int, v: real, fullY: int, peekY: int): (s: SheetState)
    ensures s == Full ==> Abs(y + Bias(v) - fullY) < Abs(y + Bias(v) - peekY)
    ensures s == Peek ==> Abs(y + Bias(v) - peekY) <= Abs(y + Bias(v) - fullY)
  {
    if Abs(y + Bias(v) - fullY) < Abs(y + Bias(v) - peekY) then Full else Peek
  }

  /** A faster upward flick never moves the sheet from snapping up towards full. */
  lemma BiasMonotone(v1: real, v2: real)
    requires v1 <= v2
    ensures Bias(v1) <= Bias(v2)
  {
  }

  /**
   * With full above peek, the sheet snaps full exactly when the biased
   * offset is above the midpoint, so a higher release or a faster upward
   * flick never snaps to peek where a lower or slower one snaps full.
   */
  lemma SnapChoiceMidpoint(y1: int, v1: real, y2: int, v2: real, fullY: int, peekY: int)
    requires fullY <= peekY
    ensures SnapChoice(y1, v1, fullY, peekY) == Full <==> fullY < peekY && 2 * (y1 + Bias(v1)) < fullY + peekY
    ensures y1 <= y2 && v1 <= v2 && SnapChoice(y2, v2, fullY, peekY) == Full ==> SnapChoice(y1, v1, fullY, peekY) == Full
  {
    var a := y1 + Bias(v1);
    if a <= fullY {
      assert Abs(a - fullY) == fullY - a && Abs(a - peekY) == peekY - a;
    } else if a >= peekY {
      assert Abs(a - fullY) == a - fullY && Abs(a - peekY) == a - peekY;
    } else {
      assert Abs(a - fullY) == a - fullY && Abs(a - peekY) == peekY - a;
    }
    if y1 <= y2 && v1 <= v2 {
      BiasMonotone(v1, v2);
    }
  }

  /** The control's state: `_tabitems`, `_panes`, `_current`, the `collapsed` class and `_bs`. */
  class SidebarState {
    var tabs: seq<Tab>
    var panes: seq<Pane>
    var current: Option<string>
    var collapsed: bool
    var isBottomsheet: bool
    var sheet: SheetState
    /** `_bs.y`, null until the sheet is first placed */
    var y: Option<int>
    var minY: int
    var maxY: int
    var peekY: int
    var fullY: int
    var dragging: bool
    /** whether the map button is displayed */
    var mapButtonShown: bool

    /**
     * The snap points agree (`fullY = minY = 0`, `peekY = maxY >= 0`), a
     * placed sheet lies between them, and the map button shows exactly in
     * bottom-sheet mode at state "full".
     */
    ghost predicate SnapPointsAgree()
      reads this
    {
      fullY == 0 && minY == fullY && maxY == peekY && peekY >= 0
    }

    ghost predicate Valid()
      reads this
    {
      SnapPointsAgree()
      && (isBottomsheet && y.Some? ==> minY <= y.value <= maxY)
      && (mapButtonShown <==> isBottomsheet && sheet == Full)
    }

    constructor (collapsed: bool)
      ensures Valid()
      ensures tabs == [] && panes == [] && current.None? && this.collapsed == collapsed
      ensures !isBottomsheet && sheet == Peek && y.None? && peekY == 0 && !mapButtonShown
    {
      tabs := [];
      panes := [];
      current := None;
      this.collapsed := collapsed;
      isBottomsheet := false;
      sheet := Peek;
      y := None;
      minY := 0;
      maxY := 0;
      peekY := 0;
      fullY := 0;
      dragging := false;
      mapButtonShown := false;
    }

    /** `_updateMapButtonVisibility()` */
    method UpdateMapButtonVisibility()
      modifies this
      ensures mapButtonShown <==> isBottomsheet && sheet == Full
      ensures tabs == old(tabs) && panes == old(panes) && current == old(current) && collapsed == old(collapsed)
      ensures isBottomsheet == old(isBottomsheet) && sheet == old(sheet) && y == old(y) && dragging == old(dragging)
      ensures minY == old(minY) && maxY == old(maxY) && peekY == old(peekY) && fullY == old(fullY)
    {
      mapButtonShown := isBottomsheet && sheet == Full;
    }

    /** `_bsRecalcSnapPoints()` for the viewport height and the rounded handle height (0 when unmeasured). */
    method RecalcSnapPoints(clientHeight: nat, innerHeight: nat, handleH: int)
      modifies this
      ensures peekY == PeekOffset(if clientHeight > innerHeight then clientHeight else innerHeight, if handleH == 0 then 34 else handleH)
      ensures fullY == 0 && minY == 0 && maxY == peekY
      ensures tabs == old(tabs) && panes == old(panes) && current == old(current) && collapsed == old(collapsed)
      ensures isBottomsheet == old(isBottomsheet) && sheet == old(sheet) && y == old(y)
      ensures dragging == old(dragging) && mapButtonShown == old(mapButtonShown)
    {
      var vh := if clientHeight > innerHeight then clientHeight else innerHeight;
      var h := if handleH == 0 then 34 else handleH;
      peekY := PeekOffset(vh, h);
      fullY := 0;
      minY := fullY;
      maxY := peekY;
    }

    /** `_bsApplyTransform(y)`: stores `y` clamped between the snap points. */
    method ApplyTransform(target: int)
      requires minY <= maxY
      modifies this
      ensures y == Some(Clamp(minY, maxY, target)) && minY <= y.value <= maxY
      ensures tabs == old(tabs) && panes == old(panes) && current == old(current) && collapsed == old(collapsed)
      ensures isBottomsheet == old(isBottomsheet) && sheet == old(sheet) && dragging == old(dragging)
      ensures minY == old(minY) && maxY == old(maxY) && peekY == old(peekY) && fullY == old(fullY)
      ensures mapButtonShown == old(mapButtonShown)
    {
      y := Some(Clamp(minY, maxY, target));
    }

    /** `_bsSnapTo(state)`: outside bottom-sheet mode nothing; else the state and its offset. */
    method SnapTo(s: SheetState)
      requires SnapPointsAgree()
      modifies this
      ensures old(isBottomsheet) ==> Valid()
      ensures !old(isBottomsheet) ==> sheet == old(sheet) && y == old(y) && mapButtonShown == old(mapButtonShown)
      ensures old(isBottomsheet) ==> sheet == s && y == Some(if s == Full then fullY else peekY)
      ensures tabs == old(tabs) && panes == old(panes) && current == old(current) && collapsed == old(collapsed)
      ensures isBottomsheet == old(isBottomsheet) && dragging == old(dragging)
      ensures minY == old(minY) && maxY == old(maxY) && peekY == old(peekY) && fullY == old(fullY)
    {
      if !isBottomsheet {
        return;
      }
      var target := if s == Full then fullY else peekY;
      sheet := s;
      ApplyTransform(target);
      UpdateMapButtonVisibility();
    }

    /** `_enableBottomsheet()`: new snap points, the sheet at peek. */
    method EnableBottomsheet(clientHeight: nat, innerHeight: nat, handleH: int)
      requires Valid()
      modifies this
      ensures Valid()
      ensures isBottomsheet && !collapsed && sheet == Peek && y == Some(peekY) && !mapButtonShown
      ensures peekY == PeekOffset(if clientHeight > innerHeight then clientHeight else innerHeight, if handleH == 0 then 34 else handleH)
      ensures tabs == old(tabs) && panes == old(panes) && current == old(current) && dragging == old(dragging)
    {
      isBottomsheet := true;
      collapsed := false;
      RecalcSnapPoints(clientHeight, innerHeight, handleH);
      sheet := Peek;
      y := Some(peekY);
      ApplyTransform(peekY);
      UpdateMapButtonVisibility();
    }

    /** `_disableBottomsheet()` */
    method DisableBottomsheet()
      requires Valid()
      modifies this
      ensures Valid()
      ensures !isBottomsheet && !mapButtonShown
      ensures tabs == old(tabs) && panes == old(panes) && current == old(current) && collapsed == old(collapsed)
      ensures sheet == old(sheet) && y == old(y) && dragging == old(dragging) && peekY == old(peekY)
    {
      isBottomsheet := false;
      UpdateMapButtonVisibility();
    }

    /** `_onResize()` after `_applyResponsiveMode()`; `narrow` is the media query's answer. */
    method OnResize(narrow: bool, clientHeight: nat, innerHeight: nat, handleH: int)
      requires Valid()
      modifies this
      ensures Valid()
      ensures isBottomsheet == narrow
      ensures narrow ==> peekY == PeekOffset(if clientHeight > innerHeight then clientHeight else innerHeight, if handleH == 0 then 34 else handleH)
      ensures narrow && old(isBottomsheet) ==> sheet == old(sheet) && y == Some(if sheet == Full then fullY else peekY)
      ensures narrow && !old(isBottomsheet) ==> sheet == Peek && y == Some(peekY)
      ensures tabs == old(tabs) && panes == old(panes) && current == old(current)
    {
      if narrow && !isBottomsheet {
        EnableBottomsheet(clientHeight, innerHeight, handleH);
      } else if !narrow && isBottomsheet {
        DisableBottomsheet();
      }
      if isBottomsheet {
        RecalcSnapPoints(clientHeight, innerHeight, handleH);
        SnapTo(sheet);
        UpdateMapButtonVisibility();
      }
    }

    /** `_getTab(id)`: the first tab with that id; `None` where the source throws. */
    method GetTab(id: string) returns (t: Option<Tab>)
      ensures id !in TabIds(tabs) ==> t.None?
      ensures id in TabIds(tabs) ==> t == Some(tabs[IndexOfId(TabIds(tabs), id)])
    {
      var i := 0;
      while i < |tabs|
        invariant 0 <= i <= |tabs|
        invariant forall j :: 0 <= j < i ==> tabs[j].id != id
      {
        if tabs[i].id == id {
          assert IndexOfId(TabIds(tabs), id) == i;
          return Some(tabs[i]);
        }
        i := i + 1;
      }
      assert id !in TabIds(tabs);
      return None;
    }

    /** `open(id)`'s pane loop. */
    method ActivatePaneFlags(id: string)
      modifies this
      ensures panes == ActivatePanes(old(panes), id)
      ensures tabs == old(tabs) && current == old(current) && collapsed == old(collapsed)
      ensures isBottomsheet == old(isBottomsheet) && sheet == old(sheet) && y == old(y) && dragging == old(dragging)
      ensures minY == old(minY) && maxY == old(maxY) && peekY == old(peekY) && fullY == old(fullY)
      ensures mapButtonShown == old(mapButtonShown)
    {
      var i := 0;
      while i < |panes|
        invariant 0 <= i <= |panes| == |old(panes)|
        invariant forall j :: 0 <= j < i ==> panes[j] == old(panes)[j].(active := old(panes)[j].id == id)
        invariant forall j :: i <= j < |panes| ==> panes[j] == old(panes)[j]
        invariant tabs == old(tabs) && current == old(current) && collapsed == old(collapsed)
        invariant isBottomsheet == old(isBottomsheet) && sheet == old(sheet) && y == old(y) && dragging == old(dragging)
        invariant minY == old(minY) && maxY == old(maxY) && peekY == old(peekY) && fullY == old(fullY)
        invariant mapButtonShown == old(mapButtonShown)
      {
        panes := panes[i := panes[i].(active := panes[i].id == id)];
        i := i + 1;
      }
    }

    /** `open(id)`'s tab loop. */
    method ActivateTabFlags(id: string)
      modifies this
      ensures tabs == ActivateTabs(old(tabs), id)
      ensures panes == old(panes) && current == old(current) && collapsed == old(collapsed)
      ensures isBottomsheet == old(isBottomsheet) && sheet == old(sheet) && y == old(y) && dragging == old(dragging)
      ensures minY == old(minY) && maxY == old(maxY) && peekY == old(peekY) && fullY == old(fullY)
      ensures mapButtonShown == old(mapButtonShown)
    {
      var i := 0;
      while i < |tabs|
        invariant 0 <= i <= |tabs| == |old(tabs)|
        invariant forall j :: 0 <= j < i ==> tabs[j] == old(tabs)[j].(active := old(tabs)[j].hash == "#" + id)
        invariant forall j :: i <= j < |tabs| ==> tabs[j] == old(tabs)[j]
        invariant panes == old(panes) && current == old(current) && collapsed == old(collapsed)
        invariant isBottomsheet == old(isBottomsheet) && sheet == old(sheet) && y == old(y) && dragging == old(dragging)
        invariant minY == old(minY) && maxY == old(maxY) && peekY == old(peekY) && fullY == old(fullY)
        invariant mapButtonShown == old(mapButtonShown)
      {
        tabs := tabs[i := tabs[i].(active := tabs[i].hash == "#" + id)];
        i := i + 1;
      }
    }

    /**
     * `open(id)`: records `id` as current; a disabled tab for it stops
     * there; otherwise the pane and tab loops set the active flags, the
     * `content` event fires, and in bottom-sheet mode the sheet goes full
     * (for the project-info pane, or from peek), else the sidebar expands.
     */
    method Open(id: string) returns (contentFired: bool)
      requires Valid()
      modifies this
      ensures Valid()
      ensures current == Some(id)
      ensures var k := IndexOfId(TabIds(old(tabs)), id);
        var disabled := k < |old(tabs)| && old(tabs)[k].disabled;
        (disabled ==>
          !contentFired && tabs == old(tabs) && panes == old(panes)
          && collapsed == old(collapsed) && sheet == old(sheet) && y == old(y))
        && (!disabled ==>
          contentFired
          && panes == ActivatePanes(old(panes), id) && tabs == ActivateTabs(old(tabs), id)
          && (isBottomsheet ==> collapsed == old(collapsed) && sheet == Full)
          && (isBottomsheet ==>
                y == (if id == "pane-projectInfo" || old(sheet) == Peek then Some(fullY) else old(y)))
          && (!isBottomsheet ==> !collapsed && sheet == old(sheet) && y == old(y)))
      ensures isBottomsheet == old(isBottomsheet) && dragging == old(dragging)
      ensures minY == old(minY) && maxY == old(maxY) && peekY == old(peekY) && fullY == old(fullY)
    {
      current := Some(id);
      var tab := GetTab(id);
      if tab.Some? && tab.value.disabled {
        return false;
      }
      ActivatePaneFlags(id);
      ActivateTabFlags(id);
      contentFired := true;
      if isBottomsheet {
        if id == "pane-projectInfo" {
          SnapTo(Full);
        } else if sheet == Peek {
          SnapTo(Full);
        }
        UpdateMapButtonVisibility();
        return;
      }
      if collapsed {
        collapsed := false;
      }
    }

    /** `close()`: the sheet goes to peek in bottom-sheet mode, else the sidebar collapses. */
    method Close()
      requires Valid()
      modifies this
      ensures Valid()
      ensures isBottomsheet ==> sheet == Peek && y == Some(peekY) && collapsed == old(collapsed)
      ensures !isBottomsheet ==> collapsed && sheet == old(sheet) && y == old(y)
      ensures tabs == old(tabs) && panes == old(panes) && current == old(current) && isBottomsheet == old(isBottomsheet)
    {
      if isBottomsheet {
        SnapTo(Peek);
        UpdateMapButtonVisibility();
        return;
      }
      if !collapsed {
        collapsed := true;
      }
    }

    /**
     * `addPanel(data)`: appends the tab (unless `skipTab`) and the pane (when
     * given); in bottom-sheet mode the snap points are recomputed for the
     * current viewport and handle, and the sheet is re-clamped.
     */
    method AddPanel(data: PanelData, clientHeight: nat, innerHeight: nat, handleH: int)
      requires Valid()
      modifies this
      ensures Valid()
      ensures tabs == AddTab(old(tabs), data) && panes == AddPane(old(panes), data)
      ensures isBottomsheet ==>
        peekY == PeekOffset(if clientHeight > innerHeight then clientHeight else innerHeight, if handleH == 0 then 34 else handleH)
        && y == Some(Clamp(minY, maxY, if old(y).None? then peekY else old(y).value))
      ensures !isBottomsheet ==> y == old(y) && peekY == old(peekY)
      ensures current == old(current) && collapsed == old(collapsed) && sheet == old(sheet)
      ensures isBottomsheet == old(isBottomsheet)
    {
      if !data.skipTab {
        tabs := tabs + [Tab(data.id, "#" + data.id, data.disabled, false)];
      }
      if data.hasPane {
        panes := panes + [Pane(data.id, false)];
      }
      if isBottomsheet {
        RecalcSnapPoints(clientHeight, innerHeight, handleH);
        ApplyTransform(if y.None? then peekY else y.value);
        UpdateMapButtonVisibility();
      }
    }

    /** `removePanel(id)`'s tab loop. */
    method RemoveFirstTab(id: string)
      modifies this
      ensures tabs == RemoveTab(old(tabs), id)
      ensures panes == old(panes) && current == old(current) && collapsed == old(collapsed)
      ensures isBottomsheet == old(isBottomsheet) && sheet == old(sheet) && y == old(y) && dragging == old(dragging)
      ensures minY == old(minY) && maxY == old(maxY) && peekY == old(peekY) && fullY == old(fullY)
      ensures mapButtonShown == old(mapButtonShown)
    {
      var i := 0;
      while i < |tabs|
        invariant 0 <= i <= |tabs|
        invariant forall j :: 0 <= j < i ==> tabs[j].id != id
        invariant tabs == old(tabs)
      {
        if tabs[i].id == id {
          assert IndexOfId(TabIds(tabs), id) == i;
          tabs := tabs[..i] + tabs[i + 1..];
          return;
        }
        i := i + 1;
      }
      assert id !in TabIds(tabs);
    }

    /** `removePanel(id)`'s pane loop. */
    method RemoveFirstPane(id: string)
      modifies this
      ensures panes == RemovePane(old(panes), id)
      ensures tabs == old(tabs) && current == old(current) && collapsed == old(collapsed)
      ensures isBottomsheet == old(isBottomsheet) && sheet == old(sheet) && y == old(y) && dragging == old(dragging)
      ensures minY == old(minY) && maxY == old(maxY) && peekY == old(peekY) && fullY == old(fullY)
      ensures mapButtonShown == old(mapButtonShown)
    {
      var i := 0;
      while i < |panes|
        invariant 0 <= i <= |panes|
        invariant forall j :: 0 <= j < i ==> panes[j].id != id
        invariant panes == old(panes)
      {
        if panes[i].id == id {
          assert IndexOfId(PaneIds(panes), id) == i;
          panes := panes[..i] + panes[i + 1..];
          return;
        }
        i := i + 1;
      }
      assert id !in PaneIds(panes);
    }

    /** `removePanel(id)`: the first tab and the first pane with that id are spliced out. */
    method RemovePanel(id: string)
      modifies this
      ensures tabs == RemoveTab(old(tabs), id) && panes == RemovePane(old(panes), id)
      ensures current == old(current) && collapsed == old(collapsed) && isBottomsheet == old(isBottomsheet)
      ensures sheet == old(sheet) && y == old(y) && mapButtonShown == old(mapButtonShown) && dragging == old(dragging)
      ensures minY == old(minY) && maxY == old(maxY) && peekY == old(peekY) && fullY == old(fullY)
    {
      RemoveFirstTab(id);
      RemoveFirstPane(id);
    }

    /** The first active pane's id, as `getActivePaneId()` in `onTabClick`. */
    method ActivePaneId() returns (r: Option<string>)
      ensures r == FirstActivePaneId(panes)
      ensures r.None? ==> forall j :: 0 <= j < |panes| ==> !panes[j].active
      ensures r.Some? ==> exists j :: 0 <= j < |panes| && panes[j].active && panes[j].id == r.value
                                      && forall k :: 0 <= k < j ==> !panes[k].active
    {
      var i := 0;
      while i < |panes|
        invariant 0 <= i <= |panes|
        invariant forall j :: 0 <= j < i ==> !panes[j].active
        invariant FirstActivePaneId(panes) == FirstActivePaneId(panes[i..])
      {
        assert panes[i..][1..] == panes[i + 1..];
        if panes[i].active {
          return Some(panes[i].id);
        }
        i := i + 1;
      }
      return None;
    }

    /**
     * `onTabClick`: ignored in bottom-sheet mode; a collapsed sidebar
     * expands and, when no pane is active, opens the pane the location hash
     * asks for; an expanded one closes.
     */
    method OnTabClick(hash: string) returns (openedPane: Option<string>)
      requires Valid()
      modifies this
      ensures Valid()
      ensures old(isBottomsheet) ==> openedPane.None? && collapsed == old(collapsed) && tabs == old(tabs) && panes == old(panes)
      ensures !old(isBottomsheet) && !old(collapsed) ==> openedPane.None? && collapsed && tabs == old(tabs) && panes == old(panes)
      ensures !old(isBottomsheet) && old(collapsed) ==> !collapsed
      // a collapsed desktop sidebar opens a pane exactly when no active pane has a non-empty id
      ensures !old(isBottomsheet) && old(collapsed) ==>
        (openedPane.Some? <==> FirstActivePaneId(old(panes)).None? || FirstActivePaneId(old(panes)) == Some(""))
      ensures openedPane.None? ==> tabs == old(tabs) && panes == old(panes) && current == old(current)
      ensures openedPane.Some? ==> openedPane.value == DesiredPaneFromHashOrLast(hash, old(current)) && current == openedPane
      // the opened pane goes through `open`: its flags, unless its tab is disabled
      ensures openedPane.Some? ==>
        var id := openedPane.value;
        var k := IndexOfId(TabIds(old(tabs)), id);
        (k < |old(tabs)| && old(tabs)[k].disabled ==> tabs == old(tabs) && panes == old(panes))
        && (!(k < |old(tabs)| && old(tabs)[k].disabled) ==>
              panes == ActivatePanes(old(panes), id) && tabs == ActivateTabs(old(tabs), id))
      ensures isBottomsheet == old(isBottomsheet)
    {
      if isBottomsheet {
        return None;
      }
      if collapsed {
        collapsed := false;
        var active := ActivePaneId();
        if active.Some? && active.value != "" {
          return None;
        }
        var id := DesiredPaneFromHashOrLast(hash, current);
        var _ := Open(id);
        return Some(id);
      }
      Close();
      return None;
    }

    /** `_bsOnPointerUp` with the velocity the moves left in `_bs.vel`. */
    method OnPointerUp(vel: real)
      requires Valid()
      modifies this
      ensures Valid()
      ensures !old(isBottomsheet) ==> sheet == old(sheet) && y == old(y) && dragging == old(dragging)
      ensures old(isBottomsheet) ==>
        !dragging
        && sheet == SnapChoice(if old(y).Some? then old(y).value else peekY, vel, fullY, peekY)
        && y == Some(if sheet == Full then fullY else peekY)
      ensures tabs == old(tabs) && panes == old(panes) && current == old(current) && collapsed == old(collapsed)
      ensures isBottomsheet == old(isBottomsheet) && peekY == old(peekY)
    {
      if !isBottomsheet {
        return;
      }
      dragging := false;
      var at := if y.Some? then y.value else peekY;
      SnapTo(SnapChoice(at, vel, fullY, peekY));
    }
  }
}
