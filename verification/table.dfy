/**
 * The detail table of js/ui/table.js (`renderDetailTable`), whose loop
 * js/router.js repeats in `fillDetailTableFromFeature`: one row per
 * configured field that has a value, in field order, and a placeholder
 * row when none has.
 */
module Table {
  import opened Values
  import opened Format

  /** A configured field: `{ key, label }` (the label is called `caption` here). */
  datatype FieldSpec = FieldSpec(key: string, caption: Value)

  /** A table row, holding the HTML of its cells. */
  datatype Row =
    | Pair(caption: string, value: string)  // <td>caption</td><td>value</td>
    | Placeholder                         // "No details available." across both columns
    | Message(text: string)               // one cell with an escaped message
    | ListRow(objectid: string, cells: seq<string>)

  /** A field is shown when its value is neither null nor blank after `trim`. */
  predicate Shown(props: Props, f: FieldSpec) {
    var v := Get(props, f.key);
    !IsNullish(v) && !IsBlank(v)
  }

  /** The row written for a shown field: label (or key) escaped, value formatted. */
  function PairFor(props: Props, f: FieldSpec): Row {
    Pair(EscapeHtml(Coalesce(f.caption, Str(f.key))), FormatCellValue(Get(props, f.key)))
  }

  /** The rows the loop appends for `fields`. */
  function DetailRows(props: Props, fields: seq<FieldSpec>): seq<Row>
    decreases |fields|
  {
    if fields == [] then []
    else
      var last := fields[|fields| - 1];
      DetailRows(props, fields[..|fields| - 1]) + (if Shown(props, last) then [PairFor(props, last)] else [])
  }

  /** The body after a fill: the rows, or the placeholder alone. */
  function FillRows(props: Props, fields: seq<FieldSpec>): seq<Row> {
    var rows := DetailRows(props, fields);
    if rows == [] then [Placeholder] else rows
  }

  /** The positions of the shown fields, in increasing order. */
  function ShownIndices(props: Props, fields: seq<FieldSpec>): seq<nat>
    decreases |fields|
  {
    if fields == [] then []
    else
      var n := |fields| - 1;
      ShownIndices(props, fields[..n]) + (if Shown(props, fields[n]) then [n] else [])
  }

  /** The j-th row is the row of the j-th shown position. */
  lemma {:induction false} RowsAtShownIndices(props: Props, fields: seq<FieldSpec>)
    ensures var rows, idx := DetailRows(props, fields), ShownIndices(props, fields);
      |rows| == |idx|
      && forall j :: 0 <= j < |idx| ==> idx[j] < |fields| && rows[j] == PairFor(props, fields[idx[j]])
    decreases |fields|
  {
    if fields != [] {
      var n := |fields| - 1;
      var init := fields[..n];
      RowsAtShownIndices(props, init);
      var rows0, idx0 := DetailRows(props, init), ShownIndices(props, init);
      var rows, idx := DetailRows(props, fields), ShownIndices(props, fields);
      var extra := if Shown(props, fields[n]) then [PairFor(props, fields[n])] else [];
      assert rows == rows0 + extra;
      assert idx == idx0 + (if Shown(props, fields[n]) then [n] else []);
      forall j | 0 <= j < |idx| ensures idx[j] < |fields| && rows[j] == PairFor(props, fields[idx[j]]) {
        if j < |idx0| {
          assert rows[j] == rows0[j] && idx[j] == idx0[j];
          assert fields[idx0[j]] == init[idx0[j]];
        }
      }
    }
  }

  /** The shown positions are listed in increasing order and all lie below `|fields|`. */
  lemma {:induction false} ShownIndicesIncreasing(props: Props, fields: seq<FieldSpec>)
    ensures forall j :: 0 <= j < |ShownIndices(props, fields)| ==> ShownIndices(props, fields)[j] < |fields|
    ensures forall j, k :: 0 <= j < k < |ShownIndices(props, fields)| ==>
      ShownIndices(props, fields)[j] < ShownIndices(props, fields)[k]
    decreases |fields|
  {
    if fields != [] {
      var n := |fields| - 1;
      ShownIndicesIncreasing(props, fields[..n]);
      var idx0 := ShownIndices(props, fields[..n]);
      var idx := ShownIndices(props, fields);
      assert |fields[..n]| == n;
      assert idx == idx0 + (if Shown(props, fields[n]) then [n] else []);
      forall j | 0 <= j < |idx| ensures idx[j] < |fields| {
        if j < |idx0| { assert idx[j] == idx0[j] < n; }
      }
      forall j, k | 0 <= j < k < |idx| ensures idx[j] < idx[k] {
        if k < |idx0| {
          assert idx[j] == idx0[j] && idx[k] == idx0[k];
        } else {
          assert idx[j] == idx0[j] < n && idx[k] == n;
        }
      }
    }
  }

  /** A position is listed exactly when its field is shown. */
  lemma {:induction false} ShownIndicesExactly(props: Props, fields: seq<FieldSpec>)
    ensures forall i :: 0 <= i < |fields| ==> (Shown(props, fields[i]) <==> i in ShownIndices(props, fields))
    decreases |fields|
  {
    if fields != [] {
      var n := |fields| - 1;
      var init := fields[..n];
      ShownIndicesExactly(props, init);
      ShownIndicesIncreasing(props, init);
      var idx0 := ShownIndices(props, init);
      var tail := if Shown(props, fields[n]) then [n] else [];
      assert ShownIndices(props, fields) == idx0 + tail;
      assert |init| == n;
      assert n !in idx0 by {
        forall j | 0 <= j < |idx0| ensures idx0[j] != n { assert idx0[j] < |init|; }
      }
      forall i | 0 <= i < |fields| ensures Shown(props, fields[i]) <==> i in idx0 + tail {
        if i < n {
          assert fields[i] == init[i];
          assert i !in tail;
        } else {
          assert i == n;
        }
      }
    }
  }

  /**
   * The rows are exactly the shown fields, in field order: the j-th row is
   * the row of the j-th shown field, and a field's position is listed iff
   * it is shown.
   */
  lemma DetailRowsFollowFields(props: Props, fields: seq<FieldSpec>)
    ensures var rows, idx := DetailRows(props, fields), ShownIndices(props, fields);
      |rows| == |idx|
      && (forall j :: 0 <= j < |idx| ==> idx[j] < |fields| && rows[j] == PairFor(props, fields[idx[j]]))
      && (forall j, k :: 0 <= j < k < |idx| ==> idx[j] < idx[k])
      && (forall i :: 0 <= i < |fields| ==> (Shown(props, fields[i]) <==> i in idx))
  {
    RowsAtShownIndices(props, fields);
    ShownIndicesIncreasing(props, fields);
    ShownIndicesExactly(props, fields);
  }

  /** The placeholder row appears exactly when no field is shown. */
  lemma {:induction false} PlaceholderIffNothingShown(props: Props, fields: seq<FieldSpec>)
    ensures FillRows(props, fields) == [Placeholder]
      <==> forall i :: 0 <= i < |fields| ==> !Shown(props, fields[i])
  {
    DetailRowsFollowFields(props, fields);
    var idx := ShownIndices(props, fields);
    if DetailRows(props, fields) == [] {
      assert idx == [];
    } else {
      var r := DetailRows(props, fields);
      assert r[0] == PairFor(props, fields[idx[0]]);
      assert Shown(props, fields[idx[0]]);
    }
  }

  /** A row's label cell decodes to the label, or to the key when there is no label. */
  lemma PairLabel(props: Props, f: FieldSpec)
    ensures Unescape(PairFor(props, f).caption) == ToStrOrEmpty(Coalesce(f.caption, Str(f.key)))
  {
    UnescapeEscape(ToStrOrEmpty(Coalesce(f.caption, Str(f.key))));
  }

  /** What a fill leaves: the table's recorded OBJECTID and the body's rows. */
  datatype TableView = TableView(objectid: string, rows: seq<Row>)

  /** The table already shows this feature: its recorded OBJECTID is set and equal. */
  predicate AlreadyShown(inTable: bool, recorded: string, props: Props) {
    inTable && recorded != "" && recorded == ToStr(Get(props, "OBJECTID"))
  }

  /** The state after filling: unchanged when already shown, else recorded and rebuilt. */
  function FillView(inTable: bool, v: TableView, props: Props, fields: seq<FieldSpec>): TableView {
    if AlreadyShown(inTable, v.objectid, props) then v
    else TableView(
      if inTable then ToStrOrEmpty(Get(props, "OBJECTID")) else v.objectid,
      FillRows(props, fields))
  }

  /** Filling twice with the same feature and fields is filling once. */
  lemma FillIdempotent(inTable: bool, v: TableView, props: Props, fields: seq<FieldSpec>)
    ensures FillView(inTable, FillView(inTable, v, props, fields), props, fields)
      == FillView(inTable, v, props, fields)
  {
  }

  /** Once a feature with a non-empty OBJECTID is shown, filling it again changes nothing at all. */
  lemma FillRecordsObjectId(v: TableView, props: Props, fields: seq<FieldSpec>)
    requires !IsNullish(Get(props, "OBJECTID")) && ToStr(Get(props, "OBJECTID")) != ""
    ensures AlreadyShown(true, FillView(true, v, props, fields).objectid, props)
  {
  }

  /** A `<tbody>` inside its `<table>` (or not), with the table's `data-objectid`. */
  class TableBody {
    /** `tbody.closest('table')` exists */
    const inTable: bool
    /** the table's `dataset.objectid`; "" when unset */
    var objectid: string
    var rows: seq<Row>
    /** `tbody._wired`: click delegation installed */
    var wired: bool

    constructor (inTable: bool)
      ensures this.inTable == inTable && objectid == "" && rows == [] && !wired
    {
      this.inTable := inTable;
      objectid := "";
      rows := [];
      wired := false;
    }

    function View(): TableView
      reads this
    {
      TableView(objectid, rows)
    }

    /**
     * The common body of `renderDetailTable` and
     * `fillDetailTableFromFeature`: the OBJECTID guard, the record, and
     * the loop over the fields.
     */
    method Fill(props: Props, fields: seq<FieldSpec>)
      modifies this
      ensures View() == FillView(inTable, old(View()), props, fields)
      ensures wired == old(wired)
    {
      if AlreadyShown(inTable, objectid, props) {
        return;
      }
      if inTable {
        objectid := ToStrOrEmpty(Get(props, "OBJECTID"));
      }
      rows := [];
      var i := 0;
      while i < |fields|
        invariant 0 <= i <= |fields|
        invariant rows == DetailRows(props, fields[..i])
        invariant objectid == (if inTable then ToStrOrEmpty(Get(props, "OBJECTID")) else old(objectid))
        invariant wired == old(wired)
      {
        var f := fields[i];
        assert fields[..i + 1][..i] == fields[..i];
        var val := Get(props, f.key);
        if !(IsNullish(val) || Trim(ToStr(val)) == "") {
          rows := rows + [Pair(EscapeHtml(Coalesce(f.caption, Str(f.key))), FormatCellValue(val))];
        }
        i := i + 1;
      }
      assert fields[..|fields|] == fields;
      if rows == [] {
        rows := [Placeholder];
      }
    }
  }

  /** `renderDetailTable(tbody, feature, fields)`: a no-op unless all three are present. */
  method RenderDetailTable(tbody: TableBody?, feature: Option<Feature>, fields: Option<seq<FieldSpec>>)
    modifies tbody
    ensures tbody != null && feature.Some? && fields.Some? ==>
      tbody.View() == FillView(tbody.inTable, old(tbody.View()), feature.value.properties, fields.value)
    ensures tbody != null && (feature.None? || fields.None?) ==> tbody.View() == old(tbody.View())
    ensures tbody != null ==> tbody.wired == old(tbody.wired)
  {
    if tbody == null || feature.None? || fields.None? {
      return;
    }
    tbody.Fill(feature.value.properties, fields.value);
  }
}
