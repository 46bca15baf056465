/**
 * The data grid's row editing: the editing reducer, the draft row used to
 * create records, the field-level diff sent to `updateOne`, the column
 * derivation from a data provider, the per-row actions and the branches of
 * the row-update handler.
 */
module DataGrid {
  import opened Common
  import opened Text
  import DataProvider

  const ACTIONS_COLUMN_FIELD: string := "::toolpad-internal-field::actions::"
  const DRAFT_ROW_ID: string := "::toolpad-internal-row::draft::"

  /** The property name an id becomes when used as an object key. */
  function PropertyKey(id: RowId): string {
    match id
    case NumId(n) => IntToString(n)
    case StrId(s) => s
  }

  /** JavaScript truthiness of an id: 0 and "" are falsy. */
  predicate IdTruthy(id: RowId) {
    match id
    case NumId(n) => n != 0
    case StrId(s) => s != ""
  }

  datatype RowMode = Edit | View(ignoreModifications: bool)

  /** `GridRowModesModel`: row modes keyed by the id's property name. */
  type RowModesModel = map<string, RowMode>

  datatype GridState = GridState(editedRowId: Option<RowId>, isProcessingRowUpdate: bool, rowModesModel: RowModesModel)

  const InitialState := GridState(None, false, map[])

  datatype GridAction = StartRowEdit(rowId: RowId) | CancelRowEdit | StartRowUpdate | EndRowUpdate

  // ---------------------------------------------------------------------------
  // The editing reducer

  /** `gridEditingReducer`, as written: the cancel branch tests the edited id for truthiness. */
  function GridEditingReducer(state: GridState, action: GridAction): (r: GridState)
    ensures action.StartRowEdit? && state.editedRowId.Some? ==> r == state
    ensures action.StartRowEdit? && state.editedRowId.None? ==>
      r.editedRowId == Some(action.rowId) && r.isProcessingRowUpdate == state.isProcessingRowUpdate &&
      r.rowModesModel == map[PropertyKey(action.rowId) := Edit]
    ensures action.CancelRowEdit? ==>
      r.editedRowId.None? && r.isProcessingRowUpdate == state.isProcessingRowUpdate &&
      (state.editedRowId.Some? && IdTruthy(state.editedRowId.value) ==>
        r.rowModesModel == map[PropertyKey(state.editedRowId.value) := View(true)]) &&
      (state.editedRowId.None? || !IdTruthy(state.editedRowId.value) ==> r.rowModesModel == map[])
    ensures action.StartRowUpdate? ==>
      r.editedRowId == state.editedRowId && r.isProcessingRowUpdate && r.rowModesModel == map[]
    ensures action.EndRowUpdate? ==>
      r.editedRowId.None? && !r.isProcessingRowUpdate && r.rowModesModel == state.rowModesModel
  {
    match action
    case StartRowEdit(id) =>
      if state.editedRowId.Some? then state
      else state.(editedRowId := Some(id), rowModesModel := map[PropertyKey(id) := Edit])
    case CancelRowEdit =>
      state.(editedRowId := None,
             rowModesModel :=
               if state.editedRowId.Some? && IdTruthy(state.editedRowId.value)
               then map[PropertyKey(state.editedRowId.value) := View(true)]
               else map[])
    case StartRowUpdate =>
      state.(isProcessingRowUpdate := true, rowModesModel := map[])
    case EndRowUpdate =>
      state.(editedRowId := None, isProcessingRowUpdate := false)
  }

  /**
   * The reducer with the cancel branch testing whether an edit is in progress
   * (`editedRowId !== null`), as the other branches do.
   */
  function GridEditingReducerCorrected(state: GridState, action: GridAction): (r: GridState)
    ensures action.CancelRowEdit? ==>
      r.editedRowId.None? && r.isProcessingRowUpdate == state.isProcessingRowUpdate &&
      r.rowModesModel == (if state.editedRowId.Some? then map[PropertyKey(state.editedRowId.value) := View(true)] else map[])
    ensures !action.CancelRowEdit? ==> r == GridEditingReducer(state, action)
  {
    match action
    case CancelRowEdit =>
      state.(editedRowId := None,
             rowModesModel :=
               if state.editedRowId.Some? then map[PropertyKey(state.editedRowId.value) := View(true)] else map[])
    case _ => GridEditingReducer(state, action)
  }

  /** The two reducers differ only when cancelling the edit of a row with a falsy id. */
  lemma {:induction false} ReducersAgreeOnTruthyIds(state: GridState, action: GridAction)
    requires state.editedRowId.None? || IdTruthy(state.editedRowId.value)
    ensures GridEditingReducerCorrected(state, action) == GridEditingReducer(state, action)
  {
    if action.CancelRowEdit? {
      var r, s := GridEditingReducerCorrected(state, action), GridEditingReducer(state, action);
      assert r.rowModesModel == s.rowModesModel;
    }
  }

  /** Which of the two reducers a sequence of actions is dispatched to. */
  datatype Reducer = AsWritten | Corrected

  function Reduce(reducer: Reducer, state: GridState, action: GridAction): GridState {
    match reducer
    case AsWritten => GridEditingReducer(state, action)
    case Corrected => GridEditingReducerCorrected(state, action)
  }

  /** The state after dispatching `actions` in order to `reducer`. */
  function Run(reducer: Reducer, state: GridState, actions: seq<GridAction>): GridState
    decreases |actions|
  {
    if actions == [] then state else Run(reducer, Reduce(reducer, state, actions[0]), actions[1..])
  }

  /** The reducer never puts more than one row into the row modes model. */
  predicate AtMostOneRowMode(state: GridState) {
    |state.rowModesModel| <= 1
  }

  lemma ReducerKeepsAtMostOneRowMode(state: GridState, action: GridAction)
    requires AtMostOneRowMode(state)
    ensures AtMostOneRowMode(GridEditingReducer(state, action))
    ensures AtMostOneRowMode(GridEditingReducerCorrected(state, action))
  {
  }

  /** Whichever reducer the actions go to, at most one row is ever in the row modes model. */
  lemma {:induction false} RunKeepsAtMostOneRowMode(reducer: Reducer, state: GridState, actions: seq<GridAction>)
    requires AtMostOneRowMode(state)
    ensures AtMostOneRowMode(Run(reducer, state, actions))
    decreases |actions|
  {
    if actions != [] {
      ReducerKeepsAtMostOneRowMode(state, actions[0]);
      RunKeepsAtMostOneRowMode(reducer, Reduce(reducer, state, actions[0]), actions[1..]);
    }
  }

  /** Once a row is being edited, a request to edit any row is ignored until the edit ends. */
  lemma {:induction false} EditRequestsWaitForTheCurrentEdit(reducer: Reducer, state: GridState, ids: seq<RowId>)
    requires state.editedRowId.Some?
    ensures Run(reducer, state, seq(|ids|, i requires 0 <= i < |ids| => StartRowEdit(ids[i]))) == state
    decreases |ids|
  {
    var actions := seq(|ids|, i requires 0 <= i < |ids| => StartRowEdit(ids[i]));
    if ids != [] {
      assert actions[1..] == seq(|ids[1..]|, i requires 0 <= i < |ids[1..]| => StartRowEdit(ids[1..][i]));
      EditRequestsWaitForTheCurrentEdit(reducer, state, ids[1..]);
    }
  }

  // ---------------------------------------------------------------------------
  // The patched row modes model

  /**
   * `usePatchedRowModesModel`: when the model changes, every row of the
   * previous model that the new one does not mention is set back to View.
   * (The source compares by reference; here by value, which the first ensures
   * shows gives the same result.)
   */
  function PatchRowModesModel(previous: RowModesModel, current: RowModesModel): (patched: RowModesModel)
    ensures patched.Keys == previous.Keys + current.Keys
    ensures forall k :: k in current ==> patched[k] == current[k]
    ensures forall k :: k in previous && k !in current ==> patched[k] == View(false)
  {
    if current == previous then current
    else (map k | k in previous :: View(false)) + current
  }

  /** Cancelling the edit of row 0, as written: the row leaves edit mode without discarding its changes. */
  lemma CancelOfRowZeroKeepsModifications()
    ensures var editing := GridEditingReducer(InitialState, StartRowEdit(NumId(0)));
      var cancelled := GridEditingReducer(editing, CancelRowEdit);
      cancelled.rowModesModel == map[] &&
      PatchRowModesModel(editing.rowModesModel, cancelled.rowModesModel) == map["0" := View(false)]
  {
    assert PropertyKey(NumId(0)) == "0";
  }

  /** With the corrected reducer, cancelling any edit discards the row's modifications. */
  lemma CancelDiscardsModifications(state: GridState, id: RowId)
    requires state.editedRowId.None?
    ensures var editing := GridEditingReducerCorrected(state, StartRowEdit(id));
      var cancelled := GridEditingReducerCorrected(editing, CancelRowEdit);
      cancelled.editedRowId.None? &&
      PatchRowModesModel(editing.rowModesModel, cancelled.rowModesModel) == map[PropertyKey(id) := View(true)]
  {
  }

  // ---------------------------------------------------------------------------
  // Draft rows and row ids

  /** A grid row: its fields and whether it carries the (symbol-keyed) draft marker. */
  datatype GridRow = GridRow(fields: Row, draftMarker: bool)

  predicate IsDraftRow(row: GridRow) {
    row.draftMarker
  }

  /** `createDraftRow`: an empty row carrying the draft marker. */
  function CreateDraftRow(): (row: GridRow)
    ensures IsDraftRow(row) && row.fields == map[]
  {
    GridRow(map[], true)
  }

  /** `cleanDraftRow`: a copy without the marker; every field is kept. */
  function CleanDraftRow(row: GridRow): (clean: GridRow)
    ensures !IsDraftRow(clean) && clean.fields == row.fields
  {
    row.(draftMarker := false)
  }

  /** A data row's own `id`: a number or a string. */
  predicate HasRowId(row: Row) {
    Get(row, "id").Num? || Get(row, "id").Str?
  }

  function RowIdOf(row: Row): RowId
    requires HasRowId(row)
  {
    match Get(row, "id")
    case Num(n) => NumId(n)
    case Str(s) => StrId(s)
  }

  /** `getRowId`: the draft row has the draft id; otherwise the caller's getter, or the row's id. */
  function GetRowId(row: GridRow, getRowIdProp: Option<GridRow -> RowId>): (id: RowId)
    requires IsDraftRow(row) || getRowIdProp.Some? || HasRowId(row.fields)
    ensures IsDraftRow(row) ==> id == StrId(DRAFT_ROW_ID)
    ensures !IsDraftRow(row) && getRowIdProp.Some? ==> id == getRowIdProp.value(row)
    ensures !IsDraftRow(row) && getRowIdProp.None? ==> Get(row.fields, "id") == (if id.NumId? then Num(id.n) else Str(id.s))
  {
    if IsDraftRow(row) then StrId(DRAFT_ROW_ID)
    else if getRowIdProp.Some? then getRowIdProp.value(row)
    else RowIdOf(row.fields)
  }

  function PlainRows(rows: seq<Row>): (r: seq<GridRow>)
    ensures |r| == |rows|
    ensures forall i :: 0 <= i < |rows| ==> r[i] == GridRow(rows[i], false)
  {
    seq(|rows|, i requires 0 <= i < |rows| => GridRow(rows[i], false))
  }

  /** The rows the grid shows: the fetched rows, after a draft row while one is being created. */
  function RenderedRows(data: Option<seq<Row>>, editedRowId: Option<RowId>): (r: seq<GridRow>)
    ensures var rows := data.GetOr([]);
      var creating := editedRowId == Some(StrId(DRAFT_ROW_ID));
      |r| == |rows| + (if creating then 1 else 0) &&
      r[|r| - |rows|..] == PlainRows(rows) &&
      (creating ==> r[0] == CreateDraftRow()) &&
      ((exists i :: 0 <= i < |r| && IsDraftRow(r[i])) <==> creating)
  {
    var rows := PlainRows(data.GetOr([]));
    if editedRowId == Some(StrId(DRAFT_ROW_ID)) then [CreateDraftRow()] + rows else rows
  }

  /** The draft row shown while creating is the row the grid considers being edited. */
  lemma DraftRowIsTheEditedRow(data: Option<seq<Row>>, state: GridState, getRowIdProp: Option<GridRow -> RowId>, i: nat)
    requires i < |RenderedRows(data, state.editedRowId)|
    requires IsDraftRow(RenderedRows(data, state.editedRowId)[i])
    ensures i == 0
    ensures Some(GetRowId(RenderedRows(data, state.editedRowId)[i], getRowIdProp)) == state.editedRowId
  {
  }

  /** `handleCreateRowRequest` and the toolbar's create button. */
  const CreateRowRequest := StartRowEdit(StrId(DRAFT_ROW_ID))

  /** The create button is disabled by `!!editedRowId || loading`. */
  function CreateButtonDisabled(state: GridState, loading: bool): (disabled: bool)
    ensures loading ==> disabled
    ensures state.editedRowId.Some? && IdTruthy(state.editedRowId.value) ==> disabled
    ensures state.editedRowId.None? ==> disabled == loading
    ensures disabled ==> loading || (state.editedRowId.Some? && IdTruthy(state.editedRowId.value))
  {
    (state.editedRowId.Some? && IdTruthy(state.editedRowId.value)) || loading
  }

  /**
   * The create button stays enabled while row 0 is edited, but the request it
   * sends is ignored by the reducer, so no draft row appears.
   */
  lemma CreateDuringEditOfRowZeroIsIgnored(state: GridState)
    requires state.editedRowId == Some(NumId(0))
    ensures !CreateButtonDisabled(state, false)
    ensures GridEditingReducer(state, CreateRowRequest) == state
  {
  }

  /** `handleRowEditStart`: a double click on a cell starts editing its row. */
  function RowEditStart(reason: string, id: RowId): (action: Option<GridAction>)
    ensures action.Some? <==> reason == "cellDoubleClick"
    ensures action.Some? ==> action.value == StartRowEdit(id)
  {
    if reason == "cellDoubleClick" then Some(StartRowEdit(id)) else None
  }

  // ---------------------------------------------------------------------------
  // Pagination

  /** The grid's `getMany` params: a window only in server pagination mode, and no filter. */
  function GridGetManyParams(serverMode: bool, page: nat, pageSize: nat): (p: DataProvider.GetManyParams)
    ensures p.filter == map[]
    ensures p.pagination.Some? <==> serverMode
    ensures serverMode ==> p.pagination.value == DataProvider.PageWindow(page, pageSize)
  {
    DataProvider.GetManyParams(
      if serverMode then Some(DataProvider.PageWindow(page, pageSize)) else None,
      map[])
  }

  // ---------------------------------------------------------------------------
  // Field-level diff

  /** `Object.is` on row values, or two Dates with the same time. */
  predicate SameValue(a: Value, b: Value) {
    a == b || (a.Date? && b.Date? && a.time == b.time)
  }

  /** The properties of `original` or `changed` whose values differ, with the changed value. */
  function Diff(original: Row, changed: Row): Row {
    map k | k in original.Keys + changed.Keys && !SameValue(Get(original, k), Get(changed, k)) :: Get(changed, k)
  }

  /** `diffRows`: visits every key of both rows and records each changed one. */
  method DiffRows(original: Row, changed: Row) returns (diff: Row)
    ensures diff == Diff(original, changed)
  {
    var keys := original.Keys + changed.Keys;
    var todo := keys;
    diff := map[];
    while todo != {}
      invariant todo <= keys
      invariant forall k :: k in diff <==> k in keys - todo && !SameValue(Get(original, k), Get(changed, k))
      invariant forall k :: k in diff ==> diff[k] == Get(changed, k)
      decreases todo
    {
      var key :| key in todo;
      todo := todo - {key};
      var originalValue := Get(original, key);
      var changedValue := Get(changed, key);
      if originalValue == changedValue {
        continue;
      }
      if originalValue.Date? && changedValue.Date? && originalValue.time == changedValue.time {
        continue;
      }
      diff := diff[key := changedValue];
    }
  }

  /** A row compared with itself has no changes. */
  lemma DiffOfSameRowIsEmpty(row: Row)
    ensures Diff(row, row) == map[]
  {
  }

  /**
   * Applying the diff to the original the way `updateOne` merges it gives the
   * changed row, up to Dates with equal time.
   */
  lemma PatchingWithDiffGivesChanged(original: Row, changed: Row, k: string)
    ensures SameValue(Get(original + Diff(original, changed), k), Get(changed, k))
  {
  }

  /** An empty diff means the two rows agree on every property. */
  lemma {:induction false} EmptyDiffMeansSameRow(original: Row, changed: Row, k: string)
    requires Diff(original, changed) == map[]
    ensures SameValue(Get(original, k), Get(changed, k))
  {
    assert k in original.Keys + changed.Keys && !SameValue(Get(original, k), Get(changed, k))
      ==> k in Diff(original, changed);
  }

  // ---------------------------------------------------------------------------
  // Columns

  /** A value formatter: the column's own, or the provider field's bound to the column. */
  datatype Formatter = ColumnFormatter(id: nat) | FieldFormatter(id: nat, field: string)

  /** A value getter: the column's own, or the date wrapper around an optional inner getter. */
  datatype Getter = ColumnGetter(id: nat) | DateGetter(inner: Option<Getter>)

  /** The column properties the provider touches (None = property absent). */
  datatype ColDef = ColDef(
    field: string,
    colType: Option<string>,
    headerName: Option<string>,
    editable: Option<bool>,
    valueFormatter: Option<Formatter>,
    valueGetter: Option<Getter>)

  function FieldTypeName(t: DataProvider.FieldType): string {
    match t
    case StringType => "string"
    case NumberType => "number"
    case BooleanType => "boolean"
    case DateType => "date"
  }

  predicate IsDateColumn(col: ColDef) {
    col.colType == Some("date") || col.colType == Some("dateTime")
  }

  /** One column of `updateColumnsWithDataProviderFields`. */
  function WithProviderField(base: ColDef, field: Option<DataProvider.ResolvedField>): (col: ColDef)
    ensures col.field == base.field && col.editable == base.editable
    ensures base.colType.Some? ==> col.colType == base.colType
    ensures base.colType.None? ==> col.colType == if field.Some? then Some(FieldTypeName(field.value.fieldType)) else None
    ensures base.headerName.Some? ==> col.headerName == base.headerName
    ensures base.headerName.None? ==> col.headerName == if field.Some? then Some(field.value.fieldLabel) else None
    ensures base.valueFormatter.Some? ==> col.valueFormatter == base.valueFormatter
    ensures base.valueFormatter.None? && field.Some? && field.value.valueFormatter.Some? ==>
      col.valueFormatter == Some(FieldFormatter(field.value.valueFormatter.value, base.field))
    ensures base.valueFormatter.None? && (field.None? || field.value.valueFormatter.None?) ==>
      col.valueFormatter.None?
    ensures IsDateColumn(col) ==> col.valueGetter == Some(DateGetter(base.valueGetter))
    ensures !IsDateColumn(col) ==> col.valueGetter == base.valueGetter
  {
    var colType := if base.colType.Some? then base.colType
      else if field.Some? then Some(FieldTypeName(field.value.fieldType)) else None;
    var headerName := if base.headerName.Some? then base.headerName
      else if field.Some? then Some(field.value.fieldLabel) else None;
    var colDef := base.(colType := colType, headerName := headerName);
    var formatter :=
      if field.Some? && field.value.valueFormatter.Some? && colDef.valueFormatter.None?
      then Some(FieldFormatter(field.value.valueFormatter.value, colDef.field))
      else colDef.valueFormatter;
    var getter := if IsDateColumn(colDef) then Some(DateGetter(colDef.valueGetter)) else colDef.valueGetter;
    colDef.(valueFormatter := formatter, valueGetter := getter)
  }

  /** `updateColumnsWithDataProviderFields`: each column completed from its provider field. */
  function UpdateColumnsWithDataProviderFields(fields: map<string, DataProvider.ResolvedField>, base: seq<ColDef>): (cols: seq<ColDef>)
    ensures |cols| == |base|
    ensures forall i :: 0 <= i < |base| ==>
      cols[i] == WithProviderField(base[i], if base[i].field in fields then Some(fields[base[i].field]) else None)
  {
    seq(|base|, i requires 0 <= i < |base| =>
      WithProviderField(base[i], if base[i].field in fields then Some(fields[base[i].field]) else None))
  }

  /** A column's own settings always win over what the provider field suggests. */
  lemma ColumnSettingsWin(fields: map<string, DataProvider.ResolvedField>, base: seq<ColDef>, i: nat)
    requires i < |base|
    ensures var col := UpdateColumnsWithDataProviderFields(fields, base)[i];
      (base[i].colType.Some? ==> col.colType == base[i].colType) &&
      (base[i].headerName.Some? ==> col.headerName == base[i].headerName) &&
      (base[i].valueFormatter.Some? ==> col.valueFormatter == base[i].valueFormatter)
  {
  }

  /** Every provider field of date type gives its column the date value getter. */
  lemma DateFieldsGetDateGetter(fields: map<string, DataProvider.ResolvedField>, base: seq<ColDef>, i: nat)
    requires i < |base| && base[i].colType.None? && base[i].field in fields
    requires fields[base[i].field].fieldType == DataProvider.DateType
    ensures UpdateColumnsWithDataProviderFields(fields, base)[i].valueGetter == Some(DateGetter(base[i].valueGetter))
  {
  }

  /** Which mutations the provider offers. */
  datatype Capabilities = Capabilities(canCreate: bool, canEdit: bool, canDelete: bool)

  function CapabilitiesOf<M>(provider: DataProvider.ResolvedProvider<M>): (caps: Capabilities)
    ensures caps.canCreate <==> provider.createOne.Some?
    ensures caps.canEdit <==> provider.updateOne.Some?
    ensures caps.canDelete <==> provider.deleteOne.Some?
  {
    Capabilities(provider.createOne.Some?, provider.updateOne.Some?, provider.deleteOne.Some?)
  }

  predicate HasEditableRows(caps: Capabilities) {
    caps.canCreate || caps.canEdit
  }

  predicate HasActionsColumn(caps: Capabilities) {
    caps.canCreate || caps.canEdit || caps.canDelete
  }

  /** The actions column (its layout properties are not modelled). */
  const ActionsColumn := ColDef(ACTIONS_COLUMN_FIELD, Some("actions"), Some("Actions"), None, None, None)

  /**
   * `updateColumnsWithDataProviderEditing`: columns other than "id" become
   * editable when rows can be created or edited, and the actions column is
   * pushed when any mutation exists.
   */
  method UpdateColumnsWithDataProviderEditing(caps: Capabilities, base: seq<ColDef>) returns (resolved: seq<ColDef>)
    ensures |resolved| == |base| + (if HasActionsColumn(caps) then 1 else 0)
    ensures forall i :: 0 <= i < |base| ==>
      resolved[i].editable == (if HasEditableRows(caps) && base[i].field != "id" then Some(true) else base[i].editable)
    ensures forall i :: 0 <= i < |base| ==> resolved[i] == base[i].(editable := resolved[i].editable)
    ensures HasActionsColumn(caps) ==> resolved[|base|] == ActionsColumn
  {
    var hasEditableRows := caps.canCreate || caps.canEdit;
    resolved := seq(|base|, i requires 0 <= i < |base| =>
      if hasEditableRows && base[i].field != "id" then base[i].(editable := Some(true)) else base[i]);
    if caps.canCreate || caps.canEdit || caps.canDelete {
      resolved := resolved + [ActionsColumn];
    }
  }

  // ---------------------------------------------------------------------------
  // Row actions

  /** An item of the actions cell; `DeleteItem` runs the provider's `deleteOne` itself. */
  datatype ActionItem = SaveItem(disabled: bool) | CancelItem(disabled: bool) | EditItem(disabled: bool, rowId: RowId) | DeleteItem(rowId: RowId)

  /** The reducer action an item dispatches when clicked. */
  function OnClick(item: ActionItem): (action: Option<GridAction>)
    ensures action.None? <==> item.DeleteItem?
    ensures item.SaveItem? ==> action == Some(StartRowUpdate)
    ensures item.CancelItem? ==> action == Some(CancelRowEdit)
    ensures item.EditItem? ==> action == Some(StartRowEdit(item.rowId))
  {
    match item
    case SaveItem(_) => Some(StartRowUpdate)
    case CancelItem(_) => Some(CancelRowEdit)
    case EditItem(_, id) => Some(StartRowEdit(id))
    case DeleteItem(_) => None
  }

  predicate IsEditing(state: GridState) {
    state.editedRowId.Some? || state.isProcessingRowUpdate
  }

  /** The actions of row `id`: Save and Cancel on the edited row, Edit and Delete on the others. */
  function RowActions(caps: Capabilities, state: GridState, id: RowId): seq<ActionItem> {
    if state.editedRowId == Some(id) then
      [SaveItem(state.isProcessingRowUpdate), CancelItem(state.isProcessingRowUpdate)]
    else
      (if caps.canEdit then [EditItem(IsEditing(state), id)] else []) +
      (if caps.canDelete then [DeleteItem(id)] else [])
  }

  /** `getActions`: pushes the row's action items. */
  method GetActions(caps: Capabilities, state: GridState, id: RowId) returns (actions: seq<ActionItem>)
    ensures actions == RowActions(caps, state, id)
  {
    actions := [];
    var isEditing := state.editedRowId.Some? || state.isProcessingRowUpdate;
    var isEditedRow := state.editedRowId == Some(id);
    if isEditedRow {
      actions := actions + [SaveItem(state.isProcessingRowUpdate), CancelItem(state.isProcessingRowUpdate)];
    } else {
      if caps.canEdit {
        actions := actions + [EditItem(isEditing, id)];
      }
      if caps.canDelete {
        actions := actions + [DeleteItem(id)];
      }
    }
  }

  /** Only the edited row offers Save and Cancel, and both are disabled while the update runs. */
  lemma {:induction false} SaveAndCancelOnlyOnEditedRow(caps: Capabilities, state: GridState, id: RowId, i: nat)
    requires i < |RowActions(caps, state, id)|
    requires RowActions(caps, state, id)[i].SaveItem? || RowActions(caps, state, id)[i].CancelItem?
    ensures state.editedRowId == Some(id)
    ensures RowActions(caps, state, id)[i].disabled == state.isProcessingRowUpdate
  {
  }

  /** Other rows offer Edit exactly when rows can be edited, and Delete exactly when they can be deleted. */
  lemma OtherRowsOfferEditAndDelete(caps: Capabilities, state: GridState, id: RowId)
    requires state.editedRowId != Some(id)
    ensures EditItem(IsEditing(state), id) in RowActions(caps, state, id) <==> caps.canEdit
    ensures DeleteItem(id) in RowActions(caps, state, id) <==> caps.canDelete
    ensures |RowActions(caps, state, id)| == (if caps.canEdit then 1 else 0) + (if caps.canDelete then 1 else 0)
  {
  }

  /** Clicking an enabled Edit item always starts editing that row. */
  lemma {:induction false} EnabledEditStartsEditing(caps: Capabilities, state: GridState, id: RowId, item: ActionItem)
    requires item in RowActions(caps, state, id) && item.EditItem? && !item.disabled
    ensures OnClick(item) == Some(StartRowEdit(id))
    ensures GridEditingReducer(state, StartRowEdit(id)).editedRowId == Some(id)
    ensures GridEditingReducer(state, StartRowEdit(id)).rowModesModel == map[PropertyKey(id) := Edit]
  {
    assert state.editedRowId != Some(id);
    assert !IsEditing(state);
  }

  /**
   * Clicking an enabled Save item starts the update of the edited row, and
   * clicking an enabled Cancel item ends its edit, discarding the changes:
   * as written when the row's id is truthy, and for every id once corrected.
   */
  lemma {:induction false} EnabledSaveAndCancelFinishTheEdit(caps: Capabilities, state: GridState, id: RowId, item: ActionItem)
    requires item in RowActions(caps, state, id) && (item.SaveItem? || item.CancelItem?) && !item.disabled
    ensures item.SaveItem? ==>
      var after := GridEditingReducer(state, OnClick(item).value);
      after.isProcessingRowUpdate && after.editedRowId == Some(id) && after.rowModesModel == map[]
    ensures item.CancelItem? ==>
      var after := GridEditingReducer(state, OnClick(item).value);
      !after.isProcessingRowUpdate && after.editedRowId.None? &&
      after.rowModesModel == (if IdTruthy(id) then map[PropertyKey(id) := View(true)] else map[])
    ensures item.CancelItem? ==>
      var after := GridEditingReducerCorrected(state, OnClick(item).value);
      !after.isProcessingRowUpdate && after.editedRowId.None? &&
      after.rowModesModel == map[PropertyKey(id) := View(true)]
  {
    assert state.editedRowId == Some(id);
    assert !state.isProcessingRowUpdate;
  }

  // ---------------------------------------------------------------------------
  // processRowUpdate

  datatype Severity = SuccessSeverity | ErrorSeverity

  /** What the update handler does besides returning a row, in order. */
  datatype Effect =
    | CallCreate(init: GridRow)
    | CallUpdate(id: Value, changes: Row)
    | Notify(msg: string, severity: Severity)
    | Dispatch(action: GridAction)
    | Refetch

  /** The row the handler settles with (Err: it rejects with that message), and its effects. */
  datatype RowUpdateOutcome = RowUpdateOutcome(returned: Result<GridRow>, effects: seq<Effect>)

  /** The `finally` block: end the update and refetch. */
  const FinallyEffects := [Dispatch(EndRowUpdate), Refetch]

  /** The outcome of a branch of the handler: its effects, then the `finally` block's. */
  function Finally(returned: Result<GridRow>, effects: seq<Effect>): (out: RowUpdateOutcome)
    requires forall e :: e in effects ==> !e.Dispatch?
    ensures out.returned == returned && out.effects == effects + FinallyEffects
    ensures |out.effects| >= 2 && out.effects[|out.effects| - 2..] == FinallyEffects
    ensures forall i :: 0 <= i < |out.effects| - 2 ==> !out.effects[i].Dispatch?
  {
    RowUpdateOutcome(returned, effects + FinallyEffects)
  }

  /** The draft-row branch: create the cleaned row; a failure marks the original for deletion. */
  function CreateDraft(updated: GridRow, original: GridRow, createOne: GridRow -> Result<Row>): (out: RowUpdateOutcome)
    ensures match createOne(CleanDraftRow(updated))
      case Err(_) =>
        out.returned == Ok(original.(fields := original.fields["_action" := Str("delete")])) &&
        out.effects == [CallCreate(CleanDraftRow(updated)), Notify("Failed to create row", ErrorSeverity)] + FinallyEffects
      case Ok(created) =>
        out.returned == Ok(GridRow(created, false)) &&
        out.effects == [CallCreate(CleanDraftRow(updated)), Notify("Row created", SuccessSeverity)] + FinallyEffects
  {
    var rowInit := CleanDraftRow(updated);
    match createOne(rowInit)
    case Err(_) =>
      Finally(Ok(original.(fields := original.fields["_action" := Str("delete")])),
              [CallCreate(rowInit), Notify("Failed to create row", ErrorSeverity)])
    case Ok(created) =>
      Finally(Ok(GridRow(created, false)), [CallCreate(rowInit), Notify("Row created", SuccessSeverity)])
  }

  /** The existing-row branch: send the diff, unless it is empty; a failure keeps the original. */
  function UpdateExisting(updated: GridRow, original: GridRow, updateOne: (Value, Row) -> Result<Row>): (out: RowUpdateOutcome)
    ensures |Diff(original.fields, updated.fields)| == 0 ==> out.returned == Ok(original) && out.effects == FinallyEffects
    ensures |Diff(original.fields, updated.fields)| > 0 ==>
      var changes := Diff(original.fields, updated.fields);
      var call := CallUpdate(Get(updated.fields, "id"), changes);
      match updateOne(Get(updated.fields, "id"), changes)
      case Err(_) =>
        out.returned == Ok(original) && out.effects == [call, Notify("Failed to update row", ErrorSeverity)] + FinallyEffects
      case Ok(row) =>
        out.returned == Ok(GridRow(row, false)) && out.effects == [call, Notify("Row updated", SuccessSeverity)] + FinallyEffects
  {
    var changes := Diff(original.fields, updated.fields);
    if |changes| <= 0 then Finally(Ok(original), [])
    else
      var id := Get(updated.fields, "id");
      match updateOne(id, changes)
      case Err(_) => Finally(Ok(original), [CallUpdate(id, changes), Notify("Failed to update row", ErrorSeverity)])
      case Ok(row) => Finally(Ok(GridRow(row, false)), [CallUpdate(id, changes), Notify("Row updated", SuccessSeverity)])
  }

  /**
   * The `processRowUpdate` built from the provider's `createOne` and
   * `updateOne` (which exists only when one of them does). The provider calls
   * are parameters: each gives the row it resolves with, or fails.
   */
  function ProcessRowUpdate(updated: GridRow, original: GridRow,
                            createOne: Option<GridRow -> Result<Row>>,
                            updateOne: Option<(Value, Row) -> Result<Row>>): (out: RowUpdateOutcome)
    requires createOne.Some? || updateOne.Some?
    ensures |out.effects| >= 2 && out.effects[|out.effects| - 2..] == FinallyEffects
    ensures forall i :: 0 <= i < |out.effects| - 2 ==> !out.effects[i].Dispatch?
    ensures out.returned.Err? ==> out.effects == FinallyEffects
    // a draft row is created
    ensures IsDraftRow(updated) && createOne.None? ==> out.returned == Err("createOne not implemented")
    ensures IsDraftRow(updated) && createOne.Some? ==>
      match createOne.value(CleanDraftRow(updated))
      case Err(_) =>
        out.returned == Ok(original.(fields := original.fields["_action" := Str("delete")])) &&
        out.effects == [CallCreate(CleanDraftRow(updated)), Notify("Failed to create row", ErrorSeverity)] + FinallyEffects
      case Ok(created) =>
        out.returned == Ok(GridRow(created, false)) &&
        out.effects == [CallCreate(CleanDraftRow(updated)), Notify("Row created", SuccessSeverity)] + FinallyEffects
    // an existing row is updated with its diff
    ensures !IsDraftRow(updated) && updateOne.None? ==> out.returned == Err("updateOne not implemented")
    ensures !IsDraftRow(updated) && updateOne.Some? && |Diff(original.fields, updated.fields)| == 0 ==>
      out.returned == Ok(original) && out.effects == FinallyEffects
    ensures !IsDraftRow(updated) && updateOne.Some? && |Diff(original.fields, updated.fields)| > 0 ==>
      var changes := Diff(original.fields, updated.fields);
      var call := CallUpdate(Get(updated.fields, "id"), changes);
      match updateOne.value(Get(updated.fields, "id"), changes)
      case Err(_) =>
        out.returned == Ok(original) && out.effects == [call, Notify("Failed to update row", ErrorSeverity)] + FinallyEffects
      case Ok(row) =>
        out.returned == Ok(GridRow(row, false)) && out.effects == [call, Notify("Row updated", SuccessSeverity)] + FinallyEffects
  {
    if IsDraftRow(updated) then
      if createOne.None? then Finally(Err("createOne not implemented"), [])
      else CreateDraft(updated, original, createOne.value)
    else if updateOne.None? then Finally(Err("updateOne not implemented"), [])
    else UpdateExisting(updated, original, updateOne.value)
  }

  /** Whatever the handler does, it leaves the grid with no edited row and no update in progress. */
  lemma RowUpdateEndsTheEdit(state: GridState, updated: GridRow, original: GridRow,
                             createOne: Option<GridRow -> Result<Row>>,
                             updateOne: Option<(Value, Row) -> Result<Row>>)
    requires createOne.Some? || updateOne.Some?
    ensures var out := ProcessRowUpdate(updated, original, createOne, updateOne);
      var after := GridEditingReducer(state, out.effects[|out.effects| - 2].action);
      after.editedRowId.None? && !after.isProcessingRowUpdate && after.rowModesModel == state.rowModesModel
  {
  }

  /** An update whose diff is empty never reaches the provider: the handler only ends the update and refetches. */
  lemma UnchangedRowIsNotSent(state: GridState, row: GridRow, createOne: Option<GridRow -> Result<Row>>,
                              updateOne: Option<(Value, Row) -> Result<Row>>)
    requires !IsDraftRow(row) && updateOne.Some?
    ensures ProcessRowUpdate(row, row, createOne, updateOne).returned == Ok(row)
    ensures ProcessRowUpdate(row, row, createOne, updateOne).effects == [Dispatch(EndRowUpdate), Refetch]
  {
    DiffOfSameRowIsEmpty(row.fields);
    assert |Diff(row.fields, row.fields)| == 0;
  }
}
