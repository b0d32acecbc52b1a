/**
 * The grid's own state: which bulk action's dialog is open, whether the filter bar
 * and the column settings are shown, the pagination sent to the fetch function, the
 * system columns put in front of the caller's columns, and the loading skeleton.
 */
module NTable {
  import opened Wrappers
  import opened Js
  import opened TableTypes
  import MockQuery
  import opened OutsideClick

  /* ---------------- columns ---------------- */

  /** A display-only column the grid adds itself. */
  datatype SystemColumn = SystemColumn(id: string, enableResizing: bool, size: int)

  const SelectionColumn: SystemColumn := SystemColumn("Выбор", false, 20)
  const EditColumn: SystemColumn := SystemColumn("edit", false, 28)

  /** Keeps the present entries: `.filter(Boolean)` on a list of columns and `false`s. */
  function Present<T(==)>(s: seq<Option<T>>): (r: seq<T>)
    ensures |r| <= |s|
    ensures forall i :: 0 <= i < |r| ==> Some(r[i]) in s
    ensures forall i :: 0 <= i < |s| && s[i].Some? ==> s[i].value in r
    decreases |s|
  {
    if s == [] then []
    else (if s[0].Some? then [s[0].value] else []) + Present(s[1..])
  }

  /** The system columns: the selection column, then the edit column iff editing is enabled. */
  function SystemColumns(enableEdit: bool): (r: seq<SystemColumn>)
    ensures |r| == if enableEdit then 2 else 1
    ensures r[0] == SelectionColumn
    ensures enableEdit ==> r[1] == EditColumn
    ensures forall i :: 0 <= i < |r| ==> !r[i].enableResizing
  {
    var r := Present([Some(SelectionColumn), if enableEdit then Some(EditColumn) else None]);
    assert r == [SelectionColumn] + Present([if enableEdit then Some(EditColumn) else None]);
    assert Present([if enableEdit then Some(EditColumn) else None])
      == (if enableEdit then [EditColumn] else []) + Present([]);
    r
  }

  /** The ids of all the table's columns: system columns first, then the caller's. */
  function AllColumnIds(enableEdit: bool, columnIds: seq<string>): (r: seq<string>)
    ensures |r| == |SystemColumns(enableEdit)| + |columnIds|
    ensures forall i :: 0 <= i < |SystemColumns(enableEdit)| ==> r[i] == SystemColumns(enableEdit)[i].id
    ensures r[0] == SelectionColumn.id
    ensures enableEdit ==> r[1] == EditColumn.id
    ensures r[|SystemColumns(enableEdit)|..] == columnIds
  {
    var sys := SystemColumns(enableEdit);
    seq(|sys|, i requires 0 <= i < |sys| => sys[i].id) + columnIds
  }

  /* ---------------- fetching ---------------- */

  const InitialPagination: PaginationState := PaginationState(0, 20)

  function PaginationValue(p: PaginationState): JsValue {
    Obj(map["pageIndex" := Num(p.pageIndex), "pageSize" := Num(p.pageSize)])
  }

  /** What the fetch function is called with: an object holding `pagination` and nothing else. */
  function FetchArgument(p: PaginationState): (r: JsValue)
    ensures r.Obj? && r.fields.Keys == {"pagination"}
    ensures Get(r, "pagination") == PaginationValue(p)
    ensures Get(r, "sorting") == Undefined && Get(r, "filters") == Undefined
  {
    Obj(map["pagination" := PaginationValue(p)])
  }

  /** The query's cache key: the caller's key and the pagination. */
  function QueryKey(queryKey: string, p: PaginationState): JsValue {
    Arr([Str(queryKey), PaginationValue(p)])
  }

  /** Pages are cached apart: two queries share a key exactly when key and pagination agree. */
  lemma QueryKeySeparatesPages(k1: string, p1: PaginationState, k2: string, p2: PaginationState)
    ensures QueryKey(k1, p1) == QueryKey(k2, p2) <==> k1 == k2 && p1 == p2
  {
    if QueryKey(k1, p1) == QueryKey(k2, p2) {
      assert QueryKey(k1, p1).items[0] == QueryKey(k2, p2).items[0];
      var m1, m2 := PaginationValue(p1).fields, PaginationValue(p2).fields;
      assert QueryKey(k1, p1).items[1] == QueryKey(k2, p2).items[1];
      assert m1["pageIndex"] == m2["pageIndex"] && m1["pageSize"] == m2["pageSize"];
    }
  }

  /** With the demo data source the first load shows orders 1 to 20 of 125. */
  lemma FirstLoadOfDemoData<V>(sorting: seq<ColumnSort>, filters: seq<ColumnFilter<V>>)
    ensures var r := MockQuery.FetchOrdersFake(FetchParams(InitialPagination, sorting, filters));
      r.total == 125 && |r.results| == 20
      && forall k :: 0 <= k < 20 ==> r.results[k].id == k + 1
  {
  }

  /** `data?.total || 0`: the total before the first page arrives is 0. */
  function TotalOf(data: Option<PaginatedResult<JsValue>>): (t: int)
    ensures data.None? ==> t == 0
    ensures data.Some? ==> t == data.value.total
  {
    if data.Some? && data.value.total != 0 then data.value.total else 0
  }

  /* ---------------- the body ---------------- */

  const SkeletonRowCount: nat := 10

  /** One row of the body: a data row, or a placeholder row with a cell per visible column. */
  datatype BodyRow = DataRow(index: nat) | SkeletonRow(cellColumns: seq<string>)

  /** The rows shown: the data rows, or ten skeleton rows while the first load is pending. */
  function BodyRows(isLoading: bool, rowCount: nat, visibleColumnIds: seq<string>): (r: seq<BodyRow>)
    ensures isLoading ==> (|r| == SkeletonRowCount
      && forall i :: 0 <= i < |r| ==> r[i] == SkeletonRow(visibleColumnIds))
    ensures !isLoading ==> (|r| == rowCount && forall i :: 0 <= i < |r| ==> r[i] == DataRow(i))
  {
    if isLoading then seq(SkeletonRowCount, _ => SkeletonRow(visibleColumnIds))
    else seq(rowCount, i requires 0 <= i < rowCount => DataRow(i))
  }

  /* ---------------- the grid's own state ---------------- */

  class GridState {
    /** The bulk action whose dialog is open, if any. */
    var activeActionId: Option<string>
    var filtersVisible: bool
    var columnSettingsShow: bool
    var pagination: PaginationState
    /** How many refetches were started. */
    var refetches: nat

    constructor ()
      ensures activeActionId == None && !filtersVisible && !columnSettingsShow
      ensures pagination == InitialPagination && refetches == 0
    {
      activeActionId := None;
      filtersVisible := false;
      columnSettingsShow := false;
      pagination := InitialPagination;
      refetches := 0;
    }

    /** A bulk action's button: opens its dialog, or closes it when it is the open one. */
    method ToggleAction(id: string)
      modifies this
      ensures activeActionId == if old(activeActionId) == Some(id) then None else Some(id)
      ensures filtersVisible == old(filtersVisible) && columnSettingsShow == old(columnSettingsShow)
      ensures pagination == old(pagination) && refetches == old(refetches)
    {
      activeActionId := if activeActionId == Some(id) then None else Some(id);
    }

    /** The close callback handed to an action's dialog. */
    method CloseAction()
      modifies this
      ensures activeActionId == None
      ensures filtersVisible == old(filtersVisible) && columnSettingsShow == old(columnSettingsShow)
      ensures pagination == old(pagination) && refetches == old(refetches)
    {
      activeActionId := None;
    }

    /** The funnel button. */
    method ToggleFilters()
      modifies this
      ensures filtersVisible == !old(filtersVisible)
      ensures activeActionId == old(activeActionId) && columnSettingsShow == old(columnSettingsShow)
      ensures pagination == old(pagination) && refetches == old(refetches)
    {
      filtersVisible := !filtersVisible;
    }

    /** The eye button. */
    method OpenColumnSettings()
      modifies this
      ensures columnSettingsShow
      ensures activeActionId == old(activeActionId) && filtersVisible == old(filtersVisible)
      ensures pagination == old(pagination) && refetches == old(refetches)
    {
      columnSettingsShow := true;
    }

    /** The settings' close button. */
    method CloseColumnSettings()
      modifies this
      ensures !columnSettingsShow
      ensures activeActionId == old(activeActionId) && filtersVisible == old(filtersVisible)
      ensures pagination == old(pagination) && refetches == old(refetches)
    {
      columnSettingsShow := false;
    }

    /**
     * A pointer-down anywhere on the page. The outside-click hook for the settings
     * watches a ref that no element is given, so its listener never calls the handler
     * and the settings stay as they are, wherever the pointer lands.
     */
    method PointerDown(targetInside: bool)
      modifies this
      ensures columnSettingsShow == old(columnSettingsShow)
      ensures activeActionId == old(activeActionId) && filtersVisible == old(filtersVisible)
      ensures pagination == old(pagination) && refetches == old(refetches)
    {
      var settingsRefMounted := false;
      columnSettingsShow := columnSettingsShow && !Fires(settingsRefMounted, targetInside);
    }

    /** The refetch button: starts a refetch unless the first load is still pending. */
    method Refetch(isLoading: bool)
      modifies this
      ensures refetches == old(refetches) + (if isLoading then 0 else 1)
      ensures activeActionId == old(activeActionId) && filtersVisible == old(filtersVisible)
      ensures columnSettingsShow == old(columnSettingsShow) && pagination == old(pagination)
    {
      if !isLoading {
        refetches := refetches + 1;
      }
    }

    /** The table library reports a new page index or size. */
    method SetPagination(p: PaginationState)
      modifies this
      ensures pagination == p
      ensures activeActionId == old(activeActionId) && filtersVisible == old(filtersVisible)
      ensures columnSettingsShow == old(columnSettingsShow) && refetches == old(refetches)
    {
      pagination := p;
    }

    /** The fetch that the current state asks for. */
    function CurrentFetch(): JsValue
      reads this
    {
      FetchArgument(pagination)
    }
  }

  /** Two clicks on the same action open and then close its dialog. */
  method SameActionTwice(g: GridState, id: string)
    requires g.activeActionId == None
    modifies g
    ensures g.activeActionId == None
  {
    g.ToggleAction(id);
    assert g.activeActionId == Some(id);
    g.ToggleAction(id);
  }
}
