/**
 * The filter bar: the list of columns that have a filter unit, in the order they were
 * added, and the column picker that adds to it.
 */
module FilterBar {
  import opened Js
  import opened JsArrays

  predicate Distinct(s: seq<string>) {
    forall i, j :: 0 <= i < j < |s| ==> s[i] != s[j]
  }

  /** Removing an id from a list of distinct ids leaves distinct ids. */
  lemma {:induction false} WithoutKeepsDistinct(s: seq<string>, id: string)
    requires Distinct(s)
    ensures Distinct(Without(s, id))
    decreases |s|
  {
    if s != [] {
      WithoutKeepsDistinct(s[1..], id);
      var rest := Without(s[1..], id);
      assert Without(s, id) == (if s[0] != id then [s[0]] else []) + rest;
      assert s[0] !in s[1..];
      assert s[0] !in rest;
    }
  }

  /** One header cell of the table's header groups, as the picker sees it. */
  datatype PickerHeader = PickerHeader(columnId: string, canFilter: bool)

  function CanFilter(h: PickerHeader): bool { h.canFilter }

  /** The picker's entries: each header group's filterable headers, group after group. */
  function PickerEntries(groups: seq<seq<PickerHeader>>): (r: seq<PickerHeader>)
    ensures forall i :: 0 <= i < |r| ==> r[i].canFilter
    ensures forall g, k :: 0 <= g < |groups| && 0 <= k < |groups[g]| && groups[g][k].canFilter ==>
      groups[g][k] in r
    ensures forall i :: 0 <= i < |r| ==> exists g :: 0 <= g < |groups| && r[i] in groups[g]
    decreases |groups|
  {
    if groups == [] then []
    else
      var head := Filter(groups[0], CanFilter);
      var tail := PickerEntries(groups[1..]);
      var r := head + tail;
      assert forall i :: 0 <= i < |tail| ==> exists g :: 0 <= g < |groups| && tail[i] in groups[g] by {
        forall i | 0 <= i < |tail|
          ensures exists g :: 0 <= g < |groups| && tail[i] in groups[g]
        {
          var g :| 0 <= g < |groups[1..]| && tail[i] in groups[1..][g];
          assert tail[i] in groups[g + 1];
        }
      }
      assert forall i :: 0 <= i < |r| ==> exists g :: 0 <= g < |groups| && r[i] in groups[g] by {
        forall i | 0 <= i < |r|
          ensures exists g :: 0 <= g < |groups| && r[i] in groups[g]
        {
          if i < |head| {
            assert r[i] in groups[0];
          } else {
            assert r[i] == tail[i - |head|];
          }
        }
      }
      assert forall g, k :: 0 <= g < |groups| && 0 <= k < |groups[g]| && groups[g][k].canFilter ==>
        groups[g][k] in r by {
        forall g, k | 0 <= g < |groups| && 0 <= k < |groups[g]| && groups[g][k].canFilter
          ensures groups[g][k] in r
        {
          if g == 0 {
            assert groups[g][k] in head;
          } else {
            assert groups[1..][g - 1][k] == groups[g][k];
            assert groups[g][k] in tail;
          }
        }
      }
      r
  }

  class FilterBarState {
    /** The ids of the columns with a filter unit, in the order they were added. */
    var filteredColumns: seq<string>
    /** The column picker is open. */
    var columnDropdownVisible: bool
    /** The table's column filter values; the bar never writes them. */
    var filterValues: map<string, JsValue>

    ghost predicate Valid()
      reads this
    {
      Distinct(filteredColumns)
    }

    constructor (filterValues: map<string, JsValue>)
      ensures Valid()
      ensures filteredColumns == [] && !columnDropdownVisible && this.filterValues == filterValues
    {
      filteredColumns := [];
      columnDropdownVisible := false;
      this.filterValues := filterValues;
    }

    /** Picking a column: a new one is appended and the picker closes; a repeat changes nothing. */
    method AddFilteredColumn(id: string)
      requires Valid()
      modifies this
      ensures Valid()
      ensures id !in old(filteredColumns) ==> filteredColumns == old(filteredColumns) + [id] && !columnDropdownVisible
      ensures id in old(filteredColumns) ==>
        filteredColumns == old(filteredColumns) && columnDropdownVisible == old(columnDropdownVisible)
      ensures filterValues == old(filterValues)
    {
      if id !in filteredColumns {
        filteredColumns := filteredColumns + [id];
        columnDropdownVisible := false;
      }
    }

    /** The unit's remove button: drops exactly that id, keeping the others in order. */
    method RemoveFilteredColumn(id: string)
      requires Valid()
      modifies this
      ensures Valid()
      ensures filteredColumns == Without(old(filteredColumns), id)
      ensures id !in filteredColumns && IsSubsequence(filteredColumns, old(filteredColumns))
      ensures columnDropdownVisible == old(columnDropdownVisible) && filterValues == old(filterValues)
    {
      WithoutKeepsDistinct(filteredColumns, id);
      filteredColumns := Without(filteredColumns, id);
    }

    /** The add button. */
    method OpenPicker()
      requires Valid()
      modifies this
      ensures Valid()
      ensures columnDropdownVisible
      ensures filteredColumns == old(filteredColumns) && filterValues == old(filterValues)
    {
      columnDropdownVisible := true;
    }

    /** The picker's close button. */
    method HandleDropdownClose()
      requires Valid()
      modifies this
      ensures Valid()
      ensures !columnDropdownVisible
      ensures filteredColumns == old(filteredColumns) && filterValues == old(filterValues)
    {
      columnDropdownVisible := false;
    }
  }

  /** Removing a column's unit leaves its filter value in force. */
  method RemoveKeepsFilterValue(bar: FilterBarState, id: string)
    requires bar.Valid() && id in bar.filterValues
    modifies bar
    ensures id !in bar.filteredColumns
    ensures id in bar.filterValues && bar.filterValues[id] == old(bar.filterValues[id])
  {
    bar.RemoveFilteredColumn(id);
  }

  /** Adding a column and removing it again restores the list. */
  method AddThenRemove(bar: FilterBarState, id: string)
    requires bar.Valid() && id !in bar.filteredColumns
    modifies bar
    ensures bar.filteredColumns == old(bar.filteredColumns)
  {
    ghost var before := bar.filteredColumns;
    bar.AddFilteredColumn(id);
    bar.RemoveFilteredColumn(id);
    WithoutAppended(before, id);
  }
}
