# nui grid toolkit: a Dafny model of its UI-state core

nui is a React data-grid toolkit: a table (`NTable`) with bulk actions, a filter bar,
column settings, a pager and a row edit dialog, plus a combobox (`MultiSelect`), a
date-range picker (`Calendar`) and a floating panel (`DropdownPortal`). Most of it is
rendering. Under the rendering there is a small, sequential layer of state logic, and
this project models that layer and proves properties of it:

- how the combobox resolves an option's value and label, filters options by a search
  term, toggles, clears and removes values, and moves its keyboard highlight;
- the calendar's ISO weekdays, week and month presets, its 42-day month grid, the
  two-click range selection and month navigation;
- how the pager turns what the user types into a page index and a page size;
- the column settings panel: drag-and-drop reordering, the show-all toggle and the
  three-state header check box;
- the filter bar's list of filtered columns, and each filter unit's summary text and
  range editor;
- where the floating panel opens;
- the row edit dialog's sparse patch of changed fields;
- the grid's own flags, its system columns, the fetch argument and the loading rows;
- the demo data source that serves 125 generated orders a page at a time;
- the status cell's look-up of a value among the column's options.

Each source file of the core is one module. Two further modules model the
JavaScript semantics the code depends on. `Js` covers `??`, truthiness, `String(v)`,
`join`, `trim`, `toLowerCase` (for Latin and Cyrillic capitals) and `includes`. `JsArrays` covers `filter`, `indexOf`,
`find`, `splice` and `slice`, including how they treat negative indices. `Wrappers`
holds `Option`. `OutsideClick` models the `useOutsideClick` hook. `TableTypes` holds
the record types in `src/components/NTable/types.ts` and the filter kinds.

Values the code treats dynamically are `Js.JsValue`. A date is its day number counted
from 1970-01-01. `new Date(y, m, d)` is `Calendar.MakeDate`, which follows the Date
constructor of ECMAScript. A year from 0 to 99 means 1900 to 1999. An out-of-range
month is carried into the year by floor division. The day of the month is an offset
from the 1st, so `new Date(y, m + 1, 0)` is the last day of month `m`.

Components whose state the source keeps in `useState` are classes. Their fields are
that state, and their methods are the event handlers. The props a handler reads are
passed to it: a `Config` for the combobox, the column list and row for the edit
dialog. A handler's callback output (`onChange`, `setPageIndex`, `onSave`) is its
return value. Derived values (`useMemo`, `useCallback`) are functions.

Where the code behaves in a way a reader might not expect, the model follows the code
and a lemma or client method shows the behaviour:

- A drop whose drag data is not a column id removes the last column id
  (`ColumnSettings.ForeignDragDropsLastId`). The reason is that `indexOf` gives -1 and
  `splice(-1, 1)` counts from the end. The foreign id also enters the order, and the
  panel's next render looks it up among the columns with a non-null assertion, which
  then fails.
- In the edit dialog, each range edit starts again from the row's initial value, so
  earlier edits of the other bound are lost (`EditModal.RangeEditsDoNotAccumulate`).
- The edit dialog's "date-range" field is a single-date calendar. A click on a day
  stores one date (`EditModal.DateFieldStoresOneDate`). The preset links, shown in every
  mode, store a `{from, to}` range, and the clear link stores `null`
  (`EditModal.PresetStoresRange`).
- The grid never forwards sorting or filters to the fetch function. It passes
  `{pagination}` only (`NTable.FetchArgument`).
- Removing a filter unit leaves its filter value in force
  (`FilterBar.RemoveKeepsFilterValue`).
- ArrowDown on an empty option list sets the highlight to 0. The reset effect then
  sets it back to -1 (`MultiSelect.ArrowDownOnEmptyList`).
- The grid's outside-click hook for the column settings watches a ref that is never
  given to an element. A pointer-down therefore never closes the settings
  (`NTable.GridState.PointerDown`).
- A filter unit's outside-click hook closes the open panel on the pointer-down over
  its label. The click then toggles it open again
  (`FilterUnit.LabelClickOnOpenUnit`).
- Years 0 to 99 typed into the calendar's chooser show the months of 1900 to 1999
  (`Calendar.TwoDigitYearGrid`).

## Model

| member | source | states |
|---|---|---|
| TableTypes.HeaderLabel | src/components/NTable/components/generic/NFilterUnit/NFilterUnit.tsx:33-39 | a string header is used as is, even when empty; any other header falls back to the column id |
| MultiSelect.OptionLabel | src/components/MultiSelect/MultiSelect.tsx:68-71 | the renderer's text when a renderer is given; else the label field's text; an absent or nullish label gives `""` |
| MultiSelect.OptionValue | src/components/MultiSelect/MultiSelect.tsx:73-75 | the value field when present and not nullish, else the whole option; never nullish |
| MultiSelect.CurrentValues | src/components/MultiSelect/MultiSelect.tsx:77-82 | multiple mode: the array itself, or `[]` for a non-array; single mode: a one-element list exactly when the value is not nullish |
| MultiSelect.FilteredOptions | src/components/MultiSelect/MultiSelect.tsx:84-90 | all options for an empty term; otherwise an option is kept iff the custom search accepts it, or, without one, iff its lower-cased label contains the lower-cased term |
| MultiSelect.FilteredOptionsSubsequence | src/components/MultiSelect/MultiSelect.tsx:84-90 | the filtered list is an order-preserving subsequence of the options |
| MultiSelect.SelectedOptions | src/components/MultiSelect/MultiSelect.tsx:92-96 | exactly the options whose value is among the current values |
| MultiSelect.ToggleValues | src/components/MultiSelect/MultiSelect.tsx:98-103 | an absent value is appended at the end; a present value is removed (every occurrence), shortening the list; no other value changes membership |
| MultiSelect.ToggleTwice | src/components/MultiSelect/MultiSelect.tsx:98-103 | toggling twice restores the set of values, and restores the list itself when the value was absent |
| MultiSelect.ClearedValue | src/components/MultiSelect/MultiSelect.tsx:111-119 | the clear button emits `[]` in multiple mode and `null` in single mode |
| MultiSelect.RemovedValue | src/components/MultiSelect/MultiSelect.tsx:121-129 | multiple mode: the current values without that value, the others kept; single mode: `null` |
| MultiSelect.NextFocus | src/components/MultiSelect/MultiSelect.tsx:146-151 | ArrowDown moves to the next row and wraps from the last row to 0; the result lies in the list |
| MultiSelect.PrevFocus | src/components/MultiSelect/MultiSelect.tsx:152-157 | ArrowUp moves to the previous row and wraps from row 0, or from no row, to the last |
| MultiSelect.FocusCycle | src/components/MultiSelect/MultiSelect.tsx:146-157 | on a non-empty list ArrowUp undoes ArrowDown and ArrowDown undoes ArrowUp |
| MultiSelect.ResetFocus | src/components/MultiSelect/MultiSelect.tsx:168-173 | an index at or past the end of the filtered list becomes -1; others are kept |
| MultiSelect.ComboBox.constructor | src/components/MultiSelect/MultiSelect.tsx:62-64 | closed, empty search term, no highlighted row |
| MultiSelect.ComboBox.ToggleOption | src/components/MultiSelect/MultiSelect.tsx:98-109 | multiple mode emits the toggled list and keeps the panel; single mode emits the value, closes the panel and drops the search term |
| MultiSelect.ComboBox.ClickOption | src/components/MultiSelect/MultiSelect.tsx:262-265 | a disabled option ignores the click; otherwise the option's value is toggled |
| MultiSelect.ComboBox.ClearAll | src/components/MultiSelect/MultiSelect.tsx:111-119 | emits the cleared value and drops the search term |
| MultiSelect.ComboBox.SetSearchTerm | src/components/MultiSelect/MultiSelect.tsx:240 | the search field's text becomes the term; nothing else changes |
| MultiSelect.ComboBox.HoverOption | src/components/MultiSelect/MultiSelect.tsx:268 | the hovered row becomes the highlighted row |
| MultiSelect.ComboBox.DropdownToggle | src/components/MultiSelect/MultiSelect.tsx:189 | the panel is shown exactly as the dropdown asks |
| MultiSelect.ComboBox.PointerDown | src/components/MultiSelect/MultiSelect.tsx:175-184 | a pointer-down outside the component closes it and drops the search term; inside it changes nothing |
| MultiSelect.ComboBox.KeyDown | src/components/MultiSelect/MultiSelect.tsx:131-166 | closed: Enter/Space only open; open: Escape closes and clears the highlight, arrows move it cyclically, Enter/Space toggle the highlighted option only when one is highlighted |
| MultiSelect.ComboBox.SettleFocus | src/components/MultiSelect/MultiSelect.tsx:168-173 | after the effect the highlight is below the filtered list's length |
| MultiSelect.ArrowDownOnEmptyList | src/components/MultiSelect/MultiSelect.tsx:146-173 | on an empty list ArrowDown gives 0 and the reset effect turns it into -1 |
| Calendar.DaysInMonth | src/components/Calendar/Calendar.tsx:54 | month lengths of the Gregorian calendar, 28 to 31 |
| Calendar.FullYear | src/components/Calendar/Calendar.tsx:54 | the Date constructor reads years 0 to 99 as 1900 to 1999 and keeps every other year |
| Calendar.MakeDateInMonth | src/components/Calendar/Calendar.tsx:54 | `new Date(y, m, d)` for a month in range is day `d` of that month |
| Calendar.MakeDateOffset | src/components/Calendar/Calendar.tsx:107-109 | the days `new Date(y, m, d)` names are consecutive in `d` |
| Calendar.LeapStep | src/components/Calendar/Calendar.tsx:54 | the count of leap years grows by one exactly at a leap year |
| Calendar.YearLength | src/components/Calendar/Calendar.tsx:54 | a year has 366 days when it is a leap year and 365 otherwise |
| Calendar.MonthStep | src/components/Calendar/Calendar.tsx:54 | each month of a year starts the day after the previous one ends |
| Calendar.EndOfMonth | src/components/Calendar/Calendar.tsx:54 | day 0 of the next month is the last day of the month, across a year end too |
| Calendar.PreviousMonth | src/components/Calendar/Calendar.tsx:58-64 | `new Date(y, m - 1, 1)` to `new Date(y, m, 0)` is the whole previous month, December of the year before in January |
| Calendar.PreviousDecember | src/components/Calendar/Calendar.tsx:60-62 | in January, month -1 is the December of the year before |
| Calendar.WeekDay | src/components/Calendar/Calendar.tsx:19 | `getDay` is 0 to 6 |
| Calendar.IsoDay | src/components/Calendar/Calendar.tsx:18-21 | 1 to 7; Sunday is 7 and every other day keeps its `getDay` number |
| Calendar.WeekEarlier | src/components/Calendar/Calendar.tsx:38-48 | a day seven days earlier has the same ISO weekday |
| Calendar.MondayOfIsMonday | src/components/Calendar/Calendar.tsx:27-30 | stepping back `isoDay - 1` days reaches the Monday of the same week |
| Calendar.CurrentWeek | src/components/Calendar/Calendar.tsx:25-36 | starts on a Monday, ends six days later and contains today |
| Calendar.LastWeek | src/components/Calendar/Calendar.tsx:38-48 | the current week shifted back seven days, ending the day before it starts |
| Calendar.CurrentMonth | src/components/Calendar/Calendar.tsx:50-56 | the 1st to the last day of the month `new Date` reads for today's year and month; it contains today outside the years 0 to 99 |
| Calendar.LastMonth | src/components/Calendar/Calendar.tsx:58-64 | the 1st to the last day of the previous month, ending the day before the current month starts |
| Calendar.PresetValue | src/components/Calendar/Calendar.tsx:153-164 | a complete, ordered range whatever the mode; the current week contains today and last week ends before it; outside the years 0 to 99 so do the month presets |
| Calendar.ClearValue | src/components/Calendar/Calendar.tsx:166-168 | the clear link emits `null` whatever the mode |
| Calendar.RangeView | src/components/Calendar/Calendar.tsx:78-82 | in range mode a range value is used as is; anything else reads as two unset bounds |
| Calendar.SelectDay | src/components/Calendar/Calendar.tsx:86-100 | single mode emits the day; range mode starts a new range when no anchor is set or both bounds are, else completes an ordered range from the anchor and the day |
| Calendar.IsInRange | src/components/Calendar/Calendar.tsx:118-121 | false unless both bounds are set, otherwise the inclusive test |
| Calendar.IsSame | src/components/Calendar/Calendar.tsx:112-116 | true exactly when the bound is set to that day |
| Calendar.SecondClickCovers | src/components/Calendar/Calendar.tsx:96-99 | the completed range contains both the anchor and the clicked day and starts at the earlier one |
| Calendar.FirstClickHighlightsNothing | src/components/Calendar/Calendar.tsx:94-95 | after a first click no day is highlighted as in range |
| Calendar.Grid | src/components/Calendar/Calendar.tsx:104-110 | 42 consecutive days from the Monday on or before the 1st, holding every day of the month |
| Calendar.TwoDigitYearGrid | src/components/Calendar/Calendar.tsx:104-110 | a year from 0 to 99 shows the days of 1900 to 1999 |
| Calendar.MonthIndexInjective | src/components/Calendar/Calendar.tsx:124-148 | a month and year are determined by their position in the month sequence |
| Calendar.CalendarView.constructor | src/components/Calendar/Calendar.tsx:71-76 | opens on today's month with the chooser closed and preset to it |
| Calendar.CalendarView.NextMonth | src/components/Calendar/Calendar.tsx:124-135 | one month later, December wrapping to January of the next year |
| Calendar.CalendarView.PrevMonth | src/components/Calendar/Calendar.tsx:137-148 | one month earlier, January wrapping to December of the year before |
| Calendar.CalendarView.OpenChooser | src/components/Calendar/Calendar.tsx:232-238 | opens the chooser preset to the shown month and year |
| Calendar.CalendarView.ChooseMonth | src/components/Calendar/Calendar.tsx:179-182 | the chooser's month becomes the picked one |
| Calendar.CalendarView.ChooseYear | src/components/Calendar/Calendar.tsx:193-197 | the chooser's year becomes the typed one |
| Calendar.CalendarView.CancelChooser | src/components/Calendar/Calendar.tsx:202-205 | closes the chooser and keeps the shown month |
| Calendar.CalendarView.ApplyChooser | src/components/Calendar/Calendar.tsx:209-215 | shows the chosen month and year and closes the chooser |
| Calendar.ForwardThenBack | src/components/Calendar/Calendar.tsx:124-148 | next month and then previous month show the same month again |
| Pagination.DecimalInput | src/components/NTable/components/generic/NTablePagination/NTablePagination.tsx:22-28 | a digit string is empty or reads as its decimal number |
| Pagination.PageIndexFor | src/components/NTable/components/generic/NTablePagination/NTablePagination.tsx:21-35 | empty or non-numeric input gives 0; the index is at least 0 and at most pageCount-1; 1 <= v <= pageCount gives v-1 and a larger v gives pageCount-1 |
| Pagination.PageSizeFor | src/components/NTable/components/generic/NTablePagination/NTablePagination.tsx:37-50 | a non-negative number is kept; empty, non-numeric and negative input give 0 |
| Pagination.RetypeDisplayedPage | src/components/NTable/components/generic/NTablePagination/NTablePagination.tsx:19-32 | typing the shown page number back keeps the current index |
| Pagination.RetypeDisplayedText | src/components/NTable/components/generic/NTablePagination/NTablePagination.tsx:19-32 | the same, starting from the decimal text the input shows |
| Pagination.ClampIdempotent | src/components/NTable/components/generic/NTablePagination/NTablePagination.tsx:32 | after any input, retyping the page shown changes nothing |
| Pagination.PageSizeIdempotent | src/components/NTable/components/generic/NTablePagination/NTablePagination.tsx:48 | a page size that was set reads back as itself |
| ColumnSettings.RemoveAt | src/components/NTable/components/generic/ColumnSettings/ColumnSettings.tsx:40 | removing one entry shortens the list by one |
| ColumnSettings.ReorderShape | src/components/NTable/components/generic/ColumnSettings/ColumnSettings.tsx:36-41 | with both ids present, the drop removes the dragged id and inserts it at the target's original index |
| ColumnSettings.ReorderIsPermutation | src/components/NTable/components/generic/ColumnSettings/ColumnSettings.tsx:36-41 | with both ids present, the new order has the same length and the same ids |
| ColumnSettings.DraggedLandsOnTargetIndex | src/components/NTable/components/generic/ColumnSettings/ColumnSettings.tsx:37-41 | the dragged id ends at the target's original index |
| ColumnSettings.OthersKeepTheirOrder | src/components/NTable/components/generic/ColumnSettings/ColumnSettings.tsx:37-41 | every other id keeps its relative order |
| ColumnSettings.ForeignDragDropsLastId | src/components/NTable/components/generic/ColumnSettings/ColumnSettings.tsx:37-41 | drag data that is not a column id enters the order and the last column id is lost |
| ColumnSettings.ForeignReorderContents | src/components/NTable/components/generic/ColumnSettings/ColumnSettings.tsx:37-41 | with a foreign drag id the new order has the old length and holds that id in place of the last entry |
| ColumnSettings.InsertMultiset | src/components/NTable/components/generic/ColumnSettings/ColumnSettings.tsx:41 | an insertion adds exactly the inserted id |
| ColumnSettings.RemoveAtMultiset | src/components/NTable/components/generic/ColumnSettings/ColumnSettings.tsx:40 | a removal takes away exactly the removed id |
| ColumnSettings.HeaderState | src/components/NTable/components/generic/ColumnSettings/ColumnSettings.tsx:19-20 | checked iff every column is visible; indeterminate iff some are and some are not; unchecked iff there are columns and none is visible |
| ColumnSettings.ColumnTitle | src/components/NTable/components/generic/ColumnSettings/ColumnSettings.tsx:99-102 | a non-empty string header, otherwise the column id |
| ColumnSettings.TitleVersusHeaderLabel | src/components/NTable/components/generic/ColumnSettings/ColumnSettings.tsx:99-102 | the panel's title differs from the filter and edit labels exactly for an empty string header |
| ColumnSettings.ColumnSettingsPanel.constructor | src/components/NTable/components/generic/ColumnSettings/ColumnSettings.tsx:15-17 | the list starts in the table's leaf-column order |
| ColumnSettings.ColumnSettingsPanel.ToggleAll | src/components/NTable/components/generic/ColumnSettings/ColumnSettings.tsx:22-25 | hides every column when all are shown, otherwise shows every column; the order is untouched |
| ColumnSettings.ColumnSettingsPanel.ToggleColumn | src/components/NTable/components/generic/ColumnSettings/ColumnSettings.tsx:116-117 | flips that column's visibility only |
| ColumnSettings.ColumnSettingsPanel.HandleDrop | src/components/NTable/components/generic/ColumnSettings/ColumnSettings.tsx:32-45 | empty drag data or a drop on itself changes nothing; otherwise the reordered list becomes both the panel's and the table's order |
| ColumnSettings.ToggleAllSettlesHeader | src/components/NTable/components/generic/ColumnSettings/ColumnSettings.tsx:79-81 | after the header toggle the header is never indeterminate, and is checked unless it was |
| FilterBar.WithoutKeepsDistinct | src/components/NTable/components/generic/NFilterBar/NFilterBar.tsx:53-55 | removing an id keeps the ids pairwise distinct |
| FilterBar.PickerEntries | src/components/NTable/components/generic/NFilterBar/NFilterBar.tsx:22-25 | the picker offers every filterable header of every group and nothing else |
| FilterBar.FilterBarState.constructor | src/components/NTable/components/generic/NFilterBar/NFilterBar.tsx:45-58 | no filtered columns and the picker closed |
| FilterBar.FilterBarState.AddFilteredColumn | src/components/NTable/components/generic/NFilterBar/NFilterBar.tsx:46-51 | a new id is appended and the picker closes; a repeated id changes nothing; ids stay distinct |
| FilterBar.FilterBarState.RemoveFilteredColumn | src/components/NTable/components/generic/NFilterBar/NFilterBar.tsx:53-55 | exactly that id is removed and the rest keep their order and multiplicity; the picker and the filter values are untouched |
| FilterBar.FilterBarState.OpenPicker | src/components/NTable/components/generic/NFilterBar/NFilterBar.tsx:75 | the add button opens the picker |
| FilterBar.FilterBarState.HandleDropdownClose | src/components/NTable/components/generic/NFilterBar/NFilterBar.tsx:60-62 | the close button closes the picker |
| FilterBar.RemoveKeepsFilterValue | src/components/NTable/components/generic/NFilterBar/NFilterBar.tsx:53-55 | a removed column's filter value stays in force |
| FilterBar.AddThenRemove | src/components/NTable/components/generic/NFilterBar/NFilterBar.tsx:46-55 | adding a new column and removing it again restores the list |
| FilterUnit.FilterTypeOf | src/components/NTable/components/generic/NFilterUnit/NFilterUnit.tsx:31 | a column without a filter type filters as text |
| FilterUnit.DashSurvivesTrim | src/components/NTable/components/generic/NFilterUnit/NFilterUnit.tsx:70-78 | trimming a range summary never removes the separator's dash |
| FilterUnit.RangeSummary | src/components/NTable/components/generic/NFilterUnit/NFilterUnit.tsx:70-78 | a range summary always holds the dash and starts and ends with no white space |
| FilterUnit.FormatShaped | src/components/NTable/components/generic/NFilterUnit/NFilterUnit.tsx:64-81 | a date or numeric range always shows the dash, with no white space at either end; any other type shows nothing |
| FilterUnit.FormatValue | src/components/NTable/components/generic/NFilterUnit/NFilterUnit.tsx:53-82 | nullish or empty text shows nothing; an array its elements joined by ", "; a string or number its text; any other value by its filter type |
| FilterUnit.TrimBareSeparator | src/components/NTable/components/generic/NFilterUnit/NFilterUnit.tsx:70-78 | the separator alone trims to the dash |
| FilterUnit.EmptyBoundsShowDash | src/components/NTable/components/generic/NFilterUnit/NFilterUnit.tsx:65-79 | a range of either kind with no usable bound shows just "—" |
| FilterUnit.RangeBase | src/components/NTable/components/generic/NFilterUnit/NFilterUnit.tsx:134-137 | a nullish value starts the editor from two empty bounds |
| FilterUnit.RangeWith | src/components/NTable/components/generic/NFilterUnit/NFilterUnit.tsx:144-160 | the edited bound holds the number typed, or "" for an emptied field; the other bound and every other key are kept |
| FilterUnit.EditBothBounds | src/components/NTable/components/generic/NFilterUnit/NFilterUnit.tsx:144-160 | editing one bound and then the other keeps both edits |
| FilterUnit.EditShowsBack | src/components/NTable/components/generic/NFilterUnit/NFilterUnit.tsx:143-154 | the edited input shows back the number typed |
| FilterUnit.FirstEditSummary | src/components/NTable/components/generic/NFilterUnit/NFilterUnit.tsx:74-79 | typing 5 into "from" of a cleared range shows "5 —" |
| FilterUnit.TrimNumberDash | src/components/NTable/components/generic/NFilterUnit/NFilterUnit.tsx:78 | "5 — " trims to "5 —" |
| FilterUnit.FilterUnitState.constructor | src/components/NTable/components/generic/NFilterUnit/NFilterUnit.tsx:31-44 | the unit starts closed with the defaulted filter type |
| FilterUnit.FilterUnitState.ToggleOpen | src/components/NTable/components/generic/NFilterUnit/NFilterUnit.tsx:189 | a click on the label flips the panel |
| FilterUnit.FilterUnitState.PointerDown | src/components/NTable/components/generic/NFilterUnit/NFilterUnit.tsx:46-49 | a pointer-down outside the open panel closes it; otherwise nothing changes |
| FilterUnit.FilterUnitState.ClearValue | src/components/NTable/components/generic/NFilterUnit/NFilterUnit.tsx:195 | the X button sets the value to `null` |
| FilterUnit.FilterUnitState.Update | src/components/NTable/components/generic/NFilterUnit/NFilterUnit.tsx:88-173 | an open unit's text, multi-line, select and calendar editors store their value as is; a range unit has the range editor instead |
| FilterUnit.FilterUnitState.EditRange | src/components/NTable/components/generic/NFilterUnit/NFilterUnit.tsx:133-164 | a range input of an open range unit stores the range with that bound edited |
| FilterUnit.ClearShowsNothing | src/components/NTable/components/generic/NFilterUnit/NFilterUnit.tsx:192-195 | after the X button the summary is empty |
| FilterUnit.LabelClickOnOpenUnit | src/components/NTable/components/generic/NFilterUnit/NFilterUnit.tsx:185-201 | a click on the label of an open unit leaves it open |
| DropdownPortal.PositionFor | src/components/DropDownPortal/DropDownPortal.tsx:12-31 | no anchor keeps the position; else the panel opens 6 px below the anchor, left-aligned when it fits, right-aligned with the anchor otherwise |
| DropdownPortal.RightEdgeInside | src/components/DropDownPortal/DropDownPortal.tsx:20-25 | an anchor inside the viewport keeps the panel's right edge inside it |
| DropdownPortal.NeverRightOfAnchor | src/components/DropDownPortal/DropDownPortal.tsx:20-25 | the panel never starts right of the anchor's left edge |
| DropdownPortal.NoAnchorStaysAtOrigin | src/components/DropDownPortal/DropDownPortal.tsx:10-14 | without an anchor the panel stays at the top-left corner |
| DropdownPortal.FlipCanStartOffScreen | src/components/DropDownPortal/DropDownPortal.tsx:23-25 | a flipped panel can start left of the screen |
| EditModal.EditableColumns | src/components/NTable/components/modals/EditModal.tsx:159-167 | exactly the columns marked editable; a missing flag means not editable |
| EditModal.EditableColumnsInOrder | src/components/NTable/components/modals/EditModal.tsx:159-167 | the editable columns keep the table order |
| EditModal.EditLabel | src/components/NTable/components/modals/EditModal.tsx:160-163 | a string header, otherwise the column id |
| EditModal.GetInitial | src/components/NTable/components/modals/EditModal.tsx:39-45 | the row's value for the column, or `undefined` when the look-up throws |
| EditModal.ShownText | src/components/NTable/components/modals/EditModal.tsx:57 | the patch value if not nullish, else the initial value if not nullish, else "" |
| EditModal.RangeInit | src/components/NTable/components/modals/EditModal.tsx:77-80 | a non-null object initial value, otherwise two empty bounds |
| EditModal.RangeEdit | src/components/NTable/components/modals/EditModal.tsx:88-104 | the edited bound holds the text typed and the other bound comes from the initial value |
| EditModal.EditorKeyIsEditable | src/components/NTable/components/modals/EditModal.tsx:47-53 | a key that has an editor is an editable field |
| EditModal.OneEditorPerColumn | src/components/NTable/components/modals/EditModal.tsx:50-53 | with distinct ids, a column has an editor exactly when it is editable, and that editor is the one its filter type (text when absent) names |
| EditModal.CalendarEmit | src/components/NTable/components/modals/EditModal.tsx:116 | no value is stored as `null`, a date as that date, and a range as a `{from, to}` object whose bounds are dates or `null` |
| EditModal.DateFieldStoresOneDate | src/components/NTable/components/modals/EditModal.tsx:109-118 | a click on a day in the date-range field stores one date, not a range |
| EditModal.PresetStoresRange | src/components/NTable/components/modals/EditModal.tsx:109-118 | a preset link stores an object whose from and to are both dates, in order; the clear link stores `null` |
| EditModal.EditSession.constructor | src/components/NTable/components/modals/EditModal.tsx:32 | the patch starts empty |
| EditModal.EditSession.SetField | src/components/NTable/components/modals/EditModal.tsx:35-37 | replaces exactly one key; the patch keeps naming editable fields only |
| EditModal.EditSession.EditText | src/components/NTable/components/modals/EditModal.tsx:54-73 | only a text or multi-line column's editor stores the text typed |
| EditModal.EditSession.EditRange | src/components/NTable/components/modals/EditModal.tsx:76-107 | only a range column's input stores the initial range with that bound replaced |
| EditModal.EditSession.EditDate | src/components/NTable/components/modals/EditModal.tsx:109-118 | a click on a day in a date-range column's calendar stores that date |
| EditModal.EditSession.EditDatePreset | src/components/NTable/components/modals/EditModal.tsx:109-118 | a preset link in a date-range column's calendar stores that preset's range in the patch |
| EditModal.EditSession.ClearDate | src/components/NTable/components/modals/EditModal.tsx:109-118 | the clear link of a date-range column's calendar stores `null` in the patch |
| EditModal.EditSession.EditSelect | src/components/NTable/components/modals/EditModal.tsx:120-142 | a select or multi-select column's combobox output is stored as is |
| EditModal.EditSession.Save | src/components/NTable/components/modals/EditModal.tsx:179 | hands over exactly the patch, which names editable fields only |
| EditModal.RangeEditsDoNotAccumulate | src/components/NTable/components/modals/EditModal.tsx:77-104 | after editing "from" and then "to", "from" is the initial one again |
| EditModal.EditShows | src/components/NTable/components/modals/EditModal.tsx:57-59 | an edit shows in its editor and leaves other editors as they were |
| NTable.Present | src/components/NTable/NTable.tsx:50 | `.filter(Boolean)` keeps exactly the present entries: each result is present in the input, and each present input entry is in the result |
| NTable.SystemColumns | src/components/NTable/NTable.tsx:34-50 | the selection column first, then the edit column iff editing is enabled; none resizable |
| NTable.AllColumnIds | src/components/NTable/NTable.tsx:64 | the ids of the system columns first, in their order (the selection column, then the edit column when editing is enabled), then the caller's column ids |
| NTable.FetchArgument | src/components/NTable/NTable.tsx:58 | the fetch receives an object holding only `pagination`; sorting and filters are absent |
| NTable.QueryKeySeparatesPages | src/components/NTable/NTable.tsx:57 | two queries share a cache key iff their key and pagination agree |
| NTable.FirstLoadOfDemoData | src/components/NTable/NTable.tsx:52-58 | with the demo source the first load shows orders 1 to 20 of 125 |
| NTable.TotalOf | src/components/NTable/NTable.tsx:79 | the total is 0 until a page has arrived |
| NTable.BodyRows | src/components/NTable/NTable.tsx:174-196 | while loading, ten skeleton rows with a cell per visible column; otherwise one row per data row |
| NTable.GridState.constructor | src/components/NTable/NTable.tsx:52-55 | no action open, filters and settings hidden, pagination `{0, 20}` |
| NTable.GridState.ToggleAction | src/components/NTable/NTable.tsx:125-129 | opens that action's dialog, or closes it when it is the open one |
| NTable.GridState.CloseAction | src/components/NTable/NTable.tsx:134 | no action dialog is open |
| NTable.GridState.ToggleFilters | src/components/NTable/NTable.tsx:107 | flips the filter bar |
| NTable.GridState.OpenColumnSettings | src/components/NTable/NTable.tsx:102 | shows the column settings |
| NTable.GridState.CloseColumnSettings | src/components/NTable/NTable.tsx:114 | hides the column settings |
| NTable.GridState.PointerDown | src/components/NTable/NTable.tsx:86-89 | the settings' outside-click hook never fires, so nothing changes |
| NTable.GridState.Refetch | src/components/NTable/NTable.tsx:96 | starts a refetch exactly when the first load is not pending |
| NTable.GridState.SetPagination | src/components/NTable/NTable.tsx:68 | the table's reported pagination is stored |
| NTable.SameActionTwice | src/components/NTable/NTable.tsx:125-129 | two clicks on one action open and then close its dialog |
| MockQuery.MockItem | src/lib/mockQueryFunctions.ts:7-24 | item i has id i+1 and the (i mod 3)-th of the three statuses |
| MockQuery.AllItems | src/lib/mockQueryFunctions.ts:6-7 | 125 items, item i at position i |
| MockQuery.ClippedSlice | src/lib/mockQueryFunctions.ts:25-27 | the slice from a non-negative start has the clipped length and the items from the start on |
| MockQuery.FetchOrdersFake | src/lib/mockQueryFunctions.ts:3-33 | total 125; for a non-negative index and size, min(size, max(0, 125 - start)) items from start = index * size |
| MockQuery.FetchedPage | src/lib/mockQueryFunctions.ts:25-27 | the page is the clipped run of items from the start |
| MockQuery.EmptyPageSize | src/lib/mockQueryFunctions.ts:25-27 | page size 0 gives an empty page |
| MockQuery.PageIds | src/lib/mockQueryFunctions.ts:8 | the ids on a page are start+1, start+2, ... in order |
| MockQuery.ConsecutivePagesAdjacent | src/lib/mockQueryFunctions.ts:25-27 | a full page is followed on the next page by the next ids |
| MockQuery.ConsecutivePagesDisjoint | src/lib/mockQueryFunctions.ts:25-27 | consecutive pages of one size share no order |
| MockQuery.NumbersUnique | src/lib/mockQueryFunctions.ts:9 | distinct items carry distinct numbers |
| MockQuery.Periodic | src/lib/mockQueryFunctions.ts:10-15 | companies repeat every 7 items, statuses every 3, asset groups every 15 |
| StatusCell.StatusCellView | src/components/NTable/components/cells/NReadMoreCell/NReadMoreCell.tsx:4-17 | the first option with the cell's value supplies colour and label, each defaulting to grey and to the value's text; with no match, both defaults |
| StatusCell.MissingOptionsShowDefaults | src/components/NTable/components/cells/NReadMoreCell/NReadMoreCell.tsx:6-17 | missing options behave as an empty list: grey, under the value's own text |
| StatusCell.BareOptionShowsDefaults | src/components/NTable/components/cells/NReadMoreCell/NReadMoreCell.tsx:16-17 | a match without colour or label looks like no match |
| StatusCell.LaterOptionsIgnored | src/components/NTable/components/cells/NReadMoreCell/NReadMoreCell.tsx:14 | options after the first match are never consulted |
| Js.NatToString | src/components/NTable/components/generic/NFilterUnit/NFilterUnit.tsx:61 | decimal digits without leading zeros |
| Js.ParseNatToString | src/components/NTable/components/generic/NTablePagination/NTablePagination.tsx:28 | reading back the decimal text of a number yields the number |
| Js.NatToStringInjective | src/components/NTable/components/generic/NFilterUnit/NFilterUnit.tsx:61 | distinct numbers render as distinct text |
| Js.IntToString | src/components/NTable/components/generic/NFilterUnit/NFilterUnit.tsx:61 | `String(n)`: digits, with a leading minus for a negative number |
| Js.TrimStart | src/components/NTable/components/generic/NFilterUnit/NFilterUnit.tsx:70 | drops exactly the leading white space |
| Js.TrimEnd | src/components/NTable/components/generic/NFilterUnit/NFilterUnit.tsx:70 | drops exactly the trailing white space |
| Js.Trim | src/components/NTable/components/generic/NFilterUnit/NFilterUnit.tsx:70 | the infix left after cutting only white space off both ends, itself without white space at either end (empty for an all-space text) |
| Js.TrimIsStartOfEnd | src/components/NTable/components/generic/NFilterUnit/NFilterUnit.tsx:78 | trimming both ends is trimming the end and then the start |
| Js.ToLower | src/components/MultiSelect/MultiSelect.tsx:88 | each capital of Basic Latin, Latin-1 Supplement, Latin Extended-A (except U+0130) and Cyrillic U+0400-U+04FF becomes its small letter; every other code point, and the length, are kept |
| Js.ToLowerIdempotent | src/components/MultiSelect/MultiSelect.tsx:88 | lower-casing twice is lower-casing once |
| Js.AccentedCapitalFolds | src/components/MultiSelect/MultiSelect.tsx:88 | the term "é" is found in the label "École" |
| Js.Includes | src/components/MultiSelect/MultiSelect.tsx:88 | true iff the text occurs at some offset |
| JsArrays.Filter | src/components/MultiSelect/MultiSelect.tsx:86-89 | keeps exactly the elements satisfying the test |
| JsArrays.FilterIsSubsequence | src/components/MultiSelect/MultiSelect.tsx:86-89 | filtering keeps the order of what it keeps |
| JsArrays.FilterAll | src/components/MultiSelect/MultiSelect.tsx:85 | a test that accepts everything keeps the list |
| JsArrays.FilterCount | src/components/MultiSelect/MultiSelect.tsx:86-89 | an accepted element is kept as often as it occurs, a rejected one not at all |
| JsArrays.Without | src/components/MultiSelect/MultiSelect.tsx:100 | the list minus every occurrence of one value: an order-preserving subsequence in which every other value occurs as often as before |
| JsArrays.WithoutShorter | src/components/MultiSelect/MultiSelect.tsx:100 | removing a present value shortens the list |
| JsArrays.WithoutAppended | src/components/NTable/components/generic/NFilterBar/NFilterBar.tsx:48-54 | removing a value just appended to a list without it restores the list |
| JsArrays.IndexOf | src/components/NTable/components/generic/ColumnSettings/ColumnSettings.tsx:37-38 | the first position of the value, or -1 exactly when absent |
| JsArrays.FindIndex | src/components/NTable/components/cells/NReadMoreCell/NReadMoreCell.tsx:14 | the first position satisfying the test, or -1 exactly when none does |
| JsArrays.RelativeIndex | src/components/NTable/components/generic/ColumnSettings/ColumnSettings.tsx:40-41 | a negative index counts from the end and is clamped at 0; an index past the end gives the length; an index within the list is kept |
| JsArrays.Slice | src/lib/mockQueryFunctions.ts:27 | within bounds, exactly the elements from start to end |

## Left out

- FilteredOptions: the case-insensitive match folds only the capitals `Js.ToLower` covers. Greek (whose final sigma depends on context), Armenian, Georgian, Latin Extended-B and later blocks, and U+0130 (whose lower case is two code points) stay as they are, so a search can drop an option whose label differs from the term only in the case of such a letter, which JavaScript keeps.
- ToLower: covers Basic Latin, Latin-1 Supplement, Latin Extended-A except U+0130, and Cyrillic U+0400-U+04FF; other scripts and length-changing mappings are not modelled, because full Unicode case mapping tables are out of proportion to the search they serve.
- Rendering: JSX, CSS classes, the react-bootstrap and lucide components and `createPortal` are not modelled. Only the state and the values handed to callbacks are.
- The `setTimeout` that focuses the search field after the panel opens is left out. Timers are not modelled.
- DOM events are abstract. A pointer-down is a flag saying whether its target lies inside the watched element, so `contains` and the listeners' registration are not modelled.
- The column settings' drag-over autoscroll is left out: it only scrolls the container.
- Table-library internals are inputs or left out: `getPageCount`, `setPageIndex`, row selection, column sizing, the first/previous/next/last pager buttons, `getCanFilter` and the visibility flags. `GridState.SetPagination` stands for the library's pagination callback.
- react-query's caching, `placeholderData` and the fetch's asynchrony are not modelled. The demo source's 300 ms delay is left out.
- `Number(raw)` is modelled on empty, not-a-number and integer inputs only. Fractions, exponents, whitespace and infinities are not.
- `Calendar.CalendarView.ChooseYear` takes the year as an integer. The typed text's conversion, where an emptied field reads as year 0, is not modelled.
- Numbers are integers throughout. Pixel coordinates are whole pixels.
- Time of day is not modelled: a date is a whole day. The week presets keep the clock's time of day, so the source compares their Monday below `from`. That Monday loses its in-range highlight, though it is still marked as the range start. Day numbers cannot show this.
- The Monday of the current week is taken from the clock reading's own day number. Time zones and daylight saving are not modelled.
- `toLocaleDateString("ru")`, `toLocaleString` month names and `Date.prototype.toString` depend on the host's locale and time zone. They are the function parameters `loc` and `dateText`.
- The grid's dimming of days outside the shown month is left out. It is a style class only.
- `===` on objects compares identity in JavaScript. The model compares structurally, as the option and status look-ups do after a round trip through props.
- Object spread of a string or an array copies index keys in JavaScript. The model spreads only plain objects, and anything else spreads to `{}`.
- `MultiSelect.OptionLabel`: `renderOptionLabel` returns a React node in the source. The model takes it to return its text.
- The mock items' extra `creation_datetime` property is not part of `TableTypes.Order`, which follows the declared type.
- The edit dialog's fallback editor for an unknown filter type is left out, because the declared filter types make it unreachable.
- The select editors in the edit dialog and the filter unit hand the combobox's output to `EditSelect` / `Update` unchanged. The combobox itself is modelled in `MultiSelect`.
- `enableEdit` and the other optional flags are booleans. An absent flag is `false`.
- `NDateCell`, `NTagsCell`, `NCell`, `TagPill`, `NHoverButton`, `IndeterminateCheckbox`, `NEditCell`, `ExportModal`, `AnalyzeModal` and the analytics page are not modelled. They are rendering or thin wrappers over the table library.
- The floating panel's position is computed once when it mounts, as in the source. Scrolling and resizing are not modelled.
