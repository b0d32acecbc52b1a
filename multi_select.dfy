/**
 * The combobox behind every select editor: value and label resolution of options,
 * the current selection as a list, search filtering, the toggle/clear/remove
 * operations and the keyboard focus state machine.
 */
module MultiSelect {
  import opened Wrappers
  import opened Js
  import opened JsArrays
  import opened OutsideClick

  /** An option is a record; which fields hold its value and label is configurable. */
  type SelectOption = map<string, JsValue>

  /** The component's props that the logic reads. */
  datatype Config = Config(
    options: seq<SelectOption>,
    value: JsValue,
    multiple: bool,
    labelField: Option<string>,
    valueField: Option<string>,
    renderOptionLabel: Option<SelectOption -> string>,
    customSearch: Option<(SelectOption, string) -> bool>,
    dateText: int -> string)
  {
    /** The label field, `"label"` when the prop is not given. */
    function LabelField(): string { labelField.GetOr("label") }

    /** The value field, `"value"` when the prop is not given. */
    function ValueField(): string { valueField.GetOr("value") }
  }

  /** What a handler passes to `onChange`, if anything. */
  datatype Change =
    | NoChange
    | EmitValues(values: seq<JsValue>)  // multiple mode: the new value list
    | EmitValue(v: JsValue)             // single mode: the new value, `Null` for none

  /* ---------------- option resolution ---------------- */

  /** The text shown for an option: the renderer's text if one is given, else the label field. */
  function OptionLabel(c: Config, o: SelectOption): (r: string)
    ensures c.renderOptionLabel.Some? ==> r == c.renderOptionLabel.value(o)
    ensures c.renderOptionLabel.None? && c.LabelField() !in o ==> r == ""
    ensures c.renderOptionLabel.None? && c.LabelField() in o && IsNullish(o[c.LabelField()]) ==> r == ""
    ensures c.renderOptionLabel.None? && c.LabelField() in o && !IsNullish(o[c.LabelField()])
      ==> r == ToString(o[c.LabelField()], c.dateText)
  {
    if c.renderOptionLabel.Some? then c.renderOptionLabel.value(o)
    else ToString(Coalesce(Get(Obj(o), c.LabelField()), Str("")), c.dateText)
  }

  /** The value an option stands for: its value field, or the whole option when that is absent. */
  function OptionValue(c: Config, o: SelectOption): (r: JsValue)
    ensures c.ValueField() in o && !IsNullish(o[c.ValueField()]) ==> r == o[c.ValueField()]
    ensures (c.ValueField() !in o || IsNullish(o[c.ValueField()])) ==> r == Obj(o)
    ensures !IsNullish(r)
  {
    Coalesce(Get(Obj(o), c.ValueField()), Obj(o))
  }

  /** The selection as a list: the array in multiple mode, a one-element list in single mode. */
  function CurrentValues(c: Config): (r: seq<JsValue>)
    ensures c.multiple && c.value.Arr? ==> r == c.value.items
    ensures c.multiple && !c.value.Arr? ==> r == []
    ensures !c.multiple ==> |r| <= 1 && (r == [] <==> IsNullish(c.value))
    ensures !c.multiple && r != [] ==> r[0] == c.value
  {
    if c.multiple then (if c.value.Arr? then c.value.items else [])
    else if !IsNullish(c.value) then [c.value] else []
  }

  /** Whether an option's label contains the search term, ignoring case. */
  predicate LabelMatches(c: Config, o: SelectOption, term: string) {
    Includes(ToLower(OptionLabel(c, o)), ToLower(term))
  }

  /** The options offered for a search term. */
  function FilteredOptions(c: Config, term: string): (r: seq<SelectOption>)
    ensures |r| <= |c.options|
    ensures term == "" ==> r == c.options
    ensures term != "" && c.customSearch.Some? ==>
      forall i :: 0 <= i < |c.options| ==>
        (c.options[i] in r <==> c.customSearch.value(c.options[i], term))
    ensures term != "" && c.customSearch.None? ==>
      forall i :: 0 <= i < |c.options| ==>
        (c.options[i] in r <==> LabelMatches(c, c.options[i], term))
  {
    if term == "" then c.options
    else if c.customSearch.Some? then
      var search := c.customSearch.value;
      Filter(c.options, (o: SelectOption) => search(o, term))
    else
      Filter(c.options, (o: SelectOption) => LabelMatches(c, o, term))
  }

  /** Search never reorders or invents options. */
  lemma FilteredOptionsSubsequence(c: Config, term: string)
    ensures IsSubsequence(FilteredOptions(c, term), c.options)
  {
    if term == "" {
      FilterAll(c.options, (o: SelectOption) => true);
      FilterIsSubsequence(c.options, (o: SelectOption) => true);
    } else if c.customSearch.Some? {
      var search := c.customSearch.value;
      FilterIsSubsequence(c.options, (o: SelectOption) => search(o, term));
    } else {
      FilterIsSubsequence(c.options, (o: SelectOption) => LabelMatches(c, o, term));
    }
  }

  /** The options whose value is currently selected, in option order. */
  function SelectedOptions(c: Config): (r: seq<SelectOption>)
    ensures forall i :: 0 <= i < |r| ==> r[i] in c.options && OptionValue(c, r[i]) in CurrentValues(c)
    ensures forall i :: 0 <= i < |c.options| ==>
      (OptionValue(c, c.options[i]) in CurrentValues(c) ==> c.options[i] in r)
  {
    var current := CurrentValues(c);
    Filter(c.options, (o: SelectOption) => OptionValue(c, o) in current)
  }

  /* ---------------- selection operations ---------------- */

  /** The new value list when `v` is toggled in multiple mode. */
  function ToggleValues(s: seq<JsValue>, v: JsValue): (r: seq<JsValue>)
    ensures v !in s ==> r == s + [v]
    ensures v in s ==> v !in r && |r| < |s|
    ensures forall x :: x != v ==> (x in r <==> x in s)
  {
    if v in s then
      var r := Without(s, v);
      WithoutShorter(s, v);
      r
    else s + [v]
  }

  /** Toggling twice gives back the same set of values, and the same list when `v` was absent. */
  lemma ToggleTwice(s: seq<JsValue>, v: JsValue)
    ensures (set x | x in ToggleValues(ToggleValues(s, v), v)) == (set x | x in s)
    ensures v !in s ==> ToggleValues(ToggleValues(s, v), v) == s
  {
    if v !in s {
      assert v in s + [v];
      WithoutAppended(s, v);
    }
  }

  /** What the clear button emits. */
  function ClearedValue(c: Config): (r: Change)
    ensures c.multiple ==> r == EmitValues([])
    ensures !c.multiple ==> r == EmitValue(Null)
  {
    if c.multiple then EmitValues([]) else EmitValue(Null)
  }

  /** What a badge's remove icon emits for `v`. */
  function RemovedValue(c: Config, v: JsValue): (r: Change)
    ensures c.multiple ==> r.EmitValues? && v !in r.values
    ensures c.multiple ==> forall x :: x != v ==> (x in r.values <==> x in CurrentValues(c))
    ensures !c.multiple ==> r == EmitValue(Null)
  {
    if c.multiple then EmitValues(Without(CurrentValues(c), v)) else EmitValue(Null)
  }

  /* ---------------- keyboard focus ---------------- */

  /** ArrowDown: the next index, wrapping from the last option (or beyond) to the first. */
  function NextFocus(prev: int, n: nat): (r: int)
    ensures n > 0 && -1 <= prev < n ==> 0 <= r < n
    ensures prev >= n - 1 ==> r == 0
    ensures n > 0 && -1 <= prev < n - 1 ==> r == prev + 1
  {
    if prev < n - 1 then prev + 1 else 0
  }

  /** ArrowUp: the previous index, wrapping from the first option (or none) to the last. */
  function PrevFocus(prev: int, n: nat): (r: int)
    ensures n > 0 && -1 <= prev < n ==> 0 <= r < n
    ensures prev <= 0 ==> r == n - 1
    ensures prev > 0 ==> r == prev - 1
  {
    if prev > 0 then prev - 1 else n - 1
  }

  /** On a non-empty list, ArrowUp undoes ArrowDown and ArrowDown undoes ArrowUp. */
  lemma FocusCycle(i: int, n: nat)
    requires 0 <= i < n
    ensures PrevFocus(NextFocus(i, n), n) == i
    ensures NextFocus(PrevFocus(i, n), n) == i
  {
  }

  /** The reset effect: an index beyond the filtered list becomes -1. */
  function ResetFocus(i: int, n: nat): (r: int)
    ensures r < n
    ensures i >= n ==> r == -1
    ensures i < n ==> r == i
  {
    if i >= n then -1 else i
  }

  datatype Key = Enter | Space | Escape | ArrowDown | ArrowUp | OtherKey

  /** The combobox's own state; the props arrive with each event as a `Config`. */
  class ComboBox {
    var isOpen: bool
    var searchTerm: string
    /** The highlighted row of the filtered list, -1 for none. */
    var focusedIndex: int

    ghost predicate Valid()
      reads this
    {
      focusedIndex >= -1
    }

    constructor ()
      ensures Valid()
      ensures !isOpen && searchTerm == "" && focusedIndex == -1
    {
      isOpen := false;
      searchTerm := "";
      focusedIndex := -1;
    }

    /** The filtered list as the current search term gives it. */
    function Filtered(c: Config): seq<SelectOption>
      reads this
    {
      FilteredOptions(c, searchTerm)
    }

    /** Selecting an option: toggle it in multiple mode; in single mode pick it and close. */
    method ToggleOption(c: Config, v: JsValue) returns (change: Change)
      requires Valid()
      modifies this
      ensures Valid()
      ensures c.multiple ==> change == EmitValues(ToggleValues(CurrentValues(c), v))
      ensures c.multiple ==> isOpen == old(isOpen) && searchTerm == old(searchTerm)
      ensures !c.multiple ==> change == EmitValue(v) && !isOpen && searchTerm == ""
      ensures focusedIndex == old(focusedIndex)
    {
      if c.multiple {
        change := EmitValues(ToggleValues(CurrentValues(c), v));
      } else {
        change := EmitValue(v);
        isOpen := false;
        searchTerm := "";
      }
    }

    /** A click on an option row; disabled options ignore it. */
    method ClickOption(c: Config, o: SelectOption) returns (change: Change)
      requires Valid()
      modifies this
      ensures Valid()
      ensures Truthy(Get(Obj(o), "disabled")) ==>
        change == NoChange && isOpen == old(isOpen) && searchTerm == old(searchTerm)
      ensures !Truthy(Get(Obj(o), "disabled")) && c.multiple ==>
        change == EmitValues(ToggleValues(CurrentValues(c), OptionValue(c, o)))
        && isOpen == old(isOpen) && searchTerm == old(searchTerm)
      ensures !Truthy(Get(Obj(o), "disabled")) && !c.multiple ==>
        change == EmitValue(OptionValue(c, o)) && !isOpen && searchTerm == ""
      ensures focusedIndex == old(focusedIndex)
    {
      if Truthy(Get(Obj(o), "disabled")) {
        change := NoChange;
      } else {
        change := ToggleOption(c, OptionValue(c, o));
      }
    }

    /** The clear button: emit the empty selection and drop the search term. */
    method ClearAll(c: Config) returns (change: Change)
      requires Valid()
      modifies this
      ensures Valid()
      ensures change == ClearedValue(c)
      ensures searchTerm == "" && isOpen == old(isOpen) && focusedIndex == old(focusedIndex)
    {
      change := ClearedValue(c);
      searchTerm := "";
    }

    /** Typing in the search field. */
    method SetSearchTerm(term: string)
      requires Valid()
      modifies this
      ensures Valid()
      ensures searchTerm == term && isOpen == old(isOpen) && focusedIndex == old(focusedIndex)
    {
      searchTerm := term;
    }

    /** The pointer entering the option row at `index`. */
    method HoverOption(c: Config, index: nat)
      requires Valid()
      requires index < |Filtered(c)|
      modifies this
      ensures Valid()
      ensures focusedIndex == index && isOpen == old(isOpen) && searchTerm == old(searchTerm)
    {
      focusedIndex := index;
    }

    /** The dropdown asking to be shown or hidden (a click on the toggle). */
    method DropdownToggle(show: bool)
      requires Valid()
      modifies this
      ensures Valid()
      ensures isOpen == show && searchTerm == old(searchTerm) && focusedIndex == old(focusedIndex)
    {
      isOpen := show;
    }

    /**
     * A pointer-down anywhere on the page: outside the component's root element, which
     * is always mounted, it closes the panel and drops the search term.
     */
    method PointerDown(targetInside: bool)
      requires Valid()
      modifies this
      ensures Valid()
      ensures !targetInside ==> !isOpen && searchTerm == ""
      ensures targetInside ==> isOpen == old(isOpen) && searchTerm == old(searchTerm)
      ensures focusedIndex == old(focusedIndex)
    {
      if Fires(true, targetInside) {
        isOpen := false;
        searchTerm := "";
      }
    }

    /** A key press on the toggle or in the search field. */
    method KeyDown(c: Config, key: Key) returns (change: Change)
      requires Valid()
      modifies this
      ensures Valid()
      // closed: Enter and Space only open the panel
      ensures !old(isOpen) ==>
        (change == NoChange && isOpen == (key == Enter || key == Space)
         && searchTerm == old(searchTerm) && focusedIndex == old(focusedIndex))
      ensures old(isOpen) && key == Escape ==>
        (change == NoChange && !isOpen && focusedIndex == -1 && searchTerm == old(searchTerm))
      ensures old(isOpen) && key == ArrowDown ==>
        (change == NoChange && isOpen && searchTerm == old(searchTerm)
         && focusedIndex == NextFocus(old(focusedIndex), |old(Filtered(c))|))
      ensures old(isOpen) && key == ArrowUp ==>
        (change == NoChange && isOpen && searchTerm == old(searchTerm)
         && focusedIndex == PrevFocus(old(focusedIndex), |old(Filtered(c))|))
      ensures old(isOpen) && key == OtherKey ==>
        (change == NoChange && isOpen && searchTerm == old(searchTerm)
         && focusedIndex == old(focusedIndex))
      // open: Enter and Space toggle the highlighted option, if there is one
      ensures old(isOpen) && (key == Enter || key == Space) ==>
        var n := |old(Filtered(c))|;
        var i := old(focusedIndex);
        focusedIndex == i &&
        if 0 <= i < n then
          var v := OptionValue(c, old(Filtered(c))[i]);
          if c.multiple then change == EmitValues(ToggleValues(CurrentValues(c), v))
            && isOpen && searchTerm == old(searchTerm)
          else change == EmitValue(v) && !isOpen && searchTerm == ""
        else change == NoChange && isOpen && searchTerm == old(searchTerm)
    {
      change := NoChange;
      if !isOpen {
        if key == Enter || key == Space {
          isOpen := true;
        }
        return;
      }
      var filtered := FilteredOptions(c, searchTerm);
      match key {
        case Escape =>
          isOpen := false;
          focusedIndex := -1;
        case ArrowDown =>
          focusedIndex := NextFocus(focusedIndex, |filtered|);
        case ArrowUp =>
          focusedIndex := PrevFocus(focusedIndex, |filtered|);
        case Enter =>
          if 0 <= focusedIndex < |filtered| {
            change := ToggleOption(c, OptionValue(c, filtered[focusedIndex]));
          }
        case Space =>
          if 0 <= focusedIndex < |filtered| {
            change := ToggleOption(c, OptionValue(c, filtered[focusedIndex]));
          }
        case OtherKey =>
      }
    }

    /** The effect that runs after each render: forget a highlight past the end of the list. */
    method SettleFocus(c: Config)
      requires Valid()
      modifies this
      ensures Valid()
      ensures focusedIndex < |Filtered(c)|
      ensures focusedIndex == ResetFocus(old(focusedIndex), |Filtered(c)|)
      ensures isOpen == old(isOpen) && searchTerm == old(searchTerm)
    {
      if focusedIndex >= |FilteredOptions(c, searchTerm)| {
        focusedIndex := -1;
      }
    }
  }

  /** ArrowDown on an empty list lands on 0, which the reset effect turns back into -1. */
  lemma ArrowDownOnEmptyList(prev: int)
    requires prev >= -1
    ensures NextFocus(prev, 0) == 0
    ensures ResetFocus(NextFocus(prev, 0), 0) == -1
  {
  }
}
