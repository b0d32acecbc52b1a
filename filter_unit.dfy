/**
 * One filter unit of the filter bar: the summary text of the column's filter value,
 * the range editor's read-modify-write of that value, the clear button and the
 * open/closed editor panel.
 *
 * `loc` stands for `toLocaleDateString("ru")` and `dateText` for `String(date)`; both
 * depend on the host's locale and time zone.
 */
module FilterUnit {
  import opened Wrappers
  import opened Js
  import opened TableTypes
  import opened OutsideClick

  /** The column's filter type; a column without one filters as text. */
  function FilterTypeOf(declared: Option<FilterType>): (t: FilterType)
    ensures declared.None? ==> t == Text
    ensures declared.Some? ==> t == declared.value
  {
    declared.GetOr(Text)
  }

  /** Separator between the two bounds of a range summary. */
  const BoundSeparator: string := " — "

  /** A date bound's text: a date localised, anything else empty. */
  function DateBoundText(v: JsValue, loc: int -> string): string {
    if v.DateVal? then loc(v.day) else ""
  }

  /** A numeric bound's text: `${bound ?? ""}`. */
  function RangeBoundText(v: JsValue, dateText: int -> string): string {
    ToString(Coalesce(v, Str("")), dateText)
  }

  /** A value that is none of nothing, an array, a string or a number: its shape decides. */
  predicate IsShaped(value: JsValue) {
    value.Bool? || value.DateVal? || value.Obj?
  }

  /** Trimming keeps every character that is not white space. */
  lemma TrimKeeps(s: string, p: int)
    requires 0 <= p < |s| && !IsSpace(s[p])
    ensures s[p] in Trim(s)
  {
    var r := Trim(s);
    var i :| StripsSpaceAt(s, r, i);
    assert i <= p < i + |r|;
    assert r[p - i] == s[i..i + |r|][p - i];
  }

  /** Trimming a range summary never removes the separator's dash. */
  lemma DashSurvivesTrim(from: string, to: string)
    ensures '—' in Trim(from + BoundSeparator + to)
  {
    var s := from + BoundSeparator + to;
    assert s[|from| + 1] == BoundSeparator[1] == '—';
    TrimKeeps(s, |from| + 1);
  }

  /** Neither end of `r` is white space. */
  predicate NoEdgeSpace(r: string) {
    r == [] || (!IsSpace(r[0]) && !IsSpace(r[|r| - 1]))
  }

  /** A range summary: both bounds' texts around the separator, trimmed; the dash always stays. */
  function RangeSummary(from: string, to: string): (r: string)
    ensures '—' in r
    ensures NoEdgeSpace(r)
  {
    DashSurvivesTrim(from, to);
    Trim(from + BoundSeparator + to)
  }

  /**
   * `formatValue` past the early returns: a range of either kind is summarised by its
   * bounds, so the dash is always there; other types show nothing.
   */
  function FormatShaped(value: JsValue, filterType: FilterType, loc: int -> string, dateText: int -> string): (r: string)
    ensures filterType == DateRange || filterType == Range ==> '—' in r
    ensures NoEdgeSpace(r)
    ensures filterType != DateRange && filterType != Range ==> r == ""
  {
    if filterType == DateRange then
      RangeSummary(DateBoundText(Get(value, "from"), loc), DateBoundText(Get(value, "to"), loc))
    else if filterType == Range then
      RangeSummary(RangeBoundText(Get(value, "from"), dateText), RangeBoundText(Get(value, "to"), dateText))
    else ""
  }

  /** `formatValue`: the text shown under the column name. */
  function FormatValue(value: JsValue, filterType: FilterType, loc: int -> string, dateText: int -> string): (r: string)
    ensures IsNullish(value) || value == Str("") ==> r == ""
    ensures value.Arr? ==> r == Join(ElementStrings(value, value.items, dateText), ", ")
    ensures value.Str? ==> r == value.s
    ensures value.Num? ==> r == IntToString(value.n)
    ensures IsShaped(value) ==> r == FormatShaped(value, filterType, loc, dateText)
  {
    if IsNullish(value) || value == Str("") then ""
    else if value.Arr? then Join(ElementStrings(value, value.items, dateText), ", ")
    else if value.Str? then value.s
    else if value.Num? then IntToString(value.n)
    else FormatShaped(value, filterType, loc, dateText)
  }

  /** Trimming the separator alone leaves the dash. */
  lemma TrimBareSeparator()
    ensures Trim("" + BoundSeparator + "") == "—"
  {
    var s := "" + BoundSeparator + "";
    assert s == " — ";
    assert TrimEnd(s) == TrimEnd(" —") == " —";
    assert TrimStart(" —") == TrimStart("—") == "—";
    TrimIsStartOfEnd(s);
  }

  /** A range, of either kind, with neither bound usable shows just the dash. */
  lemma {:induction false} EmptyBoundsShowDash(value: JsValue, filterType: FilterType, loc: int -> string, dateText: int -> string)
    requires IsShaped(value)
    requires filterType == DateRange ==> !Get(value, "from").DateVal? && !Get(value, "to").DateVal?
    requires filterType == Range ==>
      Get(value, "from") in {Undefined, Null, Str("")} && Get(value, "to") in {Undefined, Null, Str("")}
    requires filterType == DateRange || filterType == Range
    ensures FormatValue(value, filterType, loc, dateText) == "—"
  {
    var from, to := Get(value, "from"), Get(value, "to");
    if filterType == DateRange {
      assert DateBoundText(from, loc) == "" && DateBoundText(to, loc) == "";
    } else {
      assert RangeBoundText(from, dateText) == "" && RangeBoundText(to, dateText) == "";
    }
    TrimBareSeparator();
    assert FormatShaped(value, filterType, loc, dateText) == RangeSummary("", "");
  }

  /* ---------------- the range editor ---------------- */

  /** The value the range editor starts from: the current value, or two empty bounds. */
  function RangeBase(value: JsValue): (r: JsValue)
    ensures IsNullish(value) ==> r == Obj(map["from" := Str(""), "to" := Str("")])
    ensures !IsNullish(value) ==> r == value
  {
    Coalesce(value, Obj(map["from" := Str(""), "to" := Str("")]))
  }

  /**
   * An edit of one bound of a numeric range: `{...r, [bound]: input === "" ? "" : Number(input)}`.
   * `input` is the number typed, or none when the field was emptied.
   */
  function RangeWith(value: JsValue, bound: Bound, input: Option<int>): (r: JsValue)
    ensures r.Obj?
    ensures Get(r, bound.Key()) == (if input.None? then Str("") else Num(input.value))
    ensures Get(r, bound.Other().Key()) == Get(RangeBase(value), bound.Other().Key())
    ensures IsNullish(value) ==> Get(r, bound.Other().Key()) == Str("")
    ensures forall k :: k != bound.Key() && value.Obj? ==> Get(r, k) == Get(value, k)
  {
    Obj(Spread(RangeBase(value))[bound.Key() := if input.None? then Str("") else Num(input.value)])
  }

  /** What a range input shows: `r.from ?? ""`. */
  function RangeInputShows(value: JsValue, bound: Bound): JsValue {
    Coalesce(Get(RangeBase(value), bound.Key()), Str(""))
  }

  /** Editing one bound and then the other yields both edits. */
  lemma EditBothBounds(value: JsValue, a: Option<int>, b: Option<int>)
    ensures var r := RangeWith(RangeWith(value, From, a), To, b);
      Get(r, "from") == (if a.None? then Str("") else Num(a.value))
      && Get(r, "to") == (if b.None? then Str("") else Num(b.value))
  {
    var r1 := RangeWith(value, From, a);
    assert Get(RangeWith(r1, To, b), From.Key()) == Get(RangeBase(r1), From.Key());
  }

  /** The editor shows back what was typed. */
  lemma EditShowsBack(value: JsValue, bound: Bound, n: int)
    ensures RangeInputShows(RangeWith(value, bound, Some(n)), bound) == Num(n)
  {
  }

  /** A first edit of a cleared filter: typing 5 in "from" shows "5 —". */
  lemma {:induction false} FirstEditSummary(loc: int -> string, dateText: int -> string)
    ensures FormatValue(RangeWith(Null, From, Some(5)), Range, loc, dateText) == "5 —"
  {
    var r := RangeWith(Null, From, Some(5));
    var from, to := RangeBoundText(Get(r, "from"), dateText), RangeBoundText(Get(r, "to"), dateText);
    assert from == "5" by {
      assert Get(r, "from") == Num(5);
      assert DigitChar(5) == '5';
      assert NatToString(5) == "5";
    }
    assert to == "" by {
      assert Get(r, "to") == Str("");
    }
    TrimNumberDash();
    assert FormatShaped(r, Range, loc, dateText) == RangeSummary(from, to);
  }

  lemma TrimNumberDash()
    ensures Trim("5" + BoundSeparator + "") == "5 —"
  {
    var s := "5" + BoundSeparator + "";
    assert s == "5 — ";
    assert s[..|s| - 1] == "5 —";
    assert IsSpace(s[|s| - 1]);
    assert !IsSpace("5 —"[2]);
    assert TrimEnd(s) == "5 —";
    assert !IsSpace("5 —"[0]);
    assert TrimStart("5 —") == "5 —";
    TrimIsStartOfEnd(s);
  }

  /* ---------------- the unit's own state ---------------- */

  class FilterUnitState {
    const columnId: string
    const filterType: FilterType
    /** The column's filter value, held by the table. */
    var value: JsValue
    /** The editor panel is open. */
    var open: bool

    constructor (columnId: string, declared: Option<FilterType>, value: JsValue)
      ensures this.columnId == columnId && filterType == FilterTypeOf(declared)
      ensures this.value == value && !open
    {
      this.columnId := columnId;
      filterType := FilterTypeOf(declared);
      this.value := value;
      open := false;
    }

    function Formatted(loc: int -> string, dateText: int -> string): string
      reads this
    {
      FormatValue(value, filterType, loc, dateText)
    }

    /** A click on the unit's label. */
    method ToggleOpen()
      modifies this
      ensures open == !old(open) && value == old(value)
    {
      open := !open;
    }

    /**
     * A pointer-down anywhere on the page. The watched element is the editor panel,
     * which is mounted only while the unit is open; a pointer-down outside it closes it.
     */
    method PointerDown(targetInside: bool)
      modifies this
      ensures old(open) && !targetInside ==> !open
      ensures !(old(open) && !targetInside) ==> open == old(open)
      ensures value == old(value)
    {
      if Fires(open, targetInside) {
        open := false;
      }
    }

    /** The X button: clears the filter value. */
    method ClearValue()
      modifies this
      ensures value == Null && open == old(open)
    {
      value := Null;
    }

    /**
     * The text and multi-line editors, the selects and the calendar hand their value over
     * as is; they are shown only while the panel is open, and a range unit has the range
     * editor instead.
     */
    method Update(v: JsValue)
      requires open && filterType != Range
      modifies this
      ensures value == v && open == old(open)
    {
      value := v;
    }

    /** A keystroke in one of the range editor's two inputs, shown only for an open range unit. */
    method EditRange(bound: Bound, input: Option<int>)
      requires open && filterType == Range
      modifies this
      ensures value == RangeWith(old(value), bound, input) && open == old(open)
    {
      var r := RangeBase(value);
      value := Obj(Spread(r)[bound.Key() := if input.None? then Str("") else Num(input.value)]);
    }
  }

  /** After the X button the unit shows no summary. */
  method ClearShowsNothing(u: FilterUnitState, loc: int -> string, dateText: int -> string)
    modifies u
    ensures u.Formatted(loc, dateText) == ""
  {
    u.ClearValue();
  }

  /**
   * A click on the label of an open unit: its pointer-down lands outside the panel and
   * closes it, then the click toggles it open again, so the label cannot close the panel.
   */
  method LabelClickOnOpenUnit(u: FilterUnitState)
    requires u.open
    modifies u
    ensures u.open && u.value == old(u.value)
  {
    u.PointerDown(false);
    u.ToggleOpen();
  }
}
