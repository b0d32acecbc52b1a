/**
 * The row edit dialog: a sparse patch of the fields the user changed, the editors'
 * display fallbacks, the editors that write into the patch, and the save button.
 * Only columns marked editable get an editor, so only their keys enter the patch.
 */
module EditModal {
  import opened Wrappers
  import opened Js
  import opened JsArrays
  import opened TableTypes
  import Calendar
  import FilterUnit

  /** A leaf column as the dialog sees it. */
  datatype EditColumn = EditColumn(
    id: string,
    header: ColumnHeader,
    editable: Option<bool>,
    filterType: Option<FilterType>)

  /** What `row.getValue(id)` does for a column: returns a value, or throws. */
  datatype RowCell = Cell(v: JsValue) | Throws

  function IsEditable(c: EditColumn): bool {
    c.editable.GetOr(false)
  }

  /** The columns that get an editor, in table order; a missing flag means not editable. */
  function EditableColumns(columns: seq<EditColumn>): (r: seq<EditColumn>)
    ensures forall i :: 0 <= i < |r| ==> r[i] in columns && r[i].editable == Some(true)
    ensures forall i :: 0 <= i < |columns| && columns[i].editable == Some(true) ==> columns[i] in r
  {
    Filter(columns, IsEditable)
  }

  /** The editable columns keep their table order. */
  lemma EditableColumnsInOrder(columns: seq<EditColumn>)
    ensures IsSubsequence(EditableColumns(columns), columns)
  {
    FilterIsSubsequence(columns, IsEditable);
  }

  /** A column's label above its editor. */
  function EditLabel(c: EditColumn): (r: string)
    ensures c.header.StringHeader? ==> r == c.header.text
    ensures c.header.RenderedHeader? ==> r == c.id
  {
    HeaderLabel(c.header, c.id)
  }

  function EditableIds(columns: seq<EditColumn>): set<string> {
    set c | c in columns && c.editable == Some(true) :: c.id
  }

  /** The editor `renderField` picks for a column: by its filter type, text when it has none. */
  function EditorOf(c: EditColumn): FilterType {
    FilterUnit.FilterTypeOf(c.filterType)
  }

  /** Some editable column with id `key` is edited with editor `t`. */
  predicate HasEditor(columns: seq<EditColumn>, key: string, t: FilterType) {
    exists i :: 0 <= i < |columns| && columns[i].id == key && IsEditable(columns[i]) && EditorOf(columns[i]) == t
  }

  /** A key with an editor is an editable field. */
  lemma EditorKeyIsEditable(columns: seq<EditColumn>, key: string, t: FilterType)
    requires HasEditor(columns, key, t)
    ensures key in EditableIds(columns)
  {
    var i :| 0 <= i < |columns| && columns[i].id == key && IsEditable(columns[i]) && EditorOf(columns[i]) == t;
    assert columns[i] in columns && columns[i].editable == Some(true);
  }

  /**
   * With distinct column ids, every editable column gets exactly one editor, the one
   * its filter type names; a non-editable column gets none.
   */
  lemma OneEditorPerColumn(columns: seq<EditColumn>, j: int, t: FilterType)
    requires forall a, b :: 0 <= a < b < |columns| ==> columns[a].id != columns[b].id
    requires 0 <= j < |columns|
    ensures HasEditor(columns, columns[j].id, t) <==> IsEditable(columns[j]) && t == FilterUnit.FilterTypeOf(columns[j].filterType)
  {
    if HasEditor(columns, columns[j].id, t) {
      var i :| 0 <= i < |columns| && columns[i].id == columns[j].id && IsEditable(columns[i]) && EditorOf(columns[i]) == t;
      assert i == j by {
        if i < j {
        } else if j < i {
        }
      }
    }
  }

  /** `getInitial`: the row's value for the column, or `undefined` when the lookup throws. */
  function GetInitial(row: map<string, RowCell>, id: string): (r: JsValue)
    ensures id in row && row[id].Cell? ==> r == row[id].v
    ensures (id !in row || row[id].Throws?) ==> r == Undefined
  {
    if id in row && row[id].Cell? then row[id].v else Undefined
  }

  /** What the text editors show: the patch, else the initial value, else the empty string. */
  function ShownText(patch: map<string, JsValue>, initial: JsValue, key: string): (r: JsValue)
    ensures key in patch && !IsNullish(patch[key]) ==> r == patch[key]
    ensures (key !in patch || IsNullish(patch[key])) && !IsNullish(initial) ==> r == initial
    ensures (key !in patch || IsNullish(patch[key])) && IsNullish(initial) ==> r == Str("")
    ensures !IsNullish(r)
  {
    Coalesce(Coalesce(if key in patch then patch[key] else Undefined, initial), Str(""))
  }

  /** The range editor's starting value: a non-null object initial value, else two empty bounds. */
  function RangeInit(initial: JsValue): (r: JsValue)
    ensures IsObjectType(initial) && !initial.Null? ==> r == initial
    ensures !(IsObjectType(initial) && !initial.Null?) ==> r == Obj(map["from" := Str(""), "to" := Str("")])
  {
    if IsObjectType(initial) && Truthy(initial) then initial else Obj(map["from" := Str(""), "to" := Str("")])
  }

  /** A keystroke in the range editor: the initial range with one bound replaced by the text typed. */
  function RangeEdit(initial: JsValue, bound: Bound, text: string): (r: JsValue)
    ensures r.Obj?
    ensures Get(r, bound.Key()) == Str(text)
    ensures Get(r, bound.Other().Key()) == Get(RangeInit(initial), bound.Other().Key())
  {
    Obj(Spread(RangeInit(initial))[bound.Key() := Str(text)])
  }

  /** The date editor is a single-date calendar: what it emits, as a JavaScript value. */
  function CalendarEmit(v: Calendar.CalValue): (r: JsValue)
    ensures v.NoValue? ==> r == Null
    ensures v.OneDate? ==> r == DateVal(v.day)
    ensures v.RangeValue? ==> r.Obj? && r.fields.Keys == {"from", "to"}
    ensures v.RangeValue? ==> Get(r, "from") == (if v.range.from.Some? then DateVal(v.range.from.value) else Null)
    ensures v.RangeValue? ==> Get(r, "to") == (if v.range.to.Some? then DateVal(v.range.to.value) else Null)
  {
    match v
    case NoValue => Null
    case OneDate(d) => DateVal(d)
    case RangeValue(range) =>
      Obj(map["from" := if range.from.Some? then DateVal(range.from.value) else Null,
              "to" := if range.to.Some? then DateVal(range.to.value) else Null])
  }

  /**
   * A "date-range" field is edited with a single-date calendar, so a click on a day
   * stores one date, not a range.
   */
  lemma DateFieldStoresOneDate(shown: Calendar.CalValue, d: int)
    ensures CalendarEmit(Calendar.SelectDay(Calendar.Single, shown, d)) == DateVal(d)
  {
  }

  /**
   * The calendar's preset links work in every mode: a preset stores a `{from, to}`
   * object with both bounds set and in order, and the clear link stores `null`.
   */
  lemma PresetStoresRange(p: Calendar.Preset, today: Calendar.Civil)
    requires Calendar.ValidCivil(today)
    ensures var v := CalendarEmit(Calendar.PresetValue(p, today));
      v.Obj? && Get(v, "from").DateVal? && Get(v, "to").DateVal?
      && Get(v, "from").day <= Get(v, "to").day
    ensures CalendarEmit(Calendar.ClearValue()) == Null
  {
  }

  class EditSession {
    const columns: seq<EditColumn>
    const row: map<string, RowCell>
    /** The fields changed so far. */
    var newData: map<string, JsValue>

    ghost predicate Valid()
      reads this
    {
      newData.Keys <= EditableIds(columns)
    }

    constructor (columns: seq<EditColumn>, row: map<string, RowCell>)
      ensures Valid()
      ensures this.columns == columns && this.row == row && newData == map[]
    {
      this.columns := columns;
      this.row := row;
      newData := map[];
    }

    function Initial(key: string): JsValue
    {
      GetInitial(row, key)
    }

    /** What a text editor for `key` shows. */
    function Shown(key: string): JsValue
      reads this
    {
      ShownText(newData, Initial(key), key)
    }

    /** `setField`: replaces one key of the patch. */
    method SetField(key: string, value: JsValue)
      requires Valid() && key in EditableIds(columns)
      modifies this
      ensures Valid()
      ensures newData == old(newData)[key := value]
    {
      newData := newData[key := value];
    }

    /** The text and multi-line editors store the text typed. */
    method EditText(key: string, text: string)
      requires Valid() && (HasEditor(columns, key, Text) || HasEditor(columns, key, TextMulti))
      modifies this
      ensures Valid()
      ensures newData == old(newData)[key := Str(text)]
    {
      if HasEditor(columns, key, Text) {
        EditorKeyIsEditable(columns, key, Text);
      } else {
        EditorKeyIsEditable(columns, key, TextMulti);
      }
      SetField(key, Str(text));
    }

    /** One of the range editor's inputs. */
    method EditRange(key: string, bound: Bound, text: string)
      requires Valid() && HasEditor(columns, key, Range)
      modifies this
      ensures Valid()
      ensures newData == old(newData)[key := RangeEdit(Initial(key), bound, text)]
    {
      EditorKeyIsEditable(columns, key, Range);
      var init := RangeInit(Initial(key));
      SetField(key, Obj(Spread(init)[bound.Key() := Str(text)]));
    }

    /** A click on day `d` in the date editor. */
    method EditDate(key: string, d: int)
      requires Valid() && HasEditor(columns, key, DateRange)
      modifies this
      ensures Valid()
      ensures newData == old(newData)[key := DateVal(d)]
    {
      EditorKeyIsEditable(columns, key, DateRange);
      var emitted := Calendar.SelectDay(Calendar.Single, Calendar.NoValue, d);
      SetField(key, CalendarEmit(emitted));
    }

    /** A click on a preset link in the date editor. */
    method EditDatePreset(key: string, p: Calendar.Preset, today: Calendar.Civil)
      requires Valid() && HasEditor(columns, key, DateRange) && Calendar.ValidCivil(today)
      modifies this
      ensures Valid()
      ensures newData == old(newData)[key := CalendarEmit(Calendar.PresetValue(p, today))]
    {
      EditorKeyIsEditable(columns, key, DateRange);
      SetField(key, CalendarEmit(Calendar.PresetValue(p, today)));
    }

    /** A click on the date editor's clear link: the field is set to `null`. */
    method ClearDate(key: string)
      requires Valid() && HasEditor(columns, key, DateRange)
      modifies this
      ensures Valid()
      ensures newData == old(newData)[key := Null]
    {
      EditorKeyIsEditable(columns, key, DateRange);
      SetField(key, CalendarEmit(Calendar.ClearValue()));
    }

    /** The select and multi-select editors store the combobox's output as is. */
    method EditSelect(key: string, v: JsValue)
      requires Valid() && (HasEditor(columns, key, Select) || HasEditor(columns, key, MultiSelect))
      modifies this
      ensures Valid()
      ensures newData == old(newData)[key := v]
    {
      if HasEditor(columns, key, Select) {
        EditorKeyIsEditable(columns, key, Select);
      } else {
        EditorKeyIsEditable(columns, key, MultiSelect);
      }
      SetField(key, v);
    }

    /** The save button hands over exactly the accumulated patch, which names editable fields only. */
    method Save() returns (patch: map<string, JsValue>)
      requires Valid()
      ensures patch == newData
      ensures forall k :: k in patch ==> k in EditableIds(columns)
    {
      patch := newData;
    }
  }

  /**
   * As written, range edits do not accumulate: after editing "from" and then "to",
   * the patch's "from" is the initial one again.
   */
  method RangeEditsDoNotAccumulate(s: EditSession, key: string, a: string, b: string)
    requires s.Valid() && HasEditor(s.columns, key, Range)
    modifies s
    ensures key in s.newData
    ensures Get(s.newData[key], "to") == Str(b)
    ensures Get(s.newData[key], "from") == Get(RangeInit(s.Initial(key)), "from")
  {
    s.EditRange(key, From, a);
    s.EditRange(key, To, b);
  }

  /** An edit shows up in its text editor, and other fields' editors are unaffected. */
  method EditShows(s: EditSession, key: string, other: string, text: string)
    requires s.Valid() && HasEditor(s.columns, key, Text) && other != key
    modifies s
    ensures s.Shown(key) == Str(text)
    ensures s.Shown(other) == old(s.Shown(other))
  {
    s.EditText(key, text);
  }
}
