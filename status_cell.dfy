/**
 * The status cell: the cell's value is looked up among the column's status options;
 * the first option with that value supplies the colour and the label, with a grey
 * default colour and the value's own text as fallbacks.
 */
module StatusCell {
  import opened Wrappers
  import opened Js
  import opened JsArrays

  /** One entry of the column's `meta.options`: `value`, `label` and `color`. */
  type StatusOption = map<string, JsValue>

  const DefaultColor: string := "#a1a1a1"

  datatype CellView = CellView(color: JsValue, text: JsValue)

  function Field(o: StatusOption, key: string): JsValue {
    Get(Obj(o), key)
  }

  /** `o.value === value`, with structural equality standing for identity on objects. */
  predicate HasValue(o: StatusOption, value: JsValue) {
    Field(o, "value") == value
  }

  /**
   * The cell for `value`; `options` is the column's `meta.options`, or none when the
   * column has no meta or no options.
   */
  function StatusCellView(value: JsValue, options: Option<seq<StatusOption>>, dateText: int -> string): (r: CellView)
    ensures var opts := options.GetOr([]);
      (forall i :: 0 <= i < |opts| ==> !HasValue(opts[i], value)) ==>
        r == CellView(Str(DefaultColor), Str(ToString(value, dateText)))
    ensures var opts := options.GetOr([]);
      forall i :: 0 <= i < |opts| && HasValue(opts[i], value) && (forall j :: 0 <= j < i ==> !HasValue(opts[j], value)) ==>
        r == CellView(Coalesce(Field(opts[i], "color"), Str(DefaultColor)),
                      Coalesce(Field(opts[i], "label"), Str(ToString(value, dateText))))
  {
    var opts := options.GetOr([]);
    var opt := Find(opts, o => HasValue(o, value));
    var color := if opt.Some? then Coalesce(Field(opt.value, "color"), Str(DefaultColor)) else Str(DefaultColor);
    var text := if opt.Some? then Coalesce(Field(opt.value, "label"), Str(ToString(value, dateText))) else Str(ToString(value, dateText));
    CellView(color, text)
  }

  /** A column without options meta shows every value in grey under its own text. */
  lemma MissingOptionsShowDefaults(value: JsValue, dateText: int -> string)
    ensures StatusCellView(value, None, dateText) == StatusCellView(value, Some([]), dateText)
    ensures StatusCellView(value, None, dateText) == CellView(Str(DefaultColor), Str(ToString(value, dateText)))
  {
  }

  /** A matching option with no colour and no label shows exactly like no match. */
  lemma BareOptionShowsDefaults(value: JsValue, o: StatusOption, dateText: int -> string)
    requires HasValue(o, value) && "color" !in o && "label" !in o
    ensures StatusCellView(value, Some([o]), dateText) == StatusCellView(value, None, dateText)
  {
    assert HasValue([o][0], value);
  }

  /** Options after the first match are never consulted. */
  lemma {:induction false} LaterOptionsIgnored(value: JsValue, opts: seq<StatusOption>, rest: seq<StatusOption>, dateText: int -> string)
    requires exists i :: 0 <= i < |opts| && HasValue(opts[i], value)
    ensures StatusCellView(value, Some(opts + rest), dateText) == StatusCellView(value, Some(opts), dateText)
  {
    var i := FindIndex(opts, o => HasValue(o, value));
    assert 0 <= i;
    assert (opts + rest)[i] == opts[i];
    assert forall j :: 0 <= j < i ==> (opts + rest)[j] == opts[j];
  }
}
