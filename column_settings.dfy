/**
 * The column settings panel: the header check box that shows or hides every column,
 * one check box per column, and drag-and-drop reordering. The reorder removes the
 * dragged id and then inserts it at the index the target had before the removal.
 */
module ColumnSettings {
  import opened JsArrays
  import opened TableTypes

  /* ---------------- reordering ---------------- */

  /** Removes the entry at index `i`. */
  function RemoveAt<T>(s: seq<T>, i: nat): (r: seq<T>)
    requires i < |s|
    ensures |r| == |s| - 1
  {
    s[..i] + s[i + 1..]
  }

  /**
   * `handleDrop` on distinct ids: the order after `splice(indexOf(dragged), 1)` and then
   * `splice(indexOf(target), 0, dragged)` on a copy of `order`.
   */
  function Reorder(order: seq<string>, draggedId: string, targetId: string): (r: seq<string>)
  {
    var fromIndex := IndexOf(order, draggedId);
    var toIndex := IndexOf(order, targetId);
    var removed := Splice(order, fromIndex, 1, []);
    Splice(removed, toIndex, 0, [draggedId])
  }

  /** With both ids present, the reorder is the removal followed by an insertion at the target's old index. */
  lemma ReorderShape(order: seq<string>, draggedId: string, targetId: string)
    requires draggedId in order && targetId in order
    ensures var to := IndexOf(order, targetId);
      var rest := RemoveAt(order, IndexOf(order, draggedId));
      to <= |rest| && Reorder(order, draggedId, targetId) == rest[..to] + [draggedId] + rest[to..]
  {
    var from := IndexOf(order, draggedId);
    assert Splice(order, from, 1, []) == RemoveAt(order, from);
  }

  lemma InsertMultiset<T>(s: seq<T>, k: nat, x: T)
    requires k <= |s|
    ensures multiset(s[..k] + [x] + s[k..]) == multiset(s) + multiset{x}
  {
    assert s == s[..k] + s[k..];
  }

  lemma RemoveAtMultiset<T>(s: seq<T>, i: nat)
    requires i < |s|
    ensures multiset(RemoveAt(s, i)) + multiset{s[i]} == multiset(s)
  {
    assert s == s[..i] + [s[i]] + s[i + 1..];
  }

  /** A drop with both ids present permutes the order. */
  lemma {:induction false} ReorderIsPermutation(order: seq<string>, draggedId: string, targetId: string)
    requires draggedId in order && targetId in order
    ensures |Reorder(order, draggedId, targetId)| == |order|
    ensures multiset(Reorder(order, draggedId, targetId)) == multiset(order)
  {
    ReorderShape(order, draggedId, targetId);
    var from, to := IndexOf(order, draggedId), IndexOf(order, targetId);
    InsertMultiset(RemoveAt(order, from), to, draggedId);
    RemoveAtMultiset(order, from);
  }

  /** After the drop the dragged id sits at the target's original index. */
  lemma DraggedLandsOnTargetIndex(order: seq<string>, draggedId: string, targetId: string)
    requires draggedId in order && targetId in order
    ensures var r := Reorder(order, draggedId, targetId);
      IndexOf(order, targetId) < |r| && r[IndexOf(order, targetId)] == draggedId
  {
    ReorderShape(order, draggedId, targetId);
  }

  /** Every other id keeps its relative order: taking the dragged id out again leaves the old order without it. */
  lemma {:induction false} OthersKeepTheirOrder(order: seq<string>, draggedId: string, targetId: string)
    requires draggedId in order && targetId in order
    ensures var r := Reorder(order, draggedId, targetId);
      IndexOf(order, targetId) < |r|
      && RemoveAt(r, IndexOf(order, targetId)) == RemoveAt(order, IndexOf(order, draggedId))
  {
    ReorderShape(order, draggedId, targetId);
    RemoveInserted(RemoveAt(order, IndexOf(order, draggedId)), IndexOf(order, targetId), draggedId);
  }

  /** Removing an entry just inserted at `k` gives back the list. */
  lemma RemoveInserted<T>(s: seq<T>, k: nat, x: T)
    requires k <= |s|
    ensures RemoveAt(s[..k] + [x] + s[k..], k) == s
  {
    var r := s[..k] + [x] + s[k..];
    assert r[..k] == s[..k];
    assert r[k + 1..] == s[k..];
  }

  /**
   * As written, a drag whose data is not a column id (`indexOf` gives -1) removes the
   * last column id: `splice(-1, 1)` counts from the end.
   */
  lemma {:induction false} ForeignDragDropsLastId(order: seq<string>, draggedId: string, targetId: string)
    requires draggedId !in order && targetId in order
    requires order[|order| - 1] !in order[..|order| - 1]
    ensures var r := Reorder(order, draggedId, targetId);
      |r| == |order| && draggedId in r && order[|order| - 1] !in r
  {
    var n := |order|;
    var r := Reorder(order, draggedId, targetId);
    ForeignReorderContents(order, draggedId, targetId);
    var last := order[n - 1];
    assert last != draggedId;
    assert multiset(order[..n - 1])[last] == 0;
    assert multiset(r)[last] == 0;
  }

  /** A foreign id takes the place of the last entry in the multiset of ids. */
  lemma ForeignReorderContents(order: seq<string>, draggedId: string, targetId: string)
    requires draggedId !in order && order != []
    ensures var r := Reorder(order, draggedId, targetId);
      |r| == |order| && draggedId in r
      && multiset(r) == multiset(order[..|order| - 1]) + multiset{draggedId}
  {
    var removed := order[..|order| - 1];
    SpliceFromEnd(order);
    var k := RelativeIndex(IndexOf(order, targetId), |removed|);
    SpliceInsert(removed, IndexOf(order, targetId), draggedId);
    InsertMultiset(removed, k, draggedId);
    assert (removed[..k] + [draggedId] + removed[k..])[k] == draggedId;
  }

  /** `splice(-1, 1)` removes the last entry. */
  lemma SpliceFromEnd<T>(s: seq<T>)
    requires s != []
    ensures Splice(s, -1, 1, []) == s[..|s| - 1]
  {
  }

  /** `splice(k, 0, x)` inserts `x` at the clamped relative index `k`. */
  lemma SpliceInsert<T>(s: seq<T>, k: int, x: T)
    ensures var a := RelativeIndex(k, |s|);
      Splice(s, k, 0, [x]) == s[..a] + [x] + s[a..]
  {
  }

  /* ---------------- visibility ---------------- */

  /** The header check box's look. */
  datatype CheckState = Checked | Indeterminate | Unchecked

  /** What the header check box shows for the columns' visibility flags. */
  function HeaderState(visible: seq<bool>): (r: CheckState)
    ensures r == Checked <==> forall i :: 0 <= i < |visible| ==> visible[i]
    ensures r == Indeterminate <==>
      (exists i :: 0 <= i < |visible| && !visible[i]) && (exists i :: 0 <= i < |visible| && visible[i])
    ensures r == Unchecked <==> |visible| > 0 && forall i :: 0 <= i < |visible| ==> !visible[i]
  {
    var allVisible := forall i :: 0 <= i < |visible| ==> visible[i];
    var someVisible := exists i :: 0 <= i < |visible| && visible[i];
    if allVisible then
      assert |visible| > 0 ==> visible[0];
      Checked
    else if someVisible then Indeterminate
    else Unchecked
  }

  /** A column's label in the list: a non-empty string header, else the column id. */
  function ColumnTitle(header: ColumnHeader, id: string): (r: string)
    ensures r != "" || id == ""
    ensures header.StringHeader? && header.text != "" ==> r == header.text
    ensures !(header.StringHeader? && header.text != "") ==> r == id
  {
    if header.StringHeader? && header.text != "" then header.text else id
  }

  /** The title differs from the filter and edit labels only for an empty string header. */
  lemma TitleVersusHeaderLabel(header: ColumnHeader, id: string)
    ensures ColumnTitle(header, id) != HeaderLabel(header, id) <==>
      header == StringHeader("") && id != ""
  {
  }

  class ColumnSettingsPanel {
    /** The table's leaf column ids, in the table's order when the panel opened. */
    const columns: seq<string>
    /** The list's order. */
    var order: seq<string>
    /** The table's column order, as last set by the panel. */
    var tableOrder: seq<string>
    /** Each leaf column's visibility, parallel to `columns`. */
    var visible: seq<bool>

    ghost predicate Valid()
      reads this
    {
      |visible| == |columns|
    }

    constructor (columns: seq<string>, visible: seq<bool>, tableOrder: seq<string>)
      requires |visible| == |columns|
      ensures Valid()
      ensures this.columns == columns && this.visible == visible && this.tableOrder == tableOrder
      ensures order == columns
    {
      this.columns := columns;
      this.visible := visible;
      this.tableOrder := tableOrder;
      order := columns;
    }

    function AllVisible(): bool
      reads this
    {
      forall i :: 0 <= i < |visible| ==> visible[i]
    }

    /** The header check box: hide everything when all are shown, otherwise show everything. */
    method ToggleAll()
      requires Valid()
      modifies this
      ensures Valid()
      ensures old(AllVisible()) ==> forall i :: 0 <= i < |visible| ==> !visible[i]
      ensures !old(AllVisible()) ==> forall i :: 0 <= i < |visible| ==> visible[i]
      ensures order == old(order) && tableOrder == old(tableOrder)
    {
      var shouldShow := !AllVisible();
      var i := 0;
      while i < |columns|
        invariant 0 <= i <= |columns|
        invariant Valid()
        invariant forall j :: 0 <= j < i ==> visible[j] == shouldShow
        invariant order == old(order) && tableOrder == old(tableOrder)
      {
        visible := visible[i := shouldShow];
        i := i + 1;
      }
    }

    /** One column's check box flips that column only. */
    method ToggleColumn(i: nat)
      requires Valid() && i < |columns|
      modifies this
      ensures Valid()
      ensures visible == old(visible)[i := !old(visible)[i]]
      ensures order == old(order) && tableOrder == old(tableOrder)
    {
      visible := visible[i := !visible[i]];
    }

    /** Dropping `draggedId` (the drag data, possibly empty) onto the item `targetId`. */
    method HandleDrop(draggedId: string, targetId: string)
      requires Valid()
      modifies this
      ensures Valid() && visible == old(visible)
      ensures draggedId == "" || draggedId == targetId ==>
        order == old(order) && tableOrder == old(tableOrder)
      ensures draggedId != "" && draggedId != targetId ==>
        order == Reorder(old(order), draggedId, targetId) && tableOrder == order
    {
      if draggedId == "" || draggedId == targetId {
        return;
      }
      var newOrder := order;
      var fromIndex := IndexOf(newOrder, draggedId);
      var toIndex := IndexOf(newOrder, targetId);
      newOrder := Splice(newOrder, fromIndex, 1, []);
      newOrder := Splice(newOrder, toIndex, 0, [draggedId]);
      order := newOrder;
      tableOrder := newOrder;
    }
  }

  /** After the header toggle the header is never indeterminate. */
  method ToggleAllSettlesHeader(p: ColumnSettingsPanel)
    requires p.Valid()
    modifies p
    ensures HeaderState(p.visible) != Indeterminate
    ensures old(HeaderState(p.visible)) != Checked ==> HeaderState(p.visible) == Checked
  {
    p.ToggleAll();
  }
}
