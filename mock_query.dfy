/**
 * The demo data source: 125 generated orders, served a page at a time by slicing
 * from `pageIndex * pageSize`. The artificial delay is not modelled.
 */
module MockQuery {
  import opened Js
  import opened JsArrays
  import opened TableTypes

  const AllItemCount: int := 125

  const TestTag: Tag := Tag("Тест", "Описание тега", "hsla(0, 80%, 30%, 1.0)", "hsla(0, 90%, 90%, 1.0)")

  const Statuses: seq<string> := ["Создан", "В работе", "Закрыт"]

  /** The `i`-th generated order (0-based). */
  function MockItem(i: nat): (o: Order)
    ensures o.id == i + 1
    ensures o.status == Statuses[i % 3]
  {
    Order(
      i + 1,
      "IM-" + NatToString(100000 + i),
      "Company " + NatToString(i % 7),
      "2025-11-01 12:00",
      Statuses[i % 3],
      "Описание заказа #" + NatToString(i + 1),
      "АРМ_" + NatToString(i % 15 + 1),
      [TestTag])
  }

  /** All generated orders, in id order. */
  function AllItems(): (s: seq<Order>)
    ensures |s| == AllItemCount
    ensures forall i :: 0 <= i < |s| ==> s[i] == MockItem(i)
  {
    seq(AllItemCount, i requires 0 <= i < AllItemCount => MockItem(i))
  }

  /** Where a page starts. */
  function PageStart(p: PaginationState): int {
    p.pageIndex * p.pageSize
  }

  function Min(a: int, b: int): int { if a <= b then a else b }
  function Max(a: int, b: int): int { if a >= b then a else b }

  lemma StartNonNegative(p: PaginationState)
    requires p.pageIndex >= 0 && p.pageSize >= 0
    ensures PageStart(p) >= 0
  {
    if p.pageSize > 0 {
      assert p.pageIndex * p.pageSize >= p.pageIndex * 1;
    }
  }

  /** Slicing the data from `start` for `size` orders, for a start that is not negative. */
  lemma ClippedSlice(start: int, size: int)
    requires start >= 0 && size >= 0
    ensures var page := Slice(AllItems(), start, start + size);
      |page| == Min(size, Max(0, AllItemCount - start))
      && (forall k :: 0 <= k < |page| ==> page[k] == MockItem(start + k))
      && page == AllItems()[Min(start, AllItemCount)..Min(start + size, AllItemCount)]
  {
    var all := AllItems();
    var page := Slice(all, start, start + size);
    assert page == all[Min(start, AllItemCount)..Min(start + size, AllItemCount)];
  }

  /** `fetchOrdersFake`: the requested page and the total. */
  function FetchOrdersFake<V>(params: FetchParams<V>): (r: PaginatedResult<Order>)
    ensures r.total == AllItemCount
    ensures params.pagination.pageIndex >= 0 && params.pagination.pageSize >= 0 ==>
      var start := PageStart(params.pagination);
      start >= 0
      && |r.results| == Min(params.pagination.pageSize, Max(0, AllItemCount - start))
      && forall k :: 0 <= k < |r.results| ==> r.results[k] == MockItem(start + k)
  {
    var start := PageStart(params.pagination);
    var end := start + params.pagination.pageSize;
    var page := Slice(AllItems(), start, end);
    FetchedPage(params.pagination, page);
    PaginatedResult(page, AllItemCount)
  }

  lemma FetchedPage(p: PaginationState, page: seq<Order>)
    requires page == Slice(AllItems(), PageStart(p), PageStart(p) + p.pageSize)
    ensures p.pageIndex >= 0 && p.pageSize >= 0 ==>
      PageStart(p) >= 0
      && |page| == Min(p.pageSize, Max(0, AllItemCount - PageStart(p)))
      && (forall k :: 0 <= k < |page| ==> page[k] == MockItem(PageStart(p) + k))
      && page == AllItems()[Min(PageStart(p), AllItemCount)..Min(PageStart(p) + p.pageSize, AllItemCount)]
  {
    if p.pageIndex >= 0 && p.pageSize >= 0 {
      var start := PageStart(p);
      StartNonNegative(p);
      ClippedSlice(start, p.pageSize);
      assert page == Slice(AllItems(), start, start + p.pageSize);
    }
  }

  /** A page of size 0 is empty. */
  lemma EmptyPageSize<V>(params: FetchParams<V>)
    requires params.pagination.pageIndex >= 0 && params.pagination.pageSize == 0
    ensures FetchOrdersFake(params).results == []
  {
    var r := FetchOrdersFake(params);
    assert |r.results| == 0;
  }

  /** The ids on page `p` of size `s` are exactly `p*s + 1`, ..., in order. */
  lemma PageIds<V>(params: FetchParams<V>)
    requires params.pagination.pageIndex >= 0 && params.pagination.pageSize >= 0
    ensures var page := FetchOrdersFake(params).results;
      forall k :: 0 <= k < |page| ==>
        page[k].id == PageStart(params.pagination) + k + 1
        && PageStart(params.pagination) < page[k].id <= PageStart(params.pagination) + params.pagination.pageSize
  {
  }

  /**
   * Pages `p` and `p + 1` of the same size are adjacent: together they are the
   * orders from `p * s` on, as far as `(p + 2) * s` or the end of the data.
   */
  lemma {:induction false} ConsecutivePagesAdjacent<V>(pageIndex: nat, pageSize: nat, sorting: seq<ColumnSort>, filters: seq<ColumnFilter<V>>)
    ensures var a := FetchOrdersFake(FetchParams(PaginationState(pageIndex, pageSize), sorting, filters)).results;
      var b := FetchOrdersFake(FetchParams(PaginationState(pageIndex + 1, pageSize), sorting, filters)).results;
      var start := pageIndex * pageSize;
      a + b == AllItems()[Min(start, AllItemCount)..Min(start + 2 * pageSize, AllItemCount)]
  {
    var p1 := PaginationState(pageIndex, pageSize);
    var p2 := PaginationState(pageIndex + 1, pageSize);
    var start := PageStart(p1);
    assert PageStart(p2) == start + pageSize by {
      assert (pageIndex + 1) * pageSize == pageIndex * pageSize + pageSize;
    }
    StartNonNegative(p1);
    FetchedPage(p1, FetchOrdersFake(FetchParams(p1, sorting, filters)).results);
    FetchedPage(p2, FetchOrdersFake(FetchParams(p2, sorting, filters)).results);
    AdjacentSlices(AllItems(), Min(start, AllItemCount), Min(start + pageSize, AllItemCount),
      Min(start + 2 * pageSize, AllItemCount));
  }

  lemma AdjacentSlices<T>(s: seq<T>, lo: nat, mid: nat, hi: nat)
    requires lo <= mid <= hi <= |s|
    ensures s[lo..mid] + s[mid..hi] == s[lo..hi]
  {
  }

  /** Consecutive pages share no order. */
  lemma ConsecutivePagesDisjoint<V>(pageIndex: nat, pageSize: nat, sorting: seq<ColumnSort>, filters: seq<ColumnFilter<V>>)
    ensures var a := FetchOrdersFake(FetchParams(PaginationState(pageIndex, pageSize), sorting, filters)).results;
      var b := FetchOrdersFake(FetchParams(PaginationState(pageIndex + 1, pageSize), sorting, filters)).results;
      forall i, j :: 0 <= i < |a| && 0 <= j < |b| ==> a[i].id < b[j].id
  {
    var p2 := PaginationState(pageIndex + 1, pageSize);
    assert PageStart(p2) == pageIndex * pageSize + pageSize by {
      assert (pageIndex + 1) * pageSize == pageIndex * pageSize + pageSize;
    }
    PageIds(FetchParams(PaginationState(pageIndex, pageSize), sorting, filters));
    PageIds(FetchParams(p2, sorting, filters));
  }

  /** Order numbers are unique: distinct orders carry distinct `IM-` numbers. */
  lemma {:induction false} NumbersUnique(i: nat, j: nat)
    requires MockItem(i).number == MockItem(j).number
    ensures i == j
  {
    NumberDigits(i);
    NumberDigits(j);
    NatToStringInjective(100000 + i, 100000 + j);
  }

  /** After the `IM-` prefix, an order number holds the decimal digits of `100000 + i`. */
  lemma NumberDigits(i: nat)
    ensures MockItem(i).number[3..] == NatToString(100000 + i)
  {
    var a := NatToString(100000 + i);
    assert ("IM-" + a)[3..] == a;
  }

  /** Companies cycle with period 7, statuses with period 3, asset groups with period 15. */
  lemma Periodic(i: nat)
    ensures MockItem(i + 7).company == MockItem(i).company
    ensures MockItem(i + 3).status == MockItem(i).status
    ensures MockItem(i + 15).assetGroup == MockItem(i).assetGroup
  {
    assert (i + 7) % 7 == i % 7;
    assert (i + 3) % 3 == i % 3;
    assert (i + 15) % 15 == i % 15;
  }
}
