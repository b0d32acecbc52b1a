/**
 * The pager's two number inputs: the page the user types is turned into a page index
 * clamped to the pages that exist, and the typed page size into a non-negative size.
 * The page count is whatever the table library reports.
 */
module Pagination {
  import opened Js

  /** `Number(raw)` for what a number input can hold: nothing, garbage, or an integer. */
  datatype NumberInput = EmptyInput | NotANumber | Number(value: int)

  /** `Number(raw)` on a non-empty string of decimal digits, and the empty string. */
  function DecimalInput(raw: string): (r: NumberInput)
    requires AllDigits(raw)
    ensures raw == "" <==> r == EmptyInput
    ensures raw != "" ==> r == Number(ParseDigits(raw))
  {
    if raw == "" then EmptyInput else Number(ParseDigits(raw))
  }

  function Max(a: int, b: int): int { if a >= b then a else b }
  function Min(a: int, b: int): int { if a <= b then a else b }

  /** The page number shown in the input: one more than the page index. */
  function DisplayPage(pageIndex: int): int {
    pageIndex + 1
  }

  /** The page index `handlePageChange` passes to `setPageIndex`. */
  function PageIndexFor(raw: NumberInput, pageCount: int): (r: int)
    ensures r >= 0
    ensures pageCount >= 1 ==> r <= pageCount - 1
    ensures pageCount <= 1 ==> r == 0
    ensures raw.EmptyInput? || raw.NotANumber? ==> r == 0
    ensures raw.Number? && raw.value <= 1 ==> r == 0
    ensures raw.Number? && 1 <= raw.value <= pageCount ==> r == raw.value - 1
    ensures raw.Number? && raw.value > pageCount && pageCount >= 1 ==> r == pageCount - 1
  {
    if raw.EmptyInput? then 0
    else
      var value := if raw.NotANumber? then 0 else raw.value;
      Max(0, Min(value - 1, pageCount - 1))
  }

  /** The page size `handlePageSizeChange` passes to `setPageSize`. */
  function PageSizeFor(raw: NumberInput): (r: int)
    ensures r >= 0
    ensures raw.Number? && raw.value >= 0 ==> r == raw.value
    ensures !(raw.Number? && raw.value >= 0) ==> r == 0
  {
    if raw.EmptyInput? then 0
    else
      var value := if raw.NotANumber? then 0 else raw.value;
      Max(0, value)
  }

  /** Typing back the page that is shown keeps the current page. */
  lemma RetypeDisplayedPage(pageIndex: int, pageCount: int)
    requires 0 <= pageIndex < pageCount
    ensures PageIndexFor(Number(DisplayPage(pageIndex)), pageCount) == pageIndex
  {
  }

  /**
   * The same, starting from the text the input shows, `String(pageIndex + 1)`: its
   * digits read back as that number.
   */
  lemma {:induction false} RetypeDisplayedText(pageIndex: nat, pageCount: int)
    requires pageIndex < pageCount
    ensures PageIndexFor(DecimalInput(NatToString(DisplayPage(pageIndex))), pageCount) == pageIndex
  {
    ParseNatToString(DisplayPage(pageIndex));
  }

  /** Clamping is idempotent: after any input, retyping the shown page is a no-op. */
  lemma ClampIdempotent(raw: NumberInput, pageCount: int)
    ensures var i := PageIndexFor(raw, pageCount);
      PageIndexFor(Number(DisplayPage(i)), pageCount) == i
  {
  }

  /** Sizes are idempotent too: a size that was set reads back as itself. */
  lemma PageSizeIdempotent(raw: NumberInput)
    ensures PageSizeFor(Number(PageSizeFor(raw))) == PageSizeFor(raw)
  {
  }
}
