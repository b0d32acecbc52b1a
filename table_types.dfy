/** The record shapes the grid passes around: orders, fetch parameters, pages, filter kinds. */
module TableTypes {

  datatype Tag = Tag(text: string, description: string, color: string, backgroundColor: string)

  /** One order row of the demo table. */
  datatype Order = Order(
    id: int,
    number: string,
    company: string,
    creationTime: string,
    status: string,
    shortDescription: string,
    assetGroup: string,
    tags: seq<Tag>)

  /** The table library's pagination state. */
  datatype PaginationState = PaginationState(pageIndex: int, pageSize: int)

  datatype ColumnSort = ColumnSort(id: string, desc: bool)

  /** A column filter: the column id and its filter value (kept abstract). */
  datatype ColumnFilter<V> = ColumnFilter(id: string, value: V)

  /** What a fetch function is declared to receive. */
  datatype FetchParams<V> = FetchParams(
    pagination: PaginationState,
    sorting: seq<ColumnSort>,
    filters: seq<ColumnFilter<V>>)

  /** One page of rows and the total number of rows on the server. */
  datatype PaginatedResult<T> = PaginatedResult(results: seq<T>, total: int)

  /** The kind of editor a column's filter (and its edit field) uses. */
  datatype FilterType = Text | TextMulti | Select | MultiSelect | Range | DateRange

  /** One end of a `{from, to}` range value. */
  datatype Bound = From | To {
    function Key(): string {
      match this
      case From => "from"
      case To => "to"
    }
    function Other(): Bound {
      match this
      case From => To
      case To => From
    }
  }

  /** A column definition's `header`: a string, or a render function (or nothing). */
  datatype ColumnHeader = StringHeader(text: string) | RenderedHeader

  /** `typeof header === "string" ? header : column.id`: even an empty string header is used. */
  function HeaderLabel(header: ColumnHeader, id: string): (r: string)
    ensures header.StringHeader? ==> r == header.text
    ensures header.RenderedHeader? ==> r == id
  {
    match header
    case StringHeader(t) => t
    case RenderedHeader => id
  }
}
