/** The paging request object and the paged-result envelope. */
module Models {

  /** C#'s `int`: a signed 32-bit integer. */
  newtype int32 = x: int | -0x8000_0000 <= x < 0x8000_0000

  /** Page size a fresh `QueryParameters` starts with. */
  const DefaultPageSize: int32 := 15

  /** `QueryParameters`: three settable properties. `StartIndex` and
      `PageNumber` are auto-properties (their backing value starts at the
      `int` default, 0); `PageSize` is backed by the field `pageSize`,
      initialised to 15. None of the setters validates or clamps. */
  class QueryParameters {
    var pageSize: int32
    var startIndex: int32
    var pageNumber: int32

    constructor ()
      ensures pageSize == DefaultPageSize
      ensures startIndex == 0 && pageNumber == 0
    {
      pageSize := DefaultPageSize;
      startIndex := 0;
      pageNumber := 0;
    }

    /** The `PageSize` setter: stores `value` in the backing field as given;
        the getter returns that field. */
    method SetPageSize(value: int32)
      modifies this
      ensures pageSize == value
      ensures startIndex == old(startIndex) && pageNumber == old(pageNumber)
    {
      pageSize := value;
    }

    method SetStartIndex(value: int32)
      modifies this
      ensures startIndex == value
      ensures pageSize == old(pageSize) && pageNumber == old(pageNumber)
    {
      startIndex := value;
    }

    method SetPageNumber(value: int32)
      modifies this
      ensures pageNumber == value
      ensures pageSize == old(pageSize) && startIndex == old(startIndex)
    {
      pageNumber := value;
    }
  }

  /** `PagedResult<TResult>`: one page of projected rows plus the paging
      metadata echoed from the request and the unpaged row count. */
  datatype PagedResult<R> = PagedResult(
    items: seq<R>,
    pageNumber: int,
    recordNumber: int,
    totalCount: int)
}
