/**
 * The data the news list receives from the content-management runtime:
 * item references, document data, the paging metadata and the page
 * context whose URL builder the pagination bar uses.
 */
module Content {
  import opened Wrappers

  type Url = string

  /** An opaque reference into the page's content graph; `id` is its `$ref` key. */
  datatype Reference = Reference(id: string)

  /** The optional fields of a news document; `date` is a timestamp. */
  datatype DocumentData = DocumentData(
    title: Option<string>,
    author: Option<string>,
    date: Option<int>,
    introduction: Option<string>)

  /** A resolved document: its data and what its `getUrl()` returns. */
  datatype Document = Document(data: DocumentData, url: Option<Url>)

  /** The paging metadata bound to the component as `pageable`. */
  datatype Pageable = Pageable(
    items: seq<Reference>,
    currentPage: int,
    totalPages: int,
    pageNumbersArray: seq<int>,
    previous: bool,
    previousPage: int,
    next: bool,
    nextPage: int,
    showPagination: bool)

  /** The page handle from the page context; only its URL builder is used here. */
  datatype PageCtx = PageCtx(getUrl: string -> Url)

  /** JavaScript truthiness of an optional string: present and not empty. */
  predicate TruthyText(s: Option<string>) { s.Some? && s.value != "" }

  /** JavaScript truthiness of an optional timestamp: present and not zero. */
  predicate TruthyDate(d: Option<int>) { d.Some? && d.value != 0 }
}
