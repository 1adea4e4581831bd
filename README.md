# News list rendering model

This project is a Dafny model of the news list component of a Bloomreach
reference single-page application (`src/components/NewsList.tsx`). The
component takes the paging metadata bound to it as `pageable`. It renders
one card per referenced news document, in reference order, and then a
pagination bar. The bar has a Previous control, one control per page number
to show, and a Next control. Each card shows only the truthy fields of its
document: title, author, date and introduction.

Modules:

- `Wrappers`: the `Option` type for absent bindings and fields.
- `Content`: references, document data, resolved documents, the `Pageable`
  paging metadata, the page context and JavaScript truthiness of the fields.
- `PageQuery`: the query string `?page=${n}`. It builds the integer's
  JavaScript text and has a parser that reads the page number back.
- `NewsListItem`: the blocks of one item card (`NewsListItem` in the source).
- `NewsListPagination`: the control list of the bar (`NewsListPagination`).
- `NewsList`: the component itself (`NewsList`).

The SDK's collaborators are parameters:

- The page context (`BrPageContext`) is an `Option<PageCtx>` argument.
- `page.getUrl` is the function value `PageCtx.getUrl`, left uninterpreted.
- `page.getContent` is a `map<Reference, Document>`.
- `document.getUrl()` is the `url` field of a `Document`.

The code resolves every item reference with a non-null assertion, so
unresolved references are not skipped: the model requires every reference to
resolve (`AllResolve`). The code marks every page number equal to
`currentPage` as active. So the model proves that the active count equals
the number of such entries, and that it is at most one when the page numbers
have no duplicates.

A zero date is falsy, yet `date && …` then evaluates to the number 0, which
React renders as the text "0". The model shows it as a bare `Text("0")`
block in the date's place.

## Model

| member | source | states |
|---|---|---|
| PageQuery.IntToText | src/components/NewsList.tsx:76 | JavaScript's text for an integer it writes in plain decimal (magnitude below 10^21): a minus sign exactly for negative numbers, then decimal digits without leading zeros |
| PageQuery.Query | src/components/NewsList.tsx:83 | the query for page N is `?page=` followed by the text of N |
| PageQuery.IntTextRoundTrip | src/components/NewsList.tsx:76 | the text written for an integer page number parses back to that integer |
| PageQuery.ParseIntCanonical | src/components/NewsList.tsx:76 | the only text read as integer N is the text written for N (no leading zeros, no `-0`) |
| PageQuery.QueryRoundTrip | src/components/NewsList.tsx:83 | the query `?page=N` built for a link parses back to page N |
| PageQuery.QueryCanonical | src/components/NewsList.tsx:83 | the only query naming page N is the one built for page N |
| PageQuery.QueryInjective | src/components/NewsList.tsx:83 | two page queries are equal exactly when their page numbers are equal |
| NewsListItem.ItemBlocks | src/components/NewsList.tsx:51-58 | a card has at most four blocks in the fixed order title, author, date (or the bare text of a zero date), introduction, each kind at most once; the title block links to the document's own URL; a bare-text block appears only for a zero date and reads "0" |
| NewsListItem.ItemBlocksShowTruthyFields | src/components/NewsList.tsx:45-58 | reading the fields back off a card gives exactly the document's truthy fields with their values; empty or absent fields show no block |
| NewsListItem.ZeroDateShowsZeroText | src/components/NewsList.tsx:57 | the bare text "0" appears exactly when the date is zero, and then no date line does |
| NewsListItem.OnlyTitleShowsOnlyHeading | src/components/NewsList.tsx:51-58 | a document with only a title gives only the title heading |
| NewsListPagination.NumberControls | src/components/NewsList.tsx:81-87 | one numbered control per page number, in order, active iff it equals the current page, linking to its page |
| NewsListPagination.Pagination | src/components/NewsList.tsx:64-97 | nothing is rendered iff the page context is absent or `showPagination` is false; otherwise Previous, exactly one control per page number, then Next, `pageNumbersArray` length plus two in all |
| NewsListPagination.PageLink | src/components/NewsList.tsx:83 | the link for page N is `page.getUrl` of a query naming page N |
| NewsListPagination.LinksToExactly | src/components/NewsList.tsx:76 | a target goes to page N through `page.getUrl` exactly when it is `page.getUrl("?page=" + N)` |
| NewsListPagination.PreviousControl | src/components/NewsList.tsx:75-79 | Previous is enabled iff `previous`; enabled its target is `page.getUrl("?page=" + previousPage)`, disabled it is `#` |
| NewsListPagination.NextControl | src/components/NewsList.tsx:88-92 | Next is enabled iff `next`; enabled its target is `page.getUrl("?page=" + nextPage)`, disabled it is `#` |
| NewsListPagination.NumberedControls | src/components/NewsList.tsx:81-87 | the control at position i+1 is for the i-th page number, active iff it is `currentPage`, with target `page.getUrl("?page=" + number)` |
| NewsListPagination.NumberControlsActiveCount | src/components/NewsList.tsx:81-82 | the numbered controls have as many active ones as there are page numbers equal to the current page |
| NewsListPagination.ActiveControlsCountCurrentPage | src/components/NewsList.tsx:82 | the whole bar has as many active controls as `pageNumbersArray` has occurrences of `currentPage` |
| NewsListPagination.AtMostOneActive | src/components/NewsList.tsx:82 | with no repeated page numbers at most one control is active |
| NewsListPagination.MiddleOfThreePages | src/components/NewsList.tsx:74-93 | pages 1 to 3 with page 2 current and both neighbours enabled give the five expected controls |
| NewsList.Cards | src/components/NewsList.tsx:32-34 | one card per reference, in order, keyed by its `$ref`, showing that reference's document |
| NewsList.Render | src/components/NewsList.tsx:22-38 | nothing iff there is no `pageable` binding; otherwise one card per item in order, keyed by `$ref`, then the pagination bar for the same `Pageable` |
| NewsList.CardsAppend | src/components/NewsList.tsx:32-34 | the cards of `a + b` are the cards of `a` followed by those of `b`, so reference order is kept |
| NewsList.CardShowsItsDocument | src/components/NewsList.tsx:33 | the i-th card shows exactly the truthy fields of the document the i-th reference resolves to |

## Left out

- Markup, CSS classes, `aria` attributes, screen-reader spans and `react-router-dom`'s `Link` are left out. The model has abstract blocks and controls instead.
- `BrManageContentButton` is left out. The edit affordance belongs to the SDK.
- `src/components/Banner.tsx` is left out. It only delegates to SDK calls (`getContent`, image renditions, `rewriteLinks`, `isPreview`, raw HTML).
- The internals of `page.getUrl`, `page.getContent`, `document.getData` and `document.getUrl` are left out. They are foreign SDK calls: an uninterpreted function value, a lookup map and plain fields.
- `new Date(date).toDateString()` is left out because it depends on locale and time zone. The date block carries the raw timestamp, shown iff it is present and non-zero; a zero date shows the bare text "0" instead.
- A `NaN` timestamp is not modelled. Such a date is falsy in JavaScript but is an ordinary integer here.
- An empty title, author or introduction makes React render an empty string, which shows nothing; the model has no block for it.
- Page numbers are integers. Fractional, `NaN` and very large numbers, which JavaScript writes in other notations, are not modelled.
- Invariants of the externally supplied paging data are not modelled: `previous` and `next` against `currentPage`, or the bounds and order of `pageNumbersArray`. The code never checks them.
- The error path for an unresolved item reference is not modelled. `page.getContent(reference)!` passes `undefined` on and `item.getData()` then throws during render; the model instead requires every reference to resolve (`AllResolve`).
- React keys are not checked for uniqueness. The model only records each card's key.
- Repeated rendering is not a separate property. Every operation is a function, so equal inputs give equal output.
