/**
 * The news list component: one card per referenced item, in reference
 * order, followed by the pagination bar for the same paging metadata;
 * nothing at all when the component has no `pageable` binding.
 */
module NewsList {
  import opened Wrappers
  import opened Content
  import NewsListItem
  import NewsListPagination

  /** A rendered item card, keyed by its reference's `$ref`. */
  datatype Card = Card(key: string, blocks: seq<NewsListItem.Block>)

  /** The rendered list: the cards, then what the pagination bar renders. */
  datatype ListView = ListView(cards: seq<Card>, pagination: Option<seq<NewsListPagination.Control>>)

  /** Every reference resolves in the page's content graph. */
  predicate AllResolve(items: seq<Reference>, content: map<Reference, Document>)
  {
    forall r :: r in items ==> r in content
  }

  /** The card for one reference. */
  function ItemCard(r: Reference, content: map<Reference, Document>): Card
    requires r in content
  {
    Card(r.id, NewsListItem.ItemBlocks(content[r]))
  }

  /** One card per reference, in the order of the references. */
  function Cards(items: seq<Reference>, content: map<Reference, Document>): (cards: seq<Card>)
    requires AllResolve(items, content)
    ensures |cards| == |items|
    ensures forall i :: 0 <= i < |items| ==>
      cards[i].key == items[i].id && cards[i].blocks == NewsListItem.ItemBlocks(content[items[i]])
  {
    if items == [] then [] else [ItemCard(items[0], content)] + Cards(items[1..], content)
  }

  /**
   * The component. `pageable` is the component's optional model binding,
   * `content` stands for the page's content resolution and `ctx` for the
   * page context the pagination bar reads.
   */
  function Render(pageable: Option<Pageable>, content: map<Reference, Document>, ctx: Option<PageCtx>)
    : (r: Option<ListView>)
    requires pageable.Some? ==> AllResolve(pageable.value.items, content)
    ensures r.None? <==> pageable.None?
    ensures r.Some? ==>
      && |r.value.cards| == |pageable.value.items|
      && (forall i :: 0 <= i < |r.value.cards| ==>
            && r.value.cards[i].key == pageable.value.items[i].id
            && r.value.cards[i].blocks == NewsListItem.ItemBlocks(content[pageable.value.items[i]]))
      && r.value.pagination == NewsListPagination.Pagination(pageable.value, ctx)
  {
    if pageable.None? then None
    else Some(ListView(Cards(pageable.value.items, content), NewsListPagination.Pagination(pageable.value, ctx)))
  }

  /** Rendering the references of `a` then those of `b` is rendering `a + b`: order is kept. */
  lemma CardsAppend(a: seq<Reference>, b: seq<Reference>, content: map<Reference, Document>)
    requires AllResolve(a, content) && AllResolve(b, content)
    ensures AllResolve(a + b, content)
    ensures Cards(a + b, content) == Cards(a, content) + Cards(b, content)
  {
  }

  /** Each card shows its own document's truthy fields and nothing else. */
  lemma CardShowsItsDocument(pageable: Pageable, content: map<Reference, Document>, ctx: Option<PageCtx>, i: int)
    requires AllResolve(pageable.items, content) && 0 <= i < |pageable.items|
    ensures var card := Render(Some(pageable), content, ctx).value.cards[i];
      NewsListItem.Recover(card.blocks) == NewsListItem.Normalize(content[pageable.items[i]].data)
  {
    NewsListItem.ItemBlocksShowTruthyFields(content[pageable.items[i]]);
  }
}
