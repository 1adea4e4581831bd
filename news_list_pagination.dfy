/**
 * The pagination bar: a Previous control, one control per page number to
 * show, and a Next control, each with the link it navigates to.
 */
module NewsListPagination {
  import opened Wrappers
  import opened Content
  import PageQuery

  /** The placeholder target of a disabled control. */
  const Inert: Url := "#"

  /** One control of the pagination bar. */
  datatype Control =
    | Prev(enabled: bool, target: Url)
    | Num(n: int, active: bool, target: Url)
    | Next(enabled: bool, target: Url)

  /** A link target that goes to page `n` through the page's URL builder. */
  ghost predicate LinksTo(page: PageCtx, target: Url, n: int)
  {
    exists q :: PageQuery.ParseQuery(q) == Some(n) && target == page.getUrl(q)
  }

  /** The link to page `n`: the page's own URL with the query `?page=n`. */
  function PageLink(page: PageCtx, n: int): (l: Url)
    ensures LinksTo(page, l, n)
  {
    PageQuery.QueryRoundTrip(n);
    page.getUrl(PageQuery.Query(n))
  }

  /** A target goes to page `n` exactly when it is the link built for page `n`. */
  lemma LinksToExactly(page: PageCtx, target: Url, n: int)
    ensures LinksTo(page, target, n) <==> target == PageLink(page, n)
  {
    if LinksTo(page, target, n) {
      var q :| PageQuery.ParseQuery(q) == Some(n) && target == page.getUrl(q);
      PageQuery.QueryCanonical(q, n);
    }
  }

  /** The controls for the page numbers, in the order of `nums`. */
  function NumberControls(page: PageCtx, nums: seq<int>, current: int): (cs: seq<Control>)
    ensures |cs| == |nums|
    ensures forall i :: 0 <= i < |nums| ==>
      cs[i].Num? && cs[i].n == nums[i] && (cs[i].active <==> nums[i] == current)
      && cs[i].target == PageLink(page, nums[i])
  {
    if nums == [] then []
    else [Num(nums[0], nums[0] == current, PageLink(page, nums[0]))] + NumberControls(page, nums[1..], current)
  }

  /**
   * The bar rendered from the paging metadata and the page context: nothing
   * without a page context or when pagination is not requested, otherwise
   * Previous, the numbered controls, Next.
   */
  function Pagination(p: Pageable, ctx: Option<PageCtx>): (r: Option<seq<Control>>)
    ensures r.None? <==> ctx.None? || !p.showPagination
    ensures r.Some? ==>
      && |r.value| == |p.pageNumbersArray| + 2
      && r.value[0].Prev? && r.value[|r.value| - 1].Next?
      && forall i :: 1 <= i < |r.value| - 1 ==> r.value[i].Num?
  {
    if ctx.None? || !p.showPagination then None
    else
      var page := ctx.value;
      var prev := Prev(p.previous, if p.previous then PageLink(page, p.previousPage) else Inert);
      var next := Next(p.next, if p.next then PageLink(page, p.nextPage) else Inert);
      Some([prev] + NumberControls(page, p.pageNumbersArray, p.currentPage) + [next])
  }

  /**
   * Previous is enabled exactly when `previous` holds; enabled it goes to
   * `previousPage`, disabled it targets the placeholder.
   */
  lemma PreviousControl(p: Pageable, page: PageCtx)
    requires p.showPagination
    ensures var c := Pagination(p, Some(page)).value[0];
      c.Prev? && (c.enabled <==> p.previous)
      && (c.enabled ==> c.target == PageLink(page, p.previousPage) && LinksTo(page, c.target, p.previousPage))
      && (!c.enabled ==> c.target == Inert)
  {
  }

  /**
   * Next is enabled exactly when `next` holds; enabled it goes to
   * `nextPage`, disabled it targets the placeholder.
   */
  lemma NextControl(p: Pageable, page: PageCtx)
    requires p.showPagination
    ensures var cs := Pagination(p, Some(page)).value;
      var c := cs[|cs| - 1];
      c.Next? && (c.enabled <==> p.next)
      && (c.enabled ==> c.target == PageLink(page, p.nextPage) && LinksTo(page, c.target, p.nextPage))
      && (!c.enabled ==> c.target == Inert)
  {
  }

  /**
   * Between Previous and Next sits one control per entry of
   * `pageNumbersArray`, in order, active exactly when it is the current page,
   * linking to its own page.
   */
  lemma NumberedControls(p: Pageable, page: PageCtx, i: int)
    requires p.showPagination && 0 <= i < |p.pageNumbersArray|
    ensures var c := Pagination(p, Some(page)).value[i + 1];
      c.Num? && c.n == p.pageNumbersArray[i]
      && (c.active <==> p.pageNumbersArray[i] == p.currentPage)
      && c.target == PageLink(page, p.pageNumbersArray[i])
      && LinksTo(page, c.target, p.pageNumbersArray[i])
  {
  }

  /** How many controls in `cs` are marked active. */
  function ActiveCount(cs: seq<Control>): nat
  {
    if cs == [] then 0 else (if cs[0].Num? && cs[0].active then 1 else 0) + ActiveCount(cs[1..])
  }

  lemma {:induction false} ActiveCountAppend(a: seq<Control>, b: seq<Control>)
    ensures ActiveCount(a + b) == ActiveCount(a) + ActiveCount(b)
  {
    if a == [] {
      assert a + b == b;
    } else {
      assert (a + b)[0] == a[0];
      assert (a + b)[1..] == a[1..] + b;
      ActiveCountAppend(a[1..], b);
    }
  }

  lemma {:induction false} NumberControlsActiveCount(page: PageCtx, nums: seq<int>, current: int)
    ensures ActiveCount(NumberControls(page, nums, current)) == multiset(nums)[current]
  {
    if nums != [] {
      NumberControlsActiveCount(page, nums[1..], current);
      assert nums == [nums[0]] + nums[1..];
      assert multiset(nums) == multiset{nums[0]} + multiset(nums[1..]);
    }
  }

  /**
   * The bar has as many active controls as `pageNumbersArray` has entries
   * equal to `currentPage`.
   */
  lemma ActiveControlsCountCurrentPage(p: Pageable, page: PageCtx)
    requires p.showPagination
    ensures ActiveCount(Pagination(p, Some(page)).value) == multiset(p.pageNumbersArray)[p.currentPage]
  {
    var prev := Pagination(p, Some(page)).value[0];
    var cs := Pagination(p, Some(page)).value;
    var nums := NumberControls(page, p.pageNumbersArray, p.currentPage);
    var next := cs[|cs| - 1];
    assert cs == [prev] + nums + [next];
    ActiveCountAppend([prev] + nums, [next]);
    ActiveCountAppend([prev], nums);
    NumberControlsActiveCount(page, p.pageNumbersArray, p.currentPage);
  }

  /** Entries of `s` are pairwise distinct. */
  predicate NoDuplicates(s: seq<int>)
  {
    forall i, j :: 0 <= i < j < |s| ==> s[i] != s[j]
  }

  lemma {:induction false} NoDuplicatesCount(s: seq<int>, x: int)
    requires NoDuplicates(s)
    ensures multiset(s)[x] <= 1
  {
    if s != [] {
      NoDuplicatesCount(s[1..], x);
      assert s == [s[0]] + s[1..];
      if s[0] == x {
        assert x !in s[1..];
      }
    }
  }

  /** Without repeated page numbers, at most one control is active. */
  lemma AtMostOneActive(p: Pageable, page: PageCtx)
    requires p.showPagination && NoDuplicates(p.pageNumbersArray)
    ensures ActiveCount(Pagination(p, Some(page)).value) <= 1
  {
    ActiveControlsCountCurrentPage(p, page);
    NoDuplicatesCount(p.pageNumbersArray, p.currentPage);
  }

  /**
   * Pages 1 to 3 with page 2 current: three numbered links, the second
   * active, Previous to page 1 and Next to page 3.
   */
  lemma MiddleOfThreePages(p: Pageable, page: PageCtx)
    requires p.pageNumbersArray == [1, 2, 3] && p.currentPage == 2
    requires p.previous && p.previousPage == 1 && p.next && p.nextPage == 3 && p.showPagination
    ensures Pagination(p, Some(page)) == Some([
      Prev(true, PageLink(page, 1)),
      Num(1, false, PageLink(page, 1)),
      Num(2, true, PageLink(page, 2)),
      Num(3, false, PageLink(page, 3)),
      Next(true, PageLink(page, 3))])
  {
    var prev, next := Prev(true, PageLink(page, 1)), Next(true, PageLink(page, 3));
    var n1, n2, n3 := Num(1, false, PageLink(page, 1)), Num(2, true, PageLink(page, 2)), Num(3, false, PageLink(page, 3));
    var nums := NumberControls(page, [1, 2, 3], 2);
    assert nums == [n1, n2, n3];
    assert [prev] + [n1, n2, n3] + [next] == [prev, n1, n2, n3, next];
  }
}
