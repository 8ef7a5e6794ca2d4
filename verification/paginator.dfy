/**
 * Pagination of a listing into fixed windows of `PostsOnPage` items.
 *
 * The page-number handling follows the framework paginator's `get_page`:
 * an absent or non-integer page parameter gives page 1, and a number below 1
 * or past the last page gives the last page. A listing with no items still
 * has one (empty) page.
 */
module Paginator {
  import opened Options

  /** Posts shown on one page of every listing. */
  const PostsOnPage: nat := 10

  /** One page of a listing: its 1-based number, the page count and its items. */
  datatype Page<T> = Page(number: nat, numPages: nat, items: seq<T>)

  /** The number of pages `count` items fill: the ceiling of count / 10, and at least one. */
  function NumPages(count: nat): (n: nat)
    ensures n >= 1
    ensures count == 0 ==> n == 1
    ensures count <= n * PostsOnPage
    ensures count == 0 || (n - 1) * PostsOnPage < count
  {
    if count == 0 then 1 else (count + PostsOnPage - 1) / PostsOnPage
  }

  /**
   * The page actually shown for the raw `page` parameter. `None` stands for a
   * parameter that is absent or not an integer.
   */
  function PageNumber(requested: Option<int>, count: nat): (k: nat)
    ensures 1 <= k <= NumPages(count)
    ensures requested.None? ==> k == 1
    ensures requested.Some? && 1 <= requested.value <= NumPages(count) ==> k == requested.value
    ensures requested.Some? && !(1 <= requested.value <= NumPages(count)) ==> k == NumPages(count)
  {
    match requested
    case None => 1
    case Some(n) => if 1 <= n <= NumPages(count) then n else NumPages(count)
  }

  /** Index of the first item of page `k`. */
  function Start(k: nat): nat
    requires k >= 1
  {
    (k - 1) * PostsOnPage
  }

  /** Index one past the last item of page `k` of a listing of `count` items. */
  function End(k: nat, count: nat): nat
    requires k >= 1
  {
    if Start(k) + PostsOnPage <= count then Start(k) + PostsOnPage else count
  }

  /** The items of page `k`, in listing order. */
  function Window<T>(items: seq<T>, k: nat): (w: seq<T>)
    requires 1 <= k <= NumPages(|items|)
    ensures |w| <= PostsOnPage
    ensures k < NumPages(|items|) ==> |w| == PostsOnPage
    ensures k == NumPages(|items|) ==> Start(k) + |w| == |items|
    ensures |items| > 0 ==> |w| > 0
    ensures Start(k) + |w| <= |items|
    ensures forall i :: 0 <= i < |w| ==> w[i] == items[Start(k) + i]
  {
    items[Start(k)..End(k, |items|)]
  }

  /** `paginator.get_page(page)` over `items`. */
  function Paginate<T>(items: seq<T>, requested: Option<int>): (p: Page<T>)
    ensures p.numPages == NumPages(|items|)
    ensures 1 <= p.number <= p.numPages
    ensures p.items == Window(items, p.number)
    ensures |p.items| <= PostsOnPage
    ensures requested.None? ==> p.number == 1
    ensures requested.Some? && 1 <= requested.value <= p.numPages ==> p.number == requested.value
    ensures requested.Some? && !(1 <= requested.value <= p.numPages) ==> p.number == p.numPages
  {
    var k := PageNumber(requested, |items|);
    Page(k, NumPages(|items|), Window(items, k))
  }

  /** Pages 1 to `k` laid end to end. */
  function Pages<T>(items: seq<T>, k: nat): seq<T>
    requires k <= NumPages(|items|)
  {
    if k == 0 then [] else Pages(items, k - 1) + Window(items, k)
  }

  /** Pages 1 to `k` are exactly the first `k * 10` items (or all of them). */
  lemma {:induction false} PagesArePrefix<T>(items: seq<T>, k: nat)
    requires k <= NumPages(|items|)
    ensures k >= 1 ==> Pages(items, k) == items[..End(k, |items|)]
    ensures k == 0 ==> Pages(items, k) == []
  {
    if k >= 2 {
      PagesArePrefix(items, k - 1);
      assert End(k - 1, |items|) == Start(k);
      assert items[..Start(k)] + items[Start(k)..End(k, |items|)] == items[..End(k, |items|)];
    }
  }

  /** The pages tile the listing: every item is on exactly one page, in order. */
  lemma PagesTile<T>(items: seq<T>)
    ensures Pages(items, NumPages(|items|)) == items
  {
    var n := NumPages(|items|);
    PagesArePrefix(items, n);
    assert End(n, |items|) == |items|;
  }

  /** Every item of a listing is shown on page i / 10 + 1, at position i % 10 of that page. */
  lemma ItemOnItsPage<T>(items: seq<T>, i: nat)
    requires i < |items|
    ensures var p := Paginate(items, Some(i / PostsOnPage + 1));
            && p.number == i / PostsOnPage + 1
            && i % PostsOnPage < |p.items|
            && p.items[i % PostsOnPage] == items[i]
  {
    var k := i / PostsOnPage + 1;
    var n := NumPages(|items|);
    assert Start(k) + i % PostsOnPage == i;
    assert k <= n by {
      assert (k - 1) * PostsOnPage <= i < |items| <= n * PostsOnPage;
    }
    if k < n {
      assert |Window(items, k)| == PostsOnPage;
    } else {
      assert Start(k) + |Window(items, k)| == |items|;
    }
  }

  /** The page on which an item of the listing is shown. */
  lemma PageOf<T>(items: seq<T>, x: T) returns (k: nat)
    requires x in items
    ensures 1 <= k <= NumPages(|items|)
    ensures x in Paginate(items, Some(k)).items
  {
    var i :| 0 <= i < |items| && items[i] == x;
    ItemOnItsPage(items, i);
    k := i / PostsOnPage + 1;
    assert Paginate(items, Some(k)).items[i % PostsOnPage] == x;
  }

  /** Thirteen items make a full first page of ten and a second page of three. */
  lemma ThirteenItems<T>(items: seq<T>)
    requires |items| == 13
    ensures NumPages(|items|) == 2
    ensures Paginate(items, Some(1)).items == items[..10]
    ensures Paginate(items, Some(2)).items == items[10..]
    ensures |Paginate(items, Some(1)).items| == 10 && |Paginate(items, Some(2)).items| == 3
  {
  }
}
