/** Length-aware pagination as the query builder's `paginate` performs it:
    count the matching rows, fetch one page with offset `(page - 1) * perPage`
    and limit `perPage`, and report the page numbers around it. */
module Pagination {
  import opened Php
  import opened Json

  /** `Model::$perPage`, the page size used when none is given. */
  const DEFAULT_PER_PAGE: nat := 15

  /** The first page, used when none is given. */
  const DEFAULT_PAGE: nat := 1

  /** `max(ceil(total / perPage), 1)`. */
  function LastPage(total: nat, perPage: nat): (r: nat)
    requires perPage >= 1
    ensures r >= 1
    ensures total <= r * perPage
    ensures r == 1 || (r - 1) * perPage < total
  {
    if total == 0 then 1
    else
      var q := (total + perPage - 1) / perPage;
      assert q * perPage <= total + perPage - 1 < (q + 1) * perPage;
      q
  }

  function Offset(page: nat, perPage: nat): nat
    requires page >= 1
  {
    (page - 1) * perPage
  }

  /** `forPage($page, $perPage)`: the rows of the given page. */
  function ForPage<T>(s: seq<T>, page: nat, perPage: nat): (r: seq<T>)
    requires page >= 1 && perPage >= 1
    ensures |r| <= perPage
    ensures Offset(page, perPage) >= |s| <==> r == []
    ensures Offset(page, perPage) < |s| ==> Offset(page, perPage) + |r| <= |s|
    ensures Offset(page, perPage) < |s| ==> r == s[Offset(page, perPage)..Offset(page, perPage) + |r|]
    ensures Offset(page, perPage) < |s| ==> |r| == perPage || Offset(page, perPage) + |r| == |s|
  {
    var o := Offset(page, perPage);
    if o >= |s| then [] else if o + perPage <= |s| then s[o..o + perPage] else s[o..]
  }

  /** The pages `k`, `k + 1`, …, `last`, one after the other. */
  function PagesFrom<T>(s: seq<T>, perPage: nat, k: nat, last: nat): seq<T>
    requires k >= 1 && perPage >= 1
    decreases last + 1 - k
  {
    if k > last then [] else ForPage(s, k, perPage) + PagesFrom(s, perPage, k + 1, last)
  }

  lemma OffsetStep(k: nat, perPage: nat)
    requires k >= 1
    ensures Offset(k + 1, perPage) == Offset(k, perPage) + perPage
  {
  }

  lemma {:induction false} PagesFromSuffix<T>(s: seq<T>, perPage: nat, k: nat, last: nat)
    requires k >= 1 && perPage >= 1 && k <= last + 1
    requires |s| <= Offset(last + 1, perPage)
    ensures PagesFrom(s, perPage, k, last) == s[if Offset(k, perPage) <= |s| then Offset(k, perPage) else |s|..]
    decreases last + 1 - k
  {
    if k <= last {
      PagesFromSuffix(s, perPage, k + 1, last);
      OffsetStep(k, perPage);
      var o := Offset(k, perPage);
      if o < |s| && o + perPage <= |s| {
        assert s[o..] == s[o..o + perPage] + s[o + perPage..];
      }
    }
  }

  /** Paging through pages 1 to `lastPage` yields every row once, in order. */
  lemma PagesCover<T>(s: seq<T>, perPage: nat)
    requires perPage >= 1
    ensures PagesFrom(s, perPage, 1, LastPage(|s|, perPage)) == s
  {
    var last := LastPage(|s|, perPage);
    assert Offset(last + 1, perPage) == last * perPage;
    PagesFromSuffix(s, perPage, 1, last);
  }

  /** A page past the last one is empty. */
  lemma PastLastPageEmpty<T>(s: seq<T>, page: nat, perPage: nat)
    requires page >= 1 && perPage >= 1 && page > LastPage(|s|, perPage)
    ensures ForPage(s, page, perPage) == []
  {
    var last := LastPage(|s|, perPage);
    assert (page - 1) * perPage >= last * perPage;
  }

  /** What a `LengthAwarePaginator` holds. */
  datatype Paginator<T> = Paginator(items: seq<T>, total: nat, perPage: nat, currentPage: nat)

  predicate ValidPaginator<T>(p: Paginator<T>) {
    p.perPage >= 1 && p.currentPage >= 1
  }

  /** `paginate($perPage, ['*'], 'page', $page)` over the ordered result `s`. */
  function Paginate<T>(s: seq<T>, perPage: nat, page: nat): (p: Paginator<T>)
    requires perPage >= 1 && page >= 1
    ensures ValidPaginator(p)
    ensures p.total == |s| && p.perPage == perPage && p.currentPage == page
    ensures p.items == ForPage(s, page, perPage)
  {
    Paginator(ForPage(s, page, perPage), |s|, perPage, page)
  }

  function PaginatorLastPage<T>(p: Paginator<T>): nat
    requires ValidPaginator(p)
  {
    LastPage(p.total, p.perPage)
  }

  /** `previousPageUrl()`: page `current - 1`, absent on page 1. */
  function PrevPage<T>(p: Paginator<T>): (r: Option<nat>)
    requires ValidPaginator(p)
    ensures r.None? <==> p.currentPage == 1
    ensures r.Some? ==> r.value + 1 == p.currentPage
  {
    if p.currentPage > 1 then Some(p.currentPage - 1) else None
  }

  /** `nextPageUrl()`: page `current + 1` while `hasMorePages()`. */
  function NextPage<T>(p: Paginator<T>): (r: Option<nat>)
    requires ValidPaginator(p)
    ensures r.None? <==> p.currentPage >= PaginatorLastPage(p)
    ensures r.Some? ==> r.value == p.currentPage + 1
  {
    if p.currentPage < PaginatorLastPage(p) then Some(p.currentPage + 1) else None
  }

  /** `firstItem()`: the 1-based position of the page's first row. */
  function FirstItem<T>(p: Paginator<T>): (r: Option<nat>)
    requires ValidPaginator(p)
    ensures r.None? <==> p.items == []
    ensures r.Some? ==> r.value == Offset(p.currentPage, p.perPage) + 1
  {
    if p.items == [] then None else Some(Offset(p.currentPage, p.perPage) + 1)
  }

  /** `lastItem()`: the 1-based position of the page's last row. */
  function LastItem<T>(p: Paginator<T>): (r: Option<nat>)
    requires ValidPaginator(p)
    ensures r.None? <==> p.items == []
    ensures r.Some? ==> r.value == Offset(p.currentPage, p.perPage) + |p.items|
  {
    if p.items == [] then None else Some(Offset(p.currentPage, p.perPage) + |p.items|)
  }

  function PageUrl(n: Option<nat>): (j: Json)
    ensures n.None? <==> j == JNull
  {
    if n.Some? then JUrl(n.value) else JNull
  }

  /** `{first, last, prev, next}`: URLs of page 1, of the last page, and of
      the neighbours that exist. */
  function LinksJson<T>(p: Paginator<T>): (fs: seq<(string, Json)>)
    requires ValidPaginator(p)
    ensures Keys(fs) == ["first", "last", "prev", "next"]
    ensures Lookup(fs, "first") == Some(JUrl(1))
    ensures Lookup(fs, "last") == Some(JUrl(PaginatorLastPage(p)))
    ensures Lookup(fs, "prev") == Some(PageUrl(PrevPage(p)))
    ensures Lookup(fs, "next") == Some(PageUrl(NextPage(p)))
  {
    [("first", JUrl(1)),
     ("last", JUrl(PaginatorLastPage(p))),
     ("prev", PageUrl(PrevPage(p))),
     ("next", PageUrl(NextPage(p)))]
  }
}
