/** The donations page's buffered pagination. The page number and size
    live in the URL; the page fetches a block of `BufferPages` pages at
    once from the `offset`/`limit` endpoint and cuts the requested page out
    of that block, so moving between pages of one block needs no new
    request. */
module DonationsPage {
  import opened Wrappers
  import opened Types
  import JsBuiltins

  const BufferPages: int := 5
  const DefaultPage: int := 1
  const DefaultPageSize: int := 10

  /** The validated URL search record: `page` is 1-based. A missing
      parameter is `None`. (The coercion and fallback of malformed values
      are not modelled: the record holds integers already.) */
  datatype Search = Search(page: Option<int>, pageSize: Option<int>)

  /** The table's pagination state: `pageIndex` is 0-based. */
  datatype Pagination = Pagination(pageIndex: int, pageSize: int)

  /** The request and the local cut derived from one pagination state. */
  datatype Window = Window(fetchOffset: int, fetchLimit: int, sliceStart: int, sliceEnd: int)

  /** Reading the URL: a missing page means the first page, a missing size
      means 10 rows. */
  function PaginationOf(search: Search): (p: Pagination)
    ensures search.page.None? ==> p.pageIndex == 0
    ensures search.page.Some? ==> p.pageIndex + 1 == search.page.value
    ensures search.pageSize.None? ==> p.pageSize == DefaultPageSize
    ensures search.pageSize.Some? ==> p.pageSize == search.pageSize.value
  {
    Pagination(search.page.GetOr(DefaultPage) - 1, search.pageSize.GetOr(DefaultPageSize))
  }

  /** The block to fetch and the cut to take from it. `Math.floor` of the
      block number is Dafny's `/` (the divisor is positive); the position
      inside the block uses JavaScript's `%`. For a non-negative page the
      cut lies inside the block and starts exactly where the page starts
      globally. */
  function FetchWindow(p: Pagination): (w: Window)
    ensures w.fetchLimit == BufferPages * p.pageSize
    ensures w.sliceEnd - w.sliceStart == p.pageSize
    ensures w.fetchOffset == (p.pageIndex / BufferPages) * w.fetchLimit
    ensures p.pageIndex >= 0 && p.pageSize >= 0 ==>
      && 0 <= w.sliceStart
      && w.sliceEnd <= w.fetchLimit
      && w.fetchOffset + w.sliceStart == p.pageIndex * p.pageSize
  {
    var bufferIndex := p.pageIndex / BufferPages;
    var fetchLimit := p.pageSize * BufferPages;
    var fetchOffset := bufferIndex * fetchLimit;
    var relativePageIndex := JsBuiltins.Rem(p.pageIndex, BufferPages);
    var sliceStart := relativePageIndex * p.pageSize;
    var sliceEnd := sliceStart + p.pageSize;
    assert p.pageIndex >= 0 ==>
      0 <= relativePageIndex < BufferPages &&
      p.pageIndex == bufferIndex * BufferPages + relativePageIndex;
    assert p.pageIndex >= 0 && p.pageSize >= 0 ==>
      sliceEnd == (relativePageIndex + 1) * p.pageSize <= BufferPages * p.pageSize
    by {
      if p.pageIndex >= 0 && p.pageSize >= 0 {
        MulMonotone(relativePageIndex + 1, BufferPages, p.pageSize);
      }
    }
    Distribute(bufferIndex, BufferPages, relativePageIndex, p.pageSize);
    Window(fetchOffset, fetchLimit, sliceStart, sliceEnd)
  }

  lemma MulMonotone(a: int, b: int, c: int)
    requires a <= b && c >= 0
    ensures a * c <= b * c
  {
  }

  lemma Distribute(q: int, d: int, r: int, s: int)
    ensures (q * d + r) * s == q * (s * d) + r * s
  {
  }

  /** The rows of the fetched block (none while the request has not
      answered). */
  function BufferedData(response: Option<PaginatedResponse<Donation>>): (data: seq<Donation>)
    ensures response.None? ==> data == []
    ensures response.Some? ==> data == response.value.data
  {
    match response
    case Some(r) => r.data
    case None => []
  }

  /** `meta.total || 0`: the backend's total when there is a response,
      and 0 before it (`|| 0` leaves an integer total as it is). */
  function RowCount(response: Option<PaginatedResponse<Donation>>): (n: int)
    ensures response.None? ==> n == 0
    ensures response.Some? ==> n == response.value.total
  {
    match response
    case Some(r) => r.total
    case None => 0
  }

  /** The rows the table shows: the page's cut of the fetched block. */
  function Displayed(response: Option<PaginatedResponse<Donation>>, p: Pagination): (shown: seq<Donation>)
    ensures response.None? ==> shown == []
    ensures p.pageSize >= 0 ==> |shown| <= p.pageSize
  {
    var w := FetchWindow(p);
    JsBuiltins.Slice(BufferedData(response), w.sliceStart, w.sliceEnd)
  }

  /** What the `offset`/`limit` endpoint is taken to answer: the rows of
      the whole ordered ledger from `offset` on, at most `limit` of them. */
  function Rows<T>(all: seq<T>, offset: nat, limit: nat): (r: seq<T>)
    ensures |r| <= limit
  {
    var a := if offset <= |all| then offset else |all|;
    var b := if offset + limit <= |all| then offset + limit else |all|;
    all[a..b]
  }

  function Fetch(all: seq<Donation>, w: Window): PaginatedResponse<Donation>
    requires w.fetchOffset >= 0 && w.fetchLimit >= 0
  {
    PaginatedResponse(Rows(all, w.fetchOffset, w.fetchLimit), |all|)
  }

  /** Taking `count` rows at `start` out of a block that begins at
      `offset` of the ledger gives the ledger's rows at `offset + start`,
      provided the cut lies inside the block. */
  lemma RowsOfRows<T>(all: seq<T>, offset: nat, limit: nat, start: nat, count: nat)
    requires start + count <= limit
    ensures JsBuiltins.Slice(Rows(all, offset, limit), start, start + count)
            == Rows(all, offset + start, count)
  {
    var block := Rows(all, offset, limit);
    var a := JsBuiltins.RelativeIndex(start, |block|);
    var b := JsBuiltins.RelativeIndex(start + count, |block|);
    var r := Rows(all, offset + start, count);
    var lo := if offset <= |all| then offset else |all|;
    assert |block| == (if offset + limit <= |all| then offset + limit else |all|) - lo;
    if a < b {
      assert JsBuiltins.Slice(block, start, start + count) == block[a..b];
      assert |block[a..b]| == |r|;
      forall k | 0 <= k < |r|
        ensures block[a..b][k] == r[k]
      {
        assert block[a + k] == all[lo + a + k];
      }
    } else {
      assert |r| == 0;
    }
  }

  /** The key property: for any page at or after the first, the rows shown
      are exactly the ledger's rows `[pageIndex * pageSize, pageIndex *
      pageSize + pageSize)`. */
  lemma DisplayedIsGlobalPage(all: seq<Donation>, p: Pagination)
    requires p.pageIndex >= 0 && p.pageSize >= 0
    ensures var w := FetchWindow(p);
      w.fetchOffset >= 0 && w.fetchLimit >= 0 &&
      p.pageIndex * p.pageSize >= 0 &&
      Displayed(Some(Fetch(all, w)), p) == Rows(all, p.pageIndex * p.pageSize, p.pageSize)
  {
    var w := FetchWindow(p);
    MulNonNegative(p.pageIndex / BufferPages, w.fetchLimit);
    MulNonNegative(p.pageIndex, p.pageSize);
    var offset: nat, limit: nat, start: nat := w.fetchOffset, w.fetchLimit, w.sliceStart;
    var block := Rows(all, offset, limit);
    assert BufferedData(Some(Fetch(all, w))) == block;
    assert w.sliceEnd == start + p.pageSize;
    assert Displayed(Some(Fetch(all, w)), p) == JsBuiltins.Slice(block, start, start + p.pageSize);
    RowsOfRows(all, offset, limit, start, p.pageSize);
    assert offset + start == p.pageIndex * p.pageSize;
  }

  lemma MulNonNegative(x: int, y: int)
    requires x >= 0 && y >= 0
    ensures x * y >= 0
  {
  }

  /** Two pages of the same size fetch with the same `offset` and `limit`
      exactly when they lie in the same block of five: paging inside a
      block reuses the request, crossing a block boundary makes a new one. */
  lemma SameBlockSameFetch(p: Pagination, q: Pagination)
    requires p.pageSize == q.pageSize
    ensures p.pageIndex / BufferPages == q.pageIndex / BufferPages ==>
      FetchWindow(p).fetchOffset == FetchWindow(q).fetchOffset &&
      FetchWindow(p).fetchLimit == FetchWindow(q).fetchLimit
    ensures p.pageSize > 0 ==>
      ((FetchWindow(p).fetchOffset == FetchWindow(q).fetchOffset &&
        FetchWindow(p).fetchLimit == FetchWindow(q).fetchLimit)
       <==> p.pageIndex / BufferPages == q.pageIndex / BufferPages)
  {
    var wp, wq := FetchWindow(p), FetchWindow(q);
    var bp, bq := p.pageIndex / BufferPages, q.pageIndex / BufferPages;
    assert wp.fetchOffset == bp * wp.fetchLimit && wq.fetchOffset == bq * wp.fetchLimit;
    if p.pageSize > 0 && wp.fetchOffset == wq.fetchOffset {
      CancelFactor(bp, bq, wp.fetchLimit);
    }
  }

  /** A positive factor cancels. */
  lemma CancelFactor(a: int, b: int, c: int)
    requires c > 0 && a * c == b * c
    ensures a == b
  {
  }

  /** URL page 7 with 10 rows a page: the block of pages 6 to 10 is
      fetched at offset 50 with limit 50, and rows 10 to 19 of it are
      shown. */
  lemma SeventhPageExample()
    ensures FetchWindow(PaginationOf(Search(Some(7), Some(10)))) == Window(50, 50, 10, 20)
  {
  }

  /** `shown` is the run of `data` that starts at index `a`. */
  ghost predicate IsRunAt<T>(shown: seq<T>, data: seq<T>, a: int)
  {
    0 <= a && a + |shown| <= |data| && shown == data[a..a + |shown|]
  }

  /** Whatever the page, the rows shown are one contiguous run of the
      fetched block. */
  lemma DisplayedIsContiguous(response: Option<PaginatedResponse<Donation>>, p: Pagination)
    ensures var data, shown := BufferedData(response), Displayed(response, p);
      exists a :: IsRunAt(shown, data, a)
  {
    var data, w := BufferedData(response), FetchWindow(p);
    var a := JsBuiltins.RelativeIndex(w.sliceStart, |data|);
    var b := JsBuiltins.RelativeIndex(w.sliceEnd, |data|);
    if a < b {
      assert Displayed(response, p) == data[a..b];
      assert IsRunAt(Displayed(response, p), data, a);
    } else {
      assert IsRunAt(Displayed(response, p), data, 0);
    }
  }

  /** A pagination change as the table reports it: the new state itself,
      or a function of the current state. */
  datatype Updater = Value(next: Pagination) | Apply(f: Pagination -> Pagination)

  /** `setPagination`: the search record it navigates to, with the 0-based
      index written back as a 1-based page. */
  function SetPagination(current: Pagination, u: Updater): (s: Search)
    ensures s.page.Some? && s.pageSize.Some?
  {
    var next := match u
      case Value(n) => n
      case Apply(f) => f(current);
    Search(Some(next.pageIndex + 1), Some(next.pageSize))
  }

  /** Writing a pagination state to the URL and reading it back gives the
      same state. */
  lemma PaginationRoundTrip(current: Pagination, u: Updater)
    ensures PaginationOf(SetPagination(current, u)) ==
      match u
      case Value(n) => n
      case Apply(f) => f(current)
  {
  }

  /** Reading a URL that names both parameters and writing the result
      back gives the same URL. */
  lemma SearchRoundTrip(current: Pagination, s: Search)
    requires s.page.Some? && s.pageSize.Some?
    ensures SetPagination(current, Value(PaginationOf(s))) == s
  {
  }
}
