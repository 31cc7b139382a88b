/**
 * The table footer: the list of page buttons with ellipses around a
 * window of three pages, the record count, and which navigation
 * controls are disabled.
 */
module TableFooter {
  import opened Wrappers

  /** The pagination record the footer is given. */
  datatype Pagination = Pagination(page: int, pageSize: int, total: int, totalPages: int)

  /** `Math.ceil(n / d)` for a positive divisor. */
  function CeilDiv(n: nat, d: nat): (r: nat)
    requires d >= 1
    ensures n <= r * d && (r == 0 || (r - 1) * d < n)
  {
    (n + d - 1) / d
  }

  /** One entry of the page list: a page number or `'…'`. */
  datatype PageItem = PageNum(n: int) | Ellipsis

  function Max(a: int, b: int): int {
    if a >= b then a else b
  }

  function Min(a: int, b: int): int {
    if a <= b then a else b
  }

  /** The first page of the window: `Math.max(2, current - 1)`. */
  function WindowStart(p: Pagination): int {
    Max(2, p.page - 1)
  }

  /** The last page of the window: `Math.min(totalPages - 1, current + 1)`. */
  function WindowEnd(p: Pagination): int {
    Min(p.totalPages - 1, p.page + 1)
  }

  /** The pages `lo..hi` pushed by the window loop, skipping 1 and `totalPages`. */
  function Middle(lo: int, hi: int, totalPages: int): (r: seq<PageItem>)
    decreases hi - lo
  {
    if hi < lo then []
    else Middle(lo, hi - 1, totalPages) + (if hi != 1 && hi != totalPages then [PageNum(hi)] else [])
  }

  /** `Array.from({ length: totalPages }, (_, i) => i + 1)`; a negative length gives []. */
  function FirstPages(totalPages: int): (r: seq<PageItem>)
    ensures |r| == Max(totalPages, 0)
    ensures forall i :: 0 <= i < |r| ==> r[i] == PageNum(i + 1)
  {
    seq(Max(totalPages, 0), i => PageNum(i + 1))
  }

  /** The page list the footer draws. */
  function PageItemsOf(pagination: Option<Pagination>): seq<PageItem> {
    match pagination
      case None => [PageNum(1)]
      case Some(p) =>
        if p.totalPages <= 5 then FirstPages(p.totalPages)
        else
          var start, end := WindowStart(p), WindowEnd(p);
          [PageNum(1)]
          + (if start > 2 then [Ellipsis] else [])
          + Middle(start, end, p.totalPages)
          + (if end < p.totalPages - 1 then [Ellipsis] else [])
          + (if p.totalPages > 1 then [PageNum(p.totalPages)] else [])
  }

  /** `pageItems`, built by pushing onto an array as the footer does. */
  method PageItems(pagination: Option<Pagination>) returns (items: seq<PageItem>)
    ensures items == PageItemsOf(pagination)
  {
    if pagination.None? {
      return [PageNum(1)];
    }
    var p := pagination.value;
    var totalPages := p.totalPages;
    if totalPages <= 5 {
      return FirstPages(totalPages);
    }
    items := [PageNum(1)];
    var start := Max(2, p.page - 1);
    var end := Min(totalPages - 1, p.page + 1);
    if start > 2 {
      items := items + [Ellipsis];
    }
    ghost var head := items;
    var i := start;
    while i <= end
      invariant start <= i <= Max(start, end + 1)
      invariant items == head + Middle(start, i - 1, totalPages)
    {
      if i != 1 && i != totalPages {
        items := items + [PageNum(i)];
      }
      i := i + 1;
    }
    if end < totalPages - 1 {
      items := items + [Ellipsis];
    }
    if totalPages > 1 {
      items := items + [PageNum(totalPages)];
    }
  }

  /** The page numbers of a list, ellipses dropped. */
  function Numbers(items: seq<PageItem>): (r: seq<int>)
    ensures |r| <= |items|
  {
    if items == [] then []
    else (if items[0].PageNum? then [items[0].n] else []) + Numbers(items[1..])
  }

  lemma {:induction false} NumbersAppend(a: seq<PageItem>, b: seq<PageItem>)
    ensures Numbers(a + b) == Numbers(a) + Numbers(b)
    decreases |a|
  {
    if a == [] {
      assert a + b == b;
    } else {
      var head := if a[0].PageNum? then [a[0].n] else [];
      assert (a + b)[0] == a[0];
      assert (a + b)[1..] == a[1..] + b;
      assert Numbers(a + b) == head + Numbers(a[1..] + b);
      NumbersAppend(a[1..], b);
      assert Numbers(a) == head + Numbers(a[1..]);
    }
  }

  /** The numbers of the five parts of a long page list. */
  lemma NumbersOfParts(a: seq<PageItem>, b: seq<PageItem>, c: seq<PageItem>, d: seq<PageItem>, e: seq<PageItem>)
    ensures Numbers(a + b + c + d + e) == Numbers(a) + Numbers(b) + Numbers(c) + Numbers(d) + Numbers(e)
  {
    NumbersAppend(a, b);
    NumbersAppend(a + b, c);
    NumbersAppend(a + b + c, d);
    NumbersAppend(a + b + c + d, e);
  }

  /** `lo, lo + 1, ..., hi`. */
  function Range(lo: int, hi: int): (r: seq<int>)
    ensures |r| == Max(hi - lo + 1, 0)
    ensures forall i :: 0 <= i < |r| ==> r[i] == lo + i
  {
    seq(Max(hi - lo + 1, 0), i => lo + i)
  }

  /** Away from 1 and `totalPages` the window pushes every page `lo..hi`. */
  lemma {:induction false} MiddleNumbers(lo: int, hi: int, totalPages: int)
    requires 1 < lo && hi < totalPages
    ensures Numbers(Middle(lo, hi, totalPages)) == Range(lo, hi)
    ensures |Middle(lo, hi, totalPages)| == Max(hi - lo + 1, 0)
    ensures forall i :: 0 <= i < |Middle(lo, hi, totalPages)| ==> Middle(lo, hi, totalPages)[i].PageNum?
    decreases hi - lo
  {
    if hi >= lo {
      MiddleNumbers(lo, hi - 1, totalPages);
      NumbersAppend(Middle(lo, hi - 1, totalPages), [PageNum(hi)]);
      assert Numbers([PageNum(hi)]) == [hi];
      assert Range(lo, hi) == Range(lo, hi - 1) + [hi];
    }
  }

  predicate StrictlyIncreasing(s: seq<int>) {
    forall i, j :: 0 <= i < j < |s| ==> s[i] < s[j]
  }

  /** Without pagination the list is the single page 1. */
  lemma NoPaginationOnePage()
    ensures PageItemsOf(None) == [PageNum(1)]
  {
  }

  /** Up to five pages are all listed, in order, without ellipses. */
  lemma FewPagesAllListed(p: Pagination)
    requires 0 <= p.totalPages <= 5
    ensures var items := PageItemsOf(Some(p));
      |items| == p.totalPages && forall i :: 0 <= i < |items| ==> items[i] == PageNum(i + 1)
  {
  }

  /** The four parts of a long page list, as `PageItemsOf` joins them. */
  lemma ManyPagesParts(p: Pagination)
    requires p.totalPages > 5
    ensures var start, end, tp := WindowStart(p), WindowEnd(p), p.totalPages;
      PageItemsOf(Some(p)) == [PageNum(1)] + (if start > 2 then [Ellipsis] else []) + Middle(start, end, tp)
        + (if end < tp - 1 then [Ellipsis] else []) + [PageNum(tp)]
  {
  }

  /** The page numbers of a long list: 1, the window, and the last page. */
  lemma ManyPagesNumbers(p: Pagination)
    requires p.totalPages > 5
    ensures Numbers(PageItemsOf(Some(p))) == [1] + Range(WindowStart(p), WindowEnd(p)) + [p.totalPages]
  {
    var start, end, tp := WindowStart(p), WindowEnd(p), p.totalPages;
    var e1: seq<PageItem> := if start > 2 then [Ellipsis] else [];
    var mid := Middle(start, end, tp);
    var e2: seq<PageItem> := if end < tp - 1 then [Ellipsis] else [];
    ManyPagesParts(p);
    MiddleNumbers(start, end, tp);
    NumbersOfParts([PageNum(1)], e1, mid, e2, [PageNum(tp)]);
    assert Numbers([PageNum(1)]) == [1];
    assert Numbers([PageNum(tp)]) == [tp];
    assert Numbers(e1) == [] && Numbers(e2) == [];
  }

  /** 1, a window strictly between 1 and `tp`, then `tp`: increasing and within 1..tp. */
  lemma WindowListIncreasing(start: int, end: int, tp: int)
    requires 2 <= start && end <= tp - 1 && 2 <= tp
    ensures StrictlyIncreasing([1] + Range(start, end) + [tp])
    ensures forall n :: n in [1] + Range(start, end) + [tp] ==> 1 <= n <= tp
  {
    var r := Range(start, end);
    var ns := [1] + r + [tp];
    assert |ns| == |r| + 2 && ns[0] == 1 && ns[|ns| - 1] == tp;
    assert forall k :: 1 <= k < |ns| - 1 ==> ns[k] == r[k - 1] == start + k - 1 && k - 1 < end - start + 1;
    forall i, j | 0 <= i < j < |ns|
      ensures ns[i] < ns[j]
    {
      if 0 < i {
        assert ns[i] == start + i - 1 <= end;
      }
      if j < |ns| - 1 {
        assert ns[j] == start + j - 1 >= start;
      }
    }
    forall n | n in ns
      ensures 1 <= n <= tp
    {
      var k :| 0 <= k < |ns| && ns[k] == n;
    }
  }

  /**
   * With more than five pages the list starts with 1 and ends with the
   * last page, and its page numbers are 1, the window, and the last
   * page: strictly increasing and within 1..totalPages.
   */
  lemma ManyPagesShape(p: Pagination)
    requires p.totalPages > 5
    ensures var items := PageItemsOf(Some(p));
      |items| >= 2 && items[0] == PageNum(1) && items[|items| - 1] == PageNum(p.totalPages)
    ensures Numbers(PageItemsOf(Some(p))) == [1] + Range(WindowStart(p), WindowEnd(p)) + [p.totalPages]
    ensures StrictlyIncreasing(Numbers(PageItemsOf(Some(p))))
    ensures forall n :: n in Numbers(PageItemsOf(Some(p))) ==> 1 <= n <= p.totalPages
  {
    ManyPagesParts(p);
    ManyPagesNumbers(p);
    WindowListIncreasing(WindowStart(p), WindowEnd(p), p.totalPages);
  }

  /**
   * For a current page within 1..totalPages (more than five pages), an
   * ellipsis follows page 1 exactly when the window starts after 2, one
   * precedes the last page exactly when the window ends before
   * `totalPages - 1`, and the current page is listed.
   */
  lemma EllipsesAndCurrent(p: Pagination)
    requires p.totalPages > 5 && 1 <= p.page <= p.totalPages
    ensures var items := PageItemsOf(Some(p));
      |items| >= 3
      && (items[1] == Ellipsis <==> WindowStart(p) > 2)
      && (items[|items| - 2] == Ellipsis <==> WindowEnd(p) < p.totalPages - 1)
      && PageNum(p.page) in items
  {
    var start, end, tp := WindowStart(p), WindowEnd(p), p.totalPages;
    var e1: seq<PageItem> := if start > 2 then [Ellipsis] else [];
    var mid := Middle(start, end, tp);
    var e2: seq<PageItem> := if end < tp - 1 then [Ellipsis] else [];
    var items := [PageNum(1)] + e1 + mid + e2 + [PageNum(tp)];
    assert PageItemsOf(Some(p)) == items;
    MiddleNumbers(start, end, tp);
    assert |mid| == end - start + 1;
    assert items[1] == if start > 2 then Ellipsis else mid[0];
    assert items[|items| - 2] == if end < tp - 1 then Ellipsis else mid[|mid| - 1];
    if p.page == 1 {
      assert items[0] == PageNum(1);
    } else if p.page == tp {
      assert items[|items| - 1] == PageNum(tp);
    } else {
      var k := p.page - start;
      assert Numbers(mid)[k] == p.page;
      MiddleAt(start, end, tp, k);
      assert items[1 + |e1| + k] == mid[k];
    }
  }

  /** The `k`-th window entry is page `lo + k` when the window avoids 1 and the last page. */
  lemma {:induction false} MiddleAt(lo: int, hi: int, totalPages: int, k: int)
    requires 1 < lo && hi < totalPages && 0 <= k <= hi - lo
    ensures |Middle(lo, hi, totalPages)| == hi - lo + 1
    ensures Middle(lo, hi, totalPages)[k] == PageNum(lo + k)
    decreases hi - lo
  {
    MiddleNumbers(lo, hi - 1, totalPages);
    if k < hi - lo {
      MiddleAt(lo, hi - 1, totalPages, k);
    }
  }

  /** The Previous button: disabled without pagination, on page 1 or below, or with unsaved edits. */
  predicate PrevDisabled(pagination: Option<Pagination>, dirty: bool) {
    pagination.None? || pagination.value.page <= 1 || dirty
  }

  /** The Next button: disabled without pagination, on the last page or beyond, or with unsaved edits. */
  predicate NextDisabled(pagination: Option<Pagination>, dirty: bool) {
    pagination.None? || pagination.value.page >= pagination.value.totalPages || dirty
  }

  /** A page button: disabled only when there is pagination and unsaved edits. */
  predicate PageButtonDisabled(pagination: Option<Pagination>, dirty: bool) {
    pagination.Some? && dirty
  }

  /** The page-size selector. */
  predicate PageSizeDisabled(pagination: Option<Pagination>, dirty: bool) {
    pagination.None? || dirty
  }

  /**
   * Unsaved edits block every navigation control once there is
   * pagination; without them, Previous and Next are enabled exactly
   * strictly inside 1..totalPages.
   */
  lemma NavigationRules(p: Pagination, dirty: bool)
    ensures dirty ==>
              PrevDisabled(Some(p), dirty) && NextDisabled(Some(p), dirty)
              && PageButtonDisabled(Some(p), dirty) && PageSizeDisabled(Some(p), dirty)
    ensures !dirty ==>
              (!PrevDisabled(Some(p), dirty) <==> p.page > 1)
              && (!NextDisabled(Some(p), dirty) <==> p.page < p.totalPages)
              && !PageButtonDisabled(Some(p), dirty) && !PageSizeDisabled(Some(p), dirty)
  {
  }

  /** Without pagination Previous, Next and the size selector are disabled, the page buttons are not. */
  lemma NoPaginationRules(dirty: bool)
    ensures PrevDisabled(None, dirty) && NextDisabled(None, dirty) && PageSizeDisabled(None, dirty)
    ensures !PageButtonDisabled(None, dirty)
  {
  }

  /** The record count shown: the pagination total, else the row count, else 0. */
  function RecordCount(pagination: Option<Pagination>, data: Option<nat>): (r: int)
    ensures pagination.Some? ==> r == pagination.value.total
    ensures pagination.None? && data.Some? ==> r == data.value
    ensures pagination.None? && data.None? ==> r == 0
  {
    if pagination.Some? then pagination.value.total else if data.Some? then data.value else 0
  }

  /** The selected page size: `pagination?.pageSize ?? 25`. */
  function SelectedPageSize(pagination: Option<Pagination>): (r: int)
    ensures pagination.None? ==> r == 25
  {
    if pagination.Some? then pagination.value.pageSize else 25
  }
}
