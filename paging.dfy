/**
  The pagination arithmetic repeated by every list page: the page count
  (`Math.ceil(n / size)`), the slice shown for a page, the window of at most
  four numbered buttons, the bounded page-link click and the bounded
  previous/next step.
 */
module Paging {
  import opened Common
  import opened Lists

  /** `Math.ceil(n / size)`: the fewest pages of `size` items that hold `n` items. */
  function TotalPages(n: nat, size: nat): (t: nat)
    requires size > 0
    ensures t == 0 <==> n == 0
    ensures t <= n
    decreases n
  {
    if n == 0 then 0 else if n <= size then 1 else 1 + TotalPages(n - size, size)
  }

  /** The pages hold all `n` items, and the last page is not empty. */
  lemma {:induction false} TotalPagesBounds(n: nat, size: nat)
    requires size > 0
    ensures n <= TotalPages(n, size) * size
    ensures TotalPages(n, size) == 0 || (TotalPages(n, size) - 1) * size < n
    decreases n
  {
    if n > size {
      TotalPagesBounds(n - size, size);
    }
  }

  /** `list.slice(start, start + size)` with `start = (page - 1) * size`. */
  function PageSlice<T>(list: seq<T>, page: int, size: nat): seq<T> {
    var start := (page - 1) * size;
    JsSlice(list, start, start + size)
  }

  lemma MulMono(a: int, b: int, size: nat)
    requires a <= b
    ensures a * size <= b * size
  {
  }

  /**
    For a page number of at least 1 the slice is the items from
    `(page - 1) * size` on, at most `size` of them, clipped to the list.
   */
  lemma PageSliceClipped<T>(list: seq<T>, page: int, size: nat)
    requires page >= 1
    ensures var start := (page - 1) * size;
            var lo := Min(start, |list|);
            var hi := Min(start + size, |list|);
            PageSlice(list, page, size) == list[lo..hi] && |PageSlice(list, page, size)| <= size
  {
    MulMono(0, page - 1, size);
  }

  /** Every item is shown on exactly the page its index falls in. */
  lemma PageHoldsItem<T>(list: seq<T>, i: nat, size: nat)
    requires i < |list| && size > 0
    ensures var page := i / size + 1;
            var r := PageSlice(list, page, size);
            i % size < |r| && r[i % size] == list[i]
  {
    var page := i / size + 1;
    assert (page - 1) * size == i - i % size;
    PageSliceClipped(list, page, size);
  }

  /** Page `page` starts at or beyond the end of `n` items exactly when it is after the last page. */
  lemma StartBeyondIff(n: nat, page: int, size: nat)
    requires page >= 1 && size > 0
    ensures (page - 1) * size >= n <==> page > TotalPages(n, size)
  {
    var t := TotalPages(n, size);
    TotalPagesBounds(n, size);
    if page > t {
      MulMono(t, page - 1, size);
    } else {
      MulMono(page - 1, t - 1, size);
    }
  }

  /** Pages 1..TotalPages are all non-empty; every page after them is empty. */
  lemma PageEmptyIffBeyond<T>(list: seq<T>, page: int, size: nat)
    requires page >= 1 && size > 0
    ensures PageSlice(list, page, size) == [] <==> page > TotalPages(|list|, size)
  {
    PageSliceClipped(list, page, size);
    StartBeyondIff(|list|, page, size);
    var start := (page - 1) * size;
    assert PageSlice(list, page, size) == [] <==> start >= |list|;
  }

  /** Fewer items never need more pages. */
  lemma {:induction false} TotalPagesMono(m: nat, n: nat, size: nat)
    requires m <= n && size > 0
    ensures TotalPages(m, size) <= TotalPages(n, size)
    decreases m
  {
    if m > size {
      TotalPagesMono(m - size, n - size, size);
    }
  }

  const MAX_PAGES_TO_SHOW: int := 4

  /** `Math.max(1, currentPage - Math.floor(maxPagesToShow / 2))`. */
  function WindowStart(current: int): int {
    Max(1, current - MAX_PAGES_TO_SHOW / 2)
  }

  /** `Math.min(totalPages, startPage + maxPagesToShow - 1)`. */
  function WindowEnd(current: int, total: int): int {
    Min(total, WindowStart(current) + MAX_PAGES_TO_SHOW - 1)
  }

  /** One numbered button: its page and whether it is marked active. */
  datatype PageButton = PageButton(page: int, active: bool)

  /**
    `buttons` are the pages `WindowStart(current)..WindowEnd(current, total)`
    in order, each marked active exactly when it is the current page.
   */
  ghost predicate IsWindow(buttons: seq<PageButton>, current: int, total: int) {
    && |buttons| == Max(0, WindowEnd(current, total) - WindowStart(current) + 1)
    && forall k :: 0 <= k < |buttons| ==>
         buttons[k] == PageButton(WindowStart(current) + k, WindowStart(current) + k == current)
  }

  /**
    Any window has at most four buttons, all within `[1, total]`, and holds
    the current page whenever that page is in range.
   */
  lemma WindowBounds(buttons: seq<PageButton>, current: int, total: int)
    requires IsWindow(buttons, current, total)
    ensures |buttons| <= MAX_PAGES_TO_SHOW
    ensures forall k :: 0 <= k < |buttons| ==> 1 <= buttons[k].page <= total
    ensures 1 <= current <= total ==> exists k :: 0 <= k < |buttons| && buttons[k].page == current
  {
    if 1 <= current <= total {
      assert buttons[current - WindowStart(current)].page == current;
    }
  }

  /**
    The `for (let i = startPage; i <= endPage; i++)` loop of `updatePagination`:
    consecutive pages, at most four, all within `[1, total]`, the current page
    among them whenever it is in range, and only it marked active.
   */
  method PageButtons(current: int, total: int) returns (buttons: seq<PageButton>)
    ensures IsWindow(buttons, current, total)
    ensures |buttons| <= MAX_PAGES_TO_SHOW
    ensures forall k :: 0 <= k < |buttons| ==> 1 <= buttons[k].page <= total
    ensures forall k :: 0 <= k < |buttons| ==> (buttons[k].active <==> buttons[k].page == current)
    ensures 1 <= current <= total ==> exists k :: 0 <= k < |buttons| && buttons[k].page == current
  {
    var startPage := WindowStart(current);
    var endPage := WindowEnd(current, total);
    buttons := [];
    var i := startPage;
    while i <= endPage
      invariant startPage <= i <= Max(startPage, endPage + 1)
      invariant |buttons| == i - startPage
      invariant forall k :: 0 <= k < |buttons| ==> buttons[k] == PageButton(startPage + k, startPage + k == current)
    {
      buttons := buttons + [PageButton(i, i == current)];
      i := i + 1;
    }
    WindowBounds(buttons, current, total);
  }

  /** A previous/next link: the page it targets and whether it is disabled. */
  datatype NavLink = NavLink(target: int, disabled: bool)

  /**
    The page-link click handler: it moves to the parsed page only when that
    is a number within `[1, total]` (`None` stands for `NaN`).
   */
  function ClickTarget(current: int, parsed: Option<int>, total: int): (r: int)
    ensures ClickTaken(parsed, total) ==> r == parsed.value
    ensures !ClickTaken(parsed, total) ==> r == current
  {
    if ClickTaken(parsed, total) then parsed.value else current
  }

  /** The guard of a page-link click: the parsed number lies in `[1, total]`. */
  predicate ClickTaken(parsed: Option<int>, total: int) {
    parsed.Some? && 1 <= parsed.value <= total
  }

  /** Clicking each of `clicks` in turn. */
  function ApplyClicks(current: int, clicks: seq<Option<int>>, total: int): int
    decreases |clicks|
  {
    if clicks == [] then current else ApplyClicks(ClickTarget(current, clicks[0], total), clicks[1..], total)
  }

  /**
    Whatever links are clicked, the page only ever moves to a page in
    `[1, total]`: it ends in range, or where it started.
   */
  lemma {:induction false} ClicksStayInRange(current: int, clicks: seq<Option<int>>, total: int)
    ensures var r := ApplyClicks(current, clicks, total);
            r == current || 1 <= r <= total
    decreases |clicks|
  {
    if clicks != [] {
      var next := ClickTarget(current, clicks[0], total);
      ClicksStayInRange(next, clicks[1..], total);
      if next != current {
        ClicksInRangeStay(next, clicks[1..], total);
      }
    }
  }

  lemma {:induction false} ClicksInRangeStay(current: int, clicks: seq<Option<int>>, total: int)
    requires 1 <= current <= total
    ensures 1 <= ApplyClicks(current, clicks, total) <= total
    decreases |clicks|
  {
    if clicks != [] {
      ClicksInRangeStay(ClickTarget(current, clicks[0], total), clicks[1..], total);
    }
  }

  /**
    `changePage(direction)` on the resources pages: "prev" steps back only
    above page 1, "next" steps on only below `total`, anything else stays.
   */
  function ChangePage(current: int, direction: string, total: int): (r: int)
    ensures direction == "prev" && current > 1 ==> r == current - 1
    ensures direction == "next" && current < total ==> r == current + 1
    ensures !(direction == "prev" && current > 1) && !(direction == "next" && current < total) ==> r == current
  {
    if direction == "prev" && current > 1 then current - 1
    else if direction == "next" && current < total then current + 1
    else current
  }

  /** Every sequence of previous/next steps keeps the page within `[1, Max(1, total)]`. */
  lemma {:induction false} ChangePagesStayInRange(current: int, directions: seq<string>, total: int)
    requires 1 <= current <= Max(1, total)
    ensures var r := ApplyChanges(current, directions, total);
            1 <= r <= Max(1, total)
    decreases |directions|
  {
    if directions != [] {
      ChangePagesStayInRange(ChangePage(current, directions[0], total), directions[1..], total);
    }
  }

  /** Stepping by each of `directions` in turn. */
  function ApplyChanges(current: int, directions: seq<string>, total: int): int
    decreases |directions|
  {
    if directions == [] then current
    else ApplyChanges(ChangePage(current, directions[0], total), directions[1..], total)
  }
}
