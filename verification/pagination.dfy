/**
 * The pagination bar of the workspace page: the Prev and Next targets with
 * their disabled flags, the window of up to five numbered page links, and
 * the links themselves. `current`, `total` and `limit` are the
 * `currentPage`, `totalPages` and `limit` that the backend reported.
 */
module Pagination {
  import opened Guardrails
  import opened Query

  const WindowSize: int := 5

  function Max(a: int, b: int): int { if a >= b then a else b }
  function Min(a: int, b: int): int { if a <= b then a else b }

  /** `Math.max(1, currentPage - 1)`: the target of the Prev link. */
  function PrevPage(current: int): (p: int)
    ensures p >= 1
    ensures current >= 1 ==> p <= current
    ensures current > 1 ==> p == current - 1
    ensures current <= 1 ==> p == 1
  {
    Max(1, current - 1)
  }

  /** `Math.min(totalPages, currentPage + 1)`: the target of the Next link. */
  function NextPage(current: int, total: int): (p: int)
    ensures p <= total && p <= current + 1
    ensures p == total || p == current + 1
    ensures current < total ==> p == current + 1
    ensures current >= total ==> p == total
  {
    Min(total, current + 1)
  }

  /** The Prev link is disabled on the first page: exactly when it would lead to the same page. */
  predicate PrevDisabled(current: int)
    ensures PrevDisabled(current) <==> PrevPage(current) == current
  {
    current == 1
  }

  /** The Next link is disabled on the page equal to the reported page count: exactly when it would lead to the same page. */
  predicate NextDisabled(current: int, total: int)
    ensures NextDisabled(current, total) <==> NextPage(current, total) == current
  {
    current == total
  }

  /** `Math.max(1, currentPage - Math.floor(windowSize / 2))`. */
  function WindowStart(current: int): (s: int)
    ensures s >= 1 && s >= current - 2
  {
    Max(1, current - WindowSize / 2)
  }

  /** `Math.min(totalPages, start + windowSize - 1)`. */
  function WindowEnd(current: int, total: int): (e: int)
    ensures e <= total && e <= WindowStart(current) + 4
  {
    Min(total, WindowStart(current) + WindowSize - 1)
  }

  /**
   * The numbered page links: `Array.from({ length: end - start + 1 }, (_, i) => start + i)`.
   * A negative length gives no links at all.
   */
  function Window(current: int, total: int): (pages: seq<int>)
    ensures |pages| <= WindowSize
    ensures forall i :: 0 <= i < |pages| ==> pages[i] == WindowStart(current) + i
    ensures pages == [] <==> total < WindowStart(current)
  {
    var start, end := WindowStart(current), WindowEnd(current, total);
    seq(Max(0, end - start + 1), i => start + i)
  }

  /**
   * Which pages get a numbered link, described without the window arithmetic:
   * pages in [1, total] at most two before the current page and at most two
   * after it, except that near the start the links reach up to page five.
   */
  predicate Shown(current: int, total: int, p: int) {
    1 <= p <= total && current - 2 <= p <= Max(current + 2, WindowSize)
  }

  lemma WindowMembers(current: int, total: int, p: int)
    ensures p in Window(current, total) <==> Shown(current, total, p)
  {
    var pages := Window(current, total);
    if Shown(current, total, p) {
      assert pages[p - WindowStart(current)] == p;
    }
  }

  /** The links are strictly increasing, so no page is listed twice. */
  lemma WindowStrictlyIncreasing(current: int, total: int, i: int, j: int)
    requires 0 <= i < j < |Window(current, total)|
    ensures Window(current, total)[i] < Window(current, total)[j]
  {
  }

  /**
   * When the current page is a real page, every link is a real page, the
   * current page is among them, and at least three of them are shown (or
   * all pages, when there are fewer).
   */
  lemma WindowAroundCurrent(current: int, total: int)
    requires 1 <= current <= total
    ensures forall p :: p in Window(current, total) ==> 1 <= p <= total
    ensures current in Window(current, total)
    ensures |Window(current, total)| >= Min(3, total)
  {
    WindowMembers(current, total, current);
    forall p | p in Window(current, total) ensures 1 <= p <= total {
      WindowMembers(current, total, p);
    }
  }

  /** Examples, including the last page, where the window does not shift left. */
  lemma WindowExamples()
    ensures Window(1, 10) == [1, 2, 3, 4, 5]
    ensures Window(3, 3) == [1, 2, 3]
    ensures Window(2, 3) == [1, 2, 3]
    ensures Window(6, 10) == [4, 5, 6, 7, 8]
    ensures Window(10, 10) == [8, 9, 10]
    ensures Window(1, 0) == []
  {
  }

  /** With no pages reported, Next stays enabled and points at page zero. */
  lemma NextEnabledWithoutPages()
    ensures NextPage(1, 0) == 0 && !NextDisabled(1, 0)
  {
  }

  /**
   * Past the reported last page (say `?page=50` with three pages), Next is
   * an enabled link that leads back to the last page.
   */
  lemma NextBackwardPastEnd(current: int, total: int)
    requires current > total
    ensures NextPage(current, total) == total < current
    ensures !NextDisabled(current, total)
  {
  }

  /** The Prev and Next targets of a real page are always among the numbered links. */
  lemma PrevNextInWindow(current: int, total: int)
    requires 1 <= current <= total
    ensures PrevPage(current) in Window(current, total)
    ensures NextPage(current, total) in Window(current, total)
  {
    WindowMembers(current, total, PrevPage(current));
    WindowMembers(current, total, NextPage(current, total));
  }

  /**
   * One link of the bar: its target page and its two flags. Its href is
   * `Href(page, limit)` with the bar's limit.
   */
  datatype Link = Link(page: int, disabled: bool, current: bool)

  /** The numbered links: one per page, none disabled, the current page marked. */
  function NumberLinks(pages: seq<int>, current: int): (links: seq<Link>)
    ensures |links| == |pages|
    ensures forall i :: 0 <= i < |pages| ==> links[i] == Link(pages[i], false, pages[i] == current)
  {
    seq(|pages|, i requires 0 <= i < |pages| => Link(pages[i], false, pages[i] == current))
  }

  /**
   * The whole bar: Prev (disabled on page one), the numbered links in order
   * (the current page marked), Next (disabled on the last page).
   */
  function Nav(current: int, total: int): (links: seq<Link>)
    ensures |links| == |Window(current, total)| + 2
    ensures links[0].page == PrevPage(current) && links[|links| - 1].page == NextPage(current, total)
    ensures forall k :: 0 < k < |links| - 1 ==> links[k].page == Window(current, total)[k - 1]
    ensures links[0].disabled == PrevDisabled(current) && !links[0].current
    ensures links[|links| - 1].disabled == NextDisabled(current, total) && !links[|links| - 1].current
    ensures forall k :: 0 < k < |links| - 1 ==> !links[k].disabled && (links[k].current <==> links[k].page == current)
  {
    var pages := Window(current, total);
    var middle := NumberLinks(pages, current);
    var prev := Link(PrevPage(current), PrevDisabled(current), false);
    var next := Link(NextPage(current, total), NextDisabled(current, total), false);
    var links := [prev] + middle + [next];
    assert links[0] == prev && links[|links| - 1] == next;
    assert forall k :: 0 < k < |links| - 1 ==> links[k] == middle[k - 1];
    links
  }

  /**
   * Following any link of the bar fetches the page it names (the first page
   * if it names none) with the bar's limit, when that limit is valid.
   */
  lemma NavFollow(current: int, total: int, limit: int, k: int)
    requires 1 <= limit <= 100
    requires 0 <= k < |Nav(current, total)|
    ensures var link := Nav(current, total)[k];
      Guard(ReadSearchParams(Href(link.page, limit))) == PageRequest(Max(1, link.page) as real, limit as real)
  {
    var link := Nav(current, total)[k];
    GuardHref(link.page, limit);
  }

  /** On a real page, every link of the bar leads to a real page, exactly the one it names. */
  lemma NavStaysInRange(current: int, total: int, limit: int, k: int)
    requires 1 <= current <= total && 1 <= limit <= 100
    requires 0 <= k < |Nav(current, total)|
    ensures 1 <= Nav(current, total)[k].page <= total
    ensures Guard(ReadSearchParams(Href(Nav(current, total)[k].page, limit)))
      == PageRequest(Nav(current, total)[k].page as real, limit as real)
  {
    var links := Nav(current, total);
    WindowAroundCurrent(current, total);
    if 0 < k < |links| - 1 {
      assert links[k].page in Window(current, total);
    }
    NavFollow(current, total, limit, k);
  }

  /** On a real page, exactly one link is marked current: the numbered link of the current page. */
  lemma NavOneCurrent(current: int, total: int)
    requires 1 <= current <= total
    ensures var links := Nav(current, total);
      exists k :: 0 <= k < |links| && links[k].current && links[k].page == current
    ensures var links := Nav(current, total);
      forall k1, k2 :: 0 <= k1 < |links| && 0 <= k2 < |links| && links[k1].current && links[k2].current ==> k1 == k2
  {
    var links := Nav(current, total);
    var pages := Window(current, total);
    WindowAroundCurrent(current, total);
    var i := current - WindowStart(current);
    assert pages[i] == current;
    assert links[i + 1].current;
  }
}
