/**
 * The page/limit guardrails of the workspace page: the raw `page` and
 * `limit` search parameters become the pair that is sent to the backend.
 */
module Guardrails {
  import opened Wrappers
  import opened Numbers

  /** The `page` and `limit` search parameters as the page receives them. */
  datatype SearchParams = SearchParams(page: Option<string>, limit: Option<string>)

  /** The pair handed to the fetch. Values are not rounded, so they are reals. */
  datatype PageRequest = PageRequest(page: real, limit: real)

  const DefaultPage: real := 1.0
  const DefaultLimit: real := 10.0
  const MaxLimit: real := 100.0

  /** `Number(raw || fallback)`: an absent or empty parameter is replaced by the fallback before conversion. */
  function ParamNumber(raw: Option<string>, fallback: real): (n: Num)
    ensures raw.None? ==> n == Finite(fallback)
  {
    if raw.None? || raw.value == "" then Finite(fallback) else NumberOf(raw.value)
  }

  /** A finite positive page is kept as it is; anything else becomes the first page. */
  function SafePage(n: Num): (r: real)
    ensures r > 0.0
    ensures r == DefaultPage || n == Finite(r)
  {
    if n.Finite? && n.value > 0.0 then n.value else DefaultPage
  }

  /** A finite limit in (0, 100] is kept as it is; anything else becomes the default limit. */
  function SafeLimit(n: Num): (r: real)
    ensures 0.0 < r <= MaxLimit
    ensures r == DefaultLimit || n == Finite(r)
  {
    if n.Finite? && n.value > 0.0 && n.value <= MaxLimit then n.value else DefaultLimit
  }

  /** Both guardrails applied to the search parameters. */
  function Guard(params: SearchParams): (r: PageRequest)
    ensures r.page > 0.0
    ensures 0.0 < r.limit <= MaxLimit
  {
    PageRequest(
      SafePage(ParamNumber(params.page, DefaultPage)),
      SafeLimit(ParamNumber(params.limit, DefaultLimit)))
  }

  /** A value passes the page guardrail unchanged exactly when it is positive. */
  lemma SafePageKeepsIff(x: real)
    ensures SafePage(Finite(x)) == x <==> x > 0.0
  {
  }

  /** A value passes the limit guardrail unchanged exactly when it lies in (0, 100]. */
  lemma SafeLimitKeepsIff(x: real)
    ensures SafeLimit(Finite(x)) == x <==> 0.0 < x <= MaxLimit
  {
  }

  /** Feeding a guarded pair back through the guardrails changes nothing. */
  lemma GuardIdempotent(params: SearchParams)
    ensures SafePage(Finite(Guard(params).page)) == Guard(params).page
    ensures SafeLimit(Finite(Guard(params).limit)) == Guard(params).limit
  {
  }

  /**
   * The page that is fetched: the parsed page when that is finite and
   * positive, the first page otherwise, including an absent or empty parameter.
   */
  lemma GuardPage(params: SearchParams)
    ensures params.page.None? || params.page == Some("") ==> Guard(params).page == 1.0
    ensures params.page.Some? && params.page.value != "" ==>
      match NumberOf(params.page.value)
      case Finite(x) => Guard(params).page == (if x > 0.0 then x else 1.0)
      case NotFinite => Guard(params).page == 1.0
  {
  }

  /**
   * The limit that is fetched: the parsed limit when that is finite and in
   * (0, 100], ten otherwise, including an absent or empty parameter.
   */
  lemma GuardLimit(params: SearchParams)
    ensures params.limit.None? || params.limit == Some("") ==> Guard(params).limit == 10.0
    ensures params.limit.Some? && params.limit.value != "" ==>
      match NumberOf(params.limit.value)
      case Finite(x) => Guard(params).limit == (if 0.0 < x <= 100.0 then x else 10.0)
      case NotFinite => Guard(params).limit == 10.0
  {
  }

  /** A whole-number page that survives the guardrail is at least one. */
  lemma WholePageAtLeastOne(params: SearchParams)
    requires Guard(params).page == Guard(params).page.Floor as real
    ensures Guard(params).page >= 1.0
  {
  }

  /** The pair fetched when both parameters convert to finite numbers. */
  lemma GuardFinite(page: string, limit: string, x: real, y: real)
    requires page != "" && NumberOf(page) == Finite(x)
    requires limit != "" && NumberOf(limit) == Finite(y)
    ensures Guard(SearchParams(Some(page), Some(limit))) ==
      PageRequest(if x > 0.0 then x else 1.0, if 0.0 < y <= 100.0 then y else 10.0)
  {
  }

  /** Fractions are not rounded: `?page=0.5&limit=2.5` is fetched as page 0.5, limit 2.5. */
  lemma FractionsPassThrough()
    ensures Guard(SearchParams(Some("0.5"), Some("2.5"))) == PageRequest(0.5, 2.5)
  {
    NumberOfHalf();
    NumberOfTwoAndAHalf();
    GuardFinite("0.5", "2.5", 0.5, 2.5);
  }

  /** Non-numbers and infinities fall back to the defaults. */
  lemma NotFiniteFallsBack()
    ensures Guard(SearchParams(Some("abc"), Some("Infinity"))) == PageRequest(1.0, 10.0)
    ensures Guard(SearchParams(Some("1x"), Some("-Infinity"))) == PageRequest(1.0, 10.0)
  {
    NumberOfWord();
    NumberOfTrailingLetter();
    NumberOfInfinities();
  }

  /** Zero and negative pages, and limits of zero or above one hundred, fall back to the defaults. */
  lemma OutOfRangeFallsBack()
    ensures Guard(SearchParams(Some("0"), Some("101"))) == PageRequest(1.0, 10.0)
    ensures Guard(SearchParams(Some("-3"), Some("0"))) == PageRequest(1.0, 10.0)
  {
    NumberOfZero();
    NumberOfMinusThree();
    NumberOfHundredOne();
    GuardFinite("0", "101", 0.0, 101.0);
    GuardFinite("-3", "0", -3.0, 0.0);
  }
}
