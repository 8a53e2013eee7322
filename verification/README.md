# Workspace pagination and response checks

This project models the logic in the workspace page of the CRM admin
dashboard (`app/workspace/page.tsx`). Everything else in that page is
markup. The model covers four parts:

- **The page/limit guardrails.** The raw `page` and `limit` search
  parameters become the pair sent to the backend. An absent or empty
  parameter falls back through `||` to 1 or 10. `Number(...)` converts the
  value. A non-finite or non-positive page becomes 1. A limit outside
  (0, 100] becomes 10.
- **The pagination bar.** This is the Prev link, the window of up to five
  numbered links, and the Next link. It covers each link's target page, the
  disabled and current-page flags, and the href `?page=${p}&limit=${limit}`.
  Reading such an href back as search parameters and passing it through the
  guardrails gives a round trip.
- **The checks in `fetchProperties`.** A network failure, a non-2xx status,
  or a JSON object that is not the success envelope each becomes an error
  with the page's own message. A 2xx body that is not JSON, or is JSON
  `null`, makes the runtime throw its own error instead. Only the envelope's
  `data` is returned, unchanged.
- **Supporting definitions.** These are the subset of JavaScript's
  `Number(string)` that decimal query values need, the decimal rendering of
  integers that template literals perform, and a minimal reader for query
  strings.

Modules, one per file: `Wrappers` (Option), `Strings` (search and
splitting), `Numbers` (number conversion and rendering), `Guardrails`,
`Query` (hrefs and reading them back), `Pagination` and `Fetch`. All
functions are pure, as the source is. Nothing in the modelled code reassigns
a variable or mutates state.

Converted values are `real`, because the source does not round: `?page=0.5`
is fetched as page 0.5 (`Guardrails.FractionsPassThrough`). As a result the
guarded page is only known to be positive. It is at least one when it is a
whole number (`Guardrails.WholePageAtLeastOne`). The numbers the backend
reports (`currentPage`, `totalPages`, `limit`) are modelled as integers.

Four facts about the code shape the model:

- Non-integer page and limit values are not floored. They pass through unchanged.
- The window does not shift left near the last page. Page 10 of 10 shows
  `[8, 9, 10]`, not five links (`Pagination.WindowExamples`). The window
  therefore has at most five entries, and fewer than `min(5, totalPages)`
  near the end.
- A 2xx reply with the wrong shape throws the literal message
  `Unexpected API shape.`.
- This page keeps no request counter and does not suppress stale responses.
  The model invents none.

## Model

| member | source | states |
|---|---|---|
| `Numbers.NumberOf` | app/workspace/page.tsx:79-80 | `Number(s)` of a decimal literal: "" is 0; a value without a leading '-' is non-negative |
| `Numbers.UnsignedNumber` | app/workspace/page.tsx:79-80 | an unsigned literal converts to a non-negative finite value, or is NaN/Infinity |
| `Numbers.UnsignedWhole` | app/workspace/page.tsx:79-80 | a non-empty run of digits converts to its whole-number value |
| `Numbers.UnsignedPoint` | app/workspace/page.tsx:79-80 | `digits.digits` converts to the whole part plus the fraction, with no rounding |
| `Numbers.FractionValue` | app/workspace/page.tsx:79-80 | the digits after a decimal point are worth at least 0 and less than 1 |
| `Numbers.Decimal` | app/workspace/page.tsx:169 | a natural number is rendered as non-empty decimal digits with no leading zero, whose value is the number |
| `Numbers.IntString` | app/workspace/page.tsx:169 | `${i}` uses only digits and '-', and starts with a digit exactly when `i >= 0` |
| `Numbers.NumberOfDecimal` | app/workspace/page.tsx:169 | converting a rendered natural number back gives the number |
| `Numbers.NumberOfIntString` | app/workspace/page.tsx:196 | converting `${i}` back gives `i` for every integer |
| `Numbers.IntStringInjective` | app/workspace/page.tsx:196 | different integers never render the same |
| `Guardrails.ParamNumber` | app/workspace/page.tsx:79-80 | an absent parameter converts to the fallback (`raw || fallback`) |
| `Guardrails.SafePage` | app/workspace/page.tsx:83 | the guarded page is positive, and is either 1 or the converted value itself |
| `Guardrails.SafeLimit` | app/workspace/page.tsx:84-85 | the guarded limit lies in (0, 100], and is either 10 or the converted value itself |
| `Guardrails.Guard` | app/workspace/page.tsx:79-85 | the fetched pair always has page > 0 and 0 < limit <= 100 |
| `Guardrails.SafePageKeepsIff` | app/workspace/page.tsx:83 | a value passes the page guardrail unchanged if and only if it is positive |
| `Guardrails.SafeLimitKeepsIff` | app/workspace/page.tsx:84-85 | a value passes the limit guardrail unchanged if and only if it lies in (0, 100] |
| `Guardrails.GuardIdempotent` | app/workspace/page.tsx:83-85 | passing a guarded pair through the guardrails again changes nothing |
| `Guardrails.GuardPage` | app/workspace/page.tsx:79-83 | the page is 1 when absent, empty, non-finite or non-positive, and the converted value otherwise |
| `Guardrails.GuardLimit` | app/workspace/page.tsx:80-85 | the limit is 10 when absent, empty, non-finite or outside (0, 100], and the converted value otherwise |
| `Guardrails.GuardFinite` | app/workspace/page.tsx:79-85 | the pair fetched for two parameters that convert to finite numbers |
| `Guardrails.WholePageAtLeastOne` | app/workspace/page.tsx:83 | a guarded page that is a whole number is at least 1 |
| `Guardrails.FractionsPassThrough` | app/workspace/page.tsx:79-85 | `page=0.5`, `limit=2.5` are fetched as 0.5 and 2.5, not rounded |
| `Guardrails.NotFiniteFallsBack` | app/workspace/page.tsx:83-85 | non-numeric and infinite values fall back to (1, 10) |
| `Guardrails.OutOfRangeFallsBack` | app/workspace/page.tsx:83-85 | page 0 or -3 and limit 101 or 0 fall back to (1, 10) |
| `Numbers.NumberOfHalf` | app/workspace/page.tsx:79-80 | "0.5" converts to 0.5 |
| `Numbers.NumberOfTwoAndAHalf` | app/workspace/page.tsx:79-80 | "2.5" converts to 2.5 |
| `Numbers.NumberOfWord` | app/workspace/page.tsx:79-80 | "abc" converts to NaN |
| `Numbers.NumberOfTrailingLetter` | app/workspace/page.tsx:79-80 | "1x" converts to NaN |
| `Numbers.NumberOfInfinities` | app/workspace/page.tsx:79-80 | "Infinity" and "-Infinity" are not finite |
| `Numbers.NumberOfZero` | app/workspace/page.tsx:79-80 | "0" converts to 0 |
| `Numbers.NumberOfMinusThree` | app/workspace/page.tsx:79-80 | "-3" converts to -3 |
| `Numbers.NumberOfHundredOne` | app/workspace/page.tsx:79-80 | "101" converts to 101 |
| `Query.Href` | app/workspace/page.tsx:169 | the href of a link (Prev, Next and the numbered links alike, lines 169 and 196) carries exactly the rendered page and limit as its `page` and `limit` parameters |
| `Query.GuardHref` | app/workspace/page.tsx:196 | following a link fetches its page if that is >= 1 (else 1), and its limit if that is in [1, 100] (else 10) |
| `Query.HrefRoundTrip` | app/workspace/page.tsx:196 | for page >= 1 and 1 <= limit <= 100, following the link fetches exactly (page, limit) |
| `Query.MissingParamsDefault` | app/workspace/page.tsx:79-85 | an empty query string, or empty `page=` and `limit=`, fetches (1, 10) |
| `Pagination.PrevPage` | app/workspace/page.tsx:155 | the Prev target is one before the current page past page 1 and page 1 otherwise; it is never below 1 and, on a real page, never past the current page |
| `Pagination.NextPage` | app/workspace/page.tsx:156 | the Next target is the next page before the last page and the page count from the last page on; it never exceeds either |
| `Pagination.WindowStart` | app/workspace/page.tsx:184 | the window starts at page 1 or later, at most two before the current page |
| `Pagination.WindowEnd` | app/workspace/page.tsx:185 | the window ends no later than the page count and four after its start |
| `Pagination.Window` | app/workspace/page.tsx:183-186 | at most five links, consecutive pages from the start, empty exactly when the page count is below the start |
| `Pagination.WindowMembers` | app/workspace/page.tsx:183-186 | a page is linked if and only if it is in [1, total], at most two before the current page, and at most two after it (or up to page 5) |
| `Pagination.WindowStrictlyIncreasing` | app/workspace/page.tsx:186 | the numbered links are strictly increasing |
| `Pagination.WindowAroundCurrent` | app/workspace/page.tsx:184-186 | for 1 <= current <= total, all links lie in [1, total], the current page is linked, and at least min(3, total) pages are shown |
| `Pagination.WindowExamples` | app/workspace/page.tsx:183-186 | (1,10) gives 1..5, (3,3) and (2,3) give 1..3, (6,10) gives 4..8, (10,10) gives 8..10, and no pages gives no links |
| `Pagination.PrevDisabled` | app/workspace/page.tsx:190 | for every current page, Prev is disabled if and only if its target is the current page |
| `Pagination.NextDisabled` | app/workspace/page.tsx:211 | for every current page and page count, Next is disabled if and only if its target is the current page |
| `Pagination.NextEnabledWithoutPages` | app/workspace/page.tsx:209-213 | with zero pages reported, Next on page 1 is enabled and targets page 0 |
| `Pagination.NextBackwardPastEnd` | app/workspace/page.tsx:209-213 | past the reported last page, Next is enabled and leads back to the last page |
| `Pagination.PrevNextInWindow` | app/workspace/page.tsx:155-186 | on a real page, the Prev and Next targets are always among the numbered links |
| `Pagination.NumberLinks` | app/workspace/page.tsx:192-207 | one numbered link per window page, none disabled, marked current exactly on the current page |
| `Pagination.Nav` | app/workspace/page.tsx:188-214 | the bar is Prev, the window in order, then Next; Prev and Next are never marked current and are disabled as the source says |
| `Pagination.NavFollow` | app/workspace/page.tsx:158-214 | following any link of the bar with a valid limit fetches max(1, target) with that limit |
| `Pagination.NavStaysInRange` | app/workspace/page.tsx:158-214 | on a real page, every link targets a page in [1, total] and fetches exactly that page |
| `Pagination.NavOneCurrent` | app/workspace/page.tsx:192-207 | on a real page, exactly one link is marked current, and it is the current page's |
| `Fetch.NetworkMessage` | app/workspace/page.tsx:56-58 | the message is "Network error: " followed by the error's message, or "unknown" when it has none |
| `Fetch.Detail` | app/workspace/page.tsx:63-65 | the detail is the body text when that is readable and non-empty, and "failed to load properties" otherwise |
| `Fetch.Classify` | app/workspace/page.tsx:56-75 | data is returned only from a 2xx reply whose body is exactly the success envelope holding that data; a network failure throws its network message; a 2xx body that is not JSON or is `null` raises the matching runtime error; thrown messages are non-empty |
| `Fetch.NotOkIsApiError` | app/workspace/page.tsx:62-67 | a non-2xx reply throws `API <status>: <detail>`, and the body's JSON does not affect the outcome |
| `Fetch.BadShapeIsShapeError` | app/workspace/page.tsx:71-73 | a 2xx reply whose status is not "SUCCESS", or which has no data, throws "Unexpected API shape." |
| `Fetch.SuccessReturnsData` | app/workspace/page.tsx:71-75 | a 2xx reply with the success envelope returns its data unchanged |
| `Fetch.LoadedIff` | app/workspace/page.tsx:62-75 | data is returned if and only if the reply is 2xx with status "SUCCESS" and data present |
| `Fetch.EmptyBodyDetail` | app/workspace/page.tsx:63-65 | an empty body and an unreadable body give the same message, naming "failed to load properties" |
| `Fetch.MessagesDistinct` | app/workspace/page.tsx:57-72 | the API, shape and network messages can never be confused with one another |
| `Fetch.NetworkFailureDistinct` | app/workspace/page.tsx:56-75 | a network failure never has the same outcome as any HTTP response |
| `Fetch.IsOk` | app/workspace/page.tsx:62 | a status is OK exactly when it lies in the 2xx class, i.e. its hundreds digit is 2 |
| `Fetch.ApiMessage` | app/workspace/page.tsx:64-66 | the API error message is "API ", then the status numeral, then ":", then a space and the detail |
| `Fetch.ApiMessageStatus` | app/workspace/page.tsx:64-66 | two equal API error messages were produced for the same status |
| `Fetch.ErrorStatusNotLoaded` | app/workspace/page.tsx:71-73 | a 200 reply whose envelope says "ERROR" throws the shape error and never returns data |

## Left out

- The request itself is not modelled. That covers `fetch`, the 15-second `AbortController` timeout, `clearTimeout`, and the `revalidate`/cache tags (app/workspace/page.tsx:44-60). They are I/O and timers. The reply is a parameter of `Fetch.Classify`.
- The messages of runtime errors are not modelled. A 2xx body that is not JSON and a JSON `null` body make the runtime throw its own error (`SyntaxError`, `TypeError`). `Fetch.Classify` only names which of the two happened.
- The JSX rendering is not modelled. That covers the listing, the "No properties found." empty state, CSS class strings and `toLocaleDateString` (app/workspace/page.tsx:89-141). They are presentation and locale-dependent.
- `Numbers.NumberOf` models only decimal literals with an optional sign, an optional point, and "Infinity". JavaScript also accepts surrounding whitespace, exponents and `0x`/`0o`/`0b` prefixes; the model reads these as NaN, where JavaScript gives a finite number.
- Binary64 behaviour is not modelled: rounding, `-0`, and huge literals that become Infinity. The model uses exact reals.
- `Query.Param` stands in for the framework's search-parameter parsing. It does no percent-decoding and no `+` decoding, and does not turn repeated keys into arrays.
- Server-reported `currentPage`, `totalPages` and `limit` are integers in the model. Fractional values from the backend are not modelled. In JavaScript they are doubles, exact only up to 2^53, and `${n}` switches to exponent form from 1e21. The model's integers are unbounded and always render as plain digits; so the model does not capture what happens there: from 1e21 on the href reads `?page=1e+21`, the query parser decodes `+` as a space, `Number("1e 21")` is `NaN`, and line 83 falls back to page 1, so the link round trip fails from 1e21 on.
- `lib/apiClient.ts`, `app/client/page.tsx` and the other dashboard pages are not part of this model. They are a thin network client and page markup.
- There is no request counter, cancellation on supersede, or view-state machine. The modelled page has none.
