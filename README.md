# ElasticSearchQuery: paginated fetch and aggregation of sensor readings

`ElasticSearchQuery` asks an Elasticsearch endpoint for the sensor readings
(`dust`, `humidity`, `methane` or `co`) recorded between two timestamps and
reduces them to an average, a maximum, a minimum and the raw value and
timestamp series. It builds one query body, sends a probe with `size` 0 to
learn the total number of hits, derives the number of pages of 10000 hits,
requests the pages, sorts the returned pages by the timestamp of their first
hit, flattens them, and aggregates the hits in a single pass.

This project models the deterministic core of that flow in Dafny:

- `Records` (records.dfy): hits as a datatype whose document holds optional
  integer readings and an optional `datetime_idx`; the field selection of the
  aggregation's `switch`; Swift's 64-bit `Int` bounds.
- `QueryBodies` (query_body.dfy): the body `buildBody` produces as a datatype
  with the members the query varies (sort key and order, `size`, `from`, the
  `exists` field, the timestamp range), the probe override of `size` and the
  per-page override of `from`.
- `Paging` (paging.dfy): the page count derived from the probe's response,
  the loop that builds one body per page, and `queryData` up to the page
  requests.
- `Aggregation` (aggregation.dfy): `extractData` as a method with a loop,
  proved against the sum, the truncating division and the bounds lemmas.
- `PageMerge` (page_merge.dfy): the class holding the `data` field, the
  in-place sort by first-hit timestamp, the `reduce([], +)` flatten, and the
  lemmas that the flatten keeps every hit and, for pages that do not overlap
  in time, yields hits in timestamp order whatever order the pages arrived in.

The code is modelled as written. Two of its quirks are kept and stated as
lemmas rather than corrected: page `i` is requested from offset
`10000 * (i + 1)`, so the first 10000 hits are never requested and the last
request starts at or past the total (`Paging.RequestedPositions`,
`Paging.LastRequestPastTotal`); and for a field name the `switch` does not
recognise every value is 0, so the average, maximum and minimum are all 0
(`Aggregation.ExtractData`). The model also keeps the code's behaviour where
a more forgiving pipeline might be expected: the code divides by the number
of hits without an empty-input case, so the model requires at least one hit;
it force-unwraps the requested reading rather than skipping hits that lack
it, so the model requires the reading to be present; and it sorts whole
pages by their first hit rather than sorting individual hits.

## Model

| member | source | states |
|---|---|---|
| Records.ElemData | ElasticSearchQuery/Classes/ElasticSearchQuery.swift:76-94 | the value taken from a hit is the selected reading for `dust`, `humidity`, `methane` or `co`, is 0 for any other field name, and fits a Swift `Int` |
| Records.Reading | ElasticSearchQuery/Classes/ElasticSearchQuery.swift:79-91 | each of the four recognised field names selects its own reading from the document: `dust`, `humidity`, `methane` or `co` |
| Aggregation.TruncDiv | ElasticSearchQuery/Classes/ElasticSearchQuery.swift:111 | Swift's `/` on `Int`: the quotient keeps the dividend's sign and is 0 when the dividend is smaller than the divisor in magnitude (the full rounding law is TruncDivRounding) |
| Aggregation.TruncDivRounding | ElasticSearchQuery/Classes/ElasticSearchQuery.swift:111 | Swift's integer division rounds toward zero: for a non-negative dividend q * n <= a < q * n + n, for a negative one q * n - n < a <= q * n |
| Aggregation.SumBounds | ElasticSearchQuery/Classes/ElasticSearchQuery.swift:96 | the running sum of n values all in [lo, hi] lies in [n * lo, n * hi] |
| Aggregation.TruncDivBetween | ElasticSearchQuery/Classes/ElasticSearchQuery.swift:111 | truncating a number between n * lo and n * hi by n gives a quotient between lo and hi |
| Aggregation.AverageBetween | ElasticSearchQuery/Classes/ElasticSearchQuery.swift:96-111 | the average of a non-empty series lies between any lower and upper bound of its values |
| Aggregation.ExtractData | ElasticSearchQuery/Classes/ElasticSearchQuery.swift:70-114 | one value and one timestamp per hit, in input order; the maximum is at least every value and equals one of them, the minimum likewise, so neither sentinel survives; the average is the sum divided by the hit count, truncated, and lies between minimum and maximum; an unknown field gives 0 for all three |
| QueryBodies.BuildBody | ElasticSearchQuery/Classes/ElasticSearchQuery.swift:11-44 | the body asks for `pageSize` hits from offset 0, sorted by the given key and order, filtered on the given field and on `datetime_idx` in [start, end] |
| QueryBodies.ProbeBody | ElasticSearchQuery/Classes/ElasticSearchQuery.swift:118-119 | the probe sets `size` to 0 and leaves every other member unchanged |
| QueryBodies.PageOffset | ElasticSearchQuery/Classes/ElasticSearchQuery.swift:161 | a page offset is a non-zero multiple of the page size |
| QueryBodies.PageBody | ElasticSearchQuery/Classes/ElasticSearchQuery.swift:160-161 | a page body sets `from` to the page's offset and leaves every other member unchanged |
| QueryBodies.PageOffsetsIncrease | ElasticSearchQuery/Classes/ElasticSearchQuery.swift:159-161 | later pages start at least one page size further |
| QueryBodies.ProbeAndPageBodies | ElasticSearchQuery/Classes/ElasticSearchQuery.swift:118-161 | the probe and each page body built from the same body differ only in `size` (0 against `pageSize`) and `from` (0 against `pageSize * (i + 1)`) |
| Paging.PageCount | ElasticSearchQuery/Classes/ElasticSearchQuery.swift:136-138 | the page count is the ceiling of total / 10000: 0 exactly for total 0, otherwise (pages - 1) * 10000 < total <= pages * 10000 |
| Paging.GetDataSize | ElasticSearchQuery/Classes/ElasticSearchQuery.swift:124-146 | a failed probe yields 0 pages, a probe with a total yields its ceiling page count, an unreadable response never reaches the completion |
| Paging.PageCountExamples | ElasticSearchQuery/Classes/ElasticSearchQuery.swift:7-138 | 0, 1, 10000, 10001 and 25000 hits give 0, 1, 1, 2 and 3 pages |
| Paging.PageRequests | ElasticSearchQuery/Classes/ElasticSearchQuery.swift:155-164 | the page loop sends exactly `pages` bodies, the i-th equal to the built body except `from = 10000 * (i + 1)` |
| Paging.RequestedPositions | ElasticSearchQuery/Classes/ElasticSearchQuery.swift:155-161 | a hit position is inside some requested window exactly when 10000 <= position < 10000 * (pages + 1): offset 0 is never requested |
| Paging.LastRequestPastTotal | ElasticSearchQuery/Classes/ElasticSearchQuery.swift:136-161 | with a positive total the last page request starts at or past the total, and no request starts below 10000 |
| Paging.QueryRequests | ElasticSearchQuery/Classes/ElasticSearchQuery.swift:211-215 | `queryData` sends a probe with size 0 and offset 0 carrying the caller's parameters (or the defaults: `dust`, `datetime_idx`, `asc` and the fixed window), then no pages if the response is unreadable, none after a failure, and the ceiling number of page bodies otherwise |
| Paging.DefaultQueryIsChronological | ElasticSearchQuery/Classes/ElasticSearchQuery.swift:211-214 | a call with the default parameters asks for `dust`, sorts by `datetime_idx` (the range filter's key) ascending over the window 1491004800000 to 1499177600000, and so does every page body |
| PageMerge.FirstKey | ElasticSearchQuery/Classes/ElasticSearchQuery.swift:197 | the comparator's key of a page is the `datetime_idx` of its first hit |
| PageMerge.Concat | ElasticSearchQuery/Classes/ElasticSearchQuery.swift:203 | `reduce([], +)` flattens one page to itself and pages that are all empty to nothing (its other laws are the lemmas below) |
| PageMerge.ConcatLength | ElasticSearchQuery/Classes/ElasticSearchQuery.swift:203 | the flattened result is as long as all pages together |
| PageMerge.ConcatAppend | ElasticSearchQuery/Classes/ElasticSearchQuery.swift:203 | the left fold of concatenation distributes over splitting the page list |
| PageMerge.ConcatMember | ElasticSearchQuery/Classes/ElasticSearchQuery.swift:203 | every hit of the flattened result belongs to one of the pages |
| PageMerge.ConcatPermutation | ElasticSearchQuery/Classes/ElasticSearchQuery.swift:196-203 | reordering the pages keeps the multiset of flattened hits |
| PageMerge.OrderedPagesFlattenSorted | ElasticSearchQuery/Classes/ElasticSearchQuery.swift:196-203 | pages ordered by first hit that are internally sorted and do not overlap in time flatten to hits in timestamp order |
| PageMerge.NonOverlappingPermutation | ElasticSearchQuery/Classes/ElasticSearchQuery.swift:196-201 | whether pages overlap in time does not depend on their order |
| PageMerge.MergeIsChronological | ElasticSearchQuery/Classes/ElasticSearchQuery.swift:193-203 | non-overlapping pages arriving in any order come out of sort-then-flatten in timestamp order |
| PageMerge.ElasticSearchQuery.constructor | ElasticSearchQuery/Classes/ElasticSearchQuery.swift:8 | the page list starts empty |
| PageMerge.InsertPage | ElasticSearchQuery/Classes/ElasticSearchQuery.swift:196-201 | one step of the sort: given the first i pages ordered, the first i + 1 pages of the result are ordered and the result is a permutation of the input |
| PageMerge.ElasticSearchQuery.SortPages | ElasticSearchQuery/Classes/ElasticSearchQuery.swift:196-201 | the sort leaves `data` a permutation of its old value, ordered by non-decreasing first-hit `datetime_idx`; every page must be non-empty with a timestamp on its first hit |
| PageMerge.ElasticSearchQuery.MergeAndExtract | ElasticSearchQuery/Classes/ElasticSearchQuery.swift:196-205 | sort, flatten and aggregate: the pages are ordered and permuted, the flattened hits are the same multiset as before, the series are one entry per flattened hit, the maximum and minimum bound every value and are attained, the average is the truncated mean and lies between them, an unknown field gives zeros, and non-overlapping pages give a non-decreasing timestamp series |

## Left out

- HTTP transport: building the `URLRequest`, the Alamofire calls and `setURL` are network I/O; a response enters the model only as a `Paging.ProbeResponse` value or as the list of pages.
- `dictToJSON` and JSON serialization, and every `print`: library serialization and console output.
- ObjectMapper's `mapArray`: hits are modelled directly as `Records.ElasticSearchData` values.
- `DispatchGroup` and `DispatchQueue`: concurrency. The barrier never releases when a page fails, because the failure path returns without `leave()`, and each successful page response replaces `data` with a one-page list before appending. The merge therefore takes the list of pages as its input instead of reproducing that race.
- The `guard … return` paths of the page responses: they drop the response without calling `leave()`. Only the probe's early return is modelled, as `ProbeUnreadable`.
- The `as! Double` cast of `hits.total` (line 136): a successful probe whose `hits.total` is missing or not a number traps there. `Paging.ProbeResponse` has no case for it, so that trap is excluded from the model.
- The floating-point `ceil`: the total is a whole number of hits, and the page count is integer ceiling division. The two agree for totals below 2^53.
- Aggregation.ExtractData: the running sum is an unbounded integer, so Swift's overflow trap on `average += elemData` is not modelled.
- What follows a page count of 0 (a failed probe or a zero total): `Paging.QueryRequests` stops at "no page bodies". In the code, `makeAssynchronousRequest` still runs: the barrier releases at once, and `extractData` runs on whatever `data` holds. On a fresh object that is `[]`, so the division at line 111 traps. On a reused object, the previous query's pages are aggregated again. The model does not reproduce either outcome: `PageMerge.ElasticSearchQuery.MergeAndExtract` requires at least one page.
- The callback field and its delivery: `ExtractData` and `MergeAndExtract` return the five values instead.
- PageMerge.ElasticSearchQuery.SortPages: Swift's `sort(by:)` algorithm is not specified, so the model is an insertion sort. The contract states only what any correct sort guarantees: the result is ordered and is a permutation. The order among pages whose first hits share a timestamp is not fixed.
- A baseline (previous-reading) query: the code has none, so the model has none.
