/** The search request body `buildBody` produces and the two copies the
    query derives from it: the probe, with `size` set to 0, and one body per
    page, with `from` set to the page's offset. The JSON nesting of the
    dictionary (`query.filtered.filter.bool.must`) is fixed; only its leaves
    vary, and those are the members of `QueryBody`. */
module QueryBodies {

  /** `pageSize`: hits per page (a `Double` field in the source, always the
      whole number 10000). */
  const PageSize: nat := 10000

  /** The timestamp member the range filter applies to. */
  const RangeKey: string := "datetime_idx"

  datatype QueryBody = QueryBody(
    sortingFeature: string,  // key of the single sort clause
    orderType: string,       // its "order"
    size: int,
    from: int,
    field: string,           // the "exists" filter
    rangeKey: string,        // the "range" filter's member
    gte: string,
    lte: string)

  /** `buildBody`: one page of `PageSize` hits from offset 0, sorted by the
      given key and order, restricted to hits that have `field` and whose
      timestamp lies in [startTimestamp, endTimestamp]. */
  function BuildBody(field: string, sortingFeature: string, orderType: string,
                     startTimestamp: string, endTimestamp: string): (b: QueryBody)
    ensures b.size == PageSize && b.from == 0
    ensures b.sortingFeature == sortingFeature && b.orderType == orderType
    ensures b.field == field
    ensures b.rangeKey == RangeKey && b.gte == startTimestamp && b.lte == endTimestamp
  {
    var startPosition := 0;
    QueryBody(sortingFeature, orderType, PageSize, startPosition, field, RangeKey,
              startTimestamp, endTimestamp)
  }

  /** The probe `getDataSize` sends: the body with `size` overridden to 0 and
      nothing else changed. */
  function ProbeBody(body: QueryBody): (p: QueryBody)
    ensures p.size == 0
    ensures p.(size := body.size) == body
  {
    body.(size := 0)
  }

  /** Offset of the `i`-th page request: `pageSize * (i + 1)`. */
  function PageOffset(i: nat): (from: nat)
    ensures from >= PageSize
    ensures from % PageSize == 0
  {
    PageSize * (i + 1)
  }

  /** The body of the `i`-th page request: `from` overridden with the page's
      offset and nothing else changed. */
  function PageBody(body: QueryBody, i: nat): (p: QueryBody)
    ensures p.from == PageOffset(i)
    ensures p.(from := body.from) == body
  {
    body.(from := PageOffset(i))
  }

  /** Page offsets grow strictly with the page index, one page apart. */
  lemma PageOffsetsIncrease(i: nat, j: nat)
    requires i < j
    ensures PageOffset(i) + PageSize <= PageOffset(j)
  {
  }

  /** The probe and every page body built from `buildBody`'s result agree on
      everything but `size` and `from`: the probe asks for no hits from
      offset 0, each page for `PageSize` hits from a non-zero offset. */
  lemma ProbeAndPageBodies(field: string, sortingFeature: string, orderType: string,
                           startTimestamp: string, endTimestamp: string, i: nat)
    ensures var b := BuildBody(field, sortingFeature, orderType, startTimestamp, endTimestamp);
            var probe, page := ProbeBody(b), PageBody(b, i);
            && probe.size == 0 && probe.from == 0
            && page.size == PageSize && page.from == PageSize * (i + 1)
            && probe.(size := PageSize, from := page.from) == page
  {
  }
}
