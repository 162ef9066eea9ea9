/** Page discovery and page requests: `getDataSize` turns the probe's total
    hit count into a number of pages, and `makeAssynchronousRequest` sends one
    body per page. */
module Paging {
  import opened Records
  import opened QueryBodies

  /** How the probe request ended, as the response handler sees it. */
  datatype ProbeResponse =
    | ProbeFailure              // `.failure`: the error is printed
    | ProbeUnreadable           // `.success` but not a dictionary with "hits"
    | ProbeTotal(total: nat)    // `.success` with `hits.total`

  /** `ceil(total / pageSize)` on a whole-number total. */
  function PageCount(total: nat): (pages: nat)
    ensures total == 0 <==> pages == 0
    ensures pages > 0 ==> (pages - 1) * PageSize < total <= pages * PageSize
  {
    (total + PageSize - 1) / PageSize
  }

  /** The page count `getDataSize` hands to its completion: 0 when the
      probe fails, the ceiling when it returns a total, and no call at all
      (`None`) when a `guard` returns early on an unreadable response. */
  function GetDataSize(response: ProbeResponse): (pages: Option<nat>)
    ensures response.ProbeFailure? ==> pages == Some(0)
    ensures response.ProbeUnreadable? ==> pages == None
    ensures response.ProbeTotal? ==>
              && pages.Some?
              && (response.total == 0 <==> pages.value == 0)
              && pages.value * PageSize - PageSize < response.total <= pages.value * PageSize
  {
    var totalPages := 0;
    match response
    case ProbeFailure => Some(totalPages)
    case ProbeUnreadable => None
    case ProbeTotal(total) => Some(PageCount(total))
  }

  /** Worked values of the page count. */
  lemma PageCountExamples()
    ensures PageCount(0) == 0
    ensures PageCount(1) == 1
    ensures PageCount(10000) == 1
    ensures PageCount(10001) == 2
    ensures PageCount(25000) == 3
  {
  }

  /** The page loop of `makeAssynchronousRequest`: the bodies it sends, in
      the order it sends them (transport and dispatch are not modelled). */
  method PageRequests(body: QueryBody, pages: nat) returns (requests: seq<QueryBody>)
    ensures |requests| == pages
    ensures forall i :: 0 <= i < pages ==> requests[i] == PageBody(body, i)
    ensures forall i :: 0 <= i < pages ==>
              requests[i].(from := body.from) == body && requests[i].from == PageSize * (i + 1)
  {
    requests := [];
    for i := 0 to pages
      invariant |requests| == i
      invariant forall k :: 0 <= k < i ==> requests[k] == PageBody(body, k)
    {
      var modifiedBody := body.(from := PageSize * (i + 1));
      requests := requests + [modifiedBody];
    }
  }

  /** The hit at position `k` of the sorted result is inside the window of
      some page request exactly when PageSize <= k < PageSize * (pages + 1):
      the first `PageSize` hits are never requested, and the last request
      starts at or past the total. */
  lemma {:induction false} RequestedPositions(pages: nat, k: nat)
    ensures (exists i :: 0 <= i < pages && PageOffset(i) <= k < PageOffset(i) + PageSize)
            <==> PageSize <= k < PageSize * (pages + 1)
  {
    if PageSize <= k < PageSize * (pages + 1) {
      var i := k / PageSize - 1;
      assert 0 <= i < pages && PageOffset(i) <= k < PageOffset(i) + PageSize;
    }
  }

  /** With a positive total, the last page request starts at or beyond the
      total, so it asks for hits that do not exist, while hits
      0 .. PageSize - 1 are asked for by no request. */
  lemma LastRequestPastTotal(total: nat)
    requires total > 0
    ensures PageOffset(PageCount(total) - 1) >= total
    ensures forall i :: 0 <= i < PageCount(total) ==> PageOffset(i) >= PageSize
  {
  }

  /** `queryData` up to the page requests: the probe body it sends, and the
      page bodies it sends once the probe's response arrives (`None` when the
      response handler returns before calling its completion). The query
      parameters carry the source's defaults: the `dust` reading, sorted by
      `datetime_idx` in ascending order, over a fixed timestamp window. */
  method QueryRequests(response: ProbeResponse,
                       field: string := "dust",
                       sortingFeature: string := "datetime_idx",
                       orderType: string := "asc",
                       startTimestamp: string := "1491004800000",
                       endTimestamp: string := "1499177600000")
    returns (probe: QueryBody, pageBodies: Option<seq<QueryBody>>)
    ensures probe.size == 0 && probe.from == 0 && probe.field == field
    ensures probe.sortingFeature == sortingFeature && probe.orderType == orderType
    ensures probe.rangeKey == RangeKey && probe.gte == startTimestamp && probe.lte == endTimestamp
    ensures pageBodies.None? <==> response.ProbeUnreadable?
    ensures response.ProbeFailure? ==> pageBodies == Some([])
    ensures response.ProbeTotal? ==>
              && pageBodies.Some?
              && |pageBodies.value| == PageCount(response.total)
              && forall i :: 0 <= i < |pageBodies.value| ==>
                   pageBodies.value[i] == probe.(size := PageSize, from := PageSize * (i + 1))
  {
    var body := BuildBody(field, sortingFeature, orderType, startTimestamp, endTimestamp);
    probe := ProbeBody(body);
    var totalPages := GetDataSize(response);
    match totalPages
    case None =>
      pageBodies := None;
    case Some(pages) =>
      var requests := PageRequests(body, pages);
      pageBodies := Some(requests);
  }

  /** A query made with the default parameters sorts each page by the
      timestamp the range filter applies to, in ascending order: the pages
      come back each in timestamp order. */
  method DefaultQueryIsChronological(response: ProbeResponse)
    returns (probe: QueryBody, pageBodies: Option<seq<QueryBody>>)
    ensures probe.field == "dust"
    ensures probe.sortingFeature == probe.rangeKey == RangeKey && probe.orderType == "asc"
    ensures probe.gte == "1491004800000" && probe.lte == "1499177600000"
    ensures pageBodies.Some? ==>
              forall i :: 0 <= i < |pageBodies.value| ==>
                pageBodies.value[i].sortingFeature == RangeKey && pageBodies.value[i].orderType == "asc"
  {
    probe, pageBodies := QueryRequests(response);
  }
}
