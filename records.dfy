/** Records returned by the search backend, as the aggregation reads them.
    An `ElasticSearchData` hit carries an optional `_source` document whose
    sensor readings and `datetime_idx` timestamp are all optional integers. */
module Records {

  datatype Option<+T> = None | Some(value: T)

  /** Bounds of Swift's 64-bit `Int`; `Int.min` and `Int.max` are the
      sentinels the aggregation starts its maximum and minimum from. */
  const IntMin: int := -0x8000_0000_0000_0000
  const IntMax: int := 0x7fff_ffff_ffff_ffff

  predicate InIntRange(x: int) {
    IntMin <= x <= IntMax
  }

  datatype SourceData = SourceData(
    dust: Option<int>,
    humidity: Option<int>,
    methane: Option<int>,
    co: Option<int>,
    datetimeIdx: Option<int>)

  datatype ElasticSearchData = ElasticSearchData(sourceData: Option<SourceData>)

  /** One page of hits, as decoded from one search response. */
  type Page = seq<ElasticSearchData>

  /** The field names the aggregation's `switch` recognises. */
  predicate IsKnownField(field: string) {
    field == "dust" || field == "humidity" || field == "methane" || field == "co"
  }

  /** The optional reading a known field name selects from a document. */
  function Reading(field: string, s: SourceData): (r: Option<int>)
    requires IsKnownField(field)
    ensures field == "dust" ==> r == s.dust
    ensures field == "humidity" ==> r == s.humidity
    ensures field == "methane" ==> r == s.methane
    ensures field == "co" ==> r == s.co
  {
    if field == "dust" then s.dust
    else if field == "humidity" then s.humidity
    else if field == "methane" then s.methane
    else s.co
  }

  /** The hit has a document with a timestamp (force-unwrapped when the
      timestamp series is built). */
  predicate HasTimestamp(e: ElasticSearchData) {
    e.sourceData.Some? && e.sourceData.value.datetimeIdx.Some?
  }

  function Timestamp(e: ElasticSearchData): int
    requires HasTimestamp(e)
  {
    e.sourceData.value.datetimeIdx.value
  }

  /** Every force-unwrap the aggregation applies to this hit succeeds: the
      document and its timestamp are present and, for a known field, so is
      that field's reading (a Swift `Int`, hence within 64 bits). */
  predicate Extractable(field: string, e: ElasticSearchData) {
    && HasTimestamp(e)
    && (IsKnownField(field) ==>
          Reading(field, e.sourceData.value).Some? &&
          InIntRange(Reading(field, e.sourceData.value).value))
  }

  /** The value the aggregation takes from one hit: the selected reading for
      a known field; for any other field the `switch` falls to its empty
      default and the value stays at its initial 0. */
  function ElemData(field: string, e: ElasticSearchData): (v: int)
    requires Extractable(field, e)
    ensures InIntRange(v)
    ensures !IsKnownField(field) ==> v == 0
    ensures IsKnownField(field) ==> Some(v) == Reading(field, e.sourceData.value)
  {
    if IsKnownField(field) then Reading(field, e.sourceData.value).value else 0
  }
}
