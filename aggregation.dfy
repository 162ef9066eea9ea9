/** The single pass `extractData` makes over the merged hits: one value and
    one timestamp per hit, a running sum, maximum and minimum, and the
    average as the sum divided by the number of hits. */
module Aggregation {
  import opened Records

  /** Swift's `/` on `Int`: the quotient truncated toward zero. */
  function TruncDiv(a: int, b: int): (q: int)
    requires b > 0
    ensures a >= 0 ==> q >= 0
    ensures a <= 0 ==> q <= 0
    ensures -b < a < b ==> q == 0
  {
    if a >= 0 then a / b else -((-a) / b)
  }

  /** The truncated quotient is the largest multiple of `b` not beyond `a`
      on the side of zero: it rounds toward zero, never away from it. */
  lemma TruncDivRounding(a: int, b: int)
    requires b > 0
    ensures var q := TruncDiv(a, b);
            && (a >= 0 ==> 0 <= q && q * b <= a < q * b + b)
            && (a < 0 ==> q <= 0 && q * b - b < a <= q * b)
  {
    if a >= 0 {
      var q, r := a / b, a % b;
      assert q * b + r == a && 0 <= r < b;
      MulMonotone(-1, q, b);
    } else {
      var d, r := (-a) / b, (-a) % b;
      assert d * b + r == -a && 0 <= r < b;
      MulMonotone(-1, d, b);
      assert (-d) * b == -(d * b);
    }
  }

  function Sum(s: seq<int>): int {
    if s == [] then 0 else Sum(s[..|s| - 1]) + s[|s| - 1]
  }

  /** A sum of values that all lie in [lo, hi] lies in [n * lo, n * hi]. */
  lemma {:induction false} SumBounds(s: seq<int>, lo: int, hi: int)
    requires forall k :: 0 <= k < |s| ==> lo <= s[k] <= hi
    ensures |s| * lo <= Sum(s) <= |s| * hi
  {
    if s != [] {
      var n := |s|;
      SumBounds(s[..n - 1], lo, hi);
      assert n * lo == (n - 1) * lo + lo && n * hi == (n - 1) * hi + hi;
    }
  }

  /** Multiplying by a positive factor keeps the order, both ways. */
  lemma MulMonotone(x: int, y: int, n: int)
    requires n > 0
    ensures x < y <==> x * n < y * n
  {
    assert y * n - x * n == (y - x) * n;
  }

  /** The truncated quotient of a number between n * lo and n * hi by n
      lies between lo and hi. */
  lemma TruncDivBetween(a: int, n: int, lo: int, hi: int)
    requires n > 0
    requires n * lo <= a <= n * hi
    ensures lo <= TruncDiv(a, n) <= hi
  {
    var q := TruncDiv(a, n);
    TruncDivRounding(a, n);
    if a >= 0 {
      MulMonotone(hi, q, n);
      assert q * n + n == (q + 1) * n;
      MulMonotone(lo, q + 1, n);
    } else {
      MulMonotone(q, lo, n);
      assert q * n - n == (q - 1) * n;
      MulMonotone(q - 1, hi, n);
    }
  }

  /** The average of a non-empty series lies between its minimum and its
      maximum. */
  lemma AverageBetween(s: seq<int>, lo: int, hi: int)
    requires |s| > 0
    requires forall k :: 0 <= k < |s| ==> lo <= s[k] <= hi
    ensures lo <= TruncDiv(Sum(s), |s|) <= hi
  {
    SumBounds(s, lo, hi);
    TruncDivBetween(Sum(s), |s|, lo, hi);
  }

  /** `extractData`: the callback's five arguments, returned instead of
      delivered. The source divides by the number of hits, so the hits must
      not be empty; every force-unwrap must succeed. */
  method ExtractData(rawData: seq<ElasticSearchData>, field: string)
    returns (average: int, maximum: int, minimum: int, dataArray: seq<int>, timestampArray: seq<int>)
    requires |rawData| > 0
    requires forall k :: 0 <= k < |rawData| ==> Extractable(field, rawData[k])
    ensures |dataArray| == |rawData| && |timestampArray| == |rawData|
    ensures forall k :: 0 <= k < |rawData| ==>
              dataArray[k] == ElemData(field, rawData[k]) &&
              timestampArray[k] == Timestamp(rawData[k])
    ensures forall k :: 0 <= k < |dataArray| ==> minimum <= dataArray[k] <= maximum
    ensures exists k :: 0 <= k < |dataArray| && maximum == dataArray[k]
    ensures exists k :: 0 <= k < |dataArray| && minimum == dataArray[k]
    ensures average == TruncDiv(Sum(dataArray), |rawData|)
    ensures minimum <= average <= maximum
    ensures !IsKnownField(field) ==> average == 0 && maximum == 0 && minimum == 0
  {
    var sum := 0;
    maximum := IntMin;
    minimum := IntMax;
    dataArray := [];
    timestampArray := [];
    var elemData := 0;

    for i := 0 to |rawData|
      invariant |dataArray| == i && |timestampArray| == i
      invariant forall k :: 0 <= k < i ==> dataArray[k] == ElemData(field, rawData[k])
      invariant forall k :: 0 <= k < i ==> timestampArray[k] == Timestamp(rawData[k])
      invariant sum == Sum(dataArray)
      invariant !IsKnownField(field) ==> elemData == 0
      invariant i == 0 ==> maximum == IntMin && minimum == IntMax
      invariant forall k :: 0 <= k < i ==> minimum <= dataArray[k] <= maximum
      invariant i > 0 ==> exists k :: 0 <= k < i && maximum == dataArray[k]
      invariant i > 0 ==> exists k :: 0 <= k < i && minimum == dataArray[k]
    {
      var elem := rawData[i];
      if field == "dust" {
        elemData := elem.sourceData.value.dust.value;
      } else if field == "humidity" {
        elemData := elem.sourceData.value.humidity.value;
      } else if field == "methane" {
        elemData := elem.sourceData.value.methane.value;
      } else if field == "co" {
        elemData := elem.sourceData.value.co.value;
      }
      assert elemData == ElemData(field, elem);

      sum := sum + elemData;
      if maximum < elemData {
        maximum := elemData;
      }
      if minimum > elemData {
        minimum := elemData;
      }
      assert (dataArray + [elemData])[..i] == dataArray;
      dataArray := dataArray + [elemData];
      timestampArray := timestampArray + [Timestamp(elem)];
    }
    average := TruncDiv(sum, |rawData|);
    AverageBetween(dataArray, minimum, maximum);
  }
}
