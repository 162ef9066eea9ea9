/** The page merge at the end of `makeAssynchronousRequest`: once every page
    has arrived, the list of pages is sorted in place by the `datetime_idx`
    of each page's first hit, flattened with `reduce([], +)`, and handed to
    `extractData`. */
module PageMerge {
  import opened Records
  import opened Aggregation

  /** The sort's comparator reads `a[0]` and force-unwraps its timestamp. */
  predicate ValidPage(p: Page) {
    |p| > 0 && HasTimestamp(p[0])
  }

  /** The comparator's key: the first hit's timestamp (only ever read for
      pages that are valid). */
  function FirstKey(p: Page): (key: int)
    ensures ValidPage(p) ==> key == p[0].sourceData.value.datetimeIdx.value
  {
    if ValidPage(p) then Timestamp(p[0]) else 0
  }

  predicate AllValid(ps: seq<Page>) {
    forall k :: 0 <= k < |ps| ==> ValidPage(ps[k])
  }

  /** Pages in non-decreasing order of their first hit's timestamp: no page
      is "in increasing order" (strict `<`) before an earlier one. */
  predicate PagesOrdered(ps: seq<Page>) {
    && AllValid(ps)
    && forall a, b :: 0 <= a < b < |ps| ==> FirstKey(ps[a]) <= FirstKey(ps[b])
  }

  /** `reduce([], +)`: a left fold of concatenation over the pages. A single
      page flattens to itself, and pages that are all empty to nothing. */
  function Concat(ps: seq<Page>): (hits: seq<ElasticSearchData>)
    ensures |ps| == 1 ==> hits == ps[0]
    ensures (forall k :: 0 <= k < |ps| ==> ps[k] == []) ==> hits == []
  {
    if ps == [] then [] else Concat(ps[..|ps| - 1]) + ps[|ps| - 1]
  }

  function TotalLength(ps: seq<Page>): nat {
    if ps == [] then 0 else TotalLength(ps[..|ps| - 1]) + |ps[|ps| - 1]|
  }

  /** The flattened result has as many hits as all pages together. */
  lemma {:induction false} ConcatLength(ps: seq<Page>)
    ensures |Concat(ps)| == TotalLength(ps)
  {
    if ps != [] {
      ConcatLength(ps[..|ps| - 1]);
    }
  }

  lemma DropLastOfAppend<T>(a: seq<T>, b: seq<T>)
    requires b != []
    ensures (a + b)[..|a + b| - 1] == a + b[..|b| - 1]
    ensures (a + b)[|a + b| - 1] == b[|b| - 1]
  {
  }

  /** Flattening distributes over concatenation of page lists. */
  lemma {:induction false} ConcatAppend(a: seq<Page>, b: seq<Page>)
    ensures Concat(a + b) == Concat(a) + Concat(b)
  {
    if b == [] {
      assert a + b == a;
    } else {
      DropLastOfAppend(a, b);
      ConcatAppend(a, b[..|b| - 1]);
    }
  }

  /** Every hit of the flattened result comes from one of the pages. */
  lemma {:induction false} ConcatMember(ps: seq<Page>, e: ElasticSearchData)
    requires e in Concat(ps)
    ensures exists a :: 0 <= a < |ps| && e in ps[a]
  {
    var init := ps[..|ps| - 1];
    if e in Concat(init) {
      ConcatMember(init, e);
      var a :| 0 <= a < |init| && e in init[a];
      assert e in ps[a];
    } else {
      assert e in ps[|ps| - 1];
    }
  }

  /** Taking one page out of the list takes exactly its hits out of the
      flattened result. */
  lemma SplitAt<T>(s: seq<T>, j: nat)
    requires j < |s|
    ensures s == (s[..j] + [s[j]]) + s[j + 1..]
  {
  }

  lemma ConcatRemove(qs: seq<Page>, j: nat)
    requires j < |qs|
    ensures multiset(Concat(qs)) == multiset(Concat(qs[..j] + qs[j + 1..])) + multiset(qs[j])
  {
    var before, x, after := qs[..j], qs[j], qs[j + 1..];
    SplitAt(qs, j);
    ConcatAppend(before + [x], after);
    ConcatAppend(before, [x]);
    ConcatAppend(before, after);
    assert Concat([x]) == x by {
      assert [x][..0] == [];
    }
    calc {
      multiset(Concat(qs));
      multiset(Concat(before) + x + Concat(after));
      multiset(Concat(before)) + multiset(x) + multiset(Concat(after));
      multiset(Concat(before) + Concat(after)) + multiset(x);
      multiset(Concat(before + after)) + multiset(x);
    }
  }

  /** Removing the element at `j` removes one occurrence of it. */
  lemma MultisetRemove<T>(qs: seq<T>, j: nat)
    requires j < |qs|
    ensures multiset(qs) == multiset(qs[..j] + qs[j + 1..]) + multiset{qs[j]}
  {
    SplitAt(qs, j);
    assert multiset(qs) == multiset(qs[..j]) + multiset{qs[j]} + multiset(qs[j + 1..]);
  }

  /** Removing the last element of one list and an equal element of a
      permutation of it leaves two lists that are permutations of each other. */
  lemma RemoveMatching<T>(ps: seq<T>, qs: seq<T>, j: nat)
    requires multiset(ps) == multiset(qs) && ps != []
    requires j < |qs| && qs[j] == ps[|ps| - 1]
    ensures multiset(ps[..|ps| - 1]) == multiset(qs[..j] + qs[j + 1..])
  {
    var n := |ps| - 1;
    var x := ps[n];
    MultisetRemove(ps, n);
    MultisetRemove(qs, j);
    assert ps[..n] + ps[n + 1..] == ps[..n];
    var left, right := multiset(ps[..n]), multiset(qs[..j] + qs[j + 1..]);
    assert left + multiset{x} == right + multiset{x};
    forall y ensures left[y] == right[y] {
      assert (left + multiset{x})[y] == (right + multiset{x})[y];
    }
  }

  /** Reordering the pages does not change the multiset of hits the
      flattened result holds. */
  lemma {:induction false} ConcatPermutation(ps: seq<Page>, qs: seq<Page>)
    requires multiset(ps) == multiset(qs)
    ensures multiset(Concat(ps)) == multiset(Concat(qs))
  {
    if ps != [] {
      var n := |ps| - 1;
      var x := ps[n];
      assert x in multiset(qs);
      var j :| 0 <= j < |qs| && qs[j] == x;
      var rest := qs[..j] + qs[j + 1..];
      RemoveMatching(ps, qs, j);
      ConcatPermutation(ps[..n], rest);
      ConcatRemove(qs, j);
    }
  }

  /** Reordering non-empty pages keeps the flattened result non-empty and
      keeps every hit of it extractable. */
  lemma PermutedHitsExtractable(field: string, before: seq<Page>, after: seq<Page>)
    requires multiset(before) == multiset(after) && before != [] && AllValid(before)
    requires forall e :: e in Concat(before) ==> Extractable(field, e)
    ensures multiset(Concat(after)) == multiset(Concat(before)) && |Concat(after)| > 0
    ensures forall e :: e in Concat(after) ==> Extractable(field, e)
    ensures forall k :: 0 <= k < |Concat(after)| ==> Extractable(field, Concat(after)[k])
  {
    assert |Concat(before)| >= |before[|before| - 1]| > 0;
    ConcatPermutation(before, after);
    assert |Concat(after)| == |multiset(Concat(after))|;
    forall e | e in Concat(after) ensures Extractable(field, e) {
      assert e in multiset(Concat(before));
    }
  }

  /** Hits in non-decreasing timestamp order. */
  predicate TimeSorted(rs: seq<ElasticSearchData>) {
    && (forall k :: 0 <= k < |rs| ==> HasTimestamp(rs[k]))
    && (forall a, b :: 0 <= a < b < |rs| ==> Timestamp(rs[a]) <= Timestamp(rs[b]))
  }

  predicate SortedPage(p: Page) {
    |p| > 0 && TimeSorted(p)
  }

  /** Two pages cover time ranges that do not interleave. */
  predicate Apart(p: Page, q: Page) {
    && SortedPage(p) && SortedPage(q)
    && (Timestamp(p[|p| - 1]) < Timestamp(q[0]) || Timestamp(q[|q| - 1]) < Timestamp(p[0]))
  }

  /** Pages as a time-ordered backend returns them for disjoint offsets:
      each page is in timestamp order, no page occurs twice, and no two
      pages interleave in time. Only the multiset of pages matters, so the
      order in which they arrived does not. */
  predicate NonOverlapping(ps: seq<Page>) {
    && (forall k :: 0 <= k < |ps| ==> SortedPage(ps[k]))
    && (forall p :: p in ps ==> multiset(ps)[p] == 1)
    && (forall p, q :: p in ps && q in ps && p != q ==> Apart(p, q))
  }

  /** Dropping the last page keeps the rest non-overlapping, and the last
      page differs from every other one. */
  lemma NonOverlappingInit(ps: seq<Page>)
    requires ps != [] && NonOverlapping(ps)
    ensures NonOverlapping(ps[..|ps| - 1])
    ensures forall a :: 0 <= a < |ps| - 1 ==> ps[a] != ps[|ps| - 1]
  {
    var n := |ps| - 1;
    var init, last := ps[..n], ps[n];
    assert ps == init + [last];
    assert multiset(ps) == multiset(init) + multiset{last};
    forall p | p in init ensures multiset(init)[p] == 1 && p in ps {
      assert p in ps;
    }
    forall a | 0 <= a < n ensures init[a] != last {
      assert init[a] in multiset(init);
    }
  }

  /** A sorted run followed by a sorted page that starts after every hit of
      the run is sorted. */
  lemma SortedAppend(left: seq<ElasticSearchData>, last: Page)
    requires TimeSorted(left) && SortedPage(last)
    requires forall u :: 0 <= u < |left| ==> Timestamp(left[u]) < Timestamp(last[0])
    ensures TimeSorted(left + last)
  {
    var all := left + last;
    forall a, b | 0 <= a < b < |all|
      ensures Timestamp(all[a]) <= Timestamp(all[b])
    {
      if b < |left| {
      } else if a < |left| {
        assert all[b] == last[b - |left|];
      } else {
        assert all[a] == last[a - |left|] && all[b] == last[b - |left|];
      }
    }
  }

  /** Every hit of the earlier pages precedes the first hit of the last page
      once the pages are ordered by their first hit. */
  lemma EarlierPagesBefore(ps: seq<Page>)
    requires ps != [] && PagesOrdered(ps) && NonOverlapping(ps)
    ensures var n := |ps| - 1;
            forall u :: 0 <= u < |Concat(ps[..n])| ==>
              HasTimestamp(Concat(ps[..n])[u]) && Timestamp(Concat(ps[..n])[u]) < Timestamp(ps[n][0])
  {
    var n := |ps| - 1;
    var init, last := ps[..n], ps[n];
    NonOverlappingInit(ps);
    var left := Concat(init);
    forall u | 0 <= u < |left|
      ensures HasTimestamp(left[u]) && Timestamp(left[u]) < Timestamp(last[0])
    {
      ConcatMember(init, left[u]);
      var a :| 0 <= a < |init| && left[u] in init[a];
      var v :| 0 <= v < |init[a]| && init[a][v] == left[u];
      assert init[a] in ps && last in ps;
      assert Apart(init[a], last);
      assert FirstKey(ps[a]) <= FirstKey(ps[n]);
    }
  }

  /** Whatever order the pages arrived in, once they are ordered by their
      first hit, the flattened result is in timestamp order. */
  lemma {:induction false} OrderedPagesFlattenSorted(ps: seq<Page>)
    requires PagesOrdered(ps) && NonOverlapping(ps)
    ensures TimeSorted(Concat(ps))
  {
    if ps != [] {
      var n := |ps| - 1;
      NonOverlappingInit(ps);
      OrderedPagesFlattenSorted(ps[..n]);
      EarlierPagesBefore(ps);
      SortedAppend(Concat(ps[..n]), ps[n]);
    }
  }

  /** Reordering the pages keeps them non-overlapping. */
  lemma NonOverlappingPermutation(ps: seq<Page>, qs: seq<Page>)
    requires multiset(ps) == multiset(qs) && NonOverlapping(ps)
    ensures NonOverlapping(qs)
  {
    forall k | 0 <= k < |qs| ensures SortedPage(qs[k]) {
      assert qs[k] in multiset(ps);
    }
    forall p | p in qs ensures p in ps {
      assert p in multiset(ps);
    }
  }

  /** The ordering law of the merge: pages that do not overlap in time,
      arriving in any order, come out of sort-then-flatten in timestamp
      order. */
  lemma MergeIsChronological(arrived: seq<Page>, sorted: seq<Page>)
    requires NonOverlapping(arrived)
    requires multiset(sorted) == multiset(arrived) && PagesOrdered(sorted)
    ensures TimeSorted(Concat(sorted))
  {
    NonOverlappingPermutation(arrived, sorted);
    OrderedPagesFlattenSorted(sorted);
  }

  /** The first `n` pages are in order of their first hit. */
  predicate OrderedUpTo(ps: seq<Page>, n: nat)
    requires n <= |ps|
  {
    forall a, b :: 0 <= a < b < n ==> FirstKey(ps[a]) <= FirstKey(ps[b])
  }

  /** Exchanges the pages at `j - 1` and `j`. */
  method SwapAdjacent(s: seq<Page>, j: nat) returns (r: seq<Page>)
    requires 0 < j < |s|
    ensures |r| == |s| && r[j - 1] == s[j] && r[j] == s[j - 1]
    ensures forall k :: 0 <= k < |s| && k != j - 1 && k != j ==> r[k] == s[k]
    ensures multiset(r) == multiset(s)
  {
    r := s[j - 1 := s[j]][j := s[j - 1]];
  }

  /** One step of the insertion sort: the page at `i` moves down past every
      earlier page whose first hit is later (strict `<`, as the comparator). */
  method InsertPage(pages: seq<Page>, i: nat) returns (result: seq<Page>)
    requires i < |pages| && AllValid(pages) && OrderedUpTo(pages, i)
    ensures |result| == |pages| && AllValid(result) && OrderedUpTo(result, i + 1)
    ensures multiset(result) == multiset(pages)
  {
    result := pages;
    var j := i;
    while j > 0 && FirstKey(result[j]) < FirstKey(result[j - 1])
      invariant 0 <= j <= i && |result| == |pages| && AllValid(result)
      invariant multiset(result) == multiset(pages)
      invariant forall a, b :: 0 <= a < b <= i && a != j && b != j ==> FirstKey(result[a]) <= FirstKey(result[b])
      invariant forall b :: j < b <= i ==> FirstKey(result[j]) <= FirstKey(result[b])
      invariant 0 < j < i ==> FirstKey(result[j - 1]) <= FirstKey(result[j + 1])
    {
      result := SwapAdjacent(result, j);
      j := j - 1;
    }
  }

  /** The query object's page list, the one field the merge updates. */
  class ElasticSearchQuery {
    var data: seq<Page>

    constructor ()
      ensures data == []
    {
      data := [];
    }

    /** `self.data.sort(by:)` with the strict `<` comparator on first-hit
        timestamps, as an insertion sort over the `data` field. */
    method SortPages()
      requires AllValid(data)
      modifies this
      ensures PagesOrdered(data)
      ensures multiset(data) == old(multiset(data))
    {
      var i := 0;
      while i < |data|
        invariant i <= |data| && AllValid(data) && OrderedUpTo(data, i)
        invariant multiset(data) == old(multiset(data))
      {
        data := InsertPage(data, i);
        i := i + 1;
      }
    }

    /** Sort the pages, flatten them and aggregate the hits. `extractData`
        divides by the number of hits, so at least one page must have
        arrived. */
    method MergeAndExtract(field: string)
      returns (average: int, maximum: int, minimum: int, dataArray: seq<int>, timestampArray: seq<int>)
      requires |data| > 0 && AllValid(data)
      requires forall e :: e in Concat(data) ==> Extractable(field, e)
      modifies this
      ensures PagesOrdered(data) && multiset(data) == old(multiset(data))
      ensures multiset(Concat(data)) == multiset(old(Concat(data)))
      ensures forall e :: e in Concat(data) ==> Extractable(field, e)
      ensures |dataArray| == |Concat(data)| == |timestampArray|
      ensures forall k :: 0 <= k < |Concat(data)| ==>
                dataArray[k] == ElemData(field, Concat(data)[k]) &&
                timestampArray[k] == Timestamp(Concat(data)[k])
      ensures forall k :: 0 <= k < |dataArray| ==> minimum <= dataArray[k] <= maximum
      ensures exists k :: 0 <= k < |dataArray| && maximum == dataArray[k]
      ensures exists k :: 0 <= k < |dataArray| && minimum == dataArray[k]
      ensures average == TruncDiv(Sum(dataArray), |dataArray|)
      ensures minimum <= average <= maximum
      ensures !IsKnownField(field) ==> average == 0 && maximum == 0 && minimum == 0
      ensures NonOverlapping(old(data)) ==>
                forall a, b :: 0 <= a < b < |timestampArray| ==> timestampArray[a] <= timestampArray[b]
    {
      ghost var before := data;
      SortPages();
      PermutedHitsExtractable(field, before, data);

      var reducedData := Concat(data);
      average, maximum, minimum, dataArray, timestampArray := ExtractData(reducedData, field);
      if NonOverlapping(before) {
        MergeIsChronological(before, data);
      }
    }
  }
}
