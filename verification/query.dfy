/**
 * The query pipeline of the listings page, recomputed on every render:
 * case-insensitive search, the four-way sort, and fixed-size pagination.
 */
module Query {
  import opened Wrappers
  import opened JsText
  import opened Listing
  import opened Records
  import opened Seqs

  // ----------------------------------------------------------------- search

  /** `${address} ${price} ${bedrooms} ${buildingType}`, each missing field read as ''. */
  function SearchText(l: Listing): string {
    OrText(l.address, "") + " " + OrText(l.leaseRent, "") + " "
      + OrText(l.bedrooms, "") + " " + OrText(l.buildingType, "")
  }

  /** The search predicate: the lower-cased term occurs in the lower-cased search text. */
  predicate Matches(t: Tagged, term: string)
    ensures term == [] ==> Matches(t, term)
    ensures Matches(t, term) ==> |term| <= |SearchText(t.listing)|
  {
    Contains(ToLower(SearchText(t.listing)), ToLower(term))
  }

  /** `data.filter(...)` with the search predicate. */
  function Search(data: seq<Tagged>, term: string): (r: seq<Tagged>)
    ensures IsSubsequence(r, data)
    ensures forall t :: t in r <==> t in data && Matches(t, term)
    decreases |data|
  {
    if data == [] then []
    else
      var init := data[..|data| - 1];
      var last := data[|data| - 1];
      var r := Search(init, term);
      assert data == init + [last];
      if Matches(last, term) then
        SubsequenceKeep(r, init, last);
        r + [last]
      else
        SubsequenceDrop(r, init, last);
        r
  }

  /** The filter decides the last record on its own. */
  lemma SearchLast(data: seq<Tagged>, term: string)
    requires data != []
    ensures Search(data, term) == Search(data[..|data| - 1], term)
      + (if Matches(data[|data| - 1], term) then [data[|data| - 1]] else [])
  {
  }

  /** A term every record matches keeps every record. */
  lemma {:induction false} SearchAllMatch(data: seq<Tagged>, term: string)
    requires forall i | 0 <= i < |data| :: Matches(data[i], term)
    ensures Search(data, term) == data
    decreases |data|
  {
    if data != [] {
      var init := data[..|data| - 1];
      SearchAllMatch(init, term);
      SearchLast(data, term);
      SplitLast(data);
    }
  }

  /** An empty search term keeps every record. */
  lemma SearchEmptyTerm(data: seq<Tagged>)
    ensures Search(data, "") == data
  {
    SearchAllMatch(data, "");
  }

  /** Searching is case-insensitive in the term. */
  lemma {:induction false} SearchIgnoresTermCase(data: seq<Tagged>, term: string)
    ensures Search(data, ToLower(term)) == Search(data, term)
    decreases |data|
  {
    ToLowerIdempotent(term);
    if data != [] {
      SearchIgnoresTermCase(data[..|data| - 1], term);
    }
  }

  // ------------------------------------------------------------------- sort

  const PriceAsc: string := "price-asc"
  const PriceDesc: string := "price-desc"
  const BedroomsAsc: string := "bedrooms-asc"
  const BedroomsDesc: string := "bedrooms-desc"

  /** `extractPrice(item['Property.LeaseRent'] || '0')`. */
  function PriceKey(t: Tagged): Num {
    ExtractPrice(OrText(t.listing.leaseRent, "0"))
  }

  /** `parseInt(item['Building.Bedrooms'] || '0', 10)`: the raw field, not the plus-sum. */
  function BedroomKey(t: Tagged): Num {
    ParseInt(OrText(t.listing.bedrooms, "0"))
  }

  function Negate(n: Num): Num {
    match n
    case NaN => NaN
    case Int(v) => Int(-v)
  }

  /**
   * The key the comparator subtracts for a sort order: the descending orders
   * subtract in the other direction, which is the ascending order on the
   * negated key; an unknown order compares everything equal.
   */
  function Rank(t: Tagged, sortBy: string): Num {
    if sortBy == PriceAsc then PriceKey(t)
    else if sortBy == PriceDesc then Negate(PriceKey(t))
    else if sortBy == BedroomsAsc then BedroomKey(t)
    else if sortBy == BedroomsDesc then Negate(BedroomKey(t))
    else Int(0)
  }

  /**
   * The keys of the four orders: a NaN key only comes from an unreadable price
   * or bedroom count under an order that reads it, a descending order ranks by
   * the negated key, and an unknown order ranks every record 0.
   */
  lemma RankKeys(t: Tagged, sortBy: string)
    ensures Rank(t, sortBy).NaN? ==>
      || ((sortBy == PriceAsc || sortBy == PriceDesc) && PriceKey(t).NaN?)
      || ((sortBy == BedroomsAsc || sortBy == BedroomsDesc) && BedroomKey(t).NaN?)
    ensures sortBy == PriceDesc && PriceKey(t).Int? ==> Rank(t, sortBy) == Int(-PriceKey(t).value)
    ensures sortBy == BedroomsDesc && BedroomKey(t).Int? ==> Rank(t, sortBy) == Int(-BedroomKey(t).value)
    ensures sortBy !in {PriceAsc, PriceDesc, BedroomsAsc, BedroomsDesc} ==> Rank(t, sortBy) == Int(0)
  {
    assert |PriceAsc| == 9 && |PriceDesc| == 10 && |BedroomsAsc| == 12 && |BedroomsDesc| == 13;
  }

  /**
   * The sign the comparator passed to `sort` gives for `(a, b)`: a NaN
   * difference counts as 0, as `Array.prototype.sort` reads it.
   */
  function Compare(a: Tagged, b: Tagged, sortBy: string): (c: int)
    ensures a == b ==> c == 0
    ensures Rank(a, sortBy).NaN? || Rank(b, sortBy).NaN? ==> c == 0
    ensures Rank(a, sortBy).Int? && Rank(b, sortBy).Int? ==>
      && (c < 0 <==> Rank(a, sortBy).value < Rank(b, sortBy).value)
      && (c == 0 <==> Rank(a, sortBy).value == Rank(b, sortBy).value)
  {
    match (Rank(a, sortBy), Rank(b, sortBy))
    case (Int(x), Int(y)) => x - y
    case _ => 0
  }

  /** One insertion step of a stable sort: `x` goes after every element that does not compare greater. */
  function Insert(s: seq<Tagged>, x: Tagged, sortBy: string): (r: seq<Tagged>)
    ensures multiset(r) == multiset(s) + multiset{x}
    ensures |r| == |s| + 1
    decreases |s|
  {
    if s == [] || Compare(s[|s| - 1], x, sortBy) <= 0 then s + [x]
    else
      var init, last := s[..|s| - 1], s[|s| - 1];
      SplitLast(s);
      assert multiset(s) == multiset(init) + multiset{last};
      Insert(init, x, sortBy) + [last]
  }

  /** `[...filteredData].sort(comparator)`, as a stable sort. */
  function SortListings(xs: seq<Tagged>, sortBy: string): (r: seq<Tagged>)
    ensures multiset(r) == multiset(xs)
    ensures |r| == |xs|
    decreases |xs|
  {
    if xs == [] then []
    else
      SplitLast(xs);
      Insert(SortListings(xs[..|xs| - 1], sortBy), xs[|xs| - 1], sortBy)
  }

  /** Every record has a numeric key under this order (no NaN from parsing). */
  predicate AllRanked(xs: seq<Tagged>, sortBy: string) {
    forall t | t in xs :: Rank(t, sortBy).Int?
  }

  /** Non-decreasing in the key; for records with equal keys, input order (`_uniqueIndex`) is kept. */
  predicate SortedStably(r: seq<Tagged>, sortBy: string)
    requires AllRanked(r, sortBy)
  {
    forall j, k | 0 <= j < k < |r| ::
      var a := Rank(r[j], sortBy).value;
      var b := Rank(r[k], sortBy).value;
      a < b || (a == b && r[j].uniqueIndex < r[k].uniqueIndex)
  }

  lemma InsertRanked(s: seq<Tagged>, x: Tagged, sortBy: string)
    requires AllRanked(s, sortBy) && Rank(x, sortBy).Int?
    ensures AllRanked(Insert(s, x, sortBy), sortBy)
  {
    var r := Insert(s, x, sortBy);
    forall t | t in r ensures Rank(t, sortBy).Int? {
      assert t in multiset(r);
      assert t in multiset(s) || t == x;
    }
  }

  /** `a` comes before `b` in a stable sort: a smaller key, or the same key and an earlier input position. */
  predicate Before(a: Tagged, b: Tagged, sortBy: string) {
    && Rank(a, sortBy).Int? && Rank(b, sortBy).Int?
    && (Rank(a, sortBy).value < Rank(b, sortBy).value
        || (Rank(a, sortBy).value == Rank(b, sortBy).value && a.uniqueIndex < b.uniqueIndex))
  }

  /** Appending an element that belongs after everything keeps a sequence sorted. */
  lemma SortedSnoc(s: seq<Tagged>, x: Tagged, sortBy: string)
    requires AllRanked(s, sortBy) && Rank(x, sortBy).Int?
    requires SortedStably(s, sortBy)
    requires forall j | 0 <= j < |s| :: Before(s[j], x, sortBy)
    ensures AllRanked(s + [x], sortBy)
    ensures SortedStably(s + [x], sortBy)
  {
    var r := s + [x];
    forall j, k | 0 <= j < k < |r|
      ensures Rank(r[j], sortBy).value < Rank(r[k], sortBy).value
        || (Rank(r[j], sortBy).value == Rank(r[k], sortBy).value && r[j].uniqueIndex < r[k].uniqueIndex)
    {
      if k < |s| {
        assert r[j] == s[j] && r[k] == s[k];
      } else {
        assert r[j] == s[j] && r[k] == x;
        assert Before(s[j], x, sortBy);
      }
    }
  }

  /** On numeric keys the comparator is the difference of the keys. */
  lemma CompareRanked(a: Tagged, b: Tagged, sortBy: string)
    requires Rank(a, sortBy).Int? && Rank(b, sortBy).Int?
    ensures Compare(a, b, sortBy) == Rank(a, sortBy).value - Rank(b, sortBy).value
  {
  }

  /** An element whose key is at least the last key of a sorted sequence, and which came later, follows all of it. */
  lemma AllBefore(s: seq<Tagged>, x: Tagged, sortBy: string)
    requires s != [] && AllRanked(s, sortBy) && Rank(x, sortBy).Int?
    requires SortedStably(s, sortBy)
    requires forall t | t in s :: t.uniqueIndex < x.uniqueIndex
    requires Rank(s[|s| - 1], sortBy).value <= Rank(x, sortBy).value
    ensures forall j | 0 <= j < |s| :: Before(s[j], x, sortBy)
  {
    forall j | 0 <= j < |s|
      ensures Before(s[j], x, sortBy)
    {
      assert s[j] in s;
      if j < |s| - 1 {
        var a := Rank(s[j], sortBy).value;
        var b := Rank(s[|s| - 1], sortBy).value;
        assert a < b || (a == b && s[j].uniqueIndex < s[|s| - 1].uniqueIndex);
      }
    }
  }

  /** When `x` does not compare below the last element, insertion appends it and the result is sorted. */
  lemma AppendAfterLast(s: seq<Tagged>, x: Tagged, sortBy: string)
    requires AllRanked(s, sortBy) && Rank(x, sortBy).Int?
    requires SortedStably(s, sortBy)
    requires forall t | t in s :: t.uniqueIndex < x.uniqueIndex
    requires s == [] || Compare(s[|s| - 1], x, sortBy) <= 0
    ensures Insert(s, x, sortBy) == s + [x]
    ensures AllRanked(s + [x], sortBy) && SortedStably(s + [x], sortBy)
  {
    if s != [] {
      assert s[|s| - 1] in s;
      CompareRanked(s[|s| - 1], x, sortBy);
      AllBefore(s, x, sortBy);
    }
    SortedSnoc(s, x, sortBy);
  }

  /** When `x` compares below the last element, everything inserted before it still precedes it. */
  lemma InsertBelowLast(s: seq<Tagged>, x: Tagged, sortBy: string, r: seq<Tagged>)
    requires s != [] && AllRanked(s, sortBy) && Rank(x, sortBy).Int?
    requires SortedStably(s, sortBy)
    requires Compare(s[|s| - 1], x, sortBy) > 0
    requires r == Insert(s[..|s| - 1], x, sortBy)
    ensures forall j | 0 <= j < |r| :: Before(r[j], s[|s| - 1], sortBy)
  {
    var init := s[..|s| - 1];
    var last := s[|s| - 1];
    assert last in s;
    forall j | 0 <= j < |r|
      ensures Before(r[j], last, sortBy)
    {
      assert r[j] in multiset(r);
      if r[j] != x {
        assert r[j] in multiset(init);
        var m :| 0 <= m < |init| && init[m] == r[j];
        assert s[m] == r[j];
      }
    }
  }

  lemma {:induction false} InsertSorted(s: seq<Tagged>, x: Tagged, sortBy: string)
    requires AllRanked(s, sortBy) && Rank(x, sortBy).Int?
    requires SortedStably(s, sortBy)
    requires forall t | t in s :: t.uniqueIndex < x.uniqueIndex
    ensures AllRanked(Insert(s, x, sortBy), sortBy)
    ensures SortedStably(Insert(s, x, sortBy), sortBy)
    decreases |s|
  {
    InsertRanked(s, x, sortBy);
    if s == [] || Compare(s[|s| - 1], x, sortBy) <= 0 {
      AppendAfterLast(s, x, sortBy);
    } else {
      var init := s[..|s| - 1];
      assert forall t | t in init :: t in s;
      InsertSorted(init, x, sortBy);
      InsertBeforeLast(s, x, sortBy);
    }
  }

  /** The step of `InsertSorted` where `x` moves past the last element. */
  lemma InsertBeforeLast(s: seq<Tagged>, x: Tagged, sortBy: string)
    requires s != [] && AllRanked(s, sortBy) && Rank(x, sortBy).Int?
    requires SortedStably(s, sortBy)
    requires Compare(s[|s| - 1], x, sortBy) > 0
    requires AllRanked(Insert(s[..|s| - 1], x, sortBy), sortBy)
    requires SortedStably(Insert(s[..|s| - 1], x, sortBy), sortBy)
    ensures AllRanked(Insert(s, x, sortBy), sortBy)
    ensures SortedStably(Insert(s, x, sortBy), sortBy)
  {
    var r := Insert(s[..|s| - 1], x, sortBy);
    var last := s[|s| - 1];
    assert last in s;
    InsertBelowLast(s, x, sortBy, r);
    SortedSnoc(r, last, sortBy);
    assert Insert(s, x, sortBy) == r + [last];
  }

  /** When every key is a number the sort orders by key and is stable. */
  lemma {:induction false} SortListingsSorted(xs: seq<Tagged>, sortBy: string)
    requires AllRanked(xs, sortBy)
    requires IncreasingIndex(xs)
    ensures AllRanked(SortListings(xs, sortBy), sortBy)
    ensures SortedStably(SortListings(xs, sortBy), sortBy)
    decreases |xs|
  {
    if xs != [] {
      var init := xs[..|xs| - 1];
      var last := xs[|xs| - 1];
      assert forall t | t in init :: t in xs;
      SortListingsSorted(init, sortBy);
      var s := SortListings(init, sortBy);
      forall t | t in s ensures t.uniqueIndex < last.uniqueIndex {
        assert t in multiset(s);
        var m :| 0 <= m < |init| && init[m] == t;
      }
      InsertSorted(s, last, sortBy);
    }
  }

  /** An order the select does not offer leaves the records as they were. */
  lemma {:induction false} SortUnknownOrder(xs: seq<Tagged>, sortBy: string)
    requires sortBy !in {PriceAsc, PriceDesc, BedroomsAsc, BedroomsDesc}
    ensures SortListings(xs, sortBy) == xs
    decreases |xs|
  {
    if xs != [] {
      var init := xs[..|xs| - 1];
      var last := xs[|xs| - 1];
      SortUnknownOrder(init, sortBy);
      InsertUnknown(init, last, sortBy);
      assert SortListings(xs, sortBy) == Insert(init, last, sortBy);
      SplitLast(xs);
    }
  }

  lemma SplitLast<T>(s: seq<T>)
    requires s != []
    ensures s[..|s| - 1] + [s[|s| - 1]] == s
  {
  }

  /** Under an unknown order every comparison is 0, so insertion appends. */
  lemma InsertUnknown(s: seq<Tagged>, x: Tagged, sortBy: string)
    requires sortBy !in {PriceAsc, PriceDesc, BedroomsAsc, BedroomsDesc}
    ensures Insert(s, x, sortBy) == s + [x]
  {
    if s != [] {
      assert Rank(s[|s| - 1], sortBy) == Int(0) && Rank(x, sortBy) == Int(0);
    }
  }

  /** Under `price-asc` prices never decrease along the result. */
  lemma PriceAscOrder(xs: seq<Tagged>)
    requires IncreasingIndex(xs)
    requires forall t | t in xs :: PriceKey(t).Int?
    ensures forall t | t in SortListings(xs, PriceAsc) :: PriceKey(t).Int?
    ensures forall j, k | 0 <= j < k < |xs| ::
      PriceKey(SortListings(xs, PriceAsc)[j]).value <= PriceKey(SortListings(xs, PriceAsc)[k]).value
  {
    forall t | t in xs ensures Rank(t, PriceAsc).Int? {
      assert Rank(t, PriceAsc) == PriceKey(t);
    }
    SortListingsSorted(xs, PriceAsc);
    AscendingPrices(SortListings(xs, PriceAsc));
  }

  lemma AscendingPrices(up: seq<Tagged>)
    requires AllRanked(up, PriceAsc) && SortedStably(up, PriceAsc)
    ensures forall t | t in up :: PriceKey(t).Int?
    ensures forall j, k | 0 <= j < k < |up| :: PriceKey(up[j]).value <= PriceKey(up[k]).value
  {
    forall t | t in up ensures PriceKey(t).Int? {
      assert Rank(t, PriceAsc) == PriceKey(t);
    }
    forall j, k | 0 <= j < k < |up|
      ensures PriceKey(up[j]).value <= PriceKey(up[k]).value
    {
      assert Rank(up[j], PriceAsc) == PriceKey(up[j]);
      assert Rank(up[k], PriceAsc) == PriceKey(up[k]);
    }
  }

  lemma RankPriceDesc(t: Tagged)
    ensures Rank(t, PriceDesc) == Negate(PriceKey(t))
  {
    assert PriceDesc != PriceAsc by { assert |PriceDesc| != |PriceAsc|; }
  }

  /** Under `price-desc` prices never increase along the result. */
  lemma PriceDescOrder(xs: seq<Tagged>)
    requires IncreasingIndex(xs)
    requires forall t | t in xs :: PriceKey(t).Int?
    ensures forall t | t in SortListings(xs, PriceDesc) :: PriceKey(t).Int?
    ensures forall j, k | 0 <= j < k < |xs| ::
      PriceKey(SortListings(xs, PriceDesc)[j]).value >= PriceKey(SortListings(xs, PriceDesc)[k]).value
  {
    forall t | t in xs ensures Rank(t, PriceDesc).Int? {
      RankPriceDesc(t);
    }
    SortListingsSorted(xs, PriceDesc);
    DescendingPrices(SortListings(xs, PriceDesc));
  }

  lemma DescendingPrices(down: seq<Tagged>)
    requires AllRanked(down, PriceDesc) && SortedStably(down, PriceDesc)
    ensures forall t | t in down :: PriceKey(t).Int?
    ensures forall j, k | 0 <= j < k < |down| :: PriceKey(down[j]).value >= PriceKey(down[k]).value
  {
    forall t | t in down ensures PriceKey(t).Int? {
      RankPriceDesc(t);
    }
    forall j, k | 0 <= j < k < |down|
      ensures PriceKey(down[j]).value >= PriceKey(down[k]).value
    {
      RankPriceDesc(down[j]);
      RankPriceDesc(down[k]);
    }
  }

  // ------------------------------------------------------------- pagination

  const ItemsPerPage: nat := 8

  /** `Math.ceil(n / itemsPerPage)`. */
  function PageCount(n: nat): (pages: nat)
    ensures (pages - 1) * ItemsPerPage < n <= pages * ItemsPerPage || (n == 0 && pages == 0)
  {
    (n + ItemsPerPage - 1) / ItemsPerPage
  }

  /** `xs.slice(start, end)` for non-negative bounds: both clamp to the length. */
  function Slice<T>(xs: seq<T>, start: nat, end: nat): (r: seq<T>)
    ensures |r| <= |xs|
    ensures end <= start ==> r == []
    ensures start <= end <= |xs| ==> r == xs[start..end]
    ensures start <= |xs| < end ==> r == xs[start..]
    ensures |xs| <= start ==> r == []
    ensures forall i | 0 <= i < |r| :: start + i < |xs| && r[i] == xs[start + i]
  {
    var hi := if end < |xs| then end else |xs|;
    var lo := if start < hi then start else hi;
    xs[lo..hi]
  }

  /** The records shown on page `page` (1-based). */
  function PageWindow<T>(xs: seq<T>, page: nat): (w: seq<T>)
    requires page >= 1
    ensures |w| <= ItemsPerPage
    ensures page > PageCount(|xs|) ==> w == []
    ensures 1 <= page <= PageCount(|xs|) ==> w != []
    ensures forall i | 0 <= i < |w| ::
      (page - 1) * ItemsPerPage + i < |xs| && w[i] == xs[(page - 1) * ItemsPerPage + i]
  {
    var start := (page - 1) * ItemsPerPage;
    Slice(xs, start, start + ItemsPerPage)
  }

  /** Pages 1 .. k laid end to end. */
  function Pages<T>(xs: seq<T>, k: nat): seq<T> {
    if k == 0 then [] else Pages(xs, k - 1) + PageWindow(xs, k)
  }

  lemma {:induction false} PagesPrefix<T>(xs: seq<T>, k: nat)
    ensures Pages(xs, k) == xs[..if k * ItemsPerPage < |xs| then k * ItemsPerPage else |xs|]
  {
    if k > 0 {
      PagesPrefix(xs, k - 1);
    }
  }

  /** Concatenating pages 1 .. totalPages gives back the whole sorted list. */
  lemma PagesCover<T>(xs: seq<T>)
    ensures Pages(xs, PageCount(|xs|)) == xs
  {
    PagesPrefix(xs, PageCount(|xs|));
  }

  /** The Previous button: `Math.max(1, currentPage - 1)`. */
  function PrevPage(page: int): (p: int)
    ensures p >= 1 && p <= (if page > 1 then page else 1)
    ensures page > 1 ==> p == page - 1
  {
    if page - 1 > 1 then page - 1 else 1
  }

  /** The Next button: `Math.min(totalPages, currentPage + 1)`. */
  function NextPage(page: int, totalPages: int): (p: int)
    ensures p <= totalPages && p <= page + 1
    ensures page < totalPages ==> p == page + 1
    ensures page >= totalPages ==> p == totalPages
  {
    if totalPages < page + 1 then totalPages else page + 1
  }

  /** Both buttons keep a page inside `[1, totalPages]`. */
  lemma ClampsStayInRange(page: int, totalPages: int)
    requires 1 <= page <= totalPages
    ensures 1 <= PrevPage(page) <= totalPages
    ensures 1 <= NextPage(page, totalPages) <= totalPages
  {
  }

  lemma PaginationExample()
    ensures PageCount(17) == 3
    ensures |PageWindow(seq(17, i => i), 3)| == 1
    ensures PageWindow(seq(17, i => i), 4) == []
  {
  }
}
