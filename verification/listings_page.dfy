/**
 * The listings page (`/listings`): its React state as a class, the handler of
 * the `/api/get_data` response, and the derived search / sort / page views.
 */
module ListingsPage {
  import opened Wrappers
  import opened JsText
  import opened Json
  import opened Payload
  import opened Records
  import opened Query

  /** How a response ends: `setData(records)`, or `setError` with the data left as it was. */
  datatype Outcome = Loaded(records: seq<Tagged>) | Failed

  /**
   * The shape selection once a value is in hand: an array goes to
   * `processData` as it is, anything else through `listings || properties || []`,
   * and `null.listings` throws.
   */
  function Shaped(v: Json): (r: Result<seq<Tagged>>)
    ensures v.JNull? ==> r.Err?
    ensures v.JArray? ==> r.Ok? && |r.value| <= |v.items|
    ensures r.Ok? ==> UniqueIds(r.value) && IncreasingIndex(r.value)
  {
    if v.JArray? then Processed(v)
    else if v.JNull? then Err(TypeError)
    else Processed(Unwrap(v))
  }

  /**
   * The `.then` handler on `response.data`. A string is repaired and parsed, and
   * every failure inside that branch is caught and loads no records; outside
   * it a throw reaches `.catch`, which records the error.
   */
  function LoadOutcome(response: Json, parse: string -> Option<Json>): (o: Outcome)
    ensures response.JString? || response.JArray? ==> o.Loaded?
    ensures response.JNull? ==> o == Failed
    ensures o.Loaded? ==> UniqueIds(o.records) && IncreasingIndex(o.records)
  {
    match response
    case JString(text) =>
      (match parse(Repair(text))
       case None => Loaded([])
       case Some(v) => (match Shaped(v) case Ok(ts) => Loaded(ts) case Err(_) => Loaded([])))
    case _ =>
      (match Shaped(response) case Ok(ts) => Loaded(ts) case Err(_) => Failed)
  }

  /** Loaded records are de-duplicated and in input order, whatever the payload. */
  lemma LoadedRecordsClean(response: Json, parse: string -> Option<Json>)
    ensures LoadOutcome(response, parse).Loaded? ==>
      UniqueIds(LoadOutcome(response, parse).records) && IncreasingIndex(LoadOutcome(response, parse).records)
  {
  }

  /**
   * The shape handling of the page:
   * a string payload never records an error, and one that does not parse loads
   * nothing; an array loads its de-duplicated records; an object wrapping an
   * array under `listings` loads the same records as the array itself.
   */
  lemma ShapeHandling(text: string, items: seq<Json>, fields: map<string, Json>, parse: string -> Option<Json>)
    ensures LoadOutcome(JString(text), parse).Loaded?
    ensures parse(Repair(text)).None? ==> LoadOutcome(JString(text), parse) == Loaded([])
    ensures LoadOutcome(JArray(items), parse) == Loaded(Dedup(Tag(items)))
    ensures "listings" in fields && fields["listings"] == JArray(items) ==>
      LoadOutcome(JObject(fields), parse) == LoadOutcome(JArray(items), parse)
    ensures parse(Repair(text)) == Some(JArray(items)) ==>
      LoadOutcome(JString(text), parse) == LoadOutcome(JArray(items), parse)
  {
  }

  /** A parsed `null` is the one value whose shape check throws. */
  lemma NullPayloadFails(parse: string -> Option<Json>)
    ensures LoadOutcome(JNull, parse) == Failed
  {
  }

  class ListingsPage {
    var data: seq<Tagged>
    var loading: bool
    var failed: bool
    var currentPage: int
    var searchTerm: string
    var sortBy: string

    ghost predicate Valid()
      reads this
    {
      currentPage >= 1 && UniqueIds(data) && IncreasingIndex(data)
    }

    constructor()
      ensures Valid()
      ensures data == [] && loading && !failed
      ensures currentPage == 1 && searchTerm == "" && sortBy == PriceAsc
    {
      data := [];
      loading := true;
      failed := false;
      currentPage := 1;
      searchTerm := "";
      sortBy := PriceAsc;
    }

    /** `filteredData`: the records matching the search term, in data order. */
    function FilteredData(): (r: seq<Tagged>)
      reads this
      ensures r == Search(data, searchTerm)
      ensures forall t :: t in r <==> t in data && Matches(t, searchTerm)
    {
      Search(data, searchTerm)
    }

    /** `sortedData`: a sorted copy; `data` itself is never reordered. */
    function SortedData(): (r: seq<Tagged>)
      reads this
      ensures r == SortListings(FilteredData(), sortBy)
      ensures multiset(r) == multiset(FilteredData())
    {
      SortListings(FilteredData(), sortBy)
    }

    function TotalPages(): nat
      reads this
    {
      PageCount(|SortedData()|)
    }

    /** `paginatedData`: at most eight matching records, none past the last page. */
    function PaginatedData(): (r: seq<Tagged>)
      reads this
      requires Valid()
      ensures r == PageWindow(SortedData(), currentPage)
      ensures |r| <= ItemsPerPage
      ensures currentPage > TotalPages() ==> r == []
      ensures forall t | t in r :: t in data && Matches(t, searchTerm)
    {
      var sorted := SortedData();
      var w := PageWindow(sorted, currentPage);
      assert forall t | t in w :: t in multiset(sorted) by {
        forall t | t in w ensures t in multiset(sorted) {
          var i :| 0 <= i < |w| && w[i] == t;
          assert t == sorted[(currentPage - 1) * ItemsPerPage + i];
        }
      }
      w
    }

    /** The `.then` handler: loads the records or records the error, and stops loading. */
    method OnResponse(response: Json, parse: string -> Option<Json>)
      requires Valid()
      modifies this
      ensures Valid()
      ensures LoadOutcome(response, parse).Loaded? ==>
        data == LoadOutcome(response, parse).records && failed == old(failed)
      ensures LoadOutcome(response, parse).Failed? ==> data == old(data) && failed
      ensures !loading
      ensures currentPage == old(currentPage) && searchTerm == old(searchTerm) && sortBy == old(sortBy)
    {
      LoadedRecordsClean(response, parse);
      if response.JString? {
        var parsed := parse(Repair(response.s));
        if parsed.None? {
          data := [];
        } else if parsed.value.JArray? {
          var r := ProcessData(parsed.value);
          data := if r.Ok? then r.value else [];
        } else if parsed.value.JNull? {
          data := [];
        } else {
          var r := ProcessData(Unwrap(parsed.value));
          data := if r.Ok? then r.value else [];
        }
        loading := false;
        return;
      }
      var r;
      if response.JArray? {
        r := ProcessData(response);
      } else if response.JNull? {
        r := Err(TypeError);
      } else {
        r := ProcessData(Unwrap(response));
      }
      if r.Ok? {
        data := r.value;
      } else {
        failed := true;
      }
      loading := false;
    }

    /** The `.catch` of the request itself. */
    method OnRequestFailed()
      requires Valid()
      modifies this
      ensures Valid()
      ensures failed && !loading
      ensures data == old(data) && currentPage == old(currentPage)
      ensures searchTerm == old(searchTerm) && sortBy == old(sortBy)
    {
      failed := true;
      loading := false;
    }

    /** Typing in the search box; the current page is kept, not reset. */
    method SetSearchTerm(term: string)
      requires Valid()
      modifies this
      ensures Valid()
      ensures searchTerm == term
      ensures data == old(data) && currentPage == old(currentPage) && sortBy == old(sortBy)
      ensures loading == old(loading) && failed == old(failed)
    {
      searchTerm := term;
    }

    method SetSortBy(order: string)
      requires Valid()
      modifies this
      ensures Valid()
      ensures sortBy == order
      ensures data == old(data) && currentPage == old(currentPage) && searchTerm == old(searchTerm)
      ensures loading == old(loading) && failed == old(failed)
    {
      sortBy := order;
    }

    /** A numbered page button; the buttons run from 1 to `totalPages`. */
    method GoToPage(page: int)
      requires Valid() && 1 <= page <= TotalPages()
      modifies this
      ensures Valid()
      ensures currentPage == page
      ensures data == old(data) && searchTerm == old(searchTerm) && sortBy == old(sortBy)
      ensures loading == old(loading) && failed == old(failed)
    {
      currentPage := page;
    }

    /** The Previous button, shown only when there is more than one page. */
    method GoToPrevious()
      requires Valid() && TotalPages() > 1
      modifies this
      ensures Valid()
      ensures currentPage == PrevPage(old(currentPage))
      ensures old(currentPage) <= TotalPages() ==> currentPage <= TotalPages()
      ensures data == old(data) && searchTerm == old(searchTerm) && sortBy == old(sortBy)
      ensures loading == old(loading) && failed == old(failed)
    {
      currentPage := PrevPage(currentPage);
    }

    /** The Next button, shown only when there is more than one page. */
    method GoToNext()
      requires Valid() && TotalPages() > 1
      modifies this
      ensures Valid()
      ensures currentPage == NextPage(old(currentPage), TotalPages())
      ensures 1 <= currentPage <= TotalPages()
      ensures data == old(data) && searchTerm == old(searchTerm) && sortBy == old(sortBy)
      ensures loading == old(loading) && failed == old(failed)
    {
      currentPage := NextPage(currentPage, TotalPages());
    }
  }
}
