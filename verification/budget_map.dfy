/**
 * `BudgetMap`: keeps the listings whose displayed price lies in the predicted
 * budget range and hands them to the map.
 */
module Budget {
  import opened Wrappers
  import opened JsText
  import opened Json
  import opened Listing
  import opened Seqs

  const LeaseRentKey: string := "Property.LeaseRent"

  /**
   * `listing['Property.LeaseRent'] || ''` as `.match` receives it. Reading a
   * property of `null` throws, and so does `.match` on a truthy non-string.
   */
  function PriceText(listing: Json): (r: Result<string>)
    ensures r.Err? <==> listing.JNull? || (TruthyField(Get(listing, LeaseRentKey)) && !Get(listing, LeaseRentKey).value.JString?)
    ensures !listing.JNull? && !TruthyField(Get(listing, LeaseRentKey)) ==> r == Ok("")
    ensures r.Ok? && r.value != "" ==> Get(listing, LeaseRentKey) == Some(JString(r.value))
  {
    if listing.JNull? then Err(TypeError)
    else match Get(listing, LeaseRentKey)
      case None => Ok("")
      case Some(JString(s)) => Ok(s)
      case Some(v) => if Truthy(v) then Err(TypeError) else Ok("")
  }

  /**
   * `parseFloat(priceMatch[1].replace(/,/g, ''))` for a matching text, None for
   * no match and for NaN. It agrees with `extractPrice` of the listings page
   * whenever it gives a number.
   */
  function BudgetPrice(text: string): (p: Option<nat>)
    ensures p.Some? ==> ExtractPrice(text) == Int(p.value)
    ensures (forall k | 0 <= k < |text| :: !IsPriceChar(text[k])) ==> p.None?
  {
    PriceMatchNone(text);
    match PriceMatch(text)
    case None => None
    case Some(_) =>
      var d := MatchDigits(text);
      ParseIntOfDigits(d);
      if d == [] then None else Some(DigitsValue(d))
  }

  /** `price >= minBudget && price <= maxBudget`: both ends inclusive; NaN is never in range. */
  predicate InBudget(price: Option<nat>, minBudget: real, maxBudget: real)
    ensures price.None? ==> !InBudget(price, minBudget, maxBudget)
    ensures maxBudget < minBudget ==> !InBudget(price, minBudget, maxBudget)
    ensures price.Some? && price.value as real == minBudget && minBudget <= maxBudget ==> InBudget(price, minBudget, maxBudget)
    ensures price.Some? && price.value as real == maxBudget && minBudget <= maxBudget ==> InBudget(price, minBudget, maxBudget)
  {
    price.Some? && minBudget <= price.value as real <= maxBudget
  }

  /** The callback given to `listings.filter`: whether it keeps the listing, or the TypeError it throws. */
  function Keeps(listing: Json, minBudget: real, maxBudget: real): (r: Result<bool>)
    ensures r.Err? <==> PriceText(listing).Err?
    ensures maxBudget < minBudget ==> r != Ok(true)
    ensures r == Ok(true) ==> listing.JObject? && Get(listing, LeaseRentKey).Some? && Get(listing, LeaseRentKey).value.JString?
  {
    match PriceText(listing)
    case Err(e) => Err(e)
    case Ok(text) => Ok(InBudget(BudgetPrice(text), minBudget, maxBudget))
  }

  /** `listings.filter(...)`: the kept listings in order, or the first throw. */
  function BudgetFilter(items: seq<Json>, minBudget: real, maxBudget: real): (r: Result<seq<Json>>)
    ensures r.Ok? <==> forall x | x in items :: Keeps(x, minBudget, maxBudget).Ok?
    ensures r.Ok? ==> IsSubsequence(r.value, items)
    ensures r.Ok? ==> forall x :: x in r.value <==> x in items && Keeps(x, minBudget, maxBudget) == Ok(true)
    decreases |items|
  {
    if items == [] then Ok([])
    else
      var init := items[..|items| - 1];
      var last := items[|items| - 1];
      assert items == init + [last];
      match BudgetFilter(init, minBudget, maxBudget)
      case Err(e) => Err(e)
      case Ok(kept) =>
        match Keeps(last, minBudget, maxBudget)
        case Err(e) => Err(e)
        case Ok(true) =>
          SubsequenceKeep(kept, init, last);
          Ok(kept + [last])
        case Ok(false) =>
          SubsequenceDrop(kept, init, last);
          Ok(kept)
  }

  /**
   * `.filter` keeps every copy of a kept listing and none of a dropped one;
   * with `IsSubsequence` this fixes the result.
   */
  lemma {:induction false} BudgetFilterCounts(items: seq<Json>, minBudget: real, maxBudget: real)
    requires BudgetFilter(items, minBudget, maxBudget).Ok?
    ensures forall x ::
              multiset(BudgetFilter(items, minBudget, maxBudget).value)[x]
              == (if Keeps(x, minBudget, maxBudget) == Ok(true) then multiset(items)[x] else 0)
    decreases |items|
  {
    if items != [] {
      var init := items[..|items| - 1];
      var last := items[|items| - 1];
      assert items == init + [last];
      BudgetFilterCounts(init, minBudget, maxBudget);
      CountsSnoc(BudgetFilter(init, minBudget, maxBudget).value, init, last, minBudget, maxBudget);
    }
  }

  /** The copy count of the filter, one more input listing at a time. */
  lemma CountsSnoc(kept: seq<Json>, init: seq<Json>, last: Json, minBudget: real, maxBudget: real)
    requires forall x :: multiset(kept)[x] == (if Keeps(x, minBudget, maxBudget) == Ok(true) then multiset(init)[x] else 0)
    ensures Keeps(last, minBudget, maxBudget) == Ok(true) ==>
      forall x :: multiset(kept + [last])[x] == (if Keeps(x, minBudget, maxBudget) == Ok(true) then multiset(init + [last])[x] else 0)
    ensures Keeps(last, minBudget, maxBudget) != Ok(true) ==>
      forall x :: multiset(kept)[x] == (if Keeps(x, minBudget, maxBudget) == Ok(true) then multiset(init + [last])[x] else 0)
  {
    assert multiset(kept + [last]) == multiset(kept) + multiset{last};
    assert multiset(init + [last]) == multiset(init) + multiset{last};
  }

  /** A kept listing is an object whose price field is a string. */
  lemma KeptAreObjects(listing: Json, minBudget: real, maxBudget: real)
    requires Keeps(listing, minBudget, maxBudget) == Ok(true)
    ensures listing.JObject? && LeaseRentKey in listing.fields && listing.fields[LeaseRentKey].JString?
  {
  }

  lemma BudgetPriceOfRun(p: string, g: string, q: string)
    requires forall k | 0 <= k < |p| :: !IsPriceChar(p[k])
    requires g != [] && AllPriceChars(g) && RemoveCommas(g) != []
    requires q == [] || !IsPriceChar(q[0])
    ensures BudgetPrice(p + g + q) == Some(DigitsValue(RemoveCommas(g)))
  {
    MatchOfRun(p, g, q);
    ExtractPriceOfMatch(p + g + q, g);
  }

  /**
   * A listing priced "<prefix><digits and commas><rest>" is kept exactly when
   * that number lies in `[minBudget, maxBudget]`, both ends included.
   */
  lemma KeepsIffInRange(fields: map<string, Json>, p: string, g: string, q: string, minBudget: real, maxBudget: real)
    requires LeaseRentKey in fields && fields[LeaseRentKey] == JString(p + g + q)
    requires forall k | 0 <= k < |p| :: !IsPriceChar(p[k])
    requires g != [] && AllPriceChars(g) && RemoveCommas(g) != []
    requires q == [] || !IsPriceChar(q[0])
    ensures Keeps(JObject(fields), minBudget, maxBudget)
      == Ok(minBudget <= DigitsValue(RemoveCommas(g)) as real <= maxBudget)
  {
    BudgetPriceOfRun(p, g, q);
    KeepsOfText(fields, p + g + q, minBudget, maxBudget);
  }

  /** A listing whose price field is a string is judged on that string's price. */
  lemma KeepsOfText(fields: map<string, Json>, text: string, minBudget: real, maxBudget: real)
    requires LeaseRentKey in fields && fields[LeaseRentKey] == JString(text)
    ensures Keeps(JObject(fields), minBudget, maxBudget) == Ok(InBudget(BudgetPrice(text), minBudget, maxBudget))
  {
    if text == "" {
      assert !Truthy(JString(text));
    }
  }

  /** A listing without a price field is dropped. */
  lemma MissingPriceExcluded(fields: map<string, Json>, minBudget: real, maxBudget: real)
    requires LeaseRentKey !in fields
    ensures Keeps(JObject(fields), minBudget, maxBudget) == Ok(false)
  {
  }

  /** A price text with no digit and no comma ("Contact for price") is dropped. */
  lemma TextPriceExcluded(fields: map<string, Json>, s: string, minBudget: real, maxBudget: real)
    requires LeaseRentKey in fields && fields[LeaseRentKey] == JString(s)
    requires forall k | 0 <= k < |s| :: !IsPriceChar(s[k])
    ensures Keeps(JObject(fields), minBudget, maxBudget) == Ok(false)
  {
  }

  /** A price whose first run is commas only parses to NaN, and NaN is never in range. */
  lemma CommaPriceExcluded(fields: map<string, Json>, p: string, g: string, q: string, minBudget: real, maxBudget: real)
    requires LeaseRentKey in fields && fields[LeaseRentKey] == JString(p + g + q)
    requires forall k | 0 <= k < |p| :: !IsPriceChar(p[k])
    requires g != [] && forall k | 0 <= k < |g| :: g[k] == ','
    requires q == [] || !IsPriceChar(q[0])
    ensures Keeps(JObject(fields), minBudget, maxBudget) == Ok(false)
  {
    assert AllPriceChars(g);
    MatchOfRun(p, g, q);
    CommasOnly(g);
    ExtractPriceOfMatch(p + g + q, g);
    assert BudgetPrice(p + g + q).None?;
    KeepsOfText(fields, p + g + q, minBudget, maxBudget);
  }

  /** What the filter effect does on a change of its inputs. */
  datatype Effect = Skip | Update(filtered: seq<Json>) | Throw

  /**
   * `if (!listings || listings.length === 0) return;` then the filter. A truthy
   * value that is not an array has no `.filter` and throws.
   */
  function BudgetEffect(listings: Json, minBudget: real, maxBudget: real): (e: Effect)
    ensures !Truthy(listings) || listings == JArray([]) ==> e == Skip
    ensures Truthy(listings) && !listings.JArray? ==> e == Throw
    ensures listings.JArray? && listings.items != [] ==>
      (e.Throw? <==> exists x | x in listings.items :: Keeps(x, minBudget, maxBudget).Err?)
    ensures e.Update? ==> listings.JArray? && IsSubsequence(e.filtered, listings.items)
    ensures e.Update? ==> forall x | x in e.filtered :: Keeps(x, minBudget, maxBudget) == Ok(true)
    ensures listings.JArray? && listings.items != [] && BudgetFilter(listings.items, minBudget, maxBudget).Ok? ==>
      e == Update(BudgetFilter(listings.items, minBudget, maxBudget).value)
    ensures e.Update? ==> forall x | x in listings.items && Keeps(x, minBudget, maxBudget) == Ok(true) :: x in e.filtered
  {
    if !Truthy(listings) || listings == JArray([]) then Skip
    else if !listings.JArray? then Throw
    else match BudgetFilter(listings.items, minBudget, maxBudget)
      case Ok(kept) => Update(kept)
      case Err(_) => Throw
  }

  class BudgetMap {
    var filteredListings: seq<Json>
    var isClient: bool

    /** Every listing handed to the map is an object carrying a string price. */
    ghost predicate Valid()
      reads this
    {
      forall x | x in filteredListings :: x.JObject? && LeaseRentKey in x.fields && x.fields[LeaseRentKey].JString?
    }

    constructor()
      ensures Valid()
      ensures filteredListings == [] && !isClient
    {
      filteredListings := [];
      isClient := false;
    }

    /** The mount effect: from now on the map is rendered. */
    method Mount()
      requires Valid()
      modifies this
      ensures Valid()
      ensures isClient && filteredListings == old(filteredListings)
    {
      isClient := true;
    }

    /**
     * The filter effect, run when `listings`, `minBudget` or `maxBudget` change.
     * An empty or missing list keeps the previous result.
     */
    method OnInputsChanged(listings: Json, minBudget: real, maxBudget: real) returns (threw: bool)
      requires Valid()
      modifies this
      ensures Valid()
      ensures threw <==> BudgetEffect(listings, minBudget, maxBudget).Throw?
      ensures BudgetEffect(listings, minBudget, maxBudget).Update? ==>
        filteredListings == BudgetEffect(listings, minBudget, maxBudget).filtered
      ensures !BudgetEffect(listings, minBudget, maxBudget).Update? ==> filteredListings == old(filteredListings)
      ensures isClient == old(isClient)
    {
      if !Truthy(listings) || listings == JArray([]) {
        return false;
      }
      if !listings.JArray? {
        return true;
      }
      var filtered := BudgetFilter(listings.items, minBudget, maxBudget);
      if filtered.Err? {
        return true;
      }
      forall x | x in filtered.value ensures x.JObject? && LeaseRentKey in x.fields && x.fields[LeaseRentKey].JString? {
        KeptAreObjects(x, minBudget, maxBudget);
      }
      filteredListings := filtered.value;
      return false;
    }
  }
}
