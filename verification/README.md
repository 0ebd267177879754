# Rental listings pipeline — a Dafny model

This project models the listing pipeline of a rental-listings web front end (a
Next.js/React site with a Leaflet map). The pipeline is spread over four files:

- **Listings page** (`pages/listings/index.tsx`). It fetches the upstream listing array from `/api/get_data`.
  - It repairs the Python-flavoured JSON text: `: NaN`, `: Infinity` and `: -Infinity` become `: null`.
  - It picks the array out of the payload.
  - It tags every record with its position (`_uniqueIndex`) and drops records whose truthy `Id` was already seen.
  - It then shows the records through a case-insensitive search, a four-way sort and eight-per-page pagination.
  - It extracts a numeric price from the display price (`extractPrice`) and sums plus-notation bedroom counts (`handBedroomNumber`).
- **Predictions page** (`pages/predictions.tsx`).
  - It posts the form to a price-prediction service and shows a ±200 budget range around the prediction.
  - It then fetches the listings with the same repair pass and hands them to the budget map.
- **Budget map** (`components/BudgetMap.tsx`). It keeps the listings whose display price lies in the budget range, both ends included.
- **Map component** (`components/MapComponent.tsx`). It owns the Leaflet map.
  - Each new list clears the marker layer.
  - It puts one marker with a popup on the layer for every listing whose coordinates parse.
  - It fits the view to the markers' bounding box.

The model is arranged as follows:

- The pure parts are datatypes, functions and lemmas.
  - This covers the repair pass, the payload shapes, the field extractors, search, sort, pagination, the price predicate and the ±200 window.
- The parts that change state step by step are imperative.
  - `processData`'s `forEach` loop is a method with loop invariants, proved against a specification function.
  - The marker loop is a method of a class holding the layer's markers and view.
  - The React state of each page or component is a class whose methods are the handlers.

JavaScript built-ins are modelled as follows:

- `includes`, `split`, global literal `replace`, `toLowerCase`, `parseInt(_, 10)`, `Number` and integer `toString` are defined in `JsText`.
- `JSON.parse` and `parseFloat` are parameters of type `string -> Option<_>`. `None` stands for a throw or for NaN.

Modules, in dependency order:

- `Wrappers` and `Seqs` (wrappers.dfy): Option, Result and order-preserving subsequences.
- `JsText` (js_text.dfy): the string and number built-ins.
- `Json` (json.dfy): parsed values, truthiness and property reads.
- `Listing` (listing.dfy): the listing record, `extractPrice` and `handBedroomNumber`.
- `Payload` (payload.dfy): the repair pass and the `listings || properties || []` unwrap.
- `Records` (records.dfy): `processData`.
- `Query` (query.dfy): search, sort and pagination.
- `ListingsPage` (listings_page.dfy): the listings page's response handler and state.
- `Budget` (budget_map.dfy): the budget filter and its effect.
- `MapView` (map_component.dfy): the marker projection and the map's refs.
- `Predictions` (predictions.dfy): the prediction flow.

## Model

| member | source | states |
|---|---|---|
| JsText.ParseIntRoundTrip | pages/predictions.tsx:49 | `parseInt(_, 10)` reads back every integer `toString` writes, negative ones included |
| JsText.NumberOfRoundTrip | pages/listings/index.tsx:116 | `Number` reads back every integer numeral, so a summand written as a numeral keeps its value |
| JsText.NumberOfPadded | pages/listings/index.tsx:116 | `Number` ignores whitespace around a numeral ("2 + 1" sums like "2+1") |
| JsText.ParseIntOfDigits | pages/listings/index.tsx:158 | on a string of digits `parseInt` gives the numeral's value, and NaN on the empty string |
| JsText.ParseInt | pages/listings/index.tsx:142 | `parseInt(_, 10)` of a string with no digit at all is NaN |
| JsText.NumberOf | pages/listings/index.tsx:116 | `Number` of blank text is 0, and of text with no digit is 0 or NaN |
| JsText.ContainsIff | pages/listings/index.tsx:132 | `includes` holds exactly when the pattern occurs at some index |
| JsText.Contains | pages/listings/index.tsx:132 | a string includes only patterns no longer than itself, and always includes the empty pattern |
| JsText.ContainsEmpty | pages/listings/index.tsx:132 | every string includes the empty string |
| JsText.ContainsChar | pages/listings/index.tsx:114 | `includes('+')` holds exactly when the character occurs |
| JsText.ToLower | pages/listings/index.tsx:131 | lower-casing keeps the length and maps each character on its own |
| JsText.ToLowerIdempotent | pages/listings/index.tsx:131-132 | lower-casing twice is lower-casing once |
| JsText.Split | pages/listings/index.tsx:115 | `split` gives at least one part, no part holds the separator, and a string holding it gives at least two parts |
| JsText.SplitJoin | pages/listings/index.tsx:115 | joining the parts with the separator gives the original string back |
| JsText.SplitAtFirst | pages/listings/index.tsx:115 | the first part ends at the first separator |
| JsText.ReplaceAll | pages/listings/index.tsx:39-42 | a global replace produces only characters taken from the text or from the replacement |
| JsText.ReplaceAllIdentity | pages/listings/index.tsx:39-42 | a global replace of an absent pattern leaves the text unchanged |
| JsText.ReplaceAllAbsent | pages/listings/index.tsx:39-42 | after a global replace with a safe replacement no occurrence of the pattern remains, and a string absent before stays absent |
| JsText.ReplaceAllKeep | pages/listings/index.tsx:39-42 | where no occurrence starts, a global replace keeps the first character and goes on with the rest |
| JsText.ReplaceAllHit | pages/listings/index.tsx:39-42 | where an occurrence starts, a global replace puts the replacement in its place and goes on after it |
| JsText.ContainsHead | pages/listings/index.tsx:39-42 | text that contains a non-empty pattern contains the pattern's first character |
| JsText.ReplaceAllFreshPrefix | pages/listings/index.tsx:39-42 | text free of the pattern's first character is copied unchanged, and the replace goes on after it |
| JsText.ReplaceAllStep | pages/listings/index.tsx:39-42 | an occurrence is replaced in place: for leading text with no occurrence that does not end in a proper prefix of the pattern, `replace(a + p + b) == a + r + replace(b)` |
| JsText.ReplaceAllSkip | pages/listings/index.tsx:39-42 | a piece that differs from the pattern and holds its first character only at its head is copied unchanged |
| Payload.NullTokenIsSafe | pages/listings/index.tsx:40-42 | `: null` cannot recreate any of `: NaN`, `: Infinity`, `: -Infinity` |
| Payload.Repair | pages/predictions.tsx:190-193 | after the three passes no `: NaN`, `: Infinity` or `: -Infinity` is left anywhere in the text |
| Payload.RepairKeepsCleanText | pages/listings/index.tsx:39-42 | text without those tokens passes through the repair unchanged |
| Payload.RepairIdempotent | pages/predictions.tsx:190-193 | repairing repaired text changes nothing |
| Payload.TokenShapes | pages/predictions.tsx:190-193 | each of `: NaN`, `: Infinity`, `: -Infinity` and `: null` is a colon followed by colon-free text, and the four differ at their third character |
| Payload.PassOver | pages/predictions.tsx:190-193 | one pass over a token that follows colon-free text keeps that text, turns the token into `: null` when it is the pass's pattern and keeps it otherwise, and goes on after it |
| Payload.RepairStep | pages/predictions.tsx:190-193 | the repair rewrites a token in place: `Repair(a + token + b) == a + ": null" + Repair(b)` when `a` holds no colon |
| Payload.RepairExample | pages/predictions.tsx:190-193 | `[{"price": NaN}]` is repaired to `[{"price": null}]` |
| Payload.Unwrap | pages/listings/index.tsx:52 | `.listings` if truthy, else `.properties` if truthy, else `[]`; the result is always truthy |
| Json.Get | pages/listings/index.tsx:126-129 | a property read finds a value exactly when the value is an object with that key, and then it is that field |
| Listing.Lift | pages/listings/index.tsx:88-91 | the record keeps the element's `Id` and holds each of the five text fields exactly when the element has a string there; an element that is not an object has no fields |
| Listing.MatchAt | pages/listings/index.tsx:156 | a match starting at a position captures a non-empty run of digits and commas, and a digit or comma there always starts one |
| Listing.PriceMatch | pages/listings/index.tsx:156 | the captured group of a match is a non-empty run of digits and commas |
| Listing.MatchFrom | pages/listings/index.tsx:156 | a match found from a position onward captures a non-empty run of digits and commas |
| Listing.PriceMatchIsFirstRun | pages/listings/index.tsx:156 | the capture group of `/\$?([\d,]+)/` is the maximal run of digits and commas starting at the first digit or comma; the optional `$` never changes it |
| Listing.PriceMatchNone | pages/listings/index.tsx:156-157 | the regex fails to match exactly when the text has no digit and no comma |
| Listing.RemoveCommas | pages/listings/index.tsx:158 | removing the commas from a run of digits and commas leaves only digits |
| Listing.ExtractPrice | pages/listings/index.tsx:155-161 | a price that is a number is never negative |
| Listing.ExtractPriceAbsent | pages/listings/index.tsx:160 | text with no digit and no comma is priced 0 |
| Listing.ExtractPriceCommas | pages/listings/index.tsx:156-158 | when the first run is commas only the price is NaN (`parseInt("")`) |
| Listing.ExtractPriceOfRun | pages/listings/index.tsx:156-158 | any prefix without digits or commas, then a run, then anything else: the price is the run's digits read as an integer |
| Listing.ExtractPriceExample | pages/listings/index.tsx:155-161 | "$1,500" is priced 1500 |
| Listing.ExtractPriceFallbacks | pages/listings/index.tsx:155-161 | "Contact for price" is priced 0 and "$," is NaN |
| Listing.NoPlusInNumeral | pages/listings/index.tsx:116 | the string of a sum (a numeral or "NaN") never contains '+' |
| Listing.HandBedroomNumber | pages/listings/index.tsx:112-120 | a missing field throws and a present one never does; text without '+' comes back unchanged; a result never contains '+' |
| Listing.HandBedroomOfParts | pages/listings/index.tsx:114-116 | text with a '+' splits into at least two parts and becomes the string of `Number(parts[0]) + Number(parts[1])` |
| Listing.HandBedroomSum | pages/listings/index.tsx:114-116 | "a+b", with or without further "+..." parts, gives the numeral of a + b |
| Listing.HandBedroomIdempotent | pages/listings/index.tsx:112-120 | applying the summer to its own result changes nothing |
| Listing.HandBedroomExamples | pages/listings/index.tsx:112-120 | "2+1" gives "3" and "4" stays "4" |
| Listing.HandBedroomDropsThirdPart | components/MapComponent.tsx:93-94 | parts after the second are ignored: "1+1+1" gives "2" |
| Records.Tag | pages/listings/index.tsx:88-91 | one record per element; each record's `_uniqueIndex` is its input position and its fields come from that element |
| Records.Processed | pages/listings/index.tsx:86-108 | `processData` throws exactly on a truthy non-array; what it stores has pairwise distinct truthy `Id`s and strictly increasing `_uniqueIndex`, and is no longer than the input array |
| Records.Dedup | pages/listings/index.tsx:94-105 | de-duplication never adds records |
| Records.SelectLength | pages/listings/index.tsx:97-105 | the first n records leave at most n survivors |
| Records.ProcessData | pages/listings/index.tsx:86-108 | the loop stores the first-occurrence selection of the tagged array; a falsy input gives no records; a truthy non-array throws |
| Records.KeepFirst | pages/listings/index.tsx:94-105 | the `forEach` with its `idSet` pushes exactly the first-occurrence selection of the tagged records |
| Records.SeenIdsStep | pages/listings/index.tsx:98-104 | a record is pushed exactly when it has no truthy `Id` or its `Id` is not yet in `idSet`; `idSet` grows by exactly the pushed truthy `Id` |
| Records.SelectShape | pages/listings/index.tsx:97-105 | every survivor is the input record at the position its `_uniqueIndex` names, is a first occurrence, and indices strictly increase |
| Records.SelectComplete | pages/listings/index.tsx:101-104 | every first occurrence, and so every record without an `Id`, survives |
| Records.SelectSubsequence | pages/listings/index.tsx:97-105 | the survivors of a prefix are an order-preserving subsequence of that prefix |
| Records.DedupSubsequence | pages/listings/index.tsx:97-105 | the de-duplicated data is an order-preserving subsequence of the tagged input |
| Records.DedupKeepsFirstOccurrences | pages/listings/index.tsx:97-105 | a record is kept iff it is the first with its `Id` or has none; kept records have strictly increasing `_uniqueIndex` and pairwise distinct truthy `Id`s |
| Records.SelectUnique | pages/listings/index.tsx:97-105 | a sequence whose truthy `Id`s are already distinct is kept whole |
| Records.DedupIdempotent | pages/listings/index.tsx:97-105 | de-duplicating twice keeps what de-duplicating once keeps |
| Query.Search | pages/listings/index.tsx:122-133 | the result is an order-preserving subsequence of the data, and a record is in it iff its lower-cased "address price bedrooms type" includes the lower-cased term |
| Query.Matches | pages/listings/index.tsx:126-132 | the empty term matches every record, and a matching term is never longer than the record's search text |
| Query.SearchAllMatch | pages/listings/index.tsx:122-133 | a term that every record matches keeps all of the data, in order |
| Query.SearchEmptyTerm | pages/listings/index.tsx:132 | an empty search term keeps every record |
| Query.SearchIgnoresTermCase | pages/listings/index.tsx:131-132 | searching for a term and for its lower-cased form give the same result |
| Query.RankKeys | pages/listings/index.tsx:137-146 | a NaN key only comes from an unreadable price under a price order or an unreadable bedroom count under a bedroom order; the descending orders rank by the negated key; any other order ranks every record 0 |
| Query.Compare | pages/listings/index.tsx:136-147 | a record compares equal to itself; a NaN difference counts as 0; on numeric keys the comparator is negative iff the first key is smaller and 0 iff the keys are equal |
| Query.CompareRanked | pages/listings/index.tsx:138-144 | on numeric keys the comparator is the difference of the keys |
| Query.Insert | pages/listings/index.tsx:136 | one insertion step adds exactly the new record |
| Query.SortListings | pages/listings/index.tsx:136-147 | the sorted list is a permutation of the filtered list |
| Query.InsertRanked | pages/listings/index.tsx:136-147 | inserting a record with a numeric key keeps every key numeric |
| Query.SortedSnoc | pages/listings/index.tsx:136-147 | appending a record that belongs after every other keeps the list sorted and stable |
| Query.InsertSorted | pages/listings/index.tsx:136-147 | inserting a later record into a sorted list keeps it sorted by key, and in input order among equal keys |
| Query.SortListingsSorted | pages/listings/index.tsx:136-147 | when every key is a number, the result is non-decreasing in the key and stable on `_uniqueIndex` |
| Query.SortUnknownOrder | pages/listings/index.tsx:146 | an order other than the four offered leaves the list as it was |
| Query.PriceAscOrder | pages/listings/index.tsx:137-138 | under `price-asc` `extractPrice` never decreases along the result, a missing price counting as "0" |
| Query.RankPriceDesc | pages/listings/index.tsx:139-140 | the `price-desc` comparator is the ascending one on the negated price |
| Query.PriceDescOrder | pages/listings/index.tsx:139-140 | under `price-desc` `extractPrice` never increases along the result |
| Query.PageCount | pages/listings/index.tsx:150 | `totalPages` is the ceiling of n / 8 |
| Query.Slice | pages/listings/index.tsx:152 | `slice` clamps to the length: entry i is element start + i, the result is empty when end ≤ start, it is exactly the range [start, end) when that lies inside the list, it runs from start to the end of the list when only end lies past it, and it is empty when start lies past the end |
| Query.PageWindow | pages/listings/index.tsx:151-152 | a page holds at most 8 records; it is empty past the last page and non-empty on a valid one; entry i is record (page-1)*8+i |
| Query.PagesPrefix | pages/listings/index.tsx:151-152 | pages 1..k laid end to end are the first 8k records |
| Query.PagesCover | pages/listings/index.tsx:150-152 | pages 1..totalPages laid end to end are the whole sorted list |
| Query.PrevPage | pages/listings/index.tsx:284 | Previous gives at least 1, and one less than the page when that is above 1 |
| Query.NextPage | pages/listings/index.tsx:310 | Next goes to the following page below `totalPages`, and to `totalPages` itself from there or from any page past it |
| Query.ClampsStayInRange | pages/listings/index.tsx:284-310 | from a page in [1, totalPages] both buttons stay in [1, totalPages] |
| Query.PaginationExample | pages/listings/index.tsx:150-152 | 17 records make 3 pages; page 3 holds 1 record and page 4 none |
| ListingsPage.LoadedRecordsClean | pages/listings/index.tsx:28-83 | whatever the payload, loaded records have distinct truthy `Id`s and increasing `_uniqueIndex` |
| ListingsPage.ShapeHandling | pages/listings/index.tsx:35-75 | a string payload never records an error, and one that fails to parse loads nothing; an array loads its de-duplicated records; an object with the array under `listings`, or a string parsing to it, loads the same |
| ListingsPage.NullPayloadFails | pages/listings/index.tsx:65-82 | a non-string null payload throws on `.listings` and is recorded as an error |
| ListingsPage.Shaped | pages/listings/index.tsx:47-72 | a null value throws on `.listings`; an array is always processed; whatever is processed has distinct truthy `Id`s and increasing `_uniqueIndex` |
| ListingsPage.LoadOutcome | pages/listings/index.tsx:30-82 | a string or an array payload always loads records, since the parse errors are caught; a null payload is recorded as an error; loaded records are de-duplicated |
| ListingsPage.ListingsPage.constructor | pages/listings/index.tsx:20-25 | no data, loading, no error, page 1, empty search, `price-asc` |
| ListingsPage.ListingsPage.FilteredData | pages/listings/index.tsx:122-133 | the filtered view is `Search(data, searchTerm)`: a record is shown iff it is in the data and matches the search term, in data order |
| ListingsPage.ListingsPage.SortedData | pages/listings/index.tsx:136 | the sorted view is `SortListings` of the filtered view under `sortBy`, so it is sorted by the chosen key (`SortListingsSorted`) and is a permutation of the filtered view |
| ListingsPage.ListingsPage.PaginatedData | pages/listings/index.tsx:150-152 | the page shown is `PageWindow` of the sorted view at `currentPage` (the eight entries from `(currentPage - 1) * 8`, see `PagesCover`): at most 8 records, none past the last page, each of them a matching record of the data |
| ListingsPage.ListingsPage.OnResponse | pages/listings/index.tsx:28-83 | stores the loaded records or records the error and keeps the data; loading stops; de-duplication holds afterwards |
| ListingsPage.ListingsPage.OnRequestFailed | pages/listings/index.tsx:78-82 | the error is recorded, loading stops, the data stays |
| ListingsPage.ListingsPage.SetSearchTerm | pages/listings/index.tsx:201 | only the term changes; the current page is not reset |
| ListingsPage.ListingsPage.SetSortBy | pages/listings/index.tsx:212 | only the sort order changes |
| ListingsPage.ListingsPage.GoToPage | pages/listings/index.tsx:295-307 | a numbered button in 1..totalPages sets that page |
| ListingsPage.ListingsPage.GoToPrevious | pages/listings/index.tsx:284 | Previous moves to `max(1, page - 1)` and stays within the pages |
| ListingsPage.ListingsPage.GoToNext | pages/listings/index.tsx:310 | Next moves to `min(totalPages, page + 1)`, within [1, totalPages] |
| Budget.PriceText | components/BudgetMap.tsx:31 | a null listing or a truthy non-string price throws; a missing or falsy price reads as ""; a non-empty text is the listing's own price string |
| Budget.BudgetPrice | components/BudgetMap.tsx:32-35 | a parsed price agrees with `extractPrice`; text without digits or commas has none |
| Budget.InBudget | components/BudgetMap.tsx:36 | NaN is never in range, an empty range holds nothing, and both ends are included |
| Budget.Keeps | components/BudgetMap.tsx:29-37 | the callback throws exactly when reading the price throws; with max < min it keeps nothing; a kept listing is an object with a string price |
| Budget.KeepsOfText | components/BudgetMap.tsx:31-36 | for a string price the callback keeps the listing iff its parsed price lies in the range |
| Budget.BudgetFilter | components/BudgetMap.tsx:29-37 | the filter succeeds iff no callback throws; the result is an order-preserving subsequence holding exactly the kept listings (`BudgetFilterCounts` gives how many copies) |
| Budget.BudgetFilterCounts | components/BudgetMap.tsx:29-37 | `.filter` keeps every copy of a kept listing and none of a dropped one, so together with the subsequence clause the result is fixed |
| Budget.KeptAreObjects | components/BudgetMap.tsx:31-36 | a kept listing is an object whose price field is a string |
| Budget.BudgetPriceOfRun | components/BudgetMap.tsx:32-35 | the parsed price is the first digit/comma run without its commas |
| Budget.KeepsIffInRange | components/BudgetMap.tsx:35-36 | a listing is kept iff its price lies in [minBudget, maxBudget], both ends included |
| Budget.MissingPriceExcluded | components/BudgetMap.tsx:31-33 | a listing without a price is dropped |
| Budget.TextPriceExcluded | components/BudgetMap.tsx:32-33 | a price text with no digit and no comma is dropped |
| Budget.CommaPriceExcluded | components/BudgetMap.tsx:35-36 | a run of commas parses to NaN and the listing is dropped |
| Budget.BudgetEffect | components/BudgetMap.tsx:26-39 | a falsy or empty list changes nothing; a truthy non-array throws; a non-empty array throws iff some callback throws, and otherwise the new list is the filter's result: an order-preserving subsequence that holds every in-range listing and nothing else |
| Budget.BudgetMap.constructor | components/BudgetMap.tsx:17-18 | no filtered listings, not yet on the client |
| Budget.BudgetMap.Mount | components/BudgetMap.tsx:21-23 | the mount effect sets `isClient` and nothing else |
| Budget.BudgetMap.OnInputsChanged | components/BudgetMap.tsx:26-41 | a missing or empty list keeps the previous result; otherwise the filtered list replaces it, and a throw leaves it alone |
| MapView.PopupFor | components/MapComponent.tsx:101-105 | a missing bedroom field throws; otherwise every field is non-empty, with fallbacks Studio, N/A, Property, Property and Contact for price; a present non-empty field is shown as is, the bedrooms as the summed count, and the link keeps the listing's `Id` |
| MapView.Coordinate | components/MapComponent.tsx:81-82 | a number reads as itself, a string as `parseFloat` reads it, and any other value as NaN |
| MapView.Located | components/MapComponent.tsx:81-87 | a listing with a null coordinate is skipped, and one with two numeric coordinates is placed |
| MapView.MarkerFor | components/MapComponent.tsx:100-122 | the marker sits at the parsed coordinates and carries the popup built for the listing, which links to its `Id` |
| MapView.PlaceOf | components/MapComponent.tsx:79-126 | a pass skips a listing iff a coordinate is NaN, throws iff the listing is located and its popup cannot be built, and an added marker links to the listing's `Id` |
| MapView.Collect | components/MapComponent.tsx:79-127 | running the passes adds at most one marker per listing |
| MapView.Places | components/MapComponent.tsx:79 | the `forEach` visits every listing once, in order |
| MapView.Project | components/MapComponent.tsx:79-127 | the loop adds at most one marker per listing |
| MapView.Geolocated | components/MapComponent.tsx:81-87 | the listings whose latitude and longitude both parse, in order |
| MapView.ProjectCompletes | components/MapComponent.tsx:79-127 | the loop runs to the end iff every geolocated listing has a bedroom field |
| MapView.ProjectMatchesGeolocated | components/MapComponent.tsx:79-122 | a completed loop places exactly one marker per geolocated listing, in input order, at its coordinates with its popup; listings without coordinates are skipped and the loop goes on |
| MapView.ProjectSnoc | components/MapComponent.tsx:79-122 | the loop over a list is the loop over all but its last listing, then one more pass that skips it, adds its marker or throws |
| MapView.ThrowAt | components/MapComponent.tsx:90-101 | a throw at some listing ends the loop with exactly the markers placed before it |
| MapView.ProjectAbortSticks | components/MapComponent.tsx:90-101 | once the popup throws, later listings add nothing |
| MapView.Extend | components/MapComponent.tsx:125 | the extended box contains the new point and the old box, and a point already inside leaves the box as it was |
| MapView.BoundsOf | components/MapComponent.tsx:67-125 | the bounds are the component-wise min and max of the marker positions, each attained by some marker; no markers give no bounds |
| MapView.LeafletMap.constructor | components/MapComponent.tsx:18-19 | no map, no layer, no markers |
| MapView.LeafletMap.Init | components/MapComponent.tsx:33-47 | the map is created at most once, only when the container exists, centred on (45.4215, -75.6972) at zoom 11 with an empty layer |
| MapView.LeafletMap.Teardown | components/MapComponent.tsx:50-55 | the map is removed and both refs are cleared |
| MapView.LeafletMap.ShowListings | components/MapComponent.tsx:60-136 | without a map or with no listings the old markers stay; otherwise the layer holds the projection's markers, and the view is fitted to their bounds (padding 50, max zoom 15) only when there is at least one and nothing threw |
| Predictions.BudgetWindow | pages/predictions.tsx:157-160 | min ≤ prediction ≤ max, max − min = 400, centred on the prediction |
| Predictions.IntInput | pages/predictions.tsx:49 | the result is the integer `parseInt` reads when it reads one, and 0 when it gives NaN |
| Predictions.IntInputRoundTrip | pages/predictions.tsx:49 | a typed integer is read as itself |
| Predictions.IntInputExamples | pages/predictions.tsx:49 | "" and "abc" give 0 |
| Predictions.IntInputPadded | pages/predictions.tsx:49 | " 7" reads 7: leading whitespace is skipped |
| Predictions.IntInputSuffixed | pages/predictions.tsx:49 | "7abc" reads 7: characters after the digits are ignored |
| Predictions.ListingsFromText | pages/predictions.tsx:184-212 | the listings handed to the map are always truthy |
| Predictions.ListingsShapes | pages/predictions.tsx:190-212 | the parser never sees a non-JSON number; an array is used as is, an object is unwrapped, any other value or a parse failure gives [] |
| Predictions.PredictionPage.constructor | pages/predictions.tsx:15-42 | the form defaults (1 bed, 1 storey, 7 amenities, the rest 0), no prediction, not loading, no map |
| Predictions.PredictionPage.OnIntInput | pages/predictions.tsx:48-114 | the chosen integer field becomes `parseInt(value, 10)`, or 0 when that is falsy; the other five inputs, the prediction, its window, the accuracy, the listings, loading and the map flag stay |
| Predictions.WithField | pages/predictions.tsx:48-114 | setting one integer input gives it the new value and keeps the other five |
| Predictions.PredictionPage.SetField | pages/predictions.tsx:49 | the state update of those handlers: one input becomes the given number, the other five and all other state stay |
| Predictions.PredictionPage.Submit | pages/predictions.tsx:120-122 | only when not loading (the button is disabled otherwise); loading starts and the prediction request is pending; the form inputs, the prediction and its window, the accuracy, the listings and the map flag stay |
| Predictions.PredictionPage.OnPredictionResponse | pages/predictions.tsx:154-168 | an ok response stores the prediction, its ±200 window and the accuracy, and starts the listings request with loading still on; otherwise loading stops and the prediction, window and accuracy stay; the form inputs, listings and map flag stay in both cases |
| Predictions.PredictionPage.OnPredictionError | pages/predictions.tsx:169-172 | a thrown request or body stops loading; the form inputs, the prediction and its window, the accuracy, the listings and the map flag stay |
| Predictions.PredictionPage.OnListingsText | pages/predictions.tsx:184-215 | the listings become what the text yields (`[]` on a parse failure), the map is shown and loading stops; the form inputs, the prediction and its window and the accuracy stay |
| Predictions.PredictionPage.OnListingsError | pages/predictions.tsx:254-257 | a failed listings request stops loading; the listings, the map flag, the form inputs, the prediction and its window and the accuracy stay |
| Predictions.PredictionPage.BudgetMapProps | pages/predictions.tsx:656-670 | the budget map renders iff the prediction is non-zero and the map is shown, and then receives the page's own `minPredictionResult`, `maxPredictionResult` and `listings`: the ±200 window around the prediction and the fetched, truthy listings |
| Predictions.ZeroPredictionHidden | pages/predictions.tsx:639 | a prediction of exactly 0 shows no result panel, even though its window is [-200, 200] |

## Left out

- Network and timing are not modelled: the `axios`/`fetch` calls, `console` logging, `setTimeout`, `requestAnimationFrame` and the eased scroll to the map section. Responses enter as handler parameters (an ok flag, a JSON value, a text).
- `JSON.parse` and `parseFloat` are parameters rather than definitions. They are foreign built-ins.
- Leaflet itself is not modelled: tiles, the icon-URL patch, `divIcon`, popup HTML and the zoom arithmetic of `fitBounds`. A popup is a record of its fields and a view is a value.
- React scheduling is not modelled. Each effect or handler is one method call; the order in which React runs them is left to the caller.
- The `isClient` server-rendering gate is modelled only as a flag, not as what it renders.
- The listing cards, the property detail page, the checkbox and text handlers of the prediction form, and the static pages are not part of this model.
- The listing card's own call of `handBedroomNumber` is not modelled. It throws on a record without a bedroom field.
- The `!item` guard of the search is not modelled because it cannot fire: `processData` spreads every element into a new object.
- The listings page does not reset `currentPage` when the search term changes. The model keeps that behaviour.
- `accuracyResult` is stored but never displayed.
- `showMap` is never reset by a later submit.
- ListingsPage.ListingsPage.OnResponse: `Id`s are compared by value. JavaScript's `Set` compares object and array `Id`s by reference; the upstream `Id`s are numbers or strings, where the two agree.
- Listing.Lift: a listing field that is not a JSON string is read as absent.
- Query.SortListingsSorted: the sort is modelled as a stable insertion sort. Sortedness is proved only when every key is a number, because with NaN keys `Array.prototype.sort` leaves the order implementation-defined.
- JsText.NumberOf: only decimal integers are read. Decimal fractions, exponents, hexadecimal and `Infinity` read as NaN here, so summands like "1.5" are outside the model.
- JsText.ToLower: only ASCII letters are lower-cased.
- JsText.IntToString: numbers are unbounded integers. The 2^53 precision limit of JavaScript numbers and exponent notation in `toString` are not modelled.
- Budget.BudgetPrice: the price is an exact integer, not a double. `parseFloat` of a digit run of 16 or more digits would round.
- Budget.BudgetEffect: a listings value that is an object with a `length` of 0 is treated as throwing, not as skipped.
- MapView.Coordinate: a coordinate that is an array or an object reads as NaN, and an infinite coordinate is not represented.
- Predictions.PredictionPage.OnPredictionResponse: the prediction is taken to be a number. A string prediction would make `targetPrice + 200` a string concatenation; that is not modelled.
- Predictions.PredictionPage.Submit: the ghost `pending` request models "at most one request in flight". The handlers for a response require the matching request to be pending.
