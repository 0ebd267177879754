/**
 * `MapComponent`: the Leaflet map behind the budget view. The map and its
 * marker layer are created once; each new list of listings clears the layer,
 * puts one marker per geolocated listing on it, and fits the view to them.
 */
module MapView {
  import opened Wrappers
  import opened JsText
  import opened Json
  import opened Listing
  import opened Seqs

  /** The initial view: Ottawa at zoom 11. */
  const CenterLat: real := 45.4215
  const CenterLng: real := -75.6972
  const InitialZoom: nat := 11
  /** The options of the final `fitBounds`. */
  const FitPadding: nat := 50
  const FitMaxZoom: nat := 15

  /** The fields a marker's popup shows, after their fallbacks. */
  datatype Popup = Popup(address: string, price: string, buildingType: string, bedrooms: string, bathrooms: string, id: Json)

  datatype Marker = Marker(lat: real, lng: real, popup: Popup)

  datatype Bounds = Bounds(south: real, west: real, north: real, east: real)

  /** What the map shows: the initial `setView`, or the last `fitBounds`. */
  datatype View = Centered(lat: real, lng: real, zoom: nat) | Fitted(bounds: Bounds, padding: nat, maxZoom: nat)

  /**
   * `parseFloat(value)`, None standing for NaN: a JSON number reads back as
   * itself, a string goes through `parseFloat`, and null or a boolean is NaN.
   */
  function Coordinate(v: Json, parseFloat: string -> Option<real>): (c: Option<real>)
    ensures v.JNumber? ==> c == Some(v.n)
    ensures v.JString? ==> c == parseFloat(v.s)
    ensures c.Some? ==> v.JNumber? || v.JString?
  {
    match v
    case JNumber(n) => Some(n)
    case JString(s) => parseFloat(s)
    case _ => None
  }

  /** Both coordinates parse, so the listing gets a marker. */
  predicate Located(l: Listing, parseFloat: string -> Option<real>)
    ensures Located(l, parseFloat) ==> !l.latitude.JNull? && !l.longitude.JNull?
    ensures l.latitude.JNumber? && l.longitude.JNumber? ==> Located(l, parseFloat)
  {
    Coordinate(l.latitude, parseFloat).Some? && Coordinate(l.longitude, parseFloat).Some?
  }

  /**
   * The popup fields with their fallbacks. The bedroom count goes through
   * `handBedroomNumber` first, which throws when the field is missing.
   */
  function PopupFor(l: Listing): (r: Result<Popup>)
    ensures r.Err? <==> l.bedrooms.None?
    ensures r.Ok? ==> (r.value.bedrooms != "" && r.value.bathrooms != "" && r.value.buildingType != ""
      && r.value.address != "" && r.value.price != "")
    ensures r.Ok? && l.bedrooms.value == "" ==> r.value.bedrooms == "Studio"
    ensures r.Ok? && (l.bathrooms.None? || l.bathrooms.value == "") ==> r.value.bathrooms == "N/A"
    ensures r.Ok? && (l.buildingType.None? || l.buildingType.value == "") ==> r.value.buildingType == "Property"
    ensures r.Ok? && (l.address.None? || l.address.value == "") ==> r.value.address == "Property"
    ensures r.Ok? && (l.leaseRent.None? || l.leaseRent.value == "") ==> r.value.price == "Contact for price"
    ensures r.Ok? && l.address.Some? && l.address.value != "" ==> r.value.address == l.address.value
    ensures r.Ok? && l.leaseRent.Some? && l.leaseRent.value != "" ==> r.value.price == l.leaseRent.value
    ensures r.Ok? && l.buildingType.Some? && l.buildingType.value != "" ==> r.value.buildingType == l.buildingType.value
    ensures r.Ok? && l.bathrooms.Some? && l.bathrooms.value != "" ==> r.value.bathrooms == l.bathrooms.value
    ensures r.Ok? && HandBedroomNumber(l.bedrooms).value != "" ==> r.value.bedrooms == HandBedroomNumber(l.bedrooms).value
    ensures r.Ok? ==> r.value.id == l.id
  {
    match HandBedroomNumber(l.bedrooms)
    case Err(e) => Err(e)
    case Ok(bedrooms) =>
      Ok(Popup(
        OrText(l.address, "Property"),
        OrText(l.leaseRent, "Contact for price"),
        OrText(l.buildingType, "Property"),
        OrText(Some(bedrooms), "Studio"),
        OrText(l.bathrooms, "N/A"),
        l.id))
  }

  /** The marker for a geolocated listing whose popup can be built. */
  function MarkerFor(l: Listing, parseFloat: string -> Option<real>): (m: Marker)
    requires Located(l, parseFloat) && l.bedrooms.Some?
    ensures Coordinate(l.latitude, parseFloat) == Some(m.lat)
    ensures Coordinate(l.longitude, parseFloat) == Some(m.lng)
    ensures PopupFor(l) == Ok(m.popup) && m.popup.id == l.id
  {
    Marker(Coordinate(l.latitude, parseFloat).value, Coordinate(l.longitude, parseFloat).value, PopupFor(l).value)
  }

  /** What one pass of the `forEach` does with a listing. */
  datatype Place = Skip | Add(marker: Marker) | Throw

  function PlaceOf(l: Listing, parseFloat: string -> Option<real>): (p: Place)
    ensures p.Skip? <==> !Located(l, parseFloat)
    ensures p.Throw? <==> Located(l, parseFloat) && PopupFor(l).Err?
    ensures p.Add? ==> p.marker.popup.id == l.id
  {
    if !Located(l, parseFloat) then Skip
    else if l.bedrooms.None? then Throw
    else Add(MarkerFor(l, parseFloat))
  }

  /** The markers the `forEach` adds, and whether it ran to the end. */
  datatype Projection = Projection(markers: seq<Marker>, completed: bool)

  /** What the loop does with each listing, in order. */
  function Places(ls: seq<Listing>, parseFloat: string -> Option<real>): (ps: seq<Place>)
    ensures |ps| == |ls|
    ensures forall k | 0 <= k < |ls| :: ps[k] == PlaceOf(ls[k], parseFloat)
  {
    seq(|ls|, k requires 0 <= k < |ls| => PlaceOf(ls[k], parseFloat))
  }

  /** Runs the places in order, stopping at the first throw. */
  function Collect(ps: seq<Place>): (p: Projection)
    ensures |p.markers| <= |ps|
  {
    if ps == [] then Projection([], true)
    else
      var prev := Collect(ps[..|ps| - 1]);
      if !prev.completed then prev
      else match ps[|ps| - 1]
        case Skip => prev
        case Add(m) => Projection(prev.markers + [m], true)
        case Throw => Projection(prev.markers, false)
  }

  function Project(ls: seq<Listing>, parseFloat: string -> Option<real>): (p: Projection)
    ensures |p.markers| <= |ls|
  {
    Collect(Places(ls, parseFloat))
  }

  /** The loop over a list is the loop over all but its last listing, then one more pass. */
  lemma ProjectSnoc(ls: seq<Listing>, parseFloat: string -> Option<real>)
    requires ls != []
    ensures var prev := Project(ls[..|ls| - 1], parseFloat);
      Project(ls, parseFloat) ==
        if !prev.completed then prev
        else match PlaceOf(ls[|ls| - 1], parseFloat)
          case Skip => prev
          case Add(m) => Projection(prev.markers + [m], true)
          case Throw => Projection(prev.markers, false)
  {
    var ps := Places(ls, parseFloat);
    assert ps[..|ps| - 1] == Places(ls[..|ls| - 1], parseFloat);
  }

  /** The geolocated listings, in order: the reference for what the layer should show. */
  function Geolocated(ls: seq<Listing>, parseFloat: string -> Option<real>): (r: seq<Listing>)
    ensures IsSubsequence(r, ls)
    ensures forall l :: l in r <==> l in ls && Located(l, parseFloat)
  {
    if ls == [] then []
    else
      var init := ls[..|ls| - 1];
      var last := ls[|ls| - 1];
      var r := Geolocated(init, parseFloat);
      assert ls == init + [last];
      if Located(last, parseFloat) then
        SubsequenceKeep(r, init, last);
        r + [last]
      else
        SubsequenceDrop(r, init, last);
        r
  }

  /** The loop runs to the end exactly when every geolocated listing has a bedroom field. */
  lemma {:induction false} ProjectCompletes(ls: seq<Listing>, parseFloat: string -> Option<real>)
    ensures Project(ls, parseFloat).completed <==> forall l | l in Geolocated(ls, parseFloat) :: l.bedrooms.Some?
  {
    if ls != [] {
      var init := ls[..|ls| - 1];
      var last := ls[|ls| - 1];
      ProjectCompletes(init, parseFloat);
      ProjectSnoc(ls, parseFloat);
      var g := Geolocated(init, parseFloat);
      if Located(last, parseFloat) {
        assert Geolocated(ls, parseFloat) == g + [last];
      } else {
        assert Geolocated(ls, parseFloat) == g;
      }
    }
  }

  /**
   * The loop against its reference: when it runs to the end the layer holds
   * one marker per geolocated listing, in input order, and nothing else.
   */
  lemma {:induction false} ProjectMatchesGeolocated(ls: seq<Listing>, parseFloat: string -> Option<real>)
    requires forall l | l in Geolocated(ls, parseFloat) :: l.bedrooms.Some?
    ensures Project(ls, parseFloat).completed
    ensures |Project(ls, parseFloat).markers| == |Geolocated(ls, parseFloat)|
    ensures forall k | 0 <= k < |Geolocated(ls, parseFloat)| ::
      Project(ls, parseFloat).markers[k] == MarkerFor(Geolocated(ls, parseFloat)[k], parseFloat)
  {
    if ls != [] {
      var init := ls[..|ls| - 1];
      var last := ls[|ls| - 1];
      var g := Geolocated(init, parseFloat);
      assert forall l | l in g :: l in Geolocated(ls, parseFloat);
      ProjectMatchesGeolocated(init, parseFloat);
      ProjectSnoc(ls, parseFloat);
      if Located(last, parseFloat) {
        assert Geolocated(ls, parseFloat) == g + [last];
        assert last in Geolocated(ls, parseFloat);
        assert PlaceOf(last, parseFloat) == Add(MarkerFor(last, parseFloat));
      } else {
        assert Geolocated(ls, parseFloat) == g;
      }
    }
  }

  /** Once the loop has thrown, later listings change nothing. */
  lemma {:induction false} ProjectAbortSticks(a: seq<Place>, b: seq<Place>)
    requires !Collect(a).completed
    ensures Collect(a + b) == Collect(a)
    decreases |b|
  {
    if b == [] {
      assert a + b == a;
    } else {
      var b' := b[..|b| - 1];
      ProjectAbortSticks(a, b');
      assert (a + b)[..|a + b| - 1] == a + b';
    }
  }

  /** `bounds.extend([lat, lng])` on a box, or on the empty box. */
  function Extend(b: Option<Bounds>, lat: real, lng: real): (r: Bounds)
    ensures r.south <= lat <= r.north && r.west <= lng <= r.east
    ensures b.Some? ==>
      && r.south <= b.value.south && b.value.north <= r.north
      && r.west <= b.value.west && b.value.east <= r.east
    ensures b.Some? && b.value.south <= lat <= b.value.north && b.value.west <= lng <= b.value.east ==> r == b.value
  {
    match b
    case None => Bounds(lat, lng, lat, lng)
    case Some(x) =>
      Bounds(
        if lat < x.south then lat else x.south,
        if lng < x.west then lng else x.west,
        if lat > x.north then lat else x.north,
        if lng > x.east then lng else x.east)
  }

  /** The box after extending the empty box by every marker, in order. */
  function BoundsOf(ms: seq<Marker>): (b: Option<Bounds>)
    ensures b.None? <==> ms == []
    ensures b.Some? ==> forall m | m in ms ::
      b.value.south <= m.lat <= b.value.north && b.value.west <= m.lng <= b.value.east
    ensures b.Some? ==> (exists m | m in ms :: m.lat == b.value.south) && (exists m | m in ms :: m.lat == b.value.north)
    ensures b.Some? ==> (exists m | m in ms :: m.lng == b.value.west) && (exists m | m in ms :: m.lng == b.value.east)
  {
    if ms == [] then None
    else
      var init := ms[..|ms| - 1];
      var last := ms[|ms| - 1];
      assert ms == init + [last];
      var prev := BoundsOf(init);
      assert forall m | m in init :: m in ms;
      Some(Extend(prev, last.lat, last.lng))
  }

  /** One pass of the loop over a prefix on which it has not thrown. */
  lemma CollectStep(ps: seq<Place>, i: nat)
    requires i < |ps| && Collect(ps[..i]).completed
    ensures var prev := Collect(ps[..i]);
      Collect(ps[..i + 1]) == match ps[i]
        case Skip => prev
        case Add(m) => Projection(prev.markers + [m], true)
        case Throw => Projection(prev.markers, false)
  {
    assert ps[..i + 1][..i] == ps[..i];
  }

  /** A throw after a completed run ends the loop with the markers placed before it. */
  lemma ThrowEnds(a: seq<Place>, b: seq<Place>)
    requires Collect(a).completed
    ensures Collect(a + [Throw] + b) == Projection(Collect(a).markers, false)
  {
    var c := a + [Throw];
    assert c[..|c| - 1] == a;
    ProjectAbortSticks(c, b);
  }

  /** The same for a throw at place `i` of the whole run. */
  lemma ThrowAt(ps: seq<Place>, i: nat)
    requires i < |ps| && Collect(ps[..i]).completed && ps[i].Throw?
    ensures Collect(ps) == Projection(Collect(ps[..i]).markers, false)
  {
    ThrowEnds(ps[..i], ps[i + 1..]);
    SplitAt(ps, i);
  }

  lemma SplitAt<T>(s: seq<T>, i: nat)
    requires i < |s|
    ensures s[..i] + [s[i]] + s[i + 1..] == s
  {
  }

  /** Extending the box by one more marker. */
  lemma BoundsSnoc(ms: seq<Marker>, m: Marker)
    ensures BoundsOf(ms + [m]) == Some(Extend(BoundsOf(ms), m.lat, m.lng))
  {
    assert (ms + [m])[..|ms|] == ms;
  }

  class LeafletMap {
    /** `leafletMap.current !== null` */
    var mapReady: bool
    /** `markersLayer.current !== null` */
    var layerReady: bool
    var view: Option<View>
    /** The markers on the layer. */
    var markers: seq<Marker>

    /** The two refs are set and cleared together; without a map nothing is shown. */
    ghost predicate Valid()
      reads this
    {
      layerReady == mapReady && (!mapReady ==> markers == [] && view.None?)
    }

    constructor()
      ensures Valid()
      ensures !mapReady && markers == [] && view.None?
    {
      mapReady := false;
      layerReady := false;
      view := None;
      markers := [];
    }

    /** The init effect: creates the map only when the container exists and no map does yet. */
    method Init(containerReady: bool)
      requires Valid()
      modifies this
      ensures Valid()
      ensures old(mapReady) || !containerReady ==>
        mapReady == old(mapReady) && view == old(view) && markers == old(markers)
      ensures !old(mapReady) && containerReady ==>
        mapReady && view == Some(Centered(CenterLat, CenterLng, InitialZoom)) && markers == []
    {
      if !containerReady || mapReady {
        return;
      }
      mapReady := true;
      view := Some(Centered(CenterLat, CenterLng, InitialZoom));
      layerReady := true;
      markers := [];
    }

    /** The init effect's cleanup: removes the map and clears both refs. */
    method Teardown()
      requires Valid()
      modifies this
      ensures Valid()
      ensures !mapReady && !layerReady && markers == [] && view.None?
    {
      if mapReady {
        mapReady := false;
        layerReady := false;
        markers := [];
        view := None;
      }
    }

    /**
     * The marker effect for a new `filteredListings`. Without a map or with no
     * listings it returns at once and the previous markers stay. Otherwise the
     * layer is cleared and refilled, and the view is fitted to the markers when
     * there is at least one; a throw leaves the markers placed so far and no fit.
     * The listings are `BudgetMap`'s `filteredListings`, each already read
     * through `Listing.Lift`: the optional-chaining reads of the component are
     * exactly the field reads `Lift` performs on the raw JSON object.
     */
    method ShowListings(listings: seq<Listing>, parseFloat: string -> Option<real>) returns (threw: bool)
      requires Valid()
      modifies this
      ensures Valid()
      ensures mapReady == old(mapReady)
      ensures !old(mapReady) || listings == [] ==> !threw && markers == old(markers) && view == old(view)
      ensures old(mapReady) && listings != [] ==>
        markers == Project(listings, parseFloat).markers
        && threw == !Project(listings, parseFloat).completed
      ensures old(mapReady) && listings != [] && !threw && markers != [] ==>
        view == Some(Fitted(BoundsOf(markers).value, FitPadding, FitMaxZoom))
      ensures old(mapReady) && listings != [] && (threw || markers == []) ==> view == old(view)
    {
      if !mapReady || !layerReady || |listings| == 0 {
        return false;
      }
      markers := [];
      var bounds: Option<Bounds> := None;
      var hasValidMarkers := false;
      ghost var places := Places(listings, parseFloat);
      var i := 0;
      while i < |listings|
        invariant 0 <= i <= |listings|
        invariant mapReady && layerReady && view == old(view)
        invariant Collect(places[..i]).completed
        invariant markers == Collect(places[..i]).markers
        invariant bounds == BoundsOf(markers)
        invariant hasValidMarkers == (markers != [])
      {
        var place := PlaceOf(listings[i], parseFloat);
        assert place == places[i];
        CollectStep(places, i);
        if place.Throw? {
          ThrowAt(places, i);
          return true;
        }
        if place.Add? {
          var m := place.marker;
          BoundsSnoc(markers, m);
          markers := markers + [m];
          bounds := Some(Extend(bounds, m.lat, m.lng));
          hasValidMarkers := true;
        }
        i := i + 1;
      }
      assert places[..|listings|] == places;
      if hasValidMarkers && bounds.Some? {
        view := Some(Fitted(bounds.value, FitPadding, FitMaxZoom));
      }
      return false;
    }
  }
}
