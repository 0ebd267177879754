/**
 * The predictions page: the form's integer inputs, the submit / prediction /
 * listings request sequence with its loading flag, the ±200 budget window, and
 * the listings handed to the budget map.
 */
module Predictions {
  import opened Wrappers
  import opened JsText
  import opened Json
  import opened Payload

  /** Half the width of the recommended budget range. */
  const BudgetMargin: real := 200.0

  /** `[targetPrice - 200, targetPrice + 200]`. */
  function BudgetWindow(prediction: real): (w: (real, real))
    ensures w.0 <= prediction <= w.1
    ensures w.1 - w.0 == 2.0 * BudgetMargin
    ensures prediction - w.0 == w.1 - prediction
  {
    (prediction - BudgetMargin, prediction + BudgetMargin)
  }

  /** `parseInt(value, 10) || 0`: a value that does not start with an integer reads as 0. */
  function IntInput(value: string): (n: int)
    ensures ParseInt(value).Int? ==> n == ParseInt(value).value
    ensures ParseInt(value).NaN? ==> n == 0
  {
    match ParseInt(value)
    case NaN => 0
    case Int(v) => v
  }

  /** A number typed into an integer field is read back as itself. */
  lemma IntInputRoundTrip(n: int)
    ensures IntInput(IntToString(n)) == n
  {
    ParseIntRoundTrip(n);
  }

  lemma IntInputExamples()
    ensures IntInput("") == 0
    ensures IntInput("abc") == 0
  {
    assert ParseInt("") == NaN by {
      ParseIntOfDigits("");
      assert TrimStart("") == "";
    }
    assert ParseInt("abc") == NaN by {
      assert !IsWhiteSpace('a');
      assert TrimStart("abc") == "abc";
      assert DigitPrefix("abc") == "";
    }
  }

  /** Leading whitespace is skipped, as `parseInt` does. */
  lemma IntInputPadded(padded: string)
    requires padded == " 7"
    ensures IntInput(padded) == 7
  {
    assert ParseInt(padded) == Int(7) by {
      var t := TrimStart(padded);
      assert t == "7" by {
        assert IsWhiteSpace(padded[0]) && padded[1..] == "7";
        assert !IsWhiteSpace('7');
      }
      assert SplitSign(t) == (false, t);
      assert DigitPrefix(t) == t;
      SevenValue(t);
    }
  }

  /** Trailing characters after the digits are ignored, as `parseInt` does. */
  lemma IntInputSuffixed(suffixed: string)
    requires suffixed == "7abc"
    ensures IntInput(suffixed) == 7
  {
    assert ParseInt(suffixed) == Int(7) by {
      assert TrimStart(suffixed) == suffixed by {
        assert !IsWhiteSpace(suffixed[0]);
      }
      assert SplitSign(suffixed) == (false, suffixed);
      assert DigitPrefix(suffixed) == "7" by {
        assert suffixed[1..] == "abc";
        assert DigitPrefix("abc") == "";
      }
      SevenValue(DigitPrefix(suffixed));
    }
  }

  lemma SevenValue(d: string)
    requires d == "7"
    ensures AllDigits(d) && DigitsValue(d) == 7
  {
    assert d[..0] == "";
  }

  /**
   * `fetchListings` from the response text on: the repaired text is parsed; an
   * array is taken as it is, an object gives `listings || properties || []`,
   * and any other value or a parse failure gives `[]`.
   */
  function ListingsFromText(text: string, parse: string -> Option<Json>): (listings: Json)
    ensures Truthy(listings)
  {
    match parse(Repair(text))
    case None => JArray([])
    case Some(v) =>
      if v.JArray? then v
      else if v.JObject? then Unwrap(v)
      else JArray([])
  }

  /**
   * The shape handling of `fetchListings`, the same repair pass as the listings
   * page: the parser only ever sees text without `: NaN`, `: Infinity` or
   * `: -Infinity`; an array is used unchanged, an object is unwrapped, null, a
   * number, a string or a boolean give `[]`, and so does a parse failure.
   */
  lemma ListingsShapes(text: string, parse: string -> Option<Json>)
    ensures !HasNonJsonNumber(Repair(text))
    ensures parse(Repair(text)).None? ==> ListingsFromText(text, parse) == JArray([])
    ensures parse(Repair(text)).Some? && parse(Repair(text)).value.JArray? ==>
      ListingsFromText(text, parse) == parse(Repair(text)).value
    ensures parse(Repair(text)).Some? && parse(Repair(text)).value.JObject? ==>
      ListingsFromText(text, parse) == Unwrap(parse(Repair(text)).value)
    ensures parse(Repair(text)).Some? && !parse(Repair(text)).value.JArray? && !parse(Repair(text)).value.JObject? ==>
      ListingsFromText(text, parse) == JArray([])
  {
  }

  /** The integer inputs of the form. */
  datatype IntField = Bed | Story | Province | BuildingType | Amenities | ParkingSize

  /** Which request the page is waiting for. */
  datatype Request = Idle | AwaitingPrediction | AwaitingListings

  /** The six integer inputs, in the order of `IntField`. */
  type Form = (int, int, int, int, int, int)

  /** The form with one integer input set to `n` and the other five kept. */
  function WithField(form: Form, field: IntField, n: int): (r: Form)
    ensures r.0 == (if field == Bed then n else form.0)
    ensures r.1 == (if field == Story then n else form.1)
    ensures r.2 == (if field == Province then n else form.2)
    ensures r.3 == (if field == BuildingType then n else form.3)
    ensures r.4 == (if field == Amenities then n else form.4)
    ensures r.5 == (if field == ParkingSize then n else form.5)
  {
    match field
    case Bed => (n, form.1, form.2, form.3, form.4, form.5)
    case Story => (form.0, n, form.2, form.3, form.4, form.5)
    case Province => (form.0, form.1, n, form.3, form.4, form.5)
    case BuildingType => (form.0, form.1, form.2, n, form.4, form.5)
    case Amenities => (form.0, form.1, form.2, form.3, n, form.5)
    case ParkingSize => (form.0, form.1, form.2, form.3, form.4, n)
  }

  class PredictionPage {
    var bedNumb: int
    var storyNumb: int
    var province: int
    var buildingType: int
    var amenities: int
    var parkingSize: int
    var predictionResult: real
    var minPredictionResult: real
    var maxPredictionResult: real
    var accuracyResult: Json
    var isLoading: bool
    var listings: Json
    var showMap: bool
    /** The request in flight, if any. */
    ghost var pending: Request
    /** Whether a prediction has been received. */
    ghost var predicted: bool

    /**
     * The loading flag is up exactly while a request is in flight; the range
     * is the ±200 window around the last prediction (all zero before one);
     * the map is shown only after a prediction.
     */
    ghost predicate Valid()
      reads this
    {
      && (isLoading <==> pending != Idle)
      && (predicted ==> (minPredictionResult, maxPredictionResult) == BudgetWindow(predictionResult))
      && (!predicted ==> predictionResult == 0.0 && minPredictionResult == 0.0 && maxPredictionResult == 0.0)
      && (showMap ==> predicted)
      && (pending == AwaitingListings ==> predicted)
      && Truthy(listings)
    }

    constructor()
      ensures Valid()
      ensures bedNumb == 1 && storyNumb == 1 && province == 0 && buildingType == 0
      ensures amenities == 7 && parkingSize == 0
      ensures predictionResult == 0.0 && !isLoading && listings == JArray([]) && !showMap
      ensures pending == Idle
    {
      bedNumb, storyNumb, province, buildingType, amenities, parkingSize := 1, 1, 0, 0, 7, 0;
      predictionResult, minPredictionResult, maxPredictionResult := 0.0, 0.0, 0.0;
      accuracyResult := JString("");
      isLoading := false;
      listings := JArray([]);
      showMap := false;
      pending := Idle;
      predicted := false;
    }

    /** The `parseInt(e.target.value, 10) || 0` change handlers. */
    method OnIntInput(field: IntField, value: string)
      requires Valid()
      modifies this
      ensures Valid()
      ensures Form() == WithField(old(Form()), field, IntInput(value))
      ensures isLoading == old(isLoading) && pending == old(pending) && showMap == old(showMap)
      ensures predictionResult == old(predictionResult) && listings == old(listings)
      ensures accuracyResult == old(accuracyResult)
      ensures minPredictionResult == old(minPredictionResult) && maxPredictionResult == old(maxPredictionResult)
    {
      SetField(field, IntInput(value));
    }

    /** The state update those handlers share: one integer input becomes `n`. */
    method SetField(field: IntField, n: int)
      requires Valid()
      modifies this
      ensures Valid()
      ensures Form() == WithField(old(Form()), field, n)
      ensures isLoading == old(isLoading) && pending == old(pending) && showMap == old(showMap)
      ensures predictionResult == old(predictionResult) && listings == old(listings)
      ensures accuracyResult == old(accuracyResult)
      ensures minPredictionResult == old(minPredictionResult) && maxPredictionResult == old(maxPredictionResult)
    {
      match field
      case Bed => bedNumb := n;
      case Story => storyNumb := n;
      case Province => province := n;
      case BuildingType => buildingType := n;
      case Amenities => amenities := n;
      case ParkingSize => parkingSize := n;
    }

    /** `handleSubmit` up to the request; the button is disabled while loading. */
    method Submit()
      requires Valid() && !isLoading
      modifies this
      ensures Valid()
      ensures isLoading && pending == AwaitingPrediction
      ensures predictionResult == old(predictionResult) && listings == old(listings) && showMap == old(showMap)
      ensures minPredictionResult == old(minPredictionResult) && maxPredictionResult == old(maxPredictionResult)
      ensures Form() == old(Form()) && accuracyResult == old(accuracyResult)
    {
      isLoading := true;
      pending := AwaitingPrediction;
    }

    /**
     * The prediction response. An ok one stores the prediction and its ±200
     * window and starts the listings request, so loading goes on; any other
     * ends loading.
     */
    method OnPredictionResponse(ok: bool, prediction: real, accuracy: Json)
      requires Valid() && pending == AwaitingPrediction
      modifies this
      ensures Valid()
      ensures ok ==> predictionResult == prediction && isLoading && pending == AwaitingListings
      ensures ok ==> minPredictionResult <= prediction <= maxPredictionResult
      ensures ok ==> maxPredictionResult - minPredictionResult == 2.0 * BudgetMargin
      ensures ok ==> accuracyResult == accuracy
      ensures !ok ==> !isLoading && pending == Idle && predictionResult == old(predictionResult)
      ensures !ok ==> accuracyResult == old(accuracyResult)
      ensures !ok ==> minPredictionResult == old(minPredictionResult) && maxPredictionResult == old(maxPredictionResult)
      ensures listings == old(listings) && showMap == old(showMap) && Form() == old(Form())
    {
      if ok {
        var window := BudgetWindow(prediction);
        predictionResult := prediction;
        minPredictionResult := window.0;
        maxPredictionResult := window.1;
        accuracyResult := accuracy;
        predicted := true;
        pending := AwaitingListings;
      } else {
        isLoading := false;
        pending := Idle;
      }
    }

    /** The `catch` of `handleSubmit`: a network error or a body that is not JSON. */
    method OnPredictionError()
      requires Valid() && pending == AwaitingPrediction
      modifies this
      ensures Valid()
      ensures !isLoading && pending == Idle
      ensures predictionResult == old(predictionResult) && listings == old(listings) && showMap == old(showMap)
      ensures minPredictionResult == old(minPredictionResult) && maxPredictionResult == old(maxPredictionResult)
      ensures Form() == old(Form()) && accuracyResult == old(accuracyResult)
    {
      isLoading := false;
      pending := Idle;
    }

    /** The listings text arrived: store what it yields, show the map, stop loading. */
    method OnListingsText(text: string, parse: string -> Option<Json>)
      requires Valid() && pending == AwaitingListings
      modifies this
      ensures Valid()
      ensures listings == ListingsFromText(text, parse)
      ensures showMap && !isLoading && pending == Idle
      ensures predictionResult == old(predictionResult)
      ensures minPredictionResult == old(minPredictionResult) && maxPredictionResult == old(maxPredictionResult)
      ensures Form() == old(Form()) && accuracyResult == old(accuracyResult)
    {
      listings := ListingsFromText(text, parse);
      showMap := true;
      isLoading := false;
      pending := Idle;
    }

    /** The `.catch` of `fetchListings`: a failed request or a non-ok status. */
    method OnListingsError()
      requires Valid() && pending == AwaitingListings
      modifies this
      ensures Valid()
      ensures !isLoading && pending == Idle
      ensures listings == old(listings) && showMap == old(showMap) && predictionResult == old(predictionResult)
      ensures minPredictionResult == old(minPredictionResult) && maxPredictionResult == old(maxPredictionResult)
      ensures Form() == old(Form()) && accuracyResult == old(accuracyResult)
    {
      isLoading := false;
      pending := Idle;
    }

    /** The six integer inputs of the form. */
    function Form(): Form
      reads this
    {
      (bedNumb, storyNumb, province, buildingType, amenities, parkingSize)
    }

    /** `predictionResult !== 0`: whether the result panel and the map section render. */
    predicate ShowsResult()
      reads this
    {
      predictionResult != 0.0
    }

    /**
     * The props of `<BudgetMap>`: it is rendered once a nonzero prediction is
     * shown and the listings request has finished, and it always receives the
     * ±200 window around the prediction and a truthy listings value.
     */
    function BudgetMapProps(): (props: Option<(real, real, Json)>)
      reads this
      requires Valid()
      ensures props.Some? <==> ShowsResult() && showMap
      ensures props.Some? ==> props.value == (minPredictionResult, maxPredictionResult, listings)
      ensures props.Some? ==> (props.value.0, props.value.1) == BudgetWindow(predictionResult)
      ensures props.Some? ==> props.value.0 <= predictionResult <= props.value.1
      ensures props.Some? ==> props.value.1 - props.value.0 == 2.0 * BudgetMargin
      ensures props.Some? ==> Truthy(props.value.2)
    {
      if ShowsResult() && showMap then Some((minPredictionResult, maxPredictionResult, listings)) else None
    }
  }

  /** A prediction of 0 is indistinguishable from none: nothing renders for it. */
  lemma ZeroPredictionHidden(page: PredictionPage)
    requires page.Valid() && page.predictionResult == 0.0
    ensures !page.ShowsResult()
    ensures page.predicted ==> page.minPredictionResult == -BudgetMargin && page.maxPredictionResult == BudgetMargin
  {
  }
}
