/**
 * A listing record as the pages read it, and the two field extractors shared by
 * the listings page and the map: `extractPrice` and `handBedroomNumber`.
 */
module Listing {
  import opened Wrappers
  import opened JsText
  import opened Json

  /**
   * The fields of one upstream listing that the pipeline reads. Text fields hold
   * JSON strings; `id`, `latitude` and `longitude` keep the raw JSON value, since
   * only their truthiness, equality and numeric parse matter.
   */
  datatype Listing = Listing(
    id: Json,                    // `Id`
    address: Option<string>,     // `Property.Address.AddressText`
    leaseRent: Option<string>,   // `Property.LeaseRent`, e.g. "$1,500"
    bedrooms: Option<string>,    // `Building.Bedrooms`, e.g. "2+1"
    buildingType: Option<string>,// `Building.Type`
    bathrooms: Option<string>,   // `Building.BathroomTotal`
    latitude: Json,              // `Property.Address.Latitude`
    longitude: Json)             // `Property.Address.Longitude`

  function TextField(v: Json, key: string): Option<string> {
    match Get(v, key)
    case Some(JString(s)) => Some(s)
    case _ => None
  }

  /** A raw field; `undefined` and `null` are both JNull here, as both are falsy and parse to NaN. */
  function RawField(v: Json, key: string): Json {
    Get(v, key).GetOr(JNull)
  }

  /** Field `f` was read off `v[key]`: present exactly when that is a JSON string, and then that string. */
  predicate ReadsText(v: Json, key: string, f: Option<string>) {
    && (f.Some? <==> v.JObject? && key in v.fields && v.fields[key].JString?)
    && (f.Some? ==> v.fields[key] == JString(f.value))
  }

  /**
   * Reads the listing fields off one element of the upstream array. An element
   * that is not an object has no fields at all.
   */
  function Lift(v: Json): (l: Listing)
    ensures !v.JObject? ==> l == Listing(JNull, None, None, None, None, None, JNull, JNull)
    ensures v.JObject? && "Id" in v.fields ==> l.id == v.fields["Id"]
    ensures ReadsText(v, "Property.Address.AddressText", l.address)
    ensures ReadsText(v, "Property.LeaseRent", l.leaseRent)
    ensures ReadsText(v, "Building.Bedrooms", l.bedrooms)
    ensures ReadsText(v, "Building.Type", l.buildingType)
    ensures ReadsText(v, "Building.BathroomTotal", l.bathrooms)
  {
    Listing(
      RawField(v, "Id"),
      TextField(v, "Property.Address.AddressText"),
      TextField(v, "Property.LeaseRent"),
      TextField(v, "Building.Bedrooms"),
      TextField(v, "Building.Type"),
      TextField(v, "Building.BathroomTotal"),
      RawField(v, "Property.Address.Latitude"),
      RawField(v, "Property.Address.Longitude"))
  }

  /** `field || fallback` on a text field: the fallback replaces a missing or empty string. */
  function OrText(field: Option<string>, fallback: string): string {
    if field.Some? && field.value != "" then field.value else fallback
  }

  // ------------------------------------------------- the price regular expression

  predicate IsPriceChar(c: char) { IsDigit(c) || c == ',' }

  predicate AllPriceChars(s: string) {
    forall i | 0 <= i < |s| :: IsPriceChar(s[i])
  }

  /** The greedy `[\d,]*` at the start of `s`. */
  function PriceRun(s: string): (g: string)
    ensures |g| <= |s| && g == s[..|g|] && AllPriceChars(g)
    ensures |g| < |s| ==> !IsPriceChar(s[|g|])
    decreases |s|
  {
    if s != [] && IsPriceChar(s[0]) then [s[0]] + PriceRun(s[1..]) else []
  }

  /** The capture group of `/\$?([\d,]+)/` for a match starting at position `i`, if one does. */
  function MatchAt(s: string, i: nat): (g: Option<string>)
    requires i < |s|
    ensures g.Some? ==> g.value != [] && AllPriceChars(g.value)
    ensures IsPriceChar(s[i]) ==> g.Some?
  {
    if s[i] == '$' && i + 1 < |s| && IsPriceChar(s[i + 1]) then Some(PriceRun(s[i + 1..]))
    else if IsPriceChar(s[i]) then Some(PriceRun(s[i..]))
    else None
  }

  function MatchFrom(s: string, i: nat): (g: Option<string>)
    requires i <= |s|
    ensures g.Some? ==> g.value != [] && AllPriceChars(g.value)
    decreases |s| - i
  {
    if i == |s| then None
    else match MatchAt(s, i)
      case Some(g) => Some(g)
      case None => MatchFrom(s, i + 1)
  }

  /** `s.match(/\$?([\d,]+)/)`: the leftmost match's first group, or null. */
  function PriceMatch(s: string): (g: Option<string>)
    ensures g.Some? ==> g.value != [] && AllPriceChars(g.value)
  {
    MatchFrom(s, 0)
  }

  lemma {:induction false} MatchFromFirstRun(s: string, i: nat, j: nat)
    requires i <= j < |s| && IsPriceChar(s[j])
    requires forall k | i <= k < j :: !IsPriceChar(s[k])
    ensures MatchFrom(s, i) == Some(PriceRun(s[j..]))
    decreases j - i
  {
    if i < j {
      if s[i] == '$' && i + 1 < |s| && IsPriceChar(s[i + 1]) {
        assert i + 1 == j;
      } else {
        MatchFromFirstRun(s, i + 1, j);
      }
    }
  }

  lemma {:induction false} MatchFromNone(s: string, i: nat)
    requires i <= |s|
    ensures MatchFrom(s, i) == None <==> forall k | i <= k < |s| :: !IsPriceChar(s[k])
    decreases |s| - i
  {
    if i < |s| {
      MatchFromNone(s, i + 1);
      if IsPriceChar(s[i]) {
        assert MatchAt(s, i).Some?;
      }
    }
  }

  /**
   * The optional `$` never changes what is captured: the group is the maximal run
   * of digits and commas that starts at the first digit or comma of `s`.
   */
  lemma PriceMatchIsFirstRun(s: string, j: nat)
    requires j < |s| && IsPriceChar(s[j])
    requires forall k | 0 <= k < j :: !IsPriceChar(s[k])
    ensures PriceMatch(s) == Some(PriceRun(s[j..]))
    ensures PriceRun(s[j..]) != []
  {
    MatchFromFirstRun(s, 0, j);
  }

  /** There is no match exactly when `s` has no digit and no comma. */
  lemma PriceMatchNone(s: string)
    ensures PriceMatch(s) == None <==> forall k | 0 <= k < |s| :: !IsPriceChar(s[k])
  {
    MatchFromNone(s, 0);
  }

  /** `.replace(/,/g, '')`. */
  function RemoveCommas(g: string): (d: string)
    ensures AllPriceChars(g) ==> AllDigits(d)
    ensures |d| <= |g|
    decreases |g|
  {
    if g == [] then []
    else if g[0] == ',' then RemoveCommas(g[1..])
    else [g[0]] + RemoveCommas(g[1..])
  }

  /** The digits of a match: the group without its commas. */
  function MatchDigits(s: string): (d: string)
    requires PriceMatch(s).Some?
    ensures AllDigits(d)
  {
    var g := PriceMatch(s).value;
    assert AllPriceChars(g) by {
      if forall k | 0 <= k < |s| :: !IsPriceChar(s[k]) {
        PriceMatchNone(s);
      } else {
        var j := FirstPriceIndex(s, 0);
        PriceMatchIsFirstRun(s, j);
      }
    }
    RemoveCommas(g)
  }

  /** The index of the first digit or comma at or after `i`. */
  function FirstPriceIndex(s: string, i: nat): (j: nat)
    requires i <= |s| && exists k | i <= k < |s| :: IsPriceChar(s[k])
    ensures i <= j < |s| && IsPriceChar(s[j])
    ensures forall k | i <= k < j :: !IsPriceChar(s[k])
    decreases |s| - i
  {
    if IsPriceChar(s[i]) then i else FirstPriceIndex(s, i + 1)
  }

  /**
   * `extractPrice(priceString)`: the integer value of the first run of digits
   * and commas, 0 when there is none, NaN when that run is all commas.
   */
  function ExtractPrice(s: string): (r: Num)
    ensures r.Int? ==> r.value >= 0
  {
    match PriceMatch(s)
    case None => Int(0)
    case Some(_) =>
      var d := MatchDigits(s);
      ParseIntOfDigits(d);
      ParseInt(d)
  }

  /** Once the regex has matched, the price is `parseInt` of the group without its commas. */
  lemma ExtractPriceOfMatch(s: string, g: string)
    requires PriceMatch(s) == Some(g)
    ensures MatchDigits(s) == RemoveCommas(g) && AllDigits(RemoveCommas(g))
    ensures ExtractPrice(s) == if RemoveCommas(g) == [] then NaN else Int(DigitsValue(RemoveCommas(g)))
  {
    ParseIntOfDigits(MatchDigits(s));
  }

  /** Text with no digit and no comma ("Contact for price", "") is priced 0. */
  lemma ExtractPriceAbsent(s: string)
    requires forall k | 0 <= k < |s| :: !IsPriceChar(s[k])
    ensures ExtractPrice(s) == Int(0)
  {
    PriceMatchNone(s);
  }

  /** A run made of commas only is captured but parses to NaN. */
  lemma ExtractPriceCommas(p: string, g: string, q: string)
    requires forall k | 0 <= k < |p| :: !IsPriceChar(p[k])
    requires g != [] && forall k | 0 <= k < |g| :: g[k] == ','
    requires q == [] || !IsPriceChar(q[0])
    ensures ExtractPrice(p + g + q).NaN?
  {
    MatchOfRun(p, g, q);
    CommasOnly(g);
    ExtractPriceOfMatch(p + g + q, g);
  }

  lemma {:induction false} CommasOnly(g: string)
    requires forall k | 0 <= k < |g| :: g[k] == ','
    ensures RemoveCommas(g) == []
    decreases |g|
  {
    if g != [] {
      CommasOnly(g[1..]);
    }
  }

  /** A display price: text without digits or commas, a run of digits and commas, then anything not continuing the run. */
  lemma ExtractPriceOfRun(p: string, g: string, q: string)
    requires forall k | 0 <= k < |p| :: !IsPriceChar(p[k])
    requires g != [] && AllPriceChars(g) && RemoveCommas(g) != []
    requires q == [] || !IsPriceChar(q[0])
    ensures ExtractPrice(p + g + q) == Int(DigitsValue(RemoveCommas(g)))
  {
    MatchOfRun(p, g, q);
    ExtractPriceOfMatch(p + g + q, g);
  }

  /** The regex captures the whole run that follows a prefix without digits or commas. */
  lemma MatchOfRun(p: string, g: string, q: string)
    requires forall k | 0 <= k < |p| :: !IsPriceChar(p[k])
    requires g != [] && AllPriceChars(g)
    requires q == [] || !IsPriceChar(q[0])
    ensures PriceMatch(p + g + q) == Some(g)
  {
    var s := p + g + q;
    assert s[|p|] == g[0];
    forall k | 0 <= k < |p|
      ensures !IsPriceChar(s[k])
    {
      assert s[k] == p[k];
    }
    PriceMatchIsFirstRun(s, |p|);
    assert s[|p|..] == g + q;
    PriceRunOf(g, q);
  }

  lemma {:induction false} PriceRunOf(g: string, q: string)
    requires AllPriceChars(g)
    requires q == [] || !IsPriceChar(q[0])
    ensures PriceRun(g + q) == g
    decreases |g|
  {
    if g == [] {
      assert g + q == q;
    } else {
      assert (g + q)[1..] == g[1..] + q;
      PriceRunOf(g[1..], q);
    }
  }

  /** "$1,500" is priced 1500. */
  lemma ExtractPriceExample(price: string)
    requires price == "$1,500"
    ensures ExtractPrice(price) == Int(1500)
  {
    var g := "1,500";
    ThousandsRun(g);
    assert price == "$" + g + "";
    ExtractPriceOfRun("$", g, "");
  }

  lemma ThousandsRun(g: string)
    requires g == "1,500"
    ensures AllPriceChars(g) && RemoveCommas(g) == "1500"
    ensures DigitsValue(RemoveCommas(g)) == 1500
  {
    assert RemoveCommas(g) == "1500" by {
      assert g[1..] == ",500" && ",500"[1..] == "500";
      assert "500"[1..] == "00" && "00"[1..] == "0" && "0"[1..] == "";
    }
    assert DigitsValue("1500") == 1500 by {
      assert "1500"[..3] == "150";
      assert "150"[..2] == "15";
      assert "15"[..1] == "1";
    }
  }

  /** The fallbacks: a price on request is priced 0, a lone comma is NaN. */
  lemma ExtractPriceFallbacks(onRequest: string, comma: string)
    requires onRequest == "Contact for price" && comma == "$,"
    ensures ExtractPrice(onRequest) == Int(0)
    ensures ExtractPrice(comma).NaN?
  {
    forall k | 0 <= k < |onRequest|
      ensures !IsPriceChar(onRequest[k])
    {
    }
    ExtractPriceAbsent(onRequest);
    assert comma == "$" + "," + "";
    ExtractPriceCommas("$", ",", "");
  }

  // ---------------------------------------------------------- bedroom notation

  lemma NoPlusInNumeral(n: Num)
    ensures '+' !in NumToString(n)
  {
    match n
    case NaN =>
    case Int(i) =>
      var digits := NatToString(if i < 0 then -i else i);
      assert forall k | 0 <= k < |digits| :: digits[k] != '+';
  }

  /**
   * `handBedroomNumber(bedroom)`: "a+b" becomes the string of `Number(a) + Number(b)`,
   * parts after the second ignored; text without '+' comes back unchanged. A
   * missing field throws, as `.includes` is read off `undefined`.
   */
  function HandBedroomNumber(bedroom: Option<string>): (r: Result<string>)
    ensures bedroom.None? <==> r.Err?
    ensures bedroom.Some? && '+' !in bedroom.value ==> r == Ok(bedroom.value)
    ensures r.Ok? ==> '+' !in r.value
  {
    match bedroom
    case None => Err(TypeError)
    case Some(s) =>
      if '+' in s then
        var parts := Split(s, '+');
        var sum := Add(NumberOf(parts[0]), NumberOf(parts[1]));
        NoPlusInNumeral(sum);
        Ok(NumToString(sum))
      else Ok(s)
  }

  /** How `split('+')` cuts "a+b" and "a+b+...": its first two parts are a and b. */
  lemma SplitSummands(x: string, y: string, rest: string)
    requires '+' !in x && '+' !in y
    requires rest == [] || rest[0] == '+'
    ensures Split(x + "+" + y + rest, '+')[..2] == [x, y]
  {
    assert x + "+" + y + rest == x + ['+'] + (y + rest);
    SplitAtFirst(x, '+', y + rest);
    if rest == [] {
      assert y + rest == y;
      SplitWithout(y, '+');
    } else {
      assert y + rest == y + ['+'] + rest[1..];
      SplitAtFirst(y, '+', rest[1..]);
    }
  }

  /** Text with a '+' is replaced by the string of the sum of its first two parts. */
  lemma HandBedroomOfParts(s: string)
    requires '+' in s
    ensures |Split(s, '+')| >= 2
    ensures HandBedroomNumber(Some(s))
      == Ok(NumToString(Add(NumberOf(Split(s, '+')[0]), NumberOf(Split(s, '+')[1]))))
  {
  }

  /** "a+b" (optionally followed by more "+..." parts) gives the numeral of a + b. */
  lemma HandBedroomSum(a: int, b: int, rest: string)
    requires rest == [] || rest[0] == '+'
    ensures HandBedroomNumber(Some(IntToString(a) + "+" + IntToString(b) + rest)) == Ok(IntToString(a + b))
  {
    var x := IntToString(a);
    var y := IntToString(b);
    NoPlusInNumeral(Int(a));
    NoPlusInNumeral(Int(b));
    var s := x + "+" + y + rest;
    SplitSummands(x, y, rest);
    assert '+' in s by { assert s[|x|] == '+'; }
    HandBedroomOfParts(s);
    var parts := Split(s, '+');
    assert parts[0] == x && parts[1] == y by {
      assert parts[..2][0] == parts[0] && parts[..2][1] == parts[1];
    }
    NumberOfRoundTrip(a);
    NumberOfRoundTrip(b);
    SumOfNumbers(NumberOf(x), NumberOf(y), a, b);
  }

  lemma SumOfNumbers(m: Num, n: Num, a: int, b: int)
    requires m == Int(a) && n == Int(b)
    ensures NumToString(Add(m, n)) == IntToString(a + b)
  {
  }

  /** Summing is idempotent: a result has no '+' left to sum. */
  lemma HandBedroomIdempotent(s: string)
    ensures HandBedroomNumber(Some(s)).Ok?
    ensures HandBedroomNumber(Some(HandBedroomNumber(Some(s)).value)) == HandBedroomNumber(Some(s))
  {
  }

  lemma SmallNumerals()
    ensures IntToString(1) == "1" && IntToString(2) == "2" && IntToString(3) == "3"
  {
    assert NatToString(1) == [DigitChar(1)];
    assert NatToString(2) == [DigitChar(2)];
    assert NatToString(3) == [DigitChar(3)];
  }

  lemma HandBedroomExamples(twoPlusOne: string, four: string)
    requires twoPlusOne == "2+1" && four == "4"
    ensures HandBedroomNumber(Some(twoPlusOne)) == Ok("3")
    ensures HandBedroomNumber(Some(four)) == Ok("4")
  {
    SmallNumerals();
    assert twoPlusOne == IntToString(2) + "+" + IntToString(1) + "";
    HandBedroomSum(2, 1, "");
    assert IntToString(2 + 1) == "3";
    assert '+' !in four by { assert four[0] != '+'; }
  }

  /** Parts after the second are dropped: "1+1+1" counts as 2. */
  lemma HandBedroomDropsThirdPart(three: string)
    requires three == "1+1+1"
    ensures HandBedroomNumber(Some(three)) == Ok("2")
  {
    SmallNumerals();
    var rest := "+1";
    assert rest[0] == '+';
    assert three == IntToString(1) + "+" + IntToString(1) + rest;
    HandBedroomSum(1, 1, rest);
    assert IntToString(1 + 1) == "2";
  }
}
