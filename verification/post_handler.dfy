/**
 The body of the `POST /` route: the presence check, the latitude and
 longitude range checks, and the customer lookup, each failing check
 answering with one 400 response and returning.
 */
module PostHandler {
  import opened JsValues
  import opened CustomerDirectory

  /** The three keys of the JSON request body the handler reads. */
  datatype Body = Body(customer: Option<Json>, latitude: Option<Json>, longitude: Option<Json>)

  /**
   How the handler ends. Two endings are exceptions, after which the handler
   sends nothing itself: `CoordinateNotConvertible` is the TypeError thrown
   by `parseFloat` when a coordinate cannot be converted to a string, and
   `CustomerNotString` is a truthy `customer` that is not a string, whose
   `toUpperCase` call in the filter callback throws. `Resolved` is the end of
   the handler body, reached with the configuration found and both
   coordinates validated.
   */
  datatype Decision =
    | MissingField
    | CoordinateNotConvertible
    | InvalidLatitude
    | InvalidLongitude
    | CustomerNotFound
    | CustomerNotString
    | Resolved(config: CustomerConfig, latitude: real, longitude: real)

  datatype Response = Response(status: nat, text: string)

  const MissingFieldText: string :=
    "Customer name, latitude, and longitude requred. Please send these in the URL of the request using the keys \"customer\", \"latitude\", and \"longitude\"."
  const InvalidLatitudeText: string := "Latitude is not valid."
  const InvalidLongitudeText: string := "Longitude is not valid."
  const CustomerNotFoundText: string := "Customer name is not valid."

  /** The condition of the latitude check, as written: `lat > 90 || lat < -90 || isNaN(lat)`. */
  predicate LatitudeRejected(lat: Number) {
    Greater(lat, 90.0) || Less(lat, -90.0) || IsNaN(lat)
  }

  /** The condition of the longitude check, as written: `lng > 180 || lng < -180 || isNaN(lng)`. */
  predicate LongitudeRejected(lng: Number) {
    Greater(lng, 180.0) || Less(lng, -180.0) || IsNaN(lng)
  }

  /** The route handler, from the request body to how it ends. */
  function Decide(body: Body, directory: seq<CustomerConfig>, parseText: string -> Number): Decision {
    if !Truthy(body.customer) || !Truthy(body.latitude) || !Truthy(body.longitude) then
      MissingField
    else
      var parsedLat := ParseFloat(body.latitude.value, parseText);
      var parsedLng := ParseFloat(body.longitude.value, parseText);
      if parsedLat.None? || parsedLng.None? then
        // both coordinates are parsed before either is tested
        CoordinateNotConvertible
      else
        var lat, lng := parsedLat.value, parsedLng.value;
        if LatitudeRejected(lat) then
          InvalidLatitude
        else if LongitudeRejected(lng) then
          InvalidLongitude
        else if directory != [] && !body.customer.value.Str? then
          // the callback runs for the first entry and calls toUpperCase on a non-string
          CustomerNotString
        else
          var name := if body.customer.value.Str? then body.customer.value.s else "";
          match Lookup(directory, name)
          case None => CustomerNotFound
          case Some(config) => Resolved(config, lat.value, lng.value)
  }

  /** The handler ends by throwing an exception. */
  predicate Throws(d: Decision) {
    d.CoordinateNotConvertible? || d.CustomerNotString?
  }

  /**
   The responses the handler itself sends: one for each early return, none
   when it runs to its end or throws.
   */
  function Responses(d: Decision): (sent: seq<Response>)
    ensures |sent| <= 1
    ensures forall r :: r in sent ==> r.status == 400
    ensures sent == [] <==> d.Resolved? || Throws(d)
  {
    match d
    case MissingField => [Response(400, MissingFieldText)]
    case CoordinateNotConvertible => []
    case InvalidLatitude => [Response(400, InvalidLatitudeText)]
    case InvalidLongitude => [Response(400, InvalidLongitudeText)]
    case CustomerNotFound => [Response(400, CustomerNotFoundText)]
    case CustomerNotString => []
    case Resolved(_, _, _) => []
  }

  /** One request, from the body to the responses the handler sends. */
  function Handle(body: Body, directory: seq<CustomerConfig>, parseText: string -> Number): seq<Response> {
    Responses(Decide(body, directory, parseText))
  }

  predicate AllPresent(body: Body) {
    Truthy(body.customer) && Truthy(body.latitude) && Truthy(body.longitude)
  }

  /** The fields are present and `parseFloat` returns for both coordinates. */
  predicate Converted(body: Body, parseText: string -> Number) {
    AllPresent(body)
    && ParseFloat(body.latitude.value, parseText).Some?
    && ParseFloat(body.longitude.value, parseText).Some?
  }

  /** The value of `parseFloat(req.body.latitude)`. */
  function LatitudeOf(body: Body, parseText: string -> Number): Number
    requires Converted(body, parseText)
  {
    ParseFloat(body.latitude.value, parseText).value
  }

  /** The value of `parseFloat(req.body.longitude)`. */
  function LongitudeOf(body: Body, parseText: string -> Number): Number
    requires Converted(body, parseText)
  {
    ParseFloat(body.longitude.value, parseText).value
  }

  /**
   A missing or falsy field gives the missing-field answer, whatever the other
   fields hold, and only a missing or falsy field gives it.
   */
  lemma MissingFieldRule(body: Body, directory: seq<CustomerConfig>, parseText: string -> Number)
    ensures Decide(body, directory, parseText) == MissingField <==> !AllPresent(body)
    ensures !AllPresent(body) ==>
              Handle(body, directory, parseText) == [Response(400, MissingFieldText)]
  {
  }

  /**
   A latitude or longitude of `0` or `""` counts as missing, even though 0 is
   inside both ranges.
   */
  lemma ZeroCoordinateIsMissing(customer: Json, other: Json, directory: seq<CustomerConfig>, parseText: string -> Number)
    ensures Decide(Body(Some(customer), Some(Num(Finite(0.0))), Some(other)), directory, parseText) == MissingField
    ensures Decide(Body(Some(customer), Some(other), Some(Str(""))), directory, parseText) == MissingField
  {
  }

  /**
   With all fields present, the handler throws from `parseFloat`, and sends
   nothing, exactly when one of the coordinates cannot be converted to a
   string. Both are parsed before the range checks, so a latitude that would
   fail its check does not get its error when the longitude throws.
   */
  lemma ConversionRule(body: Body, directory: seq<CustomerConfig>, parseText: string -> Number)
    requires AllPresent(body)
    ensures Decide(body, directory, parseText) == CoordinateNotConvertible
            <==> body.latitude.value == Composite(None) || body.longitude.value == Composite(None)
    ensures !Converted(body, parseText) ==> Handle(body, directory, parseText) == []
  {
  }

  /**
   With both coordinates parsed, the latitude error is given exactly when the
   parsed latitude is not a number in [-90, 90].
   */
  lemma LatitudeRule(body: Body, directory: seq<CustomerConfig>, parseText: string -> Number)
    requires Converted(body, parseText)
    ensures Decide(body, directory, parseText) == InvalidLatitude
            <==> !WithinClosed(LatitudeOf(body, parseText), 90.0)
  {
    RejectedIffOutsideClosed(LatitudeOf(body, parseText), 90.0);
  }

  /**
   With both coordinates parsed and the latitude valid, the longitude error
   is given exactly when the parsed longitude is not a number in [-180, 180].
   */
  lemma LongitudeRule(body: Body, directory: seq<CustomerConfig>, parseText: string -> Number)
    requires Converted(body, parseText)
    requires WithinClosed(LatitudeOf(body, parseText), 90.0)
    ensures Decide(body, directory, parseText) == InvalidLongitude
            <==> !WithinClosed(LongitudeOf(body, parseText), 180.0)
  {
    RejectedIffOutsideClosed(LatitudeOf(body, parseText), 90.0);
    RejectedIffOutsideClosed(LongitudeOf(body, parseText), 180.0);
  }

  /** Both coordinates parsed and invalid: the latitude error is the one reported. */
  lemma LatitudeBeforeLongitude(body: Body, directory: seq<CustomerConfig>, parseText: string -> Number)
    requires Converted(body, parseText)
    requires !WithinClosed(LatitudeOf(body, parseText), 90.0)
    requires !WithinClosed(LongitudeOf(body, parseText), 180.0)
    ensures Handle(body, directory, parseText) == [Response(400, InvalidLatitudeText)]
  {
    LatitudeRule(body, directory, parseText);
  }

  /** The fields are present and both coordinates are parsed and in range. */
  predicate Validated(body: Body, parseText: string -> Number) {
    Converted(body, parseText)
    && WithinClosed(LatitudeOf(body, parseText), 90.0)
    && WithinClosed(LongitudeOf(body, parseText), 180.0)
  }

  /**
   For a validated body with a string customer, the lookup decides: no
   matching entry gives the customer error, and otherwise the handler ends
   with the first matching entry and the parsed coordinates.
   */
  lemma CustomerRule(body: Body, directory: seq<CustomerConfig>, parseText: string -> Number)
    requires Validated(body, parseText) && body.customer.value.Str?
    ensures Decide(body, directory, parseText) == CustomerNotFound
            <==> forall i :: 0 <= i < |directory| ==> !NameMatches(directory[i], body.customer.value.s)
    ensures forall i :: FirstMatchAt(directory, body.customer.value.s, i) ==>
              Decide(body, directory, parseText) == Resolved(
                directory[i],
                LatitudeOf(body, parseText).value,
                LongitudeOf(body, parseText).value)
    ensures Decide(body, directory, parseText).Resolved? ==>
              exists i :: FirstMatchAt(directory, body.customer.value.s, i) &&
                Decide(body, directory, parseText).config == directory[i]
  {
    RejectedIffOutsideClosed(LatitudeOf(body, parseText), 90.0);
    RejectedIffOutsideClosed(LongitudeOf(body, parseText), 180.0);
    LookupIsFirstMatch(directory, body.customer.value.s);
  }

  /**
   For a validated body whose customer is truthy but not a string, the
   handler throws if the directory has an entry, and answers with the
   customer error if it has none.
   */
  lemma NonStringCustomerRule(body: Body, directory: seq<CustomerConfig>, parseText: string -> Number)
    requires Validated(body, parseText) && !body.customer.value.Str?
    ensures Decide(body, directory, parseText) == (if directory == [] then CustomerNotFound else CustomerNotString)
  {
    RejectedIffOutsideClosed(LatitudeOf(body, parseText), 90.0);
    RejectedIffOutsideClosed(LongitudeOf(body, parseText), 180.0);
  }

  /**
   A name that differs only in ASCII case leads to the same decision, so
   "Sunrise Bank", "sunrise bank" and "SUNRISE BANK" are handled alike.
   */
  lemma CustomerCaseIgnored(lat: Json, lng: Json, a: string, b: string, directory: seq<CustomerConfig>, parseText: string -> Number)
    requires EqualIgnoringCase(a, b)
    ensures Decide(Body(Some(Str(a)), Some(lat), Some(lng)), directory, parseText)
            == Decide(Body(Some(Str(b)), Some(lat), Some(lng)), directory, parseText)
  {
    LookupIgnoresCase(directory, a, b);
    assert a == "" <==> b == "";
  }

  /** Each early return sends its own fixed 400 text and nothing else. */
  lemma ErrorResponses(body: Body, directory: seq<CustomerConfig>, parseText: string -> Number)
    ensures Decide(body, directory, parseText) == MissingField ==>
              Handle(body, directory, parseText) == [Response(400, MissingFieldText)]
    ensures Decide(body, directory, parseText) == InvalidLatitude ==>
              Handle(body, directory, parseText) == [Response(400, InvalidLatitudeText)]
    ensures Decide(body, directory, parseText) == InvalidLongitude ==>
              Handle(body, directory, parseText) == [Response(400, InvalidLongitudeText)]
    ensures Decide(body, directory, parseText) == CustomerNotFound ==>
              Handle(body, directory, parseText) == [Response(400, CustomerNotFoundText)]
  {
  }

  /**
   The handler never sends more than one response: exactly one, with status
   400, when it returns early, and none when it reaches its end or throws.
   */
  lemma AtMostOneResponse(body: Body, directory: seq<CustomerConfig>, parseText: string -> Number)
    ensures |Handle(body, directory, parseText)| <= 1
    ensures Handle(body, directory, parseText) == []
            <==> Decide(body, directory, parseText).Resolved? || Throws(Decide(body, directory, parseText))
  {
  }

  /**
   A latitude such as `{"toString": 1}` is truthy, but `parseFloat` throws on
   it, so with a truthy customer and longitude the handler sends nothing,
   whatever truthy values those two hold.
   */
  lemma UnconvertibleLatitudeScenario(customer: Json, lng: Json, directory: seq<CustomerConfig>, parseText: string -> Number)
    requires Truthy(Some(customer)) && Truthy(Some(lng))
    ensures Decide(Body(Some(customer), Some(Composite(None)), Some(lng)), directory, parseText)
            == CoordinateNotConvertible
    ensures Handle(Body(Some(customer), Some(Composite(None)), Some(lng)), directory, parseText) == []
  {
  }

  /**
   A directory laid out as the start-up code expects it: the entries for
   Sunrise Bank, Happy Credit Union and Paris FCU, in that order (the other
   fields of each entry are not constrained).
   */
  predicate ThreeCustomers(directory: seq<CustomerConfig>) {
    |directory| == 3
    && directory[0].name == "Sunrise Bank"
    && directory[1].name == "Happy Credit Union"
    && directory[2].name == "Paris FCU"
  }

  /** The test's request with latitude "ff" gets the latitude error, as the test expects. */
  lemma UnparsableLatitudeScenario(directory: seq<CustomerConfig>, parseText: string -> Number)
    requires parseText("ff") == NaN
    ensures Handle(Body(Some(Str("Paris FCU")), Some(Str("ff")), Some(Num(Finite(-73.935242)))), directory, parseText)
            == [Response(400, "Latitude is not valid.")]
  {
  }

  /**
   The test's request without a customer gets the handler's missing-field
   text, which asks for the keys "in the URL of the request" where the test
   expects "in a JSON body".
   */
  lemma MissingCustomerScenario(directory: seq<CustomerConfig>, parseText: string -> Number)
    ensures Handle(Body(None, Some(Num(Finite(40.730610))), Some(Num(Finite(-73.935242)))), directory, parseText)
            == [Response(400, MissingFieldText)]
  {
  }

  /**
   The test's request for "HappyCreditUnion" matches no entry of the three
   and gets the handler's text "Customer name is not valid.", not the
   "Unable to find information for that customer." the test expects.
   */
  lemma UnknownCustomerScenario(directory: seq<CustomerConfig>, parseText: string -> Number, name: string)
    requires ThreeCustomers(directory)
    requires name == "HappyCreditUnion"
    ensures Handle(Body(Some(Str(name)), Some(Num(Finite(40.730610))), Some(Num(Finite(-73.935242)))), directory, parseText)
            == [Response(400, "Customer name is not valid.")]
  {
    var body := Body(Some(Str(name)), Some(Num(Finite(40.730610))), Some(Num(Finite(-73.935242))));
    MatchIsExact(directory[0], name);
    MatchIsExact(directory[1], name);
    MatchIsExact(directory[2], name);
    CustomerRule(body, directory, parseText);
  }

  /**
   With that directory, "Sunrise Bank", "sunrise bank" and "SUNRISE BANK" all
   end the handler with the first entry and the parsed coordinates.
   */
  lemma SunriseBankSpellings(directory: seq<CustomerConfig>, parseText: string -> Number, spelling: string)
    requires ThreeCustomers(directory)
    requires spelling == "Sunrise Bank" || spelling == "sunrise bank" || spelling == "SUNRISE BANK"
    ensures Decide(Body(Some(Str(spelling)), Some(Num(Finite(40.730610))), Some(Num(Finite(-73.935242)))), directory, parseText)
            == Resolved(directory[0], 40.730610, -73.935242)
  {
    var body := Body(Some(Str(spelling)), Some(Num(Finite(40.730610))), Some(Num(Finite(-73.935242))));
    SunriseBankCase(directory[0].name, spelling);
    MatchIsExact(directory[0], spelling);
    assert FirstMatchAt(directory, spelling, 0);
    CustomerRule(body, directory, parseText);
  }

  /** The three spellings agree with "Sunrise Bank" letter by letter up to case. */
  lemma SunriseBankCase(name: string, spelling: string)
    requires name == "Sunrise Bank"
    requires spelling == "Sunrise Bank" || spelling == "sunrise bank" || spelling == "SUNRISE BANK"
    ensures EqualIgnoringCase(name, spelling)
  {
    forall i | 0 <= i < |name|
      ensures SameIgnoringCase(name[i], spelling[i])
    {
    }
  }

  /** "HappyCreditUnion" and "Happy Credit Union" differ in length, so they never match. */
  lemma NoPartialMatch(entry: CustomerConfig, name: string)
    requires entry.name == "Happy Credit Union" && name == "HappyCreditUnion"
    ensures !NameMatches(entry, name)
  {
    MatchIsExact(entry, name);
  }
}
