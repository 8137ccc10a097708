# POST / request handler of the places-search gateway

The gateway has one route, `POST /`. Its handler reads `customer`, `latitude`
and `longitude` from the JSON body and checks them in a fixed order. Each
failing check sends one 400 response with a fixed plain-text message and
returns:

1. All three fields must be present and truthy. Otherwise it sends the
   missing-field message.
2. `parseFloat` of the latitude must be a number in [-90, 90]. Otherwise it
   sends "Latitude is not valid.".
3. `parseFloat` of the longitude must be a number in [-180, 180]. Otherwise
   it sends "Longitude is not valid.".
4. The customer name is looked up in the configuration array: an entry
   matches when `name.toUpperCase()` equals the requested name upper-cased,
   and the first match in array order is taken. If nothing matches it sends
   "Customer name is not valid.".

When the lookup succeeds, the handler body ends without sending anything.

The model is pure: datatypes, functions and lemmas, in three modules.

- `JsValues` (`js_values.dfy`) models the JavaScript side:
  - body field values (`Json`, with `None` for an absent key) and their truthiness;
  - `parseFloat` over the number type `Number` (NaN, finite, or an infinity);
  - the `>`, `<` and `isNaN` tests of the range checks;
  - ASCII `toUpperCase`.
- `CustomerDirectory` (`customer_directory.dfy`) holds the configuration entry,
  the filter callback, `filter(...)` and `filter(...)[0]`.
- `PostHandler` (`post_handler.dfy`) holds the handler:
  - `Decide` maps a body, the directory and the string parser to how the handler ends;
  - `Responses` lists what the handler sends;
  - `Handle` composes the two.

The directory is a parameter, because the configuration file is not part of
this model. The part of `parseFloat` that reads a string is a parameter too
(`parseText: string -> Number`). A field that already holds a JSON number is
passed through unchanged. Any other value is first converted to a string
(`"true"`, `"null"`, the `String(...)` text of an array or object) and read
through `parseText`. That conversion can throw for an array or object, for
example `{"toString": 1}`, whose `toString` is not a function; the model
keeps this as the outcome `CoordinateNotConvertible`. Both coordinates are
parsed (app.js:27-28) before either is range-checked, so a throwing longitude
pre-empts the latitude error.

Where the code and the repository's tests disagree, the model follows the
code:

- The tests expect HTTP 200 answers with JSON or XML for known customers
  (test/test.js:31-65). The handler has no code after the lookup, so a
  successful lookup sends no response.
- test/test.js:100 expects "Unable to find information for that customer."
  for an unknown customer. The code sends "Customer name is not valid."
  (app.js:43).
- test/test.js:88 expects the missing-field message to say "in a JSON body".
  The code says "in the URL of the request" (app.js:24). Both spell the
  word "requred".
- A truthy `customer` that is not a string, such as a number, makes
  `toUpperCase` throw a TypeError inside the filter callback. This happens
  only when the directory has at least one entry, because `filter` on an
  empty array never calls its callback. The model keeps this as the outcome
  `CustomerNotString`.

## Model

| member | source | states |
|---|---|---|
| `JsValues.Truthy` | app.js:23 | JavaScript truthiness of a body field; no contract of its own, the falsy values are listed by `JsValues.FalsyValues` |
| `JsValues.FalsyValues` | app.js:23 | a field is falsy exactly when it is absent, `null`, `false`, NaN, `0` or `""` |
| `JsValues.ParseFloat` | app.js:27-28 | `parseFloat` throws exactly on a value whose conversion to a string throws; a number is returned unchanged and a string is read by the string parser |
| `JsValues.Greater` | app.js:29 | JavaScript `>` against a constant, false on NaN; no contract of its own, see `JsValues.RejectedIffOutsideClosed` |
| `JsValues.Less` | app.js:29 | JavaScript `<` against a constant, false on NaN; no contract of its own, see `JsValues.RejectedIffOutsideClosed` |
| `JsValues.IsNaN` | app.js:29 | `isNaN` on a number; no contract of its own, see `JsValues.RejectedIffOutsideClosed` |
| `JsValues.RejectedIffOutsideClosed` | app.js:29-36 | the test as written (greater than b, or less than -b, or NaN) rejects exactly the values that are not finite numbers in the closed range [-b, b]; both bounds pass, NaN and both infinities fail |
| `JsValues.UpperChar` | app.js:39 | the result is never a lower-case ASCII letter; a lower-case letter is moved to its upper-case code point; every other character is kept |
| `JsValues.Upper` | app.js:39 | upper-casing keeps the length and upper-cases each position independently |
| `JsValues.UpperCharAgrees` | app.js:39 | two characters upper-case to the same one exactly when they are the same letter up to ASCII case |
| `JsValues.UpperEqualIffEqualIgnoringCase` | app.js:38-40 | comparing upper-cased strings is equality up to ASCII case: same length, and each position the same letter in either case (both directions) |
| `CustomerDirectory.Filter` | app.js:38-40 | the filter result is no longer than the directory and holds exactly the directory entries whose name matches the requested one |
| `CustomerDirectory.NameMatches` | app.js:39 | the filter callback; no contract of its own, its meaning is stated by `CustomerDirectory.MatchIsExact` |
| `CustomerDirectory.Lookup` | app.js:38-42 | `filter(...)[0]`: a result is a directory entry that matches the name; first-match order and the not-found case are stated by `CustomerDirectory.LookupIsFirstMatch` |
| `CustomerDirectory.LookupIsFirstMatch` | app.js:38-42 | `filter(...)[0]` is undefined exactly when no entry matches; otherwise it is the first matching entry in directory order, even when several match |
| `CustomerDirectory.FilterIgnoresCase` | app.js:38-40 | names equal up to ASCII case select the same entries, in the same order |
| `CustomerDirectory.LookupIgnoresCase` | app.js:38-42 | names equal up to ASCII case resolve to the same entry or to none |
| `CustomerDirectory.MatchIsExact` | app.js:39 | an entry matches exactly the names of its own length that agree with its name at every position up to case; there is no partial match |
| `PostHandler.LatitudeRejected` | app.js:29 | the latitude condition as written; no contract of its own, `PostHandler.LatitudeRule` states what it accepts |
| `PostHandler.LongitudeRejected` | app.js:33 | the longitude condition as written; no contract of its own, `PostHandler.LongitudeRule` states what it accepts |
| `PostHandler.Decide` | app.js:22-46 | the handler; no contract of its own, its behaviour is stated by `PostHandler.MissingFieldRule`, `PostHandler.ConversionRule`, `PostHandler.LatitudeRule`, `PostHandler.LongitudeRule`, `PostHandler.CustomerRule` and `PostHandler.NonStringCustomerRule` |
| `PostHandler.Handle` | app.js:22-46 | the responses of one request; no contract of its own, stated by `PostHandler.ErrorResponses` and `PostHandler.AtMostOneResponse` |
| `PostHandler.Responses` | app.js:22-46 | every ending sends at most one response, always with status 400; nothing is sent exactly when the handler runs to its end or throws (in `parseFloat` or in the filter callback) |
| `PostHandler.MissingFieldRule` | app.js:23-26 | the missing-field answer is given exactly when some field is absent or falsy, whatever the other fields hold, and it is the single 400 response with the fixed text |
| `PostHandler.ZeroCoordinateIsMissing` | app.js:23 | a latitude of the number 0 or a longitude of `""` counts as missing, before any range check |
| `PostHandler.ConversionRule` | app.js:27-28 | with all fields present, the handler throws from `parseFloat` exactly when a coordinate cannot be converted to a string, and then sends nothing, whatever the other coordinate holds |
| `PostHandler.LatitudeRule` | app.js:27-32 | with all fields present and both coordinates parsed, the latitude error is given exactly when the parsed latitude is not a finite number in [-90, 90] |
| `PostHandler.LongitudeRule` | app.js:33-36 | with both coordinates parsed and a valid latitude, the longitude error is given exactly when the parsed longitude is not a finite number in [-180, 180] |
| `PostHandler.LatitudeBeforeLongitude` | app.js:29-36 | when both coordinates are parsed and invalid, the single response is the latitude error |
| `PostHandler.CustomerRule` | app.js:37-45 | for validated fields and a string customer: the customer error is given exactly when no entry matches, and otherwise the handler ends with the first matching entry and the parsed coordinates |
| `PostHandler.NonStringCustomerRule` | app.js:38-40 | for validated fields and a customer that is not a string: the handler throws if the directory is non-empty, and gives the customer error if it is empty |
| `PostHandler.CustomerCaseIgnored` | app.js:38-40 | two customer names equal up to ASCII case lead to the same decision for the same coordinates and directory |
| `PostHandler.ErrorResponses` | app.js:24-44 | the missing-field, latitude, longitude and customer outcomes each send exactly one 400 response with their own fixed text |
| `PostHandler.AtMostOneResponse` | app.js:22-46 | a request gets at most one response from the handler, and none exactly when it resolves the customer or throws |
| `PostHandler.UnconvertibleLatitudeScenario` | app.js:23-27 | with a truthy customer and a truthy longitude, whatever values they hold, a truthy latitude whose string conversion throws makes the handler throw and send nothing |
| `PostHandler.UnparsableLatitudeScenario` | test/test.js:67-78 | a latitude of "ff" that parses to NaN gets the single response 400 "Latitude is not valid." |
| `PostHandler.MissingCustomerScenario` | test/test.js:80-89 | a body without `customer` gets the single response 400 with the handler's missing-field text |
| `PostHandler.UnknownCustomerScenario` | test/test.js:91-101 | with the three configured customers, "HappyCreditUnion" matches none and gets the single response 400 "Customer name is not valid." |
| `PostHandler.SunriseBankSpellings` | app.js:38-40 | with the three configured customers, "Sunrise Bank", "sunrise bank" and "SUNRISE BANK" all end the handler with the first entry and the parsed coordinates |
| `PostHandler.SunriseBankCase` | app.js:39 | "Sunrise Bank", "sunrise bank" and "SUNRISE BANK" are equal up to ASCII case |
| `PostHandler.NoPartialMatch` | app.js:39 | an entry named "Happy Credit Union" does not match the request "HappyCreditUnion" |

## Left out

- Express and body-parser setup, route registration, `app.listen` and the 404 for other routes (app.js:7-10, 19, 48-52): framework plumbing.
- The `.env` loading and the start-up assignment of `apiKey` from environment variables (app.js:4, 13-16): process bootstrap. The directory is a parameter, with `apiKey` as an optional string.
- The string parser inside `parseFloat`: it is the parameter `parseText`. The model does not say which strings parse to which numbers.
- `JsValues.Upper`: models only ASCII letters. Full Unicode `toUpperCase`, which can also change a string's length (for example "ß" becomes "SS"), is a library call of the JavaScript engine.
- What Express does after the handler throws, from `parseFloat` or from the filter callback (its default error handler answers on its own): framework behaviour outside the handler.
- How `String(...)` renders an array or object, and which ones make it throw: the `Composite` value carries the result of that conversion instead of the value's keys.
- The content type Express attaches to the text responses: framework behaviour; the model keeps only the status and the text.
- The upstream places search, status mapping, truncation and JSON/XML output: the handler contains none of these.
- The supertest HTTP harness in test/test.js: network test code. Its three error scenarios are restated as lemmas, with the messages the code actually sends.
