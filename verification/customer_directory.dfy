/**
 The customer directory the handler reads: the array loaded from the
 configuration file, and the lookup `config.filter(...)[0]` that picks the
 entry whose name equals the requested one up to case.
 */
module CustomerDirectory {
  import opened JsValues

  datatype OutputFormat = JsonOutput | XmlOutput

  /**
   One entry of the configuration array. `apiKey` is read from the process
   environment at start-up and is `None` when the variable is not set.
   */
  datatype CustomerConfig = CustomerConfig(
    name: string,
    apiKey: Option<string>,
    language: string,
    placeType: string,
    requestNumber: nat,
    responseOutput: OutputFormat)

  /** The callback of the filter: `entry.name.toUpperCase() === customer.toUpperCase()`. */
  predicate NameMatches(entry: CustomerConfig, customer: string) {
    Upper(entry.name) == Upper(customer)
  }

  /** `directory.filter(...)`: the matching entries, in directory order. */
  function Filter(directory: seq<CustomerConfig>, customer: string): (r: seq<CustomerConfig>)
    ensures |r| <= |directory|
    ensures forall c :: c in r <==> c in directory && NameMatches(c, customer)
  {
    if directory == [] then []
    else if NameMatches(directory[0], customer) then [directory[0]] + Filter(directory[1..], customer)
    else Filter(directory[1..], customer)
  }

  /** `filter(...)[0]`, with `None` for the `undefined` of an empty filter result. */
  function Lookup(directory: seq<CustomerConfig>, customer: string): (r: Option<CustomerConfig>)
    ensures r.Some? ==> r.value in directory && NameMatches(r.value, customer)
  {
    var matches := Filter(directory, customer);
    if |matches| == 0 then None else Some(matches[0])
  }

  /** Entry `i` matches and no earlier entry does. */
  ghost predicate FirstMatchAt(directory: seq<CustomerConfig>, customer: string, i: int) {
    0 <= i < |directory| && NameMatches(directory[i], customer)
    && forall j :: 0 <= j < i ==> !NameMatches(directory[j], customer)
  }

  /**
   The lookup fails exactly when no entry matches, and otherwise returns the
   first matching entry in directory order, however many entries match.
   */
  lemma {:induction false} LookupIsFirstMatch(directory: seq<CustomerConfig>, customer: string)
    ensures Lookup(directory, customer).None?
            <==> forall i :: 0 <= i < |directory| ==> !NameMatches(directory[i], customer)
    ensures forall i :: FirstMatchAt(directory, customer, i) ==>
              Lookup(directory, customer) == Some(directory[i])
    ensures Lookup(directory, customer).Some? ==>
              exists i :: FirstMatchAt(directory, customer, i) &&
                Lookup(directory, customer).value == directory[i]
  {
    if directory == [] {
    } else if NameMatches(directory[0], customer) {
      assert FirstMatchAt(directory, customer, 0);
      forall i | FirstMatchAt(directory, customer, i)
        ensures i == 0
      {
      }
    } else {
      var rest := directory[1..];
      LookupIsFirstMatch(rest, customer);
      assert Lookup(directory, customer) == Lookup(rest, customer);
      forall i | FirstMatchAt(directory, customer, i)
        ensures Lookup(directory, customer) == Some(directory[i])
      {
        assert i != 0;
        assert FirstMatchAt(rest, customer, i - 1);
      }
      if Lookup(directory, customer).Some? {
        var k :| FirstMatchAt(rest, customer, k) && Lookup(rest, customer).value == rest[k];
        assert FirstMatchAt(directory, customer, k + 1);
      }
      forall i | 0 <= i < |directory| && NameMatches(directory[i], customer)
        ensures Lookup(directory, customer).Some?
      {
        assert i != 0 && NameMatches(rest[i - 1], customer);
      }
    }
  }

  /** Names that differ only in ASCII case select the same entries. */
  lemma {:induction false} FilterIgnoresCase(directory: seq<CustomerConfig>, a: string, b: string)
    requires EqualIgnoringCase(a, b)
    ensures Filter(directory, a) == Filter(directory, b)
  {
    UpperEqualIffEqualIgnoringCase(a, b);
    if directory != [] {
      FilterIgnoresCase(directory[1..], a, b);
    }
  }

  /** So the lookup cannot tell "Sunrise Bank", "sunrise bank" and "SUNRISE BANK" apart. */
  lemma LookupIgnoresCase(directory: seq<CustomerConfig>, a: string, b: string)
    requires EqualIgnoringCase(a, b)
    ensures Lookup(directory, a) == Lookup(directory, b)
  {
    FilterIgnoresCase(directory, a, b);
  }

  /**
   Matching is exact: an entry matches only a name of the same length that
   agrees with it at every position up to case; there are no partial matches.
   */
  lemma MatchIsExact(entry: CustomerConfig, customer: string)
    ensures NameMatches(entry, customer) <==> EqualIgnoringCase(entry.name, customer)
    ensures NameMatches(entry, customer) ==> |entry.name| == |customer|
  {
    UpperEqualIffEqualIgnoringCase(entry.name, customer);
  }
}
