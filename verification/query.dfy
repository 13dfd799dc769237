/** `search` (app.py lines 47-55): the query parameters sent with the search
    request, after `requests` has dropped every parameter whose value is
    `None`. */
module Query {
  import opened Base
  import opened Text
  import opened Calendar

  /** The jurisdiction choices: "All" followed by the state codes. */
  const Jurisdictions: seq<string> := [
    "All", "AL", "AK", "AZ", "AR", "CA", "CO", "CT", "DE", "FL", "GA", "HI", "ID", "IL",
    "IN", "IA", "KS", "KY", "LA", "ME", "MD", "MA", "MI", "MN", "MS", "MO", "MT", "NE",
    "NV", "NH", "NJ", "NM", "NY", "NC", "ND", "OH", "OK", "OR", "PA", "RI", "SC", "SD",
    "TN", "TX", "UT", "VT", "VA", "WA", "WV", "WI", "WY"]

  const AllJurisdictions: string := "All"

  /** The result-count choices. */
  const ResultCounts: seq<nat> := [4, 8]

  /** The form's values at submission; an absent date is an empty picker. */
  datatype SearchForm = SearchForm(
    query: string,
    jurisdiction: string,
    after: Option<CalendarDate>,
    before: Option<CalendarDate>,
    count: nat)

  const ParamNames: set<string> := {"query", "api_key", "jurisdiction", "after_date", "before_date", "k"}

  /** The `params` dict literal of `search`, `None` values included. */
  function ParamDict(form: SearchForm, apiKey: string): (dict: map<string, Option<string>>)
  {
    map[
      "query" := Some(form.query),
      "api_key" := Some(apiKey),
      "jurisdiction" := if form.jurisdiction != AllJurisdictions then Some(Lower(form.jurisdiction)) else None,
      "after_date" := if form.after.Some? then Some(FormatIso(form.after.value)) else None,
      "before_date" := if form.before.Some? then Some(FormatIso(form.before.value)) else None,
      "k" := Some(NatToString(form.count))]
  }

  /** `requests` sends a parameter only when its value is not `None`. */
  function DropNone(dict: map<string, Option<string>>): (sent: map<string, string>)
    ensures forall k :: k in sent <==> k in dict && dict[k].Some?
    ensures forall k :: k in sent ==> dict[k] == Some(sent[k])
  {
    map k | k in dict && dict[k].Some? :: dict[k].value
  }

  /** The query parameters of the request `search` sends. */
  function SearchParams(form: SearchForm, apiKey: string): (p: map<string, string>)
    ensures p.Keys <= ParamNames
    ensures "query" in p && p["query"] == form.query
    ensures "api_key" in p && p["api_key"] == apiKey
    ensures "jurisdiction" in p <==> form.jurisdiction != AllJurisdictions
    ensures "jurisdiction" in p ==> p["jurisdiction"] == Lower(form.jurisdiction)
    ensures "after_date" in p <==> form.after.Some?
    ensures "before_date" in p <==> form.before.Some?
    ensures "k" in p && AllDigits(p["k"]) && DigitsValue(p["k"]) == form.count
  {
    DropNone(ParamDict(form, apiKey))
  }

  /** A date sent as a parameter is the `%Y-%m-%d` form of the picked date:
      it parses back to exactly that date. */
  lemma DateParamsRoundTrip(form: SearchForm, apiKey: string)
    ensures "after_date" in SearchParams(form, apiKey) ==>
      ParseIso(SearchParams(form, apiKey)["after_date"]) == form.after
    ensures "before_date" in SearchParams(form, apiKey) ==>
      ParseIso(SearchParams(form, apiKey)["before_date"]) == form.before
  {
    if form.after.Some? {
      ParseFormatIso(form.after.value);
    }
    if form.before.Some? {
      ParseFormatIso(form.before.value);
    }
  }

  /** Lower-casing loses nothing on codes made of capital letters: two codes
      that differ are sent as two different parameters. */
  lemma LowerInjective(a: string, b: string)
    requires forall i :: 0 <= i < |a| ==> IsUpper(a[i])
    requires forall i :: 0 <= i < |b| ==> IsUpper(b[i])
    requires Lower(a) == Lower(b)
    ensures a == b
  {
    forall i | 0 <= i < |a|
      ensures a[i] == b[i]
    {
      assert Lower(a)[i] == Lower(b)[i];
    }
  }

  /** A state code: two capital letters. */
  predicate IsStateCode(code: string) {
    |code| == 2 && IsUpper(code[0]) && IsUpper(code[1])
  }

  /** Every state code is sent as its two lower-case letters. */
  lemma StateCodeParam(form: SearchForm, apiKey: string)
    requires IsStateCode(form.jurisdiction)
    ensures |SearchParams(form, apiKey)["jurisdiction"]| == 2
    ensures forall i :: 0 <= i < 2 ==> 'a' <= SearchParams(form, apiKey)["jurisdiction"][i] <= 'z'
  {
  }

  /** The two result-count choices are sent as "4" and "8". */
  lemma CountParam(form: SearchForm, apiKey: string)
    requires form.count in ResultCounts
    ensures SearchParams(form, apiKey)["k"] == (if form.count == 4 then "4" else "8")
  {
  }

  /** "CA" is sent as "ca"; "All" sends no jurisdiction at all. */
  lemma JurisdictionExamples(query: string, apiKey: string)
    ensures SearchParams(SearchForm(query, "CA", None, None, 4), apiKey)["jurisdiction"] == "ca"
    ensures "jurisdiction" !in SearchParams(SearchForm(query, "All", None, None, 4), apiKey)
  {
    assert Lower("CA") == "ca";
  }
}
