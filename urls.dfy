/** The request URLs the page sends to the movie database. The parts are joined
    as they are, with no percent-encoding, so a term that holds `&` changes the
    query the service reads. `ReadSearchQuery` and `ReadDetailQuery` are the
    inverse: they read the parameters back by splitting at `&`. */
module Urls {
  import opened Records

  const SearchBase := "https://www.omdbapi.com/?s="
  const YearKey := "&y="
  const SearchTail := "&r=json"
  const DetailBase := "https://www.omdbapi.com/?i="
  const DetailTail := "&y=&plot=full&r=json"

  /** The search request for a term and an optional (possibly empty) year. */
  function SearchUrl(term: string, year: string): string
  {
    SearchBase + term + YearKey + year + SearchTail
  }

  /** The detail request for one movie id; the year parameter is sent empty. */
  function DetailUrl(id: string): string
  {
    DetailBase + id + "&y=" + "&plot=full" + "&r=json"
  }

  /** The value of a query parameter: the longest prefix of `s` without `&`. */
  function ParamValue(s: string): (v: string)
    ensures v <= s && '&' !in v
    ensures |v| < |s| ==> s[|v|] == '&'
  {
    if s == [] || s[0] == '&' then [] else [s[0]] + ParamValue(s[1..])
  }

  /** What a reader splitting at `&` takes as the `s` and `y` parameters of a search URL. */
  function ReadSearchQuery(u: string): (r: Option<(string, string)>)
    ensures r.Some? ==> '&' !in r.value.0 && '&' !in r.value.1
  {
    if !(SearchBase <= u) then None
    else
      var rest := u[|SearchBase|..];
      var term := ParamValue(rest);
      var afterTerm := rest[|term|..];
      if !(YearKey <= afterTerm) then None
      else
        var yearPart := afterTerm[|YearKey|..];
        var year := ParamValue(yearPart);
        if yearPart[|year|..] == SearchTail then Some((term, year)) else None
  }

  /** What a reader splitting at `&` takes as the `i` parameter of a detail URL. */
  function ReadDetailQuery(u: string): (r: Option<string>)
    ensures r.Some? ==> '&' !in r.value
  {
    if !(DetailBase <= u) then None
    else
      var rest := u[|DetailBase|..];
      var id := ParamValue(rest);
      if rest[|id|..] == DetailTail then Some(id) else None
  }

  /** A value without `&` followed by `&` is read back exactly. */
  lemma ParamValueOf(v: string, rest: string)
    requires '&' !in v
    ensures ParamValue(v + "&" + rest) == v
  {
    var s := v + "&" + rest;
    assert s[..|v|] == v && s[|v|] == '&';
  }

  /** The search URL is read back as the term and year it was built from
      exactly when neither of them holds `&`. */
  lemma SearchUrlRoundTrip(term: string, year: string)
    ensures ReadSearchQuery(SearchUrl(term, year)) == Some((term, year))
        <==> '&' !in term && '&' !in year
  {
    var u := SearchUrl(term, year);
    if '&' !in term && '&' !in year {
      assert SearchBase <= u;
      var rest := u[|SearchBase|..];
      assert rest == term + "&" + ("y=" + year + SearchTail);
      ParamValueOf(term, "y=" + year + SearchTail);
      var afterTerm := rest[|term|..];
      assert afterTerm == YearKey + year + SearchTail;
      var yearPart := afterTerm[|YearKey|..];
      assert yearPart == year + "&" + "r=json";
      ParamValueOf(year, "r=json");
      assert yearPart[|year|..] == SearchTail;
    }
  }

  /** The detail URL is read back as its id exactly when the id holds no `&`. */
  lemma DetailUrlRoundTrip(id: string)
    ensures ReadDetailQuery(DetailUrl(id)) == Some(id) <==> '&' !in id
  {
    var u := DetailUrl(id);
    assert u == DetailBase + id + DetailTail;
    if '&' !in id {
      assert DetailBase <= u;
      var rest := u[|DetailBase|..];
      assert rest == id + "&" + "y=&plot=full&r=json";
      ParamValueOf(id, "y=&plot=full&r=json");
      assert rest[|id|..] == DetailTail;
    }
  }

  /** Without encoding, two different searches can send the same URL:
      a term that carries `&y=` moves text into the year. */
  lemma SearchUrlAmbiguous(a: string, b: string, c: string)
    ensures SearchUrl(a + YearKey + b, c) == SearchUrl(a, b + YearKey + c)
  {
  }
}
