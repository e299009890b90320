/** The page as an abstract state, and each handler of the page as a function
    from the state before to the state after. These functions are the
    specification the imperative handlers of `App.Page` are proved against. */
module Ui {
  import opened Records
  import opened Urls
  import opened Render
  import opened Clicks

  /** Everything the page shows: whether the overlay, `.main-content` and
      `#movies` are displayed, whether `.main-content` has the `loading` class,
      the rows of `#movies`, the search and year fields, and the overlay's fields. */
  datatype PageState = PageState(
    overlayShown: bool, mainShown: bool, moviesShown: bool, loading: bool,
    movies: seq<Entry>,
    search: string, year: string,
    detail: Description)

  /** The list region and the overlay are never displayed together. */
  predicate Exclusive(s: PageState)
  {
    !(s.overlayShown && s.mainShown)
  }

  /** What the page holds apart from which regions are displayed. */
  function Content(s: PageState): (seq<Entry>, string, string, Description)
  {
    (s.movies, s.search, s.year, s.detail)
  }

  // The three view toggles.

  function LoadingScreen(s: PageState): PageState
  {
    s.(moviesShown := false, loading := true)
  }

  function MainPage(s: PageState): PageState
  {
    s.(overlayShown := false, moviesShown := true, loading := false, mainShown := true)
  }

  function OverlayPage(s: PageState): PageState
  {
    s.(mainShown := false, loading := false, overlayShown := true)
  }

  /** Each toggle sets its own flags whatever the state before, changes no
      content, and showing the loading screen leaves the overlay and the main
      content as they were. */
  lemma TogglesSetTheirFlags(s: PageState)
    ensures var t := LoadingScreen(s);
      !t.moviesShown && t.loading && t.overlayShown == s.overlayShown && t.mainShown == s.mainShown
      && Content(t) == Content(s)
    ensures var t := MainPage(s);
      !t.overlayShown && t.mainShown && t.moviesShown && !t.loading && Content(t) == Content(s)
    ensures var t := OverlayPage(s);
      t.overlayShown && !t.mainShown && !t.loading && t.moviesShown == s.moviesShown
      && Content(t) == Content(s)
  {
  }

  lemma TogglesIdempotent(s: PageState)
    ensures LoadingScreen(LoadingScreen(s)) == LoadingScreen(s)
    ensures MainPage(MainPage(s)) == MainPage(s)
    ensures OverlayPage(OverlayPage(s)) == OverlayPage(s)
  {
  }

  // The handlers and their continuations.

  /** The search request in flight: its URL and the term and year it captured. */
  datatype SearchRequest = SearchRequest(url: string, term: string, year: string)

  /** The detail request in flight: its URL and the id it captured. */
  datatype DetailRequest = DetailRequest(url: string, id: Option<string>)

  /** The submit handler: the list is cleared first, whatever the term; an
      empty term then stops there, a non-empty one empties both fields, shows
      the loading screen and sends the search. */
  function Submitted(s: PageState): (r: (PageState, Option<SearchRequest>))
    ensures r.0.movies == []
    ensures r.1.None? <==> s.search == ""
    ensures s.search == "" ==> r.0 == s.(movies := [])
    ensures s.search != "" ==>
      r.1 == Some(SearchRequest(SearchUrl(s.search, s.year), s.search, s.year))
      && r.0 == LoadingScreen(s).(movies := [], search := "", year := "")
  {
    var cleared := s.(movies := []);
    if s.search == "" then (cleared, None)
    else
      var request := SearchRequest(SearchUrl(s.search, s.year), s.search, s.year);
      (LoadingScreen(cleared.(search := "", year := "")), Some(request))
  }

  /** The search continuation: back to the list, then the rows of the answer
      are added to whatever the list holds. */
  function SearchArrived(s: PageState, req: SearchRequest, data: SearchResponse): PageState
  {
    MainPage(s).(movies := s.movies + SearchEntries(req.term, data))
  }

  /** The click handler on `#movies`: resolves the id, shows the loading screen
      and sends the detail request. */
  function Clicked(s: PageState, t: ClickTarget): (PageState, DetailRequest)
  {
    var id := ClickedId(t);
    (LoadingScreen(s), DetailRequest(DetailUrl(IdText(id)), id))
  }

  /** The detail continuation: shows the overlay and fills it. */
  function DetailArrived(s: PageState, req: DetailRequest, d: Detail): PageState
  {
    OverlayPage(s).(detail := MovieDescription(d, IdText(req.id)))
  }

  /** The back button of the overlay. */
  function BackPressed(s: PageState): PageState
  {
    MainPage(s)
  }

  // Properties of runs of the handlers.

  /** A search that is answered leaves exactly its own rows in the list, in
      the order of the answer: nothing drawn before the submit survives. */
  lemma AnsweredSearchShowsOnlyItsRows(s: PageState, data: SearchResponse)
    requires s.search != ""
    ensures Submitted(s).1.Some?
    ensures var t := SearchArrived(Submitted(s).0, Submitted(s).1.value, data);
      t.movies == SearchEntries(s.search, data)
      && t.mainShown && t.moviesShown && !t.overlayShown && !t.loading
      && t.search == "" && t.year == ""
  {
  }

  /** Two searches answered one after the other: the list holds the rows of
      the second only, however the first was answered and whatever was typed
      in between. */
  lemma SecondSearchReplacesFirst(s: PageState, data1: SearchResponse,
                                  term2: string, year2: string, data2: SearchResponse)
    requires s.search != "" && term2 != ""
    ensures Submitted(s).1.Some?
    ensures var s1 := SearchArrived(Submitted(s).0, Submitted(s).1.value, data1);
      var s2 := s1.(search := term2, year := year2);
      Submitted(s2).1.Some?
      && SearchArrived(Submitted(s2).0, Submitted(s2).1.value, data2).movies
         == SearchEntries(term2, data2)
  {
  }

  /** A search answered with `Response: "True"` lists one row per summary, in
      order, each with the summary's id, title and year. */
  lemma AnsweredSearchRows(s: PageState, data: SearchResponse, i: nat)
    requires s.search != "" && data.response == "True" && i < |data.search|
    ensures Submitted(s).1.Some?
    ensures var t := SearchArrived(Submitted(s).0, Submitted(s).1.value, data);
      |t.movies| == |data.search|
      && t.movies[i].Movie? && t.movies[i].id == data.search[i].imdbId
      && t.movies[i].title == data.search[i].title && t.movies[i].year == data.search[i].year
  {
  }

  /** Any other answer lists exactly one notice naming the searched term. */
  lemma UnansweredSearchRow(s: PageState, data: SearchResponse)
    requires s.search != "" && data.response != "True"
    ensures Submitted(s).1.Some?
    ensures var t := SearchArrived(Submitted(s).0, Submitted(s).1.value, data);
      |t.movies| == 1 && t.movies[0] == NoResultsEntry(s.search)
      && t.movies[0].text[|NoResultsPrefix|..] == s.search
  {
  }

  /** The state a non-empty submit leaves behind: the loading screen with the
      list hidden and emptied. A rejected request only logs its error and
      changes nothing (`App.Page.OnSearchRejected`), so a failed search leaves
      the page in exactly this state. */
  lemma FailedSearchStaysLoading(s: PageState)
    requires s.search != ""
    ensures var t := Submitted(s).0;
      t.loading && !t.moviesShown && t.movies == []
      && t.overlayShown == s.overlayShown && t.mainShown == s.mainShown
  {
  }

  /** Opening a movie and going back shows the list exactly as it was drawn
      before the click, and sends no further request. */
  lemma DetailThenBackRestoresList(s: PageState, t: ClickTarget, d: Detail)
    ensures var (s1, req) := Clicked(s, t);
      var s2 := DetailArrived(s1, req, d);
      var s3 := BackPressed(s2);
      s2.overlayShown && !s2.mainShown && !s2.loading
      && s3.movies == s.movies && s3.search == s.search && s3.year == s.year
      && s3.mainShown && s3.moviesShown && !s3.overlayShown && !s3.loading
  {
  }

  /** The detail request carries the resolved id, or the text "undefined". */
  lemma ClickRequest(s: PageState, t: ClickTarget)
    ensures var req := Clicked(s, t).1;
      req.id == ClickedId(t)
      && (req.id.Some? ==> (ReadDetailQuery(req.url) == Some(req.id.value) <==> '&' !in req.id.value))
      && (req.id.None? ==> req.url == DetailUrl("undefined"))
  {
    if ClickedId(t).Some? {
      DetailUrlRoundTrip(ClickedId(t).value);
    }
  }

  /** A click on a row's own `li` resolves no id, so once the details arrive
      the overlay's link points at the title page of "undefined". */
  lemma ClickOnRowLinksUndefined(s: PageState, e: Entry, outerId: string, d: Detail)
    ensures var (s1, req) := Clicked(s, TargetIn(e, RowPart, outerId));
      req.url == DetailUrl("undefined")
      && DetailArrived(s1, req, d).detail.href == ImdbTitleBase + "undefined"
  {
  }

  /** Every handler keeps the list region and the overlay from being displayed
      together. */
  lemma HandlersKeepExclusive(s: PageState, sreq: SearchRequest, data: SearchResponse,
                              t: ClickTarget, dreq: DetailRequest, d: Detail)
    requires Exclusive(s)
    ensures Exclusive(Submitted(s).0)
    ensures Exclusive(SearchArrived(s, sreq, data))
    ensures Exclusive(Clicked(s, t).0)
    ensures Exclusive(DetailArrived(s, dreq, d))
    ensures Exclusive(BackPressed(s))
  {
  }
}
