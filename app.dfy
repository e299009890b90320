/** The page as the script changes it: each element property the script
    assigns is a field, and each handler is a method that assigns them in the
    order the script does. Every method is proved to move the page exactly as
    the matching function of `Ui` does. The network is replaced by the caller:
    a handler returns the request it sends, and each continuation is a method
    called with the parsed answer. */
module App {
  import opened Records
  import opened Urls
  import opened Render
  import opened Clicks
  import opened Ui

  class Page {
    // display of `#overlay`, `.main-content` and `#movies`, and the `loading` class
    var overlayShown: bool
    var mainShown: bool
    var moviesShown: bool
    var loading: bool
    // the rows of `#movies`
    var movies: seq<Entry>
    // the values of `#search` and `#year`
    var search: string
    var year: string
    // the overlay: `#picture` style, `#title`, `#rating`, `#plot`, `#imdbBtn`
    var background: string
    var backgroundSize: string
    var titleText: string
    var ratingText: string
    var plotText: string
    var linkHref: string
    var linkTarget: string

    ghost function State(): PageState
      reads this
    {
      PageState(overlayShown, mainShown, moviesShown, loading, movies, search, year,
                Description(background, backgroundSize, titleText, ratingText, plotText,
                            linkHref, linkTarget))
    }

    ghost predicate Valid()
      reads this
    {
      Exclusive(State())
    }

    /** The page as loaded; its markup and stylesheet decide the first state. */
    constructor (init: PageState)
      requires Exclusive(init)
      ensures Valid() && State() == init
    {
      overlayShown, mainShown, moviesShown, loading := init.overlayShown, init.mainShown, init.moviesShown, init.loading;
      movies, search, year := init.movies, init.search, init.year;
      background, backgroundSize := init.detail.background, init.detail.size;
      titleText, ratingText, plotText := init.detail.title, init.detail.rating, init.detail.plot;
      linkHref, linkTarget := init.detail.href, init.detail.target;
    }

    method ShowLoadingScreen()
      modifies this
      ensures State() == LoadingScreen(old(State()))
    {
      moviesShown := false;
      loading := true;
    }

    method ShowMainPage()
      modifies this
      ensures State() == MainPage(old(State()))
    {
      overlayShown := false;
      moviesShown := true;
      loading := false;
      mainShown := true;
    }

    method ShowOverlay()
      modifies this
      ensures State() == OverlayPage(old(State()))
    {
      mainShown := false;
      loading := false;
      overlayShown := true;
    }

    method RemoveList()
      modifies this
      ensures State() == old(State()).(movies := [])
    {
      movies := [];
    }

    /** Draws one row per summary into a fragment, then attaches the fragment
        after the rows already in the list. */
    method GetMovieList(data: seq<Summary>)
      modifies this
      ensures State() == old(State()).(movies := old(movies) + MovieEntries(data))
    {
      var frag := BuildMovieFragment(data);
      movies := movies + frag;
    }

    /** Attaches the notice for a term that found nothing after the rows already
        in the list. */
    method GetNoResults(term: string)
      modifies this
      ensures State() == old(State()).(movies := old(movies) + [NoResultsEntry(term)])
    {
      movies := movies + [NoResultsEntry(term)];
    }

    method GetMovieDescription(d: Detail, id: string)
      modifies this
      ensures State() == old(State()).(detail := MovieDescription(d, id))
    {
      if d.poster != NoPoster {
        background := "url(" + d.poster + ")";
        backgroundSize := "cover";
      } else {
        background := NoImageBackground;
        backgroundSize := "60%";
      }
      titleText := TitleLine(d.title, d.year);
      ratingText := RatingPrefix + d.rating;
      plotText := d.plot;
      linkHref := ImdbTitleBase + id;
      linkTarget := "_blank";
      assert State().detail == MovieDescription(d, id);
    }

    /** The submit button's handler; `req` is the search it sends, if any. */
    method OnSubmit() returns (req: Option<SearchRequest>)
      requires Valid()
      modifies this
      ensures Valid()
      ensures (State(), req) == Submitted(old(State()))
    {
      if movies != [] {
        RemoveList();
      }
      if search != "" {
        var term := search;
        var yearValue := year;
        search := "";
        year := "";
        ShowLoadingScreen();
        req := Some(SearchRequest(SearchUrl(term, yearValue), term, yearValue));
      } else {
        req := None;
      }
    }

    /** The search request resolved with `data`. */
    method OnSearchResolved(req: SearchRequest, data: SearchResponse)
      requires Valid()
      modifies this
      ensures Valid()
      ensures State() == SearchArrived(old(State()), req, data)
    {
      ShowMainPage();
      if data.response == "True" {
        GetMovieList(data.search);
      } else {
        GetNoResults(req.term);
      }
    }

    /** The search request failed: the error is only logged. */
    method OnSearchRejected(req: SearchRequest, error: string)
      requires Valid()
      ensures Valid()
      ensures State() == old(State())
    {
    }

    /** The click handler of `#movies`; `req` is the detail request it sends. */
    method OnMovieClick(t: ClickTarget) returns (req: DetailRequest)
      requires Valid()
      modifies this
      ensures Valid()
      ensures (State(), req) == Clicked(old(State()), t)
    {
      var id: Option<string> := None;
      if t.nodeName == "IMG" || t.nodeName == "I" {
        id := Some(t.grandparentId);
      } else if t.nodeName == "SPAN" || t.nodeName == "DIV" {
        id := Some(t.parentId);
      }
      ShowLoadingScreen();
      req := DetailRequest(DetailUrl(IdText(id)), id);
    }

    /** The detail request resolved with `d`. */
    method OnDetailResolved(req: DetailRequest, d: Detail)
      requires Valid()
      modifies this
      ensures Valid()
      ensures State() == DetailArrived(old(State()), req, d)
    {
      ShowOverlay();
      GetMovieDescription(d, IdText(req.id));
    }

    /** The detail request failed: the error is only logged. */
    method OnDetailRejected(req: DetailRequest, error: string)
      requires Valid()
      ensures Valid()
      ensures State() == old(State())
    {
    }

    /** The overlay's back button. */
    method OnBack()
      requires Valid()
      modifies this
      ensures Valid()
      ensures State() == BackPressed(old(State()))
    {
      ShowMainPage();
    }
  }

  /** Two searches, each answered before the next submit: the list ends up
      holding the second answer's rows only. */
  method TwoSearches(page: Page, term1: string, data1: SearchResponse,
                     term2: string, year2: string, data2: SearchResponse)
    requires page.Valid() && term1 != "" && term2 != ""
    modifies page
    ensures page.Valid()
    ensures page.movies == SearchEntries(term2, data2)
    ensures page.mainShown && page.moviesShown && !page.overlayShown && !page.loading
  {
    page.search := term1;
    var req1 := page.OnSubmit();
    page.OnSearchResolved(req1.value, data1);
    page.search, page.year := term2, year2;
    var req2 := page.OnSubmit();
    assert req2 == Some(SearchRequest(SearchUrl(term2, year2), term2, year2));
    page.OnSearchResolved(req2.value, data2);
    assert page.movies == [] + SearchEntries(term2, data2);
  }
}
