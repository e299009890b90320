# movieSearch page script, modelled in Dafny

The page script `js/app.js` of a movie search client: a search form sends a
title (and an optional year) to the OMDb movie database, the answer is drawn as
a list of movies or a "no movies found" row, a click on a movie fetches its
details into an overlay, and a back button returns to the list.

The model replaces the document by an abstract page state and the network by
the caller:

- `records.dfy` (`Records`): the parsed records the service returns (search
  summaries, a search response, a movie detail) and the no-poster value `"N/A"`.
- `urls.dfy` (`Urls`): the search and detail request URLs, built by plain
  concatenation, and a reader that splits a URL at `&` to get its parameters
  back; the round trip holds exactly when the parts hold no `&`.
- `render.dfy` (`Render`): the rows of `#movies` (a movie row with its id,
  poster image or placeholder icon, title and year; or the no-results notice),
  the loop that builds a result fragment, and the texts of the description
  overlay.
- `clicks.dfy` (`Clicks`): how a click on the list is resolved to a movie id
  from the clicked element's tag, and the shape of the rows the renderers
  build, so that a click on any child of a movie row is shown to resolve to
  that row's id.
- `ui.dfy` (`Ui`): the page as a value (`PageState`: which regions are shown,
  the `loading` class, the list rows, the two input fields and the overlay's
  fields) and each toggle and handler as a function on it, with the properties
  of runs of handlers.
- `app.dfy` (`App`): the class `Page`, whose fields are the element properties
  the script assigns and whose methods are the script's functions and
  handlers, assigning those fields in the script's order. Each method is
  proved to move `State()` exactly as the matching `Ui` function does, and the
  handlers keep the invariant that the list region and the overlay are never
  shown together. A handler that sends a request returns it (URL and captured
  term, year or id); each continuation is a method called with the parsed
  answer, one at a time.

Where the code does something a reader might not expect, the model follows
the code:

- The no-results row is drawn when `Response` is not `"True"`, not when the
  result array is empty; a `"True"` answer with an empty array draws nothing.
- Request URLs are not percent-encoded (`js/app.js:72`, `js/app.js:194`): a term
  holding `&` is read back differently (`Urls.SearchUrlRoundTrip`), and
  different searches can send the same URL (`Urls.SearchUrlAmbiguous`).
- Showing the loading screen leaves the overlay's display as it was.
- The list is cleared on every submit, also when the search field is empty and
  no request is sent (`js/app.js:59-62`).
- A click on the row element itself leaves the id undefined and a detail
  request for `i=undefined` is still sent; a click on the help icon of the
  no-results row resolves to the list's own id `movies`.

## Model

| member | source | states |
|---|---|---|
| `Urls.SearchUrlRoundTrip` | js/app.js:72 | the search URL `https://www.omdbapi.com/?s=` + term + `&y=` + year + `&r=json` is read back as exactly that term and year if and only if neither holds `&` |
| `Urls.DetailUrlRoundTrip` | js/app.js:194 | the detail URL `https://www.omdbapi.com/?i=` + id + `&y=&plot=full&r=json` is read back as exactly that id if and only if the id holds no `&` |
| `Urls.SearchUrlAmbiguous` | js/app.js:72 | without encoding, the term `a&y=b` with year `c` sends the same URL as the term `a` with year `b&y=c` |
| `Urls.ReadSearchQuery` | js/app.js:72 | the parameters a reader takes from a search URL by splitting at `&` hold no `&` |
| `Urls.ReadDetailQuery` | js/app.js:194 | the id a reader takes from a detail URL by splitting at `&` holds no `&` |
| `Urls.ParamValue` | js/app.js:72 | a parameter value is the longest `&`-free prefix of what follows its key |
| `Render.MovieEntry` | js/app.js:117-146 | a row has the summary's id, title and year; its poster-wrap holds one child, the image with src `Poster` if and only if `Poster` is not `"N/A"`, otherwise the icon `crop_original`; never an image of `"N/A"` |
| `Render.MovieEntries` | js/app.js:116-147 | N summaries give exactly N rows, row i drawn from summary i |
| `Render.BuildMovieFragment` | js/app.js:114-147 | the loop builds exactly the rows of `MovieEntries`, in input order |
| `Render.NoResultsEntry` | js/app.js:158-175 | the no-results row has class `no-movies`, icon `help_outline`, and text `No movies found that match: ` followed by exactly the term |
| `Render.SearchEntries` | js/app.js:88-91 | an answer with `Response == "True"` draws one movie row per summary, row i with summary i's id, title and year; any other answer draws exactly one row, the `no-movies` notice whose text after the fixed prefix is the captured term |
| `Render.MovieDescription` | js/app.js:228-241 | the background is `url(Poster)` sized `cover` when `Poster` is not `"N/A"`, else `url(img/noImage.svg)` sized `60%` (size `cover` if and only if there is a poster); title `Title (Year)`, rating `imdb rating: ` + rating, plot, link `http://www.imdb.com/title/` + id opened in `_blank` |
| `Render.BackgroundNeverNoPoster` | js/app.js:228-235 | the overlay's background never points at the literal `N/A` |
| `Render.TitleLineExample` | js/app.js:237 | "Shawshank Redemption" from 1994 is titled "Shawshank Redemption (1994)" |
| `Clicks.ClickInMovieRowResolvesItsId` | js/app.js:186-190 | a click on the poster image or icon (grandparent) or on the wrap, title or year (parent) of a movie row resolves to the row's id |
| `Clicks.ClickOnRowLeavesIdUndefined` | js/app.js:184-190 | a click on the `li` itself matches no tag and leaves the id undefined |
| `Clicks.ClickOnNoResultsIconResolvesListId` | js/app.js:186-187 | a click on the no-results help icon resolves to the id of `#movies` |
| `Clicks.ClickInRenderedListResolves` | js/app.js:186-190 | a click on any child of row i of a drawn result resolves to summary i's `imdbID` |
| `Ui.TogglesSetTheirFlags` | js/app.js:256-282 | main page: overlay hidden, list and main content shown, loading cleared; overlay: main content hidden, loading cleared, overlay shown; loading screen: list hidden, loading set, overlay and main content unchanged; none changes any content |
| `Ui.TogglesIdempotent` | js/app.js:256-282 | each toggle applied twice is the same as once |
| `Ui.Submitted` | js/app.js:59-72 | the list is always cleared; no request if and only if the term is empty, and then nothing else changes; otherwise both fields become empty, the loading screen shows and the request is the search URL for the captured term and year |
| `Ui.AnsweredSearchShowsOnlyItsRows` | js/app.js:59-91 | after a submit and its answer the list holds exactly that answer's rows, with the list shown and loading cleared |
| `Ui.SecondSearchReplacesFirst` | js/app.js:59-91 | after two answered searches the list holds only the second one's rows |
| `Ui.AnsweredSearchRows` | js/app.js:85-89 | a `"True"` answer with N summaries lists N rows, row i with summary i's id, title and year |
| `Ui.UnansweredSearchRow` | js/app.js:88-91 | any other answer lists one row, the notice naming the submitted term |
| `Ui.FailedSearchStaysLoading` | js/app.js:62-94 | a non-empty submit leaves the loading screen up with the list hidden and empty, and since a rejection changes nothing (`App.Page.OnSearchRejected`) a failed search stays there |
| `Ui.DetailThenBackRestoresList` | js/app.js:183-250 | click, detail answer and back: the overlay was shown alone, and afterwards the list is shown again with the same rows, loading cleared |
| `Ui.ClickRequest` | js/app.js:183-194 | the detail request carries the resolved id, read back from its URL if and only if it holds no `&`, or `i=undefined` when none was resolved |
| `Ui.ClickOnRowLinksUndefined` | js/app.js:183-240 | a click on a row's own `li` sends the detail request for `i=undefined`, and its answer sets the link to `http://www.imdb.com/title/undefined` |
| `Ui.HandlersKeepExclusive` | js/app.js:248-282 | no handler or continuation shows the list region and the overlay together |
| `App.Page.ShowLoadingScreen` | js/app.js:279-282 | hides `#movies` and sets `loading`, nothing else |
| `App.Page.ShowMainPage` | js/app.js:267-272 | hides the overlay, shows `#movies` and the main content, clears `loading`, nothing else |
| `App.Page.ShowOverlay` | js/app.js:256-261 | hides the main content, clears `loading`, shows the overlay, nothing else |
| `App.Page.RemoveList` | js/app.js:289-291 | empties the list, nothing else |
| `App.Page.GetMovieList` | js/app.js:110-150 | appends the rows for the summaries after the existing rows, nothing else |
| `App.Page.GetNoResults` | js/app.js:158-176 | appends the single no-results row after the existing rows, nothing else |
| `App.Page.GetMovieDescription` | js/app.js:227-242 | sets the overlay's seven fields to the description of the record, nothing else |
| `App.Page.OnSubmit` | js/app.js:50-97 | moves the page as `Ui.Submitted` and returns its request |
| `App.Page.OnSearchResolved` | js/app.js:85-91 | shows the main page, then appends the answer's rows or the no-results row |
| `App.Page.OnSearchRejected` | js/app.js:92-94 | changes nothing |
| `App.Page.OnMovieClick` | js/app.js:183-212 | resolves the id by tag, shows the loading screen and returns the detail request |
| `App.Page.OnDetailResolved` | js/app.js:203-206 | shows the overlay and fills it from the record and the captured id |
| `App.Page.OnDetailRejected` | js/app.js:207-210 | changes nothing |
| `App.Page.OnBack` | js/app.js:248-250 | shows the main page; the list is untouched |
| `App.TwoSearches` | js/app.js:50-97 | driving the page through two answered searches leaves only the second answer's rows, on the shown list |

## Left out

- The request wrapper `ajaxRequest` (`XMLHttpRequest`, the Promise, `JSON.parse`): a handler returns the request it would send and a continuation receives the parsed answer; a non-200 status and a network failure both reach the rejection method.
- Overlapping requests and answers arriving out of order: continuations are modelled one at a time.
- Input focus (`focus()` at load and in `showOverlay`), `console.log`, `preventDefault` and listener registration: no state of the model depends on them.
- The document tree beyond the fields above: rows are values, not nodes; document fragments, `classList` mechanics and CSS are not modelled. The first state of the page comes from the markup and stylesheet, which are not part of this model, and is a parameter of the constructor.
- Fields missing from an answer are not modelled: every record field is a string the caller supplies. In the page a missing field shows as empty text where it is assigned to `textContent` (the row labels, the plot) and as `undefined` where it is joined into a string (the URLs, the title line, the rating, the link) or assigned to `li.id` or `img.src`; one string per field cannot reproduce both.
- `Urls.ReadSearchQuery`: reads parameters by splitting at `&` only; how a server treats `#`, `+`, `%` or spaces in an unencoded URL is not modelled.
