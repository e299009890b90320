/** Which movie a click on the `#movies` list asks for. The handler looks at the
    element that was clicked and takes the id of its parent or grandparent,
    depending on the element's tag; for any other tag the id stays undefined. */
module Clicks {
  import opened Records
  import opened Render

  /** The clicked element: its tag name and the ids of its parent and
      grandparent (an element without an id has id ""). */
  datatype ClickTarget = ClickTarget(nodeName: string, parentId: string, grandparentId: string)

  const MoviesListId := "movies"

  /** The id the click handler resolves, `None` where the source leaves it undefined. */
  function ClickedId(t: ClickTarget): Option<string>
  {
    if t.nodeName == "IMG" || t.nodeName == "I" then Some(t.grandparentId)
    else if t.nodeName == "SPAN" || t.nodeName == "DIV" then Some(t.parentId)
    else None
  }

  /** The id as it ends up in a string: an undefined id reads "undefined". */
  function IdText(id: Option<string>): (r: string)
    ensures id.Some? ==> r == id.value
    ensures id.None? ==> r == "undefined"
  {
    match id
    case Some(x) => x
    case None => "undefined"
  }

  /** The parts of a drawn row a click can land on. */
  datatype Part = PosterChildPart | PosterWrapPart | TitlePart | YearPart | RowPart

  /** Whether a row has that part: a movie row has all of them, a notice row
      only its icon and the row itself. */
  predicate HasPart(e: Entry, part: Part)
  {
    e.Movie? || part == PosterChildPart || part == RowPart
  }

  /** The element a click on `part` of the row `e` of `#movies` lands on, as the
      renderers build it: `li#id > div.poster-wrap > (img | i)`, `li#id > span`,
      and for a notice `li.no-movies > i`. `outerId` is the id of the list's parent. */
  function TargetIn(e: Entry, part: Part, outerId: string): ClickTarget
    requires HasPart(e, part)
  {
    match e
    case Movie(id, poster, _, _) =>
      (match part
       case PosterChildPart => ClickTarget(if poster.PosterImage? then "IMG" else "I", "", id)
       case PosterWrapPart => ClickTarget("DIV", id, MoviesListId)
       case TitlePart => ClickTarget("SPAN", id, MoviesListId)
       case YearPart => ClickTarget("SPAN", id, MoviesListId)
       case RowPart => ClickTarget("LI", MoviesListId, outerId))
    case Notice(_, _, _) =>
      if part == PosterChildPart then ClickTarget("I", "", MoviesListId)
      else ClickTarget("LI", MoviesListId, outerId)
  }

  /** A click on the poster, icon, wrap, title or year of a movie row resolves
      to that row's id. */
  lemma ClickInMovieRowResolvesItsId(e: Entry, part: Part, outerId: string)
    requires e.Movie? && part != RowPart
    ensures ClickedId(TargetIn(e, part, outerId)) == Some(e.id)
  {
  }

  /** A click on the row itself, between its children, leaves the id undefined. */
  lemma ClickOnRowLeavesIdUndefined(e: Entry, outerId: string)
    ensures ClickedId(TargetIn(e, RowPart, outerId)) == None
  {
  }

  /** A click on the help icon of the no-results row resolves to the id of the
      list itself, since the icon's grandparent is `#movies`. */
  lemma ClickOnNoResultsIconResolvesListId(term: string, outerId: string)
    ensures ClickedId(TargetIn(NoResultsEntry(term), PosterChildPart, outerId)) == Some(MoviesListId)
  {
  }

  /** Every row drawn for a search result is resolved to its summary's id when
      any of its children is clicked. */
  lemma ClickInRenderedListResolves(data: seq<Summary>, i: nat, part: Part, outerId: string)
    requires i < |data| && part != RowPart
    ensures HasPart(MovieEntries(data)[i], part)
    ensures ClickedId(TargetIn(MovieEntries(data)[i], part, outerId)) == Some(data[i].imdbId)
  {
    ClickInMovieRowResolvesItsId(MovieEntries(data)[i], part, outerId);
  }
}
