/** What the page draws: the entries of the `#movies` list and the text of the
    description overlay. */
module Render {
  import opened Records

  /** The single child of an entry's poster-wrap: the poster image, or the
      placeholder icon when the movie has no poster. */
  datatype PosterChild = PosterImage(src: string) | PosterIcon(icon: string)

  /** One child of `#movies`: a movie row (its `li` id, poster-wrap, title and
      year labels) or a notice row (its class, icon and text). */
  datatype Entry =
    | Movie(id: string, poster: PosterChild, title: string, year: string)
    | Notice(cls: string, icon: string, text: string)

  const PlaceholderIcon := "crop_original"
  const NoResultsClass := "no-movies"
  const NoResultsIcon := "help_outline"
  const NoResultsPrefix := "No movies found that match: "

  /** The row drawn for one search summary. */
  function MovieEntry(s: Summary): (e: Entry)
    ensures e.Movie? && e.id == s.imdbId && e.title == s.title && e.year == s.year
    ensures e.poster.PosterImage? <==> s.poster != NoPoster
    ensures e.poster.PosterImage? ==> e.poster.src == s.poster
    ensures e.poster.PosterIcon? ==> e.poster.icon == PlaceholderIcon
    ensures e.poster != PosterImage(NoPoster)
  {
    var child := if s.poster != NoPoster then PosterImage(s.poster) else PosterIcon(PlaceholderIcon);
    Movie(s.imdbId, child, s.title, s.year)
  }

  /** The rows for a whole search result, one per summary, in order. */
  function MovieEntries(data: seq<Summary>): (r: seq<Entry>)
    ensures |r| == |data|
    ensures forall i :: 0 <= i < |data| ==> r[i] == MovieEntry(data[i])
  {
    if data == [] then [] else [MovieEntry(data[0])] + MovieEntries(data[1..])
  }

  /** The loop of the list renderer: builds the fragment of rows that is then
      attached to `#movies` in one step. */
  method BuildMovieFragment(data: seq<Summary>) returns (frag: seq<Entry>)
    ensures frag == MovieEntries(data)
  {
    frag := [];
    var i := 0;
    while i < |data|
      invariant 0 <= i <= |data|
      invariant |frag| == i
      invariant forall k :: 0 <= k < i ==> frag[k] == MovieEntry(data[k])
    {
      frag := frag + [MovieEntry(data[i])];
      i := i + 1;
    }
  }

  /** The single notice row drawn when a search finds nothing. */
  function NoResultsEntry(term: string): (e: Entry)
    ensures e.Notice? && e.cls == NoResultsClass && e.icon == NoResultsIcon
    ensures NoResultsPrefix <= e.text && e.text[|NoResultsPrefix|..] == term
  {
    Notice(NoResultsClass, NoResultsIcon, NoResultsPrefix + term)
  }

  /** The rows a resolved search adds: the results when the service answered
      `Response: "True"`, otherwise the notice for the searched term. */
  function SearchEntries(term: string, data: SearchResponse): (r: seq<Entry>)
    ensures data.response == "True" ==>
      |r| == |data.search|
      && forall i :: 0 <= i < |r| ==>
           r[i].Movie? && r[i].id == data.search[i].imdbId
           && r[i].title == data.search[i].title && r[i].year == data.search[i].year
    ensures data.response != "True" ==>
      |r| == 1 && r[0].Notice? && r[0].cls == NoResultsClass
      && NoResultsPrefix <= r[0].text && r[0].text[|NoResultsPrefix|..] == term
  {
    if data.response == "True" then MovieEntries(data.search) else [NoResultsEntry(term)]
  }

  /** The fields of the description overlay: the picture's background image and
      size, the title, rating and plot texts, and the link's href and target. */
  datatype Description = Description(
    background: string, size: string,
    title: string, rating: string, plot: string,
    href: string, target: string)

  const NoImageBackground := "url(img/noImage.svg)"
  const RatingPrefix := "imdb rating: "
  const ImdbTitleBase := "http://www.imdb.com/title/"

  function TitleLine(title: string, year: string): string
  {
    title + " (" + year + ")"
  }

  /** The overlay filled from one detail record and the id that was clicked. */
  function MovieDescription(d: Detail, id: string): (r: Description)
    ensures r.size == "cover" <==> d.poster != NoPoster
    ensures d.poster != NoPoster ==> r.background == "url(" + d.poster + ")"
    ensures d.poster == NoPoster ==> r.background == NoImageBackground && r.size == "60%"
    ensures r.title == TitleLine(d.title, d.year) && r.plot == d.plot
    ensures RatingPrefix <= r.rating && r.rating[|RatingPrefix|..] == d.rating
    ensures ImdbTitleBase <= r.href && r.href[|ImdbTitleBase|..] == id
    ensures r.target == "_blank"
  {
    var (background, size) :=
      if d.poster != NoPoster then ("url(" + d.poster + ")", "cover")
      else (NoImageBackground, "60%");
    Description(background, size, TitleLine(d.title, d.year), RatingPrefix + d.rating,
                d.plot, ImdbTitleBase + id, "_blank")
  }

  /** The overlay never points its background at the literal "N/A". */
  lemma BackgroundNeverNoPoster(d: Detail, id: string)
    ensures MovieDescription(d, id).background != "url(" + NoPoster + ")"
  {
    var b := MovieDescription(d, id).background;
    if d.poster != NoPoster {
      assert b[4..|b| - 1] == d.poster;
    }
  }

  /** The worked example of a title line: a record titled "Shawshank Redemption"
      from 1994 is shown as "Shawshank Redemption (1994)". */
  lemma TitleLineExample(d: Detail, id: string)
    requires d.title == "Shawshank Redemption" && d.year == "1994"
    ensures MovieDescription(d, id).title == "Shawshank Redemption (1994)"
  {
  }
}
