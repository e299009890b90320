/** The records the movie database service returns, as the page reads them.
    Every field is a string here; a field the service leaves out is not
    modelled (the page shows it as empty text where it is assigned to a text
    node, and as "undefined" where it is joined into a string). */
module Records {

  datatype Option<T> = None | Some(value: T)

  /** The poster value the service sends when a movie has no poster. */
  const NoPoster := "N/A"

  /** One element of the `Search` array of a search response
      (`imdbID`, `Title`, `Year`, `Poster`). */
  datatype Summary = Summary(imdbId: string, title: string, year: string, poster: string)

  /** A parsed search response: the `Response` flag and the `Search` array. */
  datatype SearchResponse = SearchResponse(response: string, search: seq<Summary>)

  /** A parsed detail response (`Title`, `Year`, `Poster`, `imdbRating`, `Plot`). */
  datatype Detail = Detail(title: string, year: string, poster: string, rating: string, plot: string)
}
