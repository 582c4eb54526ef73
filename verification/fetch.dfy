/** `Pokemon::search` after the network: the outcome of the repository request turned into
    the `Pokemon` card (the most-starred repository) or an `Error`. */
module Fetch {
  import opened Base
  import opened Text
  import opened Repos

  /** The card the application shows: a repository dressed up as a Pokemon. */
  datatype Pokemon = Pokemon(number: u16, name: string, description: string)

  /** The application's error type; `LanguageError` is declared but never produced. */
  datatype Error = APIError | LanguageError

  /** An opaque `reqwest::Error`: a failed send or a failed read of the body. */
  datatype TransportError = TransportError(reason: string)

  /** What the two awaited network steps delivered: a failure of `send`, a failure of
      `text`, or a body that decoded into a repository list. */
  datatype Response =
    | SendFailed(sendError: TransportError)
    | ReadFailed(readError: TransportError)
    | Decoded(repos: seq<Repo>)

  const NoDescription: string := "No description"

  /** `From<reqwest::Error> for Error`: every transport failure, whatever its cause, becomes
      `APIError`. */
  function FromTransport(e: TransportError): (r: Error)
    ensures r == APIError
  {
    APIError
  }

  /** The `Pokemon` built from one repository: its star count as the number, its name
      upper-cased, and its description or, when it has none, "No description". */
  function ToPokemon(r: Repo): (p: Pokemon)
    ensures p.number == r.stars
    ensures p.name == ToUpper(r.name)
    ensures r.description.Some? ==> p.description == r.description.value
    ensures r.description.None? ==> p.description == NoDescription
  {
    Pokemon(r.stars, ToUpper(r.name), r.description.UnwrapOr(NoDescription))
  }

  /** Sort the repositories by descending stars and present the first one. The card's
      number is the largest star count; its name and description come from the first
      repository in the input that has that many stars. An empty list is excluded: the
      source indexes `repos[0]` and panics. */
  function Showcase(repos: seq<Repo>): (p: Pokemon)
    requires |repos| > 0
    ensures forall i :: 0 <= i < |repos| ==> repos[i].stars <= p.number
    ensures exists j ::
      && FirstMostStarred(repos, j)
      && p.number == repos[j].stars
      && p.name == ToUpper(repos[j].name)
      && (repos[j].description.Some? ==> p.description == repos[j].description.value)
      && (repos[j].description.None? ==> p.description == NoDescription)
  {
    var sorted := SortByStars(repos);
    SortHeadIsFirstMostStarred(repos);
    ToPokemon(sorted[0])
  }

  /** `Pokemon::search` from the response on: a transport failure at either await point
      is reported as `APIError`, a decoded list yields its showcase card, and nothing ever
      reports `LanguageError`. */
  function Search(response: Response): (r: Result<Pokemon, Error>)
    requires response.Decoded? ==> |response.repos| > 0
    ensures r.Err? <==> !response.Decoded?
    ensures r.Err? ==> r.error == APIError
    ensures response.Decoded? ==> r == Ok(Showcase(response.repos))
  {
    match response
    case SendFailed(e) => Err(FromTransport(e))
    case ReadFailed(e) => Err(FromTransport(e))
    case Decoded(repos) => Ok(Showcase(repos))
  }
}
