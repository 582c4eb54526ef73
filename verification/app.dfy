/** The `Pokedex` application: its three states, the messages it reacts to, and the
    window title it shows. */
module App {
  import opened Base
  import opened Fetch

  /** Exactly one state is live: waiting for a search, showing a card, or showing a failure. */
  datatype Pokedex = Loading | Loaded(pokemon: Pokemon) | Errored

  /** `PokemonFound` carries the outcome of a finished search; `Search` asks for a new one. */
  datatype Message = PokemonFound(outcome: Result<Pokemon, Error>) | Search

  /** The follow-up work `update` hands to the runtime: nothing (`Command::none`), or one
      run of `Pokemon::search` whose outcome comes back as `PokemonFound`. */
  datatype Command = NoCommand | PerformSearch

  const TitleSuffix: string := " - Pokédex"

  /** `Application::new`: the application starts in `Loading` and fires a search at once. */
  function New(): (r: (Pokedex, Command))
    ensures r.0.Loading? && r.1 == PerformSearch
  {
    (Loading, PerformSearch)
  }

  /** `Application::update`. A finished search replaces the state whatever it was, and asks
      for nothing more; a request for a search is ignored while one is under way and
      otherwise moves to `Loading` and dispatches exactly one search. */
  function Update(s: Pokedex, m: Message): (r: (Pokedex, Command))
    // a search is dispatched exactly when one is asked for outside `Loading` ...
    ensures r.1 == PerformSearch <==> m.Search? && !s.Loading?
    // ... and whenever one is dispatched the state becomes `Loading`
    ensures r.1 == PerformSearch ==> r.0 == Loading
    ensures m.PokemonFound? && m.outcome.Ok? ==> r.0 == Loaded(m.outcome.value)
    ensures m.PokemonFound? && m.outcome.Err? ==> r.0 == Errored
    ensures m.Search? && s.Loading? ==> r.0 == s
    // the state is `Loading` afterwards only if a search is dispatched or was already running
    ensures r.0.Loading? <==> r.1 == PerformSearch || (s.Loading? && m.Search?)
  {
    match m
    case PokemonFound(Ok(pokemon)) => (Loaded(pokemon), NoCommand)
    case PokemonFound(Err(_)) => (Errored, NoCommand)
    case Search =>
      match s
      case Loading => (s, NoCommand)
      case _ => (Loading, PerformSearch)
  }

  /** `Application::title`: a subtitle naming the state, followed by " - Pokédex". */
  function Title(s: Pokedex): (t: string)
    ensures s.Loading? ==> t == "Loading - Pokédex"
    ensures s.Loaded? ==> t == s.pokemon.name + " - Pokédex"
    ensures s.Errored? ==> t == "Whoops! - Pokédex"
  {
    var subtitle := match s
      case Loading => "Loading"
      case Loaded(pokemon) => pokemon.name
      case Errored => "Whoops!";
    subtitle + TitleSuffix
  }

  /** The title always ends in the " - Pokédex" suffix, and what precedes it tells a
      finished search apart from a failed one: after a found card it is the card's name,
      after any error it is "Whoops!". */
  lemma TitleAfterFound(s: Pokedex, outcome: Result<Pokemon, Error>)
    ensures var t := Title(Update(s, PokemonFound(outcome)).0);
      && |t| >= |TitleSuffix|
      && t[|t| - |TitleSuffix|..] == TitleSuffix
      && (outcome.Ok? ==> t[..|t| - |TitleSuffix|] == outcome.value.name)
      && (outcome.Err? ==> t[..|t| - |TitleSuffix|] == "Whoops!")
  {
  }
}
