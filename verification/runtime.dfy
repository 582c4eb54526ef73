/** The application driven by its runtime: user clicks and the completions of dispatched
    searches, interleaved in any order. The runtime delivers a `PokemonFound` message only
    as the completion of a search some earlier command dispatched. */
module Runtime {
  import opened Base
  import opened Fetch
  import opened App

  /** `Click` is a press of "Keep searching!" or "Try again" (a `Search` message);
      `Complete` is the resolution of one pending search with the given outcome. */
  datatype Event = Click | Complete(outcome: Result<Pokemon, Error>)

  /** The UI state together with the number of dispatched searches not yet resolved. */
  datatype World = World(ui: Pokedex, pending: nat)

  function Dispatched(c: Command): nat {
    if c == PerformSearch then 1 else 0
  }

  /** The world right after `Application::new` and its command. */
  function Boot(): World {
    World(New().0, Dispatched(New().1))
  }

  /** One event: the message goes through `update`, and the command it returns adds to the
      pending searches. A completion with no pending search has nothing to deliver. */
  function Step(w: World, e: Event): World {
    match e
    case Click =>
      var (s, c) := Update(w.ui, Search);
      World(s, w.pending + Dispatched(c))
    case Complete(outcome) =>
      if w.pending == 0 then w
      else
        var (s, c) := Update(w.ui, PokemonFound(outcome));
        World(s, w.pending - 1 + Dispatched(c))
  }

  function Run(w: World, events: seq<Event>): World
    decreases |events|
  {
    if events == [] then w else Run(Step(w, events[0]), events[1..])
  }

  /** At most one search is in flight, and one is in flight exactly while the UI shows
      `Loading`. */
  ghost predicate SingleFlight(w: World) {
    && w.pending <= 1
    && (w.pending == 1 <==> w.ui.Loading?)
  }

  lemma StepKeepsSingleFlight(w: World, e: Event)
    requires SingleFlight(w)
    ensures SingleFlight(Step(w, e))
  {
  }

  lemma {:induction false} RunKeepsSingleFlight(w: World, events: seq<Event>)
    requires SingleFlight(w)
    ensures SingleFlight(Run(w, events))
    decreases |events|
  {
    if events != [] {
      StepKeepsSingleFlight(w, events[0]);
      RunKeepsSingleFlight(Step(w, events[0]), events[1..]);
    }
  }

  /** Whatever clicks and completions happen after start-up, at most one search is ever in
      flight, so no late result of an older search can overwrite a newer one; and the UI
      shows `Loading` exactly while that search is pending. */
  lemma {:induction false} ReachableIsSingleFlight(events: seq<Event>)
    ensures Run(Boot(), events).pending <= 1
    ensures Run(Boot(), events).pending == 1 <==> Run(Boot(), events).ui.Loading?
  {
    RunKeepsSingleFlight(Boot(), events);
  }

  /** Every completion is the resolution of the single pending search and settles the UI:
      afterwards nothing is pending and the UI shows the card or the failure. */
  lemma CompletionSettles(w: World, outcome: Result<Pokemon, Error>)
    requires SingleFlight(w) && w.pending == 1
    ensures Step(w, Complete(outcome)).pending == 0
    ensures outcome.Ok? ==> Step(w, Complete(outcome)).ui == Loaded(outcome.value)
    ensures outcome.Err? ==> Step(w, Complete(outcome)).ui == Errored
  {
  }
}
