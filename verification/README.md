# Pokédex repository showcase — a Dafny model

The application is a small desktop program (written in Rust on the iced toolkit) that
fetches the GitHub repositories of one hard-coded account, picks the most-starred one and
shows it as a "Pokémon" card: the star count as its number, the upper-cased repository name
as its name, and the repository description (or "No description"). This project models the
two pure pieces of `src/main.rs`:

- the **application state machine**: the `Pokedex` states `Loading`, `Loaded { pokemon }`
  and `Errored`, the start-up state from `new`, the transitions of `update` on
  `PokemonFound(Result<Pokemon, Error>)` and `Search`, the command each returns
  (nothing, or one dispatched search), and the window `title`;
- the **ranking and projection** at the end of `Pokemon::search`: the stable sort of the
  decoded repositories by descending `stargazers_count`, the choice of `repos[0]`, the
  projection to a `Pokemon`, and the collapse of every `reqwest::Error` to `APIError`.

Modules, one per concern:

| file | module | contents |
|---|---|---|
| `base.dfy` | `Base` | `u16`, `Option` (with `unwrap_or`), `Result` |
| `text.dfy` | `Text` | ASCII upper-casing standing in for `str::to_uppercase` |
| `repos.dfy` | `Repos` | `Repo`, the stable insertion sort `SortByStars` and its lemmas |
| `fetch.dfy` | `Fetch` | `Pokemon`, `Error`, `From<reqwest::Error>`, the tail of `Pokemon::search` |
| `app.dfy` | `App` | `Pokedex`, `Message`, `Command`, `new`, `update`, `title` |
| `runtime.dfy` | `Runtime` | the state machine driven by clicks and search completions |

`Command<Message>` is modelled as `NoCommand | PerformSearch`. The network part of
`Pokemon::search` is an input: a `Response` that is either a failed `send`, a failed read
of the body, or the decoded repository list. The iced runtime is modelled in `Runtime` as a
world holding the UI state and the number of pending searches; a completion is delivered
only for a search that an earlier command dispatched.

`slice::sort_by` is modelled by an insertion sort. `Repos.SortIsTheStableSort` shows that
every non-increasing rearrangement that keeps equal-star repositories in input order equals
`SortByStars`, so any stable descending sort, the library's included, gives the same list.

## Scope of the program

The request URL is fixed (src/main.rs:140) and `Search` carries no payload
(src/main.rs:21). `update` never dispatches a search while one is in flight, so a late
result of an older search cannot overwrite a newer one (`Runtime.ReachableIsSingleFlight`).

## Model

| member | source | states |
|---|---|---|
| Text.ToUpper | src/main.rs:153 | the upper-cased name has the input's length, contains no lower-case letter, turns each `a`..`z` into its `A`..`Z` partner and keeps every other character |
| Repos.SortByStars | src/main.rs:149 | the stable descending insertion sort standing in for `sort_by`; it keeps the length (sorted, permutation and stable are the lemmas below) |
| Repos.SortIsSorted | src/main.rs:149 | after the sort, star counts are non-increasing along the list |
| Repos.SortIsPermutation | src/main.rs:149 | the sorted list holds exactly the input repositories, with multiplicity |
| Repos.SortIsStable | src/main.rs:149 | for every star count, the repositories with that count appear in the same relative order as in the input |
| Repos.StableSortIsUnique | src/main.rs:149 | two non-increasing lists that agree on every equal-star group are equal |
| Repos.SortIsTheStableSort | src/main.rs:149 | any non-increasing, stable rearrangement of the input is exactly the result of the sort, so the model agrees with the library's stable `sort_by` |
| Repos.SortHeadIsFirstMostStarred | src/main.rs:149-152 | for a non-empty list the head after sorting is the earliest input repository carrying the maximum star count |
| Repos.SortKeepsTiesInInputOrder | src/main.rs:149 | x(2), y(10), z(10) sorts to y(10), z(10), x(2): the tie between y and z keeps input order |
| Fetch.FromTransport | src/main.rs:165-171 | every transport error, whatever its cause, becomes `APIError` |
| Fetch.ToPokemon | src/main.rs:151-155 | the card built from one repository has its star count as number, its upper-cased name, and its description or "No description" when it has none |
| Fetch.Showcase | src/main.rs:148-155 | for a non-empty list the card's number is the largest star count, and its name and description are the upper-cased name and the description (or "No description") of the first repository with that count |
| Fetch.Search | src/main.rs:139-155 | a failed send or body read yields `Err(APIError)`, never `LanguageError`; a decoded non-empty list yields `Ok` with the showcase card |
| App.New | src/main.rs:30-35 | the application starts in `Loading` and dispatches a search immediately |
| App.Update | src/main.rs:47-68 | a search is dispatched exactly when `Search` arrives outside `Loading`, and then the state is `Loading`; `PokemonFound(Ok(p))` gives `Loaded(p)` and `PokemonFound(Err(_))` gives `Errored` from any state, with no command; `Search` while `Loading` changes nothing |
| App.Title | src/main.rs:37-45 | the title is "Loading - Pokédex", "<name> - Pokédex" or "Whoops! - Pokédex" according to the state |
| App.TitleAfterFound | src/main.rs:37-57 | after a finished search the title ends in " - Pokédex" and starts with the card's name on success and "Whoops!" on any error |
| Runtime.StepKeepsSingleFlight | src/main.rs:47-68 | one click or completion keeps "at most one search pending, and one pending exactly while `Loading`" |
| Runtime.RunKeepsSingleFlight | src/main.rs:47-68 | any sequence of clicks and completions keeps that invariant |
| Runtime.ReachableIsSingleFlight | src/main.rs:30-68 | from start-up, under any interleaving of clicks and completions, at most one search is ever in flight and the UI shows `Loading` exactly while it is |
| Runtime.CompletionSettles | src/main.rs:49-57 | resolving the one pending search leaves nothing pending and shows the card or the failure |

## Left out

- The iced widget tree, layout, styling and the `view` functions (src/main.rs:70-97, 110-125, 173-175): rendering over a third-party toolkit.
- The HTTP request, the `User-Agent` header and `async`/`await` (src/main.rs:139-145): network I/O, replaced by the `Response` input.
- JSON decoding with `serde_json::from_str(..).expect(..)` (src/main.rs:146): a foreign library call; the model starts from the decoded list. Any body that is not a list of repositories panics there instead of producing an `Error`: malformed JSON, a star count beyond `u16`, and also the well-formed JSON error object GitHub sends with a non-2xx status (a 403 rate-limit answer or a 404), since `send()` (src/main.rs:142) does not fail on such a status. In the `Runtime` model such a search simply never completes.
- Fetch.Showcase: an empty repository list is excluded by its precondition, because `repos[0]` panics on it rather than returning an error.
- Fetch.Search: a decoded empty list is excluded by its precondition, because `repos[0]` (src/main.rs:152) panics on it rather than returning an error.
- Text.ToUpper: only ASCII letters are upper-cased; full Unicode `to_uppercase` (which can change a string's length, as for `ß`) is not modelled.
- The `dbg!` logging in the error conversion (src/main.rs:167): a side effect only.
- `LanguageError` (src/main.rs:162) exists only as a constructor; nothing produces it.
- `Pokemon::TOTAL` (src/main.rs:108) is unused and not modelled.
- The `main` entry point and `Settings` (src/main.rs:7-9): process start-up.
