# PokiApplication main screen: view model and repository

This project models the core of the Pokémon catalogue app:

- `PokemonRepoImpl` turns one call into the remote catalogue service into a
  flow of `Result` envelopes: `Loading` first, then `Success` or `Error`.
  Any exception other than an `HttpException` or an `IOException` escapes.
- `MainViewModel` runs `fetchPokemonData` when it is created. This runs
  `getPokemon`, which collects one list page, then
  `getDetailsForAllPokemon`, which collects the detail flow of every listed
  item in order. Every envelope sets one flag of the `PokiUiState` through
  `copy`. The run then overwrites the flags with `{isSuccess}`, or with
  `{isError}` when an exception escaped.
- The search box sets `searchQuery`. `getFilteredPokemonList` keeps the
  listed items whose name contains the query, ignoring case.

The modules are:

- `Model`: the records, the `Result` envelope and a finite model of a
  collected flow (`Flow`: the emitted envelopes, and whether an exception
  escapes after them).
- `Repo`: the repository as pure functions of the service outcome. The
  service is a parameter.
- `Search`: the filter, with ASCII case folding.
- `ViewModelSpec`: the view model as functions over a snapshot of its
  fields (`VmState`). A stage returns a `Run`: the new fields, whether an
  exception escaped, the repository calls made and the values written to
  the UI state flow. The lemmas here state what a run implies.
- `ViewModel`: `class MainViewModel`, whose fields the methods update in
  place with the source's loops. Each method is proved to follow
  `ViewModelSpec`. The ghost fields `requests` and `uiLog` record the
  repository calls and every value written to `uiState`.
- `Scenarios`: the view model driven by the real `PokemonRepoImpl`, by kind
  of service outcome.

## Model

| member | source | states |
|---|---|---|
| Repo.Emit | pokemonAlpha/src/main/java/com/lawrence/pokemon/repo/PokemonRepoImpl.kt:25-34 | the flow is well formed: `Loading` first and nowhere else, at most two elements. A returned value gives exactly `[Loading, Success(v)]`. An `HttpException` gives `[Loading, Error(message or "")]`. An `IOException` gives `[Loading, Error("Please check your network connection and try again!")]`. Any other exception escapes after `[Loading]`, and the flow escapes only then |
| Repo.FetchPokemonList | pokemonAlpha/src/main/java/com/lawrence/pokemon/repo/PokemonRepoImpl.kt:22-35 | the service is asked for exactly `(offset, limit)`, and the flow is the well-formed emission of that outcome |
| Repo.FetchPokemonDetail | pokemonAlpha/src/main/java/com/lawrence/pokemon/repo/PokemonRepoImpl.kt:37-48 | the service is asked for exactly `name`, with the same emission shape as the list |
| Repo.PokemonRepoImpl | pokemonAlpha/src/main/java/com/lawrence/pokemon/repo/PokemonRepoImpl.kt:17-21 | seen through the repository interface, for every request: the flow is well formed, it escapes exactly when the service throws an exception other than `HttpException` or `IOException`, and a returned value gives exactly `[Loading, Success(v)]` |
| Repo.EmitReports | pokemonAlpha/src/main/java/com/lawrence/pokemon/repo/PokemonRepoImpl.kt:26-33 | a collector sees a `Success` exactly when the service returned, and then as the last element. It sees an `Error` exactly when the service threw an `HttpException` or an `IOException` |
| Repo.EmitLosesOnlyErrorKind | pokemonAlpha/src/main/java/com/lawrence/pokemon/repo/PokemonRepoImpl.kt:28-33 | two outcomes with the same flow agree on success, on the value and on escaping. Only the error kind can be lost: an `HttpException` whose message is null or the network text reads like the other error |
| Search.Fold | pokemonAlpha/src/main/java/com/lawrence/pokemon/viewModel/MainViewModel.kt:147 | an upper-case ASCII letter becomes the same letter in lower case; every other character is unchanged |
| Search.FoldAlike | pokemonAlpha/src/main/java/com/lawrence/pokemon/viewModel/MainViewModel.kt:148 | two characters compare equal ignoring case exactly when they are equal or are the two cases of one letter |
| Search.Lowercase | pokemonAlpha/src/main/java/com/lawrence/pokemon/viewModel/MainViewModel.kt:147 | same length, no upper-case ASCII letter left, and each character folds like the original |
| Search.FilterByName | pokemonAlpha/src/main/java/com/lawrence/pokemon/viewModel/MainViewModel.kt:148 | every kept item's name contains the query, ignoring case, and no more items than given are returned |
| Search.FilterIsSubsequence | pokemonAlpha/src/main/java/com/lawrence/pokemon/viewModel/MainViewModel.kt:148 | the result is a subsequence of the list: original order, nothing invented |
| Search.FilterCounts | pokemonAlpha/src/main/java/com/lawrence/pokemon/viewModel/MainViewModel.kt:148 | every matching item is kept as often as it occurs, and every other item is dropped |
| Search.ContainsEmpty | pokemonAlpha/src/main/java/com/lawrence/pokemon/viewModel/MainViewModel.kt:148 | the empty query occurs in every name |
| Search.ContainsLowercase | pokemonAlpha/src/main/java/com/lawrence/pokemon/viewModel/MainViewModel.kt:147-148 | lower-casing the query before an `ignoreCase` match changes no answer |
| Search.FilterEmptyQuery | pokemonAlpha/src/main/java/com/lawrence/pokemon/viewModel/MainViewModel.kt:146-149 | an empty query returns the whole list |
| Search.FilterNoMatch | pokemonAlpha/src/main/java/com/lawrence/pokemon/viewModel/MainViewModel.kt:146-149 | a query that no name contains returns `[]` |
| Search.FilterLowercaseQuery | pokemonAlpha/src/main/java/com/lawrence/pokemon/viewModel/MainViewModel.kt:147-148 | filtering with the lower-cased query is filtering with the query as typed |
| Search.FilterAppend | pokemonAlpha/src/main/java/com/lawrence/pokemon/viewModel/MainViewModel.kt:148 | filtering a concatenation filters each part, in order |
| Search.FilterIdempotent | pokemonAlpha/src/main/java/com/lawrence/pokemon/viewModel/MainViewModel.kt:148 | filtering twice with the same query is filtering once |
| Search.SubstringExample | pokemonAlpha/src/main/java/com/lawrence/pokemon/viewModel/MainViewModel.kt:148 | matching is by substring, not prefix: `"a"` keeps "alpha", "bravo" and "charlie", and `"PH"` keeps only "alpha" |
| ViewModelSpec.Mark | pokemonAlpha/src/main/java/com/lawrence/pokemon/viewModel/MainViewModel.kt:62-74 | one envelope sets exactly the flag of its kind and leaves the other two unchanged; no flag is cleared |
| ViewModelSpec.Flags | pokemonAlpha/src/main/java/com/lawrence/pokemon/viewModel/MainViewModel.kt:60-76 | collecting a flow never clears a flag |
| ViewModelSpec.FlagTrace | pokemonAlpha/src/main/java/com/lawrence/pokemon/viewModel/MainViewModel.kt:60-76 | one written value per envelope. Each value is the previous one with the envelope's flag set, and the last is the final flags |
| ViewModelSpec.CollectList | pokemonAlpha/src/main/java/com/lawrence/pokemon/viewModel/MainViewModel.kt:60-76 | the flags after the list flow are the accumulated flags; `pokemonItem` and `searchQuery` are untouched |
| ViewModelSpec.CollectDetail | pokemonAlpha/src/main/java/com/lawrence/pokemon/viewModel/MainViewModel.kt:81-96 | the flags after a detail flow are the accumulated flags; `pokemonList`, `model` and `searchQuery` are untouched |
| ViewModelSpec.DetailsOver | pokemonAlpha/src/main/java/com/lawrence/pokemon/viewModel/MainViewModel.kt:80-97 | the walk leaves the list, the page and the query untouched and never clears a flag. It makes at most one request per item, and exactly one per item when nothing escapes |
| ViewModelSpec.FetchRun | pokemonAlpha/src/main/java/com/lawrence/pokemon/viewModel/MainViewModel.kt:46-57 | the first value written is exactly `{isLoading}` and the first request is the page. The run ends in exactly `{isError}` when an exception escaped and in exactly `{isSuccess}` otherwise. That final value is the last one written, and the query is untouched |
| ViewModelSpec.FlagsAccumulate | pokemonAlpha/src/main/java/com/lawrence/pokemon/viewModel/MainViewModel.kt:62-74 | a flag is set after a flow exactly when it was set before or an envelope of its kind arrived (both directions, per flag) |
| ViewModelSpec.CollectListKeeps | pokemonAlpha/src/main/java/com/lawrence/pokemon/viewModel/MainViewModel.kt:62-74 | without a `Success`, `pokemonList` and `model` keep their values |
| ViewModelSpec.CollectListLastSuccess | pokemonAlpha/src/main/java/com/lawrence/pokemon/viewModel/MainViewModel.kt:66-70 | after a `Success`, `pokemonList` and `model` hold the results and the page of the last one |
| ViewModelSpec.CollectDetailKeeps | pokemonAlpha/src/main/java/com/lawrence/pokemon/viewModel/MainViewModel.kt:83-94 | without a detail `Success`, `pokemonItem` keeps its value |
| ViewModelSpec.CollectDetailLastSuccess | pokemonAlpha/src/main/java/com/lawrence/pokemon/viewModel/MainViewModel.kt:87-89 | after a detail `Success`, `pokemonItem` holds the data of the last one |
| ViewModelSpec.CollectDetailAppend | pokemonAlpha/src/main/java/com/lawrence/pokemon/viewModel/MainViewModel.kt:80-97 | collecting two detail flows one after the other is collecting their concatenation |
| ViewModelSpec.DetailsOverRequestOrder | pokemonAlpha/src/main/java/com/lawrence/pokemon/viewModel/MainViewModel.kt:80-81 | the k-th detail request is for the k-th listed item's name |
| ViewModelSpec.DetailsOverThrows | pokemonAlpha/src/main/java/com/lawrence/pokemon/viewModel/MainViewModel.kt:80-97 | the walk throws exactly when some item's flow escapes. It then stops at the first such item, and no later item is requested |
| ViewModelSpec.DetailsOverState | pokemonAlpha/src/main/java/com/lawrence/pokemon/viewModel/MainViewModel.kt:80-97 | the fields after the walk are those after collecting, in one go, every detail envelope of the requested items |
| ViewModelSpec.DetailsOverStep | pokemonAlpha/src/main/java/com/lawrence/pokemon/viewModel/MainViewModel.kt:80-81 | while nothing has escaped, one more item adds one request and one collected flow |
| ViewModelSpec.DetailsOverTracePrefix | pokemonAlpha/src/main/java/com/lawrence/pokemon/viewModel/MainViewModel.kt:80-97 | the values written while walking a prefix of the items are the first values written while walking all of them |
| ViewModelSpec.DetailsOverAfterThrow | pokemonAlpha/src/main/java/com/lawrence/pokemon/viewModel/MainViewModel.kt:80 | once an exception has left the `forEach`, the remaining items change nothing |
| ViewModelSpec.FetchRunThrows | pokemonAlpha/src/main/java/com/lawrence/pokemon/viewModel/MainViewModel.kt:49-54 | the run fails exactly when the list flow escapes, or `pokemonList` is still unassigned, or some listed item's detail flow escapes |
| ViewModelSpec.FetchRunSucceeds | pokemonAlpha/src/main/java/com/lawrence/pokemon/viewModel/MainViewModel.kt:48-52 | when nothing escapes, the run requests the page and then every listed item once, in order. It ends in exactly `{isSuccess}`, even when a detail flow emitted `Error` |
| ViewModelSpec.FirstRunListFailure | pokemonAlpha/src/main/java/com/lawrence/pokemon/viewModel/MainViewModel.kt:46-80 | when the page never arrives and `pokemonList` was never assigned, the detail stage throws on reading it. The run ends in exactly `{isError}` after one request |
| ViewModelSpec.FetchRunDetailEvents | pokemonAlpha/src/main/java/com/lawrence/pokemon/viewModel/MainViewModel.kt:79-98 | after a run whose page arrived, the fields are those after collecting every detail envelope of the requested items, with the flags overwritten at the end |
| ViewModel.MainViewModel.constructor | pokemonAlpha/src/main/java/com/lawrence/pokemon/viewModel/MainViewModel.kt:31-44 | fields start at all flags false, an empty query, unassigned list and page and default details. `init` then runs one full `fetchPokemonData` |
| ViewModel.MainViewModel.FetchPokemonData | pokemonAlpha/src/main/java/com/lawrence/pokemon/viewModel/MainViewModel.kt:46-57 | the fields, the requests and the written values are exactly those of `FetchRun` |
| ViewModel.MainViewModel.GetPokemon | pokemonAlpha/src/main/java/com/lawrence/pokemon/viewModel/MainViewModel.kt:59-77 | one page request, then the list flow collected envelope by envelope, as `ListStage` says |
| ViewModel.MainViewModel.CollectDetailFlow | pokemonAlpha/src/main/java/com/lawrence/pokemon/viewModel/MainViewModel.kt:81-96 | the detail flow collected envelope by envelope, as `CollectDetail` says, writing one value per envelope |
| ViewModel.MainViewModel.FetchDetailsOf | pokemonAlpha/src/main/java/com/lawrence/pokemon/viewModel/MainViewModel.kt:80-96 | one turn of the `forEach`: a request for exactly that name, then its flow collected |
| ViewModel.MainViewModel.GetDetailsForAllPokemon | pokemonAlpha/src/main/java/com/lawrence/pokemon/viewModel/MainViewModel.kt:79-98 | reading the unassigned list throws before any request; otherwise the walk is as `DetailStage` says |
| ViewModel.MainViewModel.FetchDetailsForEach | pokemonAlpha/src/main/java/com/lawrence/pokemon/viewModel/MainViewModel.kt:80-97 | the loop over the items does exactly what `DetailsOver` says, and stops at the first escaping flow |
| ViewModel.MainViewModel.OnSearchQueryChanged | pokemonAlpha/src/main/java/com/lawrence/pokemon/viewModel/MainViewModel.kt:142-144 | the query becomes exactly the argument and no other field changes |
| ViewModel.MainViewModel.GetFilteredPokemonList | pokemonAlpha/src/main/java/com/lawrence/pokemon/viewModel/MainViewModel.kt:146-149 | it fails exactly when the list was never assigned. Otherwise it returns the order-preserving subsequence of the list whose names contain the query, ignoring case: every match, with its multiplicity, and nothing else. An empty query gives the whole list, and nothing is modified |
| Scenarios.ListStageWithService | pokemonAlpha/src/main/java/com/lawrence/pokemon/viewModel/MainViewModel.kt:59-77 | `getPokemon` against the real repository, per service outcome. A returned page is stored and `isSuccess` set; an HTTP or network failure sets `isError` and keeps the old list; any other exception escapes after `isLoading` |
| Scenarios.RetryAfterFailedRun | pokemonAlpha/src/main/java/com/lawrence/pokemon/viewModel/MainViewModel.kt:59-77 | running `getPokemon` again after a failed run whose page then arrives leaves all three flags set |
| Scenarios.FirstRunListCallFails | pokemonAlpha/src/main/java/com/lawrence/pokemon/viewModel/MainViewModel.kt:42-57 | a first run whose list call fails over HTTP or the network writes `{isLoading}`, `{isLoading}`, `{isLoading, isError}`, `{isError}` and requests only the page |
| Scenarios.PageArrivesNoneThrows | pokemonAlpha/src/main/java/com/lawrence/pokemon/viewModel/MainViewModel.kt:46-98 | when the page arrives and no detail call throws another exception, the run requests the page, then every item once in order, stores the page and ends in `{isSuccess}` |
| Scenarios.PageAndDetailsArrive | pokemonAlpha/src/main/java/com/lawrence/pokemon/viewModel/MainViewModel.kt:87-89 | when every detail call returns, `pokemonItem` holds the details of the last listed item |
| Scenarios.DetailErrorIsOverwritten | pokemonAlpha/src/main/java/com/lawrence/pokemon/viewModel/MainViewModel.kt:46-98 | for any page, when some listed item's detail call fails with an `HttpException` or an `IOException` and no detail call throws another exception, a value with `isError` is written, yet the run ends in exactly `{isSuccess}` |
| Scenarios.DetailCallThrows | pokemonAlpha/src/main/java/com/lawrence/pokemon/viewModel/MainViewModel.kt:46-98 | when the k-th detail call throws another exception, the run ends in `{isError}`, and the items after the k-th are never requested |

## Left out

- Coroutines, `viewModelScope.launch`, `flowOn(dispatcher)` and `StateFlow`
  conflation: a flow is the finite sequence its collector receives, in
  order. A subscriber that skips intermediate `uiState` values is not modelled.
- The remote service and its transport: each distinct request has one
  input outcome (`ServiceOutcome`: returned, `HttpException` with an
  optional message, `IOException`, or any other exception). Two requests
  for the same name in one run get the same outcome.
- `OFFSET` and `LIMIT`: the constants file is not part of this model, so
  they are parameters of the constructor and of `FetchPokemonData`.
- ViewModel.MainViewModel.FetchPokemonData: the source's `fetchPokemonData`
  is private and runs once, from `init`, with the injected repository. The
  model's method is callable on any state and takes the repository, the
  offset and the limit as arguments, so a later call may pass a different
  repository. This generalises the single run from `init`.
- Throwables that are not `Exception`s (the `catch` catches only
  `Exception`): every escaping failure is modelled as caught.
- `DetailsModel` is reduced to its name. Its other fields are only carried
  through.
- `pagingData`, `imageUrl` and the commented-out block in
  `MainViewModel.kt` are unused. `DetailsViewModel` and the other view
  models, the Compose screens, navigation, dependency injection and
  serialisation annotations are outside this core.
- Search.Fold: Kotlin's `ignoreCase` folds every Unicode letter; the model
  folds ASCII letters only. Outside ASCII, Kotlin's `lowercase()` can also
  change a string's length (`"İ"` becomes `"i̇"`). So `ContainsLowercase`
  and `FilterLowercaseQuery` hold only for this ASCII model: in Kotlin,
  `"king".contains("İ", ignoreCase = true)` is true, but the same test with
  the lower-cased query is false.
- ViewModel.MainViewModel.FetchDetailsForEach: the `forEach` of
  `getDetailsForAllPokemon` is split into this loop and the one-turn method
  `FetchDetailsOf`. The behaviour is the same.
- Where the documentation and the code disagree, the model follows the
  code:
  - There is no map aggregating every item's details; only the last
    detail `Success` is kept, in `pokemonItem`.
  - Flags accumulate through `copy` rather than at most one being set.
  - A detail `Error` does not end the run in `{isError}`. The final
    assignment overwrites it with `{isSuccess}`, though the test at
    `MainViewModelTest.kt:104-124` expects `isError`.
  - An `IOException` reports the network message, though the test at
    `PokemonRepoImplTest.kt:97-115` expects `""`.
  - Detail fetches run one after another, not concurrently. There is no
    re-entry guard.
  - The filter matches substrings, so `"a"` keeps "alpha", "bravo" and
    "charlie".
- `FetchRunThrows` also covers a run that starts with a list already
  stored. Such a run only arises from the generalised `FetchPokemonData`:
  when its list call fails, it walks the stored list.
