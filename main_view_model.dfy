/** `MainViewModel`: the object whose fields the two fetch stages, the
    search box and the retry button update in place. Each method is proved
    to change the fields exactly as the matching function of ViewModelSpec
    says. The ghost field `requests` logs every call into the repository and
    `uiLog` every value written to the UI state flow. */
module ViewModel {
  import opened Model
  import opened Repo
  import opened Search
  import opened ViewModelSpec

  class MainViewModel {
    var uiState: PokiUiState
    var pokemonList: Option<seq<PokemonItem>>
    var model: Option<PokemonListModel>
    var pokemonItem: DetailsModel
    var searchQuery: string
    ghost var requests: seq<Request>
    ghost var uiLog: seq<PokiUiState>

    /** The fields as one value. */
    function State(): VmState
      reads this
    {
      VmState(uiState, pokemonList, model, pokemonItem, searchQuery)
    }

    /** The field initialisers, then `init { fetchPokemonData() }`. */
    constructor (repo: PokemonRepository, offset: int, limit: int)
      ensures var run := FetchRun(Initial, repo, offset, limit);
        State() == run.state && requests == run.requests && uiLog == run.trace
    {
      uiState := Idle;
      pokemonList := None;
      model := None;
      pokemonItem := DefaultDetails;
      searchQuery := "";
      requests := [];
      uiLog := [];
      new;
      FetchPokemonData(repo, offset, limit);
    }

    /** `fetchPokemonData()`: reset the flags to `{isLoading}`, run both
        stages, and overwrite the flags with `{isSuccess}`, or with
        `{isError}` when an exception escaped from either stage. */
    method FetchPokemonData(repo: PokemonRepository, offset: int, limit: int)
      modifies this
      ensures var run := FetchRun(old(State()), repo, offset, limit);
        && State() == run.state
        && requests == old(requests) + run.requests
        && uiLog == old(uiLog) + run.trace
    {
      ghost var req0, log0 := requests, uiLog;
      ghost var s1 := old(State()).(uiState := LoadingOnly);
      uiState := LoadingOnly;
      uiLog := uiLog + [uiState];
      assert State() == s1;
      var thrown := GetPokemon(repo, offset, limit);
      ghost var l := ListStage(s1, repo, offset, limit);
      ghost var d := if l.thrown then Run(l.state, true, [], []) else DetailStage(l.state, repo.fetchPokemonDetail);
      if !thrown {
        thrown := GetDetailsForAllPokemon(repo);
      } else {
        assert requests == req0 + l.requests + d.requests;
        assert uiLog == log0 + [LoadingOnly] + l.trace + d.trace;
      }
      assert State() == d.state && thrown == d.thrown;
      assert requests == req0 + (l.requests + d.requests);
      assert uiLog == log0 + ([LoadingOnly] + l.trace + d.trace);
      if thrown {
        uiState := ErrorOnly;
      } else {
        uiState := SuccessOnly;
      }
      uiLog := uiLog + [uiState];
    }

    /** `getPokemon()`: request the page and collect its flow; a `Success`
        stores the page and its results. `thrown` says that an exception
        escaped from the flow after the envelopes collected. */
    method GetPokemon(repo: PokemonRepository, offset: int, limit: int) returns (thrown: bool)
      modifies this
      ensures var run := ListStage(old(State()), repo, offset, limit);
        && State() == run.state && thrown == run.thrown
        && requests == old(requests) + run.requests
        && uiLog == old(uiLog) + run.trace
    {
      var flow := repo.fetchPokemonList(offset, limit);
      requests := requests + [ListRequest(offset, limit)];
      ghost var s0, log0 := State(), uiLog;
      var es := flow.emitted;
      var i := 0;
      while i < |es|
        invariant 0 <= i <= |es|
        invariant State() == CollectList(s0, es[..i])
        invariant uiLog == log0 + FlagTrace(s0.uiState, es[..i])
        invariant requests == old(requests) + [ListRequest(offset, limit)]
      {
        match es[i] {
          case Loading =>
            uiState := uiState.(isLoading := true);
          case Success(data) =>
            pokemonList := Some(data.results);
            model := Some(data);
            uiState := uiState.(isSuccess := true);
          case Error(_) =>
            uiState := uiState.(isError := true);
        }
        uiLog := uiLog + [uiState];
        assert es[..i + 1][..i] == es[..i];
        i := i + 1;
      }
      assert es[..i] == es;
      thrown := flow.escapes;
    }

    /** The `collect` of one detail flow inside `getDetailsForAllPokemon`: a
        `Success` stores the details in `pokemonItem`. */
    method CollectDetailFlow(flow: Flow<DetailsModel>)
      modifies this
      ensures State() == CollectDetail(old(State()), flow.emitted)
      ensures requests == old(requests)
      ensures uiLog == old(uiLog) + FlagTrace(old(uiState), flow.emitted)
    {
      ghost var s0, log0 := State(), uiLog;
      var es := flow.emitted;
      var i := 0;
      while i < |es|
        invariant 0 <= i <= |es|
        invariant State() == CollectDetail(s0, es[..i])
        invariant uiLog == log0 + FlagTrace(s0.uiState, es[..i])
        invariant requests == old(requests)
      {
        match es[i] {
          case Loading =>
            uiState := uiState.(isLoading := true);
          case Success(data) =>
            pokemonItem := data;
            uiState := uiState.(isSuccess := true);
          case Error(_) =>
            uiState := uiState.(isError := true);
        }
        uiLog := uiLog + [uiState];
        assert es[..i + 1][..i] == es[..i];
        i := i + 1;
      }
      assert es[..i] == es;
    }

    /** One turn of the `forEach` in `getDetailsForAllPokemon`: request the
        details of `name` and collect the flow. */
    method FetchDetailsOf(repo: PokemonRepository, name: string) returns (escapes: bool)
      modifies this
      ensures var flow := repo.fetchPokemonDetail(name);
        && State() == CollectDetail(old(State()), flow.emitted)
        && escapes == flow.escapes
        && requests == old(requests) + [DetailRequest(name)]
        && uiLog == old(uiLog) + FlagTrace(old(uiState), flow.emitted)
    {
      var flow := repo.fetchPokemonDetail(name);
      requests := requests + [DetailRequest(name)];
      CollectDetailFlow(flow);
      escapes := flow.escapes;
    }

    /** `getDetailsForAllPokemon()`: reading `pokemonList` before it was
        assigned throws at once; otherwise walk the list. */
    method GetDetailsForAllPokemon(repo: PokemonRepository) returns (thrown: bool)
      modifies this
      ensures var run := DetailStage(old(State()), repo.fetchPokemonDetail);
        && State() == run.state && thrown == run.thrown
        && requests == old(requests) + run.requests
        && uiLog == old(uiLog) + run.trace
    {
      if pokemonList.None? {
        assert requests == old(requests) + [] && uiLog == old(uiLog) + [];
        return true;
      }
      thrown := FetchDetailsForEach(repo, pokemonList.value);
    }

    /** The `forEach` of `getDetailsForAllPokemon`: for each item in order,
        request its details by name and collect the flow; an exception
        escaping from a detail flow leaves the loop. */
    method FetchDetailsForEach(repo: PokemonRepository, items: seq<PokemonItem>) returns (thrown: bool)
      modifies this
      ensures var run := DetailsOver(old(State()), items, repo.fetchPokemonDetail);
        && State() == run.state && thrown == run.thrown
        && requests == old(requests) + run.requests
        && uiLog == old(uiLog) + run.trace
    {
      ghost var s0, req0, log0 := State(), requests, uiLog;
      ghost var fetch := repo.fetchPokemonDetail;
      ghost var run := DetailsOver(s0, items[..0], fetch);
      var j := 0;
      while j < |items|
        invariant 0 <= j <= |items|
        invariant run == DetailsOver(s0, items[..j], fetch)
        invariant !run.thrown && State() == run.state
        invariant requests == req0 + run.requests && uiLog == log0 + run.trace
      {
        DetailsOverStep(s0, items, j, fetch);
        var escapes := FetchDetailsOf(repo, items[j].name);
        run := DetailsOver(s0, items[..j + 1], fetch);
        if escapes {
          DetailsOverAfterThrow(s0, items, j + 1, fetch);
          return true;
        }
        j := j + 1;
      }
      assert items[..j] == items;
      thrown := false;
    }

    /** `onSearchQueryChanged(query)`. */
    method OnSearchQueryChanged(query: string)
      modifies this`searchQuery
      ensures State() == old(State()).(searchQuery := query)
    {
      searchQuery := query;
    }

    /** `getFilteredPokemonList()`: the listed items whose name contains the
        query, ignoring case, in list order. `None` stands for the exception
        thrown when `pokemonList` was never assigned. */
    function GetFilteredPokemonList(): (r: Option<seq<PokemonItem>>)
      reads this
      ensures r.None? <==> pokemonList.None?
      ensures r.Some? ==> forall k :: 0 <= k < |r.value| ==> NameMatches(r.value[k], searchQuery)
      ensures r.Some? ==> IsSubsequence(r.value, pokemonList.value)
      ensures r.Some? ==>
        forall x :: multiset(r.value)[x] == (if NameMatches(x, searchQuery) then multiset(pokemonList.value)[x] else 0)
      ensures r.Some? && searchQuery == "" ==> r.value == pokemonList.value
    {
      match pokemonList
      case None => None
      case Some(items) =>
        FilterLowercaseQuery(items, searchQuery);
        FilterEmptyQuery(items);
        FilterIsSubsequence(items, searchQuery);
        FilterCounts(items, searchQuery);
        Some(FilterByName(items, Lowercase(searchQuery)))
    }
  }
}
