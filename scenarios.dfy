/** The view model driven by the real repository, `PokemonRepoImpl`, over a
    given remote service: what a whole run does for each kind of service
    outcome. */
module Scenarios {
  import opened Model
  import opened Repo
  import opened ViewModelSpec

  /** `getPokemon()` against the real repository, by outcome of the list
      call: `Loading` then `Success` stores the page; `Loading` then `Error`
      keeps the old list; any other exception escapes after `Loading`.
      Every flag set before stays set. */
  lemma ListStageWithService(s: VmState, service: PokemonService, offset: int, limit: int)
    ensures var r := ListStage(s, PokemonRepoImpl(service), offset, limit);
      var u := s.uiState.(isLoading := true);
      match service.getPokemonList(offset, limit)
      case Ok(m) =>
        && !r.thrown
        && r.state == s.(uiState := u.(isSuccess := true), pokemonList := Some(m.results), model := Some(m))
        && r.trace == [u, u.(isSuccess := true)]
      case HttpErr(_) =>
        && !r.thrown
        && r.state == s.(uiState := u.(isError := true))
        && r.trace == [u, u.(isError := true)]
      case IoErr =>
        && !r.thrown
        && r.state == s.(uiState := u.(isError := true))
        && r.trace == [u, u.(isError := true)]
      case OtherErr =>
        && r.thrown
        && r.state == s.(uiState := u)
        && r.trace == [u]
  {
    var es := FetchPokemonList(service, offset, limit).emitted;
    if service.getPokemonList(offset, limit).OtherErr? {
      assert es[..0] == [];
    } else {
      assert es[..1][..0] == [] && es[..2][..1] == es[..1] && es[..2] == es;
      assert CollectList(s, es[..1]) == OnListResult(s, Loading);
      assert CollectList(s, es) == OnListResult(OnListResult(s, Loading), es[1]);
    }
  }

  /** The retry button runs `getPokemon()` alone. After a failed run the
      flags are `{isError}`; a retry whose page arrives sets `isLoading` and
      `isSuccess` beside it, so all three flags end up set. */
  lemma RetryAfterFailedRun(s: VmState, service: PokemonService, offset: int, limit: int, m: PokemonListModel)
    requires s.uiState == ErrorOnly
    requires service.getPokemonList(offset, limit) == Ok(m)
    ensures var r := ListStage(s, PokemonRepoImpl(service), offset, limit);
      && r.state.uiState == PokiUiState(true, true, true)
      && r.state.pokemonList == Some(m.results)
  {
    ListStageWithService(s, service, offset, limit);
  }

  /** A first run whose list call fails with an `HttpException` or an
      `IOException` ends in `{isError}` after writing `{isLoading}`, then
      `isLoading` again, then `isError`, and requests nothing but the page. */
  lemma FirstRunListCallFails(service: PokemonService, offset: int, limit: int)
    requires service.getPokemonList(offset, limit).HttpErr? || service.getPokemonList(offset, limit).IoErr?
    ensures var r := FetchRun(Initial, PokemonRepoImpl(service), offset, limit);
      && r.state.uiState == ErrorOnly
      && r.state.pokemonList.None? && r.state.model.None?
      && r.requests == [ListRequest(offset, limit)]
      && r.trace == [LoadingOnly, LoadingOnly, PokiUiState(false, true, true), ErrorOnly]
  {
    var s1 := Initial.(uiState := LoadingOnly);
    ListStageWithService(s1, service, offset, limit);
  }

  /** All details of the listed items requested in order. */
  function DetailRequests(items: seq<PokemonItem>): seq<Request>
  {
    seq(|items|, k requires 0 <= k < |items| => DetailRequest(items[k].name))
  }

  /** When the page arrives and no detail call throws anything but an
      `HttpException` or an `IOException`, the run ends in exactly
      `{isSuccess}`, having requested the page and then every listed item's
      details once, in list order; the page and its results are stored. */
  lemma PageArrivesNoneThrows(s: VmState, service: PokemonService, offset: int, limit: int, m: PokemonListModel)
    requires service.getPokemonList(offset, limit) == Ok(m)
    requires forall k :: 0 <= k < |m.results| ==> !service.getPokemonDetails(m.results[k].name).OtherErr?
    ensures var r := FetchRun(s, PokemonRepoImpl(service), offset, limit);
      && r.state.uiState == SuccessOnly
      && r.state.pokemonList == Some(m.results) && r.state.model == Some(m)
      && r.requests == [ListRequest(offset, limit)] + DetailRequests(m.results)
  {
    var repo := PokemonRepoImpl(service);
    ListStageWithService(s.(uiState := LoadingOnly), service, offset, limit);
    FetchRunSucceeds(s, repo, offset, limit, m.results);
    var r := FetchRun(s, repo, offset, limit);
    assert r.requests == [ListRequest(offset, limit)] + DetailRequests(m.results);
  }

  /** ... and when every detail call returns, `pokemonItem` holds the details
      of the last listed item. */
  lemma PageAndDetailsArrive(s: VmState, service: PokemonService, offset: int, limit: int, m: PokemonListModel)
    requires service.getPokemonList(offset, limit) == Ok(m)
    requires forall k :: 0 <= k < |m.results| ==> service.getPokemonDetails(m.results[k].name).Ok?
    requires m.results != []
    ensures var r := FetchRun(s, PokemonRepoImpl(service), offset, limit);
      r.state.pokemonItem == service.getPokemonDetails(m.results[|m.results| - 1].name).v
  {
    var repo := PokemonRepoImpl(service);
    var items := m.results;
    ListStageWithService(s.(uiState := LoadingOnly), service, offset, limit);
    PageArrivesNoneThrows(s, service, offset, limit, m);
    FetchRunDetailEvents(s, repo, offset, limit, items);
    var r := FetchRun(s, repo, offset, limit);
    assert items[..|r.requests| - 1] == items;
    var n := |items| - 1;
    var last := service.getPokemonDetails(items[n].name);
    var es := DetailEvents(items, repo.fetchPokemonDetail);
    assert items[..n + 1] == items;
    assert es == DetailEvents(items[..n], repo.fetchPokemonDetail) + [Loading, Success(last.v)];
    var l := CollectList(s.(uiState := LoadingOnly), repo.fetchPokemonList(offset, limit).emitted);
    CollectDetailLastSuccess(l, es, |es| - 1);
  }

  /** A detail call that fails with an `HttpException` or an `IOException`
      does not make the run fail: the `Error` sets `isError` in a value
      written to the state flow, which the final `{isSuccess}` then
      overwrites. */
  lemma DetailErrorIsOverwritten(s: VmState, service: PokemonService, offset: int, limit: int, m: PokemonListModel, k: nat)
    requires service.getPokemonList(offset, limit) == Ok(m)
    requires k < |m.results|
    requires service.getPokemonDetails(m.results[k].name).HttpErr? || service.getPokemonDetails(m.results[k].name).IoErr?
    requires forall j :: 0 <= j < |m.results| ==> !service.getPokemonDetails(m.results[j].name).OtherErr?
    ensures var r := FetchRun(s, PokemonRepoImpl(service), offset, limit);
      && r.state.uiState == SuccessOnly
      && exists i :: 0 <= i < |r.trace| && r.trace[i].isError
  {
    var repo := PokemonRepoImpl(service);
    var fetch := repo.fetchPokemonDetail;
    var items := m.results;
    var s1 := s.(uiState := LoadingOnly);
    ListStageWithService(s1, service, offset, limit);
    var l := ListStage(s1, repo, offset, limit);
    FetchRunSucceeds(s, repo, offset, limit, items);
    // The walk reaches item k without throwing.
    DetailsOverThrows(l.state, items[..k], fetch);
    var prev := DetailsOver(l.state, items[..k], fetch);
    assert !prev.thrown by {
      forall j | 0 <= j < k ensures !fetch(items[..k][j].name).escapes {
        assert items[..k][j] == items[j];
      }
    }
    DetailsOverStep(l.state, items, k, fetch);
    // Item k's flow is [Loading, Error(_)]: its second written value has isError.
    var es := fetch(items[k].name).emitted;
    assert es[1].Error?;
    var t := FlagTrace(prev.state.uiState, es);
    assert t[1].isError;
    var next := DetailsOver(l.state, items[..k + 1], fetch);
    assert next.trace[|prev.trace| + 1] == t[1];
    DetailsOverTracePrefix(l.state, items, k + 1, fetch);
    var d := DetailsOver(l.state, items, fetch);
    var i := |prev.trace| + 1;
    assert d.trace[i].isError;
    var r := FetchRun(s, repo, offset, limit);
    assert r.trace == [LoadingOnly] + l.trace + d.trace + [r.state.uiState];
    assert r.trace[1 + |l.trace| + i] == d.trace[i];
  }

  /** When the detail call of the `k`-th item throws an exception other than
      an `HttpException` or an `IOException`, the earlier calls having
      returned, the run ends in `{isError}` and the later items' details are
      never requested. */
  lemma DetailCallThrows(s: VmState, service: PokemonService, offset: int, limit: int, m: PokemonListModel, k: nat)
    requires service.getPokemonList(offset, limit) == Ok(m)
    requires k < |m.results|
    requires service.getPokemonDetails(m.results[k].name).OtherErr?
    requires forall j :: 0 <= j < k ==> !service.getPokemonDetails(m.results[j].name).OtherErr?
    ensures var r := FetchRun(s, PokemonRepoImpl(service), offset, limit);
      && r.state.uiState == ErrorOnly
      && r.requests == [ListRequest(offset, limit)] + DetailRequests(m.results[..k + 1])
  {
    var repo := PokemonRepoImpl(service);
    var items := m.results;
    var l := ListStage(s.(uiState := LoadingOnly), repo, offset, limit);
    ListStageWithService(s.(uiState := LoadingOnly), service, offset, limit);
    DetailsOverThrows(l.state, items, repo.fetchPokemonDetail);
    DetailsOverRequestOrder(l.state, items, repo.fetchPokemonDetail);
    var d := DetailsOver(l.state, items, repo.fetchPokemonDetail);
    assert repo.fetchPokemonDetail(items[k].name).escapes;
    var n := |d.requests|;
    assert n == k + 1;
    assert d.requests == DetailRequests(items[..k + 1]);
  }
}
