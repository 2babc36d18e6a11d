/** The behaviour of `MainViewModel` as functions over a snapshot of its
    fields. The class in module ViewModel is proved to follow these
    functions step by step; the lemmas here state what they imply. */
module ViewModelSpec {
  import opened Model
  import opened Repo

  /** `PokiUiState`: three independent flags. */
  datatype PokiUiState = PokiUiState(isSuccess: bool, isLoading: bool, isError: bool)

  /** `PokiUiState()`, and the three values built with one named argument. */
  const Idle: PokiUiState := PokiUiState(false, false, false)
  const LoadingOnly: PokiUiState := PokiUiState(false, true, false)
  const SuccessOnly: PokiUiState := PokiUiState(true, false, false)
  const ErrorOnly: PokiUiState := PokiUiState(false, false, true)

  /** Every flag set in `u` is still set in `w`. */
  predicate Includes(u: PokiUiState, w: PokiUiState)
  {
    && (u.isSuccess ==> w.isSuccess)
    && (u.isLoading ==> w.isLoading)
    && (u.isError ==> w.isError)
  }

  /** What one collected envelope does to the flags:
      `_uiState.update { it.copy(<flag> = true) }` for the flag of its kind. */
  function Mark<T>(u: PokiUiState, e: Result<T>): (w: PokiUiState)
    ensures Includes(u, w)
    ensures w.isLoading == (u.isLoading || e.Loading?)
    ensures w.isSuccess == (u.isSuccess || e.Success?)
    ensures w.isError == (u.isError || e.Error?)
  {
    match e
    case Loading => u.(isLoading := true)
    case Success(_) => u.(isSuccess := true)
    case Error(_) => u.(isError := true)
  }

  /** The flags after collecting `es`, in order, starting from `u`. */
  function Flags<T>(u: PokiUiState, es: seq<Result<T>>): (w: PokiUiState)
    ensures Includes(u, w)
    decreases |es|
  {
    if es == [] then u else Mark(Flags(u, es[..|es| - 1]), es[|es| - 1])
  }

  /** The values written to the state flow while collecting `es`: one per
      envelope, each obtained from the one before by setting one flag. */
  function FlagTrace<T>(u: PokiUiState, es: seq<Result<T>>): (t: seq<PokiUiState>)
    ensures |t| == |es|
    ensures es != [] ==> t[0] == Mark(u, es[0]) && t[|es| - 1] == Flags(u, es)
    ensures forall k :: 0 < k < |es| ==> t[k] == Mark(t[k - 1], es[k])
    decreases |es|
  {
    if es == [] then []
    else
      var init := es[..|es| - 1];
      assert forall k :: 0 <= k < |init| ==> init[k] == es[k];
      FlagTrace(u, init) + [Flags(u, es)]
  }

  /** The fields of `MainViewModel` that the code reads or writes. The two
      `lateinit` fields are `None` until assigned; reading them then throws. */
  datatype VmState = VmState(
    uiState: PokiUiState,
    pokemonList: Option<seq<PokemonItem>>,
    model: Option<PokemonListModel>,
    pokemonItem: DetailsModel,
    searchQuery: string)

  /** The field initialisers, before `init` runs. */
  const Initial: VmState := VmState(Idle, None, None, DefaultDetails, "")

  /** One call into the repository. */
  datatype Request = ListRequest(offset: int, limit: int) | DetailRequest(name: string)

  /** The outcome of one stage: the fields afterwards, whether an exception
      escaped, the repository calls made and the values written to the
      state flow, in order. */
  datatype Run = Run(state: VmState, thrown: bool, requests: seq<Request>, trace: seq<PokiUiState>)

  /** The `when` branch of `getPokemon` for one envelope. */
  function OnListResult(s: VmState, e: Result<PokemonListModel>): VmState
  {
    var t := s.(uiState := Mark(s.uiState, e));
    if e.Success? then t.(pokemonList := Some(e.data.results), model := Some(e.data)) else t
  }

  /** The `when` branch of `getDetailsForAllPokemon` for one envelope. */
  function OnDetailResult(s: VmState, e: Result<DetailsModel>): VmState
  {
    var t := s.(uiState := Mark(s.uiState, e));
    if e.Success? then t.(pokemonItem := e.data) else t
  }

  /** Collecting a list flow's envelopes in order. */
  function CollectList(s: VmState, es: seq<Result<PokemonListModel>>): (r: VmState)
    ensures r.uiState == Flags(s.uiState, es)
    ensures r.pokemonItem == s.pokemonItem && r.searchQuery == s.searchQuery
    decreases |es|
  {
    if es == [] then s else OnListResult(CollectList(s, es[..|es| - 1]), es[|es| - 1])
  }

  /** Collecting a detail flow's envelopes in order. */
  function CollectDetail(s: VmState, es: seq<Result<DetailsModel>>): (r: VmState)
    ensures r.uiState == Flags(s.uiState, es)
    ensures r.pokemonList == s.pokemonList && r.model == s.model && r.searchQuery == s.searchQuery
    decreases |es|
  {
    if es == [] then s else OnDetailResult(CollectDetail(s, es[..|es| - 1]), es[|es| - 1])
  }

  /** `getPokemon()`: request the page and collect its flow. */
  function ListStage(s: VmState, repo: PokemonRepository, offset: int, limit: int): Run
  {
    var f := repo.fetchPokemonList(offset, limit);
    Run(CollectList(s, f.emitted), f.escapes, [ListRequest(offset, limit)], FlagTrace(s.uiState, f.emitted))
  }

  /** The `forEach` of `getDetailsForAllPokemon` over `items`: for each item
      in order, request its details by name and collect the flow; the first
      exception that escapes ends the walk. */
  function DetailsOver(s: VmState, items: seq<PokemonItem>, fetch: string -> Flow<DetailsModel>): (r: Run)
    ensures r.state.pokemonList == s.pokemonList && r.state.model == s.model
    ensures r.state.searchQuery == s.searchQuery
    ensures Includes(s.uiState, r.state.uiState)
    ensures |r.requests| <= |items|
    ensures !r.thrown ==> |r.requests| == |items|
    decreases |items|
  {
    if items == [] then Run(s, false, [], [])
    else
      var prev := DetailsOver(s, items[..|items| - 1], fetch);
      if prev.thrown then prev
      else
        var name := items[|items| - 1].name;
        var f := fetch(name);
        Run(CollectDetail(prev.state, f.emitted), f.escapes,
            prev.requests + [DetailRequest(name)],
            prev.trace + FlagTrace(prev.state.uiState, f.emitted))
  }

  /** `getDetailsForAllPokemon()`: reading the uninitialised `pokemonList`
      throws before any request is made. */
  function DetailStage(s: VmState, fetch: string -> Flow<DetailsModel>): Run
  {
    match s.pokemonList
    case None => Run(s, true, [], [])
    case Some(items) => DetailsOver(s, items, fetch)
  }

  /** `fetchPokemonData()`: write `{isLoading}`, run both stages, and write
      `{isSuccess}`, or `{isError}` when either stage threw. `thrown` records
      that the final `catch` ran. */
  function FetchRun(s: VmState, repo: PokemonRepository, offset: int, limit: int): (r: Run)
    ensures r.state.uiState == (if r.thrown then ErrorOnly else SuccessOnly)
    ensures |r.trace| >= 2 && r.trace[0] == LoadingOnly && r.trace[|r.trace| - 1] == r.state.uiState
    ensures |r.requests| >= 1 && r.requests[0] == ListRequest(offset, limit)
    ensures r.state.searchQuery == s.searchQuery
  {
    var s1 := s.(uiState := LoadingOnly);
    var l := ListStage(s1, repo, offset, limit);
    var d := if l.thrown then Run(l.state, true, [], []) else DetailStage(l.state, repo.fetchPokemonDetail);
    var final := if d.thrown then ErrorOnly else SuccessOnly;
    Run(d.state.(uiState := final), d.thrown, l.requests + d.requests, [LoadingOnly] + l.trace + d.trace + [final])
  }

  // ---------------------------------------------------------------------
  // Flags

  /** Collecting envelopes only ever sets flags, and a flag ends up set
      exactly when it was set before or an envelope of its kind arrived. */
  lemma {:induction false} FlagsAccumulate<T>(u: PokiUiState, es: seq<Result<T>>)
    ensures Flags(u, es).isLoading <==> u.isLoading || exists k :: 0 <= k < |es| && es[k].Loading?
    ensures Flags(u, es).isSuccess <==> u.isSuccess || exists k :: 0 <= k < |es| && es[k].Success?
    ensures Flags(u, es).isError <==> u.isError || exists k :: 0 <= k < |es| && es[k].Error?
    decreases |es|
  {
    if es != [] {
      var n := |es| - 1;
      var init := es[..n];
      FlagsAccumulate(u, init);
      assert forall k :: 0 <= k < n ==> init[k] == es[k];
      if exists k :: 0 <= k < |es| && es[k].Loading? {
        var k :| 0 <= k < |es| && es[k].Loading?;
        if k < n { assert init[k].Loading?; }
      }
      if exists k :: 0 <= k < |es| && es[k].Success? {
        var k :| 0 <= k < |es| && es[k].Success?;
        if k < n { assert init[k].Success?; }
      }
      if exists k :: 0 <= k < |es| && es[k].Error? {
        var k :| 0 <= k < |es| && es[k].Error?;
        if k < n { assert init[k].Error?; }
      }
    }
  }

  // ---------------------------------------------------------------------
  // Fields other than the flags

  /** In `getPokemon` only a `Success` writes `pokemonList` and `model`:
      without one they keep their values. */
  lemma {:induction false} CollectListKeeps(s: VmState, es: seq<Result<PokemonListModel>>)
    requires forall k :: 0 <= k < |es| ==> !es[k].Success?
    ensures CollectList(s, es).pokemonList == s.pokemonList && CollectList(s, es).model == s.model
    decreases |es|
  {
    if es != [] {
      var init := es[..|es| - 1];
      assert forall k :: 0 <= k < |init| ==> init[k] == es[k];
      CollectListKeeps(s, init);
    }
  }

  /** ... and after one they hold the data of the last `Success`. */
  lemma {:induction false} CollectListLastSuccess(s: VmState, es: seq<Result<PokemonListModel>>, k: nat)
    requires k < |es| && es[k].Success?
    requires forall j :: k < j < |es| ==> !es[j].Success?
    ensures CollectList(s, es).pokemonList == Some(es[k].data.results)
    ensures CollectList(s, es).model == Some(es[k].data)
    decreases |es|
  {
    var n := |es| - 1;
    if k < n {
      var init := es[..n];
      assert init[k] == es[k];
      assert forall j :: k < j < n ==> init[j] == es[j];
      CollectListLastSuccess(s, init, k);
    }
  }

  /** In `getDetailsForAllPokemon` only a `Success` writes `pokemonItem`:
      without one it keeps its value. */
  lemma {:induction false} CollectDetailKeeps(s: VmState, es: seq<Result<DetailsModel>>)
    requires forall k :: 0 <= k < |es| ==> !es[k].Success?
    ensures CollectDetail(s, es).pokemonItem == s.pokemonItem
    decreases |es|
  {
    if es != [] {
      var init := es[..|es| - 1];
      assert forall k :: 0 <= k < |init| ==> init[k] == es[k];
      CollectDetailKeeps(s, init);
    }
  }

  /** ... and after one it holds the data of the last `Success`. */
  lemma {:induction false} CollectDetailLastSuccess(s: VmState, es: seq<Result<DetailsModel>>, k: nat)
    requires k < |es| && es[k].Success?
    requires forall j :: k < j < |es| ==> !es[j].Success?
    ensures CollectDetail(s, es).pokemonItem == es[k].data
    decreases |es|
  {
    var n := |es| - 1;
    if k < n {
      var init := es[..n];
      assert init[k] == es[k];
      assert forall j :: k < j < n ==> init[j] == es[j];
      CollectDetailLastSuccess(s, init, k);
    }
  }

  /** Collecting two flows one after the other is collecting their
      concatenation. */
  lemma {:induction false} CollectDetailAppend(s: VmState, xs: seq<Result<DetailsModel>>, ys: seq<Result<DetailsModel>>)
    ensures CollectDetail(s, xs + ys) == CollectDetail(CollectDetail(s, xs), ys)
    decreases |ys|
  {
    if ys == [] {
      assert xs + ys == xs;
    } else {
      var n := |ys| - 1;
      assert (xs + ys)[..|xs + ys| - 1] == xs + ys[..n];
      assert (xs + ys)[|xs + ys| - 1] == ys[n];
      CollectDetailAppend(s, xs, ys[..n]);
    }
  }

  // ---------------------------------------------------------------------
  // The detail stage

  /** All detail envelopes collected while walking `items`, in order. */
  function DetailEvents(items: seq<PokemonItem>, fetch: string -> Flow<DetailsModel>): seq<Result<DetailsModel>>
    decreases |items|
  {
    if items == [] then []
    else DetailEvents(items[..|items| - 1], fetch) + fetch(items[|items| - 1].name).emitted
  }

  /** Details are requested once per item, by name, in list order: the
      walk's requests are a prefix of the items' names, all of them when
      nothing throws (DetailsOver). */
  lemma {:induction false} DetailsOverRequestOrder(s: VmState, items: seq<PokemonItem>, fetch: string -> Flow<DetailsModel>)
    ensures var r := DetailsOver(s, items, fetch);
      forall k :: 0 <= k < |r.requests| ==> r.requests[k] == DetailRequest(items[k].name)
    decreases |items|
  {
    if items != [] {
      var n := |items| - 1;
      var init := items[..n];
      DetailsOverRequestOrder(s, init, fetch);
      var prev := DetailsOver(s, init, fetch);
      forall k | 0 <= k < |prev.requests|
        ensures prev.requests[k] == DetailRequest(items[k].name)
      {
        assert init[k] == items[k];
      }
    }
  }

  /** The walk throws exactly when some item's detail flow throws, and then
      the last item requested is the first such item. */
  lemma {:induction false} DetailsOverThrows(s: VmState, items: seq<PokemonItem>, fetch: string -> Flow<DetailsModel>)
    ensures var r := DetailsOver(s, items, fetch);
      && (r.thrown <==> exists k :: 0 <= k < |items| && fetch(items[k].name).escapes)
      && (r.thrown ==> 0 < |r.requests| && fetch(items[|r.requests| - 1].name).escapes)
      && (forall k :: 0 <= k < |r.requests| - 1 ==> !fetch(items[k].name).escapes)
    decreases |items|
  {
    if items != [] {
      var n := |items| - 1;
      var init := items[..n];
      DetailsOverThrows(s, init, fetch);
      var prev := DetailsOver(s, init, fetch);
      assert forall k :: 0 <= k < n ==> init[k] == items[k];
      if prev.thrown {
        var k :| 0 <= k < n && fetch(init[k].name).escapes;
        assert fetch(items[k].name).escapes;
      }
    }
  }

  /** The walk's fields are those after collecting, in one go, every detail
      envelope of the items it requested. */
  lemma {:induction false} DetailsOverState(s: VmState, items: seq<PokemonItem>, fetch: string -> Flow<DetailsModel>)
    ensures var r := DetailsOver(s, items, fetch);
      r.state == CollectDetail(s, DetailEvents(items[..|r.requests|], fetch))
    decreases |items|
  {
    if items == [] {
      assert items[..0] == [];
    } else {
      var n := |items| - 1;
      var init := items[..n];
      DetailsOverState(s, init, fetch);
      var prev := DetailsOver(s, init, fetch);
      var m := |prev.requests|;
      assert init[..m] == items[..m];
      if !prev.thrown {
        var es := fetch(items[n].name).emitted;
        assert init[..m] == init;
        assert items[..n + 1] == items;
        assert DetailEvents(items, fetch) == DetailEvents(init, fetch) + es;
        CollectDetailAppend(s, DetailEvents(init, fetch), es);
      }
    }
  }

  /** One more item of the walk, while nothing has thrown. */
  lemma DetailsOverStep(s: VmState, items: seq<PokemonItem>, j: nat, fetch: string -> Flow<DetailsModel>)
    requires j < |items|
    requires !DetailsOver(s, items[..j], fetch).thrown
    ensures var prev := DetailsOver(s, items[..j], fetch);
      var f := fetch(items[j].name);
      DetailsOver(s, items[..j + 1], fetch) ==
        Run(CollectDetail(prev.state, f.emitted), f.escapes,
            prev.requests + [DetailRequest(items[j].name)],
            prev.trace + FlagTrace(prev.state.uiState, f.emitted))
  {
    assert items[..j + 1][..j] == items[..j];
  }

  /** The values written while walking a prefix of the items are the first
      values written while walking all of them. */
  lemma {:induction false} DetailsOverTracePrefix(s: VmState, items: seq<PokemonItem>, j: nat, fetch: string -> Flow<DetailsModel>)
    requires j <= |items|
    ensures var p, r := DetailsOver(s, items[..j], fetch), DetailsOver(s, items, fetch);
      |p.trace| <= |r.trace| && forall i :: 0 <= i < |p.trace| ==> r.trace[i] == p.trace[i]
    decreases |items|
  {
    if j == |items| {
      assert items[..j] == items;
    } else {
      var n := |items| - 1;
      assert items[..n][..j] == items[..j];
      DetailsOverTracePrefix(s, items[..n], j, fetch);
    }
  }

  /** Once the walk has thrown, walking further items changes nothing: the
      `forEach` has been left. */
  lemma {:induction false} DetailsOverAfterThrow(s: VmState, items: seq<PokemonItem>, k: nat, fetch: string -> Flow<DetailsModel>)
    requires k <= |items|
    requires DetailsOver(s, items[..k], fetch).thrown
    ensures DetailsOver(s, items, fetch) == DetailsOver(s, items[..k], fetch)
    decreases |items|
  {
    if k < |items| {
      var n := |items| - 1;
      assert items[..n][..k] == items[..k];
      DetailsOverAfterThrow(s, items[..n], k, fetch);
    } else {
      assert items[..k] == items;
    }
  }

  // ---------------------------------------------------------------------
  // fetchPokemonData

  /** The run ends in `{isError}` exactly when the list flow throws, or it
      leaves `pokemonList` uninitialised, or some item's detail flow throws;
      otherwise in `{isSuccess}`, whatever `Error` envelopes were collected. */
  lemma FetchRunThrows(s: VmState, repo: PokemonRepository, offset: int, limit: int)
    ensures var l := CollectList(s.(uiState := LoadingOnly), repo.fetchPokemonList(offset, limit).emitted);
      FetchRun(s, repo, offset, limit).thrown <==>
        || repo.fetchPokemonList(offset, limit).escapes
        || l.pokemonList.None?
        || exists k :: 0 <= k < |l.pokemonList.value| && repo.fetchPokemonDetail(l.pokemonList.value[k].name).escapes
  {
    var s1 := s.(uiState := LoadingOnly);
    var l := CollectList(s1, repo.fetchPokemonList(offset, limit).emitted);
    if l.pokemonList.Some? {
      DetailsOverThrows(l, l.pokemonList.value, repo.fetchPokemonDetail);
    }
  }

  /** When no exception escapes, the run requests the page and then the
      details of every listed item in order, and ends in exactly
      `{isSuccess}`, even when a detail flow emitted `Error`. */
  lemma FetchRunSucceeds(s: VmState, repo: PokemonRepository, offset: int, limit: int, items: seq<PokemonItem>)
    requires !repo.fetchPokemonList(offset, limit).escapes
    requires CollectList(s.(uiState := LoadingOnly), repo.fetchPokemonList(offset, limit).emitted).pokemonList == Some(items)
    requires forall k :: 0 <= k < |items| ==> !repo.fetchPokemonDetail(items[k].name).escapes
    ensures var r := FetchRun(s, repo, offset, limit);
      && r.state.uiState == SuccessOnly
      && |r.requests| == |items| + 1
      && r.requests[0] == ListRequest(offset, limit)
      && forall k :: 0 <= k < |items| ==> r.requests[k + 1] == DetailRequest(items[k].name)
  {
    var l := CollectList(s.(uiState := LoadingOnly), repo.fetchPokemonList(offset, limit).emitted);
    DetailsOverThrows(l, items, repo.fetchPokemonDetail);
    DetailsOverRequestOrder(l, items, repo.fetchPokemonDetail);
  }

  /** On a first run whose page never arrives (the list flow emits no
      `Success`), the detail stage reads the uninitialised list and throws:
      the run ends in exactly `{isError}` after a single request. */
  lemma FirstRunListFailure(s: VmState, repo: PokemonRepository, offset: int, limit: int)
    requires s.pokemonList.None?
    requires forall k :: 0 <= k < |repo.fetchPokemonList(offset, limit).emitted| ==>
               !repo.fetchPokemonList(offset, limit).emitted[k].Success?
    ensures var r := FetchRun(s, repo, offset, limit);
      && r.state.uiState == ErrorOnly
      && r.requests == [ListRequest(offset, limit)]
      && r.state.pokemonList.None?
  {
    var s1 := s.(uiState := LoadingOnly);
    CollectListKeeps(s1, repo.fetchPokemonList(offset, limit).emitted);
  }

  /** After a run whose page arrived, the fields are those after the list
      flow followed by every detail envelope of the requested items, in
      order, with the flags overwritten at the end; so `pokemonItem` holds
      the last detail `Success` (CollectDetailLastSuccess) or its earlier
      value (CollectDetailKeeps). */
  lemma FetchRunDetailEvents(s: VmState, repo: PokemonRepository, offset: int, limit: int, items: seq<PokemonItem>)
    requires !repo.fetchPokemonList(offset, limit).escapes
    requires CollectList(s.(uiState := LoadingOnly), repo.fetchPokemonList(offset, limit).emitted).pokemonList == Some(items)
    ensures var r := FetchRun(s, repo, offset, limit);
      var l := CollectList(s.(uiState := LoadingOnly), repo.fetchPokemonList(offset, limit).emitted);
      r.state == CollectDetail(l, DetailEvents(items[..|r.requests| - 1], repo.fetchPokemonDetail)).(uiState := r.state.uiState)
  {
    var l := CollectList(s.(uiState := LoadingOnly), repo.fetchPokemonList(offset, limit).emitted);
    DetailsOverState(l, items, repo.fetchPokemonDetail);
  }
}
