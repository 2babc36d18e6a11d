/** `PokemonRepoImpl`: each operation calls the remote service once and turns
    its outcome into a flow that emits `Loading` and then at most one
    terminal envelope. The remote service is an input: a pair of total
    functions from the request to the outcome of the call. */
module Repo {
  import opened Model

  /** What one call into the remote service does: return a value, throw an
      `HttpException` (whose message may be null), throw an `IOException`,
      or throw any other exception. */
  datatype ServiceOutcome<+T> = Ok(v: T) | HttpErr(msg: Option<string>) | IoErr | OtherErr

  /** The remote service (`PokemonService`). */
  datatype PokemonService = PokemonService(
    getPokemonList: (int, int) -> ServiceOutcome<PokemonListModel>,
    getPokemonDetails: string -> ServiceOutcome<DetailsModel>)

  /** The repository interface the view model depends on (`PokemonRepository`). */
  datatype PokemonRepository = PokemonRepository(
    fetchPokemonList: (int, int) -> Flow<PokemonListModel>,
    fetchPokemonDetail: string -> Flow<DetailsModel>)

  /** The text both operations report for an `IOException`. */
  const NetworkErrorMessage: string := "Please check your network connection and try again!"

  /** Kotlin's `String?.orEmpty()`. */
  function OrEmpty(s: Option<string>): string
  {
    match s
    case None => ""
    case Some(m) => m
  }

  /** The shape every repository flow has: `Loading` first, then exactly one
      terminal envelope unless an exception escapes, and `Loading` nowhere
      else. */
  ghost predicate WellFormed<T>(f: Flow<T>)
  {
    && |f.emitted| == (if f.escapes then 1 else 2)
    && f.emitted[0].Loading?
    && forall k :: 1 <= k < |f.emitted| ==> !f.emitted[k].Loading?
  }

  /** The body shared by both operations: emit `Loading`, call the service,
      and emit what its outcome maps to. Other exceptions are not caught. */
  function Emit<T>(o: ServiceOutcome<T>): (f: Flow<T>)
    ensures WellFormed(f)
    ensures f.escapes <==> o.OtherErr?
    ensures o.Ok? ==> f.emitted == [Loading, Success(o.v)]
    ensures o.HttpErr? ==> f.emitted == [Loading, Error(OrEmpty(o.msg))]
    ensures o.IoErr? ==> f.emitted == [Loading, Error(NetworkErrorMessage)]
    ensures o.OtherErr? ==> f.emitted == [Loading]
  {
    match o
    case Ok(v) => Flow([Loading, Success(v)], false)
    case HttpErr(m) => Flow([Loading, Error(OrEmpty(m))], false)
    case IoErr => Flow([Loading, Error(NetworkErrorMessage)], false)
    case OtherErr => Flow([Loading], true)
  }

  /** `fetchPokemonList(offset, limit)`: the service is asked for exactly the
      page the caller asked for. */
  function FetchPokemonList(service: PokemonService, offset: int, limit: int): (f: Flow<PokemonListModel>)
    ensures f == Emit(service.getPokemonList(offset, limit))
    ensures WellFormed(f)
  {
    Emit(service.getPokemonList(offset, limit))
  }

  /** `fetchPokemonDetail(name)`: the service is asked for exactly `name`. */
  function FetchPokemonDetail(service: PokemonService, name: string): (f: Flow<DetailsModel>)
    ensures f == Emit(service.getPokemonDetails(name))
    ensures WellFormed(f)
  {
    Emit(service.getPokemonDetails(name))
  }

  /** `PokemonRepoImpl(service)` seen through the repository interface: for
      every request, a well-formed flow that escapes exactly when the
      service throws an exception other than `HttpException` or
      `IOException`, and ends in `Success` of the returned value when the
      service returns. */
  function PokemonRepoImpl(service: PokemonService): (repo: PokemonRepository)
    ensures forall offset, limit ::
      var f, o := repo.fetchPokemonList(offset, limit), service.getPokemonList(offset, limit);
      && WellFormed(f)
      && (f.escapes <==> o.OtherErr?)
      && (o.Ok? ==> f.emitted == [Loading, Success(o.v)])
    ensures forall name ::
      var f, o := repo.fetchPokemonDetail(name), service.getPokemonDetails(name);
      && WellFormed(f)
      && (f.escapes <==> o.OtherErr?)
      && (o.Ok? ==> f.emitted == [Loading, Success(o.v)])
  {
    PokemonRepository(
      (offset, limit) => FetchPokemonList(service, offset, limit),
      name => FetchPokemonDetail(service, name))
  }

  /** What a collector can read back from an emitted flow: a `Success` exactly
      when the service returned, an `Error` exactly when it threw an
      `HttpException` or an `IOException`, and an escaping exception exactly
      for every other exception. */
  lemma EmitReports<T>(o: ServiceOutcome<T>)
    ensures (exists k :: 0 <= k < |Emit(o).emitted| && Emit(o).emitted[k].Success?) <==> o.Ok?
    ensures (exists k :: 0 <= k < |Emit(o).emitted| && Emit(o).emitted[k].Error?) <==> (o.HttpErr? || o.IoErr?)
    ensures o.Ok? ==> Emit(o).emitted[|Emit(o).emitted| - 1] == Success(o.v)
  {
    var f := Emit(o);
    if o.Ok? {
      assert f.emitted[1].Success?;
    } else if o.HttpErr? || o.IoErr? {
      assert f.emitted[1].Error?;
    }
  }

  /** Two service outcomes that lead to the same flow are the same call
      result, except that the error envelope keeps only the message text: an
      `HttpException` without a message reads like one with an empty message,
      and one whose message is the network text reads like an `IOException`. */
  lemma EmitLosesOnlyErrorKind<T>(o1: ServiceOutcome<T>, o2: ServiceOutcome<T>)
    requires Emit(o1) == Emit(o2)
    ensures o1.Ok? <==> o2.Ok?
    ensures o1.Ok? ==> o1 == o2
    ensures o1.OtherErr? <==> o2.OtherErr?
    ensures o1.IoErr? && o2.HttpErr? ==> OrEmpty(o2.msg) == NetworkErrorMessage
    ensures o1.HttpErr? && o2.HttpErr? ==> OrEmpty(o1.msg) == OrEmpty(o2.msg)
  {
    assert Emit(o1).emitted == Emit(o2).emitted;
    if !o1.OtherErr? {
      assert Emit(o1).emitted[1] == Emit(o2).emitted[1];
    }
  }
}
