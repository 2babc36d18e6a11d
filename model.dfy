/** Data shapes shared by the repository and the view model: the three
    records the remote catalogue returns, the `Result` envelope every
    repository flow carries, and a finite model of a collected flow. */
module Model {

  datatype Option<+T> = None | Some(value: T)

  /** One entry of the catalogue page (`PokemonItem`). */
  datatype PokemonItem = PokemonItem(name: string, url: string)

  /** One catalogue page (`PokemonListModel`); `next` and `previous` are nullable. */
  datatype PokemonListModel = PokemonListModel(
    count: int,
    next: Option<string>,
    previous: Option<string>,
    results: seq<PokemonItem>)

  /** The detail record of one Pokémon (`DetailsModel`), reduced to its name. */
  datatype DetailsModel = DetailsModel(name: string)

  /** The value `DetailsModel()` built from its default arguments. */
  const DefaultDetails: DetailsModel := DetailsModel("")

  /** The envelope every repository flow emits. */
  datatype Result<+T> = Loading | Success(data: T) | Error(errorMessage: string)

  /** A flow as its collector sees it: the elements it emits, in order, and
      whether an exception escapes from it after the last of them. */
  datatype Flow<+T> = Flow(emitted: seq<Result<T>>, escapes: bool)
}
