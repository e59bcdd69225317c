/** The records the two JSON responses of the catalog API are decoded into
    (Program.cs, lines 10-50). A reference-typed property may be null after
    decoding, so it is an `Option`; an `int` property is a 32-bit integer.
    Elements of a decoded list are taken to be non-null. */
module Records {
  import opened Wrappers

  /** The range of a C# `int`. */
  type Int32 = x: int | -0x8000_0000 <= x < 0x8000_0000

  /** One catalog entry of the list response: `name` and `url`. */
  datatype PokemonEntry = PokemonEntry(name: Option<string>, url: Option<string>)

  /** The list response: `{ "results": [ ... ] }`. */
  datatype PokemonListResponse = PokemonListResponse(results: Option<seq<PokemonEntry>>)

  /** The innermost ability record: `{ "name": ... }`. */
  datatype Ability = Ability(name: Option<string>)

  /** One element of `abilities`: `{ "ability": { ... } }`. */
  datatype AbilityWrapper = AbilityWrapper(ability: Option<Ability>)

  /** The detail response of one catalog entry. */
  datatype PokemonDetails = PokemonDetails(
    name: Option<string>,
    height: Int32,
    weight: Int32,
    abilities: Option<seq<AbilityWrapper>>)
}
