/** The console session of `Program.Main` (Program.cs, lines 54-115): fetch
    a page of ten catalog entries, print them as a numbered menu, read a
    choice, fetch details and print them. Every failure prints one message
    and ends the session.

    The outside world is replaced by inputs: each HTTP request is a
    `Response` (whether it succeeded and what its body decoded to), and the
    line typed by the user is the result of `int.TryParse` on it. What the
    session does is recorded as a trace of `Event`s, in order. */
module Program {
  import opened Wrappers
  import opened Records
  import opened Formatting

  /** A request outcome: `IsSuccessful` false, or true with the decoded body
      (which may itself be null). */
  datatype Response<T> = Unsuccessful | Successful(decoded: T)

  /** One observable step of the session. */
  datatype Event =
    | WriteLine(text: string)   // Console.WriteLine
    | Write(text: string)       // Console.Write, no line break
    | ReadLine                  // Console.ReadLine
    | HttpGet(resource: string) // a GET against https://pokeapi.co

  datatype Failure = ListRequestFailed | NoPokemonFound | InvalidChoice | DetailRequestFailed

  /** How the session ended: aborted at one of the four checks, or after
      printing the details. */
  datatype Final = Aborted(reason: Failure) | Completed

  /** A whole session: its trace, how it ended, and the entry bound to
      `selecionado` (none when the session ends before line 90). */
  datatype Session = Session(trace: seq<Event>, final: Final, selected: Option<PokemonEntry>)

  const Welcome := "Bem-vindo ao Tamagotchi Pok\U{E9}mon!"
  const Searching := "Buscando op\U{E7}\U{F5}es de Pok\U{E9}mons...\n"
  const ListResource := "/api/v2/pokemon?limit=10"
  const ListError := "Erro ao buscar Pok\U{E9}mons."
  const NoneFound := "Nenhum Pok\U{E9}mon encontrado."
  const ChoicePrompt := "\n Digite o n\U{FA}mero do Pok\U{E9}mon que voc\U{EA} quer conhecer melhor: "
  const InvalidChoiceText := "Escolha inv\U{E1}lida."
  /** Printed as written: the braces are not interpolated, so the chosen
      name does not appear. */
  const SearchingDetails := "\n\U{1F50D} Buscando informa\U{E7}\U{F5}es sobre {UpperFirst(selecionado.Name)}..."
  /** Requested as written: the same literal path whatever was chosen. */
  const DetailResource := "/api/v2/pokemon/{selecionado.Name}"
  const DetailError := " Erro ao buscar detalhes."
  const AbilitiesHeader := "- Habilidades:"
  const Bullet := "  \U{2022} "

  /** The program's capitalisation: null or empty gives the empty string,
      otherwise the first character is upper-cased and the rest kept. */
  function UpperFirst(text: Option<string>): string {
    if text.None? || text.value == [] then "" else [ToUpper(text.value[0])] + text.value[1..]
  }

  /** What `UpperFirst` promises: empty exactly for null or empty input;
      otherwise the same length, the first character upper-cased and every
      later one unchanged. */
  lemma UpperFirstShape(text: Option<string>)
    ensures UpperFirst(text) == [] <==> text.None? || text.value == []
    ensures text.Some? ==> |UpperFirst(text)| == |text.value|
    ensures text.Some? && text.value != [] ==>
      UpperFirst(text)[0] == ToUpper(text.value[0]) &&
      forall k :: 1 <= k < |text.value| ==> UpperFirst(text)[k] == text.value[k]
  {
  }

  /** The entries of a decoded list response; no entries when the response
      or its `results` is null. */
  function Entries(list: Option<PokemonListResponse>): (entries: seq<PokemonEntry>)
    ensures entries != [] <==> list.Some? && list.value.results.Some? && list.value.results.value != []
    ensures entries != [] ==> entries == list.value.results.value
  {
    if list.None? || list.value.results.None? then [] else list.value.results.value
  }

  /** The check of the typed choice against a menu of `count` entries: a
      number from 1 to `count` selects the 0-based index one less. */
  function ValidateChoice(choice: Option<Int32>, count: nat): (index: Option<nat>)
    ensures index.Some? <==> choice.Some? && 1 <= choice.value <= count
    ensures index.Some? ==> index.value < count && index.value + 1 == choice.value
  {
    if choice.None? || choice.value < 1 || choice.value > count then None
    else Some(choice.value - 1)
  }

  /** Menu line for the entry shown under `number`. */
  function MenuLine(number: nat, entry: PokemonEntry): string {
    NatToString(number) + ". " + UpperFirst(entry.name)
  }

  /** The menu: one line per entry, numbered from 1 in list order. */
  function Menu(entries: seq<PokemonEntry>): (lines: seq<Event>)
    ensures |lines| == |entries|
  {
    seq(|entries|, i requires 0 <= i < |entries| => WriteLine(MenuLine(i + 1, entries[i])))
  }

  /** Every wrapper in the list holds an `Ability`. */
  predicate AbilitiesPresent(abilities: seq<AbilityWrapper>) {
    forall i | 0 <= i < |abilities| :: abilities[i].ability.Some?
  }

  /** The details the printing code dereferences are all present. */
  predicate Printable(details: Option<PokemonDetails>) {
    details.Some? && details.value.abilities.Some? && AbilitiesPresent(details.value.abilities.value)
  }

  /** One bullet per ability, in list order. */
  function AbilityLines(abilities: seq<AbilityWrapper>): (lines: seq<Event>)
    requires AbilitiesPresent(abilities)
    ensures |lines| == |abilities|
  {
    seq(|abilities|, i requires 0 <= i < |abilities| => WriteLine(Bullet + UpperFirst(abilities[i].ability.value.name)))
  }

  /** The four lines before the bullets: name, height, weight and the
      heading of the abilities. */
  function DetailHeader(details: PokemonDetails): seq<Event> {
    [ WriteLine("\n Detalhes de " + UpperFirst(details.name) + ":"),
      WriteLine("- Altura: " + IntToString(details.height)),
      WriteLine("- Peso: " + IntToString(details.weight)),
      WriteLine(AbilitiesHeader) ]
  }

  /** The session reaches the detail request: the list was fetched, is not
      empty, and the choice is in range. */
  predicate ReachesDetails(listResponse: Response<Option<PokemonListResponse>>, choice: Option<Int32>) {
    listResponse.Successful? &&
    var entries := Entries(listResponse.decoded);
    entries != [] && ValidateChoice(choice, |entries|).Some?
  }

  /** The program does not guard the dereferences of the details, their
      `Abilities` and each `Ability`; when the printing code is reached they
      must be present. */
  predicate SafeDereferences(
    listResponse: Response<Option<PokemonListResponse>>,
    choice: Option<Int32>,
    detailResponse: Response<Option<PokemonDetails>>)
  {
    ReachesDetails(listResponse, choice) && detailResponse.Successful? ==> Printable(detailResponse.decoded)
  }

  /** Greeting, progress line and the list request (lines 56-62). */
  const Opening := [WriteLine(Welcome), WriteLine(Searching), HttpGet(ListResource)]

  /** The whole session as one value: the list stage. */
  function SessionOf(
    listResponse: Response<Option<PokemonListResponse>>,
    choice: Option<Int32>,
    detailResponse: Response<Option<PokemonDetails>>): Session
    requires SafeDereferences(listResponse, choice, detailResponse)
  {
    if listResponse.Unsuccessful? then
      Session(Opening + [WriteLine(ListError)], Aborted(ListRequestFailed), None)
    else if Entries(listResponse.decoded) == [] then
      Session(Opening + [WriteLine(NoneFound)], Aborted(NoPokemonFound), None)
    else
      ChoiceStage(Entries(listResponse.decoded), choice, detailResponse)
  }

  /** From the menu on (lines 78-90): print the menu, read and check the
      choice, bind the chosen entry. */
  function ChoiceStage(
    entries: seq<PokemonEntry>,
    choice: Option<Int32>,
    detailResponse: Response<Option<PokemonDetails>>): Session
    requires entries != []
    requires ValidateChoice(choice, |entries|).Some? && detailResponse.Successful? ==> Printable(detailResponse.decoded)
  {
    var asked := Opening + Menu(entries) + [Write(ChoicePrompt)] + [ReadLine];
    match ValidateChoice(choice, |entries|)
    case None => Session(asked + [WriteLine(InvalidChoiceText)], Aborted(InvalidChoice), None)
    case Some(index) => DetailStage(asked, entries[index], detailResponse)
  }

  /** From the detail request on (lines 91-111). The chosen entry is only
      carried to the end: nothing written or requested depends on it. */
  function DetailStage(
    asked: seq<Event>,
    selected: PokemonEntry,
    detailResponse: Response<Option<PokemonDetails>>): Session
    requires detailResponse.Successful? ==> Printable(detailResponse.decoded)
  {
    var requested := asked + [WriteLine(SearchingDetails)] + [HttpGet(DetailResource)];
    if detailResponse.Unsuccessful? then
      Session(requested + [WriteLine(DetailError)], Aborted(DetailRequestFailed), Some(selected))
    else
      var details := detailResponse.decoded.value;
      Session(requested + DetailHeader(details) + AbilityLines(details.abilities.value), Completed, Some(selected))
  }

  /** The loop at lines 78-81: one line per entry, appended in list order. */
  method WriteMenu(before: seq<Event>, results: seq<PokemonEntry>) returns (trace: seq<Event>)
    ensures trace == before + Menu(results)
  {
    trace := before;
    for i := 0 to |results|
      invariant trace == before + Menu(results)[..i]
    {
      assert Menu(results)[..i + 1] == Menu(results)[..i] + [Menu(results)[i]];
      trace := trace + [WriteLine(MenuLine(i + 1, results[i]))];
    }
    assert Menu(results)[..|results|] == Menu(results);
  }

  /** Lines 104-111: the detail block, with the loop over the abilities. */
  method WriteDetails(before: seq<Event>, details: PokemonDetails) returns (trace: seq<Event>)
    requires Printable(Some(details))
    ensures trace == before + DetailHeader(details) + AbilityLines(details.abilities.value)
  {
    trace := before + [WriteLine("\n Detalhes de " + UpperFirst(details.name) + ":")];
    trace := trace + [WriteLine("- Altura: " + IntToString(details.height))];
    trace := trace + [WriteLine("- Peso: " + IntToString(details.weight))];
    trace := trace + [WriteLine(AbilitiesHeader)];
    var abilities := details.abilities.value;
    ghost var header := trace;
    assert header == before + DetailHeader(details);
    for j := 0 to |abilities|
      invariant trace == header + AbilityLines(abilities)[..j]
    {
      assert AbilityLines(abilities)[..j + 1] == AbilityLines(abilities)[..j] + [AbilityLines(abilities)[j]];
      trace := trace + [WriteLine(Bullet + UpperFirst(abilities[j].ability.value.name))];
    }
    assert AbilityLines(abilities)[..|abilities|] == AbilityLines(abilities);
  }

  /** `Main`, step by step: the trace grows as the program writes, reads
      and requests, with early returns on each failure. */
  method RunMain(
    listResponse: Response<Option<PokemonListResponse>>,
    choice: Option<Int32>,
    detailResponse: Response<Option<PokemonDetails>>)
    returns (trace: seq<Event>, final: Final, selected: Option<PokemonEntry>)
    requires SafeDereferences(listResponse, choice, detailResponse)
    ensures Session(trace, final, selected) == SessionOf(listResponse, choice, detailResponse)
  {
    selected := None;
    trace := [WriteLine(Welcome)];
    trace := trace + [WriteLine(Searching)];
    trace := trace + [HttpGet(ListResource)];
    assert trace == Opening;
    if !listResponse.Successful? {
      trace := trace + [WriteLine(ListError)];
      final := Aborted(ListRequestFailed);
      return;
    }

    var pokemonList := listResponse.decoded;
    if pokemonList.None? || pokemonList.value.results.None? || |pokemonList.value.results.value| == 0 {
      trace := trace + [WriteLine(NoneFound)];
      final := Aborted(NoPokemonFound);
      return;
    }
    var results := pokemonList.value.results.value;

    trace := WriteMenu(trace, results);
    trace := trace + [Write(ChoicePrompt)];
    trace := trace + [ReadLine];
    if choice.None? || choice.value < 1 || choice.value > |results| {
      trace := trace + [WriteLine(InvalidChoiceText)];
      final := Aborted(InvalidChoice);
      return;
    }

    selected := Some(results[choice.value - 1]);
    trace := trace + [WriteLine(SearchingDetails)];
    trace := trace + [HttpGet(DetailResource)];
    if !detailResponse.Successful? {
      trace := trace + [WriteLine(DetailError)];
      final := Aborted(DetailRequestFailed);
      return;
    }

    trace := WriteDetails(trace, detailResponse.decoded.value);
    final := Completed;
  }
}
