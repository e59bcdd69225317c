# Tamagotchi Pokémon console session, modelled in Dafny

`DesafioServenDays/Program.cs` is an interactive console program. It greets
the user, requests a page of ten Pokémon from the PokéAPI
(`https://pokeapi.co`, resource `/api/v2/pokemon?limit=10`), prints them as a
numbered menu, reads a number, requests details and prints the name, height,
weight and abilities. Each failure prints one message and ends the program:
a list request that was not successful, an empty list, an invalid choice,
or a detail request that was not successful.

This project models that session.

- `records.dfy` (module `Records`) holds the JSON records of lines 10-50 as
  datatypes. A property that may be null is an `Option`, and an `int`
  property is an `Int32`.
- `formatting.dfy` (module `Formatting`) holds the two pieces of .NET text
  formatting the program uses. `ToUpper` models `char.ToUpper` on ASCII
  letters. `IntToString` models how `{x}` renders an `int`; `ParseInt` is its
  inverse, and a round-trip lemma connects the two.
- `program.dfy` (module `Program`) holds `UpperFirst` and the check of the
  typed choice. `SessionOf` (with its stages `ChoiceStage` and
  `DetailStage`) is the whole session as one value: the trace of console
  writes, reads and HTTP requests, how the session ended, and the entry bound
  to `selecionado`. `RunMain` is `Main` written step by step, with the menu
  loop and the abilities loop. Its postcondition says that the session it
  builds is `SessionOf` of its inputs.
- `properties.dfy` (module `Properties`) states what a session promises,
  stage by stage, as lemmas about `SessionOf`.

The outside world becomes inputs:
- each HTTP request is a `Response`: unsuccessful, or successful with the
  decoded body (which may be null);
- the typed line is the result of `int.TryParse`, as an `Option<Int32>`.

The detail stage follows the code as written. The progress line at line 91
and the detail path at line 93 are plain string literals, without `$`. So
the text `{UpperFirst(selecionado.Name)}` is printed literally, and every
detail request goes to the literal path `/api/v2/pokemon/{selecionado.Name}`,
whichever entry was chosen. The intent is evidently to request the chosen
Pokémon by name, but the code does not. The chosen entry is bound
(`Session.selected`) and never used. `Properties.ChoiceNotObservable` proves
that any two accepted choices give the same trace and the same ending.

## Model

| member | source | states |
|---|---|---|
| `Formatting.ToUpper` | DesafioServenDays/Program.cs:115 | the result is never an ASCII lower-case letter; a-z map to A-Z (32 code points lower), and every other character is unchanged |
| `Formatting.NatToStringDigits` | DesafioServenDays/Program.cs:80 | the number of a menu line renders as a non-empty string of decimal digits with no leading zero |
| `Formatting.ParseNatOfNatToString` | DesafioServenDays/Program.cs:80 | reading back the decimal digits of a natural number gives that number |
| `Formatting.IntToStringShape` | DesafioServenDays/Program.cs:105-106 | a rendered height or weight starts with `-` exactly when it is negative, and has only digits otherwise or after the sign |
| `Formatting.ParseIntOfIntToString` | DesafioServenDays/Program.cs:105-106 | reading back a rendered `int` gives the same `int` |
| `Formatting.IntToStringInjective` | DesafioServenDays/Program.cs:105-106 | distinct heights or weights are printed as distinct strings |
| `Program.UpperFirstShape` | DesafioServenDays/Program.cs:114-115 | `UpperFirst` is empty exactly for null or empty input; otherwise it has the input's length, its first character is `ToUpper` of the input's first, and every later character is unchanged |
| `Program.Entries` | DesafioServenDays/Program.cs:72 | the list has no entries exactly when the decoded response is null, its `Results` is null, or `Results` is empty; otherwise the entries are `Results` |
| `Program.ValidateChoice` | DesafioServenDays/Program.cs:84-90 | a choice is accepted exactly when it parsed and lies in `1..Count`; the 0-based index it selects is one less and is below `Count` |
| `Program.WriteMenu` | DesafioServenDays/Program.cs:78-81 | the loop appends exactly the menu: line `i` is `(i+1) + ". " + UpperFirst(Results[i].Name)`, one per entry in list order |
| `Program.WriteDetails` | DesafioServenDays/Program.cs:104-111 | appends the name, height, weight and heading lines, then, through the loop, one bullet per ability in list order |
| `Program.RunMain` | DesafioServenDays/Program.cs:54-112 | the step-by-step session, with its early returns, produces exactly the trace, ending and bound entry of `SessionOf` |
| `Properties.UpperFirstIdempotent` | DesafioServenDays/Program.cs:114-115 | capitalising an already capitalised string changes nothing |
| `Properties.UpperFirstKeepsCapitalised` | DesafioServenDays/Program.cs:114-115 | a string whose first character is not an ASCII lower-case letter (a-z) is returned unchanged |
| `Properties.UpperFirstExamples` | DesafioServenDays/Program.cs:114-115 | null and `""` give `""`, `"pikachu"` gives `"Pikachu"`, `"A"` gives `"A"` |
| `Properties.ListFailureAborts` | DesafioServenDays/Program.cs:56-68 | an unsuccessful list request prints only the error line after the greeting and the request; no input is read and no detail request is made |
| `Properties.NoEntriesAborts` | DesafioServenDays/Program.cs:70-76 | a null response, null `Results` or an empty list prints "Nenhum Pokémon encontrado." and stops before the prompt, the read and the detail request |
| `Properties.MenuListsEntries` | DesafioServenDays/Program.cs:56-84 | the trace opens with the greeting, the searching line and the list request; then the menu has one line per entry, numbered from 1 in list order (`MenuLine`: number, `". "`, capitalised name), followed by the prompt and the read of the choice |
| `Properties.ChoiceReadOnlyAfterList` | DesafioServenDays/Program.cs:64-84 | the choice is read exactly when the list request succeeded and the list is not empty |
| `Properties.DetailRequestOnlyAfterValidChoice` | DesafioServenDays/Program.cs:84-94 | the detail request is made exactly when the list was fetched and is not empty, and the choice parsed and lies in `1..Count` |
| `Properties.InvalidChoiceAborts` | DesafioServenDays/Program.cs:84-88 | a rejected choice prints "Escolha inválida." right after the read and ends the session; nothing is bound and there is no retry |
| `Properties.AcceptedChoiceSelects` | DesafioServenDays/Program.cs:84-90 | an entry is bound exactly when the choice is accepted, and then it is `Results[n-1]` with `n-1` in bounds |
| `Properties.DetailFailureAborts` | DesafioServenDays/Program.cs:91-100 | an unsuccessful detail request ends the session with " Erro ao buscar detalhes." right after the request; no detail line follows |
| `Properties.CompletedTrace` | DesafioServenDays/Program.cs:91-94 | a completed session's trace is the part up to the detail request, followed by the detail block |
| `Properties.DetailsPrinted` | DesafioServenDays/Program.cs:91-107 | the uninterpolated line-91 progress text and the detail request precede the detail block; after the request come the capitalised name, the height, the weight and "- Habilidades:", in this order, and the session completes |
| `Properties.AbilitiesPrinted` | DesafioServenDays/Program.cs:108-111 | after the heading come exactly one bullet per ability, its name capitalised, in list order |
| `Properties.ChoiceNotObservable` | DesafioServenDays/Program.cs:90-94 | two accepted choices give the same trace and the same ending: the chosen entry reaches neither the console nor the request |
| `Properties.ExampleSessionMenu` | DesafioServenDays/Program.cs:78-93 | for bulbasaur, ivysaur and venusaur with choice 2, the menu is "1. Bulbasaur", "2. Ivysaur", "3. Venusaur", ivysaur is bound, and the request goes to the literal path |
| `Properties.ExampleSessionDetails` | DesafioServenDays/Program.cs:104-111 | details of ivysaur (height 10, weight 130, ability overgrow) print as "Detalhes de Ivysaur:", "- Altura: 10", "- Peso: 130", "- Habilidades:" and "• Overgrow" |

## Left out

- HTTP through RestSharp (lines 59-62, 93-94) is not modelled. Each request is a `Response` input: successful or not, plus the decoded body. The request itself is an `HttpGet` event carrying its resource string.
- JSON decoding through `System.Text.Json` (lines 70, 102) is not modelled. The decoded records are inputs. A malformed body makes `Deserialize` throw, and that exception is not modelled.
- Null elements inside `Results` or `Abilities` are not modelled: list elements are taken to be non-null. Null properties (`Results`, `Abilities`, `Ability`, the names) are modelled.
- The null dereferences at lines 104, 108 and 110 are left to the caller. The code does not guard them, so `SafeDereferences` requires the details, their `Abilities` and each `Ability` to be present whenever the printing code is reached. The exception the code would throw is not modelled.
- Console I/O and `async`/`await` become the ordered `Event` trace. There is no concurrency. The exit code (always normal return) is not modelled.
- `int.TryParse` (line 84) is not modelled. Its culture-dependent grammar (whitespace, signs, overflow) is replaced by its result, an `Option<Int32>`.
- Formatting.ToUpper: models `char.ToUpper` only on ASCII letters, as under a non-Turkic current culture. Under a Turkish or Azerbaijani culture `char.ToUpper` maps `i` to `İ` (U+0130); the model always gives `I`. Non-ASCII letters (`é` to `É`, say) are left unchanged by the model, whereas .NET upper-cases them.
- Program.UpperFirst: works on Unicode scalar values, whereas C# `text[0]` is a UTF-16 code unit. For a string that starts with a character outside the Basic Multilingual Plane the two differ. That case is not modelled.
- Formatting.IntToString: uses `-` as the negative sign. A culture with another `NegativeSign` is not modelled.
- The base address `https://pokeapi.co` of the REST client (line 59) is not modelled; requests carry only their resource path. The page size 10 appears only inside the resource literal `/api/v2/pokemon?limit=10`, and the model does not assume the API returns at most ten entries.
