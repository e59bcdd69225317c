/** What a session promises, stated over `Program.SessionOf` (and so, by
    the contract of `Program.RunMain`, over the step-by-step session). */
module Properties {
  import opened Wrappers
  import opened Records
  import opened Formatting
  import opened Program

  type ListResponse = Response<Option<PokemonListResponse>>
  type DetailResponse = Response<Option<PokemonDetails>>

  /** Capitalising twice is capitalising once. */
  lemma UpperFirstIdempotent(text: Option<string>)
    ensures UpperFirst(Some(UpperFirst(text))) == UpperFirst(text)
  {
    if text.Some? && text.value != [] {
      ToUpperIdempotent(text.value[0]);
    }
  }

  /** A string that already starts with a non-lower-case character comes
      back unchanged. */
  lemma UpperFirstKeepsCapitalised(s: string)
    requires s != [] && !IsAsciiLower(s[0])
    ensures UpperFirst(Some(s)) == s
  {
    assert [s[0]] + s[1..] == s;
  }

  lemma UpperFirstExamples()
    ensures UpperFirst(None) == ""
    ensures UpperFirst(Some("")) == ""
    ensures UpperFirst(Some("pikachu")) == "Pikachu"
    ensures UpperFirst(Some("A")) == "A"
  {
    UpperFirstKeepsCapitalised("A");
  }

  /** A failed list request: after the greeting and the request, one error
      line; no menu, no input read, no detail request. */
  lemma ListFailureAborts(l: ListResponse, c: Option<Int32>, d: DetailResponse)
    requires l.Unsuccessful?
    ensures SafeDereferences(l, c, d)
    ensures var s := SessionOf(l, c, d);
      s.final == Aborted(ListRequestFailed) && s.selected == None &&
      s.trace == [WriteLine(Welcome), WriteLine(Searching), HttpGet(ListResource), WriteLine(ListError)] &&
      ReadLine !in s.trace && HttpGet(DetailResource) !in s.trace
  {
  }

  /** A null response, null `results` or an empty list: one message and the
      session stops before the prompt. */
  lemma NoEntriesAborts(l: ListResponse, c: Option<Int32>, d: DetailResponse)
    requires l.Successful?
    requires l.decoded.None? || l.decoded.value.results.None? || l.decoded.value.results.value == []
    ensures SafeDereferences(l, c, d)
    ensures var s := SessionOf(l, c, d);
      s.final == Aborted(NoPokemonFound) && s.selected == None &&
      s.trace == [WriteLine(Welcome), WriteLine(Searching), HttpGet(ListResource), WriteLine(NoneFound)] &&
      Write(ChoicePrompt) !in s.trace && ReadLine !in s.trace && HttpGet(DetailResource) !in s.trace
  {
  }

  /** After a successful non-empty list, the menu has one line per entry,
      numbered from 1 in list order, and is followed by the prompt and the
      read of the choice. */
  lemma MenuListsEntries(l: ListResponse, c: Option<Int32>, d: DetailResponse)
    requires SafeDereferences(l, c, d)
    requires l.Successful? && Entries(l.decoded) != []
    ensures var s := SessionOf(l, c, d); var entries := Entries(l.decoded); var n := |entries|;
      |s.trace| >= n + 6 &&
      s.trace[..3] == Opening &&
      (forall i :: 0 <= i < n ==> s.trace[3 + i] == WriteLine(MenuLine(i + 1, entries[i]))) &&
      s.trace[3 + n] == Write(ChoicePrompt) &&
      s.trace[4 + n] == ReadLine
  {
    var s := SessionOf(l, c, d);
    var entries := Entries(l.decoded);
    var n := |entries|;
    var asked := Opening + Menu(entries) + [Write(ChoicePrompt)] + [ReadLine];
    assert s == ChoiceStage(entries, c, d);
    assert s.trace[..n + 5] == asked;
    assert s.trace[..3] == asked[..3] == Opening;
    forall i | 0 <= i < n
      ensures s.trace[3 + i] == WriteLine(MenuLine(i + 1, entries[i]))
    {
      assert s.trace[3 + i] == asked[3 + i] == Menu(entries)[i];
    }
  }

  /** The choice is read exactly when the list was fetched and is not
      empty. */
  lemma ChoiceReadOnlyAfterList(l: ListResponse, c: Option<Int32>, d: DetailResponse)
    requires SafeDereferences(l, c, d)
    ensures ReadLine in SessionOf(l, c, d).trace <==> l.Successful? && Entries(l.decoded) != []
  {
    if l.Successful? && Entries(l.decoded) != [] {
      MenuListsEntries(l, c, d);
    }
  }

  /** The detail request is made exactly when the list was fetched, is not
      empty, and the choice parsed and lies in `1..Count`. */
  lemma DetailRequestOnlyAfterValidChoice(l: ListResponse, c: Option<Int32>, d: DetailResponse)
    requires SafeDereferences(l, c, d)
    ensures HttpGet(DetailResource) in SessionOf(l, c, d).trace <==>
      l.Successful? && Entries(l.decoded) != [] && c.Some? && 1 <= c.value <= |Entries(l.decoded)|
  {
    assert |ListResource| != |DetailResource|;
    if l.Successful? && Entries(l.decoded) != [] {
      var entries := Entries(l.decoded);
      var s := ChoiceStage(entries, c, d);
      var asked := Opening + Menu(entries) + [Write(ChoicePrompt)] + [ReadLine];
      assert HttpGet(DetailResource) !in asked by {
        assert forall i | 0 <= i < |Menu(entries)| :: Menu(entries)[i].WriteLine?;
      }
      if ReachesDetails(l, c) {
        assert s.trace[|asked| + 1] == HttpGet(DetailResource);
      } else {
        assert s.trace == asked + [WriteLine(InvalidChoiceText)];
      }
    }
  }

  /** A rejected choice: one message after the read, and nothing else. */
  lemma InvalidChoiceAborts(l: ListResponse, c: Option<Int32>, d: DetailResponse)
    requires l.Successful? && Entries(l.decoded) != []
    requires !(c.Some? && 1 <= c.value <= |Entries(l.decoded)|)
    ensures SafeDereferences(l, c, d)
    ensures var s := SessionOf(l, c, d); var n := |Entries(l.decoded)|;
      s.final == Aborted(InvalidChoice) && s.selected == None &&
      |s.trace| == n + 6 && s.trace[n + 4] == ReadLine && s.trace[n + 5] == WriteLine(InvalidChoiceText)
  {
  }

  /** An accepted choice `n` selects `Results[n - 1]`, an index in bounds;
      no other session binds an entry. */
  lemma AcceptedChoiceSelects(l: ListResponse, c: Option<Int32>, d: DetailResponse)
    requires SafeDereferences(l, c, d)
    ensures var s := SessionOf(l, c, d);
      s.selected.Some? <==> ReachesDetails(l, c)
    ensures ReachesDetails(l, c) ==>
      var entries := Entries(l.decoded);
      0 <= c.value - 1 < |entries| && SessionOf(l, c, d).selected == Some(entries[c.value - 1])
  {
  }

  /** A failed detail request: the searching line, the request and one error
      line end the session; no detail line is printed. */
  lemma DetailFailureAborts(l: ListResponse, c: Option<Int32>, d: DetailResponse)
    requires ReachesDetails(l, c) && d.Unsuccessful?
    ensures SafeDereferences(l, c, d)
    ensures var s := SessionOf(l, c, d); var n := |Entries(l.decoded)|;
      s.final == Aborted(DetailRequestFailed) &&
      |s.trace| == n + 8 &&
      s.trace[n + 5] == WriteLine(SearchingDetails) &&
      s.trace[n + 6] == HttpGet(DetailResource) &&
      s.trace[n + 7] == WriteLine(DetailError)
  {
    var s := SessionOf(l, c, d);
    var entries := Entries(l.decoded);
    assert s.trace == [WriteLine(Welcome), WriteLine(Searching), HttpGet(ListResource)] + Menu(entries) +
      [Write(ChoicePrompt), ReadLine, WriteLine(SearchingDetails), HttpGet(DetailResource), WriteLine(DetailError)];
  }

  /** A successful detail request prints, right after the request, the
      capitalised name, the height, the weight and the abilities heading,
      and the session completes. */
  lemma DetailsPrinted(l: ListResponse, c: Option<Int32>, d: DetailResponse)
    requires ReachesDetails(l, c) && d.Successful? && Printable(d.decoded)
    ensures SafeDereferences(l, c, d)
    ensures var s := SessionOf(l, c, d); var k := |Entries(l.decoded)| + 7;
      var details := d.decoded.value;
      s.final == Completed &&
      |s.trace| == k + 4 + |details.abilities.value| &&
      s.trace[k - 2] == WriteLine(SearchingDetails) &&
      s.trace[k - 1] == HttpGet(DetailResource) &&
      s.trace[k] == WriteLine("\n Detalhes de " + UpperFirst(details.name) + ":") &&
      s.trace[k + 1] == WriteLine("- Altura: " + IntToString(details.height)) &&
      s.trace[k + 2] == WriteLine("- Peso: " + IntToString(details.weight)) &&
      s.trace[k + 3] == WriteLine("- Habilidades:")
  {
    var s := SessionOf(l, c, d);
    var k := |Entries(l.decoded)| + 7;
    var details := d.decoded.value;
    var requested := CompletedTrace(l, c, d);
    var header := DetailHeader(details);
    assert s.trace == requested + header + AbilityLines(details.abilities.value);
    assert s.trace[k - 2] == requested[k - 2];
    assert s.trace[k - 1] == requested[k - 1];
    forall j | 0 <= j < 4 ensures s.trace[k + j] == header[j] { }
  }

  /** After the heading, a completed session prints one bullet per ability,
      capitalised, in list order, and nothing else. */
  lemma AbilitiesPrinted(l: ListResponse, c: Option<Int32>, d: DetailResponse)
    requires ReachesDetails(l, c) && d.Successful? && Printable(d.decoded)
    ensures SafeDereferences(l, c, d)
    ensures var s := SessionOf(l, c, d); var k := |Entries(l.decoded)| + 11;
      var abilities := d.decoded.value.abilities.value;
      |s.trace| == k + |abilities| &&
      forall j :: 0 <= j < |abilities| ==>
        s.trace[k + j] == WriteLine("  \U{2022} " + UpperFirst(abilities[j].ability.value.name))
  {
    var details := d.decoded.value;
    var abilities := details.abilities.value;
    var requested := CompletedTrace(l, c, d);
    var prefix := requested + DetailHeader(details);
    forall j | 0 <= j < |abilities|
      ensures (prefix + AbilityLines(abilities))[|prefix| + j] == WriteLine(Bullet + UpperFirst(abilities[j].ability.value.name))
    {
      BulletAt(prefix, abilities, j);
    }
  }

  lemma BulletAt(prefix: seq<Event>, abilities: seq<AbilityWrapper>, j: nat)
    requires AbilitiesPresent(abilities) && j < |abilities|
    ensures (prefix + AbilityLines(abilities))[|prefix| + j] == WriteLine(Bullet + UpperFirst(abilities[j].ability.value.name))
  {
  }

  /** The part of a completed session's trace before the detail block:
      it ends with the detail request. */
  lemma CompletedTrace(l: ListResponse, c: Option<Int32>, d: DetailResponse) returns (requested: seq<Event>)
    requires ReachesDetails(l, c) && d.Successful? && Printable(d.decoded)
    ensures SafeDereferences(l, c, d)
    ensures |requested| == |Entries(l.decoded)| + 7 && requested[|requested| - 1] == HttpGet(DetailResource)
    ensures var details := d.decoded.value;
      SessionOf(l, c, d) == Session(requested + DetailHeader(details) + AbilityLines(details.abilities.value),
        Completed, Some(Entries(l.decoded)[c.value - 1]))
  {
    var entries := Entries(l.decoded);
    var asked := Opening + Menu(entries) + [Write(ChoicePrompt)] + [ReadLine];
    requested := asked + [WriteLine(SearchingDetails)] + [HttpGet(DetailResource)];
    assert SessionOf(l, c, d) == ChoiceStage(entries, c, d) == DetailStage(asked, entries[c.value - 1], d);
  }

  /** The chosen entry never reaches the console or a request: the detail
      path and the searching line are uninterpolated literals, so any two
      accepted choices give the same trace and the same ending. */
  lemma ChoiceNotObservable(l: ListResponse, a: Int32, b: Int32, d: DetailResponse)
    requires ReachesDetails(l, Some(a)) && ReachesDetails(l, Some(b))
    requires SafeDereferences(l, Some(a), d)
    ensures SafeDereferences(l, Some(b), d)
    ensures SessionOf(l, Some(a), d).trace == SessionOf(l, Some(b), d).trace
    ensures SessionOf(l, Some(a), d).final == SessionOf(l, Some(b), d).final
  {
  }

  /** The three entries of a concrete session. */
  const ExampleEntries := [
    PokemonEntry(Some("bulbasaur"), None),
    PokemonEntry(Some("ivysaur"), None),
    PokemonEntry(Some("venusaur"), None)]

  const ExampleList: ListResponse := Successful(Some(PokemonListResponse(Some(ExampleEntries))))

  const ExampleDetails: DetailResponse := Successful(Some(PokemonDetails(Some("ivysaur"), 10, 130,
    Some([AbilityWrapper(Some(Ability(Some("overgrow"))))]))))

  /** The concrete session with choice 2, up to the detail request: the
      menu is numbered and capitalised, the second entry is bound, and the
      request still goes to the literal path. */
  lemma ExampleSessionMenu()
    ensures SafeDereferences(ExampleList, Some(2), ExampleDetails)
    ensures var s := SessionOf(ExampleList, Some(2), ExampleDetails);
      s.selected == Some(ExampleEntries[1]) &&
      |s.trace| == 15 &&
      s.trace[3] == WriteLine("1. Bulbasaur") &&
      s.trace[4] == WriteLine("2. Ivysaur") &&
      s.trace[5] == WriteLine("3. Venusaur") &&
      s.trace[9] == HttpGet("/api/v2/pokemon/{selecionado.Name}")
  {
    assert AbilitiesPresent(ExampleDetails.decoded.value.abilities.value);
    var s := SessionOf(ExampleList, Some(2), ExampleDetails);
    MenuListsEntries(ExampleList, Some(2), ExampleDetails);
    DetailsPrinted(ExampleList, Some(2), ExampleDetails);
    AcceptedChoiceSelects(ExampleList, Some(2), ExampleDetails);
    ExampleMenuText();
  }

  /** The concrete session with choice 2, after the detail request: the
      details of ivysaur are printed capitalised and the session completes. */
  lemma ExampleSessionDetails()
    ensures SafeDereferences(ExampleList, Some(2), ExampleDetails)
    ensures var s := SessionOf(ExampleList, Some(2), ExampleDetails);
      s.final == Completed &&
      |s.trace| == 15 &&
      s.trace[10] == WriteLine("\n Detalhes de Ivysaur:") &&
      s.trace[11] == WriteLine("- Altura: 10") &&
      s.trace[12] == WriteLine("- Peso: 130") &&
      s.trace[13] == WriteLine("- Habilidades:") &&
      s.trace[14] == WriteLine("  \U{2022} Overgrow")
  {
    assert AbilitiesPresent(ExampleDetails.decoded.value.abilities.value);
    DetailsPrinted(ExampleList, Some(2), ExampleDetails);
    AbilitiesPrinted(ExampleList, Some(2), ExampleDetails);
    ExampleDetailText();
  }

  lemma ExampleMenuText()
    ensures NatToString(1) + ". " + UpperFirst(Some("bulbasaur")) == "1. Bulbasaur"
    ensures NatToString(2) + ". " + UpperFirst(Some("ivysaur")) == "2. Ivysaur"
    ensures NatToString(3) + ". " + UpperFirst(Some("venusaur")) == "3. Venusaur"
  {
    ExampleNames();
    assert NatToString(1) == "1" && NatToString(2) == "2" && NatToString(3) == "3";
  }

  lemma ExampleNames()
    ensures UpperFirst(Some("bulbasaur")) == "Bulbasaur"
    ensures UpperFirst(Some("ivysaur")) == "Ivysaur"
    ensures UpperFirst(Some("venusaur")) == "Venusaur"
  {
  }

  lemma ExampleDetailText()
    ensures "\n Detalhes de " + UpperFirst(Some("ivysaur")) + ":" == "\n Detalhes de Ivysaur:"
    ensures "- Altura: " + IntToString(10) == "- Altura: 10"
    ensures "- Peso: " + IntToString(130) == "- Peso: 130"
    ensures "  \U{2022} " + UpperFirst(Some("overgrow")) == "  \U{2022} Overgrow"
  {
    assert NatToString(10) == NatToString(1) + "0";
    assert NatToString(130) == NatToString(13) + "0" && NatToString(13) == NatToString(1) + "3";
  }
}
