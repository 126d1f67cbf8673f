/**
 The pet search screen (src/screens/Search.tsx): a fixed catalog of twelve
 pets narrowed by a case-insensitive query on name or breed and by four
 multi-select category filters, with a local list of favourite ids.
 */
module Search {
  import opened Text
  import opened Seqs

  /** A catalog record; the image is left out. */
  datatype Pet = Pet(
    id: string,
    name: string,
    species: string,
    breed: string,
    age: string,
    size: string,
    gender: string,
    info: string)

  /** The `allPets` catalog, in display order. */
  const AllPets: seq<Pet> := [
    Pet("1", "Thor", "cachorro", "Beagle", "adulto", "médio", "macho", "Brincalhão e carinhoso"),
    Pet("2", "Luna", "gato", "Siamês", "adulto", "pequeno", "fêmea", "Calma e afetuosa"),
    Pet("3", "Tobby", "cachorro", "Yorkshire", "filhote", "pequeno", "macho", "Energético e inteligente"),
    Pet("4", "Shake", "cachorro", "Pug", "adulto", "médio", "macho", "Hiperativo e dorminhoco"),
    Pet("5", "Duquesa", "gato", "Persa", "adulto", "pequeno", "fêmea", "Tranquila e carinhosa"),
    Pet("6", "Snow", "gato", "Khao Manee", "adulto", "pequeno", "macho", "Sociavel e apegado"),
    Pet("7", "Max", "cachorro", "Chihuahua", "filhote", "pequeno", "macho", "Leal e corajoso"),
    Pet("8", "Pantera", "gato", "Bombaim", "adulto", "pequeno", "fêmea", "Dócil e inteligente"),
    Pet("9", "Zeus", "cachorro", "Husky Siberiano", "adulto", "grande", "macho", "Amigável e gentil"),
    Pet("10", "Fred", "gato", "Gato Manês", "adulto", "médio", "macho", "Curioso e brincal"),
    Pet("11", "Bella", "cachorro", "Lulu da pomerânia", "filhote", "pequeno", "fêmea", "Fofa e querida"),
    Pet("12", "Angel", "gato", "Gato Birmanês", "filhote", "médio", "fêmea", "Inteligente e amigável")
  ]

  /** The four keys of `selectedFilters`. */
  datatype Category = Species | Size | Age | Gender

  /** The chip values selected in each category, in the order they were
      selected. */
  datatype Filters = Filters(
    species: seq<string>,
    size: seq<string>,
    age: seq<string>,
    gender: seq<string>)

  const NoFilters: Filters := Filters([], [], [], [])

  /** The screen's state: the query text, the selected chips and the ids of
      the pets whose heart is on. */
  datatype State = State(query: string, filters: Filters, favorites: seq<string>)

  const Initial: State := State("", NoFilters, [])

  /** `selectedFilters[category]`. */
  function Selected(f: Filters, c: Category): seq<string> {
    match c
    case Species => f.species
    case Size => f.size
    case Age => f.age
    case Gender => f.gender
  }

  /** The pet attribute a category filters on. */
  function PetValue(p: Pet, c: Category): string {
    match c
    case Species => p.species
    case Size => p.size
    case Age => p.age
    case Gender => p.gender
  }

  /** `matchesSearch`: the lower-cased query occurs in the lower-cased name
      or breed. */
  predicate MatchesSearch(p: Pet, query: string)
    ensures query == "" ==> MatchesSearch(p, query)
    ensures MatchesSearch(p, query) ==> |query| <= |p.name| || |query| <= |p.breed|
  {
    ContainsEmpty(Lower(p.name));
    Contains(Lower(p.name), Lower(query)) || Contains(Lower(p.breed), Lower(query))
  }

  /** An empty selection does not restrict; otherwise it must include the
      pet's value. */
  predicate MatchesCategory(p: Pet, f: Filters, c: Category) {
    |Selected(f, c)| == 0 || PetValue(p, c) in Selected(f, c)
  }

  /** The predicate `filteredPets` applies to each pet. */
  predicate Matches(p: Pet, query: string, f: Filters)
    ensures Matches(p, query, f)
            <==> MatchesSearch(p, query) && forall c :: MatchesCategory(p, f, c)
  {
    EveryCategory(p, f);
    MatchesSearch(p, query)
    && MatchesCategory(p, f, Species) && MatchesCategory(p, f, Size)
    && MatchesCategory(p, f, Age) && MatchesCategory(p, f, Gender)
  }

  /** The four categories are all there are. */
  lemma EveryCategory(p: Pet, f: Filters)
    ensures (forall c :: MatchesCategory(p, f, c))
            <==> MatchesCategory(p, f, Species) && MatchesCategory(p, f, Size)
                 && MatchesCategory(p, f, Age) && MatchesCategory(p, f, Gender)
  {
    if MatchesCategory(p, f, Species) && MatchesCategory(p, f, Size)
       && MatchesCategory(p, f, Age) && MatchesCategory(p, f, Gender)
    {
      forall c ensures MatchesCategory(p, f, c) {
        match c
        case Species =>
        case Size =>
        case Age =>
        case Gender =>
      }
    }
  }

  /** `filteredPets`: the catalog's pets that match, in catalog order. */
  function FilteredPets(query: string, f: Filters, catalog: seq<Pet>): (r: seq<Pet>)
    ensures |r| <= |catalog|
    ensures forall i :: 0 <= i < |r| ==> MatchesSearch(r[i], query)
    ensures forall i, c :: 0 <= i < |r| ==> MatchesCategory(r[i], f, c)
  {
    var r := Filter((p: Pet) => Matches(p, query, f), catalog);
    assert forall i :: 0 <= i < |r| ==> Matches(r[i], query, f);
    r
  }

  // ---------------------------------------------------------------------
  // Handlers

  /** `toggleFilter(category, value)`: the list-as-set toggle on one
      category; the other three are left untouched. */
  function ToggleFilter(f: Filters, c: Category, v: string): (r: Filters)
    ensures v !in Selected(f, c) ==> Selected(r, c) == Selected(f, c) + [v]
    ensures v in Selected(f, c) ==> |Selected(r, c)| == |Selected(f, c)| - 1
    ensures Selected(r, c) == Toggle(Selected(f, c), v)
    ensures forall d :: d != c ==> Selected(r, d) == Selected(f, d)
  {
    var t := Toggle(Selected(f, c), v);
    match c
    case Species => f.(species := t)
    case Size => f.(size := t)
    case Age => f.(age := t)
    case Gender => f.(gender := t)
  }

  /** The search state's `toggleFavorite(petId)`: drop the id if it is there,
      otherwise append it. */
  function ToggleFavorite(favs: seq<string>, id: string): (r: seq<string>)
    ensures id !in favs ==> r == favs + [id]
    ensures id in favs ==> id !in r && |r| < |favs|
  {
    if id in favs then
      FilterMembership((x: string) => x != id, favs, id);
      FilterDropsShorter((x: string) => x != id, favs, IndexOf(favs, id));
      Filter((x: string) => x != id, favs)
    else favs + [id]
  }

  /** `clearFilters()`: every category emptied and the query erased; the
      favourites stay. */
  function ClearFilters(s: State): (r: State)
    ensures r.query == "" && r.favorites == s.favorites
    ensures forall c :: Selected(r.filters, c) == []
  {
    State("", NoFilters, s.favorites)
  }

  /** `hasActiveFilters`: some category has a selection or the query is not
      empty (a non-empty string is truthy). */
  predicate HasActiveFilters(s: State)
    ensures HasActiveFilters(s) <==> s.query != "" || s.filters != NoFilters
  {
    SomeSelectionIff(s.filters);
    (exists c :: |Selected(s.filters, c)| > 0) || s.query != ""
  }

  /** Some category has a selection exactly when the filters are not the
      empty ones. */
  lemma SomeSelectionIff(f: Filters)
    ensures (exists c :: |Selected(f, c)| > 0) <==> f != NoFilters
  {
    if f != NoFilters {
      if |f.species| > 0 {
        assert |Selected(f, Species)| > 0;
      } else if |f.size| > 0 {
        assert |Selected(f, Size)| > 0;
      } else if |f.age| > 0 {
        assert |Selected(f, Age)| > 0;
      } else {
        assert |Selected(f, Gender)| > 0;
      }
    }
  }

  /** The heading above the results: "1 pet encontrado", otherwise
      "n pets encontrados". */
  function ResultsTitle(n: nat): (t: string)
    ensures t == NatToString(n) + " pet encontrado" <==> n == 1
    ensures n != 1 ==> t == NatToString(n) + " pets encontrados"
  {
    CountPhraseSingularIff(n, "pet encontrado", "pets encontrados");
    CountPhrase(n, "pet encontrado", "pets encontrados")
  }

  // ---------------------------------------------------------------------
  // The screen as a state machine

  datatype Event =
    | Type(text: string)              // onChangeText of the search box
    | EraseQuery                      // the close icon inside the search box
    | Chip(category: Category, value: string)
    | Clear                           // "Limpar Filtros" and "Limpar Busca"
    | Heart(id: string)

  function Step(s: State, e: Event): (r: State)
    ensures e.Heart? ==> r.query == s.query && r.filters == s.filters
    ensures !e.Heart? ==> r.favorites == s.favorites
  {
    match e
    case Type(text) => s.(query := text)
    case EraseQuery => s.(query := "")
    case Chip(c, v) => s.(filters := ToggleFilter(s.filters, c, v))
    case Clear => ClearFilters(s)
    case Heart(id) => s.(favorites := ToggleFavorite(s.favorites, id))
  }

  /** No selection list and no favourite list holds a value twice. */
  predicate Invariant(s: State) {
    (forall c :: NoDup(Selected(s.filters, c))) && NoDup(s.favorites)
  }

  // ---------------------------------------------------------------------
  // Properties of the filter

  /** The results keep catalog order, and a pet is among them exactly when
      it is in the catalog and matches. */
  lemma FilteredIsSubsequence(query: string, f: Filters, catalog: seq<Pet>, p: Pet)
    ensures IsSubsequence(FilteredPets(query, f, catalog), catalog)
    ensures p in FilteredPets(query, f, catalog) <==> p in catalog && Matches(p, query, f)
  {
    FilterIsSubsequence((x: Pet) => Matches(x, query, f), catalog);
    FilterMembership((x: Pet) => Matches(x, query, f), catalog, p);
  }

  /** With no query and no selection every pet matches. */
  lemma EverythingMatchesUnfiltered(p: Pet)
    ensures Matches(p, "", NoFilters)
  {
    ContainsEmpty(Lower(p.name));
  }

  /** With no query and no selection the results are the whole catalog. */
  lemma UnfilteredIsCatalog(catalog: seq<Pet>)
    ensures FilteredPets("", NoFilters, catalog) == catalog
  {
    forall i | 0 <= i < |catalog|
      ensures Matches(catalog[i], "", NoFilters)
    {
      EverythingMatchesUnfiltered(catalog[i]);
    }
    FilterAll((x: Pet) => Matches(x, "", NoFilters), catalog);
  }

  /** Queries that lower-case alike select alike. */
  lemma CaseInsensitive(q1: string, q2: string, f: Filters, catalog: seq<Pet>)
    requires Lower(q1) == Lower(q2)
    ensures FilteredPets(q1, f, catalog) == FilteredPets(q2, f, catalog)
  {
    FilterCongruent((x: Pet) => Matches(x, q1, f), (x: Pet) => Matches(x, q2, f), catalog);
  }

  /** A pet is found by its own name typed in any case. */
  lemma FoundByName(p: Pet, query: string)
    requires Lower(query) == Lower(p.name)
    ensures MatchesSearch(p, query)
  {
  }

  /** "THOR" and "thor" select alike, and both find Thor. */
  lemma ExampleThor(f: Filters, catalog: seq<Pet>)
    ensures FilteredPets("THOR", f, catalog) == FilteredPets("thor", f, catalog)
    ensures MatchesSearch(AllPets[0], "THOR")
  {
    assert Lower("THOR") == "thor" == Lower("thor") == Lower("Thor");
    CaseInsensitive("THOR", "thor", f, catalog);
    FoundByName(AllPets[0], "THOR");
  }

  /** Filtering distributes over concatenated catalogs. */
  lemma FilteredAppend(query: string, f: Filters, a: seq<Pet>, b: seq<Pet>)
    ensures FilteredPets(query, f, a + b) == FilteredPets(query, f, a) + FilteredPets(query, f, b)
  {
    FilterAppend((x: Pet) => Matches(x, query, f), a, b);
  }

  /** The species "gato" and size "pequeno" chips, no query. */
  const SmallCats: Filters := Filters(["gato"], ["pequeno"], [], [])

  /** Under `SmallCats` a pet matches exactly when it is a small cat. */
  lemma SmallCatsMatch(p: Pet)
    ensures Matches(p, "", SmallCats) <==> p.species == "gato" && p.size == "pequeno"
  {
    EverythingMatchesUnfiltered(p);
  }

  /** A pet on its own, if it is a small cat. */
  function SmallCat(p: Pet): seq<Pet> {
    if p.species == "gato" && p.size == "pequeno" then [p] else []
  }

  lemma SmallCatsSingle(p: Pet)
    ensures FilteredPets("", SmallCats, [p]) == SmallCat(p)
  {
    SmallCatsMatch(p);
    FilterSingle((x: Pet) => Matches(x, "", SmallCats), p);
  }

  /** The `SmallCats` selection from six pets is decided pet by pet. */
  lemma SmallCatsSix(d: seq<Pet>)
    requires |d| == 6
    ensures FilteredPets("", SmallCats, d) ==
            SmallCat(d[0]) + SmallCat(d[1]) + SmallCat(d[2])
            + SmallCat(d[3]) + SmallCat(d[4]) + SmallCat(d[5])
  {
    FilterSix((x: Pet) => Matches(x, "", SmallCats), d);
    SmallCatsSingle(d[0]);
    SmallCatsSingle(d[1]);
    SmallCatsSingle(d[2]);
    SmallCatsSingle(d[3]);
    SmallCatsSingle(d[4]);
    SmallCatsSingle(d[5]);
  }

  /** The `SmallCats` selection from twelve pets laid out as the catalog
      is: small cats at positions 1, 4, 5 and 7 and nowhere else. */
  lemma SmallCatsByLayout(d: seq<Pet>)
    requires |d| == 12
    requires d[1].species == "gato" && d[1].size == "pequeno"
    requires d[4].species == "gato" && d[4].size == "pequeno"
    requires d[5].species == "gato" && d[5].size == "pequeno"
    requires d[7].species == "gato" && d[7].size == "pequeno"
    requires d[0].species == "cachorro" && d[2].species == "cachorro" && d[3].species == "cachorro"
    requires d[6].species == "cachorro" && d[8].species == "cachorro" && d[10].species == "cachorro"
    requires d[9].size == "médio" && d[11].size == "médio"
    ensures FilteredPets("", SmallCats, d) == [d[1], d[4], d[5], d[7]]
  {
    var a, b := d[..6], d[6..];
    assert d == a + b;
    FilteredAppend("", SmallCats, a, b);
    SmallCatsSix(a);
    SmallCatsSix(b);
    assert FilteredPets("", SmallCats, a) == [d[1], d[4], d[5]];
    assert FilteredPets("", SmallCats, b) == [d[7]];
  }

  /** On the shipped catalog, small cats are Luna, Duquesa, Snow and
      Pantera, in that order. */
  lemma ExampleSmallCats()
    ensures FilteredPets("", SmallCats, AllPets) == [AllPets[1], AllPets[4], AllPets[5], AllPets[7]]
    ensures [AllPets[1].name, AllPets[4].name, AllPets[5].name, AllPets[7].name]
            == ["Luna", "Duquesa", "Snow", "Pantera"]
  {
    SmallCatsByLayout(AllPets);
  }

  /** A selection naming a value no pet carries empties the results. */
  lemma AbsentValueEmpties(query: string, f: Filters, c: Category, catalog: seq<Pet>)
    requires |Selected(f, c)| > 0
    requires forall i :: 0 <= i < |catalog| ==> PetValue(catalog[i], c) !in Selected(f, c)
    ensures FilteredPets(query, f, catalog) == []
  {
    FilterNone((x: Pet) => Matches(x, query, f), catalog);
  }

  /** No pet in the catalog is "idoso", so that chip alone finds nothing. */
  lemma ExampleNoSeniors()
    ensures FilteredPets("", Filters([], [], ["idoso"], []), AllPets) == []
  {
    forall i | 0 <= i < |AllPets|
      ensures AllPets[i].age != "idoso"
    {
    }
    AbsentValueEmpties("", Filters([], [], ["idoso"], []), Age, AllPets);
  }

  // ---------------------------------------------------------------------
  // Properties of the handlers

  /** On a duplicate-free selection a chip flips its own value and no other
      value of any category. */
  lemma ToggleFilterFlips(f: Filters, c: Category, v: string, d: Category, w: string)
    requires NoDup(Selected(f, c))
    ensures w in Selected(ToggleFilter(f, c, v), d) <==>
            (if d == c && w == v then v !in Selected(f, c) else w in Selected(f, d))
  {
    ToggleMembership(Selected(f, c), v, w);
  }

  /** Pressing a chip twice restores which values are selected and, when
      the value was not selected before, the filters themselves. */
  lemma ToggleFilterTwice(f: Filters, c: Category, v: string)
    requires NoDup(Selected(f, c))
    ensures forall w :: w in Selected(ToggleFilter(ToggleFilter(f, c, v), c, v), c) <==> w in Selected(f, c)
    ensures v !in Selected(f, c) ==> ToggleFilter(ToggleFilter(f, c, v), c, v) == f
  {
    ToggleTwice(Selected(f, c), v);
    var g := ToggleFilter(ToggleFilter(f, c, v), c, v);
    if v !in Selected(f, c) {
      assert Selected(g, c) == Selected(f, c);
      assert forall d :: Selected(g, d) == Selected(f, d);
    }
  }

  /** The heart flips for its own id and for no other. */
  lemma ToggleFavoriteFlips(favs: seq<string>, id: string, other: string)
    ensures other in ToggleFavorite(favs, id) <==>
            (if other == id then id !in favs else other in favs)
  {
    if id in favs {
      FilterMembership((x: string) => x != id, favs, other);
    }
  }

  /** A heart never introduces a duplicate id. */
  lemma ToggleFavoriteNoDup(favs: seq<string>, id: string)
    requires NoDup(favs)
    ensures NoDup(ToggleFavorite(favs, id))
  {
    if id in favs {
      FilterNoDup((x: string) => x != id, favs);
    }
  }

  /** Clearing leaves nothing active and shows the whole catalog. */
  lemma ClearShowsAll(s: State)
    ensures !HasActiveFilters(ClearFilters(s))
    ensures FilteredPets(ClearFilters(s).query, ClearFilters(s).filters, AllPets) == AllPets
  {
    UnfilteredIsCatalog(AllPets);
  }

  lemma InitialInvariant()
    ensures Invariant(Initial)
  {
    assert forall c :: Selected(Initial.filters, c) == [];
  }

  /** Every event keeps the selections and the favourites duplicate-free. */
  lemma StepInvariant(s: State, e: Event)
    requires Invariant(s)
    ensures Invariant(Step(s, e))
  {
    match e
    case Chip(c, v) =>
      ToggleNoDup(Selected(s.filters, c), v);
      assert forall d :: NoDup(Selected(Step(s, e).filters, d));
    case Clear =>
      assert forall c :: Selected(Step(s, e).filters, c) == [];
    case Heart(id) =>
      ToggleFavoriteNoDup(s.favorites, id);
    case _ =>
  }

  /** The screen after a sequence of events. */
  function Run(s: State, events: seq<Event>): State
    decreases |events|
  {
    if |events| == 0 then s else Run(Step(s, events[0]), events[1..])
  }

  lemma {:induction false} RunInvariant(s: State, events: seq<Event>)
    requires Invariant(s)
    ensures Invariant(Run(s, events))
    decreases |events|
  {
    if |events| > 0 {
      StepInvariant(s, events[0]);
      RunInvariant(Step(s, events[0]), events[1..]);
    }
  }

  /** Every screen reachable from mount satisfies the invariant. */
  lemma ReachableInvariant(events: seq<Event>)
    ensures Invariant(Run(Initial, events))
  {
    InitialInvariant();
    RunInvariant(Initial, events);
  }
}
