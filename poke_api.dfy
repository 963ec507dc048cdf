/**
 * Detail post-processing (src/api/pokeApi.ts): once the detail and species
 * responses have arrived, pick the first English flavour text, clean it,
 * and copy the remaining fields. The two HTTP requests are not modelled;
 * their decoded bodies are the inputs. The records mirror
 * src/types/index.ts.
 */
module PokeApi {
  import opened JsText
  import opened Wrappers

  datatype NamedResource = NamedResource(name: string, url: string)
  datatype TypeSlot = TypeSlot(slot: int, typeRef: NamedResource)
  datatype Stat = Stat(baseStat: int, effort: int, stat: NamedResource)
  datatype Ability = Ability(ability: NamedResource, isHidden: bool, slot: int)
  datatype Sprites = Sprites(frontDefault: Option<string>, officialArtwork: Option<string>)

  /** The fields of the detail response that the app reads. */
  datatype RawDetails = RawDetails(
    id: int, name: string, height: int, weight: int,
    types: seq<TypeSlot>, stats: seq<Stat>, abilities: seq<Ability>, sprites: Sprites)

  /** One entry of the species response's `flavor_text_entries`. */
  datatype FlavorTextEntry = FlavorTextEntry(flavorText: string, language: NamedResource)

  /** `PokemonDetail` from src/types/index.ts. */
  datatype PokemonDetail = PokemonDetail(
    id: int, name: string, height: int, weight: int,
    types: seq<TypeSlot>, stats: seq<Stat>, abilities: seq<Ability>,
    flavorText: string, sprites: Sprites)

  const NoDescription: string := "No description available."

  /** The form feed character, written `\f` in the source's regex. */
  const FormFeed: char := '\U{000C}'

  predicate IsEnglish(e: FlavorTextEntry) { e.language.name == "en" }

  /** Entry i is English and no earlier entry is. */
  ghost predicate FirstEnglishAt(entries: seq<FlavorTextEntry>, i: int)
  {
    0 <= i < |entries| && IsEnglish(entries[i]) && forall j :: 0 <= j < i ==> !IsEnglish(entries[j])
  }

  /** Past a non-English head, the first English entry moves one place. */
  lemma FirstEnglishShift(entries: seq<FlavorTextEntry>)
    requires entries != [] && !IsEnglish(entries[0])
    ensures forall i :: FirstEnglishAt(entries[1..], i) <==> FirstEnglishAt(entries, i + 1)
    ensures (forall i :: 0 <= i < |entries| ==> !IsEnglish(entries[i])) <==>
      (forall i :: 0 <= i < |entries[1..]| ==> !IsEnglish(entries[1..][i]))
  {
    forall i ensures FirstEnglishAt(entries[1..], i) <==> FirstEnglishAt(entries, i + 1) {
      if 0 <= i < |entries| - 1 {
        assert forall j :: 0 <= j < i ==> entries[1..][j] == entries[j + 1];
      }
    }
    assert forall i :: 0 < i < |entries| ==> entries[i] == entries[1..][i - 1];
  }

  /** `entries.find(entry => entry.language.name === 'en')`: the first
      English entry in list order, or none when there is no English entry. */
  function FindEnglish(entries: seq<FlavorTextEntry>): (r: Option<FlavorTextEntry>)
    ensures r.None? <==> forall i :: 0 <= i < |entries| ==> !IsEnglish(entries[i])
    ensures r.Some? ==> exists i :: FirstEnglishAt(entries, i) && entries[i] == r.value
  {
    if entries == [] then None
    else if IsEnglish(entries[0]) then Some(entries[0])
    else
      var r := FindEnglish(entries[1..]);
      FirstEnglishShift(entries);
      assert r.Some? ==> exists i :: FirstEnglishAt(entries, i) && entries[i] == r.value by {
        if r.Some? {
          var i :| FirstEnglishAt(entries[1..], i) && entries[1..][i] == r.value;
          assert FirstEnglishAt(entries, i + 1) && entries[i + 1] == r.value;
        }
      }
      r
  }

  /** `text.replace(/[\n\f]/g, ' ')`. */
  function CleanFlavorText(text: string): (r: string)
    ensures |r| == |text|
    ensures '\n' !in r && FormFeed !in r
    ensures forall i :: 0 <= i < |text| && text[i] != '\n' && text[i] != FormFeed ==> r[i] == text[i]
    ensures forall i :: 0 <= i < |text| && (text[i] == '\n' || text[i] == FormFeed) ==> r[i] == ' '
  {
    ReplaceEach(text, {'\n', FormFeed}, ' ')
  }

  /** The `flavorText` field: the cleaned first English entry, or the fixed
      fallback message when there is none. */
  function FlavorTextOf(entries: seq<FlavorTextEntry>): (r: string)
    ensures '\n' !in r && FormFeed !in r
    ensures (forall i :: 0 <= i < |entries| ==> !IsEnglish(entries[i])) ==> r == NoDescription
  {
    match FindEnglish(entries)
    case Some(e) => CleanFlavorText(e.flavorText)
    case None => NoDescription
  }

  /** Drops `flavorText`: the inverse of attaching it in `BuildDetails`. */
  function RawPart(d: PokemonDetail): RawDetails
  {
    RawDetails(d.id, d.name, d.height, d.weight, d.types, d.stats, d.abilities, d.sprites)
  }

  /** The object literal `fetchPokemonDetails` returns: every detail field is
      copied unchanged and the flavour text is attached. */
  function BuildDetails(raw: RawDetails, entries: seq<FlavorTextEntry>): (d: PokemonDetail)
    ensures RawPart(d) == raw
    ensures d.flavorText == FlavorTextOf(entries)
  {
    PokemonDetail(raw.id, raw.name, raw.height, raw.weight, raw.types, raw.stats,
                  raw.abilities, FlavorTextOf(entries), raw.sprites)
  }

  /** When an English entry exists, the description is that first entry,
      cleaned, with every other character kept in place. */
  lemma FlavorTextFromFirstEnglish(entries: seq<FlavorTextEntry>, i: nat)
    requires FirstEnglishAt(entries, i)
    ensures FlavorTextOf(entries) == CleanFlavorText(entries[i].flavorText)
  {
    var r := FindEnglish(entries);
    var k :| FirstEnglishAt(entries, k) && entries[k] == r.value;
    assert k == i;
  }

  /** Cleaning twice is the same as cleaning once. */
  lemma CleanIdempotent(text: string)
    ensures CleanFlavorText(CleanFlavorText(text)) == CleanFlavorText(text)
  {
  }
}
