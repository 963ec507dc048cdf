/**
 * The display logic of the detail screen (src/screens/PokemonDetailScreen.tsx):
 * type badge colours, stat and ability labels, the stat bar width and the
 * header line.
 */
module PokemonDetailScreen {
  import opened JsText
  import opened PokeApi
  import opened Wrappers

  const UnknownTypeColor: string := "#68A090"

  /** The 18 types the colour switch lists, with their colours. */
  const KnownTypeColors: map<string, string> := map[
    "fire" := "#F08030", "water" := "#6890F0", "grass" := "#78C850",
    "electric" := "#F8D030", "ice" := "#98D8D8", "fighting" := "#C03028",
    "poison" := "#A040A0", "ground" := "#E0C068", "flying" := "#A890F0",
    "psychic" := "#F85888", "bug" := "#A8B820", "rock" := "#B8A038",
    "ghost" := "#705898", "dragon" := "#7038F8", "steel" := "#B8B8D0",
    "dark" := "#705848", "fairy" := "#EE99AC", "normal" := "#A8A878"]

  /** `getTypeColor(type)`, the `switch` as written. */
  function GetTypeColor(t: string): (color: string)
    ensures |color| == 7 && color[0] == '#'
  {
    if t == "fire" then "#F08030" else if t == "water" then "#6890F0"
    else if t == "grass" then "#78C850" else if t == "electric" then "#F8D030"
    else if t == "ice" then "#98D8D8" else if t == "fighting" then "#C03028"
    else if t == "poison" then "#A040A0" else if t == "ground" then "#E0C068"
    else if t == "flying" then "#A890F0" else if t == "psychic" then "#F85888"
    else if t == "bug" then "#A8B820" else if t == "rock" then "#B8A038"
    else if t == "ghost" then "#705898" else if t == "dragon" then "#7038F8"
    else if t == "steel" then "#B8B8D0" else if t == "dark" then "#705848"
    else if t == "fairy" then "#EE99AC" else if t == "normal" then "#A8A878"
    else UnknownTypeColor
  }

  /** The switch agrees with the table: a listed type gets its colour, any
      other string gets the fallback colour. */
  lemma TypeColorTable(t: string)
    ensures t in KnownTypeColors ==> GetTypeColor(t) == KnownTypeColors[t]
    ensures t !in KnownTypeColors ==> GetTypeColor(t) == UnknownTypeColor
  {
    if t in KnownTypeColors {
      KnownTypeColor(t);
    }
  }

  lemma KnownTypeColor(t: string)
    requires t in KnownTypeColors
    ensures GetTypeColor(t) == KnownTypeColors[t]
  {
  }

  /** `name.replace(/-/g, ' ').toUpperCase()`, used for stat and ability names. */
  function DisplayLabel(name: string): (text: string)
    ensures |text| == |name|
    ensures '-' !in text
    ensures forall i :: 0 <= i < |text| ==> !IsLowerAscii(text[i])
    ensures forall i :: 0 <= i < |name| ==> text[i] == if name[i] == '-' then ' ' else UpperChar(name[i])
  {
    ToUpper(ReplaceEach(name, {'-'}, ' '))
  }

  /** The text of a `StatBar`. */
  function StatLabel(s: Stat): (text: string)
    ensures |text| == |s.stat.name| && '-' !in text
  {
    DisplayLabel(s.stat.name)
  }

  const MaxStatValue: int := 150

  /** The bar width in percent: `base_stat / 150 * 100`, cut at 100. */
  function BarWidth(baseStat: int): (w: real)
    ensures w <= 100.0
    ensures w == 100.0 <==> baseStat >= MaxStatValue
    ensures baseStat <= MaxStatValue ==> w * MaxStatValue as real == baseStat as real * 100.0
  {
    var percentage := baseStat as real / MaxStatValue as real * 100.0;
    if percentage > 100.0 then 100.0 else percentage
  }

  /** The header image: the official artwork when it is present and
      non-empty (`||` also skips ""), else the list's image. */
  function MainImageUri(d: PokemonDetail, listImage: string): (uri: string)
    ensures d.sprites.officialArtwork.Some? && d.sprites.officialArtwork.value != "" ==>
      uri == d.sprites.officialArtwork.value
    ensures d.sprites.officialArtwork.None? || d.sprites.officialArtwork.value == "" ==>
      uri == listImage
  {
    match d.sprites.officialArtwork
    case Some(artwork) => if artwork != "" then artwork else listImage
    case None => listImage
  }

  /** The header: the name with its first character upper-cased, then " (#id)". */
  function HeaderTitle(d: PokemonDetail): (title: string)
    ensures |title| == |d.name| + |IntToString(d.id)| + 4
    ensures title[..|d.name|] == Capitalize(d.name)
    ensures title[|d.name|..|d.name| + 3] == " (#" && title[|title| - 1] == ')'
    ensures title[|d.name| + 3..|title| - 1] == IntToString(d.id)
  {
    Capitalize(d.name) + " (#" + IntToString(d.id) + ")"
  }

  /** The id can be read back from the header. */
  lemma HeaderTitleId(d: PokemonDetail)
    ensures var title := HeaderTitle(d); ParseInt(title[|d.name| + 3..|title| - 1]) == d.id
  {
    ParseIntToString(d.id);
  }

  const HiddenMark: string := "(Hidden)"

  /** The text of one ability row: bullet, text, a space, and the hidden mark. */
  function AbilityLine(a: Ability): (line: string)
    ensures |line| == |a.ability.name| + 3 + (if a.isHidden then |HiddenMark| else 0)
    ensures line[..2] == "• "
    ensures line[2..2 + |a.ability.name|] == DisplayLabel(a.ability.name)
    ensures line[2 + |a.ability.name|] == ' '
    ensures |line| >= |HiddenMark| ==>
      (line[|line| - |HiddenMark|..] == HiddenMark <==> a.isHidden)
  {
    var line := "• " + DisplayLabel(a.ability.name) + " " + (if a.isHidden then HiddenMark else "");
    assert !a.isHidden ==> line[|line| - 1] == ' ';
    line
  }
}
