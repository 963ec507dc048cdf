/**
 * The string logic of the activity feed (src/screens/HomeScreen.tsx): the
 * sprite URL built from a creature's name, and the card background chosen
 * from the stored biome tag.
 */
module HomeScreen {
  import opened JsText
  import Biome

  // Written as two literals: the verifier then sees the characters of each
  // piece, which the proofs comparing these strings need.
  const SpriteUrlPrefix: string := "https://img.pokemondb.net/" + "sprites/home/normal/"

  /** `name.toLowerCase().replace('.', '').replace(' ', '-')`: string
      patterns, so only the first dot and the first space are touched. */
  function CleanName(name: string): (clean: string)
    ensures forall i :: 0 <= i < |clean| ==> !IsUpperAscii(clean[i])
  {
    var noDot := ReplaceFirst(ToLower(name), '.', "");
    ReplaceKeepsLowerCase(ToLower(name), '.', "");
    ReplaceKeepsLowerCase(noDot, ' ', "-");
    ReplaceFirst(noDot, ' ', "-")
  }

  /** Replacing a character by a string without upper-case letters leaves
      a string without upper-case letters. */
  lemma ReplaceKeepsLowerCase(s: string, pat: char, rep: string)
    requires forall i :: 0 <= i < |s| ==> !IsUpperAscii(s[i])
    requires forall i :: 0 <= i < |rep| ==> !IsUpperAscii(rep[i])
    ensures forall i :: 0 <= i < |ReplaceFirst(s, pat, rep)| ==> !IsUpperAscii(ReplaceFirst(s, pat, rep)[i])
  {
    if pat in s {
      var k := FirstIndex(s, pat);
      var r := ReplaceFirst(s, pat, rep);
      forall i | 0 <= i < |r| ensures !IsUpperAscii(r[i]) {
        if i < k {
          assert r[i] == s[i];
        } else if i < k + |rep| {
          assert r[i] == rep[i - k];
        } else {
          assert r[i] == s[i - |rep| + 1];
        }
      }
    }
  }

  /** `getPokemonImageUrl(name)`. */
  function GetPokemonImageUrl(name: string): (url: string)
    ensures |url| == |SpriteUrlPrefix| + |CleanName(name)| + 4
    ensures url[..|SpriteUrlPrefix|] == SpriteUrlPrefix
    ensures url[|SpriteUrlPrefix|..|url| - 4] == CleanName(name)
    ensures url[|url| - 4..] == ".png"
  {
    SpriteUrlPrefix + CleanName(name) + ".png"
  }

  lemma DotInLower(name: string)
    ensures '.' in ToLower(name) <==> '.' in name
    ensures ' ' in ToLower(name) <==> ' ' in name
  {
    ToLowerCount(name, '.');
    ToLowerCount(name, ' ');
  }

  /** The clean name is one character shorter exactly when the name has a dot. */
  lemma CleanNameLength(name: string)
    ensures |CleanName(name)| == if '.' in name then |name| - 1 else |name|
  {
    DotInLower(name);
  }

  /** Only the first dot is deleted: every later dot survives. */
  lemma CleanNameDots(name: string)
    ensures Count(CleanName(name), '.') == if '.' in name then Count(name, '.') - 1 else 0
  {
    var lower := ToLower(name);
    ToLowerCount(name, '.');
    var noDot := ReplaceFirst(lower, '.', "");
    ReplaceFirstCountPattern(lower, '.', "");
    ReplaceFirstCountOther(noDot, ' ', "-", '.');
  }

  /** Only the first space becomes a dash: every later space survives. */
  lemma CleanNameSpaces(name: string)
    ensures Count(CleanName(name), ' ') == if ' ' in name then Count(name, ' ') - 1 else 0
  {
    var lower := ToLower(name);
    ToLowerCount(name, ' ');
    var noDot := ReplaceFirst(lower, '.', "");
    ReplaceFirstCountOther(lower, '.', "", ' ');
    ReplaceFirstCountPattern(noDot, ' ', "-");
  }

  /** A name with no dot and no space maps to its lower-case form. */
  lemma CleanNamePlain(name: string)
    requires '.' !in name && ' ' !in name
    ensures CleanName(name) == ToLower(name)
  {
    DotInLower(name);
  }

  /** The example in the source's comment: "Mr. Mime" becomes "mr-mime". */
  lemma CleanNameMrMime()
    ensures CleanName("Mr. Mime") == "mr-mime"
  {
    LowerMrMime();
    DropDotMrMime();
    DashMrMime();
  }

  lemma LowerMrMime()
    ensures ToLower("Mr. Mime") == "mr. mime"
  {
  }

  lemma DropDotMrMime()
    ensures ReplaceFirst("mr. mime", '.', "") == "mr mime"
  {
    var s := "mr. mime";
    assert s[2] == '.' && '.' !in s[..2];
    assert FirstIndex(s, '.') == 2;
    assert s[..2] == "mr" && s[3..] == " mime";
  }

  lemma DashMrMime()
    ensures ReplaceFirst("mr mime", ' ', "-") == "mr-mime"
  {
    var s := "mr mime";
    assert s[2] == ' ' && ' ' !in s[..2];
    assert FirstIndex(s, ' ') == 2;
    assert s[..2] == "mr" && s[3..] == "mime";
  }

  /** The card background: water and urban each have their own colour, and
      every other tag (rural, or anything else stored) gets the green one. */
  function BiomeBackground(biome: string): (color: string)
    ensures color == "#E3F2FD" <==> biome == "water"
    ensures color == "#F3E5F5" <==> biome == "urban"
    ensures color == "#E8F5E9" <==> biome != "water" && biome != "urban"
  {
    if biome == "water" then "#E3F2FD" else if biome == "urban" then "#F3E5F5" else "#E8F5E9"
  }

  /** The three biomes get three different backgrounds. */
  lemma BiomeBackgroundsDistinct(a: Biome.Biome, b: Biome.Biome)
    requires BiomeBackground(Biome.BiomeName(a)) == BiomeBackground(Biome.BiomeName(b))
    ensures a == b
  {
  }
}
