/**
 * Random encounters (src/utils/randomEncounter.ts): a fixed biome-indexed
 * table of creature names, and a pick from the coordinate's biome list.
 * The value of `Math.random()` is passed in as the draw `r`, 0 <= r < 1.
 */
module RandomEncounter {
  import opened Biome
  import opened Wrappers

  /** The read-only `encounters` table. */
  function Encounters(b: Biome): (names: seq<string>)
    ensures |names| == 3
  {
    match b
    case Urban => ["Pidgey", "Rattata", "Magnemite"]
    case Rural => ["Caterpie", "Weedle", "Oddish"]
    case Water => ["Magikarp", "Psyduck", "Poliwag"]
  }

  /** `Math.floor(r * n)`: always a valid index into a list of length n. */
  function DrawIndex(r: real, n: nat): (i: int)
    requires 0.0 <= r < 1.0
    ensures n > 0 ==> 0 <= i < n
    ensures n > 0 ==> i as real <= r * n as real < (i + 1) as real
  {
    assert r * n as real <= n as real;
    assert n > 0 ==> r * n as real < n as real;
    (r * n as real).Floor
  }

  /** `getRandomEncounter(lat, lon)` with the random draw made explicit. */
  function GetRandomEncounter(lat: real, lon: real, r: real): (name: string)
    requires 0.0 <= r < 1.0
    ensures name in Encounters(GetBiome(lat, lon))
  {
    var list := Encounters(GetBiome(lat, lon));
    list[DrawIndex(r, |list|)]
  }

  /** The biome whose list holds `name`, if any: the inverse of the table. */
  function BiomeOfEncounter(name: string): (b: Option<Biome>)
    ensures b.Some? ==> name in Encounters(b.value)
    ensures b.None? ==> forall x: Biome :: name !in Encounters(x)
  {
    if name in Encounters(Urban) then Some(Urban)
    else if name in Encounters(Rural) then Some(Rural)
    else if name in Encounters(Water) then Some(Water)
    else None
  }

  /** The three lists are pairwise disjoint. */
  lemma EncountersDisjoint(b1: Biome, b2: Biome, name: string)
    requires name in Encounters(b1) && name in Encounters(b2)
    ensures b1 == b2
  {
  }

  /** So the name drawn tells which biome it was drawn for. */
  lemma EncounterIdentifiesBiome(lat: real, lon: real, r: real)
    requires 0.0 <= r < 1.0
    ensures BiomeOfEncounter(GetRandomEncounter(lat, lon, r)) == Some(GetBiome(lat, lon))
  {
    var b := GetBiome(lat, lon);
    var name := GetRandomEncounter(lat, lon, r);
    var found := BiomeOfEncounter(name);
    if found.Some? {
      EncountersDisjoint(found.value, b, name);
    }
  }

  /** Same latitude and same draw give the same name, whatever the longitude. */
  lemma EncounterIgnoresLongitude(lat: real, lon1: real, lon2: real, r: real)
    requires 0.0 <= r < 1.0
    ensures GetRandomEncounter(lat, lon1, r) == GetRandomEncounter(lat, lon2, r)
  {
  }

  /** Draws in [k/3, (k+1)/3) select the k-th name, so every name of the
      biome's list is reachable. */
  lemma DrawSelects(lat: real, lon: real, r: real, k: nat)
    requires k < 3
    requires k as real / 3.0 <= r < (k + 1) as real / 3.0
    ensures 0.0 <= r < 1.0
    ensures GetRandomEncounter(lat, lon, r) == Encounters(GetBiome(lat, lon))[k]
  {
    assert k as real <= r * 3.0 < (k + 1) as real;
  }
}
