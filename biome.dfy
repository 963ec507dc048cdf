/**
 * Biome classification from a coordinate (src/utils/biome.ts).
 * A latitude is the exact value of a finite JavaScript number, so it is a
 * `real`; the longitude is accepted and never read.
 */
module Biome {

  datatype Biome = Urban | Rural | Water

  /** The tag string the app stores and compares ("urban", "rural", "water"). */
  function BiomeName(b: Biome): string
  {
    match b
    case Urban => "urban"
    case Rural => "rural"
    case Water => "water"
  }

  /** JavaScript `x % m === 0` for a finite x and a whole m > 0: the exact
      remainder is zero exactly when x / m is a whole number. */
  predicate IsMultiple(x: real, m: nat)
    requires m > 0
    ensures IsMultiple(x, m) ==> x == x.Floor as real
  {
    var q := x / m as real;
    if q == q.Floor as real then
      assert x == (q.Floor * m) as real;
      true
    else
      false
  }

  /** `getBiome(lat, lon)`: the even test first, then the multiple-of-3 test. */
  function GetBiome(lat: real, lon: real): (b: Biome)
    ensures b == Urban <==> IsMultiple(lat, 2)
    ensures b == Water <==> !IsMultiple(lat, 2) && IsMultiple(lat, 3)
    ensures b == Rural <==> !IsMultiple(lat, 2) && !IsMultiple(lat, 3)
  {
    if IsMultiple(lat, 2) then Urban
    else if IsMultiple(lat, 3) then Water
    else Rural
  }

  /** On whole latitudes the rule is Dafny's `%` on integers (a zero
      remainder does not depend on how negative operands are rounded). */
  lemma WholeLatitude(n: int, m: nat)
    requires m == 2 || m == 3
    ensures IsMultiple(n as real, m) <==> n % m == 0
  {
    if m == 2 {
      WholeMultipleOfTwo(n);
    } else {
      WholeMultipleOfThree(n);
    }
  }

  lemma WholeMultipleOfTwo(n: int)
    ensures IsMultiple(n as real, 2) <==> n % 2 == 0
  {
    var q := n as real / 2.0;
    if q == q.Floor as real {
      assert n == 2 * q.Floor;
    }
    if n % 2 == 0 {
      assert n == 2 * (n / 2);
      assert q == (n / 2) as real;
    }
  }

  lemma WholeMultipleOfThree(n: int)
    ensures IsMultiple(n as real, 3) <==> n % 3 == 0
  {
    var q := n as real / 3.0;
    if q == q.Floor as real {
      assert n == 3 * q.Floor;
    }
    if n % 3 == 0 {
      assert n == 3 * (n / 3);
      assert q == (n / 3) as real;
    }
  }

  lemma WholeLatitudeBiome(n: int, lon: real)
    ensures GetBiome(n as real, lon) ==
      if n % 2 == 0 then Urban else if n % 3 == 0 then Water else Rural
  {
    WholeLatitude(n, 2);
    WholeLatitude(n, 3);
  }

  /** Any multiple of 2, negative ones included, is urban. */
  lemma EvenLatitudeIsUrban(k: int, lon: real)
    ensures GetBiome((2 * k) as real, lon) == Urban
  {
    assert (2 * k) as real / 2 as real == k as real;
  }

  /** The even test wins: a multiple of 6 is urban, never water. */
  lemma MultipleOfSixIsUrban(k: int, lon: real)
    ensures GetBiome((6 * k) as real, lon) == Urban
  {
    EvenLatitudeIsUrban(3 * k, lon);
  }

  /** A multiple of 3 that is odd, that is 6j + 3, is water. */
  lemma OddMultipleOfThreeIsWater(j: int, lon: real)
    ensures GetBiome((6 * j + 3) as real, lon) == Water
  {
    OddMultipleOfThreeNotEven(j);
    OddMultipleOfThreeDividesByThree(j);
  }

  lemma OddMultipleOfThreeNotEven(j: int)
    ensures !IsMultiple((6 * j + 3) as real, 2)
  {
    var half := (6 * j + 3) as real / 2 as real;
    assert half == (3 * j + 1) as real + 0.5;
    assert half.Floor == 3 * j + 1;
  }

  lemma OddMultipleOfThreeDividesByThree(j: int)
    ensures IsMultiple((6 * j + 3) as real, 3)
  {
    var third := (6 * j + 3) as real / 3 as real;
    assert third == (2 * j + 1) as real;
    assert third.Floor == 2 * j + 1;
  }

  /** Every other whole latitude is rural. */
  lemma OtherWholeLatitudeIsRural(n: int, lon: real)
    requires n % 2 != 0 && n % 3 != 0
    ensures GetBiome(n as real, lon) == Rural
  {
    WholeLatitudeBiome(n, lon);
  }

  /** A latitude with a fractional part is never a multiple of 2 or 3. */
  lemma FractionalLatitudeIsRural(lat: real, lon: real)
    requires lat != lat.Floor as real
    ensures GetBiome(lat, lon) == Rural
  {
  }

  /** The longitude is never read, and the rule repeats every 6 degrees of latitude. */
  lemma BiomePeriodic(lat: real, lon1: real, lon2: real)
    ensures GetBiome(lat, lon1) == GetBiome(lat + 6.0, lon2)
  {
    ShiftMultiple(lat, 2, 3);
    ShiftMultiple(lat, 3, 2);
  }

  lemma ShiftMultiple(x: real, m: nat, k: nat)
    requires m > 0
    ensures IsMultiple(x, m) <==> IsMultiple(x + (m * k) as real, m)
  {
    var q := x / m as real;
    var q' := (x + (m * k) as real) / m as real;
    assert q' == q + k as real;
    assert q'.Floor == q.Floor + k;
  }
}
