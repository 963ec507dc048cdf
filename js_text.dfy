/**
 * The JavaScript string built-ins the app relies on, over `seq<char>`.
 * Case mapping is ASCII-only: `toLowerCase`/`toUpperCase` change only the
 * letters A-Z / a-z and leave every other character as it is.
 */
module JsText {

  predicate IsUpperAscii(c: char) { 'A' <= c <= 'Z' }
  predicate IsLowerAscii(c: char) { 'a' <= c <= 'z' }

  function LowerChar(c: char): (d: char)
    ensures !IsUpperAscii(d)
    ensures !IsUpperAscii(c) ==> d == c
  {
    if IsUpperAscii(c) then (c as int + 32) as char else c
  }

  function UpperChar(c: char): (d: char)
    ensures !IsLowerAscii(d)
    ensures !IsLowerAscii(c) ==> d == c
  {
    if IsLowerAscii(c) then (c as int - 32) as char else c
  }

  /** `s.toLowerCase()` */
  function ToLower(s: string): (r: string)
    ensures |r| == |s|
    ensures forall i :: 0 <= i < |s| ==> r[i] == LowerChar(s[i])
  {
    seq(|s|, i requires 0 <= i < |s| => LowerChar(s[i]))
  }

  /** `s.toUpperCase()` */
  function ToUpper(s: string): (r: string)
    ensures |r| == |s|
    ensures forall i :: 0 <= i < |s| ==> r[i] == UpperChar(s[i])
  {
    seq(|s|, i requires 0 <= i < |s| => UpperChar(s[i]))
  }

  /** `s.charAt(0).toUpperCase() + s.slice(1)`; on "" both halves are "". */
  function Capitalize(s: string): (r: string)
    ensures |r| == |s|
    ensures s != [] ==> r[0] == UpperChar(s[0]) && r[1..] == s[1..]
  {
    if s == [] then [] else [UpperChar(s[0])] + s[1..]
  }

  /** `s.replace(regex, d)` with a global one-character-class regex: every
      character in `pats` becomes `d`, everything else stays in place. */
  function ReplaceEach(s: string, pats: set<char>, d: char): (r: string)
    ensures |r| == |s|
    ensures forall i :: 0 <= i < |s| ==> r[i] == if s[i] in pats then d else s[i]
  {
    seq(|s|, i requires 0 <= i < |s| => if s[i] in pats then d else s[i])
  }

  /** Position of the first occurrence of `c` in `s`. */
  function FirstIndex(s: string, c: char): (i: nat)
    requires c in s
    ensures i < |s| && s[i] == c && c !in s[..i]
  {
    if s[0] == c then 0 else FirstIndex(s[1..], c) + 1
  }

  /** `s.replace(pat, rep)` with a one-character STRING pattern: only the
      first occurrence of `pat` is replaced. */
  function ReplaceFirst(s: string, pat: char, rep: string): (r: string)
    ensures pat !in s ==> r == s
    ensures pat in s ==> r == s[..FirstIndex(s, pat)] + rep + s[FirstIndex(s, pat) + 1..]
  {
    if s == [] then []
    else if s[0] == pat then rep + s[1..]
    else
      var tail := ReplaceFirst(s[1..], pat, rep);
      assert pat in s[1..] ==> s[1..][..FirstIndex(s[1..], pat)] == s[1..FirstIndex(s, pat)];
      [s[0]] + tail
  }

  /** `s.includes(needle)` is true when `needle` occurs at some position. */
  ghost predicate OccursAt(hay: string, needle: string, i: nat)
  {
    i + |needle| <= |hay| && hay[i..i + |needle|] == needle
  }

  function Includes(hay: string, needle: string): (b: bool)
    ensures b <==> exists i: nat :: OccursAt(hay, needle, i)
    decreases |hay|
  {
    if needle <= hay then
      assert OccursAt(hay, needle, 0);
      true
    else if hay == [] then
      false
    else
      var b := Includes(hay[1..], needle);
      assert forall i: nat :: OccursAt(hay[1..], needle, i) <==> OccursAt(hay, needle, i + 1);
      assert forall i: nat :: OccursAt(hay, needle, i) ==> i > 0;
      assert b ==> exists i: nat :: OccursAt(hay, needle, i) by {
        if b {
          var j: nat :| OccursAt(hay[1..], needle, j);
          assert OccursAt(hay, needle, j + 1);
        }
      }
      assert (exists i: nat :: OccursAt(hay, needle, i)) ==> exists i: nat :: OccursAt(hay[1..], needle, i) by {
        if i: nat :| OccursAt(hay, needle, i) {
          assert OccursAt(hay[1..], needle, i - 1);
        }
      }
      b
  }

  // ---- decimal rendering of integers (`n.toString()`) and its inverse ----

  predicate IsDigit(c: char) { '0' <= c <= '9' }

  function DigitChar(d: nat): (c: char)
    requires d < 10
    ensures IsDigit(c) && c as int - '0' as int == d
  {
    ('0' as int + d) as char
  }

  /** The strings `toString()` produces for a whole number n >= 0: digits
      only, at least one, and no leading zero unless the string is "0". */
  predicate IsDecimal(s: string)
  {
    && 1 <= |s|
    && (forall i :: 0 <= i < |s| ==> IsDigit(s[i]))
    && (1 < |s| ==> s[0] != '0')
  }

  function NatToString(n: nat): (s: string)
    ensures IsDecimal(s)
    ensures s[0] == '0' <==> n == 0
  {
    if n < 10 then [DigitChar(n)] else NatToString(n / 10) + [DigitChar(n % 10)]
  }

  function DigitValue(c: char): (d: nat)
    requires IsDigit(c)
    ensures d < 10 && DigitChar(d) == c
  {
    c as int - '0' as int
  }

  /** Reads a string of decimal digits back as a number. */
  function ParseDecimal(s: string): nat
    requires forall i :: 0 <= i < |s| ==> IsDigit(s[i])
  {
    if s == [] then 0
    else ParseDecimal(s[..|s| - 1]) * 10 + DigitValue(s[|s| - 1])
  }

  lemma {:induction false} ParseNatToString(n: nat)
    ensures ParseDecimal(NatToString(n)) == n
  {
    if n >= 10 {
      var s := NatToString(n);
      assert s[..|s| - 1] == NatToString(n / 10);
      ParseNatToString(n / 10);
    }
  }

  /** A decimal string not starting with '0' reads as a positive number. */
  lemma {:induction false} ParseDecimalPositive(s: string)
    requires IsDecimal(s) && s[0] != '0'
    ensures ParseDecimal(s) > 0
  {
    if 1 < |s| {
      var p := s[..|s| - 1];
      assert p[0] == s[0];
      ParseDecimalPositive(p);
    }
  }

  /** The other round trip: every decimal string is the rendering of the
      number it reads as, so `toString()` output is pinned by its value. */
  lemma {:induction false} NatToStringParse(s: string)
    requires IsDecimal(s)
    ensures NatToString(ParseDecimal(s)) == s
  {
    if 1 < |s| {
      var p := s[..|s| - 1];
      assert p[0] == s[0];
      ParseDecimalPositive(p);
      NatToStringParse(p);
      var n := ParseDecimal(s);
      var d := DigitValue(s[|s| - 1]);
      assert n == ParseDecimal(p) * 10 + d;
      assert n / 10 == ParseDecimal(p) && n % 10 == d;
      assert s == p + [s[|s| - 1]];
    } else {
      assert s == [s[0]];
    }
  }

  lemma NatToStringInjective(a: nat, b: nat)
    ensures NatToString(a) == NatToString(b) ==> a == b
  {
    ParseNatToString(a);
    ParseNatToString(b);
  }

  /** `${n}` for a whole number n. */
  function IntToString(n: int): (s: string)
    ensures n >= 0 ==> s == NatToString(n)
    ensures n < 0 ==> s == "-" + NatToString(-n)
  {
    if n < 0 then "-" + NatToString(-n) else NatToString(n)
  }

  function ParseInt(s: string): int
    requires s != [] && s[0] == '-' ==> forall i :: 1 <= i < |s| ==> IsDigit(s[i])
    requires !(s != [] && s[0] == '-') ==> forall i :: 0 <= i < |s| ==> IsDigit(s[i])
  {
    if s != [] && s[0] == '-' then 0 - ParseDecimal(s[1..]) as int else ParseDecimal(s)
  }

  lemma ParseIntToString(n: int)
    ensures ParseInt(IntToString(n)) == n
  {
    if n < 0 {
      assert IntToString(n)[1..] == NatToString(-n);
      ParseNatToString(-n);
    } else {
      ParseNatToString(n);
    }
  }

  lemma IntToStringInjective(a: int, b: int)
    ensures IntToString(a) == IntToString(b) ==> a == b
  {
    ParseIntToString(a);
    ParseIntToString(b);
  }

  /** Number of times `c` occurs in `s`. */
  function Count(s: string, c: char): nat
  {
    multiset(s)[c]
  }

  /** Replacing the first `pat` by `rep` removes one `pat` and adds the characters of `rep`. */
  lemma ReplaceFirstMultiset(s: string, pat: char, rep: string)
    requires pat in s
    ensures multiset(ReplaceFirst(s, pat, rep)) == multiset(s) - multiset{pat} + multiset(rep)
  {
    var i := FirstIndex(s, pat);
    var pre, post := s[..i], s[i + 1..];
    assert s == pre + [pat] + post;
    assert multiset(s) == multiset(pre) + multiset{pat} + multiset(post);
    assert ReplaceFirst(s, pat, rep) == pre + rep + post;
    assert multiset(pre + rep + post) == multiset(pre) + multiset(rep) + multiset(post);
  }

  /** The first `pat` is gone; later ones survive. */
  lemma ReplaceFirstCountPattern(s: string, pat: char, rep: string)
    requires pat !in rep
    ensures Count(ReplaceFirst(s, pat, rep), pat) == if pat in s then Count(s, pat) - 1 else 0
  {
    if pat in s {
      ReplaceFirstMultiset(s, pat, rep);
    }
  }

  /** Characters other than `pat` and those of `rep` keep their number. */
  lemma ReplaceFirstCountOther(s: string, pat: char, rep: string, c: char)
    requires c != pat && c !in rep
    ensures Count(ReplaceFirst(s, pat, rep), c) == Count(s, c)
  {
    if pat in s {
      ReplaceFirstMultiset(s, pat, rep);
    }
  }

  /** Lower-casing keeps every character that is not an ASCII letter, and creates none. */
  lemma {:induction false} ToLowerCount(s: string, c: char)
    requires !IsUpperAscii(c) && !IsLowerAscii(c)
    ensures Count(ToLower(s), c) == Count(s, c)
  {
    if s != [] {
      assert s == [s[0]] + s[1..];
      assert ToLower(s) == [LowerChar(s[0])] + ToLower(s[1..]);
      ToLowerCount(s[1..], c);
    }
  }
}
