/**
 * The JavaScript string operations the inventory application relies on:
 * case folding, `includes`, `trim` and `parseInt` (radix 10).
 * Case folding is modelled on ASCII letters only; `trim` on ASCII white space.
 */
module JsText {
  import opened Wrappers

  function LowerChar(c: char): char {
    if 'A' <= c <= 'Z' then (c as int + 32) as char else c
  }

  function UpperChar(c: char): char {
    if 'a' <= c <= 'z' then (c as int - 32) as char else c
  }

  /** `s.toLowerCase()` */
  function ToLower(s: string): string {
    seq(|s|, i requires 0 <= i < |s| => LowerChar(s[i]))
  }

  /** `s.toUpperCase()` */
  function ToUpper(s: string): string {
    seq(|s|, i requires 0 <= i < |s| => UpperChar(s[i]))
  }

  /** Lower-casing twice is lower-casing once, so a folded search term folds to itself. */
  lemma ToLowerIdempotent(s: string)
    ensures ToLower(ToLower(s)) == ToLower(s)
  {
    var t := ToLower(s);
    forall i | 0 <= i < |s| ensures ToLower(t)[i] == t[i] {
      assert t[i] == LowerChar(s[i]);
    }
  }

  /** After upper-casing no ASCII lower-case letter is left. */
  lemma ToUpperLeavesNoLowerCase(s: string)
    ensures forall i :: 0 <= i < |ToUpper(s)| ==> !('a' <= ToUpper(s)[i] <= 'z')
  {
  }

  predicate StartsWith(s: string, prefix: string) {
    |prefix| <= |s| && s[..|prefix|] == prefix
  }

  /** `hay.includes(needle)`: the needle occurs somewhere in the hay (the empty needle always does). */
  predicate Includes(hay: string, needle: string)
    decreases |hay|
  {
    StartsWith(hay, needle) || (hay != [] && Includes(hay[1..], needle))
  }

  /** The needle occurs in the hay starting at position i. */
  predicate OccursAt(hay: string, needle: string, i: int) {
    0 <= i && i + |needle| <= |hay| && hay[i..i + |needle|] == needle
  }

  /** `includes` holds exactly when the needle is a contiguous slice of the hay. */
  lemma {:induction false} IncludesIff(hay: string, needle: string)
    ensures Includes(hay, needle) <==> exists i :: OccursAt(hay, needle, i)
    decreases |hay|
  {
    if Includes(hay, needle) {
      if StartsWith(hay, needle) {
        assert OccursAt(hay, needle, 0);
      } else {
        IncludesIff(hay[1..], needle);
        var i :| OccursAt(hay[1..], needle, i);
        assert hay[1..][i..i + |needle|] == hay[i + 1..i + 1 + |needle|];
        assert OccursAt(hay, needle, i + 1);
      }
    }
    if exists i :: OccursAt(hay, needle, i) {
      var i :| OccursAt(hay, needle, i);
      if i == 0 {
        assert StartsWith(hay, needle);
      } else {
        assert hay[1..][i - 1..i - 1 + |needle|] == hay[i..i + |needle|];
        assert OccursAt(hay[1..], needle, i - 1);
        IncludesIff(hay[1..], needle);
      }
    }
  }

  /** The empty search term is included in every string. */
  lemma IncludesEmpty(hay: string)
    ensures Includes(hay, "")
  {
    assert StartsWith(hay, "");
  }

  /** `hay.toLowerCase().includes(needle.toLowerCase())` */
  predicate IncludesIgnoreCase(hay: string, needle: string) {
    Includes(ToLower(hay), ToLower(needle))
  }

  predicate IsSpace(c: char) {
    c == ' ' || c == '\t' || c == '\n' || c == '\r' || c == 11 as char || c == 12 as char
  }

  function TrimStart(s: string): (r: string)
    ensures |r| <= |s| && r == s[|s| - |r|..]
    ensures r == [] || !IsSpace(r[0])
    ensures s != [] && !IsSpace(s[0]) ==> r == s
  {
    if s != [] && IsSpace(s[0]) then TrimStart(s[1..]) else s
  }

  function TrimEnd(s: string): (r: string)
    ensures |r| <= |s| && r == s[..|r|]
    ensures r == [] || !IsSpace(r[|r| - 1])
    ensures s != [] && !IsSpace(s[0]) ==> r != [] && r[0] == s[0]
  {
    if s != [] && IsSpace(s[|s| - 1]) then TrimEnd(s[..|s| - 1]) else s
  }

  /** `s.trim()` */
  function Trim(s: string): string {
    TrimEnd(TrimStart(s))
  }

  /** Trimming yields a contiguous slice of the input with no white space at either end,
      and trimming again changes nothing. */
  lemma TrimShape(s: string)
    ensures exists i, j :: 0 <= i <= j <= |s| && Trim(s) == s[i..j]
    ensures Trim(s) == [] || (!IsSpace(Trim(s)[0]) && !IsSpace(Trim(s)[|Trim(s)| - 1]))
    ensures Trim(Trim(s)) == Trim(s)
  {
    var a := TrimStart(s);
    var b := TrimEnd(a);
    var i := |s| - |a|;
    assert s[i..i + |b|] == b;
    if b != [] {
      assert !IsSpace(b[0]) by {
        assert a != [] && !IsSpace(a[0]);
      }
      assert TrimStart(b) == b;
      assert TrimEnd(b) == b;
    }
  }

  predicate IsDigit(c: char) {
    '0' <= c <= '9'
  }

  function DigitValue(c: char): nat
    requires IsDigit(c)
  {
    c as int - '0' as int
  }

  function DigitChar(d: nat): (c: char)
    requires d < 10
    ensures IsDigit(c) && DigitValue(c) == d
  {
    (d + '0' as int) as char
  }

  predicate AllDigits(s: string) {
    forall i :: 0 <= i < |s| ==> IsDigit(s[i])
  }

  /** The longest prefix of decimal digits. */
  function DigitPrefix(s: string): (r: string)
    ensures |r| <= |s| && r == s[..|r|] && AllDigits(r)
    ensures |r| < |s| ==> !IsDigit(s[|r|])
  {
    if s != [] && IsDigit(s[0]) then [s[0]] + DigitPrefix(s[1..]) else []
  }

  /** The value of a digit string, most significant digit first. */
  function DigitsValue(d: string): nat
    requires AllDigits(d)
  {
    if d == [] then 0 else DigitsValue(d[..|d| - 1]) * 10 + DigitValue(d[|d| - 1])
  }

  /**
   * `parseInt(s)` with radix 10: leading white space is skipped, one optional sign is read,
   * then the longest run of digits; no digit at all gives NaN, modelled as None.
   */
  function ParseInt(s: string): Option<int> {
    var t := TrimStart(s);
    var negative := t != [] && t[0] == '-';
    var body := if t != [] && (t[0] == '-' || t[0] == '+') then t[1..] else t;
    var digits := DigitPrefix(body);
    if digits == [] then None
    else
      var v: int := DigitsValue(digits);
      Some(if negative then -v else v)
  }

  /** The decimal rendering of a natural number, without leading zeros. */
  function Decimal(n: nat): (r: string)
    ensures r != [] && AllDigits(r) && IsDigit(r[0])
  {
    if n < 10 then [DigitChar(n)] else Decimal(n / 10) + [DigitChar(n % 10)]
  }

  /** The decimal rendering of an integer, with a minus sign when negative. */
  function IntToString(n: int): string {
    if n < 0 then ['-'] + Decimal(-n) else Decimal(n)
  }

  lemma {:induction false} DecimalValue(n: nat)
    ensures DigitsValue(Decimal(n)) == n
  {
    if n >= 10 {
      var d := Decimal(n);
      assert d[..|d| - 1] == Decimal(n / 10);
      DecimalValue(n / 10);
    }
  }

  lemma {:induction false} DigitPrefixOfDigits(s: string)
    requires AllDigits(s)
    ensures DigitPrefix(s) == s
  {
    if s != [] {
      DigitPrefixOfDigits(s[1..]);
    }
  }

  lemma ParseDigits(d: string)
    requires d != [] && AllDigits(d)
    ensures ParseInt(d) == Some(DigitsValue(d))
  {
    assert TrimStart(d) == d;
    DigitPrefixOfDigits(d);
  }

  lemma ParseMinusDigits(d: string)
    requires d != [] && AllDigits(d)
    ensures ParseInt(['-'] + d) == Some(0 - DigitsValue(d))
  {
    DigitPrefixOfDigits(d);
    var s := ['-'] + d;
    var t := TrimStart(s);
    assert t == s;
    assert t[0] == '-' && t[1..] == d;
    assert DigitPrefix(t[1..]) == d;
  }

  /** `parseInt` reads back every integer that JavaScript renders in decimal. */
  lemma ParseIntRoundTrip(n: int)
    ensures ParseInt(IntToString(n)) == Some(n)
  {
    if n < 0 {
      DecimalValue(-n);
      ParseMinusDigits(Decimal(-n));
    } else {
      DecimalValue(n);
      ParseDigits(Decimal(n));
    }
  }

  /** The empty string and a string without any digit parse to NaN. */
  lemma ParseIntNoDigits(s: string)
    requires forall k :: 0 <= k < |s| ==> !IsDigit(s[k])
    ensures ParseInt(s) == None
  {
  }
}
