/**
 * The string operations the bot applies to user input: Python's `str.strip()`,
 * `str.lower()`, the `in` substring test, `int()` on a command argument,
 * `str()` on an integer and `" ".join(...)`.
 */
module Text {
  import opened Wrappers

  // ---------------------------------------------------------------- whitespace

  /**
   * Python's `str.isspace()`, the set of characters `str.strip()` removes:
   * the ASCII controls 9-13 and 28-31, the space, NEL, NBSP and the Unicode
   * space separators and line/paragraph separators.
   */
  predicate IsSpace(c: char) {
    var n := c as int;
    (9 <= n <= 13) || (28 <= n <= 32) || n == 0x85 || n == 0xA0 || n == 0x1680
    || (0x2000 <= n <= 0x200A) || n == 0x2028 || n == 0x2029 || n == 0x202F
    || n == 0x205F || n == 0x3000
  }

  /** Neither end of `s` is whitespace. */
  predicate Trimmed(s: string) {
    s == [] || (!IsSpace(s[0]) && !IsSpace(s[|s| - 1]))
  }

  /** The end of the run of whitespace that starts at index `i` of `s`. */
  function SkipSpaces(s: string, i: nat): (n: nat)
    requires i <= |s|
    ensures i <= n <= |s|
    ensures forall k :: i <= k < n ==> IsSpace(s[k])
    ensures n < |s| ==> !IsSpace(s[n])
    decreases |s| - i
  {
    if i < |s| && IsSpace(s[i]) then SkipSpaces(s, i + 1) else i
  }

  /** The start of the run of whitespace that ends just before index `j`, going no further left than `lo`. */
  function SkipSpacesBack(s: string, lo: nat, j: nat): (n: nat)
    requires lo <= j <= |s|
    ensures lo <= n <= j
    ensures forall k :: n <= k < j ==> IsSpace(s[k])
    ensures n > lo ==> !IsSpace(s[n - 1])
    decreases j
  {
    if j > lo && IsSpace(s[j - 1]) then SkipSpacesBack(s, lo, j - 1) else j
  }

  /** `s` is `lo` characters of whitespace, then `core`, then only whitespace. */
  predicate Surrounds(s: string, lo: int, core: string) {
    && 0 <= lo && lo + |core| <= |s| && s[lo..lo + |core|] == core
    && (forall k :: 0 <= k < lo ==> IsSpace(s[k]))
    && (forall k :: lo + |core| <= k < |s| ==> IsSpace(s[k]))
  }

  /**
   * Python's `str.strip()`: `s` is its leading whitespace, then the result,
   * then only whitespace, and the result has no whitespace at either end.
   */
  function Strip(s: string): (r: string)
    ensures Trimmed(r)
    ensures Surrounds(s, SkipSpaces(s, 0), r)
  {
    var lo := SkipSpaces(s, 0);
    var hi := SkipSpacesBack(s, lo, |s|);
    assert lo < hi ==> !IsSpace(s[lo]);
    s[lo..hi]
  }

  /** A string with no whitespace at its ends is left alone by `Strip`. */
  lemma TrimmedIsFixed(s: string)
    requires Trimmed(s)
    ensures Strip(s) == s
  {
  }

  /** Stripping twice is stripping once. */
  lemma StripIdempotent(s: string)
    ensures Strip(Strip(s)) == Strip(s)
  {
  }

  // ---------------------------------------------------------------- case

  const UPPER_ALPHABET: string := "ABCDEFGHIJKLMNOPQRSTUVWXYZ"
  const LOWER_ALPHABET: string := "abcdefghijklmnopqrstuvwxyz"

  /**
   * ASCII lower-casing of one character: the k-th capital letter becomes the
   * k-th small letter, any other character is left as it is.
   */
  function LowerChar(c: char): (r: char)
    ensures forall k :: 0 <= k < 26 && c == UPPER_ALPHABET[k] ==> r == LOWER_ALPHABET[k]
    ensures !('A' <= c <= 'Z') ==> r == c
    ensures !('A' <= r <= 'Z')
  {
    if 'A' <= c <= 'Z' then (c as int + 32) as char else c
  }

  /** `str.lower()` on ASCII letters, character by character. */
  function Lower(s: string): (r: string)
    ensures |r| == |s|
    ensures forall i :: 0 <= i < |s| ==> r[i] == LowerChar(s[i])
  {
    seq(|s|, i requires 0 <= i < |s| => LowerChar(s[i]))
  }

  /** Lower-casing a lower-cased string changes nothing. */
  lemma LowerIdempotent(s: string)
    ensures Lower(Lower(s)) == Lower(s)
  {
  }

  /** Lower-casing commutes with taking a slice. */
  lemma LowerSlice(s: string, i: int, j: int)
    requires 0 <= i <= j <= |s|
    ensures Lower(s)[i..j] == Lower(s[i..j])
  {
  }

  // ---------------------------------------------------------------- substring

  predicate StartsWith(s: string, prefix: string) {
    |prefix| <= |s| && s[..|prefix|] == prefix
  }

  predicate EndsWith(s: string, suffix: string) {
    |suffix| <= |s| && s[|s| - |suffix|..] == suffix
  }

  /** Python's `needle in hay`, searched left to right. */
  predicate Contains(hay: string, needle: string)
    decreases |hay|
  {
    StartsWith(hay, needle) || (hay != [] && Contains(hay[1..], needle))
  }

  /** `needle` occurs in `hay` starting at index `i`. */
  predicate OccursAt(hay: string, needle: string, i: int) {
    0 <= i <= |hay| - |needle| && hay[i..i + |needle|] == needle
  }

  /** `Contains` holds exactly when `needle` occurs in `hay` at some index. */
  lemma {:induction false} ContainsAt(hay: string, needle: string)
    ensures Contains(hay, needle) <==> exists i :: OccursAt(hay, needle, i)
    decreases |hay|
  {
    if StartsWith(hay, needle) {
      assert OccursAt(hay, needle, 0);
    } else if hay != [] {
      ContainsAt(hay[1..], needle);
      if Contains(hay[1..], needle) {
        var i :| OccursAt(hay[1..], needle, i);
        assert hay[i + 1..i + 1 + |needle|] == hay[1..][i..i + |needle|];
        assert OccursAt(hay, needle, i + 1);
      }
      if exists i :: OccursAt(hay, needle, i) {
        var i :| OccursAt(hay, needle, i);
        assert i != 0;
        assert hay[1..][i - 1..i - 1 + |needle|] == hay[i..i + |needle|];
        assert OccursAt(hay[1..], needle, i - 1);
      }
    } else {
      assert !StartsWith(hay, needle);
      assert forall i :: !OccursAt(hay, needle, i);
    }
  }

  // ---------------------------------------------------------------- integers

  predicate IsDigit(c: char) {
    '0' <= c <= '9'
  }

  predicate AllDigits(s: string) {
    forall i :: 0 <= i < |s| ==> IsDigit(s[i])
  }

  /** The value of a run of decimal digits, most significant first. */
  function DigitsValue(s: string): (r: nat)
    requires AllDigits(s)
  {
    if s == [] then 0 else 10 * DigitsValue(s[..|s| - 1]) + (s[|s| - 1] as int - '0' as int)
  }

  /**
   * `int(s)` restricted to an optional `+`/`-` followed by one or more ASCII
   * digits; anything else is the `ValueError` branch, here `None`.
   */
  function ParseInt(s: string): (r: Option<int>)
    ensures r.Some? <==>
      (|s| > 0 && (IsDigit(s[0]) || (|s| > 1 && (s[0] == '+' || s[0] == '-'))) && AllDigits(s[1..]))
    ensures r.Some? && r.value < 0 ==> s[0] == '-'
  {
    if |s| > 0 && (s[0] == '+' || s[0] == '-') then
      var body := s[1..];
      if body != [] && AllDigits(body) then
        var v: int := DigitsValue(body);
        Some(if s[0] == '-' then -v else v)
      else None
    else if s != [] && AllDigits(s) then
      assert AllDigits(s[1..]);
      Some(DigitsValue(s))
    else
      None
  }

  /** Decimal digits of `n` without leading zeros. */
  function FormatNat(n: nat): (r: string)
    ensures r != [] && AllDigits(r)
    ensures r[0] == '0' ==> n == 0 && r == "0"
    decreases n
  {
    var d := ['0' + (n % 10) as char];
    if n < 10 then d else FormatNat(n / 10) + d
  }

  /** Python's `str(n)` on an integer. */
  function FormatInt(n: int): (r: string)
    ensures r != []
    ensures n >= 0 <==> IsDigit(r[0])
    ensures r[0] == '0' ==> n == 0 && r == "0"
    ensures n < 0 ==> r[0] == '-' && |r| > 1 && r[1] != '0'
  {
    if n < 0 then "-" + FormatNat(-n) else FormatNat(n)
  }

  lemma {:induction false} FormatNatValue(n: nat)
    ensures DigitsValue(FormatNat(n)) == n
    decreases n
  {
    var d := ['0' + (n % 10) as char];
    if n >= 10 {
      FormatNatValue(n / 10);
      var s := FormatNat(n / 10) + d;
      assert s[..|s| - 1] == FormatNat(n / 10);
    }
  }

  /** `int(str(n)) == n`: every id the bot prints parses back to itself. */
  lemma ParseFormat(n: int)
    ensures ParseInt(FormatInt(n)) == Some(n)
  {
    if n < 0 {
      FormatNatValue(-n);
      assert FormatInt(n)[1..] == FormatNat(-n);
    } else {
      FormatNatValue(n);
    }
  }

  /** A leading zero does not change the value of a run of digits. */
  lemma {:induction false} DigitsValueLeadingZero(d: string)
    requires AllDigits(d)
    ensures AllDigits("0" + d) && DigitsValue("0" + d) == DigitsValue(d)
    decreases |d|
  {
    if d != [] {
      var s := "0" + d;
      assert s[..|s| - 1] == "0" + d[..|d| - 1];
      DigitsValueLeadingZero(d[..|d| - 1]);
    }
  }

  /**
   * `int` ignores a leading `+` and leading zeros, and a leading `-` negates:
   * `int("+5") == int("005") == 5` and `int("-5") == -5`.
   */
  lemma ParseNormalize(d: string)
    requires d != [] && AllDigits(d)
    ensures ParseInt("+" + d) == ParseInt(d)
    ensures ParseInt("0" + d) == ParseInt(d)
    ensures ParseInt("-" + d).Some? && ParseInt(d).Some? && ParseInt("-" + d).value == -ParseInt(d).value
  {
    assert ("+" + d)[1..] == d && ("-" + d)[1..] == d;
    DigitsValueLeadingZero(d);
  }

  /** Distinct integers print differently. */
  lemma FormatInjective(m: int, n: int)
    requires FormatInt(m) == FormatInt(n)
    ensures m == n
  {
    ParseFormat(m);
    ParseFormat(n);
  }

  // ---------------------------------------------------------------- joining

  /** Python's `" ".join(words)`: starts with the first word and ends with the last. */
  function JoinWords(words: seq<string>): (r: string)
    ensures words != [] ==> StartsWith(r, words[0])
    ensures words != [] ==> EndsWith(r, words[|words| - 1])
    ensures |words| == 1 ==> r == words[0]
  {
    if words == [] then ""
    else if |words| == 1 then words[0]
    else
      var rest := JoinWords(words[1..]);
      assert words[1..][|words[1..]| - 1] == words[|words| - 1];
      words[0] + " " + rest
  }

  /** Python's `s.split(" ")`: the pieces between single spaces, empty ones included. */
  function SplitSpaces(s: string): (r: seq<string>)
    ensures r != []
    decreases |s|
  {
    if s == [] then [""]
    else if s[0] == ' ' then [""] + SplitSpaces(s[1..])
    else
      var t := SplitSpaces(s[1..]);
      [[s[0]] + t[0]] + t[1..]
  }

  /** A word without spaces in front of `rest` joins the first piece of `rest`. */
  lemma {:induction false} SplitPrefix(w: string, rest: string)
    requires ' ' !in w
    ensures SplitSpaces(w + rest) == [w + SplitSpaces(rest)[0]] + SplitSpaces(rest)[1..]
    decreases |w|
  {
    var t := SplitSpaces(rest);
    if w == [] {
      assert w + rest == rest && w + t[0] == t[0];
      assert [t[0]] + t[1..] == t;
    } else {
      assert (w + rest)[1..] == w[1..] + rest;
      SplitPrefix(w[1..], rest);
      assert [w[0]] + (w[1..] + t[0]) == w + t[0];
    }
  }

  /**
   * Splitting the broadcast text at spaces gives back the arguments, in order,
   * when no argument holds a space (as command arguments never do).
   */
  lemma {:induction false} SplitJoin(words: seq<string>)
    requires words != []
    requires forall i :: 0 <= i < |words| ==> ' ' !in words[i]
    ensures SplitSpaces(JoinWords(words)) == words
    decreases |words|
  {
    var w := words[0];
    if |words| == 1 {
      SplitWord(w);
    } else {
      var tail := words[1..];
      var rest := JoinWords(tail);
      assert JoinWords(words) == w + (" " + rest);
      assert SplitSpaces(rest) == tail by {
        assert forall i :: 0 <= i < |tail| ==> tail[i] == words[i + 1];
        SplitJoin(tail);
      }
      assert SplitSpaces(" " + rest) == [""] + tail by {
        SplitSpacesCons(rest);
      }
      assert SplitSpaces(w + (" " + rest)) == [w] + tail by {
        SplitPrefix(w, " " + rest);
        assert w + "" == w;
      }
      assert [w] + tail == words;
    }
  }

  /** A word without spaces is one piece. */
  lemma SplitWord(w: string)
    requires ' ' !in w
    ensures SplitSpaces(w) == [w]
  {
    SplitPrefix(w, []);
    assert w + [] == w && w + "" == w;
  }

  /** A leading space gives an empty first piece. */
  lemma SplitSpacesCons(rest: string)
    ensures SplitSpaces(" " + rest) == [""] + SplitSpaces(rest)
  {
  }
}
