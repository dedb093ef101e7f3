/**
 * String helpers shared by the browser and the server models: whitespace
 * trimming (JavaScript `trim`, Python `strip`), substring search (`includes`,
 * Python `in`), ASCII lower-casing and decimal rendering of naturals.
 */
module Text {

  /** The whitespace characters removed by `trim`/`strip` in this model (the ASCII ones). */
  predicate IsSpace(c: char) {
    c == ' ' || c == '\t' || c == '\n' || c == '\r' || c == '\U{000B}' || c == '\U{000C}'
  }

  predicate AllSpace(s: string) {
    forall k :: 0 <= k < |s| ==> IsSpace(s[k])
  }

  /** `s` with its leading whitespace removed. */
  function TrimStart(s: string): (r: string)
    ensures |r| <= |s|
    ensures r == [] || !IsSpace(r[0])
    ensures forall k :: 0 <= k < |s| - |r| ==> IsSpace(s[k])
  {
    if s != [] && IsSpace(s[0]) then TrimStart(s[1..]) else s
  }

  /** `s` with its trailing whitespace removed. */
  function TrimEnd(s: string): (r: string)
    ensures |r| <= |s|
    ensures r == [] || !IsSpace(r[|r| - 1])
    ensures forall k :: |r| <= k < |s| ==> IsSpace(s[k])
  {
    if s != [] && IsSpace(s[|s| - 1]) then TrimEnd(s[..|s| - 1]) else s
  }

  /** What `TrimStart` keeps is a suffix of its input. */
  lemma {:induction false} TrimStartSuffix(s: string)
    ensures TrimStart(s) == s[|s| - |TrimStart(s)|..]
  {
    if s != [] && IsSpace(s[0]) {
      TrimStartSuffix(s[1..]);
      assert s[1..][|s| - 1 - |TrimStart(s)|..] == s[|s| - |TrimStart(s)|..];
    }
  }

  /** What `TrimEnd` keeps is a prefix of its input. */
  lemma {:induction false} TrimEndPrefix(s: string)
    ensures TrimEnd(s) == s[..|TrimEnd(s)|]
  {
    if s != [] && IsSpace(s[|s| - 1]) {
      TrimEndPrefix(s[..|s| - 1]);
    }
  }

  /** `s.trim()` / `s.strip()`: the longest infix of `s` that neither starts nor ends with whitespace. */
  function Trim(s: string): (r: string)
    ensures |r| <= |s|
    ensures r == [] || (!IsSpace(r[0]) && !IsSpace(r[|r| - 1]))
    ensures r == [] <==> AllSpace(s)
  {
    TrimStartSuffix(s);
    TrimEndPrefix(TrimStart(s));
    TrimEnd(TrimStart(s))
  }

  /**
   * `Trim(s)` is the part of `s` between a leading and a trailing run of
   * whitespace: nothing but whitespace is removed, and the order is kept.
   */
  lemma TrimInfix(s: string)
    ensures var start := |s| - |TrimStart(s)|;
            && start + |Trim(s)| <= |s|
            && Trim(s) == s[start..start + |Trim(s)|]
            && AllSpace(s[..start])
            && AllSpace(s[start + |Trim(s)|..])
  {
    TrimStartSuffix(s);
    TrimEndPrefix(TrimStart(s));
    CutBothEnds(s, TrimStart(s), Trim(s));
  }

  /**
   * Cutting a white-space prefix off `s` (leaving `t`) and then a
   * white-space suffix off `t` (leaving `r`) leaves an infix of `s`.
   */
  lemma CutBothEnds(s: string, t: string, r: string)
    requires |r| <= |t| <= |s|
    requires t == s[|s| - |t|..] && r == t[..|r|]
    requires forall k :: 0 <= k < |s| - |t| ==> IsSpace(s[k])
    requires forall k :: |r| <= k < |t| ==> IsSpace(t[k])
    ensures var start := |s| - |t|;
            && r == s[start..start + |r|]
            && AllSpace(s[..start])
            && AllSpace(s[start + |r|..])
  {
  }

  /** Trimming twice is trimming once. */
  lemma TrimIdempotent(s: string)
    ensures Trim(Trim(s)) == Trim(s)
  {
    var r := Trim(s);
    if r != [] {
      assert TrimStart(r) == r;
      assert TrimEnd(r) == r;
    }
  }

  /** `w` occurs in `s` starting at index `i`. */
  predicate OccursAt(s: string, w: string, i: int) {
    0 <= i && i + |w| <= |s| && s[i..i + |w|] == w
  }

  /** `s.includes(w)` / Python `w in s`. */
  function Contains(s: string, w: string): (r: bool)
    ensures r <==> exists i :: OccursAt(s, w, i)
  {
    if |w| > |s| then
      false
    else if s[..|w|] == w then
      assert OccursAt(s, w, 0);
      true
    else
      var r := Contains(s[1..], w);
      assert r ==> exists i :: OccursAt(s, w, i) by {
        if r {
          var i :| OccursAt(s[1..], w, i);
          assert s[i + 1..i + 1 + |w|] == s[1..][i..i + |w|];
          assert OccursAt(s, w, i + 1);
        }
      }
      assert (exists i :: OccursAt(s, w, i)) ==> r by {
        if exists i :: OccursAt(s, w, i) {
          var i :| OccursAt(s, w, i);
          assert i != 0;
          assert s[1..][i - 1..i - 1 + |w|] == s[i..i + |w|];
          assert OccursAt(s[1..], w, i - 1);
        }
      }
      r
  }

  /** A word is found in a concatenation only inside one part or across the seam. */
  lemma ContainsConcat(a: string, b: string, w: string)
    requires Contains(a + b, w)
    ensures Contains(a, w) || Contains(b, w) ||
            exists i :: 0 <= i < |a| < i + |w| && OccursAt(a + b, w, i)
  {
    var i :| OccursAt(a + b, w, i);
    if i + |w| <= |a| {
      assert (a + b)[i..i + |w|] == a[i..i + |w|];
      assert OccursAt(a, w, i);
    } else if i >= |a| {
      assert (a + b)[i..i + |w|] == b[i - |a|..i - |a| + |w|];
      assert OccursAt(b, w, i - |a|);
    }
  }

  /** Every character of a word found in `s` is a character of `s`. */
  lemma OccurrenceChars(s: string, w: string, c: char)
    requires Contains(s, w) && c in w
    ensures c in s
  {
    var i :| OccursAt(s, w, i);
    var j :| 0 <= j < |w| && w[j] == c;
    assert s[i + j] == s[i..i + |w|][j];
  }

  /** A word holding a character that `s` lacks does not occur in `s`. */
  lemma AbsentCharExcludes(s: string, w: string, c: char)
    requires c in w && c !in s
    ensures !Contains(s, w)
  {
    if Contains(s, w) {
      OccurrenceChars(s, w, c);
    }
  }

  /** ASCII lower-casing of one character. */
  function LowerChar(c: char): char {
    if 'A' <= c <= 'Z' then (c as int - 'A' as int + 'a' as int) as char else c
  }

  /** Python `s.lower()` restricted to ASCII letters. */
  function Lower(s: string): (r: string)
    ensures |r| == |s|
    ensures forall k :: 0 <= k < |s| ==> r[k] == LowerChar(s[k])
  {
    seq(|s|, k requires 0 <= k < |s| => LowerChar(s[k]))
  }

  /** Lower-casing keeps every occurrence of a word that is already lower case. */
  lemma LowerKeepsOccurrence(s: string, w: string)
    requires forall k :: 0 <= k < |w| ==> !('A' <= w[k] <= 'Z')
    requires Contains(s, w)
    ensures Contains(Lower(s), w)
  {
    var i :| OccursAt(s, w, i);
    assert Lower(s)[i..i + |w|] == w by {
      forall k | 0 <= k < |w|
        ensures Lower(s)[i..i + |w|][k] == w[k]
      {
        assert s[i..i + |w|][k] == w[k];
      }
    }
    assert OccursAt(Lower(s), w, i);
  }

  /** Lower-casing is idempotent, so a lower-cased message is its own normal form. */
  lemma LowerIdempotent(s: string)
    ensures Lower(Lower(s)) == Lower(s)
  {
  }

  /** A character outside the Basic Multilingual Plane, which UTF-16 stores as a surrogate pair. */
  predicate Astral(c: char) {
    c as int >= 0x1_0000
  }

  predicate Bmp(s: string) {
    forall k :: 0 <= k < |s| ==> !Astral(s[k])
  }

  /**
   * JavaScript's `s.length`: the number of UTF-16 code units, two for each
   * astral character. Python's `len(s)` counts code points, `|s|`.
   */
  function JsLength(s: string): (n: nat)
    ensures |s| <= n <= 2 * |s|
    ensures n == |s| <==> Bmp(s)
  {
    if s == [] then 0
    else
      assert forall k :: 1 <= k < |s| ==> s[k] == s[1..][k - 1];
      (if Astral(s[0]) then 2 else 1) + JsLength(s[1..])
  }

  predicate IsDigit(c: char) {
    '0' <= c <= '9'
  }

  function DigitChar(d: nat): (c: char)
    requires d < 10
    ensures IsDigit(c)
  {
    ('0' as int + d) as char
  }

  /** The decimal rendering JavaScript's template literals and Python's f-strings give a natural. */
  function NatToString(n: nat): (r: string)
    ensures r != []
    ensures forall k :: 0 <= k < |r| ==> IsDigit(r[k])
    ensures r[0] == '0' ==> n == 0
  {
    if n < 10 then [DigitChar(n)] else NatToString(n / 10) + [DigitChar(n % 10)]
  }

  function DigitValue(c: char): nat
    requires IsDigit(c)
  {
    c as int - '0' as int
  }

  /** The natural denoted by a string of decimal digits. */
  function DecimalValue(s: string): nat
    requires forall k :: 0 <= k < |s| ==> IsDigit(s[k])
  {
    if s == [] then 0 else 10 * DecimalValue(s[..|s| - 1]) + DigitValue(s[|s| - 1])
  }

  /** Reading back a rendered natural gives the natural. */
  lemma {:induction false} DecimalRoundTrip(n: nat)
    ensures DecimalValue(NatToString(n)) == n
  {
    if n >= 10 {
      var r := NatToString(n);
      assert r[..|r| - 1] == NatToString(n / 10);
      DecimalRoundTrip(n / 10);
    }
  }
}
