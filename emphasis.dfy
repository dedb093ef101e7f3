/**
 * The inline-emphasis rewrite `appendMessage` applies to a chat message's
 * text in static/js/app.js: three global regular-expression replacements,
 * `**x**` to `<strong>x</strong>`, then `*x*` to `<em>x</em>`, then every
 * newline to `<br>`. The regex `(.*?)` is lazy and its `.` does not cross a
 * line terminator; a failed match at one position retries one character on.
 */
module Emphasis {
  import opened Wrappers

  /** The characters the regex `.` does not match. */
  predicate IsLineTerminator(c: char) {
    c == '\n' || c == '\r' || c == '\U{2028}' || c == '\U{2029}'
  }

  predicate NoLineTerminator(s: string) {
    forall k :: 0 <= k < |s| ==> !IsLineTerminator(s[k])
  }

  /** `d` occurs in `s` at index `i`. */
  predicate StartsAt(s: string, i: nat, d: string) {
    i + |d| <= |s| && s[i..i + |d|] == d
  }

  /**
   * Where the lazy `(.*?)` that starts at `from` stops: the first index at
   * which the closing delimiter starts, provided no line terminator comes
   * before it.
   */
  function FindClose(s: string, from: nat, delim: string): (r: Option<nat>)
    requires from <= |s|
    ensures r.Some? ==> from <= r.value && StartsAt(s, r.value, delim)
                        && NoLineTerminator(s[from..r.value])
                        && forall j :: from <= j < r.value ==> !StartsAt(s, j, delim)
    ensures r.None? ==> forall j :: from <= j <= |s| && NoLineTerminator(s[from..j]) ==> !StartsAt(s, j, delim)
    decreases |s| - from
  {
    if StartsAt(s, from, delim) then
      Some(from)
    else if from == |s| || IsLineTerminator(s[from]) then
      assert forall j :: from < j <= |s| ==> s[from..j][0] == s[from];
      None
    else
      var r := FindClose(s, from + 1, delim);
      assert forall j :: from + 1 <= j <= |s| ==> s[from..j] == [s[from]] + s[from + 1..j];
      r
  }

  /** `s[i..].replace(/D(.*?)D/g, open + '$1' + close)` for the delimiter `D`. */
  function ReplacePairs(s: string, i: nat, delim: string, open: string, close: string): string
    requires delim != [] && i <= |s|
    decreases |s| - i
  {
    if i == |s| then
      []
    else if StartsAt(s, i, delim) then
      match FindClose(s, i + |delim|, delim)
      case Some(j) => open + s[i + |delim|..j] + close + ReplacePairs(s, j + |delim|, delim, open, close)
      case None => [s[i]] + ReplacePairs(s, i + 1, delim, open, close)
    else
      [s[i]] + ReplacePairs(s, i + 1, delim, open, close)
  }

  /** `s.replace(/\n/g, '<br>')`. */
  function ReplaceNewlines(s: string): (r: string)
    ensures '\n' !in r
    ensures '\n' !in s ==> r == s
  {
    if s == [] then []
    else (if s[0] == '\n' then "<br>" else [s[0]]) + ReplaceNewlines(s[1..])
  }

  /** The text `appendMessage` puts in a message bubble. */
  function Format(text: string): string {
    var bold := ReplacePairs(text, 0, "**", "<strong>", "</strong>");
    var italic := ReplacePairs(bold, 0, "*", "<em>", "</em>");
    ReplaceNewlines(italic)
  }

  /** Where no delimiter starts at or after `i`, a pair replacement copies the text. */
  lemma {:induction false} ReplacePairsIdentity(s: string, i: nat, delim: string, open: string, close: string)
    requires delim != [] && i <= |s|
    requires forall j :: i <= j < |s| ==> !StartsAt(s, j, delim)
    ensures ReplacePairs(s, i, delim, open, close) == s[i..]
    decreases |s| - i
  {
    if i < |s| {
      assert s[i..] == [s[i]] + s[i + 1..];
      ReplacePairsIdentity(s, i + 1, delim, open, close);
    }
  }

  /** A text without the delimiter's first character holds no delimiter. */
  lemma LacksDelimiter(s: string, delim: string)
    requires delim != [] && delim[0] !in s
    ensures forall j :: 0 <= j < |s| ==> !StartsAt(s, j, delim)
  {
    forall j | 0 <= j < |s|
      ensures !StartsAt(s, j, delim)
    {
      if j + |delim| <= |s| {
        assert s[j..j + |delim|][0] == s[j];
      }
    }
  }

  /** Text without `*` and without a newline is shown exactly as written. */
  lemma PlainTextUnchanged(text: string)
    requires '*' !in text && '\n' !in text
    ensures Format(text) == text
  {
    assert text[0..] == text;
    LacksDelimiter(text, "**");
    ReplacePairsIdentity(text, 0, "**", "<strong>", "</strong>");
    LacksDelimiter(text, "*");
    ReplacePairsIdentity(text, 0, "*", "<em>", "</em>");
  }

  /** Every newline of the text becomes a line break: none survives in the bubble. */
  lemma NoNewlineSurvives(text: string)
    ensures '\n' !in Format(text)
  {
  }

  /** The bold pass turns a single-line `**a**` with no `*` inside into `<strong>a</strong>`. */
  lemma BoldPass(a: string)
    requires '*' !in a && NoLineTerminator(a)
    ensures ReplacePairs("**" + a + "**", 0, "**", "<strong>", "</strong>") == "<strong>" + a + "</strong>"
  {
    var s := "**" + a + "**";
    var n := |a| + 2;
    assert StartsAt(s, 0, "**");
    assert s[2..n] == a;
    assert FindClose(s, 2, "**") == Some(n) by {
      ClosingAtEnd(a, "**");
    }
    assert ReplacePairs(s, n + 2, "**", "<strong>", "</strong>") == [];
  }

  /** Text with no `*` and no line feed passes the italic and line-break passes unchanged. */
  lemma LaterPassesKeep(b: string)
    requires '*' !in b && '\n' !in b
    ensures ReplaceNewlines(ReplacePairs(b, 0, "*", "<em>", "</em>")) == b
  {
    assert b[0..] == b;
    LacksDelimiter(b, "*");
    ReplacePairsIdentity(b, 0, "*", "<em>", "</em>");
  }

  /** A single-line `**a**` with no `*` inside is shown as `<strong>a</strong>`. */
  lemma BoldPair(a: string)
    requires '*' !in a && NoLineTerminator(a)
    ensures Format("**" + a + "**") == "<strong>" + a + "</strong>"
  {
    BoldPass(a);
    var b := "<strong>" + a + "</strong>";
    assert '\n' !in a by {
      forall k | 0 <= k < |a| ensures a[k] != '\n' { assert !IsLineTerminator(a[k]); }
    }
    assert '*' !in b && '\n' !in b;
    LaterPassesKeep(b);
  }

  /** A single-line `*a*` with no `*` inside is shown as `<em>a</em>`. */
  lemma ItalicPair(a: string)
    requires '*' !in a && NoLineTerminator(a)
    ensures Format("*" + a + "*") == "<em>" + a + "</em>"
  {
    var s := "*" + a + "*";
    var n := |a| + 1;
    // The bold pass leaves `*a*` alone: `**` occurs in it only when `a` is empty.
    if a == [] {
      assert s == "**";
      assert FindClose(s, 2, "**") == None;
      assert ReplacePairs(s, 1, "**", "<strong>", "</strong>") == "*";
    } else {
      forall j | 0 <= j < |s| ensures !StartsAt(s, j, "**") {
        if 0 < j < n {
          assert s[j] == a[j - 1];
          assert s[j..j + 2][0] == s[j];
        } else if j == 0 {
          assert s[1] == a[0];
          assert s[0..2][1] == s[1];
        }
      }
      ReplacePairsIdentity(s, 0, "**", "<strong>", "</strong>");
    }
    assert ReplacePairs(s, 0, "**", "<strong>", "</strong>") == s;
    assert StartsAt(s, 0, "*");
    assert s[1..n] == a;
    ClosingAtEnd(a, "*");
    assert ReplacePairs(s, n + 1, "*", "<em>", "</em>") == [];
    assert ReplacePairs(s, 0, "*", "<em>", "</em>") == "<em>" + a + "</em>";
    assert '\n' !in a by {
      forall k | 0 <= k < |a| ensures a[k] != '\n' { assert !IsLineTerminator(a[k]); }
    }
  }

  /** The closing delimiter right after a delimiter-free, single-line `a` is found at its end. */
  lemma ClosingAtEnd(a: string, delim: string)
    requires delim != [] && delim[0] !in a && NoLineTerminator(a)
    ensures FindClose(delim + a + delim, |delim|, delim) == Some(|delim| + |a|)
  {
    var s := delim + a + delim;
    assert s[|delim| + |a|..] == delim;
    forall j | |delim| <= j < |delim| + |a|
      ensures !StartsAt(s, j, delim)
    {
      assert s[j] == a[j - |delim|];
    }
    assert NoLineTerminator(s[|delim|..|delim| + |a|]) by {
      assert s[|delim|..|delim| + |a|] == a;
    }
    assert StartsAt(s, |delim| + |a|, delim);
  }
}
