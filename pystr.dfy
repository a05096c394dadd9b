/**
  The three Python string built-ins the server's dispatch relies on:
  `str.split()` with no separator, `str.replace(old, new)` and the slice `s[:-1]`.
 */
module PyStr {

  /** `c.isspace()`: the characters `str.split()` treats as separators. */
  predicate IsSpace(c: char): (b: bool)
    // letters, digits, `_`, `.`, `-` and `+`, which make up the protocol's tags and printed numbers, never separate
    ensures b ==> !('a' <= c <= 'z' || 'A' <= c <= 'Z' || '0' <= c <= '9' || c in "_.-+")
  {
    || c == ' '
    || '\t' <= c <= '\r'
    || '\U{1C}' <= c <= '\U{1F}'
    || c == '\U{85}' || c == '\U{A0}' || c == '\U{1680}'
    || '\U{2000}' <= c <= '\U{200A}'
    || c == '\U{2028}' || c == '\U{2029}' || c == '\U{202F}' || c == '\U{205F}' || c == '\U{3000}'
  }

  /** A word `str.split()` can return: non-empty and free of separators. */
  predicate IsWord(s: string) {
    |s| > 0 && forall i :: 0 <= i < |s| ==> !IsSpace(s[i])
  }

  /** Length of the longest separator-free prefix of `s`. */
  function WordLength(s: string): (n: nat)
    ensures n <= |s|
    ensures forall i :: 0 <= i < n ==> !IsSpace(s[i])
    ensures n < |s| ==> IsSpace(s[n])
  {
    if s == [] || IsSpace(s[0]) then 0 else 1 + WordLength(s[1..])
  }

  /** `s.split()`: the maximal runs of non-separators, in order. */
  function Split(s: string): (r: seq<string>)
    ensures forall i :: 0 <= i < |r| ==> IsWord(r[i])
    decreases |s|
  {
    if s == [] then []
    else if IsSpace(s[0]) then Split(s[1..])
    else
      var n := WordLength(s);
      [s[..n]] + Split(s[n..])
  }

  lemma {:induction false} WordLengthOfWord(a: string, rest: string)
    requires IsWord(a)
    requires rest == [] || IsSpace(rest[0])
    ensures WordLength(a + rest) == |a|
  {
    if |a| == 1 {
      assert (a + rest)[1..] == rest;
    } else {
      assert (a + rest)[1..] == a[1..] + rest;
      WordLengthOfWord(a[1..], rest);
    }
  }

  /** A word followed by a separator (or by nothing) is split off whole. */
  lemma SplitLeadingWord(a: string, rest: string)
    requires IsWord(a)
    requires rest == [] || IsSpace(rest[0])
    ensures Split(a + rest) == [a] + Split(rest)
  {
    var s := a + rest;
    WordLengthOfWord(a, rest);
    assert s[..|a|] == a;
    assert s[|a|..] == rest;
  }

  /** A word and a blank are split off whatever follows. */
  lemma SplitAfterBlank(a: string, rest: string)
    requires IsWord(a)
    ensures Split(a + " " + rest) == [a] + Split(rest)
  {
    assert a + " " + rest == a + (" " + rest);
    SplitLeadingWord(a, " " + rest);
    assert (" " + rest)[1..] == rest;
  }

  /** `" ".join(ws)`: the words separated by single blanks. */
  function JoinBlank(ws: seq<string>): (s: string)
    decreases |ws|
  {
    if ws == [] then ""
    else if |ws| == 1 then ws[0]
    else ws[0] + " " + JoinBlank(ws[1..])
  }

  /** Words joined by blanks split back into exactly those words: `" ".join(ws).split() == ws`. */
  lemma {:induction false} SplitJoinBlank(ws: seq<string>)
    requires forall i :: 0 <= i < |ws| ==> IsWord(ws[i])
    ensures Split(JoinBlank(ws)) == ws
    decreases |ws|
  {
    if |ws| == 1 {
      SplitLeadingWord(ws[0], []);
      assert ws[0] + [] == ws[0];
    } else if |ws| > 1 {
      assert IsWord(ws[0]);
      SplitAfterBlank(ws[0], JoinBlank(ws[1..]));
      assert forall i :: 0 <= i < |ws[1..]| ==> ws[1..][i] == ws[i + 1];
      SplitJoinBlank(ws[1..]);
      assert [ws[0]] + ws[1..] == ws;
    }
  }

  /** `(a + " " + b).split() == [a, b]` for words `a` and `b`. */
  lemma SplitTwoWords(a: string, b: string)
    requires IsWord(a) && IsWord(b)
    ensures Split(a + " " + b) == [a, b]
  {
    assert [a, b][1..] == [b];
    SplitJoinBlank([a, b]);
  }

  /** `(a + " " + b + " " + c).split() == [a, b, c]` for words `a`, `b` and `c`. */
  lemma SplitThreeWords(a: string, b: string, c: string)
    requires IsWord(a) && IsWord(b) && IsWord(c)
    ensures Split(a + " " + b + " " + c) == [a, b, c]
  {
    var ws := [a, b, c];
    assert ws[1..] == [b, c];
    SplitTwoWords(b, c);
    assert JoinBlank(ws[1..]) == b + " " + c;
    assert JoinBlank(ws) == a + " " + (b + " " + c);
    assert a + " " + b + " " + c == a + " " + (b + " " + c);
    SplitJoinBlank(ws);
  }

  /** Does `pat` occur in `s` at some position? */
  predicate Occurs(s: string, pat: string) {
    exists i :: 0 <= i <= |s| && pat <= s[i..]
  }

  /** `s.replace(pat, repl)`: every non-overlapping occurrence of `pat`, scanning left to right, becomes `repl`. */
  function ReplaceAll(s: string, pat: string, repl: string): (r: string)
    requires pat != []
    ensures repl == [] ==> |r| <= |s|
    decreases |s|
  {
    if s == [] then []
    else if pat <= s then repl + ReplaceAll(s[|pat|..], pat, repl)
    else [s[0]] + ReplaceAll(s[1..], pat, repl)
  }

  /** Where `pat` does not occur, `replace` leaves the string as it is. */
  lemma {:induction false} ReplaceAllNoMatch(s: string, pat: string, repl: string)
    requires pat != []
    requires !Occurs(s, pat)
    ensures ReplaceAll(s, pat, repl) == s
  {
    if s != [] {
      assert s[0..] == s;
      forall j | 0 <= j <= |s[1..]|
        ensures !(pat <= s[1..][j..])
      {
        assert s[1..][j..] == s[j + 1..];
      }
      ReplaceAllNoMatch(s[1..], pat, repl);
    }
  }

  /** An occurrence at the very front is removed, and the scan resumes right after it. */
  lemma ReplaceAllLeading(pat: string, s: string)
    requires pat != []
    requires !Occurs(s, pat)
    ensures ReplaceAll(pat + s, pat, []) == s
  {
    assert (pat + s)[|pat|..] == s;
    ReplaceAllNoMatch(s, pat, []);
  }

  /** `s[:-1]`: the string without its last character; the empty string stays empty. */
  function DropLast(s: string): (r: string)
    ensures s != [] ==> r + [s[|s| - 1]] == s
    ensures s == [] ==> r == []
  {
    if s == [] then [] else s[..|s| - 1]
  }
}
