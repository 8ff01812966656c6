/**
  String primitives of the Python and JavaScript runtimes that the modelled
  code leans on: whitespace classes, `strip`, `split`, prefix/suffix tests,
  ASCII case folding and decimal digit runs. Text is a sequence of Unicode
  scalar values (Dafny `char`), which is what a Python `str` holds for every
  string that can be encoded to UTF-8.
*/
module PyStr {
  import opened Util

  /** Characters for which Python's `str.isspace()` holds; these are what
      `strip()`, `split()` and the regex class `\s` treat as whitespace. */
  predicate IsPySpace(c: char) {
    || ('\U{0009}' <= c <= '\U{000D}')
    || ('\U{001C}' <= c <= '\U{001F}')
    || c == ' ' || c == '\U{0085}' || c == '\U{00A0}' || c == '\U{1680}'
    || ('\U{2000}' <= c <= '\U{200A}')
    || c == '\U{2028}' || c == '\U{2029}' || c == '\U{202F}' || c == '\U{205F}'
    || c == '\U{3000}'
  }

  /** Characters JavaScript's `String.prototype.trim` removes
      (WhiteSpace and LineTerminator of ECMA-262). */
  predicate IsJsSpace(c: char) {
    || ('\U{0009}' <= c <= '\U{000D}')
    || c == ' ' || c == '\U{00A0}' || c == '\U{1680}'
    || ('\U{2000}' <= c <= '\U{200A}')
    || c == '\U{2028}' || c == '\U{2029}' || c == '\U{202F}' || c == '\U{205F}'
    || c == '\U{3000}' || c == '\U{FEFF}'
  }

  predicate AllPySpace(s: string) {
    forall i :: 0 <= i < |s| ==> IsPySpace(s[i])
  }

  predicate AllJsSpace(s: string) {
    forall i :: 0 <= i < |s| ==> IsJsSpace(s[i])
  }

  predicate StartsWith(s: string, prefix: string) {
    |prefix| <= |s| && s[..|prefix|] == prefix
  }

  predicate EndsWith(s: string, suffix: string) {
    |suffix| <= |s| && s[|s| - |suffix|..] == suffix
  }

  /** The length of the whitespace run `s` starts with. */
  function LeadingSpaces(s: string): (n: nat)
    ensures n <= |s|
    ensures forall k :: 0 <= k < n ==> IsPySpace(s[k])
    ensures n == |s| || !IsPySpace(s[n])
  {
    if s == [] || !IsPySpace(s[0]) then 0
    else
      var n := LeadingSpaces(s[1..]);
      assert forall k :: 1 <= k < n + 1 ==> s[k] == s[1..][k - 1];
      1 + n
  }

  /** Python `s.lstrip()`: drops the leading whitespace. */
  function StripLeft(s: string): (r: string)
    ensures |r| <= |s| && r == s[|s| - |r|..]
    ensures AllPySpace(s[..|s| - |r|])
    ensures r == [] || !IsPySpace(r[0])
  {
    var n := LeadingSpaces(s);
    assert forall k :: 0 <= k < n ==> s[..n][k] == s[k];
    s[n..]
  }

  /** Python `s.rstrip()`: drops the trailing whitespace. */
  function StripRight(s: string): (r: string)
    ensures |r| <= |s| && r == s[..|r|]
    ensures AllPySpace(s[|r|..])
    ensures r == [] || !IsPySpace(r[|r| - 1])
  {
    if s == [] || !IsPySpace(s[|s| - 1]) then s
    else
      var r := StripRight(s[..|s| - 1]);
      assert s[|r|..] == s[..|s| - 1][|r|..] + [s[|s| - 1]];
      r
  }

  /** `r` is `s` with the whitespace run of length `i` cut off in front and
      the rest of what follows `r` all whitespace. */
  predicate StrippedAt(s: string, i: int, r: string) {
    && 0 <= i <= |s| - |r|
    && r == s[i..i + |r|]
    && AllPySpace(s[..i])
    && AllPySpace(s[i + |r|..])
  }

  /** Python `s.strip()`: the result is a slice of `s` with no whitespace at
      either end, and everything cut off on either side is whitespace. */
  function Strip(s: string): (r: string)
    ensures exists i :: StrippedAt(s, i, r)
    ensures r == [] || (!IsPySpace(r[0]) && !IsPySpace(r[|r| - 1]))
  {
    var left := StripLeft(s);
    var r := StripRight(left);
    StripBoth(s, left, r);
    r
  }

  /** Cutting whitespace off the front and then off the back leaves a slice
      with only whitespace around it. */
  lemma StripBoth(s: string, left: string, r: string)
    requires |left| <= |s| && left == s[|s| - |left|..] && AllPySpace(s[..|s| - |left|])
    requires |r| <= |left| && r == left[..|r|] && AllPySpace(left[|r|..])
    ensures StrippedAt(s, |s| - |left|, r)
  {
    var i := |s| - |left|;
    assert r == s[i..i + |r|];
    assert s[i + |r|..] == left[|r|..];
  }

  /** `sub` occurs in `s` starting at index `i`. */
  predicate OccursAt(s: string, sub: string, i: int) {
    0 <= i && i + |sub| <= |s| && s[i..i + |sub|] == sub
  }

  /** Python `sub in s` for strings: `sub` occurs as a contiguous slice. */
  function Contains(s: string, sub: string): (r: bool)
    ensures r <==> exists i :: OccursAt(s, sub, i)
    decreases |s|
  {
    if StartsWith(s, sub) then
      assert OccursAt(s, sub, 0);
      true
    else if s == [] then
      assert forall i :: OccursAt(s, sub, i) ==> i == 0;
      false
    else
      var r := Contains(s[1..], sub);
      assert forall i :: OccursAt(s, sub, i) && i >= 1 ==> OccursAt(s[1..], sub, i - 1) by {
        forall i | OccursAt(s, sub, i) && i >= 1 ensures OccursAt(s[1..], sub, i - 1) {
          assert s[i..i + |sub|] == s[1..][i - 1..i - 1 + |sub|];
        }
      }
      assert !OccursAt(s, sub, 0);
      if r then
        var j :| OccursAt(s[1..], sub, j);
        assert s[j + 1..j + 1 + |sub|] == s[1..][j..j + |sub|];
        assert OccursAt(s, sub, j + 1);
        r
      else r
  }

  /** JavaScript `s.trim() !== ''`, i.e. the text holds a non-blank character. */
  predicate JsTrimNonEmpty(s: string) {
    !AllJsSpace(s)
  }

  function CountChar(s: string, c: char): nat {
    if s == [] then 0 else (if s[0] == c then 1 else 0) + CountChar(s[1..], c)
  }

  /** `sep.join(parts)` for a one-character separator. */
  function Join(parts: seq<string>, sep: char): string
    requires |parts| >= 1
  {
    if |parts| == 1 then parts[0] else parts[0] + [sep] + Join(parts[1..], sep)
  }

  /** Python `s.split(sep)` for a one-character separator: the pieces between
      separators, empty ones included. */
  function SplitOn(s: string, sep: char): (r: seq<string>)
    ensures |r| == CountChar(s, sep) + 1
    ensures Join(r, sep) == s
    ensures forall k :: 0 <= k < |r| ==> sep !in r[k]
  {
    if s == [] then [""]
    else
      var rest := SplitOn(s[1..], sep);
      if s[0] == sep then [""] + rest
      else
        var r := [[s[0]] + rest[0]] + rest[1..];
        assert r[1..] == rest[1..];
        assert s == [s[0]] + s[1..];
        r
  }

  /** The longest prefix of `s` holding no whitespace. */
  function TakeWord(s: string): (w: string)
    ensures |w| <= |s| && w == s[..|w|]
    ensures forall i :: 0 <= i < |w| ==> !IsPySpace(w[i])
    ensures |w| == |s| || IsPySpace(s[|w|])
  {
    if s == [] || IsPySpace(s[0]) then []
    else [s[0]] + TakeWord(s[1..])
  }

  /** Python `s.split()` with no argument: the maximal runs of non-whitespace. */
  function Words(s: string): (r: seq<string>)
    ensures forall k :: 0 <= k < |r| ==> r[k] != []
    ensures forall k, i :: 0 <= k < |r| && 0 <= i < |r[k]| ==> !IsPySpace(r[k][i]) && r[k][i] in s
    decreases |s|
  {
    if s == [] then []
    else if IsPySpace(s[0]) then
      var r := Words(s[1..]);
      assert forall c :: c in s[1..] ==> c in s;
      r
    else
      var w := TakeWord(s);
      var rest := Words(s[|w|..]);
      assert forall c :: c in s[|w|..] ==> c in s;
      assert forall i :: 0 <= i < |w| ==> w[i] in s;
      var r := [w] + rest;
      assert forall k :: 1 <= k < |r| ==> r[k] == rest[k - 1];
      r
  }

  /** No character of `w` is whitespace. */
  predicate NoPySpace(w: string) {
    forall i :: 0 <= i < |w| ==> !IsPySpace(w[i])
  }

  /** The text `seps[0] + ws[0] + seps[1] + ... + ws[n - 1] + seps[n]`. */
  function Interleave(seps: seq<string>, ws: seq<string>): string
    requires |seps| == |ws| + 1
  {
    if ws == [] then seps[0] else seps[0] + ws[0] + Interleave(seps[1..], ws[1..])
  }

  /** `ws` are the words of `s` and `seps` the whitespace around them: every
      word is non-empty and free of whitespace, every gap is whitespace, a
      gap between two words is not empty, and gaps and words in turn make up
      `s`. */
  predicate SplitBy(s: string, ws: seq<string>, seps: seq<string>) {
    && |seps| == |ws| + 1
    && (forall k :: 0 <= k < |ws| ==> ws[k] != [] && NoPySpace(ws[k]))
    && (forall k :: 0 <= k < |seps| ==> AllPySpace(seps[k]))
    && (forall k :: 0 < k < |ws| ==> seps[k] != [])
    && s == Interleave(seps, ws)
  }

  /** The whitespace before, between and after the words of `s`. */
  function Gaps(s: string): (g: seq<string>)
    ensures |g| == |Words(s)| + 1
    ensures s != [] && IsPySpace(s[0]) ==> g[0] != []
    decreases |s|
  {
    if s == [] then [""]
    else if IsPySpace(s[0]) then
      var g := Gaps(s[1..]);
      [[s[0]] + g[0]] + g[1..]
    else [""] + Gaps(s[|TakeWord(s)|..])
  }

  /** `split()` returns the maximal whitespace-free runs of `s`, in order:
      with the gaps around them they make up `s`. */
  lemma {:induction false} WordsSplit(s: string)
    ensures SplitBy(s, Words(s), Gaps(s))
    decreases |s|
  {
    if s == [] {
    } else if IsPySpace(s[0]) {
      WordsSplit(s[1..]);
      SplitAfterSpace(s);
    } else {
      WordsSplit(s[|TakeWord(s)|..]);
      SplitAfterWord(s);
    }
  }

  /** A leading whitespace character joins the first gap. */
  lemma SplitAfterSpace(s: string)
    requires s != [] && IsPySpace(s[0])
    requires SplitBy(s[1..], Words(s[1..]), Gaps(s[1..]))
    ensures SplitBy(s, Words(s), Gaps(s))
  {
    var g := Gaps(s[1..]);
    assert Words(s) == Words(s[1..]);
    assert Gaps(s) == [[s[0]] + g[0]] + g[1..];
    SplitConsSpace(s[0], s[1..], Words(s[1..]), g);
    assert s == [s[0]] + s[1..];
  }

  /** A leading word is the first word, with an empty first gap. */
  lemma SplitAfterWord(s: string)
    requires s != [] && !IsPySpace(s[0])
    requires SplitBy(s[|TakeWord(s)|..], Words(s[|TakeWord(s)|..]), Gaps(s[|TakeWord(s)|..]))
    ensures SplitBy(s, Words(s), Gaps(s))
  {
    var w := TakeWord(s);
    var rest := s[|w|..];
    WordStart(s);
    SplitConsWord(w, rest, Words(rest), Gaps(rest));
  }

  /** How `split()` and the gaps unfold on a text starting with a word. */
  lemma WordStart(s: string)
    requires s != [] && !IsPySpace(s[0])
    ensures TakeWord(s) != [] && s == TakeWord(s) + s[|TakeWord(s)|..]
    ensures Words(s) == [TakeWord(s)] + Words(s[|TakeWord(s)|..])
    ensures Gaps(s) == [""] + Gaps(s[|TakeWord(s)|..])
    ensures Words(s[|TakeWord(s)|..]) != [] ==> Gaps(s[|TakeWord(s)|..])[0] != []
  {
    WordStartWords(s);
    WordStartGaps(s);
    WordStartRest(s);
  }

  lemma WordStartWords(s: string)
    requires s != [] && !IsPySpace(s[0])
    ensures Words(s) == [TakeWord(s)] + Words(s[|TakeWord(s)|..])
  {
  }

  lemma WordStartGaps(s: string)
    requires s != [] && !IsPySpace(s[0])
    ensures Gaps(s) == [""] + Gaps(s[|TakeWord(s)|..])
  {
  }

  lemma WordStartRest(s: string)
    requires s != [] && !IsPySpace(s[0])
    ensures TakeWord(s) != [] && s == TakeWord(s) + s[|TakeWord(s)|..]
    ensures Words(s[|TakeWord(s)|..]) != [] ==> Gaps(s[|TakeWord(s)|..])[0] != []
  {
    var w := TakeWord(s);
    assert w == s[..|w|];
    assert s == s[..|w|] + s[|w|..];
    assert |w| < |s| ==> s[|w|..][0] == s[|w|];
    GapAfterWord(s[|w|..]);
  }

  /** After a word comes nothing or whitespace, so a later word is preceded
      by a non-empty gap. */
  lemma GapAfterWord(rest: string)
    requires rest == [] || IsPySpace(rest[0])
    ensures Words(rest) != [] ==> Gaps(rest)[0] != []
  {
  }

  lemma SplitConsSpace(c: char, rest: string, ws: seq<string>, g: seq<string>)
    requires IsPySpace(c) && SplitBy(rest, ws, g)
    ensures SplitBy([c] + rest, ws, [[c] + g[0]] + g[1..])
  {
    var seps := [[c] + g[0]] + g[1..];
    assert AllPySpace(seps[0]) by {
      assert forall i :: 1 <= i < |g[0]| + 1 ==> ([c] + g[0])[i] == g[0][i - 1];
    }
    assert forall k :: 0 < k < |seps| ==> seps[k] == g[k];
    InterleavePrepend([c], g, ws);
  }

  lemma SplitConsWord(w: string, rest: string, ws: seq<string>, g: seq<string>)
    requires w != [] && NoPySpace(w) && SplitBy(rest, ws, g)
    requires ws != [] ==> g[0] != []
    ensures SplitBy(w + rest, [w] + ws, [""] + g)
  {
    var ws' := [w] + ws;
    var g' := [""] + g;
    assert forall k :: 0 < k < |ws'| ==> ws'[k] == ws[k - 1];
    assert forall k :: 0 < k < |g'| ==> g'[k] == g[k - 1];
    assert g'[1..] == g && ws'[1..] == ws;
    assert Interleave(g', ws') == "" + w + Interleave(g, ws);
  }

  /** Text put in front of the first gap comes first. */
  lemma InterleavePrepend(x: string, seps: seq<string>, ws: seq<string>)
    requires |seps| == |ws| + 1
    ensures Interleave([x + seps[0]] + seps[1..], ws) == x + Interleave(seps, ws)
  {
    var seps' := [x + seps[0]] + seps[1..];
    assert seps'[1..] == seps[1..];
  }

  /** Conversely, whatever words and gaps make up `s` are what `split()`
      returns: the split is unique. */
  lemma {:induction false} WordsOfSplit(s: string, ws: seq<string>, seps: seq<string>)
    requires SplitBy(s, ws, seps)
    ensures Words(s) == ws
    decreases |ws|
  {
    if ws == [] {
      SkipSpace(seps[0], []);
      assert seps[0] + [] == s;
    } else {
      var u := Interleave(seps[1..], ws[1..]);
      SplitTail(s, ws, seps);
      SkipSpace(seps[0], ws[0] + u);
      WordThenRest(ws[0], u);
      WordsOfSplit(u, ws[1..], seps[1..]);
      assert ws == [ws[0]] + ws[1..];
    }
  }

  /** What follows the first word of a split is split by the remaining
      words and gaps, and starts with whitespace if anything. */
  lemma SplitTail(s: string, ws: seq<string>, seps: seq<string>)
    requires SplitBy(s, ws, seps) && ws != []
    ensures s == seps[0] + (ws[0] + Interleave(seps[1..], ws[1..]))
    ensures SplitBy(Interleave(seps[1..], ws[1..]), ws[1..], seps[1..])
    ensures Interleave(seps[1..], ws[1..]) == [] || IsPySpace(Interleave(seps[1..], ws[1..])[0])
    ensures AllPySpace(seps[0]) && ws[0] != [] && NoPySpace(ws[0])
  {
    var u := Interleave(seps[1..], ws[1..]);
    assert forall k :: 0 <= k < |ws| - 1 ==> ws[1..][k] == ws[k + 1];
    assert forall k :: 0 <= k < |seps| - 1 ==> seps[1..][k] == seps[k + 1];
    if |ws| > 1 {
      assert u == seps[1] + (ws[1] + Interleave(seps[2..], ws[2..]));
      assert u[0] == seps[1][0];
    }
  }

  /** Leading whitespace does not change the words. */
  lemma {:induction false} SkipSpace(sp: string, t: string)
    requires AllPySpace(sp)
    ensures Words(sp + t) == Words(t)
    decreases |sp|
  {
    if sp != [] {
      assert (sp + t)[0] == sp[0] && IsPySpace(sp[0]);
      assert (sp + t)[1..] == sp[1..] + t;
      assert forall i :: 0 <= i < |sp| - 1 ==> sp[1..][i] == sp[i + 1];
      assert Words(sp + t) == Words((sp + t)[1..]);
      SkipSpace(sp[1..], t);
    } else {
      assert sp + t == t;
    }
  }

  /** A word followed by nothing or by whitespace is the first word. */
  lemma WordThenRest(w: string, u: string)
    requires w != [] && NoPySpace(w)
    requires u == [] || IsPySpace(u[0])
    ensures Words(w + u) == [w] + Words(u)
  {
    TakeWordOf(w, u);
    assert (w + u)[|w|..] == u;
  }

  lemma {:induction false} TakeWordOf(w: string, u: string)
    requires NoPySpace(w)
    requires u == [] || IsPySpace(u[0])
    ensures TakeWord(w + u) == w
    decreases |w|
  {
    if w != [] {
      assert (w + u)[1..] == w[1..] + u;
      TakeWordOf(w[1..], u);
    } else {
      assert w + u == u;
    }
  }

  /** Python `str.lower()` restricted to ASCII letters; other characters are
      kept as they are. */
  function AsciiLower(s: string): (r: string)
    ensures |r| == |s|
    ensures forall i :: 0 <= i < |s| ==>
      r[i] == (if 'A' <= s[i] <= 'Z' then (s[i] as int + 32) as char else s[i])
  {
    if s == [] then []
    else [if 'A' <= s[0] <= 'Z' then (s[0] as int + 32) as char else s[0]] + AsciiLower(s[1..])
  }

  predicate IsDigit(c: char) {
    '0' <= c <= '9'
  }

  predicate AllDigits(s: string) {
    forall i :: 0 <= i < |s| ==> IsDigit(s[i])
  }

  function DigitChar(d: nat): char
    requires d < 10
  {
    ('0' as int + d) as char
  }

  /** `int(s)` for a run of ASCII digits (leading zeros allowed). */
  function DigitsValue(s: string): nat
    requires AllDigits(s)
  {
    if s == [] then 0
    else DigitsValue(s[..|s| - 1]) * 10 + (s[|s| - 1] as int - '0' as int)
  }

  /** `str(n)` for a natural number: shortest decimal form. */
  function NatToString(n: nat): (r: string)
    ensures |r| >= 1 && AllDigits(r)
    ensures n >= 10 ==> |r| >= 2
  {
    if n < 10 then [DigitChar(n)] else NatToString(n / 10) + [DigitChar(n % 10)]
  }

  /** Reading back what `str(n)` printed gives `n`. */
  lemma {:induction false} DigitsValueOfNatToString(n: nat)
    ensures DigitsValue(NatToString(n)) == n
  {
    var s := NatToString(n);
    if n >= 10 {
      DigitsValueOfNatToString(n / 10);
      assert s[..|s| - 1] == NatToString(n / 10);
    }
  }

  /** Distinct numbers print differently. */
  lemma NatToStringInjective(a: nat, b: nat)
    requires NatToString(a) == NatToString(b)
    ensures a == b
  {
    DigitsValueOfNatToString(a);
    DigitsValueOfNatToString(b);
  }

  /** `s.replace(pat, '')` for a non-empty pattern: occurrences are removed
      left to right without overlapping. The text is unchanged exactly when
      the pattern does not occur; otherwise it loses at least one copy. */
  function RemoveAll(s: string, pat: string): (r: string)
    requires pat != []
    ensures |r| <= |s|
    ensures r == s <==> !Contains(s, pat)
    ensures Contains(s, pat) ==> |r| <= |s| - |pat|
    decreases |s|
  {
    if |s| < |pat| then
      assert !OccursAt(s, pat, 0);
      s
    else
      if s[..|pat|] == pat then
        var r := RemoveAll(s[|pat|..], pat);
        r
      else
        var rest := RemoveAll(s[1..], pat);
        assert [s[0]] + rest == s <==> rest == s[1..];
        [s[0]] + rest
  }


  /** `s.strip(chars)`: characters of the set removed from both ends. */
  function StripLeftOf(s: string, chars: set<char>): (r: string)
    ensures |r| <= |s|
    ensures r != [] ==> r[0] !in chars
  {
    if s != [] && s[0] in chars then StripLeftOf(s[1..], chars) else s
  }

  function StripRightOf(s: string, chars: set<char>): (r: string)
    ensures |r| <= |s|
    ensures r != [] ==> r[|r| - 1] !in chars
  {
    if s != [] && s[|s| - 1] in chars then StripRightOf(s[..|s| - 1], chars) else s
  }

  /** Removing a pattern whose last character does not occur changes
      nothing. */
  lemma {:induction false} RemoveAllAbsent(s: string, pat: string)
    requires pat != [] && pat[|pat| - 1] !in s
    ensures RemoveAll(s, pat) == s
    decreases |s|
  {
    if |s| >= |pat| {
      assert s[..|pat|][|pat| - 1] == s[|pat| - 1];
      assert s[..|pat|] != pat;
      RemoveAllAbsent(s[1..], pat);
      assert [s[0]] + s[1..] == s;
    }
  }

  /** A copy of the pattern at the front is removed. */
  lemma RemoveLeading(pat: string, t: string)
    requires pat != []
    ensures RemoveAll(pat + t, pat) == RemoveAll(t, pat)
  {
    assert (pat + t)[..|pat|] == pat;
    assert (pat + t)[|pat|..] == t;
  }

  /** A first character that does not start a copy of the pattern is kept. */
  lemma KeepLeading(c: char, t: string, pat: string)
    requires pat != [] && !StartsWith([c] + t, pat)
    ensures RemoveAll([c] + t, pat) == [c] + RemoveAll(t, pat)
  {
    assert ([c] + t)[1..] == t;
    if |[c] + t| < |pat| {
      assert RemoveAll(t, pat) == t;
    }
  }

  /** A first character that differs from the pattern's first, or a second
      that differs from the pattern's second, does not start a copy. */
  lemma KeepLeadingChar(c: char, t: string, pat: string)
    requires pat != []
    requires c != pat[0] || (t != [] && |pat| >= 2 && t[0] != pat[1])
    ensures RemoveAll([c] + t, pat) == [c] + RemoveAll(t, pat)
  {
    if |pat| <= |[c] + t| {
      assert ([c] + t)[..|pat|][0] == c;
      assert t != [] && |pat| >= 2 ==> ([c] + t)[..|pat|][1] == t[0];
    }
    KeepLeading(c, t, pat);
  }

  lemma ConsFive(a: char, b: char, c: char, d: char, e: char, h: string)
    ensures [a, b, c, d, e] + h == [a] + ([b] + ([c] + ([d] + ([e] + h))))
  {
  }

  /** No copy of `urn:` starts inside `uuid:`. */
  lemma UuidKept(h: string)
    ensures RemoveAll("uuid:" + h, "urn:") == "uuid:" + RemoveAll(h, "urn:")
  {
    var pat := "urn:";
    assert pat[0] == 'u' && pat[1] == 'r';
    var t4 := [':'] + h;
    var t3 := ['d'] + t4;
    var t2 := ['i'] + t3;
    var t1 := ['u'] + t2;
    KeepLeadingChar(':', h, pat);
    KeepLeadingChar('d', t4, pat);
    KeepLeadingChar('i', t3, pat);
    KeepLeadingChar('u', t2, pat);
    KeepLeadingChar('u', t1, pat);
    ConsFive('u', 'u', 'i', 'd', ':', h);
    ConsFive('u', 'u', 'i', 'd', ':', RemoveAll(h, pat));
  }

  /** Removing `urn:` from `urn:uuid:` followed by a text leaves `uuid:`
      and the text with `urn:` removed. */
  lemma UrnRemoved(h: string)
    ensures RemoveAll("urn:uuid:" + h, "urn:") == "uuid:" + RemoveAll(h, "urn:")
  {
    assert "urn:uuid:" + h == "urn:" + ("uuid:" + h);
    RemoveLeading("urn:", "uuid:" + h);
    UuidKept(h);
  }

  /** `urn:uuid:` in front of a text changes nothing once `urn:` and then
      `uuid:` are removed. */
  lemma UrnPrefixRemoved(h: string)
    ensures RemoveAll(RemoveAll("urn:uuid:" + h, "urn:"), "uuid:") == RemoveAll(RemoveAll(h, "urn:"), "uuid:")
  {
    UrnRemoved(h);
    RemoveLeading("uuid:", RemoveAll(h, "urn:"));
  }

  /** `s` cut at its first `c`: the text before it and the text after it. */
  function SplitFirst(s: string, c: char): (r: Option<(string, string)>)
    ensures r.None? <==> c !in s
    ensures r.Some? ==> r.value.0 + [c] + r.value.1 == s && c !in r.value.0
  {
    if s == [] then None
    else if s[0] == c then
      assert s == [] + [c] + s[1..];
      Some(([], s[1..]))
    else
      match SplitFirst(s[1..], c)
      case None => None
      case Some((a, b)) =>
        assert s == [s[0]] + s[1..];
        Some(([s[0]] + a, b))
  }

  /** Cutting at the first `c` finds the cut that was made, when the part
      before it has no `c`. */
  lemma {:induction false} SplitFirstOf(a: string, c: char, b: string)
    requires c !in a
    ensures SplitFirst(a + [c] + b, c) == Some((a, b))
  {
    var s := a + [c] + b;
    if a == [] {
      assert s == [c] + b;
    } else {
      assert s[0] == a[0];
      assert s[1..] == a[1..] + [c] + b;
      SplitFirstOf(a[1..], c, b);
      assert a == [a[0]] + a[1..];
    }
  }
}
