/**
  Python's `repr` of a `str`, as it appears inside the message of the
  `ValueError` an enumeration raises for a value it does not know, and the
  reading of such a literal back into the text it stands for.
*/
module PyRepr {
  import opened Util

  /** The quote `repr` puts around a text: the double quote when the text
      holds a single quote and no double quote, the single quote otherwise. */
  function Quote(s: string): (q: char)
    ensures q == '"' || q == '\''
    ensures q == '"' <==> '\'' in s && '"' !in s
  {
    if '\'' in s && '"' !in s then '"' else '\''
  }

  /** A lower-case hexadecimal digit. */
  function HexDigit(n: nat): (c: char)
    requires n < 16
  {
    if n < 10 then (48 + n) as char else (87 + n) as char
  }

  /** The value of a lower-case hexadecimal digit. */
  function HexValue(c: char): (r: Option<nat>)
    ensures r.Some? ==> r.value < 16
  {
    if '0' <= c <= '9' then Some(c as int - 48)
    else if 'a' <= c <= 'f' then Some(c as int - 87)
    else None
  }

  /** A character `repr` writes as itself. Non-ASCII characters are taken
      to be printable. */
  predicate Plain(c: char, q: char) {
    c != '\\' && c != q && c as int >= 0x20 && c as int != 0x7f
  }

  /** How `repr` writes one character between quotes `q`: the backslash and
      the quote escaped, tab, newline and carriage return by name, the other
      control characters as `\xNN`. */
  function EscapeChar(c: char, q: char): (r: string)
    ensures r == [c] <==> Plain(c, q)
    ensures !Plain(c, q) ==> 2 <= |r| <= 4 && r[0] == '\\'
  {
    if c == '\\' then "\\\\"
    else if c == q then ['\\', q]
    else if c == '\t' then "\\t"
    else if c == '\n' then "\\n"
    else if c == '\r' then "\\r"
    else if c as int < 0x20 || c as int == 0x7f then ['\\', 'x', HexDigit(c as int / 16), HexDigit(c as int % 16)]
    else [c]
  }

  /** The characters of a text written one after the other. */
  function EscapeAll(s: string, q: char): (r: string)
    ensures |r| >= |s|
  {
    if s == [] then [] else EscapeChar(s[0], q) + EscapeAll(s[1..], q)
  }

  /** `repr(s)` for a `str`. */
  function Repr(s: string): (r: string)
    ensures |r| >= |s| + 2
    ensures r[0] == r[|r| - 1] == Quote(s)
  {
    [Quote(s)] + EscapeAll(s, Quote(s)) + [Quote(s)]
  }

  /** The value of a string literal body between quotes `q`: the escapes
      `repr` writes are read back, an unescaped quote or an unknown escape
      has no value. */
  function Unescape(t: string, q: char): (r: Option<string>)
    decreases |t|
  {
    if t == [] then Some([])
    else if t[0] == q then None
    else if t[0] != '\\' then Prepend(t[0], Unescape(t[1..], q))
    else if |t| < 2 then None
    else if t[1] == '\\' || t[1] == q then Prepend(t[1], Unescape(t[2..], q))
    else if t[1] == 't' then Prepend('\t', Unescape(t[2..], q))
    else if t[1] == 'n' then Prepend('\n', Unescape(t[2..], q))
    else if t[1] == 'r' then Prepend('\r', Unescape(t[2..], q))
    else if t[1] == 'x' && |t| >= 4 && HexValue(t[2]).Some? && HexValue(t[3]).Some? then
      Prepend((16 * HexValue(t[2]).value + HexValue(t[3]).value) as char, Unescape(t[4..], q))
    else None
  }

  /** `lit` is a quoted literal whose body reads back as `s`. */
  predicate ReadsAs(lit: string, s: string) {
    |lit| >= 2 && Unescape(lit[1..|lit| - 1], lit[0]) == Some(s)
  }

  /** A character in front of a value, when there is one. */
  function Prepend(c: char, r: Option<string>): Option<string> {
    if r.Some? then Some([c] + r.value) else None
  }

  /** Reading back one written character gives the character, then the
      value of what follows. */
  lemma UnescapeChar(c: char, q: char, rest: string)
    requires q == '"' || q == '\''
    ensures Unescape(EscapeChar(c, q) + rest, q) == Prepend(c, Unescape(rest, q))
  {
    var e := EscapeChar(c, q);
    var t := e + rest;
    if Plain(c, q) {
      assert t[0] == c && t[1..] == rest;
    } else if (c as int < 0x20 && c != '\t' && c != '\n' && c != '\r') || c as int == 0x7f {
      var hi, lo := c as int / 16, c as int % 16;
      assert e == ['\\', 'x', HexDigit(hi), HexDigit(lo)];
      assert t[0] == '\\' && t[1] == 'x' && t[2] == HexDigit(hi) && t[3] == HexDigit(lo) && t[4..] == rest;
      assert HexValue(HexDigit(hi)) == Some(hi);
      assert HexValue(HexDigit(lo)) == Some(lo);
    } else {
      assert t[0] == '\\' && t[2..] == rest;
    }
  }

  /** The written body reads back as the text. */
  lemma {:induction false} UnescapeAll(s: string, q: char)
    requires q == '"' || q == '\''
    ensures Unescape(EscapeAll(s, q), q) == Some(s)
  {
    if s != [] {
      UnescapeAll(s[1..], q);
      UnescapeChar(s[0], q, EscapeAll(s[1..], q));
      assert [s[0]] + s[1..] == s;
    }
  }

  /** `repr` is a literal of the text: between its quotes stands a body
      that reads back as exactly the text, so different texts have
      different representations. */
  lemma ReprRoundTrip(s: string)
    ensures var r := Repr(s); Unescape(r[1..|r| - 1], r[0]) == Some(s)
  {
    var r := Repr(s);
    assert r[1..|r| - 1] == EscapeAll(s, Quote(s));
    UnescapeAll(s, Quote(s));
  }

  /** A text of plain characters is written as itself between quotes. */
  lemma {:induction false} ReprOfPlain(s: string)
    requires forall i :: 0 <= i < |s| ==> Plain(s[i], Quote(s))
    ensures Repr(s) == [Quote(s)] + s + [Quote(s)]
  {
    PlainWrittenAsIs(s, Quote(s));
  }

  lemma {:induction false} PlainWrittenAsIs(s: string, q: char)
    requires forall i :: 0 <= i < |s| ==> Plain(s[i], q)
    ensures EscapeAll(s, q) == s
  {
    if s != [] {
      assert forall i :: 0 <= i < |s| - 1 ==> s[1..][i] == s[i + 1];
      PlainWrittenAsIs(s[1..], q);
      assert [s[0]] + s[1..] == s;
    }
  }
}
