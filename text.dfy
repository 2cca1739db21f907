/**
 * Python `str` operations the modelled code relies on: `isspace`, `strip`,
 * `split()`, `splitlines()`, `' '.join`, `endswith`, `lower`, and the lines a
 * text-mode file yields when iterated (universal newlines, terminators kept).
 */
module Text {
  import opened Seqs

  /** The characters for which Python's `str.isspace()` holds; `strip()`, `split()` and `\s` use this set. */
  predicate IsWhitespace(c: char)
  {
    || c == ' '
    || ('\t' <= c <= '\r')
    || ('\U{1C}' <= c <= '\U{1F}')
    || c == '\U{85}' || c == '\U{A0}' || c == '\U{1680}'
    || ('\U{2000}' <= c <= '\U{200A}')
    || c == '\U{2028}' || c == '\U{2029}' || c == '\U{202F}' || c == '\U{205F}' || c == '\U{3000}'
  }

  /** The line boundaries of Python's `str.splitlines()` (`"\r\n"` counts as one boundary). */
  predicate IsLineBreak(c: char)
  {
    || c == '\n' || c == '\r' || c == '\U{0B}' || c == '\U{0C}'
    || c == '\U{1C}' || c == '\U{1D}' || c == '\U{1E}'
    || c == '\U{85}' || c == '\U{2028}' || c == '\U{2029}'
  }

  predicate AllWhitespace(s: string)
  {
    forall k :: 0 <= k < |s| ==> IsWhitespace(s[k])
  }

  /** No whitespace at either end: what `strip()` leaves. */
  predicate Trimmed(s: string)
  {
    s == [] || (!IsWhitespace(s[0]) && !IsWhitespace(s[|s| - 1]))
  }

  predicate NoLineBreak(s: string)
  {
    forall k :: 0 <= k < |s| ==> !IsLineBreak(s[k])
  }

  /** A non-empty run of non-whitespace characters: what `split()` yields. */
  predicate IsWord(w: string)
  {
    w != [] && forall k :: 0 <= k < |w| ==> !IsWhitespace(w[k])
  }

  predicate NonEmpty(s: string)
  {
    s != []
  }

  function EndsWith(s: string, suffix: string): bool
  {
    |suffix| <= |s| && s[|s| - |suffix|..] == suffix
  }

  // ---------------------------------------------------------------- strip

  /** Number of leading whitespace characters. */
  function StripStart(s: string): (i: nat)
    ensures i <= |s|
    ensures forall k :: 0 <= k < i ==> IsWhitespace(s[k])
    ensures i < |s| ==> !IsWhitespace(s[i])
  {
    if s == [] || !IsWhitespace(s[0]) then 0 else 1 + StripStart(s[1..])
  }

  /** Length of `s` without its trailing whitespace. */
  function StripEnd(s: string): (j: nat)
    ensures j <= |s|
    ensures forall k :: j <= k < |s| ==> IsWhitespace(s[k])
    ensures 0 < j ==> !IsWhitespace(s[j - 1])
  {
    if s == [] || !IsWhitespace(s[|s| - 1]) then |s| else StripEnd(s[..|s| - 1])
  }

  /** `s.strip()`: the slice of `s` between its leading and trailing whitespace. */
  function Strip(s: string): (r: string)
    ensures Trimmed(r)
    ensures r == [] <==> AllWhitespace(s)
    ensures Trimmed(s) ==> r == s
    ensures forall k :: 0 <= k < |r| ==> r[k] in s
  {
    var i, j := StripStart(s), StripEnd(s);
    if i < j then s[i..j] else []
  }

  // ---------------------------------------------------------------- split

  /** Index of the first whitespace character, `|s|` if there is none. */
  function FirstWhitespace(s: string): (i: nat)
    ensures i <= |s|
    ensures forall k :: 0 <= k < i ==> !IsWhitespace(s[k])
    ensures i < |s| ==> IsWhitespace(s[i])
  {
    if s == [] || IsWhitespace(s[0]) then 0 else 1 + FirstWhitespace(s[1..])
  }

  /** `s.split()` with no argument: the maximal runs of non-whitespace characters. */
  function Split(s: string): seq<string>
    decreases |s|
  {
    var i := FirstWhitespace(s);
    if i == |s| then (if s == [] then [] else [s])
    else if i == 0 then Split(s[1..])
    else [s[..i]] + Split(s[i + 1..])
  }

  /** `sep.join(parts)` */
  function Join(sep: string, parts: seq<string>): string
  {
    if parts == [] then []
    else if |parts| == 1 then parts[0]
    else parts[0] + sep + Join(sep, parts[1..])
  }

  // ---------------------------------------------------------------- lines

  /** Index of the first line boundary, `|s|` if there is none. */
  function FirstLineBreak(s: string): (i: nat)
    ensures i <= |s|
    ensures forall k :: 0 <= k < i ==> !IsLineBreak(s[k])
    ensures i < |s| ==> IsLineBreak(s[i])
  {
    if s == [] || IsLineBreak(s[0]) then 0 else 1 + FirstLineBreak(s[1..])
  }

  /** `s.splitlines()`: the lines without their boundaries; a final boundary opens no empty line. */
  function SplitLines(s: string): (lines: seq<string>)
    ensures forall k :: 0 <= k < |lines| ==> NoLineBreak(lines[k])
    decreases |s|
  {
    if s == [] then []
    else
      var i := FirstLineBreak(s);
      if i == |s| then [s]
      else
        var k := if s[i] == '\r' && i + 1 < |s| && s[i + 1] == '\n' then i + 2 else i + 1;
        [s[..i]] + SplitLines(s[k..])
  }

  /** Universal-newline decoding of a text-mode read: `"\r\n"` and a lone `'\r'` become `'\n'`. */
  function TranslateNewlines(raw: string): (t: string)
    ensures forall k :: 0 <= k < |t| ==> t[k] != '\r'
    decreases |raw|
  {
    if raw == [] then []
    else if raw[0] == '\r' then
      "\n" + TranslateNewlines(if |raw| > 1 && raw[1] == '\n' then raw[2..] else raw[1..])
    else [raw[0]] + TranslateNewlines(raw[1..])
  }

  function FirstNewline(t: string): (i: nat)
    ensures i <= |t|
    ensures forall k :: 0 <= k < i ==> t[k] != '\n'
    ensures i < |t| ==> t[i] == '\n'
  {
    if t == [] || t[0] == '\n' then 0 else 1 + FirstNewline(t[1..])
  }

  /** The lines of decoded text, each with its `'\n'` terminator (the last one may lack it). */
  function LinesKeepEnds(t: string): (lines: seq<string>)
    ensures Flatten(lines) == t
    ensures forall k :: 0 <= k < |lines| ==> lines[k] != []
    ensures forall k :: 0 <= k < |lines| - 1 ==> lines[k][|lines[k]| - 1] == '\n'
    ensures forall k, m :: 0 <= k < |lines| && 0 <= m < |lines[k]| - 1 ==> lines[k][m] != '\n'
    decreases |t|
  {
    if t == [] then []
    else
      var i := FirstNewline(t);
      if i == |t| then
        assert Flatten([t]) == t + Flatten([]);
        [t]
      else
        var rest := LinesKeepEnds(t[i + 1..]);
        assert Flatten([t[..i + 1]] + rest) == t[..i + 1] + Flatten(rest) by {
          assert ([t[..i + 1]] + rest)[1..] == rest;
        }
        assert t[..i + 1] + t[i + 1..] == t;
        [t[..i + 1]] + rest
  }

  /** What `for line in open(path)` yields for a file whose decoded contents are `raw`. */
  function FileLines(raw: string): seq<string>
  {
    LinesKeepEnds(TranslateNewlines(raw))
  }

  // ---------------------------------------------------------------- case

  /** `str.lower()` on ASCII and Latin-1 letters. */
  function LowerChar(c: char): char
  {
    if 'A' <= c <= 'Z' || ('\U{C0}' <= c <= '\U{DE}' && c != '\U{D7}') then (c as int + 32) as char else c
  }

  function Lower(s: string): (r: string)
    ensures |r| == |s|
  {
    Map(LowerChar, s)
  }
}
