/**
 * `cleanTexts` and the `maxNumTokens` bound of `tokenizeText` in
 * `languageModels/commonFunctions.py`.  Unicode decomposition and the
 * general category come from the Unicode database; they are an oracle here.
 */
module CleanTexts {
  import opened Wrappers
  import opened Seqs
  import opened Text

  /**
   * The two facts of the Unicode database `cleanTexts` uses: the full
   * canonical decomposition of a character (what NFD makes of it) and
   * whether its category is `Mn` (a non-spacing combining mark).
   */
  datatype UnicodeData = UnicodeData(decompose: char -> string, isMark: char -> bool)

  /** EN QUAD and EM QUAD: whitespace whose canonical decomposition is another character. */
  predicate IsQuad(c: char)
  {
    c == '\U{2000}' || c == '\U{2001}'
  }

  /** What NFD makes of a kept character: EN QUAD becomes EN SPACE, EM QUAD becomes EM SPACE. */
  function Unquad(c: char): char
  {
    if c == '\U{2000}' then '\U{2002}' else if c == '\U{2001}' then '\U{2003}' else c
  }

  /** Replacing a quad keeps a character's class. */
  lemma UnquadKeepsClass(c: char)
    ensures IsCleanChar(c) ==> IsCleanChar(Unquad(c))
    ensures Unquad(c) == ' ' <==> c == ' '
    ensures IsWhitespace(Unquad(c)) <==> IsWhitespace(c)
  {
  }

  predicate NoQuad(s: string)
  {
    forall k :: 0 <= k < |s| ==> !IsQuad(s[k])
  }

  /**
   * What the Unicode database says of the characters `cleanTexts` keeps:
   * ASCII letters and digits and the whitespace characters decompose to
   * themselves, except the two quads, which decompose to the spaces of the
   * same width; none of them is a combining mark; and since a decomposition
   * is already in NFD, no decomposition holds a quad.
   */
  predicate Consistent(u: UnicodeData)
  {
    && (forall c: char {:trigger u.decompose(c)} :: Kept(c) ==> u.decompose(c) == [Unquad(c)])
    && (forall c: char {:trigger u.isMark(c)} :: Kept(c) ==> !u.isMark(c))
    && (forall c: char, k :: 0 <= k < |u.decompose(c)| ==> !IsQuad(u.decompose(c)[k]))
  }

  predicate IsAsciiAlnum(c: char)
  {
    'a' <= c <= 'z' || 'A' <= c <= 'Z' || '0' <= c <= '9'
  }

  /** Characters the class `[^a-zA-Z0-9\s\n\t\r]` does not match. */
  predicate Kept(c: char)
  {
    IsAsciiAlnum(c) || IsWhitespace(c)
  }

  /** Characters a cleaned text is made of. */
  predicate IsCleanChar(c: char)
  {
    'a' <= c <= 'z' || '0' <= c <= '9' || IsWhitespace(c)
  }

  // ---------------------------------------------------------------- the four steps

  /** `''.join(c for c in unicodedata.normalize('NFD', doc) if unicodedata.category(c) != 'Mn')` */
  function DropMarks(u: UnicodeData, doc: string): string
  {
    Filter((c: char) => !u.isMark(c), Flatten(Map(u.decompose, doc)))
  }

  function Blank(c: char): char
  {
    if Kept(c) then c else ' '
  }

  /** `re.sub(r'[^a-zA-Z0-9\s\n\t\r]', ' ', doc)` */
  function BlankSymbols(doc: string): (r: string)
    ensures |r| == |doc|
    ensures forall k :: 0 <= k < |r| ==> Kept(r[k])
  {
    Map(Blank, doc)
  }

  predicate NoDoubleSpace(s: string)
  {
    forall k :: 0 <= k < |s| - 1 ==> !(s[k] == ' ' && s[k + 1] == ' ')
  }

  /** `re.sub(' +', ' ', doc)`: every run of spaces becomes one space. */
  function CollapseSpaces(s: string): (r: string)
    ensures NoDoubleSpace(r)
    ensures r != [] ==> s != [] && r[0] == s[0]
    decreases |s|
  {
    if s == [] then []
    else if |s| >= 2 && s[0] == ' ' && s[1] == ' ' then CollapseSpaces(s[1..])
    else [s[0]] + CollapseSpaces(s[1..])
  }

  /** Collapsing introduces no character. */
  lemma {:induction false} CollapseChars(s: string)
    ensures forall c :: c in CollapseSpaces(s) ==> c in s
    decreases |s|
  {
    if s != [] {
      CollapseChars(s[1..]);
    }
  }

  /** The whole per-document transformation of `cleanTexts`. */
  function Clean(u: UnicodeData, doc: string): string
  {
    Strip(CollapseSpaces(Lower(BlankSymbols(DropMarks(u, doc)))))
  }

  // ---------------------------------------------------------------- properties of the steps

  predicate NotSpace(c: char)
  {
    c != ' '
  }

  /** Collapsing removes spaces only: the other characters stay, in order. */
  lemma {:induction false} CollapseKeepsNonSpaces(s: string)
    ensures Filter(NotSpace, CollapseSpaces(s)) == Filter(NotSpace, s)
    decreases |s|
  {
    if s != [] {
      CollapseKeepsNonSpaces(s[1..]);
      if !(|s| >= 2 && s[0] == ' ' && s[1] == ' ') {
        var rest := CollapseSpaces(s[1..]);
        assert ([s[0]] + rest)[0] == s[0] && ([s[0]] + rest)[1..] == rest;
      }
    }
  }

  /** A text without two adjacent spaces is left alone. */
  lemma {:induction false} CollapseFixed(s: string)
    requires NoDoubleSpace(s)
    ensures CollapseSpaces(s) == s
    decreases |s|
  {
    if s != [] {
      CollapseFixed(s[1..]);
      assert [s[0]] + s[1..] == s;
    }
  }

  lemma {:induction false} CleanCharsAreKept(s: string)
    requires forall k :: 0 <= k < |s| ==> IsCleanChar(s[k])
    ensures BlankSymbols(s) == s
    ensures Lower(s) == s
  {
    assert BlankSymbols(s) == s;
  }

  /** Kept characters lose nothing to NFD and the mark filter; only the quads change. */
  lemma {:induction false} DropMarksOfKept(u: UnicodeData, s: string)
    requires Consistent(u)
    requires forall k :: 0 <= k < |s| ==> Kept(s[k])
    ensures DropMarks(u, s) == Map(Unquad, s)
    decreases |s|
  {
    if s != [] {
      DropMarksOfKept(u, s[1..]);
      var p := (c: char) => !u.isMark(c);
      var h := Unquad(s[0]);
      calc {
        DropMarks(u, s);
        { assert Map(u.decompose, s) == [u.decompose(s[0])] + Map(u.decompose, s[1..]); }
        Filter(p, Flatten([[h]] + Map(u.decompose, s[1..])));
        { FlattenAppend([[h]], Map(u.decompose, s[1..])); assert Flatten([[h]]) == [h]; }
        Filter(p, [h] + Flatten(Map(u.decompose, s[1..])));
        { FilterAppend(p, [h], Flatten(Map(u.decompose, s[1..]))); }
        Filter(p, [h]) + Map(Unquad, s[1..]);
        { assert Kept(h); assert Filter(p, [h]) == [h] + Filter(p, []); }
        Map(Unquad, s);
      }
    }
  }

  /** Every step after NFD maps quads to non-quads: no quad comes out of the database or the steps. */
  lemma CleanStepsNoQuad(u: UnicodeData, doc: string)
    requires Consistent(u)
    ensures NoQuad(DropMarks(u, doc))
    ensures NoQuad(Lower(BlankSymbols(DropMarks(u, doc))))
  {
    var flat := Flatten(Map(u.decompose, doc));
    var d := DropMarks(u, doc);
    forall k | 0 <= k < |d| ensures !IsQuad(d[k]) {
      FilterMembership((c: char) => !u.isMark(c), flat, d[k]);
      FlattenMembership(Map(u.decompose, doc), d[k]);
      var i :| 0 <= i < |doc| && d[k] in Map(u.decompose, doc)[i];
      var j :| 0 <= j < |u.decompose(doc[i])| && u.decompose(doc[i])[j] == d[k];
    }
  }

  // ---------------------------------------------------------------- properties of Clean

  /** Every character of a cleaned text is a lower-case ASCII letter, a digit or whitespace. */
  lemma CleanAlphabet(u: UnicodeData, doc: string)
    ensures forall k :: 0 <= k < |Clean(u, doc)| ==> IsCleanChar(Clean(u, doc)[k])
  {
    var lowered := Lower(BlankSymbols(DropMarks(u, doc)));
    assert forall k :: 0 <= k < |lowered| ==> IsCleanChar(lowered[k]);
    CollapseChars(lowered);
  }

  /**
   * A cleaned text has no leading or trailing whitespace and no two adjacent
   * spaces; tabs and line breaks inside it are not collapsed.
   */
  lemma CleanSpacing(u: UnicodeData, doc: string)
    ensures Trimmed(Clean(u, doc))
    ensures NoDoubleSpace(Clean(u, doc))
  {
    StripKeepsNoDoubleSpace(CollapseSpaces(Lower(BlankSymbols(DropMarks(u, doc)))));
  }

  lemma StripKeepsNoDoubleSpace(c: string)
    requires NoDoubleSpace(c)
    ensures NoDoubleSpace(Strip(c))
  {
    var i, j := StripStart(c), StripEnd(c);
    if i < j {
      forall k | 0 <= k < j - i - 1 ensures !(c[i..j][k] == ' ' && c[i..j][k + 1] == ' ') {
        assert c[i..j][k] == c[i + k] && c[i..j][k + 1] == c[i + k + 1];
      }
    }
  }

  /** No combining mark survives, as far as the Unicode database tells. */
  lemma CleanHasNoMarks(u: UnicodeData, doc: string)
    requires Consistent(u)
    ensures forall k :: 0 <= k < |Clean(u, doc)| ==> !u.isMark(Clean(u, doc)[k])
  {
    CleanAlphabet(u, doc);
  }

  /** A cleaned text holds no quad: NFD already replaced them. */
  lemma CleanHasNoQuads(u: UnicodeData, doc: string)
    requires Consistent(u)
    ensures NoQuad(Clean(u, doc))
  {
    var lowered := Lower(BlankSymbols(DropMarks(u, doc)));
    CleanStepsNoQuad(u, doc);
    CollapseChars(lowered);
  }

  /**
   * A text made of clean characters, without outer whitespace and without two
   * adjacent spaces, comes out of cleaning with only its quads replaced; so
   * tabs and line breaks between words stay as they are.
   */
  lemma CleanOfCleanText(u: UnicodeData, t: string)
    requires Consistent(u)
    requires forall k :: 0 <= k < |t| ==> IsCleanChar(t[k])
    requires Trimmed(t) && NoDoubleSpace(t)
    ensures Clean(u, t) == Map(Unquad, t)
  {
    var m := Map(Unquad, t);
    UnquadText(t);
    DropMarksOfKept(u, t);
    CleanCharsAreKept(m);
    CollapseFixed(m);
    calc {
      Clean(u, t);
      Strip(CollapseSpaces(Lower(BlankSymbols(m))));
      Strip(CollapseSpaces(m));
      Strip(m);
      m;
    }
  }

  /** Replacing the quads of a clean text leaves it clean, trimmed and without double spaces. */
  lemma UnquadText(t: string)
    requires forall k :: 0 <= k < |t| ==> IsCleanChar(t[k])
    requires Trimmed(t) && NoDoubleSpace(t)
    ensures forall k :: 0 <= k < |t| ==> IsCleanChar(Map(Unquad, t)[k])
    ensures Trimmed(Map(Unquad, t)) && NoDoubleSpace(Map(Unquad, t))
  {
    var m := Map(Unquad, t);
    forall k | 0 <= k < |m|
      ensures IsCleanChar(m[k]) && (m[k] == ' ' <==> t[k] == ' ') && (IsWhitespace(m[k]) <==> IsWhitespace(t[k]))
    {
      UnquadKeepsClass(t[k]);
    }
  }

  /** Without quads, such a text is its own cleaning. */
  lemma CleanFixedPoint(u: UnicodeData, t: string)
    requires Consistent(u)
    requires forall k :: 0 <= k < |t| ==> IsCleanChar(t[k])
    requires Trimmed(t) && NoDoubleSpace(t) && NoQuad(t)
    ensures Clean(u, t) == t
  {
    CleanOfCleanText(u, t);
  }

  /** Cleaning a cleaned text changes nothing. */
  lemma CleanIdempotent(u: UnicodeData, doc: string)
    requires Consistent(u)
    ensures Clean(u, Clean(u, doc)) == Clean(u, doc)
  {
    CleanAlphabet(u, doc);
    CleanSpacing(u, doc);
    CleanHasNoQuads(u, doc);
    CleanFixedPoint(u, Clean(u, doc));
  }

  /** Only the space character is collapsed: every other character keeps its number of occurrences. */
  lemma CollapseCountsOthers(s: string, c: char)
    requires c != ' '
    ensures Count(CollapseSpaces(s), c) == Count(s, c)
  {
    CollapseKeepsNonSpaces(s);
    FilterCount(NotSpace, CollapseSpaces(s), c);
    FilterCount(NotSpace, s, c);
  }

  // ---------------------------------------------------------------- cleanTexts

  /** What `cleanTexts` returns: each input cleaned, in the input's order. */
  function CleanEach(u: UnicodeData, texts: seq<string>): seq<string>
  {
    if texts == [] then []
    else CleanEach(u, texts[..|texts| - 1]) + [Clean(u, texts[|texts| - 1])]
  }

  /** One cleaned string per input, at the input's position. */
  lemma {:induction false} CleanEachAt(u: UnicodeData, texts: seq<string>)
    ensures |CleanEach(u, texts)| == |texts|
    ensures forall k :: 0 <= k < |texts| ==> CleanEach(u, texts)[k] == Clean(u, texts[k])
  {
    if texts != [] {
      var init := texts[..|texts| - 1];
      CleanEachAt(u, init);
      forall k | 0 <= k < |texts| - 1 ensures CleanEach(u, texts)[k] == Clean(u, texts[k]) {
        assert texts[k] == init[k];
      }
    }
  }

  /** `cleanTexts`: the loop appending one cleaned document per input. */
  method CleanAll(u: UnicodeData, texts: seq<string>) returns (cleaned: seq<string>)
    ensures cleaned == CleanEach(u, texts)
  {
    cleaned := [];
    for i := 0 to |texts|
      invariant cleaned == CleanEach(u, texts[..i])
    {
      cleaned := cleaned + [Clean(u, texts[i])];
      assert texts[..i + 1][..i] == texts[..i];
    }
    assert texts[..|texts|] == texts;
  }

  /** Cleaning the output of `cleanTexts` again returns it unchanged. */
  lemma CleanEachIdempotent(u: UnicodeData, texts: seq<string>)
    requires Consistent(u)
    ensures CleanEach(u, CleanEach(u, texts)) == CleanEach(u, texts)
  {
    var once := CleanEach(u, texts);
    CleanEachAt(u, texts);
    CleanEachAt(u, once);
    forall k | 0 <= k < |texts| ensures CleanEach(u, once)[k] == once[k] {
      CleanIdempotent(u, texts[k]);
    }
  }

  // ---------------------------------------------------------------- maxNumTokens

  /** `np.max` of the row lengths: the number of characters of the longest row. */
  function Longest(rows: seq<string>): (n: nat)
    requires rows != []
    ensures forall k :: 0 <= k < |rows| ==> |rows[k]| <= n
    ensures exists k :: 0 <= k < |rows| && |rows[k]| == n
  {
    if |rows| == 1 then |rows[0]|
    else
      var m := Longest(rows[1..]);
      assert forall k :: 1 <= k < |rows| ==> rows[k] == rows[1..][k - 1];
      if |rows[0]| >= m then |rows[0]| else m
  }

  /**
   * `min(np.max([len(row) for row in X_train] + [len(row) for row in X_test]), maxLength)`;
   * `np.max` of an empty list raises.
   */
  function MaxNumTokens(train: seq<string>, test: seq<string>, maxLength: int): (r: Result<int, string>)
    ensures r.Failure? <==> train == [] && test == []
    ensures r.Success? ==> r.value <= maxLength
    ensures r.Success? ==> forall row :: row in train + test ==> r.value >= |row| || r.value == maxLength
    ensures r.Success? ==> r.value == maxLength || exists row :: row in train + test && |row| == r.value
    ensures r.Success? ==> exists row :: row in train + test && r.value <= |row|
  {
    if train == [] && test == [] then Failure("zero-size array to reduction operation maximum")
    else
      var longest := Longest(train + test);
      if longest <= maxLength then Success(longest) else Success(maxLength)
  }
}
