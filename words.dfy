/**
 * How `split()` interacts with `strip()`, `' '.join`, `splitlines()` and the
 * lines of a text file: each of them keeps the sequence of words.
 */
module Words {
  import opened Seqs
  import opened Text

  /** The first whitespace position is the one the scan stops at. */
  lemma {:induction false} FirstWhitespaceAt(s: string, i: nat)
    requires i <= |s|
    requires forall k :: 0 <= k < i ==> !IsWhitespace(s[k])
    requires i < |s| ==> IsWhitespace(s[i])
    ensures FirstWhitespace(s) == i
    decreases i
  {
    if i > 0 {
      FirstWhitespaceAt(s[1..], i - 1);
    }
  }

  /** A whitespace character separates words: splitting around it splits each side. */
  lemma {:induction false} SplitAroundWhitespace(a: string, c: char, b: string)
    requires IsWhitespace(c)
    ensures Split(a + [c] + b) == Split(a) + Split(b)
    decreases |a|
  {
    if FirstWhitespace(a) == |a| {
      SplitWordBeforeWhitespace(a, c, b);
    } else {
      var head, rest := SplitFirstWord(a, c, b);
      SplitAroundWhitespace(rest, c, b);
      AppendAssociative(head, Split(rest), Split(b));
    }
  }

  /** The case of `SplitAroundWhitespace` where `a` holds no whitespace. */
  lemma {:induction false} SplitWordBeforeWhitespace(a: string, c: char, b: string)
    requires IsWhitespace(c) && FirstWhitespace(a) == |a|
    ensures Split(a + [c] + b) == Split(a) + Split(b)
  {
    var s := a + [c] + b;
    FirstWhitespaceAt(s, |a|);
    assert s[..|a|] == a;
    assert s[|a| + 1..] == b;
  }

  /**
   * The case of `SplitAroundWhitespace` where `a` has a whitespace: both
   * sides start with the same words `head`, and `rest` follows the whitespace.
   */
  lemma {:induction false} SplitFirstWord(a: string, c: char, b: string) returns (head: seq<string>, rest: string)
    requires IsWhitespace(c) && FirstWhitespace(a) < |a|
    ensures |rest| < |a|
    ensures Split(a + [c] + b) == head + Split(rest + [c] + b)
    ensures Split(a) == head + Split(rest)
  {
    var s, ia := a + [c] + b, FirstWhitespace(a);
    rest := a[ia + 1..];
    FirstWhitespaceAt(s, ia);
    assert s[ia + 1..] == rest + [c] + b;
    if ia == 0 {
      head := [];
      assert Split(a) == Split(rest);
      assert Split(s) == Split(rest + [c] + b);
    } else {
      head := [a[..ia]];
      assert s[..ia] == a[..ia];
    }
  }

  /** Every item `split()` yields is a non-empty run of non-whitespace characters. */
  lemma {:induction false} SplitYieldsWords(s: string)
    ensures forall k :: 0 <= k < |Split(s)| ==> IsWord(Split(s)[k])
    decreases |s|
  {
    var i := FirstWhitespace(s);
    if i == 0 && s != [] {
      SplitYieldsWords(s[1..]);
      assert Split(s) == Split(s[1..]);
    } else if 0 < i < |s| {
      SplitYieldsWords(s[i + 1..]);
      var rest := Split(s[i + 1..]);
      assert Split(s) == [s[..i]] + rest;
      forall k | 0 <= k < |Split(s)| ensures IsWord(Split(s)[k]) {
        if k > 0 {
          assert Split(s)[k] == rest[k - 1];
        }
      }
    }
  }

  lemma {:induction false} SplitOfWord(w: string)
    requires IsWord(w)
    ensures Split(w) == [w]
  {
    assert FirstWhitespace(w) == |w|;
  }

  /** Splitting a `' '`-joined string splits each part. */
  lemma {:induction false} SplitJoin(parts: seq<string>)
    ensures Split(Join(" ", parts)) == Flatten(Map(Split, parts))
  {
    if parts == [] {
      assert FirstWhitespace([]) == 0;
    } else if |parts| == 1 {
      assert Flatten(Map(Split, parts)) == Split(parts[0]) + Flatten([]);
    } else {
      SplitJoin(parts[1..]);
      SplitAroundWhitespace(parts[0], ' ', Join(" ", parts[1..]));
      assert parts[0] + " " + Join(" ", parts[1..]) == parts[0] + [' '] + Join(" ", parts[1..]);
      assert Map(Split, parts)[1..] == Map(Split, parts[1..]);
    }
  }

  /** `' '.join` followed by `split()` gives back any list of words. */
  lemma {:induction false} SplitJoinRoundTrip(words: seq<string>)
    requires forall k :: 0 <= k < |words| ==> IsWord(words[k])
    ensures Split(Join(" ", words)) == words
  {
    SplitJoin(words);
    FlattenSplitOfWords(words);
  }

  lemma {:induction false} FlattenSplitOfWords(words: seq<string>)
    requires forall k :: 0 <= k < |words| ==> IsWord(words[k])
    ensures Flatten(Map(Split, words)) == words
  {
    if words != [] {
      SplitOfWord(words[0]);
      FlattenSplitOfWords(words[1..]);
      assert Map(Split, words)[1..] == Map(Split, words[1..]);
      assert words == [words[0]] + words[1..];
    }
  }

  lemma {:induction false} SplitNil()
    ensures Split([]) == []
  {
    assert FirstWhitespace([]) == 0;
  }

  lemma {:induction false} SplitLeadingWhitespace(c: char, t: string)
    requires IsWhitespace(c)
    ensures Split([c] + t) == Split(t)
  {
    assert FirstWhitespace([c] + t) == 0;
    assert ([c] + t)[1..] == t;
  }

  lemma {:induction false} SplitWhitespacePrefix(p: string, t: string)
    requires AllWhitespace(p)
    ensures Split(p + t) == Split(t)
  {
    if p == [] {
      assert p + t == t;
    } else {
      assert p + t == [p[0]] + (p[1..] + t);
      SplitLeadingWhitespace(p[0], p[1..] + t);
      SplitWhitespacePrefix(p[1..], t);
    }
  }

  lemma {:induction false} SplitWhitespaceSuffix(t: string, q: string)
    requires AllWhitespace(q)
    ensures Split(t + q) == Split(t)
  {
    if q == [] {
      assert t + q == t;
    } else {
      assert t + q == t + [q[0]] + q[1..];
      SplitAroundWhitespace(t, q[0], q[1..]);
      SplitWhitespacePrefix(q[1..], []);
      assert q[1..] + [] == q[1..];
      SplitNil();
    }
  }

  /** Whitespace around a slice carries no word. */
  lemma {:induction false} SplitMiddle(s: string, i: nat, j: nat)
    requires i <= j <= |s|
    requires AllWhitespace(s[..i]) && AllWhitespace(s[j..])
    ensures Split(s) == Split(s[i..j])
  {
    var x, m, y := s[..i], s[i..j], s[j..];
    assert s == x + (m + y);
    SplitWhitespacePrefix(x, m + y);
    SplitWhitespaceSuffix(m, y);
  }

  /** `strip()` removes no word. */
  lemma {:induction false} SplitStrip(s: string)
    ensures Split(Strip(s)) == Split(s)
  {
    var i, j := StripStart(s), StripEnd(s);
    if i < j {
      SplitMiddle(s, i, j);
    } else {
      assert AllWhitespace(s[..|s|]) by {
        assert i == |s|;
      }
      assert AllWhitespace(s[|s|..]);
      SplitMiddle(s, |s|, |s|);
      SplitNil();
    }
  }

  lemma {:induction false} FlattenMapSplitCons(x: string, rest: seq<string>)
    ensures Flatten(Map(Split, [x] + rest)) == Split(x) + Flatten(Map(Split, rest))
  {
    assert Map(Split, [x] + rest) == [Split(x)] + Map(Split, rest);
    assert ([Split(x)] + Map(Split, rest))[1..] == Map(Split, rest);
  }

  /** Splitting around a boundary of one or two whitespace characters. */
  lemma {:induction false} SplitAroundBoundary(s: string, i: nat, k: nat)
    requires i < k <= |s| && k <= i + 2
    requires forall m :: i <= m < k ==> IsWhitespace(s[m])
    ensures Split(s) == Split(s[..i]) + Split(s[k..])
  {
    assert s == s[..i] + [s[i]] + s[i + 1..];
    SplitAroundWhitespace(s[..i], s[i], s[i + 1..]);
    if k == i + 2 {
      assert s[i + 1..] == [s[i + 1]] + s[k..];
      SplitLeadingWhitespace(s[i + 1], s[k..]);
    }
  }

  /** One step of `splitlines()`: the first line, then the text after its boundary. */
  lemma {:induction false} SplitLinesStep(s: string) returns (i: nat, k: nat)
    requires s != [] && FirstLineBreak(s) < |s|
    ensures i < k <= |s| && k <= i + 2
    ensures forall m :: i <= m < k ==> IsWhitespace(s[m])
    ensures SplitLines(s) == [s[..i]] + SplitLines(s[k..])
  {
    i := FirstLineBreak(s);
    k := if s[i] == '\r' && i + 1 < |s| && s[i + 1] == '\n' then i + 2 else i + 1;
    LineBreakIsWhitespace(s[i]);
    forall m | i <= m < k ensures IsWhitespace(s[m]) {
      if m == i + 1 {
        assert s[m] == '\n';
      }
    }
  }

  lemma LineBreakIsWhitespace(c: char)
    requires IsLineBreak(c)
    ensures IsWhitespace(c)
  {
  }

  /** `splitlines()` only breaks at whitespace: the words of the lines are the words of the text. */
  lemma {:induction false} SplitLinesWords(s: string)
    ensures Flatten(Map(Split, SplitLines(s))) == Split(s)
    decreases |s|
  {
    if s == [] {
      SplitNil();
    } else if FirstLineBreak(s) == |s| {
      assert SplitLines(s) == [s] + [];
      FlattenMapSplitCons(s, []);
    } else {
      var i, k := SplitLinesStep(s);
      SplitLinesWords(s[k..]);
      SplitAroundBoundary(s, i, k);
      FlattenMapSplitCons(s[..i], SplitLines(s[k..]));
    }
  }

  /** Dropping empty lines removes no word. */
  lemma {:induction false} DropEmptyWords(lines: seq<string>)
    ensures Flatten(Map(Split, Filter(NonEmpty, lines))) == Flatten(Map(Split, lines))
  {
    if lines != [] {
      DropEmptyWords(lines[1..]);
      assert Map(Split, lines)[1..] == Map(Split, lines[1..]);
      if lines[0] == [] {
        assert FirstWhitespace(lines[0]) == 0;
        assert Filter(NonEmpty, lines) == Filter(NonEmpty, lines[1..]);
      } else {
        var f := Filter(NonEmpty, lines[1..]);
        assert Filter(NonEmpty, lines) == [lines[0]] + f;
        assert Map(Split, [lines[0]] + f) == [Split(lines[0])] + Map(Split, f);
        assert ([Split(lines[0])] + Map(Split, f))[1..] == Map(Split, f);
      }
    }
  }

  /** Stripping every line removes no word. */
  lemma {:induction false} StripEachWords(lines: seq<string>)
    ensures Flatten(Map(Split, Map(Strip, lines))) == Flatten(Map(Split, lines))
  {
    if lines != [] {
      StripEachWords(lines[1..]);
      SplitStrip(lines[0]);
      assert Map(Strip, lines)[1..] == Map(Strip, lines[1..]);
      assert Map(Split, Map(Strip, lines))[1..] == Map(Split, Map(Strip, lines[1..]));
      assert Map(Split, lines)[1..] == Map(Split, lines[1..]);
    }
  }

  /** Each piece but the last is non-empty and ends in whitespace. */
  predicate Terminated(pieces: seq<string>)
  {
    forall k :: 0 <= k < |pieces| - 1 ==> pieces[k] != [] && IsWhitespace(pieces[k][|pieces[k]| - 1])
  }

  /** Concatenating pieces that each end in whitespace (but the last) keeps every piece's words. */
  lemma {:induction false} SplitFlattenTerminated(pieces: seq<string>)
    requires Terminated(pieces)
    ensures Split(Flatten(pieces)) == Flatten(Map(Split, pieces))
  {
    if pieces == [] {
      SplitNil();
    } else if |pieces| == 1 {
      assert Flatten(pieces) == pieces[0] + Flatten([]);
      FlattenMapSplitCons(pieces[0], []);
      assert pieces[0] + [] == pieces[0];
      SplitNil();
    } else {
      var p, rest := pieces[0], pieces[1..];
      assert Terminated(rest) by {
        forall k | 0 <= k < |rest| - 1 ensures rest[k] != [] && IsWhitespace(rest[k][|rest[k]| - 1]) {
          assert rest[k] == pieces[k + 1];
        }
      }
      SplitFlattenTerminated(rest);
      assert pieces == [p] + rest;
      FlattenMapSplitCons(p, rest);
      SplitTerminated(p, Flatten(rest));
    }
  }

  lemma {:induction false} SplitTrailingWhitespace(a: string, c: char)
    requires IsWhitespace(c)
    ensures Split(a + [c]) == Split(a)
  {
    assert a + [c] == a + [c] + [];
    SplitAroundWhitespace(a, c, []);
    SplitNil();
  }

  lemma {:induction false} SplitTerminated(p: string, t: string)
    requires p != [] && IsWhitespace(p[|p| - 1])
    ensures Split(p + t) == Split(p) + Split(t)
  {
    var a, c := p[..|p| - 1], p[|p| - 1];
    calc {
      Split(p + t);
      { assert p + t == a + [c] + t; }
      Split(a + [c] + t);
      { SplitAroundWhitespace(a, c, t); }
      Split(a) + Split(t);
      { SplitTrailingWhitespace(a, c); assert p == a + [c]; }
      Split(p) + Split(t);
    }
  }

  lemma {:induction false} TranslateNoCarriageReturn(p: string, q: string)
    requires forall k :: 0 <= k < |p| ==> p[k] != '\r'
    ensures TranslateNewlines(p + q) == p + TranslateNewlines(q)
  {
    if p != [] {
      assert (p + q)[0] == p[0];
      assert (p + q)[1..] == p[1..] + q;
      TranslateNoCarriageReturn(p[1..], q);
    } else {
      assert p + q == q;
    }
  }

  /** Universal-newline decoding only rewrites whitespace: the words are unchanged. */
  lemma {:induction false} SplitTranslateNewlines(raw: string)
    ensures Split(TranslateNewlines(raw)) == Split(raw)
    decreases |raw|
  {
    var i := FirstCarriageReturn(raw);
    if i == |raw| {
      TranslateNoCarriageReturn(raw, []);
      assert raw + [] == raw;
    } else {
      var k := if i + 1 < |raw| && raw[i + 1] == '\n' then i + 2 else i + 1;
      calc {
        Split(TranslateNewlines(raw));
        { TranslateStep(raw, i, k); }
        Split(raw[..i] + ['\n'] + TranslateNewlines(raw[k..]));
        { SplitAroundWhitespace(raw[..i], '\n', TranslateNewlines(raw[k..])); }
        Split(raw[..i]) + Split(TranslateNewlines(raw[k..]));
        { SplitTranslateNewlines(raw[k..]); }
        Split(raw[..i]) + Split(raw[k..]);
        { SplitAroundBoundary(raw, i, k); }
        Split(raw);
      }
    }
  }

  lemma {:induction false} TranslateStep(raw: string, i: nat, k: nat)
    requires i == FirstCarriageReturn(raw) < |raw|
    requires k == if i + 1 < |raw| && raw[i + 1] == '\n' then i + 2 else i + 1
    ensures TranslateNewlines(raw) == raw[..i] + ['\n'] + TranslateNewlines(raw[k..])
  {
    assert raw == raw[..i] + raw[i..];
    TranslateNoCarriageReturn(raw[..i], raw[i..]);
    TranslateAtCarriageReturn(raw[i..], k - i);
    assert raw[i..][k - i..] == raw[k..];
  }

  lemma {:induction false} TranslateAtCarriageReturn(s: string, k: nat)
    requires s != [] && s[0] == '\r'
    requires k == if 1 < |s| && s[1] == '\n' then 2 else 1
    ensures TranslateNewlines(s) == "\n" + TranslateNewlines(s[k..])
  {
  }

  function FirstCarriageReturn(s: string): (i: nat)
    ensures i <= |s|
    ensures forall k :: 0 <= k < i ==> s[k] != '\r'
    ensures i < |s| ==> s[i] == '\r'
  {
    if s == [] || s[0] == '\r' then 0 else 1 + FirstCarriageReturn(s[1..])
  }

  /** The lines a text file yields, rejoined by `split()`, hold exactly the file's words. */
  lemma {:induction false} FileLinesWords(raw: string)
    ensures Flatten(Map(Split, FileLines(raw))) == Split(raw)
  {
    var lines := FileLines(raw);
    forall k | 0 <= k < |lines| - 1
      ensures lines[k] != [] && IsWhitespace(lines[k][|lines[k]| - 1])
    {
    }
    SplitFlattenTerminated(lines);
    SplitTranslateNewlines(raw);
  }
}
