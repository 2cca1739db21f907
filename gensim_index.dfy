/**
 * Term extraction of `gensim_demo/index.py`: punctuation normalisation, the
 * lazily built stop list, stop-word filtering and stemming, the text each
 * kind of document yields, the corpus over a docs folder and the
 * occurrence-count filter of the example corpus.
 */
module GensimIndex {
  import opened Wrappers
  import opened Seqs
  import opened Text
  import opened Words
  import opened Listing
  import opened XmlTree
  import opened Ingestion

  // ---------------------------------------------------------------- normalize

  /** The 26 characters `normalize` turns into spaces. */
  const Punctuation: string := ",;:.-/\\(){}[]\U{BF}?\U{A1}!\"#&'+*%$_"

  predicate IsPunctuation(c: char)
  {
    || c == ',' || c == ';' || c == ':' || c == '.' || c == '-' || c == '/' || c == '\\'
    || c == '(' || c == ')' || c == '{' || c == '}' || c == '[' || c == ']'
    || c == '\U{BF}' || c == '?' || c == '\U{A1}' || c == '!' || c == '"' || c == '#'
    || c == '&' || c == '\'' || c == '+' || c == '*' || c == '%' || c == '$' || c == '_'
  }

  predicate HasNoPunctuation(s: string)
  {
    forall k :: 0 <= k < |s| ==> !IsPunctuation(s[k])
  }

  /** The translation table of `normalize`: each punctuation character becomes a space. */
  function Unpunctuate(c: char): char
  {
    if IsPunctuation(c) then ' ' else c
  }

  function Unpunctuated(s: string): (r: string)
    ensures |r| == |s|
    ensures HasNoPunctuation(r)
  {
    Map(Unpunctuate, s)
  }

  /** `word.translate(table).strip()` */
  function Normalize(word: string): (r: string)
    ensures HasNoPunctuation(r)
    ensures Trimmed(r)
  {
    var t := Unpunctuated(word);
    assert forall c :: c in t ==> !IsPunctuation(c);
    Strip(t)
  }

  /** The table has 26 distinct entries, and they are exactly the characters blanked. */
  lemma PunctuationTable()
    ensures |Punctuation| == 26
    ensures forall i, j :: 0 <= i < j < |Punctuation| ==> Punctuation[i] != Punctuation[j]
    ensures forall c :: IsPunctuation(c) <==> c in Punctuation
  {
  }

  /** Every character but the 26 is kept: a text without them and without outer whitespace is left alone. */
  lemma NormalizeFixed(word: string)
    requires HasNoPunctuation(word) && Trimmed(word)
    ensures Normalize(word) == word
  {
    assert Unpunctuated(word) == word;
  }

  /** `normalize(normalize(w)) == normalize(w)` */
  lemma NormalizeIdempotent(word: string)
    ensures Normalize(Normalize(word)) == Normalize(word)
  {
    NormalizeFixed(Normalize(word));
  }

  /** Normalising splits words at punctuation and nowhere else. */
  lemma NormalizeWords(word: string)
    ensures Split(Normalize(word)) == Split(Unpunctuated(word))
  {
    SplitStrip(Unpunctuated(word));
  }

  // ---------------------------------------------------------------- the stop list

  const EnglishStopWords: set<string> := {"for", "a", "of", "the", "and", "to", "in"}
  const SpanishStopWords: set<string> :=
    {"para", "un", "una", "unos", "unas", "de", "el", "la", "lo", "los", "las", "y", "a", "en"}

  /** The list `get_stop_list` builds for `LANGUAGE`; none for another language. */
  function StopListFor(language: string): Option<set<string>>
  {
    if language == "english" then Some(EnglishStopWords)
    else if language == "spanish" then Some(SpanishStopWords)
    else None
  }

  /** What `get_stop_list` returns given the cached `STOP_LIST` and `LANGUAGE`. */
  function StopList(cached: Option<set<string>>, language: string): (r: Option<set<string>>)
    ensures cached.Some? ==> r == cached
    ensures cached.None? ==> r == StopListFor(language)
  {
    if cached.Some? then cached else StopListFor(language)
  }

  /**
   * Once a list is cached, later calls return it whatever the language has
   * become; a call for an unknown language caches nothing.
   */
  lemma StopListSticks(cached: Option<set<string>>, language: string, later: string)
    ensures StopList(cached, language).Some? ==> StopList(StopList(cached, language), later) == StopList(cached, language)
    ensures language != "english" && language != "spanish" ==> StopList(None, language) == None
  {
  }

  /** The module globals `LANGUAGE` and `STOP_LIST`. */
  class StopListCache {
    var language: string
    var stopList: Option<set<string>>

    /** The state at import: `LANGUAGE` as configured, no list built yet. */
    constructor(language: string)
      ensures this.language == language && stopList == None
    {
      this.language := language;
      stopList := None;
    }

    /** `get_stop_list`: the cached list, or the one for `LANGUAGE`, which is then cached. */
    method GetStopList() returns (r: Option<set<string>>)
      modifies this
      ensures language == old(language)
      ensures r == StopList(old(stopList), language) && stopList == r
    {
      if stopList.Some? {
        return stopList;
      }
      if language == "english" {
        stopList := Some(EnglishStopWords);
      } else if language == "spanish" {
        stopList := Some(SpanishStopWords);
      }
      return stopList;
    }
  }

  // ---------------------------------------------------------------- generate_terms

  function NotStopWord(stop: set<string>): string -> bool
  {
    (word: string) => word !in stop
  }

  /** `[word for word in text.lower().split() if word not in stoplist]` for a built list. */
  function StopFiltered(stop: set<string>, text: string): seq<string>
  {
    Filter(NotStopWord(stop), Split(Lower(text)))
  }

  /** The comprehension of `generate_terms`: testing membership in `None` raises as soon as there is a word. */
  function Terms(stop: Option<set<string>>, text: string): Result<seq<string>, string>
  {
    if stop.Some? then Success(StopFiltered(stop.value, text))
    else if Split(Lower(text)) == [] then Success([])
    else Failure("argument of type 'NoneType' is not iterable")
  }

  /**
   * The terms are the lower-cased words in their order, minus the stop words;
   * filtering fails exactly when there is no list and some word to test.
   */
  lemma TermsOf(stop: Option<set<string>>, text: string)
    ensures var words, r := Split(Lower(text)), Terms(stop, text);
      && (r.Failure? <==> stop.None? && words != [])
      && (r.Success? ==> IsSubsequence(r.value, words))
      && (r.Success? && stop.Some? ==> forall w :: w in r.value <==> w in words && w !in stop.value)
      && (r.Success? && stop.Some? ==> forall w :: Count(r.value, w) == (if w in stop.value then 0 else Count(words, w)))
      && (stop.None? && r.Success? ==> r.value == [])
  {
    var words := Split(Lower(text));
    if stop.Some? {
      FilterIsSubsequence(NotStopWord(stop.value), words);
      forall w ensures w in StopFiltered(stop.value, text) <==> w in words && w !in stop.value {
        FilterMembership(NotStopWord(stop.value), words, w);
      }
      forall w ensures Count(StopFiltered(stop.value, text), w) == (if w in stop.value then 0 else Count(words, w)) {
        FilterCount(NotStopWord(stop.value), words, w);
      }
    }
  }

  /** `generate_terms` with the stemmer of the configured language as a per-word function. */
  function GeneratedTerms(stop: Option<set<string>>, text: string, stemming: bool, stem: string -> string)
    : Result<seq<string>, string>
  {
    match Terms(stop, text)
    case Failure(e) => Failure(e)
    case Success(words) => if stemming then Success(Map(stem, words)) else Success(words)
  }

  /**
   * With stemming, the generated terms are the stems, in order, of the text's
   * lower-cased words without the stop words, each kept word with all its
   * occurrences; without a list they fail exactly when there is some word.
   */
  lemma StemmedTerms(stop: Option<set<string>>, text: string, stem: string -> string)
    ensures var r, words := GeneratedTerms(stop, text, true, stem), Split(Lower(text));
      && (r.Failure? <==> stop.None? && words != [])
      && (r.Success? && stop.None? ==> r.value == [])
      && (r.Success? && stop.Some? ==>
            exists kept :: (r.value == Map(stem, kept) && IsSubsequence(kept, words)
              && forall w :: Count(kept, w) == (if w in stop.value then 0 else Count(words, w))))
  {
    TermsOf(stop, text);
    if stop.Some? {
      var kept := StopFiltered(stop.value, text);
      assert GeneratedTerms(stop, text, true, stem).value == Map(stem, kept);
    }
  }

  /** `apply_stemming`: the loop appending the stem of each word. */
  method ApplyStemming(stem: string -> string, words: seq<string>) returns (stems: seq<string>)
    ensures stems == Map(stem, words)
  {
    stems := [];
    for i := 0 to |words|
      invariant stems == Map(stem, words[..i])
    {
      stems := stems + [stem(words[i])];
    }
    assert words[..|words|] == words;
  }

  /** `generate_terms(text, stemming)`: builds the stop list if needed, filters, then stems. */
  method GenerateTerms(cache: StopListCache, text: string, stemming: bool, stem: string -> string)
    returns (r: Result<seq<string>, string>)
    modifies cache
    ensures cache.language == old(cache.language)
    ensures cache.stopList == StopList(old(cache.stopList), cache.language)
    ensures r == GeneratedTerms(cache.stopList, text, stemming, stem)
  {
    var stop := cache.GetStopList();
    r := Terms(stop, text);
    if stemming && r.Success? {
      var stems := ApplyStemming(stem, r.value);
      r := Success(stems);
    }
  }

  // ---------------------------------------------------------------- document text

  /** `' '.join(normalize(line) for line in fp if line)` */
  function TextFileText(raw: string): string
  {
    Join(" ", Map(Normalize, Filter(NonEmpty, FileLines(raw))))
  }

  /** `' '.join(normalize(chunk) for line in lines for chunk in line.split())` over the stripped lines */
  function XmlFileText(root: Element): string
  {
    Join(" ", Map(Normalize, Flatten(Map(Split, Map(Strip, SplitLines(RawText(root)))))))
  }

  /** A text file gives one normalised item per line it yields: the `if line` test drops nothing. */
  lemma TextFileItems(raw: string)
    ensures TextFileText(raw) == Join(" ", Map(Normalize, FileLines(raw)))
  {
    FilterAll(NonEmpty, FileLines(raw));
  }

  /** An XML file gives one normalised item per whitespace-separated chunk of its text. */
  lemma XmlFileItems(root: Element)
    ensures XmlFileText(root) == Join(" ", Map(Normalize, Split(RawText(root))))
  {
    StripEachWords(SplitLines(RawText(root)));
    SplitLinesWords(RawText(root));
  }

  /** Joining items without punctuation by spaces adds none. */
  lemma {:induction false} JoinUnpunctuated(parts: seq<string>)
    requires forall k :: 0 <= k < |parts| ==> HasNoPunctuation(parts[k])
    ensures HasNoPunctuation(Join(" ", parts))
  {
    if |parts| > 1 {
      JoinUnpunctuated(parts[1..]);
      var rest := Join(" ", parts[1..]);
      var t := parts[0] + " " + rest;
      forall k | 0 <= k < |t| ensures !IsPunctuation(t[k]) {
        if k < |parts[0]| {
          assert t[k] == parts[0][k];
        } else if k > |parts[0]| {
          assert t[k] == rest[k - |parts[0]| - 1];
        }
      }
    }
  }

  lemma JoinNormalized(items: seq<string>)
    ensures HasNoPunctuation(Join(" ", Map(Normalize, items)))
  {
    JoinUnpunctuated(Map(Normalize, items));
  }

  /** The text of either kind of document contains none of the 26 characters. */
  lemma DocumentTextUnpunctuated(raw: string, root: Element)
    ensures HasNoPunctuation(TextFileText(raw))
    ensures HasNoPunctuation(XmlFileText(root))
  {
    TextFileItems(raw);
    JoinNormalized(FileLines(raw));
    XmlFileItems(root);
    JoinNormalized(Split(RawText(root)));
  }

  // ---------------------------------------------------------------- words of a text file

  lemma UnpunctuatedTail(s: string)
    requires s != []
    ensures Unpunctuated(s)[1..] == Unpunctuated(s[1..])
  {
  }

  /** Line breaks are not punctuation, and nothing else is blanked into one. */
  lemma LineBreaksKept(c: char)
    ensures Unpunctuate(c) == '\r' <==> c == '\r'
    ensures Unpunctuate(c) == '\n' <==> c == '\n'
  {
    assert !IsPunctuation('\r') && !IsPunctuation('\n');
  }

  lemma UnpunctuatedCons(c: char, t: string)
    ensures Unpunctuated([c] + t) == [Unpunctuate(c)] + Unpunctuated(t)
  {
  }

  /** Blanking punctuation commutes with universal-newline decoding: neither line break is punctuation. */
  lemma {:induction false} UnpunctuatedTranslate(raw: string)
    ensures Unpunctuated(TranslateNewlines(raw)) == TranslateNewlines(Unpunctuated(raw))
    decreases |raw|
  {
    if raw != [] {
      var u := Unpunctuated(raw);
      LineBreaksKept(raw[0]);
      if raw[0] == '\r' {
        var k := if |raw| > 1 && raw[1] == '\n' then 2 else 1;
        if |raw| > 1 {
          LineBreaksKept(raw[1]);
        }
        assert Unpunctuated(raw[k..]) == u[k..];
        UnpunctuatedTranslate(raw[k..]);
        TranslateAtCarriageReturn(raw, k);
        TranslateAtCarriageReturn(u, k);
        UnpunctuatedCons('\n', TranslateNewlines(raw[k..]));
      } else {
        UnpunctuatedTail(raw);
        UnpunctuatedTranslate(raw[1..]);
        UnpunctuatedCons(raw[0], TranslateNewlines(raw[1..]));
      }
    }
  }

  /** Blanking punctuation line by line blanks it in the whole text. */
  lemma {:induction false} UnpunctuatedFlatten(lines: seq<string>)
    ensures Flatten(Map(Unpunctuated, lines)) == Unpunctuated(Flatten(lines))
  {
    if lines != [] {
      UnpunctuatedFlatten(lines[1..]);
      assert Map(Unpunctuated, lines) == [Unpunctuated(lines[0])] + Map(Unpunctuated, lines[1..]);
      assert Flatten(lines) == lines[0] + Flatten(lines[1..]);
      MapAppend(Unpunctuate, lines[0], Flatten(lines[1..]));
    }
  }

  /** Per item, normalising keeps the words of the blanked item. */
  lemma {:induction false} NormalizeEachWords(items: seq<string>)
    ensures Flatten(Map(Split, Map(Normalize, items))) == Flatten(Map(Split, Map(Unpunctuated, items)))
  {
    if items != [] {
      NormalizeEachWords(items[1..]);
      NormalizeWords(items[0]);
      assert Map(Normalize, items) == [Normalize(items[0])] + Map(Normalize, items[1..]);
      assert Map(Unpunctuated, items) == [Unpunctuated(items[0])] + Map(Unpunctuated, items[1..]);
      FlattenMapSplitCons(Normalize(items[0]), Map(Normalize, items[1..]));
      FlattenMapSplitCons(Unpunctuated(items[0]), Map(Unpunctuated, items[1..]));
    }
  }

  /** The lines of a file, blanked, still end in their line terminators. */
  lemma BlankedLinesTerminated(raw: string)
    ensures Terminated(Map(Unpunctuated, FileLines(raw)))
  {
    var lines := FileLines(raw);
    var blanked := Map(Unpunctuated, lines);
    forall k | 0 <= k < |blanked| - 1 ensures blanked[k] != [] && IsWhitespace(blanked[k][|blanked[k]| - 1]) {
      assert lines[k][|lines[k]| - 1] == '\n';
    }
  }

  /**
   * A text file's corpus text holds exactly the file's words once its
   * punctuation has become spaces: `normalize` splits words at punctuation
   * and the `' '` join only separates lines.
   */
  lemma TextFileWords(raw: string)
    ensures Split(TextFileText(raw)) == Split(Unpunctuated(raw))
  {
    var lines := FileLines(raw);
    TextFileItems(raw);
    SplitJoin(Map(Normalize, lines));
    NormalizeEachWords(lines);
    BlankedLinesTerminated(raw);
    SplitFlattenTerminated(Map(Unpunctuated, lines));
    UnpunctuatedFlatten(lines);
    UnpunctuatedTranslate(raw);
    SplitTranslateNewlines(Unpunctuated(raw));
  }

  // ---------------------------------------------------------------- MyCorpus

  /**
   * The terms `MyCorpus` yields for one directory entry: names ending in
   * `.xml` are parsed (a document that does not parse raises), every other
   * name is read as text; then `generate_terms` with stemming.
   */
  function DocumentTerms(stop: Option<set<string>>, name: string, file: DocFile, stem: string -> string)
    : Result<seq<string>, string>
  {
    if EndsWith(name, ".xml") then
      if file.tree.None? then Failure("not well-formed XML: " + name)
      else GeneratedTerms(stop, XmlFileText(file.tree.value), true, stem)
    else GeneratedTerms(stop, TextFileText(file.text), true, stem)
  }

  /** The per-entry terms over the folder's files; an entry without a file cannot be opened. */
  function EntryTerms(stop: Option<set<string>>, files: map<string, DocFile>, stem: string -> string)
    : string -> Result<seq<string>, string>
  {
    (name: string) =>
      if name in files then DocumentTerms(stop, name, files[name], stem)
      else Failure("No such file or directory: " + name)
  }

  lemma EntryTermsAt(stop: Option<set<string>>, files: map<string, DocFile>, stem: string -> string, name: string)
    requires name in files
    ensures EntryTerms(stop, files, stem)(name) == DocumentTerms(stop, name, files[name], stem)
  {
  }

  /** The results of `each` over `names` in order; the first failure ends the iteration. */
  function Collect(each: string -> Result<seq<string>, string>, names: seq<string>): Result<seq<seq<string>>, string>
  {
    if names == [] then Success([])
    else
      match Collect(each, names[..|names| - 1])
      case Failure(e) => Failure(e)
      case Success(docs) =>
        match each(names[|names| - 1])
        case Failure(e) => Failure(e)
        case Success(terms) => Success(docs + [terms])
  }

  /** A complete iteration yields one result per name, at the name's position. */
  lemma {:induction false} CollectAt(each: string -> Result<seq<string>, string>, names: seq<string>)
    ensures var r := Collect(each, names);
      r.Success? ==> |r.value| == |names| && forall k :: 0 <= k < |names| ==> each(names[k]) == Success(r.value[k])
  {
    if names != [] {
      var init := names[..|names| - 1];
      CollectAt(each, init);
      var r := Collect(each, names);
      if r.Success? {
        forall k | 0 <= k < |names| ensures each(names[k]) == Success(r.value[k]) {
          if k < |init| {
            assert names[k] == init[k];
          }
        }
      }
    }
  }

  /** The iteration fails exactly when some name's result is a failure. */
  lemma {:induction false} CollectFails(each: string -> Result<seq<string>, string>, names: seq<string>)
    ensures Collect(each, names).Failure? <==> exists k :: 0 <= k < |names| && each(names[k]).Failure?
  {
    if names != [] {
      var init := names[..|names| - 1];
      CollectFails(each, init);
      if Collect(each, init).Failure? {
        var k :| 0 <= k < |init| && each(init[k]).Failure?;
        assert names[k] == init[k];
      } else if Collect(each, names).Success? {
        CollectAt(each, names);
      }
    }
  }

  /** Once the names up to `n` fail, the whole listing fails the same way. */
  lemma {:induction false} CollectStops(each: string -> Result<seq<string>, string>, names: seq<string>, n: nat)
    requires n <= |names| && Collect(each, names[..n]).Failure?
    ensures Collect(each, names) == Collect(each, names[..n])
    decreases |names|
  {
    if n < |names| {
      var init := names[..|names| - 1];
      assert init[..n] == names[..n];
      CollectStops(each, init, n);
    } else {
      assert names[..n] == names;
    }
  }

  /** One more name: a success extends the results, a failure ends the iteration with it. */
  /** After a first entry that succeeds, the iteration goes on with the remaining names. */
  lemma {:induction false} CollectCons(each: string -> Result<seq<string>, string>, names: seq<string>)
    requires names != [] && each(names[0]).Success?
    ensures Collect(each, names) == match Collect(each, names[1..])
      case Failure(e) => Failure(e)
      case Success(docs) => Success([each(names[0]).value] + docs)
    decreases |names|
  {
    var n := |names|;
    var t := each(names[0]).value;
    if n == 1 {
      assert names[..n - 1] == [] && names[1..] == [];
      var none: seq<seq<string>> := [];
      assert none + [t] == [t] + none;
    } else {
      var init := names[..n - 1];
      CollectCons(each, init);
      assert init[0] == names[0] && init[1..] == names[1..][..n - 2];
      assert names[1..][n - 2] == names[n - 1];
      match Collect(each, init[1..])
      case Failure(e) =>
      case Success(ds) =>
        match each(names[n - 1])
        case Failure(e) =>
        case Success(u) =>
          assert [t] + ds + [u] == [t] + (ds + [u]);
    }
  }

  lemma CollectNext(each: string -> Result<seq<string>, string>, names: seq<string>, i: nat, docs: seq<seq<string>>)
    requires i < |names| && Collect(each, names[..i]) == Success(docs)
    ensures each(names[i]).Success? ==> Collect(each, names[..i + 1]) == Success(docs + [each(names[i]).value])
    ensures each(names[i]).Failure? ==> Collect(each, names) == Failure(each(names[i]).error)
  {
    assert names[..i + 1][..i] == names[..i];
    if each(names[i]).Failure? {
      CollectStops(each, names, i + 1);
    }
  }

  /** `MyCorpus(folder)` iterated to the end: `os.listdir` raises for a missing folder. */
  function Corpus(stop: Option<set<string>>, folder: DocsFolder, stem: string -> string): Result<seq<seq<string>>, string>
  {
    match folder
    case Missing => Failure("No such file or directory")
    case Present(listing, files) => Collect(EntryTerms(stop, files, stem), Sort(listing))
  }

  /**
   * Iterating a listing in sorted order yields, when complete, one result per
   * directory entry, the k-th for the k-th name in ascending order.  `Corpus`
   * is this with `each` the `.xml`/text dispatch of `EntryTerms`.
   */
  lemma CollectSorted(each: string -> Result<seq<string>, string>, listing: seq<string>)
    ensures var names, r := Sort(listing), Collect(each, Sort(listing));
      && Sorted(names) && multiset(names) == multiset(listing)
      && (r.Success? ==>
            (|r.value| == |names| == |listing| && forall k :: 0 <= k < |names| ==> each(names[k]) == Success(r.value[k])))
  {
    var names := Sort(listing);
    CollectAt(each, names);
    assert |multiset(names)| == |names| && |multiset(listing)| == |listing|;
  }

  /** `MyCorpus.__iter__`: the generator loop over the sorted listing, collected. */
  method IterateCorpus(cache: StopListCache, folder: DocsFolder, stem: string -> string)
    returns (r: Result<seq<seq<string>>, string>)
    requires WellFormedFolder(folder)
    modifies cache
    ensures cache.language == old(cache.language)
    ensures folder.Present? && FirstReachesTerms(Sort(folder.listing), folder.files) ==>
      cache.stopList == StopList(old(cache.stopList), cache.language)
    ensures !(folder.Present? && FirstReachesTerms(Sort(folder.listing), folder.files)) ==>
      cache.stopList == old(cache.stopList)
    ensures r == Corpus(StopList(old(cache.stopList), cache.language), folder, stem)
  {
    if folder.Missing? {
      return Failure("No such file or directory");
    }
    ghost var stop := StopList(cache.stopList, cache.language);
    SortedFilesFor(folder.listing, folder.files);
    r := CollectEntries(cache, Sort(folder.listing), folder.files, stem, stop);
  }

  /** The loop of `MyCorpus.__iter__` over the given names, with `stop` the list `generate_terms` uses. */
  /**
   * Whether the first entry gets as far as `generate_terms`, and so fills the
   * stop-list cache: every entry but a malformed XML file does, and a
   * malformed one ends the iteration.
   */
  predicate FirstReachesTerms(names: seq<string>, files: map<string, DocFile>)
  {
    names != [] && names[0] in files && !(EndsWith(names[0], ".xml") && files[names[0]].tree.None?)
  }

  method CollectEntries(cache: StopListCache, names: seq<string>, files: map<string, DocFile>,
      stem: string -> string, ghost stop: Option<set<string>>)
    returns (r: Result<seq<seq<string>>, string>)
    requires FilesFor(names, files)
    requires StopList(cache.stopList, cache.language) == stop
    modifies cache
    ensures cache.language == old(cache.language)
    ensures StopList(cache.stopList, cache.language) == stop
    ensures FirstReachesTerms(names, files) ==> cache.stopList == stop
    ensures !FirstReachesTerms(names, files) ==> cache.stopList == old(cache.stopList)
    ensures r == Collect(EntryTerms(stop, files, stem), names)
  {
    ghost var each := EntryTerms(stop, files, stem);
    if names == [] {
      return Success([]);
    }
    // The first entry decides whether the cache gets filled.
    var first := DocumentStep(cache, names[0], files[names[0]], stem);
    EntryTermsAt(stop, files, stem, names[0]);
    assert names[..0] == [];
    CollectNext(each, names, 0, []);
    if first.Failure? {
      return Failure(first.error);
    }
    var rest := CollectRest(cache, names[1..], files, stem, stop);
    CollectCons(each, names);
    r := match rest
      case Failure(e) => Failure(e)
      case Success(docs) => Success([first.value] + docs);
  }

  /** The rest of the iteration, once the cache holds the stop list in force. */
  method CollectRest(cache: StopListCache, names: seq<string>, files: map<string, DocFile>,
      stem: string -> string, ghost stop: Option<set<string>>)
    returns (r: Result<seq<seq<string>>, string>)
    requires FilesFor(names, files)
    requires cache.stopList == stop && StopList(stop, cache.language) == stop
    modifies cache
    ensures cache.language == old(cache.language)
    ensures cache.stopList == stop
    ensures r == Collect(EntryTerms(stop, files, stem), names)
  {
    ghost var each := EntryTerms(stop, files, stem);
    var docs: seq<seq<string>> := [];
    var i := 0;
    while i < |names|
      invariant 0 <= i <= |names|
      invariant cache.language == old(cache.language)
      invariant cache.stopList == stop
      invariant Collect(each, names[..i]) == Success(docs)
    {
      var terms := DocumentStep(cache, names[i], files[names[i]], stem);
      EntryTermsAt(stop, files, stem, names[i]);
      CollectNext(each, names, i, docs);
      if terms.Failure? {
        return Failure(terms.error);
      }
      docs := docs + [terms.value];
      i := i + 1;
    }
    assert names[..i] == names;
    return Success(docs);
  }


  /** One turn of the `MyCorpus` loop: the suffix dispatch and `generate_terms`. */
  method DocumentStep(cache: StopListCache, name: string, file: DocFile, stem: string -> string)
    returns (terms: Result<seq<string>, string>)
    modifies cache
    ensures cache.language == old(cache.language)
    ensures old(cache.stopList).Some? ==> cache.stopList == old(cache.stopList)
    ensures EndsWith(name, ".xml") && file.tree.None? ==> cache.stopList == old(cache.stopList)
    ensures !(EndsWith(name, ".xml") && file.tree.None?) ==> cache.stopList == StopList(old(cache.stopList), cache.language)
    ensures terms == DocumentTerms(StopList(old(cache.stopList), cache.language), name, file, stem)
  {
    var text: string;
    if EndsWith(name, ".xml") {
      if file.tree.None? {
        return Failure("not well-formed XML: " + name);
      }
      text := XmlFileText(file.tree.value);
    } else {
      text := TextFileText(file.text);
    }
    terms := GenerateTerms(cache, text, true, stem);
  }

  // ---------------------------------------------------------------- get_example_corpus

  const ExampleDocuments: seq<string> := [
    "Human machine interface for lab abc computer applications",
    "A survey of user opinion of computer system response time",
    "The EPS user interface management system",
    "System and human system engineering testing of EPS",
    "Relation of user perceived response time to error measurement",
    "The generation of random binary unordered trees",
    "The intersection graph of paths in trees",
    "Graph minors IV Widths of trees and well quasi ordering",
    "Graph minors A survey"
  ]

  /** A `defaultdict(int)` read: absent tokens count zero. */
  function Frequency(freq: map<string, nat>, token: string): nat
  {
    if token in freq then freq[token] else 0
  }

  predicate Repeated(all: seq<string>, token: string)
  {
    Count(all, token) > 1
  }

  function RepeatedIn(all: seq<string>): string -> bool
  {
    (token: string) => Repeated(all, token)
  }

  /** `[[token for token in text if frequency[token] > 1] for text in texts]` with exact counts. */
  function KeepRepeated(texts: seq<seq<string>>): seq<seq<string>>
  {
    Map((text: seq<string>) => Filter(RepeatedIn(Flatten(texts)), text), texts)
  }

  /**
   * The filter keeps the number of documents and each document's token order,
   * and keeps a token exactly when it occurs more than once in the whole corpus.
   */
  lemma KeepRepeatedOf(texts: seq<seq<string>>)
    ensures var r := KeepRepeated(texts);
      && |r| == |texts|
      && (forall i :: 0 <= i < |texts| ==> IsSubsequence(r[i], texts[i]))
      && (forall i, t :: 0 <= i < |texts| ==> (t in r[i] <==> t in texts[i] && Count(Flatten(texts), t) > 1))
      && (forall i, t :: 0 <= i < |texts| ==>
            Count(r[i], t) == (if Count(Flatten(texts), t) > 1 then Count(texts[i], t) else 0))
  {
    var r := KeepRepeated(texts);
    forall i | 0 <= i < |texts| ensures IsSubsequence(r[i], texts[i]) {
      FilterIsSubsequence(RepeatedIn(Flatten(texts)), texts[i]);
    }
    forall i, t | 0 <= i < |texts| ensures t in r[i] <==> t in texts[i] && Count(Flatten(texts), t) > 1 {
      FilterMembership(RepeatedIn(Flatten(texts)), texts[i], t);
    }
    forall i, t | 0 <= i < |texts|
      ensures Count(r[i], t) == (if Count(Flatten(texts), t) > 1 then Count(texts[i], t) else 0)
    {
      FilterCount(RepeatedIn(Flatten(texts)), texts[i], t);
    }
  }

  /** The nested loops filling `frequency`. */
  method CountTokens(texts: seq<seq<string>>) returns (freq: map<string, nat>)
    ensures forall t :: Frequency(freq, t) == Count(Flatten(texts), t)
    ensures forall t :: t in freq <==> t in Flatten(texts)
  {
    freq := map[];
    ghost var seen: seq<string> := [];
    for i := 0 to |texts|
      invariant seen == Flatten(texts[..i])
      invariant forall t :: Frequency(freq, t) == Count(seen, t)
      invariant forall t :: t in freq ==> freq[t] > 0
    {
      for j := 0 to |texts[i]|
        invariant seen == Flatten(texts[..i]) + texts[i][..j]
        invariant forall t :: Frequency(freq, t) == Count(seen, t)
        invariant forall t :: t in freq ==> freq[t] > 0
      {
        var token := texts[i][j];
        forall t ensures Count(seen + [token], t) == Count(seen, t) + (if t == token then 1 else 0) {
          CountAppend(seen, [token], t);
          assert [token][1..] == [];
        }
        freq := freq[token := Frequency(freq, token) + 1];
        seen := seen + [token];
        assert texts[i][..j + 1] == texts[i][..j] + [token];
      }
      assert texts[i][..|texts[i]|] == texts[i];
      FlattenAppend(texts[..i], [texts[i]]);
      assert texts[..i + 1] == texts[..i] + [texts[i]];
      assert Flatten([texts[i]]) == texts[i] + Flatten([]);
    }
    assert texts[..|texts|] == texts;
    forall t ensures t in freq <==> t in Flatten(texts) {
      CountPositive(Flatten(texts), t);
    }
  }

  lemma {:induction false} FilterCongruent(p: string -> bool, q: string -> bool, s: seq<string>)
    requires forall x :: x in s ==> p(x) == q(x)
    ensures Filter(p, s) == Filter(q, s)
  {
    if s != [] {
      FilterCongruent(p, q, s[1..]);
    }
  }

  /** The example corpus for a built stop list. */
  function ExampleCorpusFor(stop: set<string>): seq<seq<string>>
  {
    KeepRepeated(Map((doc: string) => StopFiltered(stop, doc), ExampleDocuments))
  }

  /** The frequency count and the final comprehension of `get_example_corpus`. */
  method KeepFrequent(texts: seq<seq<string>>) returns (processed: seq<seq<string>>)
    ensures processed == KeepRepeated(texts)
  {
    var freq := CountTokens(texts);
    var keep := (token: string) => Frequency(freq, token) > 1;
    processed := Map((text: seq<string>) => Filter(keep, text), texts);
    forall i | 0 <= i < |texts| ensures processed[i] == KeepRepeated(texts)[i] {
      FilterCongruent(keep, RepeatedIn(Flatten(texts)), texts[i]);
    }
  }

  /**
   * `get_example_corpus`: filters the nine documents by the stop list, counts
   * every token and keeps the repeated ones.  Without a stop list the first
   * membership test raises.
   */
  method GetExampleCorpus(cache: StopListCache) returns (r: Result<seq<seq<string>>, string>)
    modifies cache
    ensures cache.language == old(cache.language)
    ensures cache.stopList == StopList(old(cache.stopList), cache.language)
    ensures cache.stopList.None? ==> r.Failure?
    ensures cache.stopList.Some? ==> r == Success(ExampleCorpusFor(cache.stopList.value))
  {
    var stop := cache.GetStopList();
    if stop.None? {
      return Failure("argument of type 'NoneType' is not iterable");
    }
    var texts := Map((doc: string) => StopFiltered(stop.value, doc), ExampleDocuments);
    var processed := KeepFrequent(texts);
    return Success(processed);
  }
}
