# Document ingestion and text preparation of an information-retrieval course

This project models the parts of the course repository that turn documents
into indexable text, and proves properties of that model.

**The two Whoosh indexers** are `Zaguan/index.py` and `whoosh_demo/index.py`.
`MyIndex.index_docs` walks a docs folder in sorted order. For each `.xml`
file it builds a record of metadata fields. Each field is the stripped texts
of the `.//{*}name` elements, joined by spaces. The record also holds the
document's text content and the file's modification stamp. Each `.txt` file
gives a `path`/`content`/`modified` record. The records go to a Whoosh writer,
which is then committed.

**The gensim demo** is `gensim_demo/index.py`. It covers:
- `normalize`, which turns 26 punctuation characters into spaces and strips;
- `get_stop_list`, with its module-level cache;
- `generate_terms` and `apply_stemming`;
- the text and XML readers;
- the `MyCorpus` iterator;
- `get_example_corpus`.

**The language-model helpers** cover:
- `cleanTexts` and the `maxNumTokens` expression of
  `languageModels/commonFunctions.py`;
- greedy decoding (`translate_example`) and word-level accuracy
  (`evaluate_translator_accuracy`) of
  `languageModels/textTranslator__TrainerTester.py`.

## Modules

| module | file | contents |
|---|---|---|
| `Wrappers` | wrappers.dfy | `Option`, `Result` |
| `Seqs` | seqs.dfy | `Map`, `Filter`, `Flatten`, `Count`, subsequences |
| `Text` | text.dfy | Python `str` semantics: `isspace`, `strip`, `split`, `' '.join`, `splitlines`, lines of a text-mode file, `lower` |
| `Words` | words.dfy | word-preservation lemmas about `split` |
| `Listing` | listing.dfy | Python string order and `sorted` |
| `HttpDate` | http_date.dfy | the `'%a, %d %b %Y %H:%M:%S +0000'` stamp and its inverse |
| `XmlTree` | xml_tree.dfy | ElementTree elements, `iter`, `findall('.//{*}name')`, `itertext` |
| `Ingestion` | ingestion.dfy | field extraction, content, records, and the `index_docs` loop as a function |
| `IndexWriting` | index_writer.dfy | the Whoosh writer (`add_document`, `commit`) as a class |
| `ZaguanIndex`, `WhooshDemoIndex` | zaguan_index.dfy, whoosh_demo_index.dfy | the two `MyIndex` classes |
| `GensimIndex` | gensim_index.dfy | the gensim demo |
| `CleanTexts` | clean_texts.dfy | `cleanTexts`, `maxNumTokens` |
| `Translator` | translator.dfy | `translate_example`, `evaluate_translator_accuracy` |

### Where the model follows the code rather than the documentation

- **Text content keeps its terminators and blank lines.** A text file's
  content is `' '.join(line for line in fp if line)`. Each line keeps its
  `'\n'` terminator, and the `if line` test drops nothing, so blank lines
  survive as `"\n"` items (`Ingestion.TxtContentKeepsLines`). The words are
  exactly the file's words (`Ingestion.TxtContentWords`).
- **XML content drops only empty lines.** It drops lines that are empty
  before stripping. A whitespace-only line still contributes an empty item,
  that is, an extra space.
- **`MyCorpus` uses a different dispatch.** It reads every name not ending
  in `.xml` as a text file, including names that are neither `.xml` nor
  `.txt`. The Whoosh indexers skip such files.
- **Malformed XML stops the run.** An XML file that does not parse raises out
  of `index_docs`. The records added before it stay in the writer, and no
  commit happens (`ZaguanIndex.MyIndex.IndexDocs`).

## Model

| member | source | states |
|---|---|---|
| Text.Strip | Zaguan/index.py:85 | `strip()` leaves no outer whitespace, is empty exactly for all-whitespace input, leaves trimmed text alone and adds no character |
| Text.SplitLines | Zaguan/index.py:104 | `splitlines()` yields lines without line boundaries |
| Text.TranslateNewlines | Zaguan/index.py:74 | text-mode reading leaves no `'\r'` |
| Text.LinesKeepEnds | Zaguan/index.py:74-75 | the lines a file yields concatenate back to its decoded text; each is non-empty; each but the last ends with its single `'\n'` |
| Text.Lower | gensim_demo/index.py:75 | `lower()` keeps the length |
| Words.SplitYieldsWords | gensim_demo/index.py:75 | every item of `split()` is a non-empty run of non-whitespace |
| Words.SplitJoinRoundTrip | Zaguan/index.py:85 | `' '.join` then `split()` gives back any list of words |
| Words.SplitJoin | Zaguan/index.py:104 | splitting a `' '`-joined string splits each part |
| Words.SplitStrip | Zaguan/index.py:104 | `strip()` removes no word |
| Words.SplitLinesWords | Zaguan/index.py:104 | the words of the `splitlines()` lines are the words of the text |
| Words.DropEmptyWords | Zaguan/index.py:104 | the `if line` filter removes no word |
| Words.StripEachWords | Zaguan/index.py:104 | stripping each line removes no word |
| Words.SplitTranslateNewlines | Zaguan/index.py:74 | newline decoding changes no word |
| Words.FileLinesWords | Zaguan/index.py:74-75 | the lines a file yields hold exactly the file's words |
| Listing.Sort | Zaguan/index.py:63 | `sorted(os.listdir(...))` is ascending and a permutation of the listing |
| Listing.SortedUnique | Zaguan/index.py:63 | two ascending orders of the same names are equal |
| Listing.SortDeterministic | Zaguan/index.py:63 | the visiting order depends only on which names the folder holds |
| Listing.StrLeTransitive | Zaguan/index.py:63 | Python string order is transitive (with reflexivity, totality and antisymmetry, a total order) |
| HttpDate.FormatModified | Zaguan/index.py:77 | the stamp is 31 characters, with `", "` after the weekday and `" +0000"` at the end |
| HttpDate.StampLayout | Zaguan/index.py:77 | where weekday, zero-padded day, month name, year, hour, minute and second sit in the stamp |
| HttpDate.ParseFormatRoundTrip | Zaguan/index.py:77 | every stamp reads back to the time it was made from |
| HttpDate.Weekday | Zaguan/index.py:77 | `%a` is one of seven names |
| XmlTree.Iter | Zaguan/index.py:85 | the pre-order walk starts at the element itself |
| XmlTree.FindAll | Zaguan/index.py:85 | `findall('.//{*}name')` returns no more than the descendants |
| XmlTree.FindAllMembership | Zaguan/index.py:85 | `findall` returns exactly the descendants whose tag is `name` in any or no namespace, each as many times as it occurs below the root |
| XmlTree.FindAllInDocumentOrder | Zaguan/index.py:85 | `findall` keeps document order |
| XmlTree.TagMatchesLocalName | Zaguan/index.py:85 | `{*}name` matches a namespaced or bare tag exactly when its local name is `name` |
| XmlTree.RootNotDescendant | Zaguan/index.py:85 | `.//` never returns the root |
| XmlTree.FindAllLeaf | Zaguan/index.py:85 | a root without children matches nothing |
| XmlTree.IterText | Zaguan/index.py:103 | `itertext()` yields only non-empty pieces |
| XmlTree.Piece | Zaguan/index.py:103 | an absent or empty text slot yields nothing; a present one yields its text |
| Ingestion.FieldItems | Zaguan/index.py:85-101 | one item per matching element with text; each item is trimmed; an item is empty exactly when the text is all whitespace |
| Ingestion.FieldTextWords | Zaguan/index.py:85-101 | a field's words are the matching elements' words in document order |
| Ingestion.FieldTextNoMatch | Zaguan/index.py:85-101 | a field is empty when no descendant carries the name |
| Ingestion.XmlContentWords | Zaguan/index.py:103-104 | XML content holds exactly the document's words, in order |
| Ingestion.XmlContentSingleLine | Zaguan/index.py:103-104 | XML content has no line break |
| Ingestion.TxtContentKeepsLines | Zaguan/index.py:74-75 | text content is every file line, terminators included, joined by spaces |
| Ingestion.TxtContentWords | Zaguan/index.py:74-75 | text content holds exactly the file's words, in order |
| Ingestion.TxtRecordShape | Zaguan/index.py:71-78 | a text record has exactly `path`, `content`, `modified`, with the file name, the content and a stamp that reads back to the mtime |
| Ingestion.MetadataFields | Zaguan/index.py:84-101 | one field per entry of the element-name table, each the joined text of its elements |
| Ingestion.WithDocumentFields | Zaguan/index.py:106-119 | the keyword arguments are the metadata fields plus `path`, `content`, `modified` |
| Ingestion.XmlRecordShape | Zaguan/index.py:80-119 | an XML record has the schema's fields; each is read from its element name; its content holds the document's words on one line; its stamp reads back |
| Ingestion.Sources | Zaguan/index.py:43-55 | each indexer's element-name table plus `path`, `content`, `modified` is exactly its schema |
| Ingestion.OutcomeOf | Zaguan/index.py:65-68 | a name is skipped exactly when it ends neither in `.xml` nor in `.txt`, and aborts exactly when it is XML that does not parse |
| Ingestion.OutcomeRecord | Zaguan/index.py:65-68 | an added record fits the schema and carries the file name as its path |
| Ingestion.HandleEachAt | Zaguan/index.py:63-68 | the k-th outcome is the handling of the k-th name |
| Ingestion.FoldNext | Zaguan/index.py:63-68 | one loop turn: skip, append the record, or stop with the file's name |
| Ingestion.FoldPrefix | Zaguan/index.py:63-68 | handling more names only appends records; a stop is final |
| Ingestion.FirstMalformed | Zaguan/index.py:63-68 | the position of the first XML file that does not parse |
| Ingestion.FoldPaths | Zaguan/index.py:63-68 | the records are one per `.xml`/`.txt` name, in order, up to the first unparsable XML file, which is the failure |
| Ingestion.IngestPaths | Zaguan/index.py:61-69 | as `FoldPaths`, for the indexer's own dispatch |
| Ingestion.IngestRecords | Zaguan/index.py:61-69 | each record is the one its file's handler builds |
| Ingestion.IngestWithinSchema | Zaguan/index.py:61-69 | every record uses only schema fields, so the writer accepts it |
| Ingestion.IngestSorted | Zaguan/index.py:61-69 | records come out in ascending order of path |
| Ingestion.IngestPrefix | Zaguan/index.py:61-69 | a longer listing never revises what a prefix produced |
| IndexWriting.IndexWriter.constructor | Zaguan/index.py:58-59 | a fresh writer is empty and uncommitted |
| IndexWriting.IndexWriter.AddDocument | Zaguan/index.py:106-119 | `add_document` appends the record; the writer keeps only schema fields |
| IndexWriting.IndexWriter.Commit | Zaguan/index.py:69 | `commit` keeps the documents and closes the writer |
| ZaguanIndex.MyIndex.constructor | Zaguan/index.py:40-59 | a new index has the twelve-field schema and an empty open writer |
| ZaguanIndex.MyIndex.IndexDocs | Zaguan/index.py:61-69 | the writer gains exactly `Ingest`'s records; it is committed exactly when no XML file failed |
| ZaguanIndex.MyIndex.IndexNames | Zaguan/index.py:63-68 | the loop adds exactly the records of `IngestNames` and reports its failure |
| ZaguanIndex.MyIndex.IndexFile | Zaguan/index.py:65-68 | one turn adds the outcome's record, or nothing, and aborts exactly on an unparsable XML file |
| ZaguanIndex.MyIndex.IndexTxtDoc | Zaguan/index.py:71-78 | appends the file's text record |
| ZaguanIndex.MyIndex.IndexXmlDoc | Zaguan/index.py:80-119 | appends the twelve-field record when the file parses, and nothing otherwise |
| WhooshDemoIndex.MyIndex.constructor | whoosh_demo/index.py:26-36 | a new index has the six-field schema and an empty open writer |
| WhooshDemoIndex.MyIndex.IndexDocs | whoosh_demo/index.py:38-46 | the writer gains exactly `Ingest`'s records; it is committed exactly when no XML file failed |
| WhooshDemoIndex.MyIndex.IndexNames | whoosh_demo/index.py:40-45 | the loop adds exactly the records of `IngestNames` and reports its failure |
| WhooshDemoIndex.MyIndex.IndexFile | whoosh_demo/index.py:42-45 | one turn adds the outcome's record, or nothing, and aborts exactly on an unparsable XML file |
| WhooshDemoIndex.MyIndex.IndexTxtDoc | whoosh_demo/index.py:48-55 | appends the file's text record |
| WhooshDemoIndex.MyIndex.IndexXmlDoc | whoosh_demo/index.py:57-74 | appends the six-field record when the file parses, and nothing otherwise |
| GensimIndex.PunctuationTable | gensim_demo/index.py:84-86 | the table has 26 distinct characters, exactly the ones blanked |
| GensimIndex.Unpunctuated | gensim_demo/index.py:86-87 | `translate` keeps the length and leaves none of the 26 characters |
| GensimIndex.Normalize | gensim_demo/index.py:83-87 | `normalize` leaves no punctuation and no outer whitespace |
| GensimIndex.NormalizeFixed | gensim_demo/index.py:83-87 | text without punctuation or outer whitespace is left alone |
| GensimIndex.NormalizeIdempotent | gensim_demo/index.py:83-87 | normalising twice equals normalising once |
| GensimIndex.NormalizeWords | gensim_demo/index.py:83-87 | normalising splits words at punctuation and nowhere else |
| GensimIndex.StopList | gensim_demo/index.py:61-70 | a cached list is returned as is; otherwise the list for the language |
| GensimIndex.StopListSticks | gensim_demo/index.py:61-70 | once built, the list stays whatever the language becomes; an unknown language builds none |
| GensimIndex.StopListCache.constructor | gensim_demo/index.py:61-70 | no list is cached at start |
| GensimIndex.StopListCache.GetStopList | gensim_demo/index.py:61-70 | returns and caches `StopList` of the old cache |
| GensimIndex.TermsOf | gensim_demo/index.py:72-75 | terms are the lower-cased words in order minus the stop words, each kept word with all its occurrences; the filter fails exactly when there is no list and some word |
| GensimIndex.StemmedTerms | gensim_demo/index.py:72-81 | with stemming, the terms are the stems, in order, of the lower-cased words minus the stop words, each kept word with all its occurrences; they fail exactly when there is no list and some word |
| GensimIndex.ApplyStemming | gensim_demo/index.py:45-59 | the loop yields the stem of each word, in order |
| GensimIndex.GenerateTerms | gensim_demo/index.py:72-81 | builds the stop list if needed, then yields the generated terms |
| GensimIndex.TextFileItems | gensim_demo/index.py:89-95 | a text file gives one normalised item per line |
| GensimIndex.XmlFileItems | gensim_demo/index.py:98-111 | an XML file gives one normalised item per whitespace-separated chunk of its text |
| GensimIndex.DocumentTextUnpunctuated | gensim_demo/index.py:89-111 | neither document text contains any of the 26 characters |
| GensimIndex.TextFileWords | gensim_demo/index.py:89-95 | a text file's words are the file's words with punctuation turned into separators |
| GensimIndex.UnpunctuatedTranslate | gensim_demo/index.py:92-93 | blanking punctuation commutes with newline decoding |
| GensimIndex.CollectAt | gensim_demo/index.py:117-123 | a complete iteration yields one result per name, at its position |
| GensimIndex.CollectFails | gensim_demo/index.py:117-123 | the iteration fails exactly when some entry fails |
| GensimIndex.CollectStops | gensim_demo/index.py:117-123 | the first failure ends the iteration |
| GensimIndex.CollectSorted | gensim_demo/index.py:118 | entries are visited in ascending order, one result per entry |
| GensimIndex.IterateCorpus | gensim_demo/index.py:113-123 | iterating yields exactly `Corpus` for the stop list in force; a missing folder fails; the cache becomes what `get_stop_list` builds exactly when the folder exists and the first sorted entry reaches `generate_terms`, and is left as it was otherwise |
| GensimIndex.CollectEntries | gensim_demo/index.py:118-123 | the loop over the sorted names yields `Collect` of the per-entry terms; the cache becomes what `get_stop_list` builds exactly when the first entry reaches `generate_terms`, and is left as it was otherwise |
| GensimIndex.CollectRest | gensim_demo/index.py:118-123 | once the list is cached, the remaining entries yield their `Collect` and the cache is kept |
| GensimIndex.CollectCons | gensim_demo/index.py:118-123 | after a first entry that succeeds, the iteration is that entry's terms followed by the iteration over the rest |
| GensimIndex.CollectNext | gensim_demo/index.py:118-123 | one more entry extends the results, or its failure ends the iteration |
| GensimIndex.DocumentStep | gensim_demo/index.py:119-123 | one entry: `.xml` is parsed, anything else read as text, then terms generated; the stop list is built unless the XML file fails to parse |
| GensimIndex.KeepRepeatedOf | gensim_demo/index.py:149 | one list per document, in token order, keeping a token, with all its occurrences in that document, exactly when it occurs more than once in the corpus |
| GensimIndex.CountTokens | gensim_demo/index.py:143-147 | the frequency of each token is its number of occurrences; exactly the occurring tokens are keys |
| GensimIndex.KeepFrequent | gensim_demo/index.py:143-149 | counting then filtering yields `KeepRepeated` |
| GensimIndex.GetExampleCorpus | gensim_demo/index.py:125-152 | builds the stop list if needed; fails without one; otherwise the filtered example corpus |
| CleanTexts.BlankSymbols | languageModels/commonFunctions.py:38 | the substitution keeps the length and leaves only ASCII letters, digits and whitespace |
| CleanTexts.CollapseSpaces | languageModels/commonFunctions.py:39 | `re.sub(' +', ' ')` leaves no two adjacent spaces and keeps the first character |
| CleanTexts.CollapseKeepsNonSpaces | languageModels/commonFunctions.py:39 | collapsing keeps every other character, in order |
| CleanTexts.CleanAlphabet | languageModels/commonFunctions.py:34-41 | a cleaned text holds only `a`-`z`, `0`-`9` and whitespace |
| CleanTexts.CleanSpacing | languageModels/commonFunctions.py:39 | a cleaned text is stripped and has no double space |
| CleanTexts.CleanHasNoMarks | languageModels/commonFunctions.py:37 | no combining mark survives |
| CleanTexts.DropMarksOfKept | languageModels/commonFunctions.py:37 | NFD and the mark filter leave letters, digits and whitespace alone, except that EN QUAD and EM QUAD become EN SPACE and EM SPACE |
| CleanTexts.CleanHasNoQuads | languageModels/commonFunctions.py:34-41 | no EN QUAD or EM QUAD survives cleaning |
| CleanTexts.CleanOfCleanText | languageModels/commonFunctions.py:34-41 | clean, stripped text without double spaces comes out with only its quads replaced |
| CleanTexts.CleanFixedPoint | languageModels/commonFunctions.py:34-41 | already clean text without quads is unchanged |
| CleanTexts.CleanIdempotent | languageModels/commonFunctions.py:34-41 | cleaning twice equals cleaning once |
| CleanTexts.CollapseCountsOthers | languageModels/commonFunctions.py:39 | only spaces are collapsed: tabs, newlines and every other character keep their number of occurrences |
| CleanTexts.CleanEachAt | languageModels/commonFunctions.py:34-41 | one cleaned text per input, at its position |
| CleanTexts.CleanAll | languageModels/commonFunctions.py:34-41 | the loop yields every text cleaned, in order |
| CleanTexts.CleanEachIdempotent | languageModels/commonFunctions.py:34-41 | `cleanTexts` is idempotent |
| CleanTexts.Longest | languageModels/commonFunctions.py:57 | `np.max` of the lengths bounds every row and is attained |
| CleanTexts.MaxNumTokens | languageModels/commonFunctions.py:57 | fails exactly when both lists are empty; otherwise at most `maxLength`, at least every row's length unless capped, and attained or the cap, and never above the longest row: exactly `min(longest, maxLength)` |
| Translator.DecodeExtends | languageModels/textTranslator__TrainerTester.py:17-22 | decoding only appends, at most one token per step |
| Translator.DecodePredicts | languageModels/textTranslator__TrainerTester.py:19-21 | each appended token is the model's prediction for the tokens before it |
| Translator.DecodeStopsAtEnd | languageModels/textTranslator__TrainerTester.py:22 | no predicted token but the last is `[end]`; stopping early means `[end]` was predicted |
| Translator.DecodedShape | languageModels/textTranslator__TrainerTester.py:12-23 | 1 to 21 tokens starting with `[start]`; `[end]` only last; shorter than 21 means it ends with `[end]` |
| Translator.TranslateExample | languageModels/textTranslator__TrainerTester.py:12-23 | the loop with its `break` returns `Translation` |
| Translator.ContentTokensOf | languageModels/textTranslator__TrainerTester.py:41-42 | content tokens are the sentence's words in order, without the markers, each other word with all its occurrences |
| Translator.Matches | languageModels/textTranslator__TrainerTester.py:43-44 | matches never exceed compared positions |
| Translator.CorrectAtMostTotal | languageModels/textTranslator__TrainerTester.py:35-45 | `correct_words <= total_words` |
| Translator.Ratio | languageModels/textTranslator__TrainerTester.py:46 | the accuracy lies in [0, 1] |
| Translator.AccuracyInRange | languageModels/textTranslator__TrainerTester.py:46-47 | the evaluation fails exactly when no word was compared; otherwise the ratio is in [0, 1] |
| Translator.CompareTokens | languageModels/textTranslator__TrainerTester.py:43-45 | `zip` compares the shorter list's length of positions and counts the agreeing ones |
| Translator.EvaluateAccuracy | languageModels/textTranslator__TrainerTester.py:33-47 | the loop computes `AccuracyOf` |

## Left out

- File-system access, `os.path.exists`, `os.listdir` and `open` are inputs.
  A docs folder is `Missing` or a listing with its files' decoded contents.
  Entries that are subdirectories or cannot be read are not modelled.
- Text decoding by the locale encoding is not modelled. Files are taken as already-decoded text.
- XML parsing is an input. A file's tree is `None` when `ET.parse` would
  raise. Namespace resolution beyond the `{uri}local` tag form is not
  modelled.
- The clock is an input. `datetime.fromtimestamp` takes the file's mtime to a
  local broken-down time, which is given as the `Moment` of the file.
- HttpDate.FormatModified: the year is always padded to four digits. This is
  the same as `strftime('%Y')` only for years from 1000 on.
- The Whoosh analysers, the index storage, segment merging and searching are
  not modelled. Only the documents handed to the writer are.
- The command-line loops under `if __name__ == '__main__'` are not modelled.
- Text.Lower: lower-cases ASCII and Latin-1 letters only. Full Unicode case
  mapping is not modelled.
- The Snowball stemmer is an opaque per-word function. So is the neural
  translation model, which takes the sentence, the joined decoded tokens and
  the position.
  - Constructing a stemmer for an unsupported language is not modelled.
  - The vectorizers and the vocabulary are not modelled.
- Unicode data is an input: the NFD decomposition of each character, and
  whether it is a combining mark (category `Mn`). Canonical reordering of
  combining marks is not modelled. The lemmas about it rely on three facts of
  the Unicode database: ASCII letters, digits and whitespace decompose to
  themselves, except EN QUAD and EM QUAD, which decompose to EN SPACE and
  EM SPACE; none of them is a combining mark; and no decomposition contains
  a quad.
- `evaluate_translator_accuracy` with a `sample_size` draws a random sample.
  The model takes the already-sampled pairs. The result is the exact
  fraction `correct / total`, not a float.
- `MyCorpus.__iter__` is a generator. The model collects it eagerly, and a
  failure stands for the exception that ends the iteration.
- gensim `Dictionary`, the bag-of-words and TF-IDF models, `pprint` and the
  rest of `gensim_demo/index.py` and `languageModels/commonFunctions.py` are
  not part of this model.
- `maxNumTokens` is modelled by itself. The surrounding `tokenizeText`
  (Keras tokenizer and padding) is not part of this model.
