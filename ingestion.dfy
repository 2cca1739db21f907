/**
 * What the two Whoosh indexers (`Zaguan/index.py` and `whoosh_demo/index.py`)
 * compute from a docs folder before handing it to the index writer: the
 * metadata fields and content of an XML document, the content of a text file,
 * the record (`add_document` keyword arguments) built for each file, and the
 * sequence of records a whole folder produces.
 */
module Ingestion {
  import opened Wrappers
  import opened Seqs
  import opened Text
  import opened Words
  import opened Listing
  import opened XmlTree
  import opened HttpDate

  /** The keyword (schema field) names the indexers pass to `add_document`. */
  datatype FieldName =
    | Path | Content | Title | Subject | TypeOfWork | Author | Director
    | Date | Department | Description | Identifier | Modified

  /** The keyword arguments of one `writer.add_document(...)` call. */
  type Record = map<FieldName, string>

  // ---------------------------------------------------------------- fields

  /** `if elem.text`: the element has text and it is not empty. */
  predicate HasText(x: Element)
  {
    x.text.Some? && x.text.value != ""
  }

  /** `elem.text.strip()` */
  function ItemText(x: Element): string
  {
    Strip(TextOf(x.text))
  }

  /** The words of an element's text. */
  function TextWords(x: Element): seq<string>
  {
    Split(TextOf(x.text))
  }

  /** `[elem.text.strip() for elem in root.findall('.//{*}name') if elem.text]` */
  function FieldItems(root: Element, name: string): (items: seq<string>)
    ensures var sources := Filter(HasText, FindAll(root, name));
      && |items| == |sources| <= |FindAll(root, name)|
      && forall k :: 0 <= k < |items| ==> Trimmed(items[k]) && (items[k] == [] <==> AllWhitespace(TextOf(sources[k].text)))
  {
    Map(ItemText, Filter(HasText, FindAll(root, name)))
  }

  /** One metadata field: the items joined by single spaces. */
  function FieldText(root: Element, name: string): string
  {
    Join(" ", FieldItems(root, name))
  }

  /** A field is empty when no element below the root carries the name. */
  lemma {:induction false} FieldTextNoMatch(root: Element, name: string)
    requires forall x :: x in Descendants(root) ==> !TagMatches(x.tag, name)
    ensures FieldText(root, name) == ""
  {
    if FindAll(root, name) != [] {
      FindAllMembership(root, name, FindAll(root, name)[0]);
    }
  }

  /**
   * The words of a field are the words of the texts of the matching elements,
   * in document order: stripping and joining lose and reorder nothing.
   */
  lemma {:induction false} FieldTextWords(root: Element, name: string)
    ensures Split(FieldText(root, name)) == Flatten(Map(TextWords, Filter(HasText, FindAll(root, name))))
  {
    var sources := Filter(HasText, FindAll(root, name));
    SplitJoin(FieldItems(root, name));
    forall k | 0 <= k < |sources| ensures Split(ItemText(sources[k])) == TextWords(sources[k]) {
      SplitStrip(TextOf(sources[k].text));
    }
    assert Map(Split, Map(ItemText, sources)) == Map(TextWords, sources);
  }

  // ---------------------------------------------------------------- content

  /** `' '.join(line.strip() for line in "".join(root.itertext()).splitlines() if line)` */
  function XmlContent(root: Element): string
  {
    Join(" ", Map(Strip, Filter(NonEmpty, SplitLines(RawText(root)))))
  }

  /** XML content keeps every word of the document's text, in order. */
  lemma {:induction false} XmlContentWords(root: Element)
    ensures Split(XmlContent(root)) == Split(RawText(root))
  {
    var lines := SplitLines(RawText(root));
    SplitJoin(Map(Strip, Filter(NonEmpty, lines)));
    StripEachWords(Filter(NonEmpty, lines));
    DropEmptyWords(lines);
    SplitLinesWords(RawText(root));
  }

  /** XML content is a single line: every line boundary of the text became a space. */
  lemma {:induction false} XmlContentSingleLine(root: Element)
    ensures NoLineBreak(XmlContent(root))
  {
    var lines := SplitLines(RawText(root));
    var kept := Filter(NonEmpty, lines);
    var items := Map(Strip, kept);
    forall k | 0 <= k < |items| ensures NoLineBreak(items[k]) {
      FilterMembership(NonEmpty, lines, kept[k]);
    }
    JoinNoLineBreak(items);
  }

  lemma {:induction false} JoinNoLineBreak(parts: seq<string>)
    requires forall k :: 0 <= k < |parts| ==> NoLineBreak(parts[k])
    ensures NoLineBreak(Join(" ", parts))
  {
    if |parts| > 1 {
      JoinNoLineBreak(parts[1..]);
    }
  }

  /** `' '.join(line for line in fp if line)` */
  function TxtContent(raw: string): string
  {
    Join(" ", Filter(NonEmpty, FileLines(raw)))
  }

  /**
   * The `if line` test drops nothing (every line a file yields holds at least
   * its terminator), so text content is the file's lines, terminators
   * included, joined by single spaces.
   */
  lemma {:induction false} TxtContentKeepsLines(raw: string)
    ensures TxtContent(raw) == Join(" ", FileLines(raw))
  {
    FilterAll(NonEmpty, FileLines(raw));
  }

  /** Text content keeps every word of the file, in order. */
  lemma {:induction false} TxtContentWords(raw: string)
    ensures Split(TxtContent(raw)) == Split(raw)
  {
    TxtContentKeepsLines(raw);
    SplitJoin(FileLines(raw));
    FileLinesWords(raw);
  }

  // ---------------------------------------------------------------- records

  /** Which of the two indexers builds the records. */
  datatype IndexKind = Zaguan | WhooshDemo

  const ZaguanSchema: set<FieldName> := {Path, Content, Title, Subject, TypeOfWork, Author,
    Director, Date, Department, Description, Identifier, Modified}
  const WhooshDemoSchema: set<FieldName> := {Path, Content, Title, Subject, Description, Modified}

  function Schema(kind: IndexKind): set<FieldName>
  {
    match kind
    case Zaguan => ZaguanSchema
    case WhooshDemo => WhooshDemoSchema
  }

  /** For each metadata field of the Zaguan schema, the element name it is read from. */
  const ZaguanSources: map<FieldName, string> := map[
    Title := "title", TypeOfWork := "type", Director := "contributor", Author := "creator",
    Date := "date", Department := "publisher", Subject := "subject",
    Description := "description", Identifier := "identifier"]

  /** For each metadata field of the whoosh_demo schema, the element name it is read from. */
  const WhooshDemoSources: map<FieldName, string> := map[
    Title := "title", Subject := "subject", Description := "description"]

  /** The record `index_txt_doc` adds. */
  function TxtRecord(filename: string, raw: string, mtime: Moment): Record
  {
    map[Path := filename, Content := TxtContent(raw), Modified := FormatModified(mtime)]
  }

  /**
   * A text record has exactly `path`, `content` and `modified`; its content is
   * the file's lines joined by spaces and keeps the file's words; its stamp
   * reads back as the file's modification time.
   */
  lemma {:induction false} TxtRecordShape(filename: string, raw: string, mtime: Moment)
    ensures var r := TxtRecord(filename, raw, mtime);
      && r.Keys == {Path, Content, Modified}
      && r[Path] == filename
      && r[Content] == Join(" ", FileLines(raw)) && Split(r[Content]) == Split(raw)
      && ParseModified(r[Modified]) == Some(mtime)
  {
    TxtContentKeepsLines(raw);
    TxtContentWords(raw);
    ParseFormatRoundTrip(mtime);
  }

  /** The metadata fields of an XML record, each read from the elements its source table names. */
  function MetadataFields(sources: map<FieldName, string>, root: Element): (m: Record)
    ensures forall f :: f in m <==> f in sources
    ensures forall f :: f in sources ==> m[f] == FieldText(root, sources[f])
  {
    map f | f in sources :: FieldText(root, sources[f])
  }

  /** A record made of the given metadata fields plus `path`, `content` and `modified`. */
  function WithDocumentFields(fields: Record, path: string, content: string, modified: string): (r: Record)
    requires Path !in fields && Content !in fields && Modified !in fields
    ensures forall f :: f in r <==> f in fields || f == Path || f == Content || f == Modified
    ensures r[Path] == path && r[Content] == content && r[Modified] == modified
    ensures forall f :: f in fields ==> r[f] == fields[f]
  {
    var withPath := fields[Path := path];
    assert forall f :: f in fields ==> f in withPath && withPath[f] == fields[f];
    var withContent := withPath[Content := content];
    assert forall f :: f in fields ==> f in withContent && withContent[f] == fields[f];
    withContent[Modified := modified]
  }

  /** The record `index_xml_doc` adds: the metadata fields plus path, content and stamp. */
  function XmlRecord(sources: map<FieldName, string>, filename: string, root: Element, mtime: Moment): Record
    requires Path !in sources && Content !in sources && Modified !in sources
  {
    WithDocumentFields(MetadataFields(sources, root), filename, XmlContent(root), FormatModified(mtime))
  }

  /**
   * An XML record has the source table's fields plus `path`, `content` and
   * `modified`; each field is the joined text of its elements; the content is
   * one line holding the document's words; the stamp reads back as the file's
   * modification time.
   */
  lemma {:induction false} XmlRecordShape(sources: map<FieldName, string>, filename: string, root: Element, mtime: Moment)
    requires Path !in sources && Content !in sources && Modified !in sources
    ensures var r := XmlRecord(sources, filename, root, mtime);
      && (forall f :: f in r <==> f in sources || f == Path || f == Content || f == Modified)
      && r[Path] == filename
      && (forall f :: f in sources ==> r[f] == FieldText(root, sources[f]))
      && Split(r[Content]) == Split(RawText(root)) && NoLineBreak(r[Content])
      && ParseModified(r[Modified]) == Some(mtime)
  {
    XmlContentWords(root);
    XmlContentSingleLine(root);
    ParseFormatRoundTrip(mtime);
  }

  /** The metadata source table of an indexer. */
  function Sources(kind: IndexKind): (sources: map<FieldName, string>)
    ensures forall f :: f in Schema(kind) <==> f in sources || f == Path || f == Content || f == Modified
    ensures Path !in sources && Content !in sources && Modified !in sources
  {
    match kind
    case Zaguan => ZaguanSources
    case WhooshDemo => WhooshDemoSources
  }

  // ---------------------------------------------------------------- folders

  /**
   * A file of the docs folder as the indexers see it: its decoded text (read
   * by the text path), the result of `ET.parse` (`None` when the document is
   * not well-formed XML and the parser raises), and its modification time as
   * `datetime.fromtimestamp` breaks it down.
   */
  datatype DocFile = DocFile(text: string, tree: Option<Element>, mtime: Moment)

  /** The docs folder: missing, or a listing together with the files it names. */
  datatype DocsFolder = Missing | Present(listing: seq<string>, files: map<string, DocFile>)

  predicate FilesFor(names: seq<string>, files: map<string, DocFile>)
  {
    forall k :: 0 <= k < |names| ==> names[k] in files
  }

  predicate WellFormedFolder(folder: DocsFolder)
  {
    folder.Present? ==> FilesFor(folder.listing, folder.files)
  }

  datatype FileKind = XmlFile | TxtFile | OtherFile

  /** The dispatch of `index_docs`: `.xml` first, then `.txt`, everything else ignored. */
  function KindOf(name: string): FileKind
  {
    if EndsWith(name, ".xml") then XmlFile
    else if EndsWith(name, ".txt") then TxtFile
    else OtherFile
  }

  predicate IsIndexable(name: string)
  {
    KindOf(name) != OtherFile
  }

  /** An XML file the parser rejects: it stops `index_docs` with an exception. */
  predicate IsMalformed(name: string, file: DocFile)
  {
    KindOf(name) == XmlFile && file.tree.None?
  }

  /** What handling one listed file does to the writer. */
  datatype Outcome = Skipped | Added(record: Record) | Aborted

  function OutcomeOf(kind: IndexKind, name: string, file: DocFile): (o: Outcome)
    ensures o.Skipped? <==> !IsIndexable(name)
    ensures o.Aborted? <==> IsMalformed(name, file)
  {
    match KindOf(name)
    case XmlFile =>
      if file.tree.None? then Aborted else Added(XmlRecord(Sources(kind), name, file.tree.value, file.mtime))
    case TxtFile =>
      Added(TxtRecord(name, file.text, file.mtime))
    case OtherFile =>
      Skipped
  }

  /** An added record fits the indexer's schema and carries the file's name as its path. */
  lemma {:induction false} OutcomeRecord(kind: IndexKind, name: string, file: DocFile)
    ensures var o := OutcomeOf(kind, name, file);
      o.Added? ==> o.record.Keys <= Schema(kind) && Path in o.record && o.record[Path] == name
  {
    if KindOf(name) == XmlFile && file.tree.Some? {
      XmlRecordShape(Sources(kind), name, file.tree.value, file.mtime);
    }
  }

  /** The records added so far, and the name of the file whose parse raised, if one did. */
  datatype IngestResult = IngestResult(records: seq<Record>, failure: Option<string>)

  /**
   * The loop of `index_docs` over names whose handling has the given
   * outcomes: records are added in order and the first abort stops the run.
   */
  function Fold(names: seq<string>, outcomes: seq<Outcome>): IngestResult
    requires |names| == |outcomes|
    decreases |names|
  {
    if names == [] then IngestResult([], None)
    else
      var n := |names| - 1;
      var prev := Fold(names[..n], outcomes[..n]);
      if prev.failure.Some? then prev
      else match outcomes[n]
        case Skipped => prev
        case Added(record) => IngestResult(prev.records + [record], None)
        case Aborted => IngestResult(prev.records, Some(names[n]))
  }

  /** A per-file handler applied to each listed name. */
  function HandleEach(handle: (string, DocFile) -> Outcome, names: seq<string>, files: map<string, DocFile>): (os: seq<Outcome>)
    requires FilesFor(names, files)
    ensures |os| == |names|
    decreases |names|
  {
    if names == [] then []
    else
      var n := |names| - 1;
      assert FilesFor(names[..n], files);
      HandleEach(handle, names[..n], files) + [handle(names[n], files[names[n]])]
  }

  /** The `k`-th outcome is the handler's outcome for the `k`-th name. */
  lemma {:induction false} HandleEachAt(handle: (string, DocFile) -> Outcome, names: seq<string>, files: map<string, DocFile>)
    requires FilesFor(names, files)
    ensures var os := HandleEach(handle, names, files);
      forall k :: 0 <= k < |names| ==> os[k] == handle(names[k], files[names[k]])
    decreases |names|
  {
    if names != [] {
      var n := |names| - 1;
      assert FilesFor(names[..n], files);
      HandleEachAt(handle, names[..n], files);
    }
  }

  /** The outcomes of a prefix of the names are a prefix of the outcomes. */
  lemma {:induction false} HandleEachPrefix(handle: (string, DocFile) -> Outcome, names: seq<string>,
      files: map<string, DocFile>, n: nat)
    requires FilesFor(names, files) && n <= |names|
    ensures FilesFor(names[..n], files)
    ensures HandleEach(handle, names[..n], files) == HandleEach(handle, names, files)[..n]
    decreases |names|
  {
    if n < |names| {
      var m := |names| - 1;
      assert names[..m][..n] == names[..n];
      assert FilesFor(names[..m], files);
      HandleEachPrefix(handle, names[..m], files, n);
      assert HandleEach(handle, names, files)[..m] == HandleEach(handle, names[..m], files);
    } else {
      assert names[..n] == names;
    }
  }

  /** The dispatch of `index_docs` for one indexer, as a function of the name and the file. */
  function Handler(kind: IndexKind): (string, DocFile) -> Outcome
  {
    (name, file) => OutcomeOf(kind, name, file)
  }

  /** The outcome of handling each of `names`. */
  function Outcomes(kind: IndexKind, names: seq<string>, files: map<string, DocFile>): seq<Outcome>
    requires FilesFor(names, files)
  {
    HandleEach(Handler(kind), names, files)
  }

  lemma {:induction false} OutcomeAt(kind: IndexKind, names: seq<string>, files: map<string, DocFile>, i: nat)
    requires FilesFor(names, files) && i < |names|
    ensures Outcomes(kind, names, files)[i] == OutcomeOf(kind, names[i], files[names[i]])
  {
    HandleEachAt(Handler(kind), names, files);
  }

  /** Handling the names in the given order, stopping at the first exception. */
  function IngestNames(kind: IndexKind, names: seq<string>, files: map<string, DocFile>): IngestResult
    requires FilesFor(names, files)
  {
    Fold(names, Outcomes(kind, names, files))
  }

  /** Handling one more name after a prefix that raised nothing: the effect of that name's outcome. */
  lemma {:induction false} FoldNext(names: seq<string>, outcomes: seq<Outcome>, i: nat)
    requires |names| == |outcomes| && i < |names|
    ensures var prev, next := Fold(names[..i], outcomes[..i]), Fold(names[..i + 1], outcomes[..i + 1]);
      && (prev.failure.Some? ==> next == prev)
      && (prev.failure.None? && outcomes[i].Skipped? ==> next == prev)
      && (prev.failure.None? && outcomes[i].Added? ==> next == IngestResult(prev.records + [outcomes[i].record], None))
      && (prev.failure.None? && outcomes[i].Aborted? ==> next == IngestResult(prev.records, Some(names[i])))
  {
    assert names[..i + 1][..i] == names[..i];
    assert outcomes[..i + 1][..i] == outcomes[..i];
  }

  /** Handling a longer listing only appends records: what a prefix produced is never revised. */
  lemma {:induction false} FoldPrefix(names: seq<string>, outcomes: seq<Outcome>, n: nat)
    requires |names| == |outcomes| && n <= |names|
    ensures var short, long := Fold(names[..n], outcomes[..n]), Fold(names, outcomes);
      && short.records <= long.records
      && (short.failure.Some? ==> long == short)
    decreases |names|
  {
    if n < |names| {
      var m := |names| - 1;
      assert names[..m][..n] == names[..n];
      assert outcomes[..m][..n] == outcomes[..n];
      FoldPrefix(names[..m], outcomes[..m], n);
    } else {
      assert names[..n] == names;
      assert outcomes[..n] == outcomes;
    }
  }

  /** `index_docs`: a missing folder gives nothing; otherwise the listing is handled in sorted order. */
  function Ingest(kind: IndexKind, folder: DocsFolder): IngestResult
    requires WellFormedFolder(folder)
  {
    match folder
    case Missing => IngestResult([], None)
    case Present(listing, files) =>
      SortedFilesFor(listing, files);
      IngestNames(kind, Sort(listing), files)
  }

  lemma {:induction false} SortedFilesFor(listing: seq<string>, files: map<string, DocFile>)
    requires FilesFor(listing, files)
    ensures FilesFor(Sort(listing), files)
  {
    var sorted := Sort(listing);
    forall k | 0 <= k < |sorted| ensures sorted[k] in files {
      assert sorted[k] in multiset(listing);
      var m :| 0 <= m < |listing| && listing[m] == sorted[k];
    }
  }

  /** Index of the first malformed XML file among `names`, `|names|` if there is none. */
  function FirstMalformed(names: seq<string>, files: map<string, DocFile>): (i: nat)
    requires FilesFor(names, files)
    ensures i <= |names|
    ensures forall k :: 0 <= k < i ==> !IsMalformed(names[k], files[names[k]])
    ensures i < |names| ==> IsMalformed(names[i], files[names[i]])
    decreases |names|
  {
    if names == [] then 0
    else
      var j := FirstMalformed(names[..|names| - 1], files);
      if j < |names| - 1 then j
      else if IsMalformed(names[|names| - 1], files[names[|names| - 1]]) then |names| - 1
      else |names|
  }

  function PathOf(r: Record): string
  {
    if Path in r then r[Path] else ""
  }

  function Paths(records: seq<Record>): seq<string>
  {
    Map(PathOf, records)
  }

  /** What each outcome of `OutcomeOf` is known to be, stated without building the records. */
  predicate OutcomesFit(kind: IndexKind, names: seq<string>, files: map<string, DocFile>, outcomes: seq<Outcome>)
  {
    && |outcomes| == |names|
    && forall k :: 0 <= k < |names| ==>
      && names[k] in files
      && (outcomes[k].Skipped? <==> !IsIndexable(names[k]))
      && (outcomes[k].Aborted? <==> IsMalformed(names[k], files[names[k]]))
      && (outcomes[k].Added? ==> outcomes[k].record.Keys <= Schema(kind) && PathOf(outcomes[k].record) == names[k])
  }

  lemma {:induction false} OutcomesFitAll(kind: IndexKind, names: seq<string>, files: map<string, DocFile>)
    requires FilesFor(names, files)
    ensures OutcomesFit(kind, names, files, Outcomes(kind, names, files))
  {
    var os := Outcomes(kind, names, files);
    HandleEachAt(Handler(kind), names, files);
    forall k | 0 <= k < |names|
      ensures os[k].Added? ==> os[k].record.Keys <= Schema(kind) && PathOf(os[k].record) == names[k]
    {
      OutcomeRecord(kind, names[k], files[names[k]]);
    }
  }

  lemma {:induction false} OutcomesFitPrefix(kind: IndexKind, names: seq<string>, files: map<string, DocFile>,
      outcomes: seq<Outcome>, n: nat)
    requires OutcomesFit(kind, names, files, outcomes) && n <= |names|
    ensures FilesFor(names[..n], files) && OutcomesFit(kind, names[..n], files, outcomes[..n])
  {
  }

  lemma {:induction false} FoldPaths(kind: IndexKind, names: seq<string>, files: map<string, DocFile>, outcomes: seq<Outcome>)
    requires OutcomesFit(kind, names, files, outcomes)
    ensures FilesFor(names, files)
    ensures var r, i := Fold(names, outcomes), FirstMalformed(names, files);
      && Paths(r.records) == Filter(IsIndexable, names[..i])
      && r.failure == (if i < |names| then Some(names[i]) else None)
    decreases |names|
  {
    if names != [] {
      var m := |names| - 1;
      var init := names[..m];
      OutcomesFitPrefix(kind, names, files, outcomes, m);
      FoldPaths(kind, init, files, outcomes[..m]);
      var prev, j := Fold(init, outcomes[..m]), FirstMalformed(init, files);
      if j < m {
        assert prev.failure == Some(init[j]) && Fold(names, outcomes) == prev;
        assert FirstMalformed(names, files) == j && names[..j] == init[..j];
      } else {
        assert init[..j] == init;
        FoldPathsLast(kind, names, files, outcomes);
      }
    }
  }

  /** The last name of a listing whose earlier names raised nothing. */
  lemma {:induction false} FoldPathsLast(kind: IndexKind, names: seq<string>, files: map<string, DocFile>, outcomes: seq<Outcome>)
    requires OutcomesFit(kind, names, files, outcomes) && names != []
    requires var m := |names| - 1;
      && FilesFor(names[..m], files)
      && FirstMalformed(names[..m], files) == m
      && Paths(Fold(names[..m], outcomes[..m]).records) == Filter(IsIndexable, names[..m])
      && Fold(names[..m], outcomes[..m]).failure == None
    ensures FilesFor(names, files)
    ensures var r, i := Fold(names, outcomes), FirstMalformed(names, files);
      && Paths(r.records) == Filter(IsIndexable, names[..i])
      && r.failure == (if i < |names| then Some(names[i]) else None)
  {
    var m := |names| - 1;
    var init, name := names[..m], names[m];
    var prev := Fold(init, outcomes[..m]);
    var r := Fold(names, outcomes);
    assert init + [name] == names;
    FilterAppend(IsIndexable, init, [name]);
    match outcomes[m]
    case Aborted =>
      assert FirstMalformed(names, files) == m && names[..m] == init;
      assert r == IngestResult(prev.records, Some(names[m]));
    case Skipped =>
      assert FirstMalformed(names, files) == |names| && names[..|names|] == names;
      assert Filter(IsIndexable, names) == Filter(IsIndexable, init);
      assert r == prev;
    case Added(record) =>
      assert FirstMalformed(names, files) == |names| && names[..|names|] == names;
      assert Filter(IsIndexable, names) == Filter(IsIndexable, init) + [name];
      assert r == IngestResult(prev.records + [record], None);
      MapAppend(PathOf, prev.records, [record]);
      assert Paths(r.records) == Paths(prev.records) + [name];
  }

  /** Every record comes from an `Added` outcome. */
  lemma {:induction false} FoldRecords(names: seq<string>, outcomes: seq<Outcome>)
    requires |names| == |outcomes|
    ensures forall r :: r in Fold(names, outcomes).records ==> Added(r) in outcomes
    decreases |names|
  {
    if names != [] {
      var m := |names| - 1;
      FoldRecords(names[..m], outcomes[..m]);
      assert outcomes == outcomes[..m] + [outcomes[m]];
    }
  }

  /**
   * One record per `.xml` or `.txt` name, in the order handled, up to the
   * first XML file that fails to parse; that file is the failure, and no
   * failure is reported when there is none.
   */
  lemma {:induction false} IngestPaths(kind: IndexKind, names: seq<string>, files: map<string, DocFile>)
    requires FilesFor(names, files)
    ensures var r, i := IngestNames(kind, names, files), FirstMalformed(names, files);
      && Paths(r.records) == Filter(IsIndexable, names[..i])
      && r.failure == (if i < |names| then Some(names[i]) else None)
  {
    OutcomesFitAll(kind, names, files);
    FoldPaths(kind, names, files, Outcomes(kind, names, files));
  }

  /** Each record is the one its file's handler builds. */
  predicate RecordsFrom(kind: IndexKind, records: seq<Record>, files: map<string, DocFile>)
  {
    forall k :: 0 <= k < |records| ==>
      && PathOf(records[k]) in files
      && OutcomeOf(kind, PathOf(records[k]), files[PathOf(records[k])]) == Added(records[k])
  }

  /** Each record is the one its file's handler builds. */
  lemma {:induction false} IngestRecords(kind: IndexKind, names: seq<string>, files: map<string, DocFile>)
    requires FilesFor(names, files)
    ensures RecordsFrom(kind, IngestNames(kind, names, files).records, files)
  {
    var os := Outcomes(kind, names, files);
    var rs := Fold(names, os).records;
    FoldRecords(names, os);
    HandleEachAt(Handler(kind), names, files);
    forall k | 0 <= k < |rs|
      ensures PathOf(rs[k]) in files && OutcomeOf(kind, PathOf(rs[k]), files[PathOf(rs[k])]) == Added(rs[k])
    {
      assert rs[k] in rs;
      var j :| 0 <= j < |os| && os[j] == Added(rs[k]);
      OutcomeRecord(kind, names[j], files[names[j]]);
    }
  }

  /** Every record fits the indexer's schema, so the writer accepts it. */
  lemma {:induction false} IngestWithinSchema(kind: IndexKind, names: seq<string>, files: map<string, DocFile>)
    requires FilesFor(names, files)
    ensures forall r :: r in IngestNames(kind, names, files).records ==> r.Keys <= Schema(kind)
  {
    var os := Outcomes(kind, names, files);
    FoldRecords(names, os);
    OutcomesFitAll(kind, names, files);
    forall r | r in Fold(names, os).records ensures r.Keys <= Schema(kind) {
      var j :| 0 <= j < |os| && os[j] == Added(r);
    }
  }

  /** The records of a present folder come out in sorted order of their paths. */
  lemma {:induction false} IngestSorted(kind: IndexKind, folder: DocsFolder)
    requires WellFormedFolder(folder)
    ensures Sorted(Paths(Ingest(kind, folder).records))
  {
    if folder.Present? {
      var sorted := Sort(folder.listing);
      SortedFilesFor(folder.listing, folder.files);
      IngestPaths(kind, sorted, folder.files);
      var i := FirstMalformed(sorted, folder.files);
      PrefixSorted(sorted, i);
      FilterKeepsSorted(IsIndexable, sorted[..i]);
    }
  }

  /** Handling a longer listing only appends records: what a prefix produced is never revised. */
  lemma {:induction false} IngestPrefix(kind: IndexKind, names: seq<string>, files: map<string, DocFile>, n: nat)
    requires FilesFor(names, files) && n <= |names|
    ensures FilesFor(names[..n], files)
    ensures var short, long := IngestNames(kind, names[..n], files), IngestNames(kind, names, files);
      && short.records <= long.records
      && (short.failure.Some? ==> long == short)
  {
    HandleEachPrefix(Handler(kind), names, files, n);
    FoldPrefix(names, Outcomes(kind, names, files), n);
  }
}
