/** `MyIndex` of `Zaguan/index.py`: the twelve-field thesis index. */
module ZaguanIndex {
  import opened Wrappers
  import opened Ingestion
  import opened IndexWriting
  import opened Listing
  import opened HttpDate
  import opened Text

  class MyIndex {
    const writer: IndexWriter

    ghost predicate Valid()
      reads writer
    {
      writer.schema == ZaguanSchema && writer.Valid()
    }

    /** Creates the index with the Zaguan schema and opens its writer. */
    constructor()
      ensures Valid() && fresh(writer)
      ensures writer.documents == [] && !writer.committed
    {
      writer := new IndexWriter(ZaguanSchema);
    }

    /**
     * `index_docs`: handles the listing in sorted order and then commits;
     * a missing folder only commits.  An XML file that fails to parse stops
     * the run with its name, before the commit.
     */
    method IndexDocs(folder: DocsFolder) returns (failure: Option<string>)
      requires Valid() && !writer.committed && WellFormedFolder(folder)
      modifies writer
      ensures Valid()
      ensures writer.documents == old(writer.documents) + Ingest(Zaguan, folder).records
      ensures failure == Ingest(Zaguan, folder).failure
      ensures writer.committed <==> failure.None?
    {
      failure := None;
      if folder.Present? {
        SortedFilesFor(folder.listing, folder.files);
        failure := IndexNames(Sort(folder.listing), folder.files);
      }
      if failure.None? {
        writer.Commit();
      }
    }

    /** The loop of `index_docs` over the sorted names. */
    method IndexNames(names: seq<string>, files: map<string, DocFile>) returns (failure: Option<string>)
      requires Valid() && !writer.committed && FilesFor(names, files)
      modifies writer
      ensures Valid() && !writer.committed
      ensures writer.documents == old(writer.documents) + IngestNames(Zaguan, names, files).records
      ensures failure == IngestNames(Zaguan, names, files).failure
    {
      var i := 0;
      ghost var outcomes := Outcomes(Zaguan, names, files);
      ghost var done := IngestResult([], None);
      while i < |names|
        invariant 0 <= i <= |names|
        invariant Valid() && !writer.committed
        invariant done == Fold(names[..i], outcomes[..i])
        invariant done.failure.None? && writer.documents == old(writer.documents) + done.records
      {
        FoldNext(names, outcomes, i);
        OutcomeAt(Zaguan, names, files, i);
        var aborted := IndexFile(names[i], files[names[i]]);
        if aborted {
          FoldPrefix(names, outcomes, i + 1);
          return Some(names[i]);
        }
        if outcomes[i].Added? {
          done := IngestResult(done.records + [outcomes[i].record], None);
        }
        i := i + 1;
      }
      assert names[..i] == names && outcomes[..i] == outcomes;
      return None;
    }

    /** One turn of the `index_docs` loop: dispatch on the name's suffix. */
    method IndexFile(name: string, file: DocFile) returns (aborted: bool)
      requires Valid() && !writer.committed
      modifies writer
      ensures Valid() && !writer.committed
      ensures aborted <==> OutcomeOf(Zaguan, name, file).Aborted?
      ensures OutcomeOf(Zaguan, name, file).Added? ==>
        writer.documents == old(writer.documents) + [OutcomeOf(Zaguan, name, file).record]
      ensures !OutcomeOf(Zaguan, name, file).Added? ==> writer.documents == old(writer.documents)
    {
      aborted := false;
      if EndsWith(name, ".xml") {
        var parsed := IndexXmlDoc(name, file);
        aborted := !parsed;
      } else if EndsWith(name, ".txt") {
        IndexTxtDoc(name, file);
      }
    }

    /** `index_txt_doc`: adds the `path`/`content`/`modified` record of a text file. */
    method IndexTxtDoc(filename: string, file: DocFile)
      requires Valid() && !writer.committed
      modifies writer
      ensures Valid() && !writer.committed
      ensures writer.documents == old(writer.documents) + [TxtRecord(filename, file.text, file.mtime)]
    {
      writer.AddDocument(TxtRecord(filename, file.text, file.mtime));
    }

    /**
     * `index_xml_doc`: adds the twelve-field record of a parsed document;
     * reports `false`, adding nothing, when the file did not parse.
     */
    method IndexXmlDoc(filename: string, file: DocFile) returns (parsed: bool)
      requires Valid() && !writer.committed
      modifies writer
      ensures Valid() && !writer.committed
      ensures parsed <==> file.tree.Some?
      ensures parsed ==> writer.documents == old(writer.documents) + [XmlRecord(ZaguanSources, filename, file.tree.value, file.mtime)]
      ensures !parsed ==> writer.documents == old(writer.documents)
    {
      if file.tree.None? {
        return false;
      }
      var record := XmlRecord(ZaguanSources, filename, file.tree.value, file.mtime);
      writer.AddDocument(record);
      parsed := true;
    }
  }
}
