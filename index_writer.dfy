/**
 * The Whoosh index writer as the indexers use it: `add_document(**fields)`
 * appends a record, `commit()` closes the writer.  Storage, analysers and
 * segment merging are not part of this model.
 */
module IndexWriting {
  import opened Ingestion

  class IndexWriter {
    /** The field names of the index's schema. */
    const schema: set<FieldName>
    /** The documents added so far, in the order they were added. */
    var documents: seq<Record>
    var committed: bool

    /** Every added document uses only schema fields. */
    ghost predicate Valid()
      reads this
    {
      forall d :: d in documents ==> d.Keys <= schema
    }

    /** `create_in(folder, schema).writer()`: an empty index open for writing. */
    constructor(schema: set<FieldName>)
      ensures this.schema == schema
      ensures documents == [] && !committed
      ensures Valid()
    {
      this.schema := schema;
      documents := [];
      committed := false;
    }

    /**
     * `add_document`: Whoosh rejects a field the schema does not declare and
     * a writer that was already committed.
     */
    method AddDocument(doc: Record)
      requires Valid() && !committed
      requires doc.Keys <= schema
      modifies this
      ensures documents == old(documents) + [doc] && !committed
      ensures Valid()
    {
      documents := documents + [doc];
    }

    /** `commit()`: the documents stay, the writer is closed. */
    method Commit()
      requires !committed
      modifies this
      ensures committed && documents == old(documents)
    {
      committed := true;
    }
  }
}
