/** WishListSearchRepository: the Spring Data Elasticsearch index of wish lists, searched by
    query string and filled by index(entity). */
module WishListSearch {
  import opened JavaLang
  import opened Records

  /** org.springframework.data.elasticsearch.core.SearchHit: one hit and the entity read
      from its document. */
  datatype SearchHit = SearchHit(content: WishListRecord)

  /** Elasticsearch itself, which the model does not evaluate: given the documents and a
      query string, the hits in the order the engine ranks them. Every hit is read from one
      of the documents it is given. */
  type Engine = e: (map<Uuid, WishListRecord>, string) -> seq<SearchHit> |
    forall documents, query, i :: 0 <= i < |e(documents, query)| ==> e(documents, query)[i].content in documents.Values
    witness (documents: map<Uuid, WishListRecord>, query: string) => []

  /** The documents after index(entity) for an entity with id id:
      repository.findById(id).ifPresent(elasticsearchTemplate::save). */
  function Reindexed(documents: map<Uuid, WishListRecord>, records: map<Uuid, WishListRecord>, id: Uuid): map<Uuid, WishListRecord> {
    if id in records then documents[id := records[id]] else documents
  }

  class WishListSearchRepository {
    /** The documents of the wish-list index, by id. */
    var documents: map<Uuid, WishListRecord>

    constructor (documents: map<Uuid, WishListRecord>)
      ensures this.documents == documents
    {
      this.documents := documents;
    }

    /** search(Query): searchHits.map(SearchHit::getContent).stream(), the content of each
        hit in hit order. */
    function SearchQuery(hits: seq<SearchHit>): (r: seq<WishListRecord>)
      ensures |r| == |hits| && forall i :: 0 <= i < |hits| ==> r[i] == hits[i].content
    {
      seq(|hits|, i requires 0 <= i < |hits| => hits[i].content)
    }

    /** search(String): a query-string query run over the documents, then search(Query).
        Each result is one of the documents. */
    function Search(engine: Engine, query: string): (r: seq<WishListRecord>)
      reads this
      ensures var hits := engine(documents, query);
        |r| == |hits| && forall i :: 0 <= i < |hits| ==> r[i] == hits[i].content
      ensures forall i :: 0 <= i < |r| ==> r[i] in documents.Values
    {
      SearchQuery(engine(documents, query))
    }

    /** index(entity): the record the table holds under the entity's id, if any, is written
        to the index; the entity's own field values are not used. findById(null) throws. */
    method Index(entity: WishListRecord, records: map<Uuid, WishListRecord>) returns (result: Outcome<()>)
      modifies this`documents
      ensures entity.id.None? ==> result == Throws(IllegalArgumentException) && documents == old(documents)
      ensures entity.id.Some? ==> result == Returns(()) && documents == Reindexed(old(documents), records, entity.id.value)
    {
      if entity.id.None? {
        result := Throws(IllegalArgumentException);
      } else {
        var stored := if entity.id.value in records then Some(records[entity.id.value]) else None;
        if stored.Some? {
          documents := documents[entity.id.value := stored.value];
        }
        result := Returns(());
      }
    }
  }

  /** Indexing writes the stored record, whatever the entity passed in holds, and indexes
      nothing when the table has no record with that id. */
  lemma ReindexWritesStoredRecord(documents: map<Uuid, WishListRecord>, records: map<Uuid, WishListRecord>, entity: WishListRecord)
    requires entity.id.Some?
    ensures entity.id.value in records ==>
      entity.id.value in Reindexed(documents, records, entity.id.value) &&
      Reindexed(documents, records, entity.id.value)[entity.id.value] == records[entity.id.value]
    ensures entity.id.value !in records ==> Reindexed(documents, records, entity.id.value) == documents
  {
  }

  /** Indexing changes only the document keyed by the id. */
  lemma ReindexTouchesOnlyItsKey(documents: map<Uuid, WishListRecord>, records: map<Uuid, WishListRecord>, id: Uuid)
    ensures forall k :: k != id ==> (k in Reindexed(documents, records, id) <==> k in documents)
    ensures forall k :: k != id && k in documents ==> Reindexed(documents, records, id)[k] == documents[k]
  {
  }

  /** Indexing twice leaves the index as indexing once. */
  lemma ReindexIsIdempotent(documents: map<Uuid, WishListRecord>, records: map<Uuid, WishListRecord>, id: Uuid)
    ensures Reindexed(Reindexed(documents, records, id), records, id) == Reindexed(documents, records, id)
  {
  }

  /** Once the index holds the table's record for every id, indexing any stored entity
      changes nothing more. */
  lemma ReindexOfMirroredIndexIsNoOp(records: map<Uuid, WishListRecord>, id: Uuid)
    ensures Reindexed(records, records, id) == records
  {
  }

  /** Two calls of index(entity) leave the documents as one call does, whatever entity holds
      besides its id. */
  method IndexTwice(repository: WishListSearchRepository, entity: WishListRecord, other: WishListRecord,
                    records: map<Uuid, WishListRecord>)
    returns (first: Outcome<()>, second: Outcome<()>)
    requires entity.id.Some? && other.id == entity.id
    modifies repository`documents
    ensures first == second == Returns(())
    ensures repository.documents == Reindexed(old(repository.documents), records, entity.id.value)
  {
    first := repository.Index(entity, records);
    second := repository.Index(other, records);
    ReindexIsIdempotent(old(repository.documents), records, entity.id.value);
  }
}
