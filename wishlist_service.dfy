/** WishListService: save, update, partialUpdate, findAll, findOne and delete over the
    wish-list table, and two searches that compute a capped match-all result over the
    Hibernate Search index, drop it, and return what the Elasticsearch repository finds for
    the query. A WishListDTO carries the wish list's columns and its customer's id, so a DTO
    is a WishListRecord and the mappers copy it unchanged. */
module WishListServices {
  import opened JavaLang
  import opened Records
  import opened Persistence
  import opened WishListSearch

  /** wishListMapper.partialUpdate(existing, dto): non-null DTO properties overwrite, null
      ones keep the stored value. */
  function Patch(existing: WishListRecord, dto: WishListRecord): WishListRecord {
    WishListRecord(
      Overlay(dto.id, existing.id),
      Overlay(dto.title, existing.title),
      Overlay(dto.restricted, existing.restricted),
      Overlay(dto.customerId, existing.customerId))
  }

  /** Each field of the result is the DTO's when the DTO sets it and the stored one when it
      does not; a null title never erases the stored one, so a valid wish list stays valid. */
  lemma PatchOverwritesOnlyPatchedFields(existing: WishListRecord, dto: WishListRecord)
    ensures Patch(existing, dto).title == if dto.title.Some? then dto.title else existing.title
    ensures Patch(existing, dto).restricted == if dto.restricted.Some? then dto.restricted else existing.restricted
    ensures Patch(existing, dto).customerId == if dto.customerId.Some? then dto.customerId else existing.customerId
    ensures dto.id.None? || dto.id == existing.id ==> Patch(existing, dto).id == existing.id
    ensures existing.Valid() ==> Patch(existing, dto).Valid()
  {
  }

  /** An all-null DTO changes nothing, a full DTO replaces the wish list, the same DTO twice
      is the DTO once, and successive DTOs lay over each other. */
  lemma PatchLaws(existing: WishListRecord, dto: WishListRecord, next: WishListRecord)
    ensures Patch(existing, WishListRecord(None, None, None, None)) == existing
    ensures (dto.id.Some? && dto.title.Some? && dto.restricted.Some? && dto.customerId.Some?) ==> Patch(existing, dto) == dto
    ensures Patch(Patch(existing, dto), dto) == Patch(existing, dto)
    ensures Patch(Patch(existing, dto), next) == Patch(existing, Patch(dto, next))
  {
  }

  class WishListService {
    /** The wish-list table and the Hibernate Search index of wish lists. */
    var stores: Stores<WishListRecord>
    /** The Spring Data Elasticsearch repository the searches return from. Its documents are
        those of the Hibernate Search index: the entity is indexed as "wishlist" and read by the
        repository through the alias "wishlist-read". */
    const searchRepository: WishListSearchRepository

    /** Automatic indexing has caught up with every committed write, the repository reads
        that same index, and each stored wish list is valid and stored under its own id. */
    predicate Valid()
      reads this, searchRepository
    {
      && stores.Mirrored()
      && searchRepository.documents == stores.index
      && forall k :: k in stores.records ==> stores.records[k].id == Some(k) && stores.records[k].Valid()
    }

    constructor (stores: Stores<WishListRecord>, searchRepository: WishListSearchRepository)
      requires stores.Mirrored() && searchRepository.documents == stores.index
      requires forall k :: k in stores.records ==> stores.records[k].id == Some(k) && stores.records[k].Valid()
      ensures Valid() && this.stores == stores && this.searchRepository == searchRepository
    {
      this.stores := stores;
      this.searchRepository := searchRepository;
    }

    /** save(wishListDTO): persisted under the generated id when it has no stored id, merged
        otherwise; a wish list without title throws and writes nothing. */
    method Save(dto: WishListRecord, generated: Uuid) returns (result: Outcome<WishListRecord>)
      requires Valid()
      modifies this`stores, searchRepository`documents
      ensures Valid()
      ensures var key := SaveKey(dto.id, old(stores.records), generated);
        && (dto.Valid() ==> result == Returns(dto.(id := Some(key))) && stores == old(stores).Put(key, dto.(id := Some(key))))
        && (!dto.Valid() ==> result == Throws(ConstraintViolationException) && stores == old(stores))
    {
      var key := SaveKey(dto.id, stores.records, generated);
      var saved := dto.(id := Some(key));
      var committed := Commit(stores, key, saved, saved.Valid());
      if committed.Returns? {
        stores := committed.value;
        searchRepository.documents := stores.index;
        result := Returns(saved);
      } else {
        result := Throws(committed.exception);
      }
    }

    /** update(wishListDTO) runs the same steps as save; updating a stored wish list keeps
        both sizes. */
    method Update(dto: WishListRecord, generated: Uuid) returns (result: Outcome<WishListRecord>)
      requires Valid()
      modifies this`stores, searchRepository`documents
      ensures Valid()
      ensures var key := SaveKey(dto.id, old(stores.records), generated);
        && (dto.Valid() ==> result == Returns(dto.(id := Some(key))) && stores == old(stores).Put(key, dto.(id := Some(key))))
        && (!dto.Valid() ==> result == Throws(ConstraintViolationException) && stores == old(stores))
      ensures dto.Valid() && dto.id.Some? && dto.id.value in old(stores.records) ==>
        |stores.records| == |old(stores.records)| && |stores.index| == |old(stores.index)|
    {
      ghost var before := stores;
      result := Save(dto, generated);
      if dto.Valid() && dto.id.Some? && dto.id.value in before.records {
        PutSizes(before, dto.id.value, dto);
      }
    }

    /** partialUpdate(wishListDTO): a null id throws, an unknown id gives an empty Optional
        and changes nothing, a stored id is overwritten by the patched wish list. Since the
        stored wish list has a title, the patched one has too, and the save goes through. */
    method PartialUpdate(dto: WishListRecord) returns (result: Outcome<Option<WishListRecord>>)
      requires Valid()
      modifies this`stores, searchRepository`documents
      ensures Valid()
      ensures dto.id.None? ==> result == Throws(IllegalArgumentException) && stores == old(stores)
      ensures dto.id.Some? && dto.id.value !in old(stores.records) ==> result == Returns(None) && stores == old(stores)
      ensures dto.id.Some? && dto.id.value in old(stores.records) ==>
        var patched := Patch(old(stores.records)[dto.id.value], dto);
        result == Returns(Some(patched)) && stores == old(stores).Put(dto.id.value, patched)
      ensures |stores.records| == |old(stores.records)| && |stores.index| == |old(stores.index)|
    {
      if dto.id.None? {
        result := Throws(IllegalArgumentException);
        return;
      }
      var id := dto.id.value;
      if id !in stores.records {
        result := Returns(None);
        return;
      }
      var patched := Patch(stores.records[id], dto);
      PatchOverwritesOnlyPatchedFields(stores.records[id], dto);
      PutSizes(stores, id, patched);
      var committed := Commit(stores, id, patched, patched.Valid());
      stores := committed.value;
      searchRepository.documents := stores.index;
      result := Returns(Some(patched));
    }

    /** findAll(): one DTO per stored wish list, in the database's order, which order lists. */
    method FindAll(order: seq<Uuid>) returns (dtos: seq<WishListRecord>)
      requires Valid() && Enumerates(order, stores.records)
      ensures dtos == Rows(order, stores.records)
      ensures |dtos| == |stores.records|
      ensures forall k :: k in stores.records ==> stores.records[k] in dtos
      ensures forall i :: 0 <= i < |dtos| ==> dtos[i].id.Some? && dtos[i].id.value in stores.records
    {
      EnumerationSize(order, stores.records);
      dtos := Rows(order, stores.records);
      forall k | k in stores.records ensures stores.records[k] in dtos {
        var i :| 0 <= i < |order| && order[i] == k;
        assert dtos[i] == stores.records[k];
      }
    }

    /** findOne(id): empty exactly when no stored wish list has that id; a null id throws. */
    function FindOne(id: Option<Uuid>): (r: Outcome<Option<WishListRecord>>)
      reads this
      ensures r.Throws? <==> id.None?
      ensures r.Throws? ==> r.exception == IllegalArgumentException
      ensures r.Returns? ==> (r.value.None? <==> id.value !in stores.records)
      ensures r.Returns? && r.value.Some? ==> r.value.value == stores.records[id.value]
    {
      if id.None? then Throws(IllegalArgumentException)
      else if id.value in stores.records then Returns(Some(stores.records[id.value]))
      else Returns(None)
    }

    /** delete(id): removes exactly that id from the table and the index, which is also what
        the search repository reads; a null or unknown id throws. */
    method Delete(id: Option<Uuid>) returns (result: Outcome<()>)
      requires Valid()
      modifies this`stores, searchRepository`documents
      ensures Valid()
      ensures id.None? ==> result == Throws(IllegalArgumentException) && stores == old(stores)
      ensures id.Some? && id.value !in old(stores.records) ==>
        result == Throws(EmptyResultDataAccessException) && stores == old(stores)
      ensures id.Some? && id.value in old(stores.records) ==>
        && result == Returns(()) && stores == old(stores).Remove(id.value)
        && searchRepository.documents == old(searchRepository.documents) - {id.value}
        && |stores.records| == |old(stores.records)| - 1 && |stores.index| == |old(stores.index)| - 1
    {
      if id.None? {
        result := Throws(IllegalArgumentException);
      } else if id.value !in stores.records {
        result := Throws(EmptyResultDataAccessException);
      } else {
        RemoveSizes(stores, id.value);
        stores := stores.Remove(id.value);
        searchRepository.documents := stores.index;
        result := Returns(());
      }
    }

    /** search(query): the first 20 match-all hits are loaded and dropped; the result is the
        search repository's answer to the query, one DTO per hit in hit order. hits is the
        order in which the Hibernate Search index returns its documents, engine the
        Elasticsearch search behind the repository, run over the index the writes keep. Every
        result is a stored wish list. */
    method Search(query: string, hits: seq<Uuid>, engine: Engine) returns (dtos: seq<WishListRecord>)
      requires Valid() && Enumerates(hits, stores.index)
      ensures var found := engine(stores.index, query);
        |dtos| == |found| && forall i :: 0 <= i < |found| ==> dtos[i] == found[i].content
      ensures forall i :: 0 <= i < |dtos| ==> dtos[i] in stores.records.Values
    {
      var wishes := Rows(Take(hits, FetchLimit), stores.records);
      dtos := searchRepository.Search(engine, query);
    }

    /** searchWithProjection(query): the dropped list is projected from the index documents
        instead, and the result is again the search repository's answer. */
    method SearchWithProjection(query: string, hits: seq<Uuid>, engine: Engine) returns (dtos: seq<WishListRecord>)
      requires Valid() && Enumerates(hits, stores.index)
      ensures var found := engine(stores.index, query);
        |dtos| == |found| && forall i :: 0 <= i < |found| ==> dtos[i] == found[i].content
      ensures forall i :: 0 <= i < |dtos| ==> dtos[i] in stores.records.Values
    {
      var wishes := Rows(Take(hits, FetchLimit), stores.index);
      dtos := searchRepository.Search(engine, query);
    }
  }

  /** The match-all hits play no part in what is returned, and searchWithProjection returns
      exactly what search returns. */
  method SearchDiscardsMatchAll(service: WishListService, query: string, hits: seq<Uuid>, reordered: seq<Uuid>, engine: Engine)
    returns (first: seq<WishListRecord>, second: seq<WishListRecord>, projected: seq<WishListRecord>)
    requires service.Valid() && Enumerates(hits, service.stores.index) && Enumerates(reordered, service.stores.index)
    ensures first == second && second == projected
  {
    first := service.Search(query, hits, engine);
    second := service.Search(query, reordered, engine);
    projected := service.SearchWithProjection(query, reordered, engine);
  }

  /** A partial update of a stored wish list always succeeds and is then what findOne
      returns. */
  method PartialUpdateThenFindOne(service: WishListService, dto: WishListRecord) returns (updated: Outcome<Option<WishListRecord>>)
    requires service.Valid() && dto.id.Some? && dto.id.value in service.stores.records
    modifies service`stores, service.searchRepository`documents
    ensures updated.Returns? && updated.value.Some?
    ensures service.FindOne(dto.id) == Returns(updated.value)
  {
    updated := service.PartialUpdate(dto);
  }

  /** A committed save is visible to the next search: the engine runs over the index with the
      saved wish list written under its key. */
  method SaveThenSearch(service: WishListService, dto: WishListRecord, generated: Uuid,
                        query: string, hits: seq<Uuid>, engine: Engine)
    returns (saved: Outcome<WishListRecord>, found: seq<WishListRecord>)
    requires service.Valid() && dto.Valid()
    requires var key := SaveKey(dto.id, service.stores.records, generated);
      Enumerates(hits, service.stores.index[key := dto.(id := Some(key))])
    modifies service`stores, service.searchRepository`documents
    ensures var key := SaveKey(dto.id, old(service.stores.records), generated);
      && saved == Returns(dto.(id := Some(key)))
      && found == service.searchRepository.SearchQuery(engine(old(service.stores.index)[key := dto.(id := Some(key))], query))
  {
    saved := service.Save(dto, generated);
    found := service.Search(query, hits, engine);
  }

  /** Once a wish list is deleted, no search returns it, whatever the query and the engine. */
  method DeleteThenSearch(service: WishListService, id: Uuid, query: string, hits: seq<Uuid>, engine: Engine)
    returns (deleted: Outcome<()>, found: seq<WishListRecord>)
    requires service.Valid() && id in service.stores.records
    requires Enumerates(hits, service.stores.index - {id})
    modifies service`stores, service.searchRepository`documents
    ensures deleted == Returns(())
    ensures forall i :: 0 <= i < |found| ==> found[i].id.Some? && found[i].id.value != id
  {
    deleted := service.Delete(Some(id));
    found := service.Search(query, hits, engine);
    forall i | 0 <= i < |found| ensures found[i].id.Some? && found[i].id.value != id {
      var k :| k in service.stores.records && service.stores.records[k] == found[i];
    }
  }
}
