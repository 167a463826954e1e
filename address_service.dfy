/** AddressService: save, update, partialUpdate, findAll, findOne and delete over the address
    table, and the two match-all searches over the Hibernate Search index. An AddressDTO
    carries the address's columns and its customer's id, so a DTO is an AddressRecord and
    toEntity and toDto copy it unchanged. */
module AddressServices {
  import opened JavaLang
  import opened Records
  import opened Persistence

  /** addressMapper.partialUpdate(existing, dto): every non-null property of the DTO is
      copied onto the stored address, every null one leaves the stored value. */
  function Patch(existing: AddressRecord, dto: AddressRecord): AddressRecord {
    AddressRecord(
      Overlay(dto.id, existing.id),
      Overlay(dto.address1, existing.address1),
      Overlay(dto.address2, existing.address2),
      Overlay(dto.city, existing.city),
      Overlay(dto.postcode, existing.postcode),
      Overlay(dto.country, existing.country),
      Overlay(dto.customerId, existing.customerId))
  }

  /** The DTO with every property null. */
  const EmptyDto := AddressRecord(None, None, None, None, None, None, None)

  /** Each field of the result is the DTO's when the DTO sets it and the stored one when it
      does not. */
  lemma PatchOverwritesOnlyPatchedFields(existing: AddressRecord, dto: AddressRecord)
    ensures Patch(existing, dto).address1 == if dto.address1.Some? then dto.address1 else existing.address1
    ensures Patch(existing, dto).address2 == if dto.address2.Some? then dto.address2 else existing.address2
    ensures Patch(existing, dto).city == if dto.city.Some? then dto.city else existing.city
    ensures Patch(existing, dto).postcode == if dto.postcode.Some? then dto.postcode else existing.postcode
    ensures Patch(existing, dto).country == if dto.country.Some? then dto.country else existing.country
    ensures Patch(existing, dto).customerId == if dto.customerId.Some? then dto.customerId else existing.customerId
    ensures dto.id.None? || dto.id == existing.id ==> Patch(existing, dto).id == existing.id
  {
  }

  /** A DTO with no property set changes nothing, one with every property set replaces the
      address, and applying the same DTO twice is applying it once. */
  lemma PatchLaws(existing: AddressRecord, dto: AddressRecord)
    ensures Patch(existing, EmptyDto) == existing
    ensures (&& dto.id.Some? && dto.address1.Some? && dto.address2.Some? && dto.city.Some?
             && dto.postcode.Some? && dto.country.Some? && dto.customerId.Some?) ==> Patch(existing, dto) == dto
    ensures Patch(Patch(existing, dto), dto) == Patch(existing, dto)
  {
  }

  /** Two partial updates in a row are one partial update by the second DTO laid over the
      first. */
  lemma PatchesCompose(existing: AddressRecord, first: AddressRecord, second: AddressRecord)
    ensures Patch(Patch(existing, first), second) == Patch(existing, Patch(first, second))
  {
  }

  /** A valid address stays valid under a DTO whose postcode and country are null or within
      their bounds. */
  lemma PatchPreservesValidity(existing: AddressRecord, dto: AddressRecord)
    requires existing.Valid()
    requires dto.postcode.None? || Utf16Length(dto.postcode.value) <= PostcodeMaxLength
    requires dto.country.None? || Utf16Length(dto.country.value) <= CountryMaxLength
    ensures Patch(existing, dto).Valid()
  {
  }

  class AddressService {
    /** The address table and the Hibernate Search index of addresses. */
    var stores: Stores<AddressRecord>

    /** Automatic indexing has caught up with every committed write, and each stored
        address is valid and stored under its own id. */
    predicate Valid()
      reads this
    {
      && stores.Mirrored()
      && forall k :: k in stores.records ==> stores.records[k].id == Some(k) && stores.records[k].Valid()
    }

    constructor (stores: Stores<AddressRecord>)
      requires stores.Mirrored()
      requires forall k :: k in stores.records ==> stores.records[k].id == Some(k) && stores.records[k].Valid()
      ensures Valid() && this.stores == stores
    {
      this.stores := stores;
    }

    /** save(addressDTO): the address is persisted when it has no stored id (generated being
        the id the generator supplies) and merged otherwise; the DTO returned carries the id
        it was written under. A constraint violation throws and writes nothing. */
    method Save(dto: AddressRecord, generated: Uuid) returns (result: Outcome<AddressRecord>)
      requires Valid()
      modifies this
      ensures Valid()
      ensures var key := SaveKey(dto.id, old(stores.records), generated);
        && (dto.Valid() ==> result == Returns(dto.(id := Some(key))) && stores == old(stores).Put(key, dto.(id := Some(key))))
        && (!dto.Valid() ==> result == Throws(ConstraintViolationException) && stores == old(stores))
    {
      var key := SaveKey(dto.id, stores.records, generated);
      var saved := dto.(id := Some(key));
      var committed := Commit(stores, key, saved, saved.Valid());
      if committed.Returns? {
        stores := committed.value;
        result := Returns(saved);
      } else {
        result := Throws(committed.exception);
      }
    }

    /** update(addressDTO) runs the same steps as save. Updating a stored address keeps both
        sizes and leaves the new values in the table and in the index. */
    method Update(dto: AddressRecord, generated: Uuid) returns (result: Outcome<AddressRecord>)
      requires Valid()
      modifies this
      ensures Valid()
      ensures var key := SaveKey(dto.id, old(stores.records), generated);
        && (dto.Valid() ==> result == Returns(dto.(id := Some(key))) && stores == old(stores).Put(key, dto.(id := Some(key))))
        && (!dto.Valid() ==> result == Throws(ConstraintViolationException) && stores == old(stores))
      ensures dto.Valid() && dto.id.Some? && dto.id.value in old(stores.records) ==>
        && |stores.records| == |old(stores.records)| && |stores.index| == |old(stores.index)|
        && stores.records[dto.id.value] == dto && stores.index[dto.id.value] == dto
    {
      ghost var before := stores;
      result := Save(dto, generated);
      if dto.Valid() && dto.id.Some? && dto.id.value in before.records {
        PutSizes(before, dto.id.value, dto);
      }
    }

    /** partialUpdate(addressDTO): findById(dto.id), then the patch and a save. A null id
        throws; an unknown id gives an empty Optional and changes nothing; a stored id is
        overwritten by the patched address, which keeps both sizes. */
    method PartialUpdate(dto: AddressRecord) returns (result: Outcome<Option<AddressRecord>>)
      requires Valid()
      modifies this
      ensures Valid()
      ensures dto.id.None? ==> result == Throws(IllegalArgumentException) && stores == old(stores)
      ensures dto.id.Some? && dto.id.value !in old(stores.records) ==> result == Returns(None) && stores == old(stores)
      ensures dto.id.Some? && dto.id.value in old(stores.records) ==>
        var patched := Patch(old(stores.records)[dto.id.value], dto);
        && (patched.Valid() ==> result == Returns(Some(patched)) && stores == old(stores).Put(dto.id.value, patched))
        && (!patched.Valid() ==> result == Throws(ConstraintViolationException) && stores == old(stores))
      ensures |stores.records| == |old(stores.records)| && |stores.index| == |old(stores.index)|
    {
      if dto.id.None? {
        result := Throws(IllegalArgumentException);
        return;
      }
      var id := dto.id.value;
      if id !in stores.records {
        result := Returns(None);
        return;
      }
      var patched := Patch(stores.records[id], dto);
      // The patched address keeps its stored id, so the save merges it under that id.
      assert SaveKey(patched.id, stores.records, id) == id;
      PutSizes(stores, id, patched);
      var committed := Commit(stores, id, patched, patched.Valid());
      if committed.Returns? {
        stores := committed.value;
        result := Returns(Some(patched));
      } else {
        result := Throws(committed.exception);
      }
    }

    /** findAll(pageable): the requested page of the table in the database's order, which
        order lists. */
    method FindAll(pageable: Pageable, order: seq<Uuid>) returns (page: Page<AddressRecord>)
      requires Valid() && Enumerates(order, stores.records)
      ensures page == PageOf(Rows(order, stores.records), pageable)
      ensures page.total == |stores.records|
    {
      EnumerationSize(order, stores.records);
      page := PageOf(Rows(order, stores.records), pageable);
    }

    /** findOne(id): the stored address, or an empty Optional; a null id throws. */
    function FindOne(id: Option<Uuid>): (r: Outcome<Option<AddressRecord>>)
      reads this
      ensures r.Throws? <==> id.None?
      ensures r.Throws? ==> r.exception == IllegalArgumentException
      ensures r.Returns? ==> (r.value.Some? <==> id.value in stores.records)
      ensures r.Returns? && r.value.Some? ==> r.value.value == stores.records[id.value]
    {
      if id.None? then Throws(IllegalArgumentException)
      else if id.value in stores.records then Returns(Some(stores.records[id.value]))
      else Returns(None)
    }

    /** delete(id): deleteById removes exactly that id from the table and the index; a null
        id throws, and so does an unknown one. */
    method Delete(id: Option<Uuid>) returns (result: Outcome<()>)
      requires Valid()
      modifies this
      ensures Valid()
      ensures id.None? ==> result == Throws(IllegalArgumentException) && stores == old(stores)
      ensures id.Some? && id.value !in old(stores.records) ==>
        result == Throws(EmptyResultDataAccessException) && stores == old(stores)
      ensures id.Some? && id.value in old(stores.records) ==>
        && result == Returns(()) && stores == old(stores).Remove(id.value)
        && |stores.records| == |old(stores.records)| - 1 && |stores.index| == |old(stores.index)| - 1
    {
      if id.None? {
        result := Throws(IllegalArgumentException);
      } else if id.value !in stores.records {
        result := Throws(EmptyResultDataAccessException);
      } else {
        RemoveSizes(stores, id.value);
        stores := stores.Remove(id.value);
        result := Returns(());
      }
    }

    /** search(query, pageable): a match-all query whatever the query string, the first 20
        hits loaded from the table, in a PageImpl whose total is the number returned. hits
        is the order in which the index returns its documents. */
    method Search(query: string, pageable: Pageable, hits: seq<Uuid>) returns (page: Page<AddressRecord>)
      requires Valid() && Enumerates(hits, stores.index)
      ensures page == PageImpl(Rows(Take(hits, FetchLimit), stores.records), pageable, |Take(hits, FetchLimit)|)
      ensures |page.content| == if |stores.index| < FetchLimit then |stores.index| else FetchLimit
      ensures |stores.index| <= FetchLimit ==> forall k :: k in stores.index ==> stores.index[k] in page.content
      ensures pageable.Unpaged? || pageable.Offset() == 0 ==> page.total == |page.content|
    {
      EnumerationSize(hits, stores.index);
      var loaded := Rows(Take(hits, FetchLimit), stores.records);
      page := PageImpl(loaded, pageable, |loaded|);
      if |stores.index| <= FetchLimit {
        SmallEnumerationIsTakenWhole(hits, stores.index, FetchLimit);
      }
    }

    /** searchWithProjection(query, pageable): the same match-all query, but the DTOs are
        projected from the first 20 index documents instead of loaded from the table. */
    method SearchWithProjection(query: string, pageable: Pageable, hits: seq<Uuid>) returns (page: Page<AddressRecord>)
      requires Valid() && Enumerates(hits, stores.index)
      ensures page == PageImpl(Rows(Take(hits, FetchLimit), stores.index), pageable, |Take(hits, FetchLimit)|)
      ensures |page.content| == if |stores.index| < FetchLimit then |stores.index| else FetchLimit
    {
      EnumerationSize(hits, stores.index);
      var projected := Rows(Take(hits, FetchLimit), stores.index);
      page := PageImpl(projected, pageable, |projected|);
    }
  }

  /** The query string plays no part: two searches with different strings return the same
      page, and the projection returns what loading returns. */
  method SearchIgnoresQuery(service: AddressService, q1: string, q2: string, pageable: Pageable, hits: seq<Uuid>)
    returns (first: Page<AddressRecord>, second: Page<AddressRecord>, projected: Page<AddressRecord>)
    requires service.Valid() && Enumerates(hits, service.stores.index)
    ensures first == second && second == projected
  {
    first := service.Search(q1, pageable, hits);
    second := service.Search(q2, pageable, hits);
    projected := service.SearchWithProjection(q2, pageable, hits);
  }

  /** On a later page of at least 20 the search returns the same first hits again, and
      PageImpl reports the page's offset plus their number as the total. */
  method LaterPageRepeatsFirstHits(service: AddressService, pageable: Pageable, hits: seq<Uuid>)
    returns (firstPage: Page<AddressRecord>, later: Page<AddressRecord>)
    requires service.Valid() && Enumerates(hits, service.stores.index) && hits != []
    requires pageable.PageRequest? && pageable.pageNumber > 0 && pageable.pageSize >= FetchLimit
    ensures later.content == firstPage.content
    ensures later.total == pageable.Offset() + |later.content|
  {
    firstPage := service.Search("", PageRequest(0, pageable.pageSize), hits);
    later := service.Search("", pageable, hits);
    LaterPageOffset(pageable);
  }

  /** A saved address is found under the id the save returned. */
  method SaveThenFindOne(service: AddressService, dto: AddressRecord, generated: Uuid) returns (saved: Outcome<AddressRecord>)
    requires service.Valid() && dto.Valid()
    modifies service
    ensures saved.Returns? && service.FindOne(saved.value.id) == Returns(Some(saved.value))
  {
    saved := service.Save(dto, generated);
  }

  /** A deleted address is no longer found. */
  method DeleteThenFindOne(service: AddressService, id: Uuid) returns (deleted: Outcome<()>)
    requires service.Valid() && id in service.stores.records
    modifies service
    ensures deleted == Returns(()) && service.FindOne(Some(id)) == Returns(None)
  {
    deleted := service.Delete(Some(id));
  }
}
