/** AddressQueryService: addresses selected by an AddressCriteria. */
module AddressQuery {
  import opened JavaLang
  import opened Records
  import opened Filters
  import opened CriteriaClasses
  import opened CriteriaLaws
  import opened CriteriaSchemas
  import opened Columns
  import opened Specifications
  import opened Persistence

  /** What each AddressCriteria field reaches, in field order: the columns and the customer
      LEFT join. */
  function View(a: AddressRecord): (row: Row)
    ensures |row| == |AddressCriteria.fields|
  {
    [UuidColumn(a.id), StringColumn(a.address1), StringColumn(a.address2), StringColumn(a.city),
     StringColumn(a.postcode), StringColumn(a.country), UuidColumn(a.customerId)]
  }

  /** addressMapper.toDto: the DTO carries the address's fields. */
  function ToDto(a: AddressRecord): AddressRecord {
    a
  }

  predicate Selects(v: CriteriaValue, a: AddressRecord)
    requires |v.filters| == |AddressCriteria.fields|
  {
    Matches(SpecificationOf(AddressCriteria, v), View(a))
  }

  /** An AddressCriteria with only field i set. */
  function Only(i: nat, spec: FilterSpec): (v: CriteriaValue)
    requires i < |AddressCriteria.fields|
    ensures |v.filters| == |AddressCriteria.fields|
  {
    OnlyField(AddressCriteria, i, spec)
  }

  /** A criteria object with one field set selects by that field's filter alone. */
  lemma SelectsOnly(i: nat, spec: FilterSpec, a: AddressRecord)
    requires i < |AddressCriteria.fields|
    ensures Selects(Only(i, spec), a) <==> FilterHolds(AddressCriteria.fields[i].builder, spec, View(a)[i])
  {
    OnlyFieldMatches(AddressCriteria, i, spec, View(a));
  }

  /** findByCriteria(criteria): the DTOs of the matching addresses, in table order. */
  method FindByCriteria(criteria: Criteria?, table: seq<AddressRecord>) returns (dtos: seq<AddressRecord>)
    requires criteria != null ==> criteria.Valid() && criteria.schema == AddressCriteria
    ensures criteria == null ==> dtos == table
    ensures criteria != null ==> dtos == Find(SpecificationOf(AddressCriteria, criteria.Value()), View, table)
  {
    var rows := Specifications.FindByCriteria(criteria, View, table);
    dtos := MapSeq(rows, ToDto);
  }

  /** findByCriteria(criteria, page). */
  method FindPageByCriteria(criteria: Criteria?, table: seq<AddressRecord>, page: Pageable) returns (p: Page<AddressRecord>)
    requires criteria != null ==> criteria.Valid() && criteria.schema == AddressCriteria
    ensures criteria == null ==> p == PageOf(table, page)
    ensures criteria != null ==> p == PageOf(Find(SpecificationOf(AddressCriteria, criteria.Value()), View, table), page)
  {
    var rows := Specifications.FindPageByCriteria(criteria, View, table, page);
    p := MapPage(rows, ToDto);
  }

  /** countByCriteria(criteria): as many as findByCriteria returns. */
  method CountByCriteria(criteria: Criteria?, table: seq<AddressRecord>) returns (n: nat)
    requires criteria != null ==> criteria.Valid() && criteria.schema == AddressCriteria
    ensures criteria == null ==> n == |table|
    ensures criteria != null ==> n == |Find(SpecificationOf(AddressCriteria, criteria.Value()), View, table)|
  {
    n := Specifications.CountByCriteria(criteria, View, table);
  }

  /** id.equals selects the address with that id, id.notEquals every other stored address. */
  lemma IdFiltering(a: AddressRecord, x: Uuid)
    ensures Selects(Only(AddressId, IsEqualTo(UuidValue(x))), a) <==> a.id == Some(x)
    ensures Selects(Only(AddressId, IsNotEqualTo(UuidValue(x))), a) <==> a.id.Some? && a.id.value != x
  {
    var v := if a.id.Some? then Some(UuidValue(a.id.value)) else None;
    assert View(a)[AddressId] == Attribute(v);
    SelectsOnly(AddressId, IsEqualTo(UuidValue(x)), a);
    SelectsOnly(AddressId, IsNotEqualTo(UuidValue(x)), a);
    PlainComparisons(Plain, v, UuidValue(x), [], true);
  }

  /** city.contains and postcode.contains select by case-blind substring, the
      doesNotContain forms by its absence; a null column passes neither. */
  lemma TextFilters(a: AddressRecord, text: string)
    ensures Selects(Only(AddressCity, Contains(text)), a) <==> a.city.Some? && LikeUpper(text, a.city.value)
    ensures Selects(Only(AddressCity, DoesNotContain(text)), a) <==> a.city.Some? && !LikeUpper(text, a.city.value)
    ensures Selects(Only(AddressPostcode, Contains(text)), a) <==> a.postcode.Some? && LikeUpper(text, a.postcode.value)
    ensures Selects(Only(AddressPostcode, DoesNotContain(text)), a) <==> a.postcode.Some? && !LikeUpper(text, a.postcode.value)
  {
    SelectsOnly(AddressCity, Contains(text), a);
    SelectsOnly(AddressCity, DoesNotContain(text), a);
    SelectsOnly(AddressPostcode, Contains(text), a);
    SelectsOnly(AddressPostcode, DoesNotContain(text), a);
    TextComparisons(a.city, text);
    TextComparisons(a.postcode, text);
  }

  /** Postcode and country are required, so postcode.specified = false and
      country.specified = false select no valid address. */
  lemma RequiredColumnsAreSpecified(a: AddressRecord)
    requires a.Valid()
    ensures !Selects(Only(AddressPostcode, IsSpecifiedAs(false)), a)
    ensures !Selects(Only(AddressCountry, IsSpecifiedAs(false)), a)
    ensures Selects(Only(AddressPostcode, IsSpecifiedAs(true)), a)
  {
    var p := Some(StringValue(a.postcode.value));
    var c := Some(StringValue(a.country.value));
    assert View(a)[AddressPostcode] == Attribute(p);
    assert View(a)[AddressCountry] == Attribute(c);
    SelectsOnly(AddressPostcode, IsSpecifiedAs(false), a);
    SelectsOnly(AddressPostcode, IsSpecifiedAs(true), a);
    SelectsOnly(AddressCountry, IsSpecifiedAs(false), a);
    PlainComparisons(Text, p, StringValue(""), [], false);
    PlainComparisons(Text, p, StringValue(""), [], true);
    PlainComparisons(Text, c, StringValue(""), [], false);
  }

  /** customerId.equals selects the addresses of that customer. */
  lemma CustomerJoin(a: AddressRecord, x: Uuid)
    ensures Selects(Only(AddressCustomerId, IsEqualTo(UuidValue(x))), a) <==> a.customerId == Some(x)
  {
    var v := if a.customerId.Some? then Some(UuidValue(a.customerId.value)) else None;
    assert View(a)[AddressCustomerId] == Attribute(v);
    SelectsOnly(AddressCustomerId, IsEqualTo(UuidValue(x)), a);
    PlainComparisons(Plain, v, UuidValue(x), [], true);
  }

  /** In a table holding one address, findByCriteria returns it iff the criteria select it,
      and countByCriteria is 1 or 0 accordingly. */
  lemma OneAddressTable(v: CriteriaValue, a: AddressRecord)
    requires |v.filters| == |AddressCriteria.fields|
    ensures Find(SpecificationOf(AddressCriteria, v), View, [a]) == (if Selects(v, a) then [a] else [])
    ensures Count(SpecificationOf(AddressCriteria, v), View, [a]) == (if Selects(v, a) then 1 else 0)
  {
    OneRowTable(SpecificationOf(AddressCriteria, v), View, a);
  }
}
