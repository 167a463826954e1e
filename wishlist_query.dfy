/** WishListQueryService: wish lists selected by a WishListCriteria. */
module WishListQuery {
  import opened JavaLang
  import opened Records
  import opened Filters
  import opened CriteriaClasses
  import opened CriteriaLaws
  import opened CriteriaSchemas
  import opened Columns
  import opened Specifications
  import opened Persistence

  /** A wish-list row, with the ids of the products that point to it. */
  datatype WishListRow = WishListRow(wishList: WishListRecord, productIds: set<Uuid>)

  /** What each WishListCriteria field reaches, in field order: the columns, the products
      LEFT join and the customer LEFT join. */
  function View(r: WishListRow): (row: Row)
    ensures |row| == |WishListCriteria.fields|
  {
    var w := r.wishList;
    [UuidColumn(w.id), StringColumn(w.title), BoolColumn(w.restricted), ToMany(r.productIds), UuidColumn(w.customerId)]
  }

  /** wishListMapper.toDto: the DTO carries the wish list's fields. */
  function ToDto(r: WishListRow): WishListRecord {
    r.wishList
  }

  predicate Selects(v: CriteriaValue, r: WishListRow)
    requires |v.filters| == |WishListCriteria.fields|
  {
    Matches(SpecificationOf(WishListCriteria, v), View(r))
  }

  /** A WishListCriteria with only field i set. */
  function Only(i: nat, spec: FilterSpec): (v: CriteriaValue)
    requires i < |WishListCriteria.fields|
    ensures |v.filters| == |WishListCriteria.fields|
  {
    OnlyField(WishListCriteria, i, spec)
  }

  /** A criteria object with one field set selects by that field's filter alone. */
  lemma SelectsOnly(i: nat, spec: FilterSpec, r: WishListRow)
    requires i < |WishListCriteria.fields|
    ensures Selects(Only(i, spec), r) <==> FilterHolds(WishListCriteria.fields[i].builder, spec, View(r)[i])
  {
    OnlyFieldMatches(WishListCriteria, i, spec, View(r));
  }

  /** findByCriteria(criteria): the DTOs of the matching wish lists, in table order. */
  method FindByCriteria(criteria: Criteria?, table: seq<WishListRow>) returns (dtos: seq<WishListRecord>)
    requires criteria != null ==> criteria.Valid() && criteria.schema == WishListCriteria
    ensures criteria == null ==> dtos == MapSeq(table, ToDto)
    ensures criteria != null ==> dtos == MapSeq(Find(SpecificationOf(WishListCriteria, criteria.Value()), View, table), ToDto)
  {
    var rows := Specifications.FindByCriteria(criteria, View, table);
    dtos := MapSeq(rows, ToDto);
  }

  /** findByCriteria(criteria, page). */
  method FindPageByCriteria(criteria: Criteria?, table: seq<WishListRow>, page: Pageable) returns (p: Page<WishListRecord>)
    requires criteria != null ==> criteria.Valid() && criteria.schema == WishListCriteria
    ensures criteria == null ==> p == MapPage(PageOf(table, page), ToDto)
    ensures criteria != null ==> p == MapPage(PageOf(Find(SpecificationOf(WishListCriteria, criteria.Value()), View, table), page), ToDto)
  {
    var rows := Specifications.FindPageByCriteria(criteria, View, table, page);
    p := MapPage(rows, ToDto);
  }

  /** countByCriteria(criteria): as many as findByCriteria returns. */
  method CountByCriteria(criteria: Criteria?, table: seq<WishListRow>) returns (n: nat)
    requires criteria != null ==> criteria.Valid() && criteria.schema == WishListCriteria
    ensures criteria == null ==> n == |table|
    ensures criteria != null ==> n == |Find(SpecificationOf(WishListCriteria, criteria.Value()), View, table)|
  {
    n := Specifications.CountByCriteria(criteria, View, table);
  }

  /** id.equals selects the wish list with that id, id.notEquals every other stored one. */
  lemma IdFiltering(r: WishListRow, x: Uuid)
    ensures Selects(Only(WishListId, IsEqualTo(UuidValue(x))), r) <==> r.wishList.id == Some(x)
    ensures Selects(Only(WishListId, IsNotEqualTo(UuidValue(x))), r) <==> r.wishList.id.Some? && r.wishList.id.value != x
  {
    var v := if r.wishList.id.Some? then Some(UuidValue(r.wishList.id.value)) else None;
    assert View(r)[WishListId] == Attribute(v);
    SelectsOnly(WishListId, IsEqualTo(UuidValue(x)), r);
    SelectsOnly(WishListId, IsNotEqualTo(UuidValue(x)), r);
    PlainComparisons(Plain, v, UuidValue(x), [], true);
  }

  /** restricted.equals selects by the flag; a wish list whose flag is null passes neither
      restricted.equals = true nor restricted.equals = false. */
  lemma RestrictedFilter(r: WishListRow, b: bool)
    ensures Selects(Only(WishListRestricted, IsEqualTo(BoolValue(b))), r) <==> r.wishList.restricted == Some(b)
    ensures Selects(Only(WishListRestricted, IsNotEqualTo(BoolValue(b))), r) <==> r.wishList.restricted == Some(!b)
  {
    var v := if r.wishList.restricted.Some? then Some(BoolValue(r.wishList.restricted.value)) else None;
    assert View(r)[WishListRestricted] == Attribute(v);
    SelectsOnly(WishListRestricted, IsEqualTo(BoolValue(b)), r);
    SelectsOnly(WishListRestricted, IsNotEqualTo(BoolValue(b)), r);
    PlainComparisons(Plain, v, BoolValue(b), [], true);
  }

  /** title.contains selects by case-blind substring of the title. */
  lemma TitleContains(r: WishListRow, text: string)
    ensures Selects(Only(WishListTitle, Contains(text)), r) <==> r.wishList.title.Some? && LikeUpper(text, r.wishList.title.value)
  {
    SelectsOnly(WishListTitle, Contains(text), r);
    TextComparisons(r.wishList.title, text);
  }

  /** productId.equals selects the wish lists holding that product; productId.specified =
      false the empty ones. */
  lemma ProductJoin(r: WishListRow, x: Uuid)
    ensures Selects(Only(WishListProductId, IsEqualTo(UuidValue(x))), r) <==> x in r.productIds
    ensures Selects(Only(WishListProductId, IsSpecifiedAs(false)), r) <==> r.productIds == {}
  {
    SelectsOnly(WishListProductId, IsEqualTo(UuidValue(x)), r);
    SelectsOnly(WishListProductId, IsSpecifiedAs(false), r);
    ToManyEquals(Plain, r.productIds, x);
    ToManySpecified(r.productIds, false);
  }

  /** customerId.equals selects the wish lists of that customer. */
  lemma CustomerJoin(r: WishListRow, x: Uuid)
    ensures Selects(Only(WishListCustomerId, IsEqualTo(UuidValue(x))), r) <==> r.wishList.customerId == Some(x)
  {
    var v := if r.wishList.customerId.Some? then Some(UuidValue(r.wishList.customerId.value)) else None;
    assert View(r)[WishListCustomerId] == Attribute(v);
    SelectsOnly(WishListCustomerId, IsEqualTo(UuidValue(x)), r);
    PlainComparisons(Plain, v, UuidValue(x), [], true);
  }
}
