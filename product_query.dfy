/** ProductQueryService: products selected by a ProductCriteria. */
module ProductQuery {
  import opened JavaLang
  import opened Records
  import opened Filters
  import opened CriteriaClasses
  import opened CriteriaLaws
  import opened CriteriaSchemas
  import opened Columns
  import opened Specifications
  import opened Persistence

  /** A product row, with the ids of its categories from the join table. */
  datatype ProductRow = ProductRow(product: ProductRecord, categoryIds: set<Uuid>)

  /** What each ProductCriteria field reaches, in field order: the columns, the wishList
      LEFT join and the categories LEFT join. */
  function View(r: ProductRow): (row: Row)
    ensures |row| == |ProductCriteria.fields|
  {
    var p := r.product;
    [UuidColumn(p.id), StringColumn(p.title), StringColumn(p.keywords), StringColumn(p.description),
     IntColumn(p.rating), DateColumn(p.dateAdded), DateColumn(p.dateModified),
     UuidColumn(p.wishListId), ToMany(r.categoryIds)]
  }

  /** productMapper.toDto: the DTO carries the product's fields. */
  function ToDto(r: ProductRow): ProductRecord {
    r.product
  }

  predicate Selects(v: CriteriaValue, r: ProductRow)
    requires |v.filters| == |ProductCriteria.fields|
  {
    Matches(SpecificationOf(ProductCriteria, v), View(r))
  }

  /** A ProductCriteria with only field i set. */
  function Only(i: nat, spec: FilterSpec): (v: CriteriaValue)
    requires i < |ProductCriteria.fields|
    ensures |v.filters| == |ProductCriteria.fields|
  {
    OnlyField(ProductCriteria, i, spec)
  }

  /** A criteria object with one field set selects by that field's filter alone. */
  lemma SelectsOnly(i: nat, spec: FilterSpec, r: ProductRow)
    requires i < |ProductCriteria.fields|
    ensures Selects(Only(i, spec), r) <==> FilterHolds(ProductCriteria.fields[i].builder, spec, View(r)[i])
  {
    OnlyFieldMatches(ProductCriteria, i, spec, View(r));
  }

  /** findByCriteria(criteria): the DTOs of the matching products, in table order. */
  method FindByCriteria(criteria: Criteria?, table: seq<ProductRow>) returns (dtos: seq<ProductRecord>)
    requires criteria != null ==> criteria.Valid() && criteria.schema == ProductCriteria
    ensures criteria == null ==> dtos == MapSeq(table, ToDto)
    ensures criteria != null ==> dtos == MapSeq(Find(SpecificationOf(ProductCriteria, criteria.Value()), View, table), ToDto)
  {
    var rows := Specifications.FindByCriteria(criteria, View, table);
    dtos := MapSeq(rows, ToDto);
  }

  /** findByCriteria(criteria, page). */
  method FindPageByCriteria(criteria: Criteria?, table: seq<ProductRow>, page: Pageable) returns (p: Page<ProductRecord>)
    requires criteria != null ==> criteria.Valid() && criteria.schema == ProductCriteria
    ensures criteria == null ==> p == MapPage(PageOf(table, page), ToDto)
    ensures criteria != null ==> p == MapPage(PageOf(Find(SpecificationOf(ProductCriteria, criteria.Value()), View, table), page), ToDto)
  {
    var rows := Specifications.FindPageByCriteria(criteria, View, table, page);
    p := MapPage(rows, ToDto);
  }

  /** countByCriteria(criteria): as many as findByCriteria returns. */
  method CountByCriteria(criteria: Criteria?, table: seq<ProductRow>) returns (n: nat)
    requires criteria != null ==> criteria.Valid() && criteria.schema == ProductCriteria
    ensures criteria == null ==> n == |table|
    ensures criteria != null ==> n == |Find(SpecificationOf(ProductCriteria, criteria.Value()), View, table)|
  {
    n := Specifications.CountByCriteria(criteria, View, table);
  }

  /** id.equals selects the product with that id, id.notEquals every other stored product. */
  lemma IdFiltering(r: ProductRow, x: Uuid)
    ensures Selects(Only(ProductId, IsEqualTo(UuidValue(x))), r) <==> r.product.id == Some(x)
    ensures Selects(Only(ProductId, IsNotEqualTo(UuidValue(x))), r) <==> r.product.id.Some? && r.product.id.value != x
  {
    var v := if r.product.id.Some? then Some(UuidValue(r.product.id.value)) else None;
    assert View(r)[ProductId] == Attribute(v);
    SelectsOnly(ProductId, IsEqualTo(UuidValue(x)), r);
    SelectsOnly(ProductId, IsNotEqualTo(UuidValue(x)), r);
    PlainComparisons(Plain, v, UuidValue(x), [], true);
  }

  /** rating.greaterThan and rating.lessThan are strict, the OrEqual forms inclusive, and a
      product without rating passes none of them. */
  lemma RatingComparisons(r: ProductRow, x: int)
    ensures Selects(Only(ProductRating, IsGreaterThan(IntValue(x))), r) <==> r.product.rating.Some? && x < r.product.rating.value
    ensures Selects(Only(ProductRating, IsGreaterThanOrEqual(IntValue(x))), r) <==> r.product.rating.Some? && x <= r.product.rating.value
    ensures Selects(Only(ProductRating, IsLessThan(IntValue(x))), r) <==> r.product.rating.Some? && r.product.rating.value < x
    ensures Selects(Only(ProductRating, IsLessThanOrEqual(IntValue(x))), r) <==> r.product.rating.Some? && r.product.rating.value <= x
  {
    var v := if r.product.rating.Some? then Some(IntValue(r.product.rating.value)) else None;
    assert View(r)[ProductRating] == Attribute(v);
    SelectsOnly(ProductRating, IsGreaterThan(IntValue(x)), r);
    SelectsOnly(ProductRating, IsGreaterThanOrEqual(IntValue(x)), r);
    SelectsOnly(ProductRating, IsLessThan(IntValue(x)), r);
    SelectsOnly(ProductRating, IsLessThanOrEqual(IntValue(x)), r);
    RangeComparisons(v, IntValue(x));
  }

  /** The same for dateAdded, in calendar order. */
  lemma DateAddedComparisons(r: ProductRow, day: int)
    ensures Selects(Only(ProductDateAdded, IsGreaterThan(DateValue(day))), r) <==> r.product.dateAdded.Some? && day < r.product.dateAdded.value
    ensures Selects(Only(ProductDateAdded, IsGreaterThanOrEqual(DateValue(day))), r) <==> r.product.dateAdded.Some? && day <= r.product.dateAdded.value
    ensures Selects(Only(ProductDateAdded, IsLessThan(DateValue(day))), r) <==> r.product.dateAdded.Some? && r.product.dateAdded.value < day
    ensures Selects(Only(ProductDateAdded, IsLessThanOrEqual(DateValue(day))), r) <==> r.product.dateAdded.Some? && r.product.dateAdded.value <= day
  {
    var v := if r.product.dateAdded.Some? then Some(DateValue(r.product.dateAdded.value)) else None;
    assert View(r)[ProductDateAdded] == Attribute(v);
    SelectsOnly(ProductDateAdded, IsGreaterThan(DateValue(day)), r);
    SelectsOnly(ProductDateAdded, IsGreaterThanOrEqual(DateValue(day)), r);
    SelectsOnly(ProductDateAdded, IsLessThan(DateValue(day)), r);
    SelectsOnly(ProductDateAdded, IsLessThanOrEqual(DateValue(day)), r);
    RangeComparisons(v, DateValue(day));
  }

  /** title.contains selects the products whose title contains the text, ignoring case, and
      title.doesNotContain those whose title does not; a product always contains its own
      title. */
  lemma TitleContains(r: ProductRow, text: string)
    ensures Selects(Only(ProductTitle, Contains(text)), r) <==> r.product.title.Some? && LikeUpper(text, r.product.title.value)
    ensures Selects(Only(ProductTitle, DoesNotContain(text)), r) <==> r.product.title.Some? && !LikeUpper(text, r.product.title.value)
    ensures r.product.title == Some(text) ==> Selects(Only(ProductTitle, Contains(text)), r)
  {
    assert View(r)[ProductTitle] == StringColumn(r.product.title);
    SelectsOnly(ProductTitle, Contains(text), r);
    ContainsOnValue(r.product.title, text);
    SelectsOnly(ProductTitle, DoesNotContain(text), r);
    DoesNotContainOnValue(r.product.title, text);
    ContainsItself(text);
  }

  /** categoryId.equals selects the products in that category; categoryId.notEquals those
      in some other category (a product in both still passes); categoryId.specified = false
      those in none. */
  lemma CategoryJoin(r: ProductRow, x: Uuid)
    ensures Selects(Only(ProductCategoryId, IsEqualTo(UuidValue(x))), r) <==> x in r.categoryIds
    ensures Selects(Only(ProductCategoryId, IsNotEqualTo(UuidValue(x))), r) <==> exists c :: c in r.categoryIds && c != x
    ensures Selects(Only(ProductCategoryId, IsSpecifiedAs(false)), r) <==> r.categoryIds == {}
  {
    SelectsOnly(ProductCategoryId, IsEqualTo(UuidValue(x)), r);
    SelectsOnly(ProductCategoryId, IsNotEqualTo(UuidValue(x)), r);
    SelectsOnly(ProductCategoryId, IsSpecifiedAs(false), r);
    ToManyEquals(Plain, r.categoryIds, x);
    ToManyNotEquals(r.categoryIds, x);
    ToManySpecified(r.categoryIds, false);
  }

  /** wishListId.equals selects the products of that wish list. */
  lemma WishListJoin(r: ProductRow, x: Uuid)
    ensures Selects(Only(ProductWishListId, IsEqualTo(UuidValue(x))), r) <==> r.product.wishListId == Some(x)
  {
    var v := if r.product.wishListId.Some? then Some(UuidValue(r.product.wishListId.value)) else None;
    assert View(r)[ProductWishListId] == Attribute(v);
    SelectsOnly(ProductWishListId, IsEqualTo(UuidValue(x)), r);
    PlainComparisons(Plain, v, UuidValue(x), [], true);
  }

  /** In a table holding one product, findByCriteria returns it iff the criteria select it,
      and countByCriteria is 1 or 0 accordingly. */
  lemma OneProductTable(v: CriteriaValue, r: ProductRow)
    requires |v.filters| == |ProductCriteria.fields|
    ensures Find(SpecificationOf(ProductCriteria, v), View, [r]) == (if Selects(v, r) then [r] else [])
    ensures Count(SpecificationOf(ProductCriteria, v), View, [r]) == (if Selects(v, r) then 1 else 0)
  {
    OneRowTable(SpecificationOf(ProductCriteria, v), View, r);
  }
}
