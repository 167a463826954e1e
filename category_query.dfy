/** CategoryQueryService: categories selected by a CategoryCriteria. */
module CategoryQuery {
  import opened JavaLang
  import opened Records
  import opened Filters
  import opened CriteriaClasses
  import opened CriteriaLaws
  import opened CriteriaSchemas
  import opened Columns
  import opened Specifications
  import opened Persistence

  /** A category row, with the ids of its products from the join table. */
  datatype CategoryRow = CategoryRow(category: CategoryRecord, productIds: set<Uuid>)

  /** What each CategoryCriteria field reaches, in field order: the columns, the parent
      LEFT join and the products LEFT join. */
  function View(r: CategoryRow): (row: Row)
    ensures |row| == |CategoryCriteria.fields|
  {
    var c := r.category;
    [UuidColumn(c.id), StringColumn(c.description), IntColumn(c.sortOrder),
     DateColumn(c.dateAdded), DateColumn(c.dateModified), StatusColumn(c.status),
     UuidColumn(c.parentId), ToMany(r.productIds)]
  }

  /** categoryMapper.toDto: the DTO carries the category's fields. */
  function ToDto(r: CategoryRow): CategoryRecord {
    r.category
  }

  predicate Selects(v: CriteriaValue, r: CategoryRow)
    requires |v.filters| == |CategoryCriteria.fields|
  {
    Matches(SpecificationOf(CategoryCriteria, v), View(r))
  }

  /** A CategoryCriteria with only field i set. */
  function Only(i: nat, spec: FilterSpec): (v: CriteriaValue)
    requires i < |CategoryCriteria.fields|
    ensures |v.filters| == |CategoryCriteria.fields|
  {
    OnlyField(CategoryCriteria, i, spec)
  }

  /** A criteria object with one field set selects by that field's filter alone. */
  lemma SelectsOnly(i: nat, spec: FilterSpec, r: CategoryRow)
    requires i < |CategoryCriteria.fields|
    ensures Selects(Only(i, spec), r) <==> FilterHolds(CategoryCriteria.fields[i].builder, spec, View(r)[i])
  {
    OnlyFieldMatches(CategoryCriteria, i, spec, View(r));
  }

  /** findByCriteria(criteria): the DTOs of the matching categories, in table order. */
  method FindByCriteria(criteria: Criteria?, table: seq<CategoryRow>) returns (dtos: seq<CategoryRecord>)
    requires criteria != null ==> criteria.Valid() && criteria.schema == CategoryCriteria
    ensures criteria == null ==> dtos == MapSeq(table, ToDto)
    ensures criteria != null ==> dtos == MapSeq(Find(SpecificationOf(CategoryCriteria, criteria.Value()), View, table), ToDto)
  {
    var rows := Specifications.FindByCriteria(criteria, View, table);
    dtos := MapSeq(rows, ToDto);
  }

  /** findByCriteria(criteria, page). */
  method FindPageByCriteria(criteria: Criteria?, table: seq<CategoryRow>, page: Pageable) returns (p: Page<CategoryRecord>)
    requires criteria != null ==> criteria.Valid() && criteria.schema == CategoryCriteria
    ensures criteria == null ==> p == MapPage(PageOf(table, page), ToDto)
    ensures criteria != null ==> p == MapPage(PageOf(Find(SpecificationOf(CategoryCriteria, criteria.Value()), View, table), page), ToDto)
  {
    var rows := Specifications.FindPageByCriteria(criteria, View, table, page);
    p := MapPage(rows, ToDto);
  }

  /** countByCriteria(criteria): as many as findByCriteria returns. */
  method CountByCriteria(criteria: Criteria?, table: seq<CategoryRow>) returns (n: nat)
    requires criteria != null ==> criteria.Valid() && criteria.schema == CategoryCriteria
    ensures criteria == null ==> n == |table|
    ensures criteria != null ==> n == |Find(SpecificationOf(CategoryCriteria, criteria.Value()), View, table)|
  {
    n := Specifications.CountByCriteria(criteria, View, table);
  }

  /** id.equals selects the category with that id, id.notEquals every other stored category. */
  lemma IdFiltering(r: CategoryRow, x: Uuid)
    ensures Selects(Only(CategoryId, IsEqualTo(UuidValue(x))), r) <==> r.category.id == Some(x)
    ensures Selects(Only(CategoryId, IsNotEqualTo(UuidValue(x))), r) <==> r.category.id.Some? && r.category.id.value != x
  {
    var v := if r.category.id.Some? then Some(UuidValue(r.category.id.value)) else None;
    assert View(r)[CategoryId] == Attribute(v);
    SelectsOnly(CategoryId, IsEqualTo(UuidValue(x)), r);
    SelectsOnly(CategoryId, IsNotEqualTo(UuidValue(x)), r);
    PlainComparisons(Plain, v, UuidValue(x), [], true);
  }

  /** sortOrder.greaterThan and sortOrder.lessThan are strict, the OrEqual forms inclusive,
      and a category without sort order passes none of them. */
  lemma SortOrderComparisons(r: CategoryRow, x: int)
    ensures Selects(Only(CategorySortOrder, IsGreaterThan(IntValue(x))), r) <==> r.category.sortOrder.Some? && x < r.category.sortOrder.value
    ensures Selects(Only(CategorySortOrder, IsGreaterThanOrEqual(IntValue(x))), r) <==> r.category.sortOrder.Some? && x <= r.category.sortOrder.value
    ensures Selects(Only(CategorySortOrder, IsLessThan(IntValue(x))), r) <==> r.category.sortOrder.Some? && r.category.sortOrder.value < x
    ensures Selects(Only(CategorySortOrder, IsLessThanOrEqual(IntValue(x))), r) <==> r.category.sortOrder.Some? && r.category.sortOrder.value <= x
  {
    var v := if r.category.sortOrder.Some? then Some(IntValue(r.category.sortOrder.value)) else None;
    assert View(r)[CategorySortOrder] == Attribute(v);
    SelectsOnly(CategorySortOrder, IsGreaterThan(IntValue(x)), r);
    SelectsOnly(CategorySortOrder, IsGreaterThanOrEqual(IntValue(x)), r);
    SelectsOnly(CategorySortOrder, IsLessThan(IntValue(x)), r);
    SelectsOnly(CategorySortOrder, IsLessThanOrEqual(IntValue(x)), r);
    RangeComparisons(v, IntValue(x));
  }

  /** The enum constants of a status.in list, as filter values. */
  function StatusValues(ss: seq<CategoryStatus>): (xs: seq<Value>)
    ensures |xs| == |ss| && forall i :: 0 <= i < |ss| ==> xs[i] == StatusValue(ss[i])
  {
    seq(|ss|, i requires 0 <= i < |ss| => StatusValue(ss[i]))
  }

  /** status.equals and status.notEquals compare the enum constant; a category without
      status passes only status.specified = false. */
  lemma StatusFilter(r: CategoryRow, s: CategoryStatus)
    ensures Selects(Only(CategoryStatusField, IsEqualTo(StatusValue(s))), r) <==> r.category.status == Some(s)
    ensures Selects(Only(CategoryStatusField, IsNotEqualTo(StatusValue(s))), r) <==> r.category.status.Some? && r.category.status.value != s
    ensures Selects(Only(CategoryStatusField, IsSpecifiedAs(false)), r) <==> r.category.status.None?
  {
    var v := if r.category.status.Some? then Some(StatusValue(r.category.status.value)) else None;
    assert View(r)[CategoryStatusField] == Attribute(v);
    SelectsOnly(CategoryStatusField, IsEqualTo(StatusValue(s)), r);
    EqualsOnValue(Plain, v, StatusValue(s));
    SelectsOnly(CategoryStatusField, IsNotEqualTo(StatusValue(s)), r);
    NotEqualsOnValue(Plain, v, StatusValue(s));
    SelectsOnly(CategoryStatusField, IsSpecifiedAs(false), r);
    SpecifiedOnValue(Plain, v, false);
  }

  /** status.in selects the categories whose status is one of the listed constants. */
  lemma StatusIn(r: CategoryRow, ss: seq<CategoryStatus>)
    ensures Selects(Only(CategoryStatusField, IsIn(StatusValues(ss))), r) <==>
      r.category.status.Some? && r.category.status.value in ss
  {
    var v := if r.category.status.Some? then Some(StatusValue(r.category.status.value)) else None;
    var xs := StatusValues(ss);
    assert View(r)[CategoryStatusField] == Attribute(v);
    SelectsOnly(CategoryStatusField, IsIn(xs), r);
    InOnValue(Plain, v, xs);
    if r.category.status.Some? && r.category.status.value in ss {
      var i :| 0 <= i < |ss| && ss[i] == r.category.status.value;
      assert xs[i] == v.value;
    }
  }

  /** parentId.equals selects the children of that category. */
  lemma ParentJoin(r: CategoryRow, x: Uuid)
    ensures Selects(Only(CategoryParentId, IsEqualTo(UuidValue(x))), r) <==> r.category.parentId == Some(x)
    ensures Selects(Only(CategoryParentId, IsSpecifiedAs(false)), r) <==> r.category.parentId.None?
  {
    var v := if r.category.parentId.Some? then Some(UuidValue(r.category.parentId.value)) else None;
    assert View(r)[CategoryParentId] == Attribute(v);
    assert Selects(Only(CategoryParentId, IsEqualTo(UuidValue(x))), r) <==> r.category.parentId == Some(x) by {
      SelectsOnly(CategoryParentId, IsEqualTo(UuidValue(x)), r);
      EqualsOnValue(Plain, v, UuidValue(x));
    }
    assert Selects(Only(CategoryParentId, IsSpecifiedAs(false)), r) <==> r.category.parentId.None? by {
      SelectsOnly(CategoryParentId, IsSpecifiedAs(false), r);
      SpecifiedOnValue(Plain, v, false);
    }
  }

  /** productId.equals selects the categories holding that product; productId.notEquals those
      holding some other product; productId.specified = false the empty categories. */
  lemma ProductJoin(r: CategoryRow, x: Uuid)
    ensures Selects(Only(CategoryProductId, IsEqualTo(UuidValue(x))), r) <==> x in r.productIds
    ensures Selects(Only(CategoryProductId, IsNotEqualTo(UuidValue(x))), r) <==> exists p :: p in r.productIds && p != x
    ensures Selects(Only(CategoryProductId, IsSpecifiedAs(false)), r) <==> r.productIds == {}
  {
    SelectsOnly(CategoryProductId, IsEqualTo(UuidValue(x)), r);
    SelectsOnly(CategoryProductId, IsNotEqualTo(UuidValue(x)), r);
    SelectsOnly(CategoryProductId, IsSpecifiedAs(false), r);
    ToManyEquals(Plain, r.productIds, x);
    ToManyNotEquals(r.productIds, x);
    ToManySpecified(r.productIds, false);
  }

  /** In a table holding one category, findByCriteria returns it iff the criteria select it,
      and countByCriteria is 1 or 0 accordingly. */
  lemma OneCategoryTable(v: CriteriaValue, r: CategoryRow)
    requires |v.filters| == |CategoryCriteria.fields|
    ensures Find(SpecificationOf(CategoryCriteria, v), View, [r]) == (if Selects(v, r) then [r] else [])
    ensures Count(SpecificationOf(CategoryCriteria, v), View, [r]) == (if Selects(v, r) then 1 else 0)
  {
    OneRowTable(SpecificationOf(CategoryCriteria, v), View, r);
  }
}
