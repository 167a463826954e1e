/** The five criteria classes as schemas: field names, filter classes and builders in
    declaration order, which is also the order of equals, hashCode and toString. */
module CriteriaSchemas {
  import opened Filters
  import opened CriteriaClasses
  import opened CriteriaLaws

  /** The builder QueryService provides for a filter class: strings go to the string builder,
      range filters to the range builder, every other filter to the plain one. */
  function BuilderFor(kind: FilterKind): Builder {
    if kind == StringFilter then Text else if IsRangeKind(kind) then Range else Plain
  }

  /** Every field goes to the builder of its filter class, and field names are distinct. */
  predicate WellFormed(schema: Schema) {
    && (forall i :: 0 <= i < |schema.fields| ==> schema.fields[i].builder == BuilderFor(schema.fields[i].kind))
    && (forall i, j :: 0 <= i < j < |schema.fields| ==> schema.fields[i].name != schema.fields[j].name)
  }

  function Field(name: string, kind: FilterKind): FieldDecl {
    FieldDecl(name, kind, BuilderFor(kind))
  }

  const ProductCriteria := Schema("ProductCriteria", [
    Field("id", UuidFilter), Field("title", StringFilter), Field("keywords", StringFilter),
    Field("description", StringFilter), Field("rating", IntegerFilter),
    Field("dateAdded", LocalDateFilter), Field("dateModified", LocalDateFilter),
    Field("wishListId", UuidFilter), Field("categoryId", UuidFilter)])

  const ProductId := 0
  const ProductTitle := 1
  const ProductKeywords := 2
  const ProductDescription := 3
  const ProductRating := 4
  const ProductDateAdded := 5
  const ProductDateModified := 6
  const ProductWishListId := 7
  const ProductCategoryId := 8

  const CategoryCriteria := Schema("CategoryCriteria", [
    Field("id", UuidFilter), Field("description", StringFilter), Field("sortOrder", IntegerFilter),
    Field("dateAdded", LocalDateFilter), Field("dateModified", LocalDateFilter),
    Field("status", CategoryStatusFilter), Field("parentId", UuidFilter), Field("productId", UuidFilter)])

  const CategoryId := 0
  const CategoryDescription := 1
  const CategorySortOrder := 2
  const CategoryDateAdded := 3
  const CategoryDateModified := 4
  const CategoryStatusField := 5
  const CategoryParentId := 6
  const CategoryProductId := 7

  const CustomerCriteria := Schema("CustomerCriteria", [
    Field("id", UuidFilter), Field("firstName", StringFilter), Field("lastName", StringFilter),
    Field("email", StringFilter), Field("telephone", StringFilter),
    Field("wishListId", UuidFilter), Field("addressId", UuidFilter)])

  const AddressCriteria := Schema("AddressCriteria", [
    Field("id", UuidFilter), Field("address1", StringFilter), Field("address2", StringFilter),
    Field("city", StringFilter), Field("postcode", StringFilter), Field("country", StringFilter),
    Field("customerId", UuidFilter)])

  const AddressId := 0
  const AddressAddress1 := 1
  const AddressAddress2 := 2
  const AddressCity := 3
  const AddressPostcode := 4
  const AddressCountry := 5
  const AddressCustomerId := 6

  const WishListCriteria := Schema("WishListCriteria", [
    Field("id", UuidFilter), Field("title", StringFilter), Field("restricted", BooleanFilter),
    Field("productId", UuidFilter), Field("customerId", UuidFilter)])

  const WishListId := 0
  const WishListTitle := 1
  const WishListRestricted := 2
  const WishListProductId := 3
  const WishListCustomerId := 4

  /** Each schema is well formed; with distinct, the 9, 8, 7, 7 and 5 filter fields make
      the 10, 9, 8, 8 and 6 fields that equals, hashCode and toString cover. */
  lemma ProductCriteriaIsWellFormed()
    ensures WellFormed(ProductCriteria) && |ProductCriteria.fields| == 9
  {
  }

  lemma CategoryCriteriaIsWellFormed()
    ensures WellFormed(CategoryCriteria) && |CategoryCriteria.fields| == 8
  {
  }

  lemma CustomerCriteriaIsWellFormed()
    ensures WellFormed(CustomerCriteria) && |CustomerCriteria.fields| == 7
  {
  }

  lemma AddressCriteriaIsWellFormed()
    ensures WellFormed(AddressCriteria) && |AddressCriteria.fields| == 7
  {
  }

  lemma WishListCriteriaIsWellFormed()
    ensures WellFormed(WishListCriteria) && |WishListCriteria.fields| == 5
  {
  }

  /** The status filter is a CategoryStatusFilter handled by the plain builder, and
      restricted a BooleanFilter handled by the plain builder: neither compares by order. */
  lemma StatusAndRestrictedArePlain()
    ensures CategoryCriteria.fields[CategoryStatusField] == FieldDecl("status", CategoryStatusFilter, Plain)
    ensures WishListCriteria.fields[WishListRestricted] == FieldDecl("restricted", BooleanFilter, Plain)
  {
  }

  /** The five address text fields use the string builder. */
  lemma AddressTextFieldsUseStringFilters()
    ensures forall i :: AddressAddress1 <= i <= AddressCountry ==>
      AddressCriteria.fields[i].kind == StringFilter && AddressCriteria.fields[i].builder == Text
  {
  }

  /** An empty criteria object of each class prints as its class name followed by "{}". */
  lemma EmptyProductCriteriaString(show: FilterValue -> string)
    ensures Render(ProductCriteria, EmptyValue(ProductCriteria), show) == "ProductCriteria{}"
  {
    RenderEmpty(ProductCriteria, show);
  }

  lemma EmptyCategoryCriteriaString(show: FilterValue -> string)
    ensures Render(CategoryCriteria, EmptyValue(CategoryCriteria), show) == "CategoryCriteria{}"
  {
    RenderEmpty(CategoryCriteria, show);
  }

  lemma EmptyCustomerCriteriaString(show: FilterValue -> string)
    ensures Render(CustomerCriteria, EmptyValue(CustomerCriteria), show) == "CustomerCriteria{}"
  {
    RenderEmpty(CustomerCriteria, show);
  }

  lemma EmptyAddressCriteriaString(show: FilterValue -> string)
    ensures Render(AddressCriteria, EmptyValue(AddressCriteria), show) == "AddressCriteria{}"
  {
    RenderEmpty(AddressCriteria, show);
  }

  lemma EmptyWishListCriteriaString(show: FilterValue -> string)
    ensures Render(WishListCriteria, EmptyValue(WishListCriteria), show) == "WishListCriteria{}"
  {
    RenderEmpty(WishListCriteria, show);
  }
}
