/** Column values of the shop's entities, and the bean-validation constraints on them.
    A record is what a row of the table holds, what an index document holds and, since the
    MapStruct mappers copy the fields one to one, what a DTO holds. A to-one association is
    kept as the id of the associated entity. Dates are epoch days. */
module Records {
  import opened JavaLang

  /** com.sample.shop.domain.enumeration.CategoryStatus, as far as its constants appear. */
  datatype CategoryStatus = Available | Restricted

  /** The @Size(max = 10) bound on Address.postcode. */
  const PostcodeMaxLength := 10
  /** The @Size(max = 2) bound on Address.country. */
  const CountryMaxLength := 2

  /** One field of a partial update (the mapper's partialUpdate, which skips null DTO
      properties): the DTO's value when it has one, the stored value otherwise. */
  function Overlay<T>(patch: Option<T>, current: Option<T>): (r: Option<T>)
    ensures patch.Some? ==> r == patch
    ensures patch.None? ==> r == current
  {
    if patch.Some? then patch else current
  }

  datatype ProductRecord = ProductRecord(
    id: Option<Uuid>,
    title: Option<string>,
    keywords: Option<string>,
    description: Option<string>,
    rating: Option<int>,
    dateAdded: Option<int>,
    dateModified: Option<int>,
    wishListId: Option<Uuid>)
  {
    /** @NotNull on title. */
    predicate Valid() {
      title.Some?
    }
  }

  /** The columns of a category that CategoryCriteria can filter on. */
  datatype CategoryRecord = CategoryRecord(
    id: Option<Uuid>,
    description: Option<string>,
    sortOrder: Option<int>,
    dateAdded: Option<int>,
    dateModified: Option<int>,
    status: Option<CategoryStatus>,
    parentId: Option<Uuid>)

  datatype WishListRecord = WishListRecord(
    id: Option<Uuid>,
    title: Option<string>,
    restricted: Option<bool>,
    customerId: Option<Uuid>)
  {
    /** @NotNull on title. */
    predicate Valid() {
      title.Some?
    }
  }

  datatype AddressRecord = AddressRecord(
    id: Option<Uuid>,
    address1: Option<string>,
    address2: Option<string>,
    city: Option<string>,
    postcode: Option<string>,
    country: Option<string>,
    customerId: Option<Uuid>)
  {
    /** @NotNull @Size(max = 10) on postcode and @NotNull @Size(max = 2) on country, whose
        sizes are String.length(), in UTF-16 code units; the other columns are unconstrained. */
    predicate Valid() {
      && postcode.Some? && Utf16Length(postcode.value) <= PostcodeMaxLength
      && country.Some? && Utf16Length(country.value) <= CountryMaxLength
    }
  }

  /** Address validity depends on postcode and country only, in both directions. */
  lemma AddressValidity(a: AddressRecord)
    ensures a.Valid() <==>
      (a.postcode.Some? && Utf16Length(a.postcode.value) <= 10 && a.country.Some? && Utf16Length(a.country.value) <= 2)
    ensures forall a1, a2, c :: a.(address1 := a1, address2 := a2, city := c).Valid() == a.Valid()
  {
  }

  /** A country of two characters from outside the Basic Multilingual Plane, such as the
      regional-indicator pair of a flag, is four UTF-16 units and breaks @Size(max = 2),
      while a two-letter code meets it. */
  lemma SupplementaryCountryIsTooLong(a: AddressRecord)
    requires a.postcode.Some? && Utf16Length(a.postcode.value) <= PostcodeMaxLength
    ensures !a.(country := Some(['\U{1F1EB}', '\U{1F1F7}'])).Valid()
    ensures a.(country := Some("FR")).Valid()
  {
    assert Utf16Length(['\U{1F1EB}', '\U{1F1F7}']) == 4 by {
      assert ['\U{1F1EB}', '\U{1F1F7}'][1..] == ['\U{1F1F7}'];
    }
    assert Utf16Length("FR") == 2 by {
      assert "FR"[1..] == "R";
    }
  }
}
