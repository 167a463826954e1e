/** The bean-validation constraints at work: a record that violates one is never written. */
module Validation {
  import opened JavaLang
  import opened Records
  import opened Persistence

  /** Saving a product without title throws, and neither the table nor the index grows. */
  lemma ProductWithoutTitleIsRejected(s: Stores<ProductRecord>, key: Uuid, p: ProductRecord)
    requires s.Mirrored() && p.title.None?
    ensures Commit(s, key, p, p.Valid()) == Throws(ConstraintViolationException)
    ensures |After(s, Commit(s, key, p, p.Valid())).records| == |s.records|
    ensures |After(s, Commit(s, key, p, p.Valid())).index| == |s.index|
  {
    CommitSizes(s, key, p, p.Valid());
  }

  /** The same for a wish list without title. */
  lemma WishListWithoutTitleIsRejected(s: Stores<WishListRecord>, key: Uuid, w: WishListRecord)
    requires s.Mirrored() && w.title.None?
    ensures Commit(s, key, w, w.Valid()) == Throws(ConstraintViolationException)
    ensures |After(s, Commit(s, key, w, w.Valid())).records| == |s.records|
    ensures |After(s, Commit(s, key, w, w.Valid())).index| == |s.index|
  {
    CommitSizes(s, key, w, w.Valid());
  }

  /** An address without postcode or without country, or with either too long, is rejected
      with both sizes unchanged. */
  lemma InvalidAddressIsRejected(s: Stores<AddressRecord>, key: Uuid, a: AddressRecord)
    requires s.Mirrored()
    requires a.postcode.None? || a.country.None? || Utf16Length(a.postcode.value) > PostcodeMaxLength || Utf16Length(a.country.value) > CountryMaxLength
    ensures Commit(s, key, a, a.Valid()) == Throws(ConstraintViolationException)
    ensures |After(s, Commit(s, key, a, a.Valid())).records| == |s.records|
    ensures |After(s, Commit(s, key, a, a.Valid())).index| == |s.index|
  {
    CommitSizes(s, key, a, a.Valid());
  }

  /** A valid new record is written under its key, and the stores stay mirrored. */
  lemma ValidRecordIsWritten<R>(s: Stores<R>, key: Uuid, r: R)
    requires s.Mirrored() && key !in s.records
    ensures Commit(s, key, r, true) == Returns(s.Put(key, r))
    ensures |After(s, Commit(s, key, r, true)).records| == |s.records| + 1
    ensures |After(s, Commit(s, key, r, true)).index| == |s.index| + 1
    ensures After(s, Commit(s, key, r, true)).Mirrored()
  {
    PutSizes(s, key, r);
  }
}
