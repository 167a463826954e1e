/** WishListDTO: four properties with setters, and an equals and hashCode that look at the
    id alone. The customer property, a CustomerDTO, is kept as that DTO's id. */
module WishListDtos {
  import opened JavaLang

  /** The hash Objects.hash gives a nullable UUID. */
  function NullableUuidHash(u: Option<Uuid>): int32 {
    if u.None? then 0 else UuidHash(u.value)
  }

  class WishListDTO {
    var id: Option<Uuid>
    var title: Option<string>
    var restricted: Option<bool>
    var customer: Option<Uuid>

    /** new WishListDTO(): every property null. */
    constructor ()
      ensures id.None? && title.None? && restricted.None? && customer.None?
    {
      id, title, restricted, customer := None, None, None, None;
    }

    // Each setter assigns its own property; the getters read the fields.

    method SetId(id: Option<Uuid>)
      modifies this`id
      ensures this.id == id
    {
      this.id := id;
    }

    method SetTitle(title: Option<string>)
      modifies this`title
      ensures this.title == title
    {
      this.title := title;
    }

    method SetRestricted(restricted: Option<bool>)
      modifies this`restricted
      ensures this.restricted == restricted
    {
      this.restricted := restricted;
    }

    method SetCustomer(customer: Option<Uuid>)
      modifies this`customer
      ensures this.customer == customer
    {
      this.customer := customer;
    }

    /** equals: the same object, or another WishListDTO with the same non-null id. */
    predicate Equals(o: object?)
      reads this, o
      ensures this == o ==> Equals(o)
      ensures Equals(o) && this != o ==> o is WishListDTO && id.Some?
    {
      this == o || (o is WishListDTO && id.Some? && id == (o as WishListDTO).id)
    }

    /** hashCode: Objects.hash(id), that is 31 + the id's hash in 32-bit arithmetic. */
    function HashCode(): (h: int32)
      reads this
      ensures h == Wrap(31 + NullableUuidHash(id) as int)
      ensures id.None? ==> h == 31
    {
      var hashes := [NullableUuidHash(id)];
      assert HashFold(1, hashes) == HashFold(Wrap(31 + hashes[0] as int), hashes[1..]);
      ObjectsHash(hashes)
    }
  }

  /** equals is reflexive and symmetric, and on distinct DTOs it is true exactly when both
      ids are non-null and equal; a DTO with a null id equals only itself; nothing but a
      WishListDTO is equal to one. */
  lemma EqualsIsById(a: WishListDTO, b: WishListDTO, o: object?)
    ensures a.Equals(a)
    ensures a.Equals(b) <==> b.Equals(a)
    ensures a != b ==> (a.Equals(b) <==> a.id.Some? && a.id == b.id)
    ensures a.id.None? ==> (a.Equals(b) <==> a == b)
    ensures o != null && !(o is WishListDTO) ==> !a.Equals(o)
  {
  }

  /** equals is transitive. */
  lemma EqualsIsTransitive(a: WishListDTO, b: WishListDTO, c: WishListDTO)
    requires a.Equals(b) && b.Equals(c)
    ensures a.Equals(c)
  {
  }

  /** Equal DTOs hash equally, and the hash is fixed by the id alone. */
  lemma EqualDtosHashEqually(a: WishListDTO, b: WishListDTO)
    ensures a.Equals(b) ==> a.HashCode() == b.HashCode()
    ensures a.id == b.id ==> a.HashCode() == b.HashCode()
  {
  }

  /** Title, restricted and customer play no part: changing them changes neither equality
      nor the hash. */
  method OtherPropertiesAreIgnored(a: WishListDTO, b: WishListDTO, title: Option<string>, restricted: Option<bool>, customer: Option<Uuid>)
    requires a != b
    modifies a`title, a`restricted, a`customer
    ensures a.id == old(a.id) && b.id == old(b.id)
    ensures a.Equals(b) == old(a.Equals(b)) && a.HashCode() == old(a.HashCode())
    ensures a.title == title && a.restricted == restricted && a.customer == customer
  {
    a.SetTitle(title);
    a.SetRestricted(restricted);
    a.SetCustomer(customer);
  }

  /** A setter followed by the getter gives back the value, and leaves the other properties
      as they were. */
  method SetThenGet(d: WishListDTO, title: Option<string>) returns (got: Option<string>)
    modifies d`title
    ensures got == title
    ensures d.id == old(d.id) && d.restricted == old(d.restricted) && d.customer == old(d.customer)
  {
    d.SetTitle(title);
    got := d.title;
  }
}
