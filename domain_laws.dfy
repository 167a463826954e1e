/** What the entities' equals, hashCode and association helpers guarantee together:
    equals is an equivalence decided by non-null ids, hashCode agrees with it, HashSet
    membership is reference membership once ids are distinct, adding twice is adding once,
    and the helpers leave the other side of an association alone. */
module DomainLaws {
  import opened JavaLang
  import opened Domain

  /** Product.equals: reflexive, symmetric, transitive; two distinct objects are equal iff
      they share a non-null id, so a product without id equals only itself. */
  lemma ProductEquality(a: Product, b: Product, c: Product)
    ensures a.Equals(a)
    ensures a.Equals(b) <==> b.Equals(a)
    ensures a.Equals(b) && b.Equals(c) ==> a.Equals(c)
    ensures a != b ==> (a.Equals(b) <==> a.id.Some? && a.id == b.id)
    ensures a != b && (a.id.None? || b.id.None?) ==> !a.Equals(b)
    ensures a.HashCode() == b.HashCode()
  {
  }

  /** Nothing but a Product equals a Product. */
  lemma ProductEqualsOnlyProducts(p: Product, o: object?)
    requires !(o is Product)
    ensures !p.Equals(o)
  {
  }

  lemma CustomerEquality(a: Customer, b: Customer, c: Customer)
    ensures a.Equals(a)
    ensures a.Equals(b) <==> b.Equals(a)
    ensures a.Equals(b) && b.Equals(c) ==> a.Equals(c)
    ensures a != b ==> (a.Equals(b) <==> a.id.Some? && a.id == b.id)
    ensures a != b && (a.id.None? || b.id.None?) ==> !a.Equals(b)
    ensures a.HashCode() == b.HashCode()
  {
  }

  lemma WishListEquality(a: WishList, b: WishList, c: WishList)
    ensures a.Equals(a)
    ensures a.Equals(b) <==> b.Equals(a)
    ensures a.Equals(b) && b.Equals(c) ==> a.Equals(c)
    ensures a != b ==> (a.Equals(b) <==> a.id.Some? && a.id == b.id)
    ensures a != b && (a.id.None? || b.id.None?) ==> !a.Equals(b)
    ensures a.HashCode() == b.HashCode()
  {
  }

  lemma AddressEquality(a: Address, b: Address, c: Address)
    ensures a.Equals(a)
    ensures a.Equals(b) <==> b.Equals(a)
    ensures a.Equals(b) && b.Equals(c) ==> a.Equals(c)
    ensures a != b ==> (a.Equals(b) <==> a.id.Some? && a.id == b.id)
    ensures a != b && (a.id.None? || b.id.None?) ==> !a.Equals(b)
    ensures a.HashCode() == b.HashCode()
  {
  }

  /** No two distinct members of s share a non-null id. */
  ghost predicate DistinctAddressIds(s: set<Address>)
    reads s
  {
    forall a, b :: a in s && b in s && a != b && a.id.Some? ==> a.id != b.id
  }

  /** With distinct ids (a included), HashSet membership is reference membership, add is set
      union and remove is set difference. */
  lemma AddressSetIsReferenceSet(s: set<Address>, a: Address)
    requires DistinctAddressIds(s + {a})
    ensures a.ContainedIn(s) <==> a in s
    ensures a.AddedTo(s) == s + {a}
    ensures a.RemovedFrom(s) == s - {a}
  {
    if a.ContainedIn(s) {
      var b :| b in s && a.Equals(b);
      assert b == a;
    }
    assert a.RemovedFrom(s) == s - {a} by {
      forall b | b in s && b != a ensures !a.Equals(b) {
        assert b in s + {a} && a in s + {a};
      }
    }
  }

  /** Adding an element twice leaves the set as adding it once, for each entity's sets. */
  lemma AddIsIdempotent(p: Product, ps: set<Product>, c: Category, cs: set<Category>,
                        w: WishList, ws: set<WishList>, a: Address, as_: set<Address>)
    ensures p.AddedTo(p.AddedTo(ps)) == p.AddedTo(ps)
    ensures c.AddedTo(c.AddedTo(cs)) == c.AddedTo(cs)
    ensures w.AddedTo(w.AddedTo(ws)) == w.AddedTo(ws)
    ensures a.AddedTo(a.AddedTo(as_)) == a.AddedTo(as_)
  {
  }

  /** Removing after adding into a set without an equal element gives the set back. */
  lemma RemoveUndoesAdd(a: Address, s: set<Address>)
    requires !a.ContainedIn(s)
    ensures a.RemovedFrom(a.AddedTo(s)) == s
  {
    assert a.AddedTo(s) == s + {a};
    forall b | b in s ensures !a.Equals(b) {
    }
  }

  /** addCategory called twice leaves both sides of the association as one call does. */
  method AddCategoryTwice(p: Product, c: Category)
    modifies p`categories, c`products
    ensures p.categories == old(c.AddedTo(p.categories))
    ensures c.products == old(p.AddedTo(c.products))
  {
    var once := p.AddCategory(c);
    ghost var afterOnce := (p.categories, c.products);
    var twice := p.AddCategory(c);
    assert (p.categories, c.products) == afterOnce;
  }

  /** setWishList on a product leaves the wish list's own product set untouched. */
  method SetWishListIsOneSided(p: Product, w: WishList)
    modifies p`wishList
    ensures p.wishList == w
    ensures w.products == old(w.products)
  {
    p.SetWishList(w);
  }

  /** setCustomer on a wish list or an address leaves the customer's sets untouched. */
  method SetCustomerIsOneSided(w: WishList, a: Address, c: Customer)
    modifies w`customer, a`customer
    ensures w.customer == c && a.customer == c
    ensures c.wishLists == old(c.wishLists) && c.addresses == old(c.addresses)
  {
    w.SetCustomer(c);
    a.SetCustomer(c);
  }

  /** addAddress on one customer moves the back-pointer but leaves the address in any other
      customer's set. */
  method AddAddressKeepsFormerOwnerSet(c: Customer, former: Customer, a: Address)
    requires c != former && former.addresses.Some? && a in former.addresses.value
    modifies c`addresses, a`customer
    ensures former.addresses == old(former.addresses) && a in former.addresses.value
    ensures c.addresses.Some? ==> a.customer == c
  {
    var r := c.AddAddress(a);
  }

  /** setAddresses(null) clears the customer of every old member and leaves the field null. */
  method ClearAddresses(c: Customer)
    modifies c`addresses, Members(c.addresses)`customer
    ensures c.addresses.None?
    ensures forall a :: a in Members(old(c.addresses)) ==> a.customer == null
  {
    c.SetAddresses(None);
  }
}
