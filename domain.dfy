/** The JPA entities Product, Customer, WishList and Address, and as much of Category as
    Product's association helpers touch. Each is a class whose fields the setters and the
    association helpers update in place. A Java HashSet of entities is a set of references
    whose add, remove and contains go through the entity's id-based equals; a collection
    field that a setter can make null is an Option of such a set. */
module Domain {
  import opened JavaLang

  /** getClass().hashCode() of each entity class: fixed for the life of the JVM, with values
      the model does not know; any distinct constants serve. */
  const ProductClassHash: int32 := 1
  const CategoryClassHash: int32 := 2
  const CustomerClassHash: int32 := 3
  const WishListClassHash: int32 := 4
  const AddressClassHash: int32 := 5

  /** The members of a nullable set; a null set has none. */
  function Members<T>(s: Option<set<T>>): (r: set<T>)
    ensures s.None? ==> r == {}
    ensures s.Some? ==> r == s.value
  {
    if s.Some? then s.value else {}
  }

  class Product {
    var id: Option<Uuid>
    var title: Option<string>
    var keywords: Option<string>
    var description: Option<string>
    var rating: Option<int>
    var dateAdded: Option<int>
    var dateModified: Option<int>
    var wishList: WishList?
    var categories: set<Category>

    /** new Product(): every column null, no wish list, an empty category set. */
    constructor ()
      ensures id.None? && title.None? && keywords.None? && description.None? && rating.None?
      ensures dateAdded.None? && dateModified.None? && wishList == null && categories == {}
    {
      id, title, keywords, description := None, None, None, None;
      rating, dateAdded, dateModified := None, None, None;
      wishList, categories := null, {};
    }

    // The setters and their fluent forms assign their own field and nothing else.

    method SetId(id: Option<Uuid>)
      modifies this`id
      ensures this.id == id
    {
      this.id := id;
    }

    method WithId(id: Option<Uuid>) returns (r: Product)
      modifies this`id
      ensures this.id == id && r == this
    {
      SetId(id);
      r := this;
    }

    method SetTitle(title: Option<string>)
      modifies this`title
      ensures this.title == title
    {
      this.title := title;
    }

    method WithTitle(title: Option<string>) returns (r: Product)
      modifies this`title
      ensures this.title == title && r == this
    {
      SetTitle(title);
      r := this;
    }

    method SetKeywords(keywords: Option<string>)
      modifies this`keywords
      ensures this.keywords == keywords
    {
      this.keywords := keywords;
    }

    method WithKeywords(keywords: Option<string>) returns (r: Product)
      modifies this`keywords
      ensures this.keywords == keywords && r == this
    {
      SetKeywords(keywords);
      r := this;
    }

    method SetDescription(description: Option<string>)
      modifies this`description
      ensures this.description == description
    {
      this.description := description;
    }

    method WithDescription(description: Option<string>) returns (r: Product)
      modifies this`description
      ensures this.description == description && r == this
    {
      SetDescription(description);
      r := this;
    }

    method SetRating(rating: Option<int>)
      modifies this`rating
      ensures this.rating == rating
    {
      this.rating := rating;
    }

    method WithRating(rating: Option<int>) returns (r: Product)
      modifies this`rating
      ensures this.rating == rating && r == this
    {
      SetRating(rating);
      r := this;
    }

    method SetDateAdded(dateAdded: Option<int>)
      modifies this`dateAdded
      ensures this.dateAdded == dateAdded
    {
      this.dateAdded := dateAdded;
    }

    method WithDateAdded(dateAdded: Option<int>) returns (r: Product)
      modifies this`dateAdded
      ensures this.dateAdded == dateAdded && r == this
    {
      SetDateAdded(dateAdded);
      r := this;
    }

    method SetDateModified(dateModified: Option<int>)
      modifies this`dateModified
      ensures this.dateModified == dateModified
    {
      this.dateModified := dateModified;
    }

    method WithDateModified(dateModified: Option<int>) returns (r: Product)
      modifies this`dateModified
      ensures this.dateModified == dateModified && r == this
    {
      SetDateModified(dateModified);
      r := this;
    }

    method SetWishList(wishList: WishList?)
      modifies this`wishList
      ensures this.wishList == wishList
    {
      this.wishList := wishList;
    }

    method WithWishList(wishList: WishList?) returns (r: Product)
      modifies this`wishList
      ensures this.wishList == wishList && r == this
    {
      SetWishList(wishList);
      r := this;
    }

    /** addCategory: HashSet.add on both sides of the many-to-many association. */
    method AddCategory(category: Category) returns (r: Product)
      modifies this`categories, category`products
      ensures categories == old(category.AddedTo(categories))
      ensures category.products == old(AddedTo(category.products))
      ensures category.ContainedIn(categories) && ContainedIn(category.products)
      ensures r == this
    {
      categories := category.AddedTo(categories);
      category.products := AddedTo(category.products);
      r := this;
    }

    /** removeCategory: HashSet.remove on both sides. */
    method RemoveCategory(category: Category) returns (r: Product)
      modifies this`categories, category`products
      ensures categories == old(category.RemovedFrom(categories))
      ensures category.products == old(RemovedFrom(category.products))
      ensures !category.ContainedIn(categories) && !ContainedIn(category.products)
      ensures r == this
    {
      categories := category.RemovedFrom(categories);
      category.products := RemovedFrom(category.products);
      r := this;
    }

    /** equals: the same object, or another Product with the same non-null id. */
    predicate Equals(o: object?)
      reads this, o
      ensures this == o ==> Equals(o)
      ensures Equals(o) && this != o ==> o is Product && id.Some?
    {
      this == o || (o is Product && id.Some? && id == (o as Product).id)
    }

    /** hashCode: the class's hash, whatever the fields hold. */
    function HashCode(): (h: int32)
      ensures h == ProductClassHash
    {
      ProductClassHash
    }

    /** HashSet.contains(this) on s. */
    predicate ContainedIn(s: set<Product>)
      reads this, s
      ensures this in s ==> ContainedIn(s)
      ensures id.None? ==> (ContainedIn(s) <==> this in s)
    {
      exists p :: p in s && Equals(p)
    }

    /** s after HashSet.add(this): unchanged if it already holds an equal product. */
    function AddedTo(s: set<Product>): (r: set<Product>)
      reads this, s
      ensures ContainedIn(r)
      ensures s <= r <= s + {this}
      ensures ContainedIn(s) ==> r == s
    {
      if ContainedIn(s) then s else s + {this}
    }

    /** s after HashSet.remove(this): every member equal to this is gone. */
    function RemovedFrom(s: set<Product>): (r: set<Product>)
      reads this, s
      ensures !ContainedIn(r)
      ensures r <= s
      ensures forall p :: p in s && !Equals(p) ==> p in r
    {
      set p | p in s && !Equals(p)
    }
  }

  /** Category.java is not part of this model: only its id, the inverse side of
      Product.categories and the JHipster id-based equals are kept. */
  class Category {
    var id: Option<Uuid>
    var products: set<Product>

    constructor ()
      ensures id.None? && products == {}
    {
      id, products := None, {};
    }

    predicate Equals(o: object?)
      reads this, o
      ensures this == o ==> Equals(o)
      ensures Equals(o) && this != o ==> o is Category && id.Some?
    {
      this == o || (o is Category && id.Some? && id == (o as Category).id)
    }

    /** HashSet.contains(this) on s. */
    predicate ContainedIn(s: set<Category>)
      reads this, s
      ensures this in s ==> ContainedIn(s)
      ensures id.None? ==> (ContainedIn(s) <==> this in s)
    {
      exists c :: c in s && Equals(c)
    }

    function AddedTo(s: set<Category>): (r: set<Category>)
      reads this, s
      ensures ContainedIn(r)
      ensures s <= r <= s + {this}
      ensures ContainedIn(s) ==> r == s
    {
      if ContainedIn(s) then s else s + {this}
    }

    function RemovedFrom(s: set<Category>): (r: set<Category>)
      reads this, s
      ensures !ContainedIn(r)
      ensures r <= s
      ensures forall c :: c in s && !Equals(c) ==> c in r
    {
      set c | c in s && !Equals(c)
    }
  }

  class Customer {
    var id: Option<Uuid>
    var firstName: Option<string>
    var lastName: Option<string>
    var email: Option<string>
    var telephone: Option<string>
    var wishLists: Option<set<WishList>>
    var addresses: Option<set<Address>>

    /** new Customer(): every column null, both collections empty sets. */
    constructor ()
      ensures id.None? && firstName.None? && lastName.None? && email.None? && telephone.None?
      ensures wishLists == Some({}) && addresses == Some({})
    {
      id, firstName, lastName, email, telephone := None, None, None, None, None;
      wishLists, addresses := Some({}), Some({});
    }

    method SetId(id: Option<Uuid>)
      modifies this`id
      ensures this.id == id
    {
      this.id := id;
    }

    method WithId(id: Option<Uuid>) returns (r: Customer)
      modifies this`id
      ensures this.id == id && r == this
    {
      SetId(id);
      r := this;
    }

    method SetFirstName(firstName: Option<string>)
      modifies this`firstName
      ensures this.firstName == firstName
    {
      this.firstName := firstName;
    }

    method WithFirstName(firstName: Option<string>) returns (r: Customer)
      modifies this`firstName
      ensures this.firstName == firstName && r == this
    {
      SetFirstName(firstName);
      r := this;
    }

    method SetLastName(lastName: Option<string>)
      modifies this`lastName
      ensures this.lastName == lastName
    {
      this.lastName := lastName;
    }

    method WithLastName(lastName: Option<string>) returns (r: Customer)
      modifies this`lastName
      ensures this.lastName == lastName && r == this
    {
      SetLastName(lastName);
      r := this;
    }

    method SetEmail(email: Option<string>)
      modifies this`email
      ensures this.email == email
    {
      this.email := email;
    }

    method WithEmail(email: Option<string>) returns (r: Customer)
      modifies this`email
      ensures this.email == email && r == this
    {
      SetEmail(email);
      r := this;
    }

    method SetTelephone(telephone: Option<string>)
      modifies this`telephone
      ensures this.telephone == telephone
    {
      this.telephone := telephone;
    }

    method WithTelephone(telephone: Option<string>) returns (r: Customer)
      modifies this`telephone
      ensures this.telephone == telephone && r == this
    {
      SetTelephone(telephone);
      r := this;
    }

    /** setWishLists: every old member loses its customer, then every new member gets this one,
        then the field takes the new set (which may be null). */
    method SetWishLists(s: Option<set<WishList>>)
      modifies this`wishLists, Members(wishLists)`customer, Members(s)`customer
      ensures wishLists == s
      ensures forall w :: w in Members(s) ==> w.customer == this
      ensures forall w :: w in Members(old(wishLists)) && w !in Members(s) ==> w.customer == null
    {
      var todo := Members(wishLists);
      while todo != {}
        invariant todo <= Members(old(wishLists))
        invariant forall w :: w in Members(old(wishLists)) - todo ==> w.customer == null
        decreases todo
      {
        var w :| w in todo;
        w.SetCustomer(null);
        todo := todo - {w};
      }
      todo := Members(s);
      while todo != {}
        invariant todo <= Members(s)
        invariant forall w :: w in Members(s) - todo ==> w.customer == this
        invariant forall w :: w in Members(old(wishLists)) && w !in Members(s) ==> w.customer == null
        decreases todo
      {
        var w :| w in todo;
        w.SetCustomer(this);
        todo := todo - {w};
      }
      wishLists := s;
    }

    method WithWishLists(s: Option<set<WishList>>) returns (r: Customer)
      modifies this`wishLists, Members(wishLists)`customer, Members(s)`customer
      ensures wishLists == s && r == this
      ensures forall w :: w in Members(s) ==> w.customer == this
      ensures forall w :: w in Members(old(wishLists)) && w !in Members(s) ==> w.customer == null
    {
      SetWishLists(s);
      r := this;
    }

    /** addWishList: HashSet.add, then the back-pointer; on a null set the add throws
        before anything changes. */
    method AddWishList(wishList: WishList) returns (r: Outcome<Customer>)
      modifies this`wishLists, wishList`customer
      ensures old(wishLists).None? ==>
        r == Throws(NullPointerException) && wishLists.None? && wishList.customer == old(wishList.customer)
      ensures old(wishLists).Some? ==>
        && r == Returns(this)
        && wishLists == Some(old(wishList.AddedTo(wishLists.value)))
        && wishList.ContainedIn(wishLists.value)
        && wishList.customer == this
    {
      if wishLists.None? {
        return Throws(NullPointerException);
      }
      wishLists := Some(wishList.AddedTo(wishLists.value));
      wishList.SetCustomer(this);
      r := Returns(this);
    }

    /** removeWishList: HashSet.remove, then the back-pointer is cleared, whether or not the
        wish list was in the set. */
    method RemoveWishList(wishList: WishList) returns (r: Outcome<Customer>)
      modifies this`wishLists, wishList`customer
      ensures old(wishLists).None? ==>
        r == Throws(NullPointerException) && wishLists.None? && wishList.customer == old(wishList.customer)
      ensures old(wishLists).Some? ==>
        && r == Returns(this)
        && wishLists == Some(old(wishList.RemovedFrom(wishLists.value)))
        && !wishList.ContainedIn(wishLists.value)
        && wishList.customer == null
    {
      if wishLists.None? {
        return Throws(NullPointerException);
      }
      wishLists := Some(wishList.RemovedFrom(wishLists.value));
      wishList.SetCustomer(null);
      r := Returns(this);
    }

    /** setAddresses: every old member loses its customer, then every new member gets this one,
        then the field takes the new set (which may be null). */
    method SetAddresses(s: Option<set<Address>>)
      modifies this`addresses, Members(addresses)`customer, Members(s)`customer
      ensures addresses == s
      ensures forall a :: a in Members(s) ==> a.customer == this
      ensures forall a :: a in Members(old(addresses)) && a !in Members(s) ==> a.customer == null
    {
      var todo := Members(addresses);
      while todo != {}
        invariant todo <= Members(old(addresses))
        invariant forall a :: a in Members(old(addresses)) - todo ==> a.customer == null
        decreases todo
      {
        var a :| a in todo;
        a.SetCustomer(null);
        todo := todo - {a};
      }
      todo := Members(s);
      while todo != {}
        invariant todo <= Members(s)
        invariant forall a :: a in Members(s) - todo ==> a.customer == this
        invariant forall a :: a in Members(old(addresses)) && a !in Members(s) ==> a.customer == null
        decreases todo
      {
        var a :| a in todo;
        a.SetCustomer(this);
        todo := todo - {a};
      }
      addresses := s;
    }

    method WithAddresses(s: Option<set<Address>>) returns (r: Customer)
      modifies this`addresses, Members(addresses)`customer, Members(s)`customer
      ensures addresses == s && r == this
      ensures forall a :: a in Members(s) ==> a.customer == this
      ensures forall a :: a in Members(old(addresses)) && a !in Members(s) ==> a.customer == null
    {
      SetAddresses(s);
      r := this;
    }

    /** addAddress: HashSet.add, then the back-pointer. */
    method AddAddress(address: Address) returns (r: Outcome<Customer>)
      modifies this`addresses, address`customer
      ensures old(addresses).None? ==>
        r == Throws(NullPointerException) && addresses.None? && address.customer == old(address.customer)
      ensures old(addresses).Some? ==>
        && r == Returns(this)
        && addresses == Some(old(address.AddedTo(addresses.value)))
        && address.ContainedIn(addresses.value)
        && address.customer == this
    {
      if addresses.None? {
        return Throws(NullPointerException);
      }
      addresses := Some(address.AddedTo(addresses.value));
      address.SetCustomer(this);
      r := Returns(this);
    }

    /** removeAddress: HashSet.remove, then the back-pointer is cleared, whether or not the
        address was in the set. */
    method RemoveAddress(address: Address) returns (r: Outcome<Customer>)
      modifies this`addresses, address`customer
      ensures old(addresses).None? ==>
        r == Throws(NullPointerException) && addresses.None? && address.customer == old(address.customer)
      ensures old(addresses).Some? ==>
        && r == Returns(this)
        && addresses == Some(old(address.RemovedFrom(addresses.value)))
        && !address.ContainedIn(addresses.value)
        && address.customer == null
    {
      if addresses.None? {
        return Throws(NullPointerException);
      }
      addresses := Some(address.RemovedFrom(addresses.value));
      address.SetCustomer(null);
      r := Returns(this);
    }

    predicate Equals(o: object?)
      reads this, o
      ensures this == o ==> Equals(o)
      ensures Equals(o) && this != o ==> o is Customer && id.Some?
    {
      this == o || (o is Customer && id.Some? && id == (o as Customer).id)
    }

    function HashCode(): (h: int32)
      ensures h == CustomerClassHash
    {
      CustomerClassHash
    }
  }

  class WishList {
    var id: Option<Uuid>
    var title: Option<string>
    var restricted: Option<bool>
    var products: Option<set<Product>>
    var customer: Customer?

    /** new WishList(): every column null, no customer, an empty product set. */
    constructor ()
      ensures id.None? && title.None? && restricted.None? && products == Some({}) && customer == null
    {
      id, title, restricted := None, None, None;
      products, customer := Some({}), null;
    }

    method SetId(id: Option<Uuid>)
      modifies this`id
      ensures this.id == id
    {
      this.id := id;
    }

    method WithId(id: Option<Uuid>) returns (r: WishList)
      modifies this`id
      ensures this.id == id && r == this
    {
      SetId(id);
      r := this;
    }

    method SetTitle(title: Option<string>)
      modifies this`title
      ensures this.title == title
    {
      this.title := title;
    }

    method WithTitle(title: Option<string>) returns (r: WishList)
      modifies this`title
      ensures this.title == title && r == this
    {
      SetTitle(title);
      r := this;
    }

    method SetRestricted(restricted: Option<bool>)
      modifies this`restricted
      ensures this.restricted == restricted
    {
      this.restricted := restricted;
    }

    method WithRestricted(restricted: Option<bool>) returns (r: WishList)
      modifies this`restricted
      ensures this.restricted == restricted && r == this
    {
      SetRestricted(restricted);
      r := this;
    }

    method SetCustomer(customer: Customer?)
      modifies this`customer
      ensures this.customer == customer
    {
      this.customer := customer;
    }

    method WithCustomer(customer: Customer?) returns (r: WishList)
      modifies this`customer
      ensures this.customer == customer && r == this
    {
      SetCustomer(customer);
      r := this;
    }

    /** setProducts: every old member loses its wish list, then every new member gets this one,
        then the field takes the new set (which may be null). */
    method SetProducts(s: Option<set<Product>>)
      modifies this`products, Members(products)`wishList, Members(s)`wishList
      ensures products == s
      ensures forall p :: p in Members(s) ==> p.wishList == this
      ensures forall p :: p in Members(old(products)) && p !in Members(s) ==> p.wishList == null
    {
      var todo := Members(products);
      while todo != {}
        invariant todo <= Members(old(products))
        invariant forall p :: p in Members(old(products)) - todo ==> p.wishList == null
        decreases todo
      {
        var p :| p in todo;
        p.SetWishList(null);
        todo := todo - {p};
      }
      todo := Members(s);
      while todo != {}
        invariant todo <= Members(s)
        invariant forall p :: p in Members(s) - todo ==> p.wishList == this
        invariant forall p :: p in Members(old(products)) && p !in Members(s) ==> p.wishList == null
        decreases todo
      {
        var p :| p in todo;
        p.SetWishList(this);
        todo := todo - {p};
      }
      products := s;
    }

    method WithProducts(s: Option<set<Product>>) returns (r: WishList)
      modifies this`products, Members(products)`wishList, Members(s)`wishList
      ensures products == s && r == this
      ensures forall p :: p in Members(s) ==> p.wishList == this
      ensures forall p :: p in Members(old(products)) && p !in Members(s) ==> p.wishList == null
    {
      SetProducts(s);
      r := this;
    }

    /** addProduct: HashSet.add, then the back-pointer. */
    method AddProduct(product: Product) returns (r: Outcome<WishList>)
      modifies this`products, product`wishList
      ensures old(products).None? ==>
        r == Throws(NullPointerException) && products.None? && product.wishList == old(product.wishList)
      ensures old(products).Some? ==>
        && r == Returns(this)
        && products == Some(old(product.AddedTo(products.value)))
        && product.ContainedIn(products.value)
        && product.wishList == this
    {
      if products.None? {
        return Throws(NullPointerException);
      }
      products := Some(product.AddedTo(products.value));
      product.SetWishList(this);
      r := Returns(this);
    }

    /** removeProduct: HashSet.remove, then the back-pointer is cleared. */
    method RemoveProduct(product: Product) returns (r: Outcome<WishList>)
      modifies this`products, product`wishList
      ensures old(products).None? ==>
        r == Throws(NullPointerException) && products.None? && product.wishList == old(product.wishList)
      ensures old(products).Some? ==>
        && r == Returns(this)
        && products == Some(old(product.RemovedFrom(products.value)))
        && !product.ContainedIn(products.value)
        && product.wishList == null
    {
      if products.None? {
        return Throws(NullPointerException);
      }
      products := Some(product.RemovedFrom(products.value));
      product.SetWishList(null);
      r := Returns(this);
    }

    predicate Equals(o: object?)
      reads this, o
      ensures this == o ==> Equals(o)
      ensures Equals(o) && this != o ==> o is WishList && id.Some?
    {
      this == o || (o is WishList && id.Some? && id == (o as WishList).id)
    }

    function HashCode(): (h: int32)
      ensures h == WishListClassHash
    {
      WishListClassHash
    }

    /** HashSet.contains(this) on s. */
    predicate ContainedIn(s: set<WishList>)
      reads this, s
      ensures this in s ==> ContainedIn(s)
      ensures id.None? ==> (ContainedIn(s) <==> this in s)
    {
      exists w :: w in s && Equals(w)
    }

    function AddedTo(s: set<WishList>): (r: set<WishList>)
      reads this, s
      ensures ContainedIn(r)
      ensures s <= r <= s + {this}
      ensures ContainedIn(s) ==> r == s
    {
      if ContainedIn(s) then s else s + {this}
    }

    function RemovedFrom(s: set<WishList>): (r: set<WishList>)
      reads this, s
      ensures !ContainedIn(r)
      ensures r <= s
      ensures forall w :: w in s && !Equals(w) ==> w in r
    {
      set w | w in s && !Equals(w)
    }
  }

  class Address {
    var id: Option<Uuid>
    var address1: Option<string>
    var address2: Option<string>
    var city: Option<string>
    var postcode: Option<string>
    var country: Option<string>
    var customer: Customer?

    /** new Address(): every column null and no customer. */
    constructor ()
      ensures id.None? && address1.None? && address2.None? && city.None?
      ensures postcode.None? && country.None? && customer == null
    {
      id, address1, address2, city := None, None, None, None;
      postcode, country, customer := None, None, null;
    }

    method SetId(id: Option<Uuid>)
      modifies this`id
      ensures this.id == id
    {
      this.id := id;
    }

    method WithId(id: Option<Uuid>) returns (r: Address)
      modifies this`id
      ensures this.id == id && r == this
    {
      SetId(id);
      r := this;
    }

    method SetAddress1(address1: Option<string>)
      modifies this`address1
      ensures this.address1 == address1
    {
      this.address1 := address1;
    }

    method WithAddress1(address1: Option<string>) returns (r: Address)
      modifies this`address1
      ensures this.address1 == address1 && r == this
    {
      SetAddress1(address1);
      r := this;
    }

    method SetAddress2(address2: Option<string>)
      modifies this`address2
      ensures this.address2 == address2
    {
      this.address2 := address2;
    }

    method WithAddress2(address2: Option<string>) returns (r: Address)
      modifies this`address2
      ensures this.address2 == address2 && r == this
    {
      SetAddress2(address2);
      r := this;
    }

    method SetCity(city: Option<string>)
      modifies this`city
      ensures this.city == city
    {
      this.city := city;
    }

    method WithCity(city: Option<string>) returns (r: Address)
      modifies this`city
      ensures this.city == city && r == this
    {
      SetCity(city);
      r := this;
    }

    method SetPostcode(postcode: Option<string>)
      modifies this`postcode
      ensures this.postcode == postcode
    {
      this.postcode := postcode;
    }

    method WithPostcode(postcode: Option<string>) returns (r: Address)
      modifies this`postcode
      ensures this.postcode == postcode && r == this
    {
      SetPostcode(postcode);
      r := this;
    }

    method SetCountry(country: Option<string>)
      modifies this`country
      ensures this.country == country
    {
      this.country := country;
    }

    method WithCountry(country: Option<string>) returns (r: Address)
      modifies this`country
      ensures this.country == country && r == this
    {
      SetCountry(country);
      r := this;
    }

    method SetCustomer(customer: Customer?)
      modifies this`customer
      ensures this.customer == customer
    {
      this.customer := customer;
    }

    method WithCustomer(customer: Customer?) returns (r: Address)
      modifies this`customer
      ensures this.customer == customer && r == this
    {
      SetCustomer(customer);
      r := this;
    }

    predicate Equals(o: object?)
      reads this, o
      ensures this == o ==> Equals(o)
      ensures Equals(o) && this != o ==> o is Address && id.Some?
    {
      this == o || (o is Address && id.Some? && id == (o as Address).id)
    }

    function HashCode(): (h: int32)
      ensures h == AddressClassHash
    {
      AddressClassHash
    }

    /** HashSet.contains(this) on s. */
    predicate ContainedIn(s: set<Address>)
      reads this, s
      ensures this in s ==> ContainedIn(s)
      ensures id.None? ==> (ContainedIn(s) <==> this in s)
    {
      exists a :: a in s && Equals(a)
    }

    function AddedTo(s: set<Address>): (r: set<Address>)
      reads this, s
      ensures ContainedIn(r)
      ensures s <= r <= s + {this}
      ensures ContainedIn(s) ==> r == s
    {
      if ContainedIn(s) then s else s + {this}
    }

    function RemovedFrom(s: set<Address>): (r: set<Address>)
      reads this, s
      ensures !ContainedIn(r)
      ensures r <= s
      ensures forall a :: a in s && !Equals(a) ==> a in r
    {
      set a | a in s && !Equals(a)
    }
  }
}
