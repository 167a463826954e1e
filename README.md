# Shop core in Dafny

A Dafny model of the hand-written core of a JHipster online shop (Spring Boot, JPA/Hibernate, Hibernate Search, Elasticsearch). The shop keeps products, categories, customers, wish lists and addresses. The model covers six parts of its code, with proofs about each.

- **Entities** (`domain.dfy`, `domain_laws.dfy`, `records.dfy`, `validation.dfy`). `Product`, `Customer`, `WishList` and `Address` are classes whose fields the setters assign in place.
  - The `add*`/`remove*`/`set*` association helpers update a `HashSet` on one side and a back-pointer or mirrored set on the other. `HashSet` is modelled under the entities' id-based `equals`.
  - `equals` compares non-null ids. `hashCode` is one constant per class.
  - The `@NotNull`/`@Size` constraints decide which records a save accepts.
- **Criteria objects** (`filters.dfy`, `criteria.dfy`, `criteria_laws.dfy`, `criteria_schemas.dfy`). One `Criteria` class stands for all five `*Criteria` classes. Each class is given as a schema: its name, and its filter fields in declaration order.
  - Each field is null or a filter object. Lazy accessors create the filter on first use.
  - The model covers the deep copy, field-wise `equals`/`hashCode`, and `toString`, which prints only non-null fields.
- **Criteria to query** (`specifications.dfy`, `columns.dfy`, and one `*_query.dfy` per query service).
  - `createSpecification` builds an ordered conjunction: `distinct` first, then one conjunct per non-null filter.
  - `findByCriteria`, its paged form and `countByCriteria` evaluate that conjunction over a table.
  - The operators behave as the integration tests assert: strict and inclusive ranges, `in`, `specified`, case-blind `contains`. SQL null semantics apply, and LEFT joins handle to-one and to-many associations.
- **Services** (`persistence.dfy`, `address_service.dfy`, `wishlist_service.dfy`, `wishlist_search.dfy`).
  - `AddressService` and `WishListService` work over a table and a Hibernate Search index, both maps keyed by id: save, update, partialUpdate, findAll, findOne, delete, search and searchWithProjection.
  - The model also covers `index(entity)` and `search` of the Elasticsearch wish-list repository.
- **WishListDTO** (`wishlist_dto.dfy`): setters, and `equals`/`hashCode` by id.
- **Jar path** (`mapping_configurer.dfy`): the `indexOf`/`substring` extraction in `HibernateSearchMappingConfigurer.configure`, and its exceptions.

Java behaviour is written out where it matters (`java_lang.dfy`):
- null is `Option`;
- a thrown exception is the `Throws` case of `Outcome`;
- `int` arithmetic wraps modulo 2^32;
- `String.indexOf` and `substring` are given with their exact failure conditions.

Dates are epoch days. UUIDs are pairs of 64-bit halves.

Automatic indexing is an assumption, never a timeline. After every committed write the index holds exactly what the table holds (`Stores.Mirrored`). The services keep this as part of their class invariant.

The Elasticsearch wish-list repository reads that same index. `WishList` is indexed as `wishlist` and read through the alias `wishlist-read` (WishList.java:44-45). So `WishListService`'s invariant also ties the repository's documents to the index, and every write updates both.

## Where the code and its description differ

The model follows the code in each case.

- **Address search.** `AddressService.search` and `searchWithProjection` ignore the query string. They run a match-all query and keep the first 20 hits (`fetchHits(20)`).
  - `search` loads the addresses from the table; only the projection reads index documents.
  - The page is built with `new PageImpl(list, pageable, list.size())`. On a first page the total is the number returned. On a later page, `PageImpl` raises the total to offset + size (`AddressServices.LaterPageRepeatsFirstHits`).
- **Wish-list search.** `WishListService.search` computes the capped match-all list and drops it. It returns what the Elasticsearch repository finds for the query.
- **No change-event machinery.** There are no change events, retries or cascades. The explicit index calls are commented out, and indexing is left to Hibernate Search.
- **Mass reindexing.** It has no job state and no guard against two runs at once.

## Model

| member | source | states |
|---|---|---|
| JavaLang.Wrap | src/main/java/com/sample/shop/service/dto/WishListDTO.java:71-74 | Java `int` arithmetic: the result is congruent to the input modulo 2^32 and equals it inside the signed 32-bit range |
| JavaLang.SignedOf | src/main/java/com/sample/shop/service/dto/WishListDTO.java:71-74 | a 32-bit pattern read as a two's-complement `int` is congruent to its unsigned value modulo 2^32 |
| JavaLang.HashFold | src/main/java/com/sample/shop/service/dto/WishListDTO.java:71-74 | `Arrays.hashCode`'s fold 31 * h + e in `int` arithmetic: the result is congruent modulo 2^32 to the exact polynomial hash over unbounded integers |
| JavaLang.ObjectsHash | src/main/java/com/sample/shop/service/criteria/ProductCriteria.java:230-233 | `Objects.hash`: congruent to the polynomial hash started at 1; 1 for no values and 31 + h, wrapped, for one value h |
| JavaLang.BooleanHash | src/main/java/com/sample/shop/service/criteria/ProductCriteria.java:230-233 | `Boolean.hashCode`: 1231 exactly for true, 1237 exactly for false, never 0 |
| JavaLang.NullableBooleanHash | src/main/java/com/sample/shop/service/criteria/ProductCriteria.java:230-233 | the hash `Objects.hash` gives a nullable `Boolean`: 0 exactly for null, 1231 exactly for true, 1237 exactly for false |
| JavaLang.Utf16Length | src/main/java/com/sample/shop/domain/Address.java:64-73 | `String.length()`, which `@Size` measures: UTF-16 code units, between the number of characters and twice it, and equal to it when every character is in the Basic Multilingual Plane |
| JavaLang.IndexOf | src/main/java/com/sample/shop/config/HibernateSearchMappingConfigurer.java:20 | `String.indexOf(char)`: -1 exactly when the character is absent, otherwise a position holding it with no earlier occurrence |
| JavaLang.Substring | src/main/java/com/sample/shop/config/HibernateSearchMappingConfigurer.java:20 | `String.substring(begin, end)` returns exactly when 0 <= begin <= end <= length, with the characters from begin on; otherwise it throws `StringIndexOutOfBoundsException` |
| Domain.Product.constructor | src/main/java/com/sample/shop/domain/Product.java:57-98 | a new product has every column null, no wish list and an empty category set |
| Domain.Product.SetId | src/main/java/com/sample/shop/domain/Product.java:106-108 | setId: assigns `id` and, by its frame, no other field of any object |
| Domain.Product.WithId | src/main/java/com/sample/shop/domain/Product.java:110-113 | the fluent `id(..)`: assigns `id` only and returns the same object |
| Domain.Product.SetTitle | src/main/java/com/sample/shop/domain/Product.java:124-126 | setTitle: assigns `title` and, by its frame, no other field of any object |
| Domain.Product.WithTitle | src/main/java/com/sample/shop/domain/Product.java:119-122 | the fluent `title(..)`: assigns `title` only and returns the same object |
| Domain.Product.SetKeywords | src/main/java/com/sample/shop/domain/Product.java:137-139 | setKeywords: assigns `keywords` and, by its frame, no other field of any object |
| Domain.Product.WithKeywords | src/main/java/com/sample/shop/domain/Product.java:132-135 | the fluent `keywords(..)`: assigns `keywords` only and returns the same object |
| Domain.Product.SetDescription | src/main/java/com/sample/shop/domain/Product.java:150-152 | setDescription: assigns `description` and, by its frame, no other field of any object |
| Domain.Product.WithDescription | src/main/java/com/sample/shop/domain/Product.java:145-148 | the fluent `description(..)`: assigns `description` only and returns the same object |
| Domain.Product.SetRating | src/main/java/com/sample/shop/domain/Product.java:163-165 | setRating: assigns `rating` and, by its frame, no other field of any object |
| Domain.Product.WithRating | src/main/java/com/sample/shop/domain/Product.java:158-161 | the fluent `rating(..)`: assigns `rating` only and returns the same object |
| Domain.Product.SetDateAdded | src/main/java/com/sample/shop/domain/Product.java:176-178 | setDateAdded: assigns `dateAdded` and, by its frame, no other field of any object |
| Domain.Product.WithDateAdded | src/main/java/com/sample/shop/domain/Product.java:171-174 | the fluent `dateAdded(..)`: assigns `dateAdded` only and returns the same object |
| Domain.Product.SetDateModified | src/main/java/com/sample/shop/domain/Product.java:189-191 | setDateModified: assigns `dateModified` and, by its frame, no other field of any object |
| Domain.Product.WithDateModified | src/main/java/com/sample/shop/domain/Product.java:184-187 | the fluent `dateModified(..)`: assigns `dateModified` only and returns the same object |
| Domain.Customer.SetId | src/main/java/com/sample/shop/domain/Customer.java:94-96 | setId: assigns `id` and, by its frame, no other field of any object |
| Domain.Customer.WithId | src/main/java/com/sample/shop/domain/Customer.java:98-101 | the fluent `id(..)`: assigns `id` only and returns the same object |
| Domain.Customer.SetFirstName | src/main/java/com/sample/shop/domain/Customer.java:112-114 | setFirstName: assigns `firstName` and, by its frame, no other field of any object |
| Domain.Customer.WithFirstName | src/main/java/com/sample/shop/domain/Customer.java:107-110 | the fluent `firstName(..)`: assigns `firstName` only and returns the same object |
| Domain.Customer.SetLastName | src/main/java/com/sample/shop/domain/Customer.java:125-127 | setLastName: assigns `lastName` and, by its frame, no other field of any object |
| Domain.Customer.WithLastName | src/main/java/com/sample/shop/domain/Customer.java:120-123 | the fluent `lastName(..)`: assigns `lastName` only and returns the same object |
| Domain.Customer.SetEmail | src/main/java/com/sample/shop/domain/Customer.java:138-140 | setEmail: assigns `email` and, by its frame, no other field of any object |
| Domain.Customer.WithEmail | src/main/java/com/sample/shop/domain/Customer.java:133-136 | the fluent `email(..)`: assigns `email` only and returns the same object |
| Domain.Customer.SetTelephone | src/main/java/com/sample/shop/domain/Customer.java:151-153 | setTelephone: assigns `telephone` and, by its frame, no other field of any object |
| Domain.Customer.WithTelephone | src/main/java/com/sample/shop/domain/Customer.java:146-149 | the fluent `telephone(..)`: assigns `telephone` only and returns the same object |
| Domain.WishList.SetId | src/main/java/com/sample/shop/domain/WishList.java:89-91 | setId: assigns `id` and, by its frame, no other field of any object |
| Domain.WishList.WithId | src/main/java/com/sample/shop/domain/WishList.java:93-96 | the fluent `id(..)`: assigns `id` only and returns the same object |
| Domain.WishList.SetTitle | src/main/java/com/sample/shop/domain/WishList.java:107-109 | setTitle: assigns `title` and, by its frame, no other field of any object |
| Domain.WishList.WithTitle | src/main/java/com/sample/shop/domain/WishList.java:102-105 | the fluent `title(..)`: assigns `title` only and returns the same object |
| Domain.WishList.SetRestricted | src/main/java/com/sample/shop/domain/WishList.java:120-122 | setRestricted: assigns `restricted` and, by its frame, no other field of any object |
| Domain.WishList.WithRestricted | src/main/java/com/sample/shop/domain/WishList.java:115-118 | the fluent `restricted(..)`: assigns `restricted` only and returns the same object |
| Domain.Address.SetId | src/main/java/com/sample/shop/domain/Address.java:88-90 | setId: assigns `id` and, by its frame, no other field of any object |
| Domain.Address.WithId | src/main/java/com/sample/shop/domain/Address.java:92-95 | the fluent `id(..)`: assigns `id` only and returns the same object |
| Domain.Address.SetAddress1 | src/main/java/com/sample/shop/domain/Address.java:106-108 | setAddress1: assigns `address1` and, by its frame, no other field of any object |
| Domain.Address.WithAddress1 | src/main/java/com/sample/shop/domain/Address.java:101-104 | the fluent `address1(..)`: assigns `address1` only and returns the same object |
| Domain.Address.SetAddress2 | src/main/java/com/sample/shop/domain/Address.java:119-121 | setAddress2: assigns `address2` and, by its frame, no other field of any object |
| Domain.Address.WithAddress2 | src/main/java/com/sample/shop/domain/Address.java:114-117 | the fluent `address2(..)`: assigns `address2` only and returns the same object |
| Domain.Address.SetCity | src/main/java/com/sample/shop/domain/Address.java:132-134 | setCity: assigns `city` and, by its frame, no other field of any object |
| Domain.Address.WithCity | src/main/java/com/sample/shop/domain/Address.java:127-130 | the fluent `city(..)`: assigns `city` only and returns the same object |
| Domain.Address.SetPostcode | src/main/java/com/sample/shop/domain/Address.java:145-147 | setPostcode: assigns `postcode` and, by its frame, no other field of any object |
| Domain.Address.WithPostcode | src/main/java/com/sample/shop/domain/Address.java:140-143 | the fluent `postcode(..)`: assigns `postcode` only and returns the same object |
| Domain.Address.SetCountry | src/main/java/com/sample/shop/domain/Address.java:158-160 | setCountry: assigns `country` and, by its frame, no other field of any object |
| Domain.Address.WithCountry | src/main/java/com/sample/shop/domain/Address.java:153-156 | the fluent `country(..)`: assigns `country` only and returns the same object |
| Domain.Product.SetWishList | src/main/java/com/sample/shop/domain/Product.java:197-199 | `setWishList(w)` assigns `wishList` and nothing else; `w.products` is untouched |
| Domain.Product.WithWishList | src/main/java/com/sample/shop/domain/Product.java:201-204 | the fluent `wishList(w)`: assigns `wishList` only and returns the same product |
| Domain.Product.AddCategory | src/main/java/com/sample/shop/domain/Product.java:225-229 | after `addCategory(c)`, `categories` and `c.products` are the `HashSet.add` results, each side contains the other, and the same product is returned |
| Domain.Product.RemoveCategory | src/main/java/com/sample/shop/domain/Product.java:231-235 | after `removeCategory(c)`, neither side contains the other and both are the `HashSet.remove` results; the same product is returned |
| Domain.Product.AddedTo | src/main/java/com/sample/shop/domain/Product.java:225-229 | `HashSet.add(this)` under the id-based `equals`: the result contains this, lies between s and s + {this}, and is s when s already holds an equal product |
| Domain.Product.RemovedFrom | src/main/java/com/sample/shop/domain/Product.java:231-235 | `HashSet.remove(this)`: the result holds no product equal to this, and keeps every other member of s |
| Domain.Customer.constructor | src/main/java/com/sample/shop/domain/Customer.java:52-86 | a new customer has every column null and empty wish-list and address sets |
| Domain.Customer.SetWishLists | src/main/java/com/sample/shop/domain/Customer.java:159-167 | `setWishLists(s)`: the field becomes s, every member of s points to this customer, and every old member not in s points to no customer |
| Domain.Customer.WithWishLists | src/main/java/com/sample/shop/domain/Customer.java:169-172 | the fluent `wishLists(s)`: the same back-pointer outcome as `setWishLists`, returning the same customer |
| Domain.Customer.AddWishList | src/main/java/com/sample/shop/domain/Customer.java:174-178 | `addWishList(w)` on a null set throws `NullPointerException` and changes nothing; otherwise the set is the `HashSet.add` result, `w.customer` is this and this is returned |
| Domain.Customer.RemoveWishList | src/main/java/com/sample/shop/domain/Customer.java:180-184 | `removeWishList(w)` on a null set throws; otherwise the set is the `HashSet.remove` result and `w.customer` is null even when w was never a member |
| Domain.Customer.SetAddresses | src/main/java/com/sample/shop/domain/Customer.java:190-198 | `setAddresses(s)`: the field becomes s, every member of s points to this customer (also one that was in the old set), and every old member not in s points to none |
| Domain.Customer.WithAddresses | src/main/java/com/sample/shop/domain/Customer.java:200-203 | the fluent `addresses(s)`: the same outcome as `setAddresses`, returning the same customer |
| Domain.Customer.AddAddress | src/main/java/com/sample/shop/domain/Customer.java:205-209 | `addAddress(a)` on a null set throws and changes nothing; otherwise the set is the `HashSet.add` result and `a.customer` is this |
| Domain.Customer.RemoveAddress | src/main/java/com/sample/shop/domain/Customer.java:211-215 | `removeAddress(a)` on a null set throws; otherwise the set is the `HashSet.remove` result and `a.customer` is null, even when a was never a member |
| Domain.WishList.constructor | src/main/java/com/sample/shop/domain/WishList.java:56-81 | a new wish list has every column null, an empty product set and no customer |
| Domain.WishList.SetProducts | src/main/java/com/sample/shop/domain/WishList.java:128-136 | `setProducts(s)`: the field becomes s, every member of s points to this wish list, and every old member not in s points to none |
| Domain.WishList.WithProducts | src/main/java/com/sample/shop/domain/WishList.java:138-141 | the fluent `products(s)`: the same outcome as `setProducts`, returning the same wish list |
| Domain.WishList.AddProduct | src/main/java/com/sample/shop/domain/WishList.java:143-147 | `addProduct(p)` on a null set throws; otherwise the set is the `HashSet.add` result and `p.wishList` is this |
| Domain.WishList.RemoveProduct | src/main/java/com/sample/shop/domain/WishList.java:149-153 | `removeProduct(p)` on a null set throws; otherwise the set is the `HashSet.remove` result and `p.wishList` is null |
| Domain.WishList.SetCustomer | src/main/java/com/sample/shop/domain/WishList.java:159-161 | `setCustomer(c)` assigns `customer` only; `c.wishLists` is untouched |
| Domain.WishList.WithCustomer | src/main/java/com/sample/shop/domain/WishList.java:163-166 | the fluent `customer(c)`: assigns `customer` only and returns the same wish list |
| Domain.WishList.AddedTo | src/main/java/com/sample/shop/domain/WishList.java:143-147 | `HashSet.add(this)` on a set of wish lists under the id-based `equals`: contains this, between s and s + {this}, s when an equal one is present |
| Domain.WishList.RemovedFrom | src/main/java/com/sample/shop/domain/WishList.java:149-153 | `HashSet.remove(this)`: no member equal to this remains, every other member stays |
| Domain.Address.constructor | src/main/java/com/sample/shop/domain/Address.java:50-80 | a new address has every column null and no customer |
| Domain.Address.SetCustomer | src/main/java/com/sample/shop/domain/Address.java:166-168 | `setCustomer(c)` assigns `customer` only; `c.addresses` is untouched |
| Domain.Address.WithCustomer | src/main/java/com/sample/shop/domain/Address.java:170-173 | the fluent `customer(c)`: assigns `customer` only and returns the same address |
| Domain.Address.AddedTo | src/main/java/com/sample/shop/domain/Address.java:178-186 | `HashSet.add(this)` on a set of addresses under the id-based `equals`: contains this, between s and s + {this}, s when an equal one is present |
| Domain.Address.RemovedFrom | src/main/java/com/sample/shop/domain/Address.java:178-186 | `HashSet.remove(this)`: no member equal to this remains, every other member stays |
| Domain.Members | src/main/java/com/sample/shop/domain/Customer.java:190-198 | the members of a nullable collection field: none when it is null, the set itself otherwise |
| Domain.Product.Equals | src/main/java/com/sample/shop/domain/Product.java:239-248 | `Product.equals`: every product equals itself, and a product equals another object only when that is a Product and its own id is non-null (its laws: `DomainLaws.ProductEquality`) |
| Domain.Product.HashCode | src/main/java/com/sample/shop/domain/Product.java:250-254 | `Product.hashCode`: the class's hash, the same for every product whatever its fields hold |
| Domain.Product.ContainedIn | src/main/java/com/sample/shop/domain/WishList.java:143-153 | `HashSet.contains` on a set of products: true when the product itself is a member, and, for a product with a null id, exactly then |
| Domain.Customer.Equals | src/main/java/com/sample/shop/domain/Customer.java:219-228 | `Customer.equals`: reflexive, and true of another object only when it is a Customer and its own id is non-null (its laws: `DomainLaws.CustomerEquality`) |
| Domain.Customer.HashCode | src/main/java/com/sample/shop/domain/Customer.java:230-234 | `Customer.hashCode`: the class's hash, the same for every customer |
| Domain.WishList.Equals | src/main/java/com/sample/shop/domain/WishList.java:170-179 | `WishList.equals`: reflexive, and true of another object only when it is a WishList and its own id is non-null (its laws: `DomainLaws.WishListEquality`) |
| Domain.WishList.HashCode | src/main/java/com/sample/shop/domain/WishList.java:181-185 | `WishList.hashCode`: the class's hash, the same for every wish list |
| Domain.WishList.ContainedIn | src/main/java/com/sample/shop/domain/Customer.java:174-183 | `HashSet.contains` on a set of wish lists: true when the wish list itself is a member, and, with a null id, exactly then |
| Domain.Address.Equals | src/main/java/com/sample/shop/domain/Address.java:177-186 | `Address.equals`: reflexive, and true of another object only when it is an Address and its own id is non-null (its laws: `DomainLaws.AddressEquality`) |
| Domain.Address.HashCode | src/main/java/com/sample/shop/domain/Address.java:188-192 | `Address.hashCode`: the class's hash, the same for every address |
| Domain.Address.ContainedIn | src/main/java/com/sample/shop/domain/Customer.java:205-214 | `HashSet.contains` on a set of addresses: true when the address itself is a member, and, with a null id, exactly then |
| DomainLaws.ProductEquality | src/main/java/com/sample/shop/domain/Product.java:240-254 | `Product.equals` is reflexive, symmetric and transitive; two distinct objects are equal iff both ids are non-null and equal (a null id equals only itself); `hashCode` is the same for every Product, so equal objects hash equally |
| DomainLaws.CustomerEquality | src/main/java/com/sample/shop/domain/Customer.java:220-234 | `Customer.equals` is reflexive, symmetric and transitive; two distinct objects are equal iff both ids are non-null and equal (a null id equals only itself); `hashCode` is the same for every Customer, so equal objects hash equally |
| DomainLaws.WishListEquality | src/main/java/com/sample/shop/domain/WishList.java:171-185 | `WishList.equals` is reflexive, symmetric and transitive; two distinct objects are equal iff both ids are non-null and equal (a null id equals only itself); `hashCode` is the same for every WishList, so equal objects hash equally |
| DomainLaws.AddressEquality | src/main/java/com/sample/shop/domain/Address.java:178-192 | `Address.equals` is reflexive, symmetric and transitive; two distinct objects are equal iff both ids are non-null and equal (a null id equals only itself); `hashCode` is the same for every Address, so equal objects hash equally |
| DomainLaws.ProductEqualsOnlyProducts | src/main/java/com/sample/shop/domain/Product.java:240-246 | no object that is not a Product equals a Product |
| DomainLaws.AddressSetIsReferenceSet | src/main/java/com/sample/shop/domain/Address.java:178-186 | when ids are distinct, `HashSet` membership, add and remove on addresses are plain set membership, union and difference |
| DomainLaws.AddIsIdempotent | src/main/java/com/sample/shop/domain/Product.java:225-229 | adding an element twice to a set of products, categories, wish lists or addresses gives the set after one add |
| DomainLaws.RemoveUndoesAdd | src/main/java/com/sample/shop/domain/Customer.java:205-215 | removing an address just added to a set without an equal one gives the set back |
| DomainLaws.AddCategoryTwice | src/main/java/com/sample/shop/domain/Product.java:225-229 | `addCategory(c)` called twice leaves both sides of the association as one call does |
| DomainLaws.SetWishListIsOneSided | src/main/java/com/sample/shop/domain/Product.java:197-199 | `setWishList(w)` sets the product's wish list and leaves `w.products` as it was |
| DomainLaws.SetCustomerIsOneSided | src/main/java/com/sample/shop/domain/WishList.java:159-161 | `setCustomer(c)` on a wish list and an address sets their customer and leaves both of c's sets as they were |
| DomainLaws.AddAddressKeepsFormerOwnerSet | src/main/java/com/sample/shop/domain/Customer.java:205-209 | `addAddress(a)` moves `a.customer` to the new customer but leaves a in its former customer's set |
| DomainLaws.ClearAddresses | src/main/java/com/sample/shop/domain/Customer.java:190-198 | `setAddresses(null)` leaves the field null and every old member without customer |
| Records.Overlay | src/main/java/com/sample/shop/service/mapper/AddressMapper.java:13 | one field of a MapStruct partial update: the DTO value when non-null, the stored value otherwise |
| Records.AddressValidity | src/main/java/com/sample/shop/domain/Address.java:64-73 | an address is valid iff postcode is non-null with at most 10 UTF-16 code units and country is non-null with at most 2; address1, address2 and city play no part |
| Records.SupplementaryCountryIsTooLong | src/main/java/com/sample/shop/domain/Address.java:70-73 | a country of two characters outside the Basic Multilingual Plane (a flag's regional-indicator pair) is four UTF-16 units and fails `@Size(max = 2)`, while a two-letter code passes |
| Validation.ProductWithoutTitleIsRejected | src/main/java/com/sample/shop/domain/Product.java:59-62 | saving a product with a null title throws `ConstraintViolationException`, and neither the table nor the index grows |
| Validation.WishListWithoutTitleIsRejected | src/main/java/com/sample/shop/domain/WishList.java:58-61 | saving a wish list with a null title throws, and neither the table nor the index grows |
| Validation.InvalidAddressIsRejected | src/test/java/com/sample/shop/web/rest/AddressResourceIT.java:188-236 | saving an address without postcode or country, or with either longer than its bound in UTF-16 code units, throws, and both sizes stay as they were |
| Validation.ValidRecordIsWritten | src/main/java/com/sample/shop/service/AddressService.java:66-73 | a valid record under a new key is written: table and index both grow by one and stay mirrored |
| Persistence.SaveKey | src/main/java/com/sample/shop/service/AddressService.java:66-73 | `save` merges into the stored id when the DTO carries one that is stored, and persists under a freshly generated id otherwise |
| Persistence.Commit | src/main/java/com/sample/shop/service/AddressService.java:66-73 | the flush of a save succeeds exactly when the record is valid, writing it to table and index; otherwise it throws `ConstraintViolationException` |
| Persistence.Stores.Mirrored | src/main/java/com/sample/shop/domain/WishList.java:44-45 | the index holds exactly what the table holds, the state automatic indexing reaches after a committed write (kept by `CommitSizes`, `PutSizes`, `RemoveSizes`) |
| Persistence.Stores.Put | src/main/java/com/sample/shop/service/AddressService.java:66-73 | a committed save and its indexing: table and index both hold the record under its id, and mirrored stores stay mirrored |
| Persistence.Stores.Remove | src/main/java/com/sample/shop/service/AddressService.java:144-148 | a committed delete and its indexing: neither table nor index holds the id any more, and mirrored stores stay mirrored |
| Persistence.CommitSizes | src/test/java/com/sample/shop/web/rest/AddressResourceIT.java:188-236 | a rolled-back save keeps both sizes, a committed save of a stored key keeps them too, and the stores stay mirrored |
| Persistence.PutSizes | src/test/java/com/sample/shop/web/rest/AddressResourceIT.java:716-737 | a save grows table and index by one exactly when the key is new, stores the record in both, and changes no other key's presence |
| Persistence.RemoveSizes | src/test/java/com/sample/shop/web/rest/AddressResourceIT.java:983-996 | deleting a stored id shrinks table and index by exactly one, removes that id from both and keeps every other record |
| Persistence.SaveOfNewRecordGrows | src/main/java/com/sample/shop/service/AddressService.java:66-73 | a save of a record without a stored id always grows table and index by one |
| Persistence.PageImpl | src/main/java/com/sample/shop/service/AddressService.java:170 | `new PageImpl(content, pageable, total)`: content and request as given; the total as given when unpaged, empty or not on the last page, and offset + size of content on a last page |
| Persistence.Slice | src/main/java/com/sample/shop/service/AddressService.java:122-125 | the part of an ordered result a page request selects: everything when unpaged, at most a page, nothing past the end, and the elements from the offset on |
| Persistence.PageOf | src/main/java/com/sample/shop/service/AddressService.java:122-125 | `findAll(pageable)`: the requested slice of the whole result, with the whole result's size as total |
| Persistence.PagesAreConsecutive | src/main/java/com/sample/shop/service/AddressService.java:122-125 | page n of size k follows the first n * k elements without gap or overlap |
| Persistence.MapPage | src/main/java/com/sample/shop/service/AddressService.java:124 | `page.map(f)`: same request and total, the content mapped element by element |
| Persistence.MapCommutesWithSlice | src/main/java/com/sample/shop/service/AddressService.java:124 | mapping then slicing gives the same page as slicing then mapping |
| Persistence.Take | src/main/java/com/sample/shop/service/AddressService.java:166 | `fetchHits(n)`: the first n hits, or all of them when there are fewer |
| Persistence.Rows | src/main/java/com/sample/shop/service/AddressService.java:166-169 | the records loaded for a sequence of hit ids, in hit order |
| Persistence.DistinctElements | src/main/java/com/sample/shop/service/WishListService.java:122-125 | a sequence without repeats has as many distinct entries as entries |
| Persistence.EnumerationSize | src/main/java/com/sample/shop/service/WishListService.java:122-125 | an enumeration of the table lists as many ids as it has records |
| Persistence.SmallEnumerationIsTakenWhole | src/main/java/com/sample/shop/service/AddressService.java:166-169 | with at most 20 records, `fetchHits(20)` returns all of them, so every stored record is among the results |
| Filters.Filter.constructor | src/main/java/com/sample/shop/service/criteria/CategoryCriteria.java:28 | a new filter of any class has no operator set |
| Filters.Filter.From | src/main/java/com/sample/shop/service/criteria/CategoryCriteria.java:30-32 | the filter copy constructor keeps the class and every operator |
| Filters.Filter.Copy | src/main/java/com/sample/shop/service/criteria/CategoryCriteria.java:35-37 | `copy()` returns a fresh filter of the same class with the same operators (`CategoryStatusFilter.copy` is `new CategoryStatusFilter(this)`) |
| Filters.Operators | src/main/java/com/sample/shop/service/ProductQueryService.java:98-133 | the comparisons a builder emits: `equals` alone when set, else `in` alone when set, else the others |
| Filters.Upper | src/main/java/com/sample/shop/service/ProductQueryService.java:101-108 | upper-casing keeps the length and maps each character through the ASCII upper-case map |
| Filters.AllHoldOne | src/main/java/com/sample/shop/service/ProductQueryService.java:98-133 | a single comparison holds on a column iff some value of the column meets it |
| Filters.OpHolds | src/main/java/com/sample/shop/service/ProductQueryService.java:98-133 | one emitted comparison on one column value under SQL null semantics: only `specified=false` passes a null; each operator's meaning is proved in `Columns.*OnValue` |
| Filters.FilterHolds | src/main/java/com/sample/shop/service/ProductQueryService.java:98-133 | a filter holds on a column when every comparison its builder emits is met by some value of the column (`AllHoldOne`, `SingleValuedColumn`, `EqualsTakesPrecedence`, `InTakesPrecedence`) |
| Filters.LikeUpper | src/main/java/com/sample/shop/service/ProductQueryService.java:101-109 | `like(upper(column), "%" + upper(text) + "%")`: the upper-cased text occurs in the upper-cased column (`Columns.ContainsIgnoresCase`, `Columns.ContainsItself`) |
| Filters.SingleValuedColumn | src/main/java/com/sample/shop/service/ProductQueryService.java:98-117 | on a single-valued column a filter holds iff every comparison it emits holds for that value |
| Filters.EqualsTakesPrecedence | src/main/java/com/sample/shop/service/ProductQueryService.java:98-100 | a filter with `equals` set holds iff the column holds exactly that value, whatever else is set |
| Filters.InTakesPrecedence | src/main/java/com/sample/shop/service/ProductQueryService.java:98-100 | without `equals`, a filter with `in` set holds iff the column holds one of the listed values |
| Filters.EmptyFilterHoldsEverywhere | src/main/java/com/sample/shop/service/ProductQueryService.java:98-100 | a filter with no operator set holds for every entity |
| Filters.PlainIgnoresRangeAndText | src/main/java/com/sample/shop/service/WishListQueryService.java:104-106 | the plain builder looks only at equals, notEquals, in, notIn and specified, so status and restricted filters ignore range and text operators |
| Filters.NullColumn | src/test/java/com/sample/shop/web/rest/ProductResourceIT.java:288-299 | a null column value passes only `specified = false` |
| Columns.ToMany | src/main/java/com/sample/shop/service/ProductQueryService.java:124-133 | a LEFT join over a collection: the joined ids, or a single null when nothing is joined |
| Columns.OneComparison | src/main/java/com/sample/shop/service/ProductQueryService.java:98-133 | a filter emitting one comparison holds iff some column value meets it |
| Columns.EqualsOnValue | src/test/java/com/sample/shop/web/rest/ProductResourceIT.java:260-273 | `equals` on a single value holds iff the value is present and equal |
| Columns.NotEqualsOnValue | src/test/java/com/sample/shop/web/rest/ProductResourceIT.java:248-258 | `notEquals` holds iff the value is present and different |
| Columns.InOnValue | src/test/java/com/sample/shop/web/rest/ProductResourceIT.java:275-286 | `in` holds iff the value is present and listed |
| Columns.SpecifiedOnValue | src/test/java/com/sample/shop/web/rest/ProductResourceIT.java:288-299 | `specified = b` holds iff the value's presence is b |
| Columns.GreaterThanOnValue | src/test/java/com/sample/shop/web/rest/ProductResourceIT.java:535-544 | `greaterThan` is strict, and a null value never passes |
| Columns.GreaterThanOrEqualOnValue | src/test/java/com/sample/shop/web/rest/ProductResourceIT.java:496-505 | `greaterThanOrEqual` is inclusive, and a null value never passes |
| Columns.LessThanOnValue | src/test/java/com/sample/shop/web/rest/ProductResourceIT.java:522-531 | `lessThan` is strict, and a null value never passes |
| Columns.LessThanOrEqualOnValue | src/test/java/com/sample/shop/web/rest/ProductResourceIT.java:509-518 | `lessThanOrEqual` is inclusive, and a null value never passes |
| Columns.ContainsOnValue | src/test/java/com/sample/shop/web/rest/ProductResourceIT.java:301-310 | `contains` holds iff the value is present and holds the text, both sides upper-cased |
| Columns.DoesNotContainOnValue | src/test/java/com/sample/shop/web/rest/ProductResourceIT.java:314-323 | `doesNotContain` holds iff the value is present and does not hold the text |
| Columns.PlainComparisons | src/test/java/com/sample/shop/web/rest/ProductResourceIT.java:260-299 | equals, notEquals, in and specified on one value, as the integration tests assert them |
| Columns.RangeComparisons | src/test/java/com/sample/shop/web/rest/ProductResourceIT.java:494-544 | the four range operators on one value: strict and inclusive as named, null never passes |
| Columns.TextComparisons | src/test/java/com/sample/shop/web/rest/ProductResourceIT.java:301-323 | contains and its negation doesNotContain on a present string; a null string passes neither |
| Columns.PrefixIsInfix | src/test/java/com/sample/shop/web/rest/ProductResourceIT.java:301-310 | a prefix of a string occurs in it |
| Columns.ContainsItself | src/test/java/com/sample/shop/web/rest/ProductResourceIT.java:301-310 | every string contains itself, as the test `title.contains=` + the stored title expects |
| Columns.UpperIsIdempotent | src/main/java/com/sample/shop/service/ProductQueryService.java:101-108 | upper-casing twice is upper-casing once |
| Columns.ContainsIgnoresCase | src/main/java/com/sample/shop/service/ProductQueryService.java:101-108 | `contains` gives the same answer whatever the case of the text or the column |
| Columns.ToManyEquals | src/main/java/com/sample/shop/service/ProductQueryService.java:124-133 | on a to-many join, `equals` holds iff some joined entity has that id |
| Columns.ToManyNotEquals | src/main/java/com/sample/shop/service/ProductQueryService.java:124-133 | on a to-many join, `notEquals` holds iff some joined entity has another id |
| Columns.ToManySpecified | src/main/java/com/sample/shop/service/ProductQueryService.java:124-133 | on a to-many join, `specified = b` holds iff something is joined exactly when b |
| CriteriaClasses.ValueOf | src/main/java/com/sample/shop/service/criteria/ProductCriteria.java:208-228 | the value a filter field holds: null for a null field, otherwise the filter's class and operators |
| CriteriaClasses.EmptyValue | src/main/java/com/sample/shop/service/criteria/ProductCriteria.java:44 | the value of `new XCriteria()`: every field and distinct null |
| CriteriaClasses.Criteria.constructor | src/main/java/com/sample/shop/service/criteria/ProductCriteria.java:44 | `new XCriteria()` has every field null and distinct null |
| CriteriaClasses.Criteria.Value | src/main/java/com/sample/shop/service/criteria/ProductCriteria.java:208-228 | the value of a criteria object, field by field and then distinct |
| CriteriaClasses.Criteria.Get | src/main/java/com/sample/shop/service/criteria/ProductCriteria.java:64-66 | the plain getter returns the field as it is and allocates nothing |
| CriteriaClasses.Criteria.Lazy | src/main/java/com/sample/shop/service/criteria/ProductCriteria.java:68-73 | the lazy accessor returns the stored filter when there is one and changes nothing; on a null field it stores a fresh filter of the field's class with no operator and returns it, leaving the other fields alone |
| CriteriaClasses.Criteria.Set | src/main/java/com/sample/shop/service/criteria/ProductCriteria.java:75-77 | the setter replaces exactly its own field |
| CriteriaClasses.Criteria.SetDistinct | src/main/java/com/sample/shop/service/criteria/ProductCriteria.java:203-205 | `setDistinct` replaces distinct and nothing else |
| CriteriaClasses.Criteria.Copy | src/main/java/com/sample/shop/service/criteria/ProductCriteria.java:46-62 | `copy()` is a fresh object with the same value, a null field stays null and each non-null filter is a fresh `.copy()` |
| CriteriaClasses.Criteria.Equals | src/main/java/com/sample/shop/service/criteria/ProductCriteria.java:208-228 | criteria `equals` is reflexive and holds of another object only when it is a criteria object of the same class (both directions of the value test: `CriteriaLaws.EqualsIffSameValue`) |
| CriteriaClasses.Criteria.HashCode | src/main/java/com/sample/shop/service/criteria/ProductCriteria.java:230-233 | criteria `hashCode` is `HashOf` the object's value, so it depends on the value alone (`CriteriaLaws.EqualsImpliesSameHash`) |
| CriteriaClasses.HashOf | src/main/java/com/sample/shop/service/criteria/ProductCriteria.java:230-233 | `Objects.hash` over the field hashes in declaration order, 0 for a null field, with distinct's nullable-Boolean hash last |
| CriteriaClasses.Criteria.ToString | src/main/java/com/sample/shop/service/criteria/ProductCriteria.java:236-251 | criteria `toString` starts with the class name and `{` and ends with `}` |
| CriteriaClasses.Render | src/main/java/com/sample/shop/service/criteria/ProductCriteria.java:236-251 | the class name, `{`, the non-null fields, `distinct=..., ` when set, then `}` (`CriteriaLaws.RenderEmpty`, `CriteriaLaws.RenderOnlyField`) |
| CriteriaClasses.FieldsString | src/main/java/com/sample/shop/service/criteria/ProductCriteria.java:238-247 | `name=value, ` for each non-null field in declaration order; nothing at all when every field is null |
| CriteriaLaws.EqualsIffSameValue | src/main/java/com/sample/shop/service/criteria/ProductCriteria.java:208-228 | criteria `equals` holds iff both objects are of the same class and hold the same value field by field, distinct included |
| CriteriaLaws.EqualsImpliesSameHash | src/main/java/com/sample/shop/service/criteria/ProductCriteria.java:231-233 | equal criteria objects hash equally, whatever the filter classes' `hashCode` is |
| CriteriaLaws.EqualsIsEquivalence | src/main/java/com/sample/shop/service/criteria/ProductCriteria.java:208-228 | criteria `equals` is reflexive, symmetric and transitive |
| CriteriaLaws.CopyEqualsOriginal | src/main/java/com/sample/shop/service/criteria/ProductCriteria.java:60-62 | `copy()` equals the original in both directions, is another object, and hashes the same |
| CriteriaLaws.LazyIsIdempotent | src/main/java/com/sample/shop/service/criteria/ProductCriteria.java:68-73 | two calls of a lazy accessor return the same filter, which the field then holds |
| CriteriaLaws.FieldsStringAppend | src/main/java/com/sample/shop/service/criteria/ProductCriteria.java:237-250 | the fields part of `toString` splits at any point: fields print in declaration order |
| CriteriaLaws.FieldsStringOfNulls | src/main/java/com/sample/shop/service/criteria/ProductCriteria.java:237-250 | null fields print nothing |
| CriteriaLaws.FieldsStringOfOne | src/main/java/com/sample/shop/service/criteria/ProductCriteria.java:237-250 | with one field set, the fields part is exactly `name=value, ` for it |
| CriteriaLaws.RenderEmpty | src/main/java/com/sample/shop/service/criteria/ProductCriteria.java:237-250 | an empty criteria object prints as its class name then `{}` |
| CriteriaLaws.OnlyField | src/main/java/com/sample/shop/service/criteria/ProductCriteria.java:24-40 | a criteria value with only the given field set, to the given operators |
| CriteriaLaws.RenderOnlyField | src/main/java/com/sample/shop/service/criteria/ProductCriteria.java:237-250 | with only one field set, `toString` is the class name, `{`, that field as `name=value, `, then `}` |
| CriteriaLaws.FreshToString | src/main/java/com/sample/shop/service/criteria/ProductCriteria.java:237-250 | `new XCriteria().toString()` is the class name followed by `{}` |
| CriteriaSchemas.ProductCriteriaIsWellFormed | src/main/java/com/sample/shop/service/criteria/ProductCriteria.java:24-40 | ProductCriteria has 9 filter fields with distinct names, each sent to the builder of its filter class |
| CriteriaSchemas.CategoryCriteriaIsWellFormed | src/main/java/com/sample/shop/service/criteria/CategoryCriteria.java:42-58 | CategoryCriteria has 8 filter fields, well formed |
| CriteriaSchemas.CustomerCriteriaIsWellFormed | src/main/java/com/sample/shop/service/criteria/CustomerCriteria.java:24-38 | CustomerCriteria has 7 filter fields, well formed |
| CriteriaSchemas.AddressCriteriaIsWellFormed | src/main/java/com/sample/shop/service/criteria/AddressCriteria.java:24-38 | AddressCriteria has 7 filter fields, well formed |
| CriteriaSchemas.WishListCriteriaIsWellFormed | src/main/java/com/sample/shop/service/criteria/WishListCriteria.java:24-34 | WishListCriteria has 5 filter fields, well formed |
| CriteriaSchemas.StatusAndRestrictedArePlain | src/main/java/com/sample/shop/service/CategoryQueryService.java:113-115 | status is a CategoryStatusFilter and restricted a BooleanFilter, both handled by the plain builder |
| CriteriaSchemas.AddressTextFieldsUseStringFilters | src/main/java/com/sample/shop/service/AddressQueryService.java:101-115 | the five address text fields are StringFilters sent to the string builder |
| CriteriaSchemas.EmptyProductCriteriaString | src/main/java/com/sample/shop/service/criteria/ProductCriteria.java:237-250 | `new ProductCriteria().toString()` is `ProductCriteria{}` |
| CriteriaSchemas.EmptyCategoryCriteriaString | src/main/java/com/sample/shop/service/criteria/CategoryCriteria.java:236-247 | `new CategoryCriteria().toString()` is `CategoryCriteria{}` |
| CriteriaSchemas.EmptyCustomerCriteriaString | src/main/java/com/sample/shop/service/criteria/CustomerCriteria.java:199-209 | `new CustomerCriteria().toString()` is `CustomerCriteria{}` |
| CriteriaSchemas.EmptyAddressCriteriaString | src/main/java/com/sample/shop/service/criteria/AddressCriteria.java:199-209 | `new AddressCriteria().toString()` is `AddressCriteria{}` |
| CriteriaSchemas.EmptyWishListCriteriaString | src/main/java/com/sample/shop/service/criteria/WishListCriteria.java:161-169 | `new WishListCriteria().toString()` is `WishListCriteria{}` |
| Specifications.CreateSpecification | src/main/java/com/sample/shop/service/ProductQueryService.java:92-135 | `createSpecification`: the empty specification for a null criteria object; otherwise distinct first when set, then one conjunct per non-null filter in field order |
| Specifications.Find | src/main/java/com/sample/shop/service/ProductQueryService.java:55-59 | `findAll(specification)`: no more rows than the table, every row found matches, every matching row is found |
| Specifications.SpecificationOf | src/main/java/com/sample/shop/service/ProductQueryService.java:92-135 | the specification a criteria value yields: the distinct conjunct when set, then the field conjuncts (characterized by `MatchesIffEveryFilterHolds`) |
| Specifications.Count | src/main/java/com/sample/shop/service/ProductQueryService.java:80-84 | `count(specification)`: at most the number of rows, and 0 exactly when no row matches |
| Specifications.CountIsSizeOfFind | src/main/java/com/sample/shop/service/ProductQueryService.java:80-84 | `count(specification)` is the size of `findAll(specification)` |
| Specifications.EmptySpecificationFindsAll | src/main/java/com/sample/shop/service/ProductQueryService.java:92-93 | the empty specification keeps every row |
| Specifications.MatchesAppend | src/main/java/com/sample/shop/service/ProductQueryService.java:92-135 | `and` of two specifications matches iff both do |
| Specifications.MatchesSingleton | src/main/java/com/sample/shop/service/ProductQueryService.java:92-135 | a one-conjunct specification matches iff its conjunct is satisfied |
| Specifications.FieldConjunctsMatch | src/main/java/com/sample/shop/service/ProductQueryService.java:98-133 | a row meets the first n field conditions iff it meets the condition of each non-null filter among them |
| Specifications.MatchesIffEveryFilterHolds | src/main/java/com/sample/shop/service/ProductQueryService.java:92-135 | a row matches a criteria value's specification iff every non-null filter holds on its column |
| Specifications.FieldConjunctsAreConditions | src/main/java/com/sample/shop/service/ProductQueryService.java:98-133 | each field conjunct belongs to a non-null filter and uses that field's builder and path |
| Specifications.FieldConjunctsAreOrdered | src/main/java/com/sample/shop/service/ProductQueryService.java:98-133 | field conjuncts come in strictly increasing field order, so each non-null field adds exactly one |
| Specifications.FieldConjunctsAreComplete | src/main/java/com/sample/shop/service/ProductQueryService.java:98-133 | every non-null filter has its conjunct |
| Specifications.DistinctComesFirst | src/main/java/com/sample/shop/service/ProductQueryService.java:94-97 | when distinct is set it is the first conjunct and the only distinct one; when null there is none |
| Specifications.DistinctDoesNotFilter | src/main/java/com/sample/shop/service/ProductQueryService.java:94-97 | distinct never changes which rows match |
| Specifications.OnlyFieldMatches | src/main/java/com/sample/shop/service/ProductQueryService.java:98-133 | with only field i set, a row matches iff that filter holds on its column |
| Specifications.OneRowTable | src/test/java/com/sample/shop/web/rest/ProductResourceIT.java:777-815 | on a one-row table, find returns the row or nothing and count is 1 or 0 accordingly |
| Specifications.FindByCriteria | src/main/java/com/sample/shop/service/ProductQueryService.java:55-59 | `findByCriteria`: every row for a null criteria object, otherwise the rows the criteria's specification matches, in table order |
| Specifications.CountByCriteria | src/main/java/com/sample/shop/service/ProductQueryService.java:80-84 | `countByCriteria`: the size of what `findByCriteria` returns for the same criteria |
| Specifications.FindPageByCriteria | src/main/java/com/sample/shop/service/ProductQueryService.java:68-72 | `findByCriteria(criteria, page)`: the requested page of what `findByCriteria(criteria)` returns |
| ProductQuery.View | src/main/java/com/sample/shop/service/ProductQueryService.java:92-135 | what each criteria field of a product reaches: one entry per field, in field order |
| ProductQuery.FindByCriteria | src/main/java/com/sample/shop/service/ProductQueryService.java:55-59 | the DTOs of the matching product rows, in table order; every row for a null criteria object |
| ProductQuery.FindPageByCriteria | src/main/java/com/sample/shop/service/ProductQueryService.java:68-72 | the requested page of matching product rows, mapped to DTOs |
| ProductQuery.CountByCriteria | src/main/java/com/sample/shop/service/ProductQueryService.java:80-84 | the number of product rows `findByCriteria` returns for the same criteria |
| CategoryQuery.View | src/main/java/com/sample/shop/service/CategoryQueryService.java:92-129 | what each criteria field of a category reaches: one entry per field, in field order |
| CategoryQuery.FindByCriteria | src/main/java/com/sample/shop/service/CategoryQueryService.java:55-59 | the DTOs of the matching category rows, in table order; every row for a null criteria object |
| CategoryQuery.FindPageByCriteria | src/main/java/com/sample/shop/service/CategoryQueryService.java:68-72 | the requested page of matching category rows, mapped to DTOs |
| CategoryQuery.CountByCriteria | src/main/java/com/sample/shop/service/CategoryQueryService.java:80-84 | the number of category rows `findByCriteria` returns for the same criteria |
| AddressQuery.View | src/main/java/com/sample/shop/service/AddressQueryService.java:92-123 | what each criteria field of a address reaches: one entry per field, in field order |
| AddressQuery.FindByCriteria | src/main/java/com/sample/shop/service/AddressQueryService.java:55-59 | the DTOs of the matching address rows, in table order; every row for a null criteria object |
| AddressQuery.FindPageByCriteria | src/main/java/com/sample/shop/service/AddressQueryService.java:68-72 | the requested page of matching address rows, mapped to DTOs |
| AddressQuery.CountByCriteria | src/main/java/com/sample/shop/service/AddressQueryService.java:80-84 | the number of address rows `findByCriteria` returns for the same criteria |
| WishListQuery.View | src/main/java/com/sample/shop/service/WishListQueryService.java:92-120 | what each criteria field of a wish list reaches: one entry per field, in field order |
| WishListQuery.FindByCriteria | src/main/java/com/sample/shop/service/WishListQueryService.java:55-59 | the DTOs of the matching wish list rows, in table order; every row for a null criteria object |
| WishListQuery.FindPageByCriteria | src/main/java/com/sample/shop/service/WishListQueryService.java:68-72 | the requested page of matching wish list rows, mapped to DTOs |
| WishListQuery.CountByCriteria | src/main/java/com/sample/shop/service/WishListQueryService.java:80-84 | the number of wish list rows `findByCriteria` returns for the same criteria |
| ProductQuery.IdFiltering | src/test/java/com/sample/shop/web/rest/ProductResourceIT.java:248-258 | `id.equals` selects the product with that id, `id.notEquals` every other |
| ProductQuery.RatingComparisons | src/test/java/com/sample/shop/web/rest/ProductResourceIT.java:494-544 | rating greaterThan/lessThan are strict, the OrEqual forms inclusive, a null rating never passes |
| ProductQuery.DateAddedComparisons | src/test/java/com/sample/shop/web/rest/ProductResourceIT.java:585-635 | dateAdded ranges in calendar order, strict or inclusive as named |
| ProductQuery.TitleContains | src/test/java/com/sample/shop/web/rest/ProductResourceIT.java:299-323 | `title.contains` selects the products whose title contains the text ignoring case, `doesNotContain` the others with a title; a product's own title selects it |
| ProductQuery.CategoryJoin | src/test/java/com/sample/shop/web/rest/ProductResourceIT.java:751-772 | `categoryId.equals` selects the products in that category (an unknown id matches nothing), `notEquals` those in some other, `specified = false` those in none |
| ProductQuery.WishListJoin | src/test/java/com/sample/shop/web/rest/ProductResourceIT.java:728-749 | `wishListId.equals` selects the products of that wish list |
| ProductQuery.OneProductTable | src/test/java/com/sample/shop/web/rest/ProductResourceIT.java:777-815 | in a one-product table, find returns it iff the criteria select it, and count is 1 or 0 to match |
| CategoryQuery.IdFiltering | src/test/java/com/sample/shop/web/rest/CategoryResourceIT.java:286-296 | `id.equals` selects the category with that id, `id.notEquals` every other |
| CategoryQuery.SortOrderComparisons | src/test/java/com/sample/shop/web/rest/CategoryResourceIT.java:402-452 | sortOrder ranges strict or inclusive as named; a null sortOrder never passes |
| CategoryQuery.StatusFilter | src/test/java/com/sample/shop/web/rest/CategoryResourceIT.java:636-673 | status `equals` and `notEquals` compare the enum constant; `specified = false` selects the categories without status |
| CategoryQuery.StatusIn | src/test/java/com/sample/shop/web/rest/CategoryResourceIT.java:649-660 | `status.in` selects the categories whose status is one of the listed constants |
| CategoryQuery.StatusValues | src/main/java/com/sample/shop/service/CategoryQueryService.java:113-115 | the enum constants of a `status.in` list as filter values, one per constant, in order |
| CategoryQuery.ParentJoin | src/test/java/com/sample/shop/web/rest/CategoryResourceIT.java:675-696 | `parentId.equals` selects the children of that category; `specified = false` the roots |
| CategoryQuery.ProductJoin | src/test/java/com/sample/shop/web/rest/CategoryResourceIT.java:698-719 | `productId.equals` selects the categories holding that product, `notEquals` those holding another, `specified = false` the empty ones |
| CategoryQuery.OneCategoryTable | src/test/java/com/sample/shop/web/rest/CategoryResourceIT.java:724-761 | in a one-category table, find returns it iff the criteria select it, and count is 1 or 0 |
| AddressQuery.IdFiltering | src/test/java/com/sample/shop/web/rest/AddressResourceIT.java:276-286 | `id.equals` finds the address, `id.notEquals` excludes it |
| AddressQuery.TextFilters | src/test/java/com/sample/shop/web/rest/AddressResourceIT.java:457-548 | city and postcode `contains`/`doesNotContain` select by case-blind substring |
| AddressQuery.RequiredColumnsAreSpecified | src/test/java/com/sample/shop/web/rest/AddressResourceIT.java:509-520 | on a valid address, `postcode.specified = false` and `country.specified = false` select nothing and `postcode.specified = true` selects it |
| AddressQuery.CustomerJoin | src/test/java/com/sample/shop/web/rest/AddressResourceIT.java:613-634 | `customerId.equals` selects the addresses of that customer |
| AddressQuery.OneAddressTable | src/test/java/com/sample/shop/web/rest/AddressResourceIT.java:639-676 | in a one-address table, find returns it iff the criteria select it, and count is 1 or 0 |
| WishListQuery.IdFiltering | src/main/java/com/sample/shop/service/WishListQueryService.java:98-100 | `id.equals` selects the wish list with that id, `id.notEquals` every other |
| WishListQuery.RestrictedFilter | src/main/java/com/sample/shop/service/WishListQueryService.java:104-106 | `restricted.equals b` selects the wish lists whose flag is b, `notEquals b` those whose flag is the other value; a null flag passes neither |
| WishListQuery.TitleContains | src/main/java/com/sample/shop/service/WishListQueryService.java:101-103 | `title.contains` selects by case-blind substring of the title |
| WishListQuery.ProductJoin | src/main/java/com/sample/shop/service/WishListQueryService.java:107-112 | `productId.equals` selects the wish lists holding that product; `specified = false` the empty ones |
| WishListQuery.CustomerJoin | src/main/java/com/sample/shop/service/WishListQueryService.java:113-118 | `customerId.equals` selects the wish lists of that customer |
| AddressServices.PatchOverwritesOnlyPatchedFields | src/main/java/com/sample/shop/service/AddressService.java:101-104 | the patched address takes each DTO property that is non-null and keeps the stored value of every other; the id stays |
| AddressServices.Patch | src/main/java/com/sample/shop/service/AddressService.java:101-104 | `addressMapper.partialUpdate(existing, dto)`: each property overlaid field by field (`PatchOverwritesOnlyPatchedFields`, `PatchLaws`, `PatchPreservesValidity`) |
| AddressServices.PatchLaws | src/main/java/com/sample/shop/service/AddressService.java:101-104 | an all-null DTO changes nothing, a full DTO replaces the address, the same DTO twice is the DTO once |
| AddressServices.PatchesCompose | src/main/java/com/sample/shop/service/AddressService.java:101-104 | two partial updates in a row are one partial update by the second DTO laid over the first |
| AddressServices.PatchPreservesValidity | src/main/java/com/sample/shop/service/AddressService.java:101-106 | a valid address stays valid under a DTO whose postcode and country are null or within bounds |
| AddressServices.AddressService.constructor | src/main/java/com/sample/shop/service/AddressService.java:45-58 | the service starts over mirrored stores of valid addresses keyed by their ids |
| AddressServices.AddressService.Save | src/main/java/com/sample/shop/service/AddressService.java:66-73 | `save`: a valid DTO is written under its stored id or a new one, and returned with that id; an invalid one throws and writes nothing; the invariant holds |
| AddressServices.AddressService.Update | src/main/java/com/sample/shop/service/AddressService.java:81-88 | `update` runs the same steps as save, and updating a stored address keeps both sizes |
| AddressServices.AddressService.PartialUpdate | src/main/java/com/sample/shop/service/AddressService.java:96-113 | `partialUpdate`: a null id throws, an unknown id returns empty and changes nothing, a stored id is overwritten by the patched address (or the save throws on an invalid patch); the sizes are kept |
| AddressServices.AddressService.FindAll | src/main/java/com/sample/shop/service/AddressService.java:122-125 | `findAll(pageable)`: the requested page of the table in database order, with the table size as total |
| AddressServices.AddressService.FindOne | src/main/java/com/sample/shop/service/AddressService.java:134-137 | `findOne(id)`: a null id throws, otherwise empty exactly when no address has that id, else the stored address |
| AddressServices.AddressService.Delete | src/main/java/com/sample/shop/service/AddressService.java:144-148 | `delete(id)`: a null id throws, an unknown id throws `EmptyResultDataAccessException`, a stored id is removed from table and index, each shrinking by one |
| AddressServices.AddressService.Search | src/main/java/com/sample/shop/service/AddressService.java:158-171 | `search`: the first 20 match-all hits loaded from the table, at most 20 results and all of them when there are no more than 20; the page total is the number returned on a first page |
| AddressServices.AddressService.SearchWithProjection | src/main/java/com/sample/shop/service/AddressService.java:180-196 | `searchWithProjection`: the same capped match-all result, projected from the index documents |
| AddressServices.SearchIgnoresQuery | src/main/java/com/sample/shop/service/AddressService.java:161-165 | two searches with different query strings return the same page, and the projection returns that page too |
| AddressServices.LaterPageRepeatsFirstHits | src/main/java/com/sample/shop/service/AddressService.java:166-170 | a later page of size at least 20 returns the same first hits again, with total = offset + their number |
| AddressServices.SaveThenFindOne | src/main/java/com/sample/shop/service/AddressService.java:66-73 | a saved valid address is found under the id save returned |
| AddressServices.DeleteThenFindOne | src/main/java/com/sample/shop/service/AddressService.java:144-148 | a deleted address is no longer found |
| WishListSearch.WishListSearchRepository.constructor | src/main/java/com/sample/shop/repository/search/WishListSearchRepository.java:37-40 | the repository holds the given documents |
| WishListSearch.WishListSearchRepository.SearchQuery | src/main/java/com/sample/shop/repository/search/WishListSearchRepository.java:48-51 | `search(Query)`: the content of each hit in hit order |
| WishListSearch.WishListSearchRepository.Search | src/main/java/com/sample/shop/repository/search/WishListSearchRepository.java:43-46 | `search(String)`: the engine's hits for a query-string query, then their contents in order |
| WishListSearch.WishListSearchRepository.Index | src/main/java/com/sample/shop/repository/search/WishListSearchRepository.java:54-56 | `index(e)`: a null id throws; otherwise the stored record for e's id, if any, is written under that id |
| WishListSearch.ReindexWritesStoredRecord | src/main/java/com/sample/shop/repository/search/WishListSearchRepository.java:55 | indexing writes the stored record, not the fields of the entity passed in, and is a no-op when the table has no record with that id |
| WishListSearch.Reindexed | src/main/java/com/sample/shop/repository/search/WishListSearchRepository.java:55 | the documents after `index(e)`: the stored record written under the id when the table has one, the documents as they were otherwise (`ReindexWritesStoredRecord`, `ReindexTouchesOnlyItsKey`, `ReindexIsIdempotent`) |
| WishListSearch.ReindexTouchesOnlyItsKey | src/main/java/com/sample/shop/repository/search/WishListSearchRepository.java:55 | indexing changes only the document keyed by the id |
| WishListSearch.ReindexIsIdempotent | src/main/java/com/sample/shop/repository/search/WishListSearchRepository.java:55 | indexing twice leaves the index as indexing once |
| WishListSearch.ReindexOfMirroredIndexIsNoOp | src/main/java/com/sample/shop/repository/search/WishListSearchRepository.java:55 | on an index that mirrors the table, indexing changes nothing |
| WishListSearch.IndexTwice | src/main/java/com/sample/shop/repository/search/WishListSearchRepository.java:54-56 | two `index` calls for entities with the same id both return and leave the documents as one call does |
| WishListServices.PatchOverwritesOnlyPatchedFields | src/main/java/com/sample/shop/service/WishListService.java:102-105 | the patched wish list takes each non-null DTO property and keeps every other; a valid wish list stays valid |
| WishListServices.Patch | src/main/java/com/sample/shop/service/WishListService.java:102-105 | `wishListMapper.partialUpdate(existing, dto)`: each property overlaid field by field (`PatchOverwritesOnlyPatchedFields`, `PatchLaws`) |
| WishListServices.PatchLaws | src/main/java/com/sample/shop/service/WishListService.java:102-105 | an all-null DTO changes nothing, a full DTO replaces, patching twice is idempotent, and patches compose |
| WishListServices.WishListService.constructor | src/main/java/com/sample/shop/service/WishListService.java:47-58 | the service starts over mirrored stores of valid wish lists keyed by their ids, with a search repository whose documents are the index |
| WishListServices.WishListService.Save | src/main/java/com/sample/shop/service/WishListService.java:67-74 | `save`: a valid DTO is written under its stored id or a new one; a wish list without title throws and writes nothing |
| WishListServices.WishListService.Update | src/main/java/com/sample/shop/service/WishListService.java:82-89 | `update` runs the same steps as save and keeps both sizes for a stored wish list |
| WishListServices.WishListService.PartialUpdate | src/main/java/com/sample/shop/service/WishListService.java:97-114 | `partialUpdate`: a null id throws, an unknown id returns empty and changes nothing, a stored id is overwritten by the patched wish list; the sizes are kept |
| WishListServices.WishListService.FindAll | src/main/java/com/sample/shop/service/WishListService.java:122-125 | `findAll`: one DTO per stored wish list in database order, every stored wish list among them |
| WishListServices.WishListService.FindOne | src/main/java/com/sample/shop/service/WishListService.java:134-137 | `findOne(id)`: a null id throws, otherwise empty iff no wish list has that id, else the stored one |
| WishListServices.WishListService.Delete | src/main/java/com/sample/shop/service/WishListService.java:144-148 | `delete(id)`: removes exactly that id from table and index, and so from the documents the search repository reads; a null or unknown id throws |
| WishListServices.WishListService.Search | src/main/java/com/sample/shop/service/WishListService.java:157-169 | `search(q)`: the engine's hits for q over the index the writes keep, one DTO per hit in hit order, each of them a stored wish list |
| WishListServices.WishListService.SearchWithProjection | src/main/java/com/sample/shop/service/WishListService.java:178-191 | `searchWithProjection(q)`: again the engine's hits for q over that index, each a stored wish list |
| WishListServices.SearchDiscardsMatchAll | src/main/java/com/sample/shop/service/WishListService.java:160-168 | the match-all hits play no part, and `searchWithProjection` returns exactly what `search` returns |
| WishListServices.PartialUpdateThenFindOne | src/main/java/com/sample/shop/service/WishListService.java:97-137 | a partial update of a stored wish list always succeeds and is what `findOne` then returns |
| WishListServices.SaveThenSearch | src/main/java/com/sample/shop/domain/WishList.java:44-45 | a committed save is visible to the next search: the engine runs over the index with the saved wish list written under its key |
| WishListServices.DeleteThenSearch | src/main/java/com/sample/shop/domain/WishList.java:44-45 | once a wish list is deleted, no search returns a wish list with its id, whatever the query and the engine |
| WishListDtos.WishListDTO.constructor | src/main/java/com/sample/shop/service/dto/WishListDTO.java:14-21 | a new DTO has every property null |
| WishListDtos.WishListDTO.SetId | src/main/java/com/sample/shop/service/dto/WishListDTO.java:27-29 | the setter assigns its own property and no other |
| WishListDtos.WishListDTO.SetTitle | src/main/java/com/sample/shop/service/dto/WishListDTO.java:35-37 | the setter assigns its own property and no other |
| WishListDtos.WishListDTO.SetRestricted | src/main/java/com/sample/shop/service/dto/WishListDTO.java:43-45 | the setter assigns its own property and no other |
| WishListDtos.WishListDTO.SetCustomer | src/main/java/com/sample/shop/service/dto/WishListDTO.java:51-53 | the setter assigns its own property and no other |
| WishListDtos.WishListDTO.Equals | src/main/java/com/sample/shop/service/dto/WishListDTO.java:55-69 | DTO `equals`: reflexive, and true of another object only when it is a WishListDTO and its own id is non-null (its laws: `EqualsIsById`) |
| WishListDtos.WishListDTO.HashCode | src/main/java/com/sample/shop/service/dto/WishListDTO.java:71-74 | `Objects.hash(id)` is 31 plus the id's hash in 32-bit arithmetic; 31 for a null id |
| WishListDtos.EqualsIsById | src/main/java/com/sample/shop/service/dto/WishListDTO.java:55-69 | DTO `equals` is reflexive and symmetric; distinct DTOs are equal iff both ids are non-null and equal; a null id equals only itself; no non-DTO equals a DTO |
| WishListDtos.EqualsIsTransitive | src/main/java/com/sample/shop/service/dto/WishListDTO.java:55-69 | DTO `equals` is transitive |
| WishListDtos.EqualDtosHashEqually | src/main/java/com/sample/shop/service/dto/WishListDTO.java:71-74 | equal DTOs hash equally, and the hash depends on the id alone |
| WishListDtos.OtherPropertiesAreIgnored | src/main/java/com/sample/shop/service/dto/WishListDTO.java:64-68 | changing title, restricted and customer changes neither equality nor the hash |
| WishListDtos.SetThenGet | src/main/java/com/sample/shop/service/dto/WishListDTO.java:31-37 | a setter followed by its getter returns the value set, and the other properties are unchanged |
| MappingConfigurer.JarPath | src/main/java/com/sample/shop/config/HibernateSearchMappingConfigurer.java:20 | the jar path is returned exactly when the string has a `!` and its first `:` (if any) comes before its first `!`; it is then the text strictly between them and holds no `!`; otherwise `StringIndexOutOfBoundsException` |
| MappingConfigurer.JarPathOf | src/main/java/com/sample/shop/config/HibernateSearchMappingConfigurer.java:20 | `scheme:path!entry` gives path; with no `:` before the `!`, extraction starts at index 0 |
| MappingConfigurer.EmptyJarPath | src/main/java/com/sample/shop/config/HibernateSearchMappingConfigurer.java:20 | a `!` right after the first `:` gives the empty path |
| MappingConfigurer.JarPathFailures | src/main/java/com/sample/shop/config/HibernateSearchMappingConfigurer.java:20 | no `!`, or a first `!` before the first `:`, throws |
| MappingConfigurer.JarExample | src/main/java/com/sample/shop/config/HibernateSearchMappingConfigurer.java:18-20 | the scheme-specific part `file:/shop.jar!/` gives `/shop.jar` |
| MappingConfigurer.Configure | src/main/java/com/sample/shop/config/HibernateSearchMappingConfigurer.java:14-24 | `configure`: a `URISyntaxException` leaves wrapped in a `RuntimeException`, otherwise the outcome of the extraction, whose exception is not caught |
| MappingConfigurer.ConfigureFailures | src/main/java/com/sample/shop/config/HibernateSearchMappingConfigurer.java:22-24 | `configure` throws a `RuntimeException` exactly when the URI is malformed, and otherwise returns exactly when the extraction does |

## Left out

- `MassIndexService`, `MassIndexServiceImpl` and `MassIndexResource`: asynchronous dispatch of Hibernate Search's own mass indexer, an HTTP 202 response and a role check. There is no state of the shop's own to model.
- The REST resources, HTTP status codes, MockMvc and transaction rollback of the tests: the tests are used only as the source of the asserted properties.
- The MapStruct mappers: their generated code is not visible.
  - `toDto`/`toEntity` are taken as copies of the record.
  - A DTO's customer is kept as the customer's id.
  - `partialUpdate` is taken to overwrite exactly the non-null DTO properties (`Records.Overlay`).
- `Product.setCategories` (Product.java:210-218): it calls `Category.addProduct`/`removeProduct`, and Category.java is not part of this model. `Category` keeps only its id and product set.
- JHipster's filter classes and `QueryService` builders are a foreign library.
  - Filters are modelled as an operator record.
  - Their semantics are modelled only as far as the integration tests assert them.
  - Their own `hashCode` and `toString` are parameters of the criteria `hashCode`/`ToString`.
- Filters.Upper: upper-cases only the ASCII letters; Unicode case mapping and the database collation are not modelled.
- Filters.LikeUpper: `%` and `_` inside the searched text are matched literally, not as LIKE wildcards.
- Specifications.Find: duplicate rows that a to-many join produces without `distinct` are not modelled; each entity appears once.
- Elasticsearch query evaluation (query-string parsing, analyzers, ranking) is the `Engine` parameter of the wish-list search. An `Engine` is only required to return hits read from the documents it is given.
- The order in which the Hibernate Search index returns its hits, and the database's order for `findAll`, are parameters (`hits`, `order`).
- Id generation is a parameter (`generated`) of save and update.
- The time at which automatic indexing catches up is not modelled; `Stores.Mirrored` is assumed after each committed write.
- Exception translation: a null id passed to `findById`/`deleteById` is modelled as `IllegalArgumentException`. Spring's translation to `InvalidDataAccessApiUsageException` is not modelled.
- MappingConfigurer.Configure: `Path.of`, `JandexUtils.readIndex` and `context.annotationMapping().add` (reflection and file I/O) are left out. Only the string extraction and the exception wrapping are modelled.
- MappingConfigurer.JarExample: a short literal URI stands for the fat-jar layout `file:<jar>!/BOOT-INF/classes!/`, which `JarPathOf` covers for any jar and entry.
- The entity classes' `getClass().hashCode()` values are arbitrary constants; only their being one per class matters.
- Null arguments where a Java parameter is a non-null object (an entity passed to `addCategory`, for instance) are excluded by the parameter types.
- `CustomerCriteria` has no query service in this core; its class, copy, `equals`, `hashCode` and `toString` are modelled.
- `WishListDTO.toString` and the entities' `toString` are not modelled.
- JPA caching, Envers auditing and Jackson serialisation are not modelled.
- JavaLang.IndexOf, JavaLang.Substring: positions and lengths are counted in Unicode characters, not in UTF-16 code units as in Java. `MappingConfigurer.JarPath`'s result does not depend on the difference. `Records.AddressValidity` and `Validation.InvalidAddressIsRejected` do count UTF-16 units (`JavaLang.Utf16Length`).
- Domain.Customer.SetAddresses, Domain.Customer.SetWishLists, Domain.WishList.SetProducts: Java stores the caller's own `Set` object, so later `add*`/`remove*` calls also change the caller's set. The model stores a set value, so that aliasing is not captured.
- Domain.Product.RemovedFrom, Domain.WishList.RemovedFrom, Domain.Address.RemovedFrom, Domain.Category.RemovedFrom: `HashSet.remove` removes at most the one member found through its hash bucket. The model removes every equal member. The two differ once an entity's id changes while it is in a set, which makes the set hold two equal members.
- Persistence.Commit: only the bean-validation constraints are checked. A save whose customer id names no stored customer fails the database's foreign key at flush in Java; the model accepts it, because the customer table is not part of the stores.
