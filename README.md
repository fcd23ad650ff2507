# StoreOnline entity-graph core in Dafny

StoreOnline is a Spring Boot online shop. This project models the logic its
three service implementations apply to the entity graph, together with two
helpers those services use:

- `ProductServiceImpl`: products and their category, feature keys, images,
  files, cards and favourites;
- `UserServiceImpl`: users, their defaults, roles, orders and lookups;
- `CategoryServiceImpl`: categories, their optional parent and their
  rendering as a response;
- `UserConversionUtil`: the partial merge of a user request into a user, and
  the user-to-response projection;
- `ProductRequest`: the request's field defaults, its declared constraints
  and its `putProduct`/`compareProduct` steps.

The database is one `Db.Store` object (`db.dfy`). It holds one map per table
(products, users, categories) and the id sets of the feature keys, images and
files that the product service only looks up. It also holds the CUSTOMER and
ADMIN rows of the role table and the card-to-product links. Each association
is stored once, on one side:

- a product's category is a field of the product;
- a user's roles, favourites and orders are sets in the user record;
- a card's product is an entry of `cardProduct`.

The other side is derived (`ProductsIn`, `UsersWithRole`, `FavouritedBy`,
`CardsOf`), so both sides agree by construction. A save assigns
`nextId`. `Store.Valid` says that every record's id is its key, that every
key is below `nextId`, and that every product and card reference resolves.
Each state-changing operation preserves `Valid`.

Every service operation is a method on the store. It returns `Result<T>`:
either `Ok(value)` or `Err(NotFound(table))` / `Err(AlreadyExists(table))`,
the two exceptions the services throw. Error paths leave the store
unchanged. This covers the two `@Transactional` product operations, which
roll back even after earlier in-place changes.

The model takes these as parameters:

- the clock, as `now: Time`;
- the password encoder, as `encode: string -> string`;
- the product conversion `ProductConversionUtil.toProduct`, as
  `convert: (ProductDetails, ProductDetails) -> ProductDetails`, which
  yields the product's new scalar details from its old ones and the
  request's.

`Constant.LONG_NULL` is not a parameter: it is the module constant
`CategoryService.LONG_NULL`, declared without a value, so nothing proved
depends on what it is.

The entity helpers (`addProduct`, `addFeatureKey`, `addImage`, `removeCard`,
`removeRoles`, `addFavouriteProduct`, `addOrder`, ...) are modelled as plain
set insertions and removals.

Feature keys, images and files follow what the code does, not the intent of
"replacing" them. The code removes only the requested items and then adds them
back. The product's set therefore becomes old ∪ requested, and links outside
the request are kept. An empty request list is skipped. `setFileToProduct`
guards its removal step on the product's images instead of its files. The
result is the same union either way.

Files: `common.dfy` (options, errors, results), `entities.dfy` (users,
products, categories, roles), `user_conversion.dfy`, `product_request.dfy`,
`db.dfy`, `category_service.dfy`, `user_service.dfy`, `product_service.dfy`.

## Model

| member | source | states |
|---|---|---|
| ProductService.FindProductByIdFromDB | src/main/java/com/online/store/service/impl/ProductServiceImpl.java:86-91 | A known id gives the stored product; an unknown id gives NotFound(Products); nothing changes. |
| ProductService.ResolveAll | src/main/java/com/online/store/service/impl/ProductServiceImpl.java:154-156 | The lookups succeed exactly when every id is in the table, and then yield the id list itself; otherwise NotFound of that table. |
| ProductService.RemoveEach | src/main/java/com/online/store/service/impl/ProductServiceImpl.java:157-158 | The loop of removals leaves the set minus every listed item. |
| ProductService.AddEach | src/main/java/com/online/store/service/impl/ProductServiceImpl.java:160 | The loop of additions leaves the set plus every listed item. |
| ProductService.SetCategoryToProduct | src/main/java/com/online/store/service/impl/ProductServiceImpl.java:122-126 | A null category id keeps the product's category. A known id moves the product into that category. An unknown id gives NotFound(Categories). |
| ProductService.SetFeatureToProduct | src/main/java/com/online/store/service/impl/ProductServiceImpl.java:152-162 | An empty list returns the product as it was. An unknown key gives NotFound(FeatureKeys). Otherwise the feature keys become old ∪ requested. |
| ProductService.SetImageToProduct | src/main/java/com/online/store/service/impl/ProductServiceImpl.java:128-138 | The same for images: unchanged on an empty list, NotFound(Images) on an unknown id, otherwise old ∪ requested. |
| ProductService.SetFileToProduct | src/main/java/com/online/store/service/impl/ProductServiceImpl.java:140-150 | The same for files, although the removal is guarded by the images: unchanged on an empty list, NotFound(Files) on an unknown id, otherwise old ∪ requested. |
| ProductService.FirstUnresolved | src/main/java/com/online/store/service/impl/ProductServiceImpl.java:164-168 | A request with an unknown reference fails with NotFound of the first one in the order category, feature keys, images, files. |
| ProductService.SetFieldsToProduct | src/main/java/com/online/store/service/impl/ProductServiceImpl.java:164-170 | Succeeds exactly when every reference resolves. The error is the first failing lookup's. On success the product is `Linked`: new category if one is named, old ∪ requested links, and time `now`. |
| ProductService.LinkedResolves | src/main/java/com/online/store/service/impl/ProductServiceImpl.java:164-170 | If a product's references resolve and the request's references resolve, then the linked product's references resolve. |
| ProductService.LinkedKeepsLinks | src/main/java/com/online/store/service/impl/ProductServiceImpl.java:157-160 | Linking keeps every earlier feature key, image and file, and the id and details. Linking again with the same request changes nothing. |
| ProductService.CreateProduct | src/main/java/com/online/store/service/impl/ProductServiceImpl.java:52-61 | An unresolved reference gives the first lookup's error and saves nothing. Otherwise a new product with converted details and linked references is saved under a fresh id, in the requested category, and `Valid` is kept. The request carries the converted product. |
| ProductService.ModifyProduct | src/main/java/com/online/store/service/impl/ProductServiceImpl.java:63-72 | An unknown product id gives NotFound(Products). An unresolved reference gives the first lookup's error. Both leave the store unchanged. Otherwise the stored product is converted and linked (its time reset to `now`) and saved under its id. |
| ProductService.DetachCards | src/main/java/com/online/store/service/impl/ProductServiceImpl.java:77 | Removing each card of the product leaves exactly the links to other products. |
| ProductService.DeleteProduct | src/main/java/com/online/store/service/impl/ProductServiceImpl.java:74-79 | On a known id the product is removed and no card is linked to it anymore; the rest is unchanged. An unknown id gives NotFound(Products) and changes nothing. |
| ProductService.PutProductToFavourites | src/main/java/com/online/store/service/impl/ProductServiceImpl.java:93-97 | The product is looked up first, so a missing product gives NotFound(Products) even when the user is also missing. A missing user gives NotFound(Users). On success the product joins the user's favourites and no other user changes. |
| ProductService.DeleteProductFromFavourites | src/main/java/com/online/store/service/impl/ProductServiceImpl.java:99-103 | The same lookup order. On success the product leaves the user's favourites. |
| UserService.GetUserByIdFromDB | src/main/java/com/online/store/service/impl/UserServiceImpl.java:115-118 | A known id gives the stored user; otherwise NotFound(Users). |
| UserService.FindUserByEmail | src/main/java/com/online/store/service/impl/UserServiceImpl.java:120-123 | Succeeds exactly when some stored user has that email, and gives such a user. With unique emails it is the only one. Otherwise NotFound(Emails). |
| UserService.SetDefault | src/main/java/com/online/store/service/impl/UserServiceImpl.java:125-132 | When the CUSTOMER role row exists the user gets roles exactly {CUSTOMER}, the creation time and discount 3. Otherwise NotFound(RolesTable). |
| UserService.CreateUser | src/main/java/com/online/store/service/impl/UserServiceImpl.java:69-79 | A stored email gives AlreadyExists(Users); a missing CUSTOMER role gives NotFound(RolesTable); both add no user. Otherwise the merged user is saved under a fresh id with the encoded password, roles {CUSTOMER} and discount 3. Unique emails stay unique. |
| UserService.ModifyUser | src/main/java/com/online/store/service/impl/UserServiceImpl.java:92-98 | An unknown id gives NotFound(Users) and changes nothing. Otherwise the request is merged into the stored user, with no email uniqueness check. |
| UserService.RemoveFirstRole | src/main/java/com/online/store/service/impl/UserServiceImpl.java:103-104 | A user with no roles is unchanged. Otherwise exactly one of the user's roles is removed. |
| UserService.DeleteUser | src/main/java/com/online/store/service/impl/UserServiceImpl.java:100-106 | An unknown id gives NotFound(Users) and changes nothing. Otherwise the user is removed, no role has that user anymore, and the other tables are unchanged. |
| UserService.SetOrderToUser | src/main/java/com/online/store/service/impl/UserServiceImpl.java:108-113 | An unknown id gives NotFound(Users). Otherwise the order joins that user's orders and no other user changes. |
| CategoryService.FindByIdFromDB | src/main/java/com/online/store/service/impl/CategoryServiceImpl.java:55-59 | A null id gives null without error. A known id gives its category. An unknown id gives NotFound(Categories). |
| CategoryService.CheckParentCategoryIfNull | src/main/java/com/online/store/service/impl/CategoryServiceImpl.java:70-76 | A null parent id is rewritten to LONG_NULL and false is returned. A present one is left alone and true is returned. |
| CategoryService.GetCategory | src/main/java/com/online/store/service/impl/CategoryServiceImpl.java:78-84 | The name is always overwritten. A null parent keeps the category's parent. A stored parent becomes the parent, with no cycle check. An unknown one gives NotFound(Categories). |
| CategoryService.CreateCategory | src/main/java/com/online/store/service/impl/CategoryServiceImpl.java:28-33 | A null parent creates a root and a known parent creates a child of it, both under a fresh id. An unknown parent gives NotFound(Categories) and saves nothing. Resolved parents stay resolved. The request's null parent id is rewritten to LONG_NULL; a present one is left as it was. |
| CategoryService.ModifyCategory | src/main/java/com/online/store/service/impl/CategoryServiceImpl.java:35-41 | An unknown id or parent gives NotFound(Categories) and changes nothing. Otherwise the name is overwritten. A null parent id keeps the old parent, and any stored category, the category itself included, can become the parent. For a known category, the request's null parent id is rewritten to LONG_NULL and a present one is left as it was. |
| CategoryService.DetachProducts | src/main/java/com/online/store/service/impl/CategoryServiceImpl.java:46 | Removing each product of the category clears exactly those products' category link. |
| CategoryService.DeleteCategory | src/main/java/com/online/store/service/impl/CategoryServiceImpl.java:43-48 | On a known id every product of the category is detached, so the category has no product left, and then the category is removed. An unknown id gives NotFound(Categories). |
| CategoryService.SetParentCategory | src/main/java/com/online/store/service/impl/CategoryServiceImpl.java:94-100 | The response's parent id is the parent's id, or LONG_NULL when there is no parent. Id and name are unchanged. |
| CategoryService.GetCategoryResponse | src/main/java/com/online/store/service/impl/CategoryServiceImpl.java:86-92 | Id and name are copied and a parent id is always present. It is LONG_NULL exactly when there is no parent or the parent's id is LONG_NULL. Otherwise it is the parent's id. |
| UserConversion.Overwrite | src/main/java/com/online/store/util/UserConversionUtil.java:17-19 | A non-null, non-empty requested value replaces the field; otherwise the field is kept. |
| UserConversion.ToUser | src/main/java/com/online/store/util/UserConversionUtil.java:13-39 | A null user gives null. Each of the seven profile fields is overwritten exactly when the request's value is non-null and non-empty. Id, password, roles, creation time, discount, favourites and orders are untouched. |
| UserConversion.ToUserBlankIsIdentity | src/main/java/com/online/store/util/UserConversionUtil.java:17-37 | A request whose profile fields are all null or empty leaves the user as it was. |
| UserConversion.ToUserIdempotent | src/main/java/com/online/store/util/UserConversionUtil.java:17-37 | Merging the same request twice is the same as merging it once. |
| UserConversion.NamesInOrderLength | src/main/java/com/online/store/util/UserConversionUtil.java:53-55 | Listing the role names along a duplicate-free role order gives one name per role of the user found in that order. |
| UserConversion.NamesInOrderMembers | src/main/java/com/online/store/util/UserConversionUtil.java:53-55 | A name is listed exactly when a role of the user in that order carries it. |
| UserConversion.RoleNames | src/main/java/com/online/store/util/UserConversionUtil.java:53-55 | The role list holds one name per role, and its names are exactly the names of the user's roles. |
| UserConversion.FromUserToUserResponse | src/main/java/com/online/store/util/UserConversionUtil.java:41-57 | A null user gives the empty response. Otherwise id, first and last name, phone, street, city and country code are copied, and the role list has one name per role. |
| UserConversion.ResponseOmitsEmail | src/main/java/com/online/store/util/UserConversionUtil.java:45-52 | Two users that differ only in their email give the same response. |
| ProductRequests.NotBlankIsTrimmedNonEmpty | src/main/java/com/online/store/dto/request/ProductRequest.java:21-29 | `@NotBlank` holds exactly when the value is non-null and its `trim` (leading and trailing characters at or below U+0020 removed) is non-empty. |
| ProductRequests.ConformsMatchesValidator | src/main/java/com/online/store/dto/request/ProductRequest.java:21-47 | The declared constraints hold exactly when the validator accepts: non-null name and code unit whose trim is non-empty and whose length is at most 150, a non-null active flag, non-null positive price and maximum price, a description of at most 250 characters (or null), and a non-null positive category id. |
| ProductRequests.ProductRequest.MeetsConstraints | src/main/java/com/online/store/dto/request/ProductRequest.java:21-47 | A request passes validation exactly when the validator accepts its fields as above. |
| ProductRequests.BlankNameRejected | src/main/java/com/online/store/dto/request/ProductRequest.java:21-24 | A name made only of characters at or below U+0020 (spaces, tabs, line breaks, or empty) trims to nothing, so the request does not conform. |
| ProductRequests.PriceAboveMaxConforms | src/main/java/com/online/store/dto/request/ProductRequest.java:34-40 | Price and maximum price are not ordered: a price above the maximum still conforms. |
| ProductRequests.ProductRequest.constructor | src/main/java/com/online/store/dto/request/ProductRequest.java:42-56 | A fresh request has description "" and empty feature key, image and file lists. Every other field is null. |
| ProductRequests.ProductRequest.PutProduct | src/main/java/com/online/store/dto/request/ProductRequest.java:59-61 | The attached product is the given one. |
| ProductRequests.ProductRequest.CompareProduct | src/main/java/com/online/store/dto/request/ProductRequest.java:63-68 | With no product attached nothing happens. Otherwise the attached product's details become the conversion of its old details and the request's fields. |

## Left out

- Controllers, HTTP routing, `@PreAuthorize` checks, logging and response wrapping: glue around the services.
- Image and file storage I/O and the multipart handling: binary I/O.
- `loginUser`, `getAuthentication` and `getJwtResponse`: Spring Security and JWT are foreign calls.
- `findProductByParam`, `findAllUsers`, `CategoryServiceImpl.findAll` and `ProductFindRequest`: they delegate to Spring paging and to query specifications. `ProductSpecification` and `CategorySpecification` are not part of this model.
- `getUserById`, `findById` and `findProductById` are only these lookups followed by a response conversion.
- `ProductConversionUtil` (`toProduct`, `fromProduct`) is not part of this model. `toProduct` is the `convert` parameter and is assumed to touch only the scalar details. `fromProduct` is not modelled.
- CreateProduct: returns the saved product instead of its `fromProduct` response.
- ModifyProduct: returns the saved product instead of its `fromProduct` response.
- `UserRequest.convertToUser` is not part of this model. It is assumed to be `UserConversionUtil.toUser` applied to the given user.
- `ValidationUtil` is not part of this model. `isNull` is taken as a null test, and `isNullOrEmpty` as null or the empty string.
- The `Role` enum is not part of this model. Only its CUSTOMER and ADMIN values, used by the services, are modelled.
- RoleNames: lists the names in enum order, while the source streams a `HashSet`, whose order is not specified. Only the length and the members of the list are stated, and those do not depend on the order.
- RemoveFirstRole: leaves open which role is first, since that is the unspecified iteration order of the roles set.
- DeleteUser: the role edge taken off by `removeRoles` lives in the user record here, so it disappears with the user. The in-memory `Roles.users` back-reference is not modelled.
- FindUserByEmail: does not model the repository's failure when several users share an email. `CreateUser` keeps emails unique, but `ModifyUser` merges any email without a check, so two users can end up with the same one. In that state the model returns one of them.
- CreateUser: the email check is modelled as "some user has this email". If `ModifyUser` has made two users share it, the repository lookup in the source fails there, and the model answers AlreadyExists(Users) instead.
- PutProductToFavourites: the source neither saves nor runs in a transaction, so whether the change reaches the database depends on the persistence session. The model updates the user record.
- DeleteProductFromFavourites: the same persistence caveat as for adding a favourite.
- DeleteProduct: users' favourites that name the deleted product are left as they are. How the database treats that reference is not modelled.
- DeleteProduct: iterating over the card list while `removeCard` removes from it may throw in Java, depending on the entity helper, which is not shown. The model takes the loop to unlink every card.
- DeleteCategory: iterating over the product list while `removeProduct` removes from it may throw in the same way. Child categories keep a dangling parent link, so resolved parents are not preserved.
- CheckParentCategoryIfNull: a request object used twice would carry `LONG_NULL` on its second use and be looked up as a parent. The model states the rewrite but not that reuse.
- The aliasing between `ProductRequest.product` and the stored product is not modelled. After the call the request holds the product as it was before the references were set.
- ProductRequests.Conforms: `@Size` counts UTF-16 code units, and the model counts characters. `@NotBlank` is modelled as "some character above U+0020".
- Passwords are not null in requests. The scalar fields of both requests are optional values; the id lists of a product request are plain lists and are never null.
- SetFeatureToProduct: a JSON `null` feature key list makes the source throw on `isEmpty()`. The model has no null list and does not model that error.
- SetImageToProduct: the same for a `null` image list.
- SetFileToProduct: the same for a `null` file list.
- Java `Integer`/`Long` widths: prices, ids and discounts are unbounded integers, since no arithmetic is done on them.
- Concurrency and transaction isolation, beyond all-or-nothing for failing calls.
