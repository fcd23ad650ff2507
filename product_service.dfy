/** ProductServiceImpl: creating, modifying, deleting and looking up
    products, linking them to their category, feature keys, images and
    files, and keeping users' favourites. */
module ProductService {
  import opened Common
  import opened Entities
  import opened Db
  import opened ProductRequests
  import CategoryService
  import UserService

  /** findProductByIdFromDB: the stored product, or NotFound. */
  method FindProductByIdFromDB(s: Store, id: Id) returns (r: Result<Product>)
    ensures r.Ok? <==> id in s.products
    ensures r.Ok? ==> r.value == s.products[id]
    ensures r.Err? ==> r.error == NotFound(Products)
  {
    if id !in s.products {
      return Err(NotFound(Products));
    }
    return Ok(s.products[id]);
  }

  /** Taking the list one element further adds that element to its set. */
  lemma ElemsSnoc(xs: seq<Id>, i: int)
    requires 0 <= i < |xs|
    ensures Elems(xs[..i + 1]) == Elems(xs[..i]) + {xs[i]}
  {
  }

  /** The `stream().map(service::getXFromDB)` step: every id is looked up in
      turn and the first unknown one fails with NotFound; otherwise the
      looked-up list is the id list itself. */
  method ResolveAll(ids: seq<Id>, table: set<Id>, what: Table) returns (r: Result<seq<Id>>)
    ensures r.Ok? <==> AllIn(ids, table)
    ensures r.Ok? ==> r.value == ids
    ensures r.Err? ==> r.error == NotFound(what)
  {
    var found: seq<Id> := [];
    var i := 0;
    while i < |ids|
      invariant 0 <= i <= |ids|
      invariant found == ids[..i]
      invariant AllIn(ids[..i], table)
    {
      if ids[i] !in table {
        return Err(NotFound(what));
      }
      found := found + [ids[i]];
      i := i + 1;
    }
    assert ids[..i] == ids;
    return Ok(found);
  }

  /** `items.forEach(product::removeX)`. */
  method RemoveEach(current: set<Id>, items: seq<Id>) returns (r: set<Id>)
    ensures r == current - Elems(items)
  {
    r := current;
    for i := 0 to |items|
      invariant r == current - Elems(items[..i])
    {
      ElemsSnoc(items, i);
      r := r - {items[i]};
    }
    assert items[..|items|] == items;
  }

  /** `items.forEach(product::addX)`. */
  method AddEach(current: set<Id>, items: seq<Id>) returns (r: set<Id>)
    ensures r == current + Elems(items)
  {
    r := current;
    for i := 0 to |items|
      invariant r == current + Elems(items[..i])
    {
      ElemsSnoc(items, i);
      r := r + {items[i]};
    }
    assert items[..|items|] == items;
  }

  /** setCategoryToProduct: with a category id, the category must exist and
      the product moves into it; without one the product keeps its
      category. */
  method SetCategoryToProduct(s: Store, req: ProductRequest, p: Product) returns (r: Result<Product>)
    ensures r.Ok? <==> req.categoryId.None? || req.categoryId.value in s.categories
    ensures r.Ok? ==> r.value == if req.categoryId.Some? then p.(category := req.categoryId) else p
    ensures r.Err? ==> r.error == NotFound(Categories)
  {
    if req.categoryId.None? {
      return Ok(p);
    }
    var category :- CategoryService.FindByIdFromDB(s, req.categoryId);
    return Ok(p.(category := req.categoryId));
  }

  /** setFeatureToProduct: with a non-empty id list every feature key must
      exist; the product's feature keys then become its old ones together
      with the requested ones (they are removed and added again, not
      replaced). */
  method SetFeatureToProduct(s: Store, req: ProductRequest, p: Product) returns (r: Result<Product>)
    ensures r.Ok? <==> AllIn(req.featureKeysId, s.featureKeyIds)
    ensures r.Ok? ==> r.value == p.(featureKeys := p.featureKeys + Elems(req.featureKeysId))
    ensures r.Err? ==> r.error == NotFound(FeatureKeys)
    ensures req.featureKeysId == [] ==> r == Ok(p)
  {
    if req.featureKeysId == [] {
      return Ok(p);
    }
    var keys :- ResolveAll(req.featureKeysId, s.featureKeyIds, FeatureKeys);
    var current := p.featureKeys;
    if current != {} {
      current := RemoveEach(current, keys);
    }
    current := AddEach(current, keys);
    return Ok(p.(featureKeys := current));
  }

  /** setImageToProduct: as for feature keys, with images. */
  method SetImageToProduct(s: Store, req: ProductRequest, p: Product) returns (r: Result<Product>)
    ensures r.Ok? <==> AllIn(req.images, s.imageIds)
    ensures r.Ok? ==> r.value == p.(images := p.images + Elems(req.images))
    ensures r.Err? ==> r.error == NotFound(Images)
    ensures req.images == [] ==> r == Ok(p)
  {
    if req.images == [] {
      return Ok(p);
    }
    var images :- ResolveAll(req.images, s.imageIds, Images);
    var current := p.images;
    if current != {} {
      current := RemoveEach(current, images);
    }
    current := AddEach(current, images);
    return Ok(p.(images := current));
  }

  /** setFileToProduct: as for feature keys, with files. The removal step is
      guarded by the product's images rather than its files; either way
      the outcome is the union. */
  method SetFileToProduct(s: Store, req: ProductRequest, p: Product) returns (r: Result<Product>)
    ensures r.Ok? <==> AllIn(req.files, s.fileIds)
    ensures r.Ok? ==> r.value == p.(files := p.files + Elems(req.files))
    ensures r.Err? ==> r.error == NotFound(Files)
    ensures req.files == [] ==> r == Ok(p)
  {
    if req.files == [] {
      return Ok(p);
    }
    var files :- ResolveAll(req.files, s.fileIds, Files);
    var current := p.files;
    if p.images != {} {
      current := RemoveEach(current, files);
    }
    current := AddEach(current, files);
    return Ok(p.(files := current));
  }

  /** Every reference the request names exists in the store. */
  predicate Resolves(s: Store, req: ProductRequest)
    reads s, req
  {
    && (req.categoryId.None? || req.categoryId.value in s.categories)
    && AllIn(req.featureKeysId, s.featureKeyIds)
    && AllIn(req.images, s.imageIds)
    && AllIn(req.files, s.fileIds)
  }

  /** The error of the first lookup that fails, in the order category,
      feature keys, images, files. */
  function FirstUnresolved(s: Store, req: ProductRequest): (e: Error)
    reads s, req
    requires !Resolves(s, req)
    ensures e.NotFound?
  {
    if req.categoryId.Some? && req.categoryId.value !in s.categories then NotFound(Categories)
    else if !AllIn(req.featureKeysId, s.featureKeyIds) then NotFound(FeatureKeys)
    else if !AllIn(req.images, s.imageIds) then NotFound(Images)
    else NotFound(Files)
  }

  /** The product once the request's references and the time are set on
      it: moved to the requested category if one is named, and holding its
      old feature keys, images and files together with the requested ones. */
  function Linked(p: Product, req: ProductRequest, now: Time): Product
    reads req
  {
    p.(
      category := if req.categoryId.Some? then req.categoryId else p.category,
      featureKeys := p.featureKeys + Elems(req.featureKeysId),
      images := p.images + Elems(req.images),
      files := p.files + Elems(req.files),
      createDate := Some(now))
  }

  /** setFieldsToProduct: category, feature keys, images and files in that
      order, then the creation time. */
  method SetFieldsToProduct(s: Store, req: ProductRequest, p: Product, now: Time) returns (r: Result<Product>)
    ensures r.Ok? <==> Resolves(s, req)
    ensures r.Err? ==> r.error == FirstUnresolved(s, req)
    ensures r.Ok? ==> r.value == Linked(p, req, now)
  {
    var product :- SetCategoryToProduct(s, req, p);
    product :- SetFeatureToProduct(s, req, product);
    product :- SetImageToProduct(s, req, product);
    product :- SetFileToProduct(s, req, product);
    return Ok(product.(createDate := Some(now)));
  }

  /** A resolving request keeps a product's references resolved. */
  lemma LinkedResolves(s: Store, req: ProductRequest, p: Product, now: Time)
    requires s.ProductLinksResolve(p) && Resolves(s, req)
    ensures s.ProductLinksResolve(Linked(p, req, now))
  {
  }

  /** Linking never drops a feature key, image or file, keeps the product's
      id and details, and sending the same request again changes nothing. */
  lemma LinkedKeepsLinks(p: Product, req: ProductRequest, now: Time)
    ensures var q := Linked(p, req, now);
      && p.featureKeys <= q.featureKeys && p.images <= q.images && p.files <= q.files
      && q.id == p.id && q.details == p.details
      && Linked(q, req, now) == q
  {
  }

  /** createProduct: a new product gets the request's scalar fields through
      the product conversion (`convert`), then its references and time; if
      any reference is unknown nothing is saved, otherwise it is saved under
      a new id. */
  method CreateProduct(s: Store, req: ProductRequest, convert: (ProductDetails, ProductDetails) -> ProductDetails, now: Time)
    returns (r: Result<Product>)
    requires s.Valid()
    modifies s, req`product
    ensures s.Valid()
    ensures var base := NewProduct().(details := convert(NewProduct().details, req.Details()));
      req.product == Some(base)
    ensures !old(Resolves(s, req)) ==> r == Err(old(FirstUnresolved(s, req))) && unchanged(s)
    ensures r.Ok? <==> old(Resolves(s, req))
    ensures r.Ok? ==>
      var id := old(s.nextId);
      var base := NewProduct().(details := convert(NewProduct().details, req.Details()));
      var saved := Linked(base, req, now).(id := Some(id));
      && s.products == old(s.products)[id := saved]
      && r.value == saved
      && (req.categoryId.Some? ==> id in s.ProductsIn(req.categoryId.value))
      && s.nextId == id + 1
      && s.users == old(s.users) && s.categories == old(s.categories) && s.cardProduct == old(s.cardProduct)
      && s.featureKeyIds == old(s.featureKeyIds) && s.imageIds == old(s.imageIds)
      && s.fileIds == old(s.fileIds) && s.roleTable == old(s.roleTable)
  {
    req.PutProduct(NewProduct());
    req.CompareProduct(convert);
    var product := req.product.value;
    product :- SetFieldsToProduct(s, req, product, now);
    LinkedResolves(s, req, req.product.value, now);
    var id := s.nextId;
    product := product.(id := Some(id));
    s.products := s.products[id := product];
    s.nextId := id + 1;
    return Ok(product);
  }

  /** modifyProduct: the stored product must exist; it gets the request's
      scalar fields through the conversion, then its references and a new
      time, and is saved under its own id. A failing lookup rolls every
      change back. */
  method ModifyProduct(s: Store, req: ProductRequest, id: Id, convert: (ProductDetails, ProductDetails) -> ProductDetails, now: Time)
    returns (r: Result<Product>)
    requires s.Valid()
    modifies s, req`product
    ensures s.Valid()
    ensures id !in old(s.products) ==> r == Err(NotFound(Products)) && unchanged(s) && unchanged(req)
    ensures id in old(s.products) && !old(Resolves(s, req)) ==> r == Err(old(FirstUnresolved(s, req))) && unchanged(s)
    ensures r.Ok? <==> id in old(s.products) && old(Resolves(s, req))
    ensures id in old(s.products) ==>
      req.product == Some(old(s.products[id]).(details := convert(old(s.products[id]).details, req.Details())))
    ensures r.Ok? ==>
      var before := old(s.products[id]);
      var saved := Linked(before.(details := convert(before.details, req.Details())), req, now);
      && s.products == old(s.products)[id := saved]
      && r.value == saved
      && (req.categoryId.Some? ==> id in s.ProductsIn(req.categoryId.value))
      && s.nextId == old(s.nextId)
      && s.users == old(s.users) && s.categories == old(s.categories) && s.cardProduct == old(s.cardProduct)
      && s.featureKeyIds == old(s.featureKeyIds) && s.imageIds == old(s.imageIds)
      && s.fileIds == old(s.fileIds) && s.roleTable == old(s.roleTable)
  {
    var product :- FindProductByIdFromDB(s, id);
    req.PutProduct(product);
    req.CompareProduct(convert);
    product := req.product.value;
    product :- SetFieldsToProduct(s, req, product, now);
    LinkedResolves(s, req, req.product.value, now);
    s.products := s.products[id := product];
    return Ok(product);
  }

  /** The card links with every link to product `p` removed. */
  function Unlinked(links: map<Id, Id>, p: Id): map<Id, Id> {
    map c | c in links && links[c] != p :: links[c]
  }

  /** The loop of deleteProduct over the product's cards:
      `product.removeCard` on each card in turn. */
  method DetachCards(links: map<Id, Id>, p: Id) returns (table: map<Id, Id>)
    ensures table == Unlinked(links, p)
  {
    table := links;
    var todo := set c | c in links && links[c] == p;
    ghost var members := todo;
    while todo != {}
      invariant todo <= members
      invariant table.Keys == links.Keys - (members - todo)
      invariant forall c :: c in table ==> table[c] == links[c]
      decreases todo
    {
      ghost var w := NonEmptyHasElement(todo);
      var c :| c in todo;
      table := table - {c};
      todo := todo - {c};
    }
    ghost var unlinked := Unlinked(links, p);
    forall c ensures c in table <==> c in unlinked {
      assert c in members <==> c in links && links[c] == p;
    }
    assert table.Keys == unlinked.Keys;
    assert forall c :: c in table ==> table[c] == unlinked[c];
  }

  /** deleteProduct: the product must exist; its cards are unlinked from it
      and it is removed. Users' favourites are left as they are. */
  method DeleteProduct(s: Store, id: Id) returns (r: Result<()>)
    requires s.Valid()
    modifies s
    ensures s.Valid()
    ensures id !in old(s.products) ==> r == Err(NotFound(Products)) && unchanged(s)
    ensures id in old(s.products) ==>
      && r == Ok(())
      && s.products == old(s.products) - {id}
      && s.cardProduct == Unlinked(old(s.cardProduct), id)
      && s.CardsOf(id) == {}
      && s.nextId == old(s.nextId) && s.users == old(s.users) && s.categories == old(s.categories)
      && s.featureKeyIds == old(s.featureKeyIds) && s.imageIds == old(s.imageIds)
      && s.fileIds == old(s.fileIds) && s.roleTable == old(s.roleTable)
  {
    var product :- FindProductByIdFromDB(s, id);
    var links := DetachCards(s.cardProduct, id);
    s.cardProduct := links;
    s.products := s.products - {id};
    return Ok(());
  }

  /** putProductToFavourites: the product is looked up before the user; the
      product joins the user's favourites. */
  method PutProductToFavourites(s: Store, productId: Id, userId: Id) returns (r: Result<()>)
    requires s.Valid()
    modifies s
    ensures s.Valid()
    ensures productId !in old(s.products) ==> r == Err(NotFound(Products)) && unchanged(s)
    ensures productId in old(s.products) && userId !in old(s.users) ==> r == Err(NotFound(Users)) && unchanged(s)
    ensures r.Ok? <==> productId in old(s.products) && userId in old(s.users)
    ensures r.Ok? ==>
      var u := old(s.users[userId]);
      && s.users == old(s.users)[userId := u.(favourites := u.favourites + {productId})]
      && userId in s.FavouritedBy(productId)
      && s.nextId == old(s.nextId) && s.products == old(s.products) && s.categories == old(s.categories)
      && s.cardProduct == old(s.cardProduct)
      && s.featureKeyIds == old(s.featureKeyIds) && s.imageIds == old(s.imageIds)
      && s.fileIds == old(s.fileIds) && s.roleTable == old(s.roleTable)
  {
    var product :- FindProductByIdFromDB(s, productId);
    var user :- UserService.GetUserByIdFromDB(s, userId);
    s.users := s.users[userId := user.(favourites := user.favourites + {productId})];
    return Ok(());
  }

  /** deleteProductFromFavourites: the product is looked up before the user;
      the product leaves the user's favourites. */
  method DeleteProductFromFavourites(s: Store, productId: Id, userId: Id) returns (r: Result<()>)
    requires s.Valid()
    modifies s
    ensures s.Valid()
    ensures productId !in old(s.products) ==> r == Err(NotFound(Products)) && unchanged(s)
    ensures productId in old(s.products) && userId !in old(s.users) ==> r == Err(NotFound(Users)) && unchanged(s)
    ensures r.Ok? <==> productId in old(s.products) && userId in old(s.users)
    ensures r.Ok? ==>
      var u := old(s.users[userId]);
      && s.users == old(s.users)[userId := u.(favourites := u.favourites - {productId})]
      && userId !in s.FavouritedBy(productId)
      && s.nextId == old(s.nextId) && s.products == old(s.products) && s.categories == old(s.categories)
      && s.cardProduct == old(s.cardProduct)
      && s.featureKeyIds == old(s.featureKeyIds) && s.imageIds == old(s.imageIds)
      && s.fileIds == old(s.fileIds) && s.roleTable == old(s.roleTable)
  {
    var product :- FindProductByIdFromDB(s, productId);
    var user :- UserService.GetUserByIdFromDB(s, userId);
    s.users := s.users[userId := user.(favourites := user.favourites - {productId})];
    return Ok(());
  }
}
