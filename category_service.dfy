/** CategoryServiceImpl: create, modify, look up and delete categories, and
    render a category as a response. */
module CategoryService {
  import opened Common
  import opened Entities
  import opened Db

  /** `Constant.LONG_NULL`, the sentinel standing for "no parent". Its value
      is not part of this model. */
  const LONG_NULL: Id

  /** The body of a create or modify category call. */
  class CategoryRequest {
    var name: Option<string>
    var parentCategoryId: Option<Id>

    constructor (name: Option<string>, parentCategoryId: Option<Id>)
      ensures this.name == name && this.parentCategoryId == parentCategoryId
    {
      this.name := name;
      this.parentCategoryId := parentCategoryId;
    }
  }

  /** What is sent back for a category. */
  datatype CategoryResponse = CategoryResponse(id: Option<Id>, name: Option<string>, parentCategoryId: Option<Id>)

  /** findByIdFromDB: a null id gives null without an error; a present id
      gives its category or fails with NotFound. */
  method FindByIdFromDB(s: Store, id: Option<Id>) returns (r: Result<Option<Category>>)
    ensures id.None? ==> r == Ok(None)
    ensures id.Some? && id.value in s.categories ==> r == Ok(Some(s.categories[id.value]))
    ensures id.Some? && id.value !in s.categories ==> r == Err(NotFound(Categories))
  {
    if id.None? {
      return Ok(None);
    }
    if id.value !in s.categories {
      return Err(NotFound(Categories));
    }
    return Ok(Some(s.categories[id.value]));
  }

  /** checkParentCategoryIfNull: a null parent id in the request is replaced
      by LONG_NULL and `false` is returned; a present one is left alone and
      `true` is returned. */
  method CheckParentCategoryIfNull(req: CategoryRequest) returns (present: bool)
    modifies req`parentCategoryId
    ensures present <==> old(req.parentCategoryId).Some?
    ensures !present ==> req.parentCategoryId == Some(LONG_NULL)
    ensures present ==> req.parentCategoryId == old(req.parentCategoryId)
  {
    if req.parentCategoryId.None? {
      req.parentCategoryId := Some(LONG_NULL);
      return false;
    }
    return true;
  }

  /** getCategory: the name is always overwritten; the parent is set only
      when the request names one, and then it must exist. Any stored
      category is accepted as parent, the category itself included. */
  method GetCategory(s: Store, c: Category, req: CategoryRequest) returns (r: Result<Category>)
    modifies req`parentCategoryId
    ensures old(req.parentCategoryId).None? ==>
      r == Ok(c.(name := req.name)) && req.parentCategoryId == Some(LONG_NULL)
    ensures old(req.parentCategoryId).Some? ==>
      && req.parentCategoryId == old(req.parentCategoryId)
      && (req.parentCategoryId.value in s.categories ==> r == Ok(c.(name := req.name, parent := req.parentCategoryId)))
      && (req.parentCategoryId.value !in s.categories ==> r == Err(NotFound(Categories)))
  {
    var category := c.(name := req.name);
    var present := CheckParentCategoryIfNull(req);
    if present {
      var parent :- FindByIdFromDB(s, req.parentCategoryId);
      category := category.(parent := req.parentCategoryId);
    }
    return Ok(category);
  }

  /** createCategory: a request without parent creates a root; one with a
      stored parent creates a child of it; one with an unknown parent fails
      with NotFound and saves nothing. */
  method CreateCategory(s: Store, req: CategoryRequest) returns (r: Result<CategoryResponse>)
    requires s.Valid()
    modifies s, req`parentCategoryId
    ensures s.Valid()
    ensures old(req.parentCategoryId).Some? && old(req.parentCategoryId).value !in old(s.categories) ==>
      r == Err(NotFound(Categories)) && unchanged(s)
    ensures r.Ok? <==> old(req.parentCategoryId).None? || old(req.parentCategoryId).value in old(s.categories)
    ensures r.Ok? ==>
      var id := old(s.nextId);
      var created := Category(Some(id), old(req.name), old(req.parentCategoryId));
      && s.categories == old(s.categories)[id := created]
      && s.nextId == id + 1
      && s.products == old(s.products) && s.users == old(s.users) && s.cardProduct == old(s.cardProduct)
      && s.featureKeyIds == old(s.featureKeyIds) && s.imageIds == old(s.imageIds)
      && s.fileIds == old(s.fileIds) && s.roleTable == old(s.roleTable)
      && r.value == GetCategoryResponse(created)
    ensures r.Ok? && old(s.ParentsResolve()) ==> s.ParentsResolve()
    ensures old(req.parentCategoryId).None? ==> req.parentCategoryId == Some(LONG_NULL)
    ensures old(req.parentCategoryId).Some? ==> req.parentCategoryId == old(req.parentCategoryId)
  {
    var category :- GetCategory(s, NewCategory(), req);
    var id := s.nextId;
    category := category.(id := Some(id));
    s.categories := s.categories[id := category];
    s.nextId := id + 1;
    return Ok(GetCategoryResponse(category));
  }

  /** modifyCategory: the name is always overwritten; a null parent id keeps
      the old parent; a present one must exist and becomes the parent, even
      when it is the category itself. */
  method ModifyCategory(s: Store, id: Id, req: CategoryRequest) returns (r: Result<CategoryResponse>)
    requires s.Valid()
    modifies s, req`parentCategoryId
    ensures s.Valid()
    ensures id !in old(s.categories) ==> r == Err(NotFound(Categories)) && unchanged(s) && unchanged(req)
    ensures id in old(s.categories) && old(req.parentCategoryId).Some? && old(req.parentCategoryId).value !in old(s.categories) ==>
      r == Err(NotFound(Categories)) && unchanged(s)
    ensures r.Ok? <==>
      id in old(s.categories) && (old(req.parentCategoryId).None? || old(req.parentCategoryId).value in old(s.categories))
    ensures r.Ok? ==>
      var before := old(s.categories[id]);
      var after := before.(
        name := old(req.name),
        parent := if old(req.parentCategoryId).Some? then old(req.parentCategoryId) else before.parent);
      && s.categories == old(s.categories)[id := after]
      && s.nextId == old(s.nextId)
      && s.products == old(s.products) && s.users == old(s.users) && s.cardProduct == old(s.cardProduct)
      && s.featureKeyIds == old(s.featureKeyIds) && s.imageIds == old(s.imageIds)
      && s.fileIds == old(s.fileIds) && s.roleTable == old(s.roleTable)
      && r.value == GetCategoryResponse(after)
    ensures r.Ok? && old(s.ParentsResolve()) ==> s.ParentsResolve()
    ensures id in old(s.categories) && old(req.parentCategoryId).None? ==> req.parentCategoryId == Some(LONG_NULL)
    ensures id in old(s.categories) && old(req.parentCategoryId).Some? ==> req.parentCategoryId == old(req.parentCategoryId)
  {
    var found :- FindByIdFromDB(s, Some(id));
    var category :- GetCategory(s, found.value, req);
    s.categories := s.categories[id := category];
    return Ok(GetCategoryResponse(category));
  }

  /** The products with the category link of `c` removed wherever it is `c`. */
  function DetachedFrom(products: map<Id, Product>, c: Id): map<Id, Product> {
    map p | p in products :: if products[p].category == Some(c) then products[p].(category := None) else products[p]
  }

  /** The loop of deleteCategory over the category's product list:
      `category.removeProduct` on each product in turn. */
  method DetachProducts(products: map<Id, Product>, c: Id) returns (table: map<Id, Product>)
    ensures table == DetachedFrom(products, c)
  {
    table := products;
    var todo := set p | p in products && products[p].category == Some(c);
    ghost var members := todo;
    while todo != {}
      invariant table.Keys == products.Keys
      invariant todo <= members
      invariant forall p :: p in table ==>
        table[p] == if p in members && p !in todo then products[p].(category := None) else products[p]
      decreases todo
    {
      ghost var w := NonEmptyHasElement(todo);
      var q: Id :| q in todo;
      table := table[q := table[q].(category := None)];
      todo := todo - {q};
    }
    forall p | p in table ensures table[p] == DetachedFrom(products, c)[p] {
      assert p !in todo;
      assert p in members <==> products[p].category == Some(c);
    }
  }

  /** deleteCategory: every product of the category is detached from it
      first, then the category is removed. Products of other categories and
      the parent links of other categories are left as they are. */
  method DeleteCategory(s: Store, id: Id) returns (r: Result<()>)
    requires s.Valid()
    modifies s
    ensures s.Valid()
    ensures id !in old(s.categories) ==> r == Err(NotFound(Categories)) && unchanged(s)
    ensures id in old(s.categories) ==>
      && r == Ok(())
      && s.categories == old(s.categories) - {id}
      && s.products == DetachedFrom(old(s.products), id)
      && s.ProductsIn(id) == {}
      && s.nextId == old(s.nextId) && s.users == old(s.users) && s.cardProduct == old(s.cardProduct)
      && s.featureKeyIds == old(s.featureKeyIds) && s.imageIds == old(s.imageIds)
      && s.fileIds == old(s.fileIds) && s.roleTable == old(s.roleTable)
  {
    var found :- FindByIdFromDB(s, Some(id));
    var detached := DetachProducts(s.products, id);
    s.products := detached;
    s.categories := s.categories - {id};
    return Ok(());
  }

  /** setParentCategory: the response's parent id is the parent's id, or
      LONG_NULL for a root. */
  function SetParentCategory(c: Category, resp: CategoryResponse): (r: CategoryResponse)
    ensures r.id == resp.id && r.name == resp.name
    ensures c.parent.Some? ==> r.parentCategoryId == c.parent
    ensures c.parent.None? ==> r.parentCategoryId == Some(LONG_NULL)
  {
    if c.parent.Some? then resp.(parentCategoryId := c.parent)
    else resp.(parentCategoryId := Some(LONG_NULL))
  }

  /** getCategoryResponse: id and name copied, parent rendered by
      setParentCategory. A parent whose id is LONG_NULL cannot be told apart
      from no parent. */
  function GetCategoryResponse(c: Category): (r: CategoryResponse)
    ensures r.id == c.id && r.name == c.name && r.parentCategoryId.Some?
    ensures r.parentCategoryId == Some(LONG_NULL) <==> c.parent.None? || c.parent == Some(LONG_NULL)
    ensures r.parentCategoryId != Some(LONG_NULL) ==> r.parentCategoryId == c.parent
  {
    SetParentCategory(c, CategoryResponse(c.id, c.name, None))
  }
}
