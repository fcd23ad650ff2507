/** The backing store the three services share: one table per entity, the
    id tables of the resources the product service only refers to, and the
    card-to-product links. */
module Db {
  import opened Common
  import opened Entities

  class Store {
    var products: map<Id, Product>
    var users: map<Id, User>
    var categories: map<Id, Category>
    /** The ids of the stored feature keys, images and files; their own
        services are not part of this model, so the services here only read
        them. */
    var featureKeyIds: set<Id>
    var imageIds: set<Id>
    var fileIds: set<Id>
    /** The rows of the role table, by role value. */
    var roleTable: set<Role>
    /** The product each card (cart line) is linked to. */
    var cardProduct: map<Id, Id>
    /** The identity the next save assigns. */
    var nextId: Id

    /** Every record knows its own key, keys are below `nextId`, and every
        reference of a product and of a card resolves. */
    ghost predicate Valid()
      reads this
    {
      && (forall k :: k in products ==> products[k].id == Some(k) && k < nextId)
      && (forall k :: k in users ==> users[k].id == Some(k) && k < nextId)
      && (forall k :: k in categories ==> categories[k].id == Some(k) && k < nextId)
      && (forall k :: k in products ==> ProductLinksResolve(products[k]))
      && (forall c :: c in cardProduct ==> cardProduct[c] in products)
    }

    ghost predicate ProductLinksResolve(p: Product)
      reads this
    {
      && (p.category.Some? ==> p.category.value in categories)
      && p.featureKeys <= featureKeyIds
      && p.images <= imageIds
      && p.files <= fileIds
    }

    /** No two users share a non-null email. */
    ghost predicate UniqueEmails()
      reads this
    {
      forall a, b :: a in users && b in users && a != b && users[a].email.Some? ==> users[a].email != users[b].email
    }

    /** Every category's parent is a stored category. */
    ghost predicate ParentsResolve()
      reads this
    {
      forall k :: k in categories && categories[k].parent.Some? ==> categories[k].parent.value in categories
    }

    /** A category's product list: the products whose category is `c`. */
    function ProductsIn(c: Id): set<Id>
      reads this
    {
      set p | p in products && products[p].category == Some(c)
    }

    /** A product's cards. */
    function CardsOf(p: Id): set<Id>
      reads this
    {
      set c | c in cardProduct && cardProduct[c] == p
    }

    /** A product's favouriting users. */
    function FavouritedBy(p: Id): set<Id>
      reads this
    {
      set u | u in users && p in users[u].favourites
    }

    /** A role's users. */
    function UsersWithRole(r: Role): set<Id>
      reads this
    {
      set u | u in users && r in users[u].roles
    }

    /** A store holding the given resources and roles and no entity yet. */
    constructor (featureKeys: set<Id>, images: set<Id>, files: set<Id>, roles: set<Role>)
      ensures Valid() && UniqueEmails() && ParentsResolve()
      ensures products == map[] && users == map[] && categories == map[] && cardProduct == map[]
      ensures featureKeyIds == featureKeys && imageIds == images && fileIds == files && roleTable == roles
      ensures nextId == 1
    {
      products, users, categories := map[], map[], map[];
      featureKeyIds, imageIds, fileIds := featureKeys, images, files;
      roleTable := roles;
      cardProduct := map[];
      nextId := 1;
    }
  }
}
