/** The persistent entities the services work on, as values. Each record
    keeps the identity the database assigns on its first save (`None` for an
    object built with `new` and not yet saved). Associations are kept on one
    side only and the other side is derived (see `Db.Store`), so the two ends
    of an edge cannot disagree. */
module Entities {
  import opened Common

  /** The role enumeration. CUSTOMER is the default role of a new user;
      ADMIN is the authority the controllers check. */
  datatype Role = CUSTOMER | ADMIN

  /** The role's `name()`. */
  function RoleName(r: Role): string {
    match r
    case CUSTOMER => "CUSTOMER"
    case ADMIN => "ADMIN"
  }

  /** The declaration order of the role enumeration. */
  const AllRoles: seq<Role> := [CUSTOMER, ADMIN]

  /** A user. `roles` is the owning side of the user-role association,
      `favourites` holds product ids and `orders` order ids. */
  datatype User = User(
    id: Option<Id>,
    firstName: Option<string>,
    lastName: Option<string>,
    email: Option<string>,
    phone: Option<string>,
    street: Option<string>,
    city: Option<string>,
    countryCode: Option<string>,
    password: Option<string>,
    roles: set<Role>,
    createDate: Option<Time>,
    discount: int,
    favourites: set<Id>,
    orders: set<Id>)

  /** `new User()`: no identity, no profile, no roles, no links. */
  function NewUser(): User {
    User(None, None, None, None, None, None, None, None, None, {}, None, 0, {}, {})
  }

  /** The scalar part of a product, the part a product request carries too. */
  datatype ProductDetails = ProductDetails(
    name: Option<string>,
    codeUnit: Option<string>,
    isActive: Option<bool>,
    maxPrice: Option<int>,
    price: Option<int>,
    description: Option<string>)

  /** A product. `category` is the owning side of the category-product
      association; feature keys, images and files are referenced by id. */
  datatype Product = Product(
    id: Option<Id>,
    details: ProductDetails,
    category: Option<Id>,
    featureKeys: set<Id>,
    images: set<Id>,
    files: set<Id>,
    createDate: Option<Time>)

  /** `new Product()`. */
  function NewProduct(): Product {
    Product(None, ProductDetails(None, None, None, None, None, None), None, {}, {}, {}, None)
  }

  /** A category with an optional parent category. */
  datatype Category = Category(id: Option<Id>, name: Option<string>, parent: Option<Id>)

  /** `new Category()`. */
  function NewCategory(): Category {
    Category(None, None, None)
  }
}
