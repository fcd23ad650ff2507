/** UserConversionUtil: merging a user request into a user, and projecting a
    user onto the response sent back to clients. */
module UserConversion {
  import opened Common
  import opened Entities

  /** The fields of a user request that the conversion reads. A `None` field
      is a JSON field that was absent or null. */
  datatype UserRequest = UserRequest(
    firstName: Option<string>,
    lastName: Option<string>,
    email: Option<string>,
    phone: Option<string>,
    street: Option<string>,
    city: Option<string>,
    countryCode: Option<string>,
    password: string)

  /** What is sent back for a user; there is no email and no password. */
  datatype UserResponse = UserResponse(
    id: Option<Id>,
    firstName: Option<string>,
    lastName: Option<string>,
    phone: Option<string>,
    street: Option<string>,
    city: Option<string>,
    countryCode: Option<string>,
    roles: Option<seq<string>>)

  /** `new UserResponse()`: every field null. */
  function EmptyUserResponse(): UserResponse {
    UserResponse(None, None, None, None, None, None, None, None)
  }

  /** `isNullOrEmpty`. */
  predicate IsNullOrEmpty(s: Option<string>) {
    s.None? || s.value == ""
  }

  /** The partial-update law for one field: a non-null, non-empty request
      value replaces the old one; otherwise the old value stays. */
  predicate MergedField(before: Option<string>, requested: Option<string>, after: Option<string>) {
    && (!IsNullOrEmpty(requested) ==> after == requested)
    && (IsNullOrEmpty(requested) ==> after == before)
  }

  /** One conditional setter of toUser. */
  function Overwrite(current: Option<string>, requested: Option<string>): (r: Option<string>)
    ensures MergedField(current, requested, r)
  {
    if IsNullOrEmpty(requested) then current else requested
  }

  /** The fields that a request never touches are those of `u`. */
  predicate SameAccount(u: User, v: User) {
    && v.id == u.id
    && v.password == u.password
    && v.roles == u.roles
    && v.createDate == u.createDate
    && v.discount == u.discount
    && v.favourites == u.favourites
    && v.orders == u.orders
  }

  /** toUser: each profile field of the request overwrites the user's field
      when it is non-null and non-empty. A null user gives null. */
  function ToUser(user: Option<User>, req: UserRequest): (r: Option<User>)
    ensures user.None? <==> r.None?
    ensures r.Some? ==> SameAccount(user.value, r.value)
    ensures r.Some? ==>
      && MergedField(user.value.firstName, req.firstName, r.value.firstName)
      && MergedField(user.value.lastName, req.lastName, r.value.lastName)
      && MergedField(user.value.email, req.email, r.value.email)
      && MergedField(user.value.phone, req.phone, r.value.phone)
      && MergedField(user.value.street, req.street, r.value.street)
      && MergedField(user.value.city, req.city, r.value.city)
      && MergedField(user.value.countryCode, req.countryCode, r.value.countryCode)
  {
    if user.None? then None
    else
      var u := user.value;
      Some(u.(
        firstName := Overwrite(u.firstName, req.firstName),
        lastName := Overwrite(u.lastName, req.lastName),
        email := Overwrite(u.email, req.email),
        phone := Overwrite(u.phone, req.phone),
        street := Overwrite(u.street, req.street),
        city := Overwrite(u.city, req.city),
        countryCode := Overwrite(u.countryCode, req.countryCode)))
  }

  /** A request whose profile fields are all null or empty changes nothing. */
  predicate BlankProfile(req: UserRequest) {
    && IsNullOrEmpty(req.firstName)
    && IsNullOrEmpty(req.lastName)
    && IsNullOrEmpty(req.email)
    && IsNullOrEmpty(req.phone)
    && IsNullOrEmpty(req.street)
    && IsNullOrEmpty(req.city)
    && IsNullOrEmpty(req.countryCode)
  }

  lemma ToUserBlankIsIdentity(user: Option<User>, req: UserRequest)
    requires BlankProfile(req)
    ensures ToUser(user, req) == user
  {
  }

  /** Applying the same request twice is the same as applying it once. */
  lemma ToUserIdempotent(user: Option<User>, req: UserRequest)
    ensures ToUser(ToUser(user, req), req) == ToUser(user, req)
  {
  }

  /** The names of the roles of `roles`, in the order `order` lists them. */
  function NamesInOrder(order: seq<Role>, roles: set<Role>): seq<string> {
    if order == [] then []
    else (if order[0] in roles then [RoleName(order[0])] else []) + NamesInOrder(order[1..], roles)
  }

  predicate NoDuplicates(order: seq<Role>) {
    forall i, j :: 0 <= i < j < |order| ==> order[i] != order[j]
  }

  function RolesIn(order: seq<Role>): set<Role> {
    set k | 0 <= k < |order| :: order[k]
  }

  /** Splitting the first role off a duplicate-free order. */
  lemma RolesInCons(order: seq<Role>)
    requires order != [] && NoDuplicates(order)
    ensures RolesIn(order) == {order[0]} + RolesIn(order[1..])
    ensures order[0] !in RolesIn(order[1..])
    ensures NoDuplicates(order[1..])
  {
  }

  /** With a duplicate-free order, one name is listed per listed role. */
  lemma {:induction false} NamesInOrderLength(order: seq<Role>, roles: set<Role>)
    requires NoDuplicates(order)
    ensures |NamesInOrder(order, roles)| == |roles * RolesIn(order)|
  {
    if order != [] {
      var rest := order[1..];
      RolesInCons(order);
      NamesInOrderLength(rest, roles);
      var head := roles * {order[0]};
      var tail := roles * RolesIn(rest);
      assert roles * RolesIn(order) == head + tail;
      assert head !! tail;
      if order[0] in roles {
        assert head == {order[0]};
      } else {
        assert head == {};
      }
    }
  }

  /** The name `n` is listed exactly when some role of `roles` in `order`
      carries it. */
  lemma {:induction false} NamesInOrderMembers(order: seq<Role>, roles: set<Role>, n: string)
    ensures n in NamesInOrder(order, roles) <==> exists k :: 0 <= k < |order| && order[k] in roles && RoleName(order[k]) == n
  {
    if order != [] {
      NamesInOrderMembers(order[1..], roles, n);
      if n in NamesInOrder(order[1..], roles) {
        var k :| 0 <= k < |order[1..]| && order[1..][k] in roles && RoleName(order[1..][k]) == n;
        assert order[k + 1] == order[1..][k];
      }
      if exists k :: 0 <= k < |order| && order[k] in roles && RoleName(order[k]) == n {
        var k :| 0 <= k < |order| && order[k] in roles && RoleName(order[k]) == n;
        if k > 0 { assert order[1..][k - 1] == order[k]; }
      }
    }
  }

  /** The role list of a response: one name per role of the user. */
  function RoleNames(roles: set<Role>): (names: seq<string>)
    ensures |names| == |roles|
    ensures forall n :: n in names <==> exists r :: r in roles && RoleName(r) == n
  {
    var names := NamesInOrder(AllRoles, roles);
    assert RolesIn(AllRoles) == {CUSTOMER, ADMIN} by {
      assert AllRoles[0] == CUSTOMER && AllRoles[1] == ADMIN;
    }
    assert roles * RolesIn(AllRoles) == roles by {
      forall r | r in roles ensures r in RolesIn(AllRoles) {
        assert r == CUSTOMER || r == ADMIN;
      }
    }
    NamesInOrderLength(AllRoles, roles);
    forall n ensures n in names <==> exists r :: r in roles && RoleName(r) == n {
      NamesInOrderMembers(AllRoles, roles, n);
      if exists r :: r in roles && RoleName(r) == n {
        var r :| r in roles && RoleName(r) == n;
        assert r == AllRoles[0] || r == AllRoles[1];
      }
    }
    names
  }

  /** fromUserToUserResponse: a null user gives an empty response; otherwise
      id and every profile field except email are copied, and the roles are
      rendered by name. */
  function FromUserToUserResponse(user: Option<User>): (r: UserResponse)
    ensures user.None? ==> r == EmptyUserResponse()
    ensures user.Some? ==>
      && r.id == user.value.id
      && r.firstName == user.value.firstName
      && r.lastName == user.value.lastName
      && r.phone == user.value.phone
      && r.street == user.value.street
      && r.city == user.value.city
      && r.countryCode == user.value.countryCode
      && r.roles.Some?
      && |r.roles.value| == |user.value.roles|
      && (forall n :: n in r.roles.value <==> exists role :: role in user.value.roles && RoleName(role) == n)
  {
    if user.None? then EmptyUserResponse()
    else
      var u := user.value;
      UserResponse(u.id, u.firstName, u.lastName, u.phone, u.street, u.city, u.countryCode, Some(RoleNames(u.roles)))
  }

  /** Two users that differ only in their email give the same response. */
  lemma ResponseOmitsEmail(u: User, e: Option<string>)
    ensures FromUserToUserResponse(Some(u.(email := e))) == FromUserToUserResponse(Some(u))
  {
  }
}
