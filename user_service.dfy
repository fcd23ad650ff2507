/** UserServiceImpl: registering, modifying, deleting and looking up users,
    and attaching orders to them. */
module UserService {
  import opened Common
  import opened Entities
  import opened UserConversion
  import opened Db

  /** getUserByIdFromDB: the stored user, or NotFound. */
  method GetUserByIdFromDB(s: Store, id: Id) returns (r: Result<User>)
    ensures r.Ok? <==> id in s.users
    ensures r.Ok? ==> r.value == s.users[id]
    ensures r.Err? ==> r.error == NotFound(Users)
  {
    if id !in s.users {
      return Err(NotFound(Users));
    }
    return Ok(s.users[id]);
  }

  /** Some stored user has exactly this email (null matching null). */
  predicate EmailTaken(s: Store, email: Option<string>)
    reads s
  {
    exists k :: k in s.users && s.users[k].email == email
  }

  /** findUserByEmail: a stored user with that email, or NotFound. With
      unique emails the user is the only one holding it. */
  method FindUserByEmail(s: Store, email: Option<string>) returns (r: Result<User>)
    ensures r.Ok? <==> EmailTaken(s, email)
    ensures r.Ok? ==> r.value.email == email && r.value in s.users.Values
    ensures r.Ok? && email.Some? && s.UniqueEmails() ==>
      forall k :: k in s.users && s.users[k].email == email ==> s.users[k] == r.value
    ensures r.Err? ==> r.error == NotFound(Emails)
  {
    if !EmailTaken(s, email) {
      return Err(NotFound(Emails));
    }
    var k :| k in s.users && s.users[k].email == email;
    return Ok(s.users[k]);
  }

  /** setDefault: the CUSTOMER role must exist; the user then gets exactly
      that role, the creation time and a discount of 3. */
  method SetDefault(s: Store, user: User, now: Time) returns (r: Result<User>)
    ensures r.Ok? <==> CUSTOMER in s.roleTable
    ensures r.Ok? ==> r.value == user.(roles := {CUSTOMER}, createDate := Some(now), discount := 3)
    ensures r.Err? ==> r.error == NotFound(RolesTable)
  {
    if CUSTOMER !in s.roleTable {
      return Err(NotFound(RolesTable));
    }
    var rolesSet: set<Role> := {};
    rolesSet := rolesSet + {CUSTOMER};
    var u := user.(roles := rolesSet);
    u := u.(createDate := Some(now));
    u := u.(discount := 3);
    return Ok(u);
  }

  /** The user createUser saves under `id`. */
  function Registered(req: UserRequest, encode: string -> string, now: Time, id: Id): User {
    ToUser(Some(NewUser()), req).value.(
      id := Some(id),
      password := Some(encode(req.password)),
      roles := {CUSTOMER},
      createDate := Some(now),
      discount := 3)
  }

  /** createUser: an email already stored fails with AlreadyExists; a missing
      CUSTOMER role fails with NotFound; either way nothing is saved.
      Otherwise the request is merged into a new user, whose password is the
      encoded one and whose defaults are set, and the user is saved under a
      new id. Unique emails stay unique. */
  method CreateUser(s: Store, req: UserRequest, encode: string -> string, now: Time) returns (r: Result<UserResponse>)
    requires s.Valid()
    modifies s
    ensures s.Valid()
    ensures old(EmailTaken(s, req.email)) ==> r == Err(AlreadyExists(Users)) && unchanged(s)
    ensures !old(EmailTaken(s, req.email)) && CUSTOMER !in old(s.roleTable) ==> r == Err(NotFound(RolesTable)) && unchanged(s)
    ensures r.Ok? <==> !old(EmailTaken(s, req.email)) && CUSTOMER in old(s.roleTable)
    ensures r.Ok? ==>
      var id := old(s.nextId);
      var u := Registered(req, encode, now, id);
      && s.users == old(s.users)[id := u]
      && u.roles == {CUSTOMER} && u.discount == 3 && u.password == Some(encode(req.password))
      && s.nextId == id + 1
      && s.products == old(s.products) && s.categories == old(s.categories) && s.cardProduct == old(s.cardProduct)
      && s.featureKeyIds == old(s.featureKeyIds) && s.imageIds == old(s.imageIds)
      && s.fileIds == old(s.fileIds) && s.roleTable == old(s.roleTable)
      && r.value == FromUserToUserResponse(Some(u))
    ensures old(s.UniqueEmails()) ==> s.UniqueEmails()
  {
    if EmailTaken(s, req.email) {
      return Err(AlreadyExists(Users));
    }
    var user := ToUser(Some(NewUser()), req).value;
    user := user.(password := Some(encode(req.password)));
    user :- SetDefault(s, user, now);
    var id := s.nextId;
    user := user.(id := Some(id));
    s.users := s.users[id := user];
    s.nextId := id + 1;
    return Ok(FromUserToUserResponse(Some(user)));
  }

  /** modifyUser: the request is merged into the stored user; there is no
      email uniqueness check. */
  method ModifyUser(s: Store, req: UserRequest, id: Id) returns (r: Result<UserResponse>)
    requires s.Valid()
    modifies s
    ensures s.Valid()
    ensures id !in old(s.users) ==> r == Err(NotFound(Users)) && unchanged(s)
    ensures id in old(s.users) ==>
      var u := ToUser(Some(old(s.users[id])), req).value;
      && s.users == old(s.users)[id := u]
      && s.nextId == old(s.nextId)
      && s.products == old(s.products) && s.categories == old(s.categories) && s.cardProduct == old(s.cardProduct)
      && s.featureKeyIds == old(s.featureKeyIds) && s.imageIds == old(s.imageIds)
      && s.fileIds == old(s.fileIds) && s.roleTable == old(s.roleTable)
      && r == Ok(FromUserToUserResponse(Some(u)))
  {
    var user :- GetUserByIdFromDB(s, id);
    user := ToUser(Some(user), req).value;
    s.users := s.users[id := user];
    return Ok(FromUserToUserResponse(Some(user)));
  }

  /** `findFirst` on the user's roles and `removeRoles` of it: exactly one
      role is taken off when there is any. Which one comes first is the
      role set's iteration order, which this model leaves open. */
  method RemoveFirstRole(user: User) returns (u: User)
    ensures user.roles == {} ==> u == user
    ensures user.roles != {} ==> exists first :: first in user.roles && u == user.(roles := user.roles - {first})
  {
    u := user;
    if user.roles != {} {
      ghost var w := NonEmptyHasElement(user.roles);
      var first :| first in user.roles;
      u := user.(roles := user.roles - {first});
    }
  }

  /** deleteUser: the user's first role is taken off and the user is
      deleted; since a role's users are read off the user records, the
      deleted user then holds no role at all. */
  method DeleteUser(s: Store, id: Id) returns (r: Result<()>)
    requires s.Valid()
    modifies s
    ensures s.Valid()
    ensures id !in old(s.users) ==> r == Err(NotFound(Users)) && unchanged(s)
    ensures id in old(s.users) ==>
      && r == Ok(())
      && s.users == old(s.users) - {id}
      && (forall role :: id !in s.UsersWithRole(role))
      && s.nextId == old(s.nextId)
      && s.products == old(s.products) && s.categories == old(s.categories) && s.cardProduct == old(s.cardProduct)
      && s.featureKeyIds == old(s.featureKeyIds) && s.imageIds == old(s.imageIds)
      && s.fileIds == old(s.fileIds) && s.roleTable == old(s.roleTable)
  {
    var user :- GetUserByIdFromDB(s, id);
    // The role edge lives in the record removed next, so this step has no
    // effect that outlasts the call.
    user := RemoveFirstRole(user);
    s.users := s.users - {id};
    return Ok(());
  }

  /** setOrderToUser: the order joins the user's orders; no other user
      changes. */
  method SetOrderToUser(s: Store, id: Id, order: Id) returns (r: Result<()>)
    requires s.Valid()
    modifies s
    ensures s.Valid()
    ensures id !in old(s.users) ==> r == Err(NotFound(Users)) && unchanged(s)
    ensures id in old(s.users) ==>
      && r == Ok(())
      && s.users == old(s.users)[id := old(s.users[id]).(orders := old(s.users[id]).orders + {order})]
      && s.nextId == old(s.nextId)
      && s.products == old(s.products) && s.categories == old(s.categories) && s.cardProduct == old(s.cardProduct)
      && s.featureKeyIds == old(s.featureKeyIds) && s.imageIds == old(s.imageIds)
      && s.fileIds == old(s.fileIds) && s.roleTable == old(s.roleTable)
  {
    var user :- GetUserByIdFromDB(s, id);
    s.users := s.users[id := user.(orders := user.orders + {order})];
    return Ok(());
  }
}
