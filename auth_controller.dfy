/** Registration and the seed-admin endpoint. The password encoder is a
    function given by the caller; a new user's id is a fresh id drawn by the
    caller, as the store would generate one. */
module AuthController {
  import opened Wrappers
  import opened Model

  /** The sign-up form; `roles` may be missing. */
  datatype SignupRequest = SignupRequest(username: string, email: string, password: string, roles: Option<set<string>>)

  const UsernameTaken := "Error: Username is already taken!"
  const EmailTaken := "Error: Email is already in use!"
  const Registered := "User registered successfully!"

  /** No two users share a username or an email. */
  ghost predicate UniqueAccounts(users: map<string, User>) {
    forall a, b :: a in users && b in users && a != b ==>
      users[a].username != users[b].username && users[a].email != users[b].email
  }

  /** Adding a user whose username and email are both new keeps accounts unique. */
  lemma UniqueAfterAdd(users: map<string, User>, u: User)
    requires u.id !in users
    requires forall id :: id in users ==> users[id].username != u.username
    requires forall id :: id in users ==> users[id].email != u.email
    ensures UniqueAccounts(users) ==> UniqueAccounts(users[u.id := u])
  {
  }

  /** Missing roles become the user role; otherwise the requested roles are
      taken as they are, the admin role included. */
  function RolesFor(requested: Option<set<string>>): (r: set<string>)
    ensures requested.None? ==> r == {RoleUser}
    ensures requested.Some? ==> r == requested.value
  {
    match requested
    case None => {RoleUser}
    case Some(rs) => rs
  }

  /** `registerUser`: a taken username is refused before the email is looked
      at; a taken email is refused; otherwise exactly one user is added. */
  method RegisterUser(repo: UserRepository, req: SignupRequest, encode: string -> string, freshId: string)
    returns (status: Status, message: string)
    requires freshId !in repo.users
    modifies repo
    ensures old(repo.ExistsByUsername(req.username)) ==>
              status == BadRequest && message == UsernameTaken && repo.users == old(repo.users)
    ensures !old(repo.ExistsByUsername(req.username)) && old(repo.ExistsByEmail(req.email)) ==>
              status == BadRequest && message == EmailTaken && repo.users == old(repo.users)
    ensures !old(repo.ExistsByUsername(req.username)) && !old(repo.ExistsByEmail(req.email)) ==>
              && status == Ok && message == Registered
              && repo.users == old(repo.users)[freshId :=
                   User(freshId, req.username, req.email, encode(req.password), Some(RolesFor(req.roles)))]
    ensures UniqueAccounts(old(repo.users)) ==> UniqueAccounts(repo.users)
  {
    if repo.ExistsByUsername(req.username) {
      return BadRequest, UsernameTaken;
    }
    if repo.ExistsByEmail(req.email) {
      return BadRequest, EmailTaken;
    }
    var user := User(freshId, req.username, req.email, encode(req.password), None);
    var roles: set<string> := {};
    if req.roles.None? {
      roles := roles + {RoleUser};
    } else {
      roles := roles + req.roles.value;
    }
    assert roles == RolesFor(req.roles);
    user := user.(roles := Some(roles));
    UniqueAfterAdd(repo.users, user);
    repo.Save(user);
    return Ok, Registered;
  }

  const AdminName := "admin"
  const AdminEmail := "admin@resumebuilder.local"
  const AdminPassword := "admin123"
  const AdminRoles: set<string> := {RoleUser, RoleAdmin}

  /** `seedAdmin`: switched off it answers 404 and changes nothing; switched
      on it leaves a user "admin" with exactly the user and admin roles and the
      default password. An existing admin keeps its id and email; otherwise a
      new one is created with the default email. No other user changes. */
  method SeedAdmin(repo: UserRepository, enabled: bool, encode: string -> string, freshId: string)
    returns (status: Status, adminId: string)
    requires repo.Valid() && freshId !in repo.users
    modifies repo
    ensures !enabled ==> status == NotFound && repo.users == old(repo.users)
    ensures enabled ==>
              && status == Ok
              && adminId in repo.users
              && repo.users[adminId].username == AdminName
              && repo.users[adminId].roles == Some(AdminRoles)
              && repo.users[adminId].password == encode(AdminPassword)
              && repo.users.Keys == old(repo.users).Keys + {adminId}
              && (forall id :: id in old(repo.users) && id != adminId ==> repo.users[id] == old(repo.users)[id])
    ensures enabled && old(repo.ExistsByUsername(AdminName)) ==>
              && adminId in old(repo.users)
              && old(repo.users)[adminId].username == AdminName
              && repo.users[adminId].email == old(repo.users)[adminId].email
    ensures enabled && !old(repo.ExistsByUsername(AdminName)) ==>
              adminId == freshId && repo.users[adminId].email == AdminEmail
  {
    if !enabled {
      return NotFound, "";
    }
    assert {RoleUser} + {RoleAdmin} == AdminRoles;
    if repo.ExistsByUsername(AdminName) {
      var id :| id in repo.users && repo.users[id].username == AdminName;
      var admin := repo.users[id];
      assert admin.id == id;
      admin := admin.(password := encode(AdminPassword), roles := Some({RoleUser} + {RoleAdmin}));
      repo.Save(admin);
      return Ok, id;
    } else {
      var admin := User(freshId, AdminName, AdminEmail, encode(AdminPassword), Some({RoleUser} + {RoleAdmin}));
      repo.Save(admin);
      return Ok, freshId;
    }
  }
}
