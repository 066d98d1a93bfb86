/**
 * User accounts: creating, updating, deleting and (de)activating them.  The
 * rules tie a user's branch to its role: the branch-bound roles (Seller,
 * StoreSeller) need a branch, the others never keep one; and no caller may
 * delete or deactivate their own account.  Passwords are stored through a
 * hash function, a parameter here.
 */
module UserService {
  import opened Common
  import opened MasterData
  import opened Repositories

  datatype CreateUserRequest = CreateUserRequest(
    username: string,
    password: string,
    role: Option<Role>,          // None: not a role name
    branchId: Option<string>,
    isActive: bool)

  datatype UpdateUserRequest = UpdateUserRequest(
    username: Option<string>,
    password: Option<string>,
    role: Field<Role>,           // Absent: null or empty
    branchId: Option<string>,
    isActive: Option<bool>)

  /** A branch id that names a branch that does not exist. */
  predicate UnknownBranch(branches: seq<Branch>, branchId: Option<string>)
  {
    !IsNullOrEmpty(branchId) && BranchById(branches, branchId.value).None?
  }

  /** The account CreateUserAsync stores, or its error. */
  function CreateUserSpec(current: CurrentUser, now: Instant, users: seq<User>, branches: seq<Branch>,
                          request: CreateUserRequest, hash: string -> string, newId: string): Result<User>
  {
    match request.role
    case None => Err(Validation)
    case Some(role) =>
      if UserIndexByName(users, request.username).Some? then Err(Validation)
      else if IsSellerRole(role) && IsNullOrEmpty(request.branchId) then Err(Validation)
      else if UnknownBranch(branches, request.branchId) then Err(Validation)
      else Ok(User(newId, request.username, hash(request.password), role,
                   if IsSellerRole(role) then request.branchId else None,
                   request.isActive, now, current.username, None, None))
  }

  method CreateUser(current: CurrentUser, now: Instant, users: UserStore, branches: seq<Branch>,
                    request: CreateUserRequest, hash: string -> string, newId: string)
    returns (r: Result<User>)
    modifies users
    ensures r == CreateUserSpec(current, now, old(users.users), branches, request, hash, newId)
    ensures r.Ok? ==> users.users == old(users.users) + [r.value]
    ensures r.Err? ==> users.users == old(users.users)
  {
    if request.role.None? {
      return Err(Validation);
    }
    var role := request.role.value;
    if UserIndexByName(users.users, request.username).Some? {
      return Err(Validation);
    }
    if IsSellerRole(role) && IsNullOrEmpty(request.branchId) {
      return Err(Validation);
    }
    if !IsNullOrEmpty(request.branchId) && BranchById(branches, request.branchId.value).None? {
      return Err(Validation);
    }
    var user := User(newId, request.username, hash(request.password), role,
                     if IsSellerRole(role) then request.branchId else None,
                     request.isActive, now, current.username, None, None);
    users.Create(user);
    return Ok(user);
  }

  /** A user's branch agrees with its role: a branch-bound role has one, any other role none. */
  predicate RoleBranchConsistent(u: User)
  {
    if IsSellerRole(u.role) then !IsNullOrEmpty(u.branchId) else u.branchId.None?
  }

  predicate UniqueUsernames(users: seq<User>)
  {
    forall i, j | 0 <= i < j < |users| :: users[i].username != users[j].username
  }

  predicate DistinctUserIds(users: seq<User>)
  {
    forall i, j | 0 <= i < j < |users| :: users[i].id != users[j].id
  }

  /**
   * Creating a user succeeds exactly when the role parses, the username is
   * free, a branch-bound role names a branch, and a named branch exists
   * (even for a role that then drops it); every refusal is a Validation
   * error.
   */
  lemma CreateUserSucceedsIff(current: CurrentUser, now: Instant, users: seq<User>, branches: seq<Branch>,
                              request: CreateUserRequest, hash: string -> string, newId: string)
    ensures var r := CreateUserSpec(current, now, users, branches, request, hash, newId);
            && (r.Ok? <==> && request.role.Some?
                           && (forall j | 0 <= j < |users| :: users[j].username != request.username)
                           && (IsSellerRole(request.role.value) ==> !IsNullOrEmpty(request.branchId))
                           && !UnknownBranch(branches, request.branchId))
            && (r.Err? ==> r.error == Validation)
  {
  }

  /**
   * A created user has the new id, the request's name, role and activity,
   * the hash of the password, the caller and time as creator; its branch is
   * the requested one for a branch-bound role and none otherwise, so its
   * branch agrees with its role; and usernames stay unique.
   */
  lemma CreateUserShape(current: CurrentUser, now: Instant, users: seq<User>, branches: seq<Branch>,
                        request: CreateUserRequest, hash: string -> string, newId: string)
    requires CreateUserSpec(current, now, users, branches, request, hash, newId).Ok?
    ensures var u := CreateUserSpec(current, now, users, branches, request, hash, newId).value;
            && u.id == newId && u.username == request.username && u.passwordHash == hash(request.password)
            && Some(u.role) == request.role && u.isActive == request.isActive
            && u.createdAtUtc == now && u.createdBy == current.username
            && u.branchId == (if IsSellerRole(u.role) then request.branchId else None)
            && RoleBranchConsistent(u)
            && (UniqueUsernames(users) ==> UniqueUsernames(users + [u]))
  {
    var u := CreateUserSpec(current, now, users, branches, request, hash, newId).value;
    if UniqueUsernames(users) {
      var s := users + [u];
      forall i, j | 0 <= i < j < |s| ensures s[i].username != s[j].username {
        if j == |users| {
          assert s[i] == users[i];
        }
      }
    }
  }

  /** The username after an update: a new non-empty name, checked for uniqueness; otherwise the old one. */
  function NewUsername(users: seq<User>, u: User, requested: Option<string>): Result<string>
  {
    if !IsNullOrEmpty(requested) && requested.value != u.username then
      if UserIndexByName(users, requested.value).Some? then Err(Validation) else Ok(requested.value)
    else Ok(u.username)
  }

  function NewRole(u: User, requested: Field<Role>): Result<Role>
  {
    match requested
    case Absent => Ok(u.role)
    case Unparsable => Err(Validation)
    case Given(r) => Ok(r)
  }

  /**
   * The branch after an update, given the new role: a branch-bound role
   * takes the requested branch when one is sent (an empty one included,
   * and only a non-empty one is looked up) and otherwise must already have
   * one; any other role loses its branch.
   */
  function NewBranch(branches: seq<Branch>, u: User, role: Role, requested: Option<string>): Result<Option<string>>
  {
    if IsSellerRole(role) then
      if requested.Some? then
        if UnknownBranch(branches, requested) then Err(Validation) else Ok(requested)
      else if IsNullOrEmpty(u.branchId) then Err(Validation)
      else Ok(u.branchId)
    else Ok(None)
  }

  /** The account UpdateUserAsync stores, or its error. */
  function UpdateUserSpec(current: CurrentUser, now: Instant, users: seq<User>, branches: seq<Branch>,
                          id: string, request: UpdateUserRequest, hash: string -> string): Result<User>
  {
    match UserIndexById(users, id)
    case None => Err(NotFound)
    case Some(k) =>
      var u := users[k];
      match NewUsername(users, u, request.username)
      case Err(e) => Err(e)
      case Ok(username) =>
        match NewRole(u, request.role)
        case Err(e) => Err(e)
        case Ok(role) =>
          match NewBranch(branches, u, role, request.branchId)
          case Err(e) => Err(e)
          case Ok(branchId) =>
            Ok(Updated(u, username, NewHash(u, request.password, hash), role, branchId,
                       request.isActive.GetOr(u.isActive), now, current))
  }

  /** The password hash after an update: a new non-empty password is hashed, otherwise the old hash stays. */
  function NewHash(u: User, password: Option<string>, hash: string -> string): string
  {
    if IsNullOrEmpty(password) then u.passwordHash else hash(password.value)
  }

  function Updated(u: User, username: string, passwordHash: string, role: Role, branchId: Option<string>,
                   isActive: bool, now: Instant, current: CurrentUser): User
  {
    u.(username := username, passwordHash := passwordHash, role := role, branchId := branchId,
       isActive := isActive, modifiedAtUtc := Some(now), modifiedBy := Some(current.username))
  }

  method UpdateUser(current: CurrentUser, now: Instant, users: UserStore, branches: seq<Branch>,
                    id: string, request: UpdateUserRequest, hash: string -> string)
    returns (r: Result<User>)
    modifies users
    ensures r == UpdateUserSpec(current, now, old(users.users), branches, id, request, hash)
    ensures r.Ok? ==> users.users == old(users.users)[UserIndexById(old(users.users), id).value := r.value]
    ensures r.Err? ==> users.users == old(users.users)
  {
    var found := UserIndexById(users.users, id);
    if found.None? {
      return Err(NotFound);
    }
    var user := users.users[found.value];
    var username := NewUsername(users.users, user, request.username);
    if username.Err? {
      return Err(username.error);
    }
    var role := NewRole(user, request.role);
    if role.Err? {
      return Err(role.error);
    }
    var branchId := NewBranch(branches, user, role.value, request.branchId);
    if branchId.Err? {
      return Err(branchId.error);
    }
    user := Updated(user, username.value, NewHash(user, request.password, hash), role.value, branchId.value,
                    request.isActive.GetOr(user.isActive), now, current);
    users.Update(user);
    return Ok(user);
  }

  /**
   * An update of an existing user keeps its id and creation stamp and
   * records the caller and time.  The name, password, role and activity
   * change only when sent, and then to what was sent.  A branch-bound role
   * takes the branch id sent, which is known when not empty, or keeps its
   * existing non-empty one when none is sent; any other role loses its
   * branch.  When the refusals happen is stated by UpdateUserSucceedsIff.
   */
  lemma UpdateUserOutcome(current: CurrentUser, now: Instant, users: seq<User>, branches: seq<Branch>,
                          id: string, request: UpdateUserRequest, hash: string -> string)
    ensures var r := UpdateUserSpec(current, now, users, branches, id, request, hash);
            && (r == Err(NotFound) <==> forall j | 0 <= j < |users| :: users[j].id != id)
            && (r.Err? ==> r.error in {NotFound, Validation})
            && (request.role.Unparsable? && r.Ok? ==> false)
            && (r.Ok? ==>
                  var u := users[UserIndexById(users, id).value];
                  && r.value.id == id && r.value.createdAtUtc == u.createdAtUtc && r.value.createdBy == u.createdBy
                  && r.value.modifiedAtUtc == Some(now) && r.value.modifiedBy == Some(current.username)
                  && (IsNullOrEmpty(request.username) ==> r.value.username == u.username)
                  && (!IsNullOrEmpty(request.username) ==> r.value.username == request.username.value)
                  && (IsNullOrEmpty(request.password) ==> r.value.passwordHash == u.passwordHash)
                  && (!IsNullOrEmpty(request.password) ==> r.value.passwordHash == hash(request.password.value))
                  && r.value.role == (if request.role.Given? then request.role.value else u.role)
                  && r.value.isActive == request.isActive.GetOr(u.isActive)
                  && (!IsSellerRole(r.value.role) ==> r.value.branchId.None?)
                  && (IsSellerRole(r.value.role) && request.branchId.Some? ==>
                        r.value.branchId == request.branchId && !UnknownBranch(branches, request.branchId))
                  && (IsSellerRole(r.value.role) && request.branchId.None? ==>
                        r.value.branchId == u.branchId && !IsNullOrEmpty(u.branchId)))
  {
  }

  /**
   * Updating a stored user succeeds exactly when a new name sent is free
   * (or is the user's own), the role sent parses, and the resulting role,
   * when branch-bound, is given a branch id that is empty or known, or
   * already has a non-empty one; every refusal is a Validation error.
   */
  lemma UpdateUserSucceedsIff(current: CurrentUser, now: Instant, users: seq<User>, branches: seq<Branch>,
                              id: string, request: UpdateUserRequest, hash: string -> string)
    requires UserIndexById(users, id).Some?
    ensures var u := users[UserIndexById(users, id).value];
            var role := if request.role.Given? then request.role.value else u.role;
            var r := UpdateUserSpec(current, now, users, branches, id, request, hash);
            && (r.Ok? <==> && (IsNullOrEmpty(request.username) || request.username.value == u.username
                               || forall j | 0 <= j < |users| :: users[j].username != request.username.value)
                           && !request.role.Unparsable?
                           && (IsSellerRole(role) ==>
                                 if request.branchId.Some? then !UnknownBranch(branches, request.branchId)
                                 else !IsNullOrEmpty(u.branchId)))
            && (r.Err? ==> r.error == Validation)
  {
  }

  /**
   * An update keeps usernames unique: a changed name is one no user held
   * before.
   */
  lemma UpdateUserKeepsUsernamesUnique(current: CurrentUser, now: Instant, users: seq<User>, branches: seq<Branch>,
                                       id: string, request: UpdateUserRequest, hash: string -> string)
    requires UniqueUsernames(users)
    requires UpdateUserSpec(current, now, users, branches, id, request, hash).Ok?
    ensures UniqueUsernames(users[UserIndexById(users, id).value :=
                                 UpdateUserSpec(current, now, users, branches, id, request, hash).value])
  {
    var k := UserIndexById(users, id).value;
    var u := UpdateUserSpec(current, now, users, branches, id, request, hash).value;
    var s := users[k := u];
    if u.username != users[k].username {
      assert UserIndexByName(users, u.username).None?;
    }
    forall i, j | 0 <= i < j < |s| ensures s[i].username != s[j].username {
      if i == k || j == k {
        if u.username != users[k].username {
          assert UserIndexByName(users, u.username).None?;
        }
      }
    }
  }

  /**
   * An update keeps a user's branch in agreement with its role, unless it
   * sends an empty branch id for a branch-bound role.
   */
  lemma UpdateUserKeepsRoleBranch(current: CurrentUser, now: Instant, users: seq<User>, branches: seq<Branch>,
                                  id: string, request: UpdateUserRequest, hash: string -> string)
    requires UpdateUserSpec(current, now, users, branches, id, request, hash).Ok?
    requires RoleBranchConsistent(users[UserIndexById(users, id).value])
    requires request.branchId != Some("")
    ensures RoleBranchConsistent(UpdateUserSpec(current, now, users, branches, id, request, hash).value)
  {
  }

  /**
   * The empty branch id goes through: it is not looked up, it counts as
   * sent, and a Seller updated with it is stored with an empty branch,
   * which creating a Seller refuses.
   */
  lemma UpdateUserCanEmptySellerBranch(current: CurrentUser, now: Instant, hash: string -> string)
    ensures var seller := User("u1", "ana", "h", Seller, Some("b1"), true, 0, "admin", None, None);
            var request := UpdateUserRequest(None, None, Absent, Some(""), None);
            var r := UpdateUserSpec(current, now, [seller], [], "u1", request, hash);
            && RoleBranchConsistent(seller)
            && r.Ok? && r.value.role == Seller && r.value.branchId == Some("")
            && !RoleBranchConsistent(r.value)
  {
    var seller := User("u1", "ana", "h", Seller, Some("b1"), true, 0, "admin", None, None);
    assert UserIndexById([seller], "u1") == Some(0);
  }

  /** The users after DeleteUserAsync, or its error: nobody deletes their own account. */
  function DeleteUserSpec(current: CurrentUser, users: seq<User>, id: string): Result<seq<User>>
  {
    match UserIndexById(users, id)
    case None => Err(NotFound)
    case Some(k) =>
      if users[k].username == current.username then Err(Business)
      else Ok(users[..k] + users[k + 1..])
  }

  method DeleteUser(current: CurrentUser, users: UserStore, id: string) returns (outcome: Outcome)
    modifies users
    ensures match DeleteUserSpec(current, old(users.users), id)
            case Ok(after) => outcome == Pass && users.users == after
            case Err(e) => outcome == Fail(e) && users.users == old(users.users)
  {
    var found := UserIndexById(users.users, id);
    if found.None? {
      return Fail(NotFound);
    }
    if users.users[found.value].username == current.username {
      return Fail(Business);
    }
    users.Delete(id);
    return Pass;
  }

  /**
   * Deleting succeeds exactly when the user exists and is not the caller;
   * with unique ids the user is then gone and everyone else stays, in
   * order.
   */
  lemma DeleteUserOutcome(current: CurrentUser, users: seq<User>, id: string)
    requires DistinctUserIds(users)
    ensures var r := DeleteUserSpec(current, users, id);
            && (r.Ok? <==> exists k | 0 <= k < |users| :: users[k].id == id && users[k].username != current.username)
            && (r.Err? ==> r.error in {NotFound, Business})
            && (r == Err(Business) <==> exists k | 0 <= k < |users| :: users[k].id == id && users[k].username == current.username)
            && (r.Ok? ==> && |r.value| == |users| - 1
                          && UserIndexById(r.value, id).None?
                          && forall u | u in users && u.id != id :: u in r.value)
  {
    var r := DeleteUserSpec(current, users, id);
    if r.Ok? {
      var k := UserIndexById(users, id).value;
      forall j | 0 <= j < |r.value| ensures r.value[j].id != id {
        if j < k {
          assert r.value[j] == users[j];
        } else {
          assert r.value[j] == users[j + 1];
        }
      }
      forall u | u in users && u.id != id ensures u in r.value {
        var j :| 0 <= j < |users| && users[j] == u;
        if j < k {
          assert r.value[j] == u;
        } else {
          assert r.value[j - 1] == u;
        }
      }
    }
  }

  /** The account ToggleUserStatusAsync stores, or its error: nobody deactivates their own account. */
  function ToggleUserStatusSpec(current: CurrentUser, now: Instant, users: seq<User>, id: string): Result<User>
  {
    match UserIndexById(users, id)
    case None => Err(NotFound)
    case Some(k) =>
      if users[k].username == current.username then Err(Business)
      else Ok(users[k].(isActive := !users[k].isActive, modifiedAtUtc := Some(now),
                        modifiedBy := Some(current.username)))
  }

  method ToggleUserStatus(current: CurrentUser, now: Instant, users: UserStore, id: string)
    returns (r: Result<User>)
    modifies users
    ensures r == ToggleUserStatusSpec(current, now, old(users.users), id)
    ensures r.Ok? ==> users.users == old(users.users)[UserIndexById(old(users.users), id).value := r.value]
    ensures r.Err? ==> users.users == old(users.users)
  {
    var found := UserIndexById(users.users, id);
    if found.None? {
      return Err(NotFound);
    }
    var user := users.users[found.value];
    if user.username == current.username {
      return Err(Business);
    }
    user := user.(isActive := !user.isActive, modifiedAtUtc := Some(now), modifiedBy := Some(current.username));
    users.Update(user);
    return Ok(user);
  }

  /**
   * Toggling flips the activity of another user and changes nothing else
   * but the modification stamp; toggling twice restores it.  The caller's
   * own account is refused with a Business error.
   */
  lemma ToggleUserStatusTwice(current: CurrentUser, t1: Instant, t2: Instant, users: seq<User>, id: string)
    requires DistinctUserIds(users)
    ensures var r := ToggleUserStatusSpec(current, t1, users, id);
            && (r.Ok? <==> exists k | 0 <= k < |users| :: users[k].id == id && users[k].username != current.username)
            && (r.Err? ==> r.error in {NotFound, Business})
            && (r.Ok? ==>
                  var k := UserIndexById(users, id).value;
                  && r.value.isActive == !users[k].isActive
                  && r.value.(isActive := users[k].isActive, modifiedAtUtc := users[k].modifiedAtUtc,
                              modifiedBy := users[k].modifiedBy) == users[k]
                  && var r2 := ToggleUserStatusSpec(current, t2, users[k := r.value], id);
                  && r2.Ok? && r2.value.isActive == users[k].isActive)
  {
    var r := ToggleUserStatusSpec(current, t1, users, id);
    if r.Ok? {
      var k := UserIndexById(users, id).value;
      var s := users[k := r.value];
      assert forall j | 0 <= j < k :: s[j].id != id;
      assert s[k].id == id;
      assert UserIndexById(s, id) == Some(k);
    }
  }
}
