/**
 * UserResource: the REST endpoints over principals. The user store behind
 * them is a class over a sequence of principals; the authenticated user
 * name, the admin check and password encryption are inputs.
 */
module UserResource {
  import opened JavaText

  /** An API token of a user account. */
  datatype UserApiToken = UserApiToken(tokenId: string, tokenName: string)

  /** A principal: a user account with password and API tokens, or a service account. */
  datatype Principal =
    | UserAccount(principalId: string, username: string, rev: Option<string>, password: string, userApiTokens: seq<UserApiToken>)
    | ServiceAccount(principalId: string, username: string, rev: Option<string>, clientSecret: string)

  const USER_ACCOUNT: string := "USER_ACCOUNT"
  const SERVICE_ACCOUNT: string := "SERVICE_ACCOUNT"
  const USER_NOT_FOUND: string := "User not found"
  const USER_EXISTS: string := "This user ID already exists. Please choose another address."
  const USER_UPDATED: string := "User updated"
  const NULL_POINTER: string := "NullPointerException"
  const CLASS_CAST: string := "ClassCastException"

  /** What an endpoint answers: ok (with a notification or not), a bad request, an error notification, or an exception. */
  datatype Response =
    | Success(notification: Option<string>)
    | BadRequest(notification: Option<string>)
    | ErrorNotification(message: string)
    | Thrown(exception: string)

  /** The principals of the given kind, in store order. */
  function UserAccounts(ps: seq<Principal>): (r: seq<Principal>)
    ensures forall i | 0 <= i < |r| :: r[i] in ps && r[i].UserAccount?
    ensures forall p | p in ps && p.UserAccount? :: p in r
  {
    if ps == [] then []
    else
      var rest := UserAccounts(ps[1..]);
      assert forall p | p in ps && p != ps[0] :: p in ps[1..];
      if ps[0].UserAccount? then [ps[0]] + rest else rest
  }

  function ServiceAccounts(ps: seq<Principal>): (r: seq<Principal>)
    ensures forall i | 0 <= i < |r| :: r[i] in ps && r[i].ServiceAccount?
    ensures forall p | p in ps && p.ServiceAccount? :: p in r
  {
    if ps == [] then []
    else
      var rest := ServiceAccounts(ps[1..]);
      assert forall p | p in ps && p != ps[0] :: p in ps[1..];
      if ps[0].ServiceAccount? then [ps[0]] + rest else rest
  }

  /** The first principal with the id or the user name, or null. */
  function FindById(ps: seq<Principal>, principalId: string): (r: Option<Principal>)
    ensures r.None? <==> forall i | 0 <= i < |ps| :: ps[i].principalId != principalId
    ensures r.Some? ==> r.value in ps && r.value.principalId == principalId
  {
    if ps == [] then None
    else if ps[0].principalId == principalId then Some(ps[0])
    else FindById(ps[1..], principalId)
  }

  function FindByUsername(ps: seq<Principal>, username: string): (r: Option<Principal>)
    ensures r.None? <==> forall i | 0 <= i < |ps| :: ps[i].username != username
    ensures r.Some? ==> r.value in ps && r.value.username == username
  {
    if ps == [] then None
    else if ps[0].username == username then Some(ps[0])
    else FindByUsername(ps[1..], username)
  }

  /** The store after deleting an id: the principals with other ids, in order. */
  function WithoutId(ps: seq<Principal>, principalId: string): (r: seq<Principal>)
    ensures forall i | 0 <= i < |r| :: r[i] in ps && r[i].principalId != principalId
    ensures forall p | p in ps && p.principalId != principalId :: p in r
  {
    if ps == [] then []
    else
      var rest := WithoutId(ps[1..], principalId);
      assert forall p | p in ps && p != ps[0] :: p in ps[1..];
      if ps[0].principalId == principalId then rest else [ps[0]] + rest
  }

  /** The store after an update: the principal with the same id replaced. */
  function Updated(ps: seq<Principal>, p: Principal): (r: seq<Principal>)
    ensures |r| == |ps|
    ensures forall i | 0 <= i < |ps| :: r[i] == if ps[i].principalId == p.principalId then p else ps[i]
  {
    seq(|ps|, i requires 0 <= i < |ps| => if ps[i].principalId == p.principalId then p else ps[i])
  }

  /** The principal with its rev set (setRev). */
  function WithRev(p: Principal, rev: Option<string>): (r: Principal)
    ensures r.rev == rev && r.principalId == p.principalId && r.username == p.username
    ensures r.UserAccount? <==> p.UserAccount?
    ensures p.UserAccount? ==> r.password == p.password && r.userApiTokens == p.userApiTokens
    ensures p.ServiceAccount? ==> r.clientSecret == p.clientSecret
  {
    match p
    case UserAccount(principalId, username, _, password, tokens) => UserAccount(principalId, username, rev, password, tokens)
    case ServiceAccount(principalId, username, _, secret) => ServiceAccount(principalId, username, rev, secret)
  }

  /** The user store. */
  class UserStore {
    var principals: seq<Principal>

    constructor (principals: seq<Principal>)
      ensures this.principals == principals
    {
      this.principals := principals;
    }

    function GetUser(username: string): (r: Option<Principal>)
      reads this
      ensures r.Some? ==> r.value in principals && r.value.username == username
      ensures r.None? <==> forall i | 0 <= i < |principals| :: principals[i].username != username
    {
      FindByUsername(principals, username)
    }

    function GetUserById(principalId: string): (r: Option<Principal>)
      reads this
      ensures r.Some? ==> r.value in principals && r.value.principalId == principalId
      ensures r.None? <==> forall i | 0 <= i < |principals| :: principals[i].principalId != principalId
    {
      FindById(principals, principalId)
    }

    method StoreUser(p: Principal)
      modifies this
      ensures principals == old(principals) + [p]
    {
      principals := principals + [p];
    }

    method UpdateUser(p: Principal)
      modifies this
      ensures principals == Updated(old(principals), p)
    {
      principals := Updated(principals, p);
    }

    method DeleteUser(principalId: string)
      modifies this
      ensures principals == WithoutId(old(principals), principalId)
    {
      principals := WithoutId(principals, principalId);
    }
  }

  // ---------------------------------------------------------------------------
  // Credentials and tokens

  /** removeCredentials for one principal: a user account's password becomes "". */
  function WithoutCredentials(p: Principal): (r: Principal)
    ensures r.UserAccount? <==> p.UserAccount?
    ensures r.UserAccount? ==> r == p.(password := "")
    ensures r.ServiceAccount? ==> r == p
  {
    if p.UserAccount? then p.(password := "") else p
  }

  /** removeCredentials over a list: each principal in turn, the list keeping its order. */
  method RemoveCredentials(principals: seq<Principal>) returns (r: seq<Principal>)
    ensures |r| == |principals|
    ensures forall i | 0 <= i < |principals| :: r[i] == WithoutCredentials(principals[i])
  {
    r := [];
    for i := 0 to |principals|
      invariant |r| == i
      invariant forall j | 0 <= j < i :: r[j] == WithoutCredentials(principals[j])
    {
      r := r + [WithoutCredentials(principals[i])];
    }
  }

  /** No principal in the list carries a password any more. */
  predicate NoPasswords(ps: seq<Principal>) {
    forall i | 0 <= i < |ps| :: ps[i].UserAccount? ==> ps[i].password == ""
  }

  /** Removing credentials twice is removing them once, and leaves no password behind. */
  lemma WithoutCredentialsIdempotent(p: Principal)
    ensures WithoutCredentials(WithoutCredentials(p)) == WithoutCredentials(p)
    ensures WithoutCredentials(p).UserAccount? ==> WithoutCredentials(p).password == ""
  {
  }

  /** The existing tokens whose id appears among the updated tokens, in existing order. */
  function KeptTokens(existing: seq<UserApiToken>, updated: seq<UserApiToken>): (r: seq<UserApiToken>)
    ensures |r| <= |existing|
    ensures forall t | t in r :: t in existing && exists u | u in updated :: u.tokenId == t.tokenId
    ensures forall t | t in existing && (exists u | u in updated :: u.tokenId == t.tokenId) :: t in r
  {
    if existing == [] then []
    else
      var rest := KeptTokens(existing[1..], updated);
      assert forall t | t in existing && t != existing[0] :: t in existing[1..];
      if exists u | u in updated :: u.tokenId == existing[0].tokenId then [existing[0]] + rest else rest
  }

  /** The filter keeps the existing order: filtering a concatenation is concatenating the filtered parts. */
  lemma {:induction false} KeptTokensKeepOrder(a: seq<UserApiToken>, b: seq<UserApiToken>, updated: seq<UserApiToken>)
    ensures KeptTokens(a + b, updated) == KeptTokens(a, updated) + KeptTokens(b, updated)
  {
    if a == [] {
      assert [] + b == b;
    } else {
      assert (a + b)[0] == a[0];
      assert (a + b)[1..] == a[1..] + b;
      KeptTokensKeepOrder(a[1..], b, updated);
    }
  }

  /** With every existing id among the updated tokens, all existing tokens are kept. */
  lemma {:induction false} AllTokensKept(existing: seq<UserApiToken>, updated: seq<UserApiToken>)
    requires forall t | t in existing :: exists u | u in updated :: u.tokenId == t.tokenId
    ensures KeptTokens(existing, updated) == existing
  {
    if existing != [] {
      assert existing[0] in existing;
      assert forall t | t in existing[1..] :: t in existing;
      AllTokensKept(existing[1..], updated);
    }
  }

  /**
   * updateUser: the updated account keeps the existing password, and of
   * its tokens exactly the existing ones whose id it still lists.
   */
  function UpdateUser(existingUser: Principal, user: Principal): (r: Principal)
    requires existingUser.UserAccount? && user.UserAccount?
    ensures r.UserAccount? && r.principalId == user.principalId && r.username == user.username && r.rev == user.rev
    ensures r.password == existingUser.password
    ensures r.userApiTokens == KeptTokens(existingUser.userApiTokens, user.userApiTokens)
  {
    user.(password := existingUser.password,
          userApiTokens := KeptTokens(existingUser.userApiTokens, user.userApiTokens))
  }

  // ---------------------------------------------------------------------------
  // Endpoints

  /**
   * getAllUsers: the user accounts for "USER_ACCOUNT", the service accounts
   * for "SERVICE_ACCOUNT", every principal otherwise; each without credentials.
   */
  method GetAllUsers(store: UserStore, principalType: Option<string>) returns (r: seq<Principal>)
    ensures var source :=
              if principalType == Some(USER_ACCOUNT) then UserAccounts(store.principals)
              else if principalType == Some(SERVICE_ACCOUNT) then ServiceAccounts(store.principals)
              else store.principals;
            |r| == |source| && forall i | 0 <= i < |source| :: r[i] == WithoutCredentials(source[i])
    ensures NoPasswords(r)
  {
    var allPrincipals: seq<Principal>;
    if principalType.Some? && principalType.value == USER_ACCOUNT {
      allPrincipals := UserAccounts(store.principals);
    } else if principalType.Some? && principalType.value == SERVICE_ACCOUNT {
      allPrincipals := ServiceAccounts(store.principals);
    } else {
      allPrincipals := store.principals;
    }
    r := RemoveCredentials(allPrincipals);
  }

  /** getUserDetails: the principal with the id without credentials, or "User not found". */
  function GetUserDetails(principals: seq<Principal>, principalId: string): (r: Result<Principal>)
    ensures r.Err? <==> forall i | 0 <= i < |principals| :: principals[i].principalId != principalId
    ensures r.Err? ==> r.message == USER_NOT_FOUND
    ensures r.Ok? ==> r.value.principalId == principalId && (r.value.UserAccount? ==> r.value.password == "")
    ensures r.Ok? ==>
              FindById(principals, principalId).Some? && r.value == WithoutCredentials(FindById(principals, principalId).value)
  {
    var principal := FindById(principals, principalId);
    if principal.Some? then Ok(WithoutCredentials(principal.value)) else Err(USER_NOT_FOUND)
  }

  /** deleteUser: removes the principal when the id is stored; otherwise "User not found" and no change. */
  method DeleteUser(store: UserStore, principalId: string) returns (r: Response)
    modifies store
    ensures FindById(old(store.principals), principalId).Some? ==>
              r == Success(None) && store.principals == WithoutId(old(store.principals), principalId)
    ensures FindById(old(store.principals), principalId).None? ==>
              r == ErrorNotification(USER_NOT_FOUND) && store.principals == old(store.principals)
    ensures forall i | 0 <= i < |store.principals| :: store.principals[i].principalId != principalId
  {
    var principal := store.GetUserById(principalId);
    if principal.Some? {
      store.DeleteUser(principalId);
      r := Success(None);
    } else {
      r := ErrorNotification(USER_NOT_FOUND);
    }
  }

  /**
   * registerUser: a user account whose user name is free is stored with its
   * password encrypted; a taken name is a bad request and an encryption
   * failure (None) a bad request without message. Nothing is stored then.
   */
  method RegisterUser(store: UserStore, userAccount: Principal, encryptPassword: string -> Option<string>)
    returns (r: Response)
    requires userAccount.UserAccount?
    modifies store
    ensures var free := FindByUsername(old(store.principals), userAccount.username).None?;
            var encrypted := encryptPassword(userAccount.password);
            && (free && encrypted.Some? ==>
                  r == Success(None) && store.principals == old(store.principals) + [userAccount.(password := encrypted.value)])
            && (free && encrypted.None? ==> r == BadRequest(None) && store.principals == old(store.principals))
            && (!free ==> r == BadRequest(Some(USER_EXISTS)) && store.principals == old(store.principals))
  {
    if store.GetUser(userAccount.username).None? {
      var encryptedProperty := encryptPassword(userAccount.password);
      if encryptedProperty.None? {
        return BadRequest(None);
      }
      store.StoreUser(userAccount.(password := encryptedProperty.value));
      r := Success(None);
    } else {
      r := BadRequest(Some(USER_EXISTS));
    }
  }

  /** registerService: a service account whose user name is free is stored as it is; a taken name is a bad request. */
  method RegisterService(store: UserStore, serviceAccount: Principal) returns (r: Response)
    requires serviceAccount.ServiceAccount?
    modifies store
    ensures FindByUsername(old(store.principals), serviceAccount.username).None? ==>
              r == Success(None) && store.principals == old(store.principals) + [serviceAccount]
    ensures FindByUsername(old(store.principals), serviceAccount.username).Some? ==>
              r == BadRequest(Some(USER_EXISTS)) && store.principals == old(store.principals)
  {
    if store.GetUser(serviceAccount.username).None? {
      store.StoreUser(serviceAccount);
      r := Success(None);
    } else {
      r := BadRequest(Some(USER_EXISTS));
    }
  }

  /** Registration keeps user names unique: a principal is only added under a name no one has. */
  lemma RegistrationKeepsNamesUnique(ps: seq<Principal>, p: Principal)
    requires forall i, j | 0 <= i < j < |ps| :: ps[i].username != ps[j].username
    requires FindByUsername(ps, p.username).None?
    ensures var qs := ps + [p];
            forall i, j | 0 <= i < j < |qs| :: qs[i].username != qs[j].username
  {
  }

  /** The update guard: a body was sent, and the caller is the principal or an admin. */
  predicate MayUpdate(user: Option<Principal>, authenticated: Option<string>, principalId: string, isAdmin: bool)
    requires user.Some? ==> authenticated.Some?
  {
    user.Some? && (authenticated.value == principalId || isAdmin)
  }

  /**
   * updateUserAccountDetails: with a body, and the caller being the
   * principal or an admin, the body takes the existing account's password,
   * its kept tokens and its rev, and replaces it in the store. Without a
   * body or the right it is "User not found". A missing caller name, a
   * missing principal or a principal that is no user account throws.
   */
  method UpdateUserAccountDetails(store: UserStore, principalId: string, user: Option<Principal>,
                                  authenticated: Option<string>, isAdmin: bool)
    returns (r: Response)
    requires user.Some? ==> user.value.UserAccount?
    modifies store
    ensures user.Some? && authenticated.None? ==> r == Thrown(NULL_POINTER)
    ensures r != Success(Some(USER_UPDATED)) ==> store.principals == old(store.principals)
    ensures user.None? ==> r == ErrorNotification(USER_NOT_FOUND)
    ensures user.Some? && authenticated.Some? ==>
              var existing := FindById(old(store.principals), principalId);
              if !MayUpdate(user, authenticated, principalId, isAdmin) then r == ErrorNotification(USER_NOT_FOUND)
              else if existing.None? then r == Thrown(NULL_POINTER)
              else if !existing.value.UserAccount? then r == Thrown(CLASS_CAST)
              else
                && r == Success(Some(USER_UPDATED))
                && store.principals ==
                     Updated(old(store.principals), WithRev(UpdateUser(existing.value, user.value), existing.value.rev))
  {
    if user.Some? && authenticated.None? {
      return Thrown(NULL_POINTER);
    }
    if user.Some? && (authenticated.value == principalId || isAdmin) {
      var existingUser := store.GetUserById(principalId);
      if existingUser.None? {
        return Thrown(NULL_POINTER);
      }
      if !existingUser.value.UserAccount? {
        return Thrown(CLASS_CAST);
      }
      var updated := UpdateUser(existingUser.value, user.value);
      updated := WithRev(updated, existingUser.value.rev);
      store.UpdateUser(updated);
      r := Success(Some(USER_UPDATED));
    } else {
      r := ErrorNotification(USER_NOT_FOUND);
    }
  }

  /**
   * updateServiceAccountDetails: the same guard; the body takes the existing
   * principal's rev and replaces it in the store.
   */
  method UpdateServiceAccountDetails(store: UserStore, principalId: string, user: Option<Principal>,
                                     authenticated: Option<string>, isAdmin: bool)
    returns (r: Response)
    modifies store
    ensures user.Some? && authenticated.None? ==> r == Thrown(NULL_POINTER)
    ensures r != Success(Some(USER_UPDATED)) ==> store.principals == old(store.principals)
    ensures user.None? ==> r == ErrorNotification(USER_NOT_FOUND)
    ensures user.Some? && authenticated.Some? ==>
              var existing := FindById(old(store.principals), principalId);
              if !MayUpdate(user, authenticated, principalId, isAdmin) then r == ErrorNotification(USER_NOT_FOUND)
              else if existing.None? then r == Thrown(NULL_POINTER)
              else
                && r == Success(Some(USER_UPDATED))
                && store.principals == Updated(old(store.principals), WithRev(user.value, existing.value.rev))
  {
    if user.Some? && authenticated.None? {
      return Thrown(NULL_POINTER);
    }
    if user.Some? && (authenticated.value == principalId || isAdmin) {
      var existingUser := store.GetUserById(principalId);
      if existingUser.None? {
        return Thrown(NULL_POINTER);
      }
      store.UpdateUser(WithRev(user.value, existingUser.value.rev));
      r := Success(Some(USER_UPDATED));
    } else {
      r := ErrorNotification(USER_NOT_FOUND);
    }
  }

  /** An update by someone who is neither the principal nor an admin is refused, whatever the body. */
  lemma OnlySelfOrAdminMayUpdate(user: Option<Principal>, authenticated: string, principalId: string)
    requires authenticated != principalId
    ensures !MayUpdate(user, Some(authenticated), principalId, false)
  {
  }
}
