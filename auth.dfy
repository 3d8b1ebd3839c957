/**
 * server/routes/auth.js: signup, login and password change. bcrypt's
 * `hash` and `compare` are parameters of the handlers; the signed token is
 * modelled by the claims it carries.
 */
module AuthRoutes {
  import opened Wrappers
  import opened Schema
  import opened Validators
  import opened AccountRules
  import opened Db

  const CredentialsMissingMessage := "Email and password are required"
  const InvalidCredentialsMessage := "Invalid credentials"
  const LoginMessage := "Login successful"
  const PasswordUpdatedMessage := "Password updated successfully"

  /** The payload `jwt.sign` is given. */
  datatype Claims = Claims(id: Id, role: Role)

  /** The `user` object of the login response. */
  datatype LoginUser = LoginUser(id: Id, name: string, email: string, role: Role)

  datatype LoginReply = LoginReply(token: Claims, user: LoginUser)

  /** `POST /signup`: the validation chain, the email conflict check, then a USER row. */
  method Signup(db: Database, name: string, email: string, address: string, password: string,
                hash: string -> Hash, now: int)
    returns (resp: Response<Id>)
    requires db.Valid()
    modifies db
    ensures db.Valid()
    ensures AccountFieldError(name, email, address, password).Some? ==>
      && resp == Err(400, AccountFieldError(name, email, address, password).value)
      && db.tables == old(db.tables)
    ensures AccountFieldError(name, email, address, password).None? && EmailTaken(old(db.tables.users), email) ==>
      resp == Err(409, EmailExistsMessage) && db.tables == old(db.tables)
    ensures AccountFieldError(name, email, address, password).None? && !EmailTaken(old(db.tables.users), email) ==>
      && resp == Ok(201, UserCreatedMessage, old(db.nextUserId))
      && db.tables == old(db.tables).(users := old(db.tables.users) +
                                      [User(old(db.nextUserId), name, email, address, hash(password), UserRole, now)])
    ensures forall u | u in db.tables.users && u !in old(db.tables.users) :: u.role == UserRole
    ensures |db.tables.users| == |old(db.tables.users)| + (if resp.Ok? then 1 else 0)
    ensures db.nextUserId == old(db.nextUserId) + (if resp.Ok? then 1 else 0)
    ensures db.nextStoreId == old(db.nextStoreId) && db.nextRatingId == old(db.nextRatingId)
  {
    var fieldError := AccountFieldError(name, email, address, password);
    if fieldError.Some? {
      return Err(400, fieldError.value);
    }
    if EmailTaken(db.tables.users, email) {
      return Err(409, EmailExistsMessage);
    }
    var passwordHash := hash(password);
    var id := db.InsertUser(name, email, address, passwordHash, UserRole, now);
    resp := Ok(201, UserCreatedMessage, id);
  }

  /**
   * `POST /login`: 400 without both fields; 401 "Invalid credentials" for an
   * unknown email and for a wrong password alike; otherwise a token whose
   * claims are the stored user's id and role.
   */
  function Login(users: seq<User>, email: string, password: string, compare: (string, Hash) -> bool)
    : (r: Response<LoginReply>)
    ensures r == Err(400, CredentialsMissingMessage) <==> email == "" || password == ""
    ensures email != "" && password != "" && FindUserByEmail(users, email).Some? ==>
      (r.Ok? <==> compare(password, FindUserByEmail(users, email).value.passwordHash))
    ensures email != "" && password != "" && !EmailTaken(users, email) ==> r == Err(401, InvalidCredentialsMessage)
    ensures r.Ok? || r == Err(400, CredentialsMissingMessage) || r == Err(401, InvalidCredentialsMessage)
    ensures r.Ok? ==>
      && r.status == 200 && r.message == LoginMessage
      && exists i | 0 <= i < |users| ::
        && users[i].email == email && compare(password, users[i].passwordHash)
        && r.body.token == Claims(users[i].id, users[i].role)
        && r.body.user == LoginUser(users[i].id, users[i].name, users[i].email, users[i].role)
  {
    if email == "" || password == "" then Err(400, CredentialsMissingMessage)
    else match FindUserByEmail(users, email)
      case None => Err(401, InvalidCredentialsMessage)
      case Some(user) =>
        if !compare(password, user.passwordHash) then Err(401, InvalidCredentialsMessage)
        else Ok(200, LoginMessage, LoginReply(Claims(user.id, user.role),
                                              LoginUser(user.id, user.name, user.email, user.role)))
  }

  /**
   * With unique emails, login succeeds exactly when the password matches the
   * one account holding the email; the token then names that account.
   */
  lemma LoginChecksTheAccount(users: seq<User>, email: string, password: string,
                              compare: (string, Hash) -> bool, k: nat)
    requires forall i, j | 0 <= i < j < |users| :: users[i].email != users[j].email
    requires k < |users| && users[k].email == email
    requires email != "" && password != ""
    ensures Login(users, email, password, compare).Ok? <==> compare(password, users[k].passwordHash)
    ensures !compare(password, users[k].passwordHash) ==>
      Login(users, email, password, compare) == Err(401, InvalidCredentialsMessage)
    ensures Login(users, email, password, compare).Ok? ==>
      Login(users, email, password, compare).body.token == Claims(users[k].id, users[k].role)
  {
    var found := FindUserByEmail(users, email);
    assert found.Some?;
    var i :| 0 <= i < |users| && users[i] == found.value && users[i].email == email
             && forall m | 0 <= m < i :: users[m].email != email;
    assert i == k;
  }

  /** `PUT /password`: a strong password replaces the caller's hash and nothing else. */
  method UpdatePassword(db: Database, caller: Identity, password: string, hash: string -> Hash)
    returns (resp: Response<()>)
    requires db.Valid()
    modifies db
    ensures db.Valid()
    ensures !IsStrongPassword(password) ==> resp == Err(400, PasswordMessage) && db.tables == old(db.tables)
    ensures IsStrongPassword(password) ==>
      && resp == Ok(200, PasswordUpdatedMessage, ())
      && db.tables == old(db.tables).(users := SetPasswordHashWhere(old(db.tables.users), caller.id, hash(password)))
    ensures db.tables.stores == old(db.tables.stores) && db.tables.ratings == old(db.tables.ratings)
    ensures |db.tables.users| == |old(db.tables.users)|
    ensures db.nextUserId == old(db.nextUserId) && db.nextStoreId == old(db.nextStoreId)
    ensures db.nextRatingId == old(db.nextRatingId)
    ensures forall i | 0 <= i < |db.tables.users| && old(db.tables.users[i].id) != caller.id ::
      db.tables.users[i] == old(db.tables.users[i])
  {
    if !IsStrongPassword(password) {
      return Err(400, PasswordMessage);
    }
    var passwordHash := hash(password);
    db.UpdatePasswordHash(caller.id, passwordHash);
    resp := Ok(200, PasswordUpdatedMessage, ());
  }
}
