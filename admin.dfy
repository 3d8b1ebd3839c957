/**
 * server/routes/admin.js: the administrator's dashboard counts, user and
 * store creation, and the filtered, sorted user and store listings.
 */
module AdminRoutes {
  import opened Wrappers
  import opened Relational
  import opened Schema
  import opened RatingTable
  import opened Validators
  import opened AccountRules
  import opened Query
  import opened Db

  const InvalidRoleMessage := "Invalid role"
  const UserNotFoundMessage := "User not found"
  const StoreFieldsMissingMessage := "Name, email, and address are required"
  const StoreExistsMessage := "Store with this email already exists"
  const StoreCreatedMessage := "Store created successfully"

  const AdminUserSortFields := ["name", "email", "address", "role"]
  const AdminStoreSortFields := ["name", "email", "address"]

  // ---------------------------------------------------------------------
  // GET /dashboard
  // ---------------------------------------------------------------------

  datatype DashboardCounts = DashboardCounts(totalUsers: nat, totalStores: nat, totalRatings: nat)

  /** The row count of each of the three tables. */
  function Dashboard(t: Tables): (d: DashboardCounts)
    ensures d.totalUsers == |t.users| && d.totalStores == |t.stores| && d.totalRatings == |t.ratings|
  {
    DashboardCounts(|t.users|, |t.stores|, |t.ratings|)
  }

  // ---------------------------------------------------------------------
  // POST /users
  // ---------------------------------------------------------------------

  /**
   * Name, email, address, password and role are checked in that order, then
   * the email must be free; the new row keeps the requested role.
   */
  method CreateUser(db: Database, name: string, email: string, address: string, password: string,
                    role: string, hash: string -> Hash, now: int)
    returns (resp: Response<Id>)
    requires db.Valid()
    modifies db
    ensures db.Valid()
    ensures AccountFieldError(name, email, address, password).Some? ==>
      && resp == Err(400, AccountFieldError(name, email, address, password).value)
      && db.tables == old(db.tables)
    ensures AccountFieldError(name, email, address, password).None? && ParseRole(role).None? ==>
      resp == Err(400, InvalidRoleMessage) && db.tables == old(db.tables)
    ensures AccountFieldError(name, email, address, password).None? && ParseRole(role).Some?
            && EmailTaken(old(db.tables.users), email) ==>
      resp == Err(409, EmailExistsMessage) && db.tables == old(db.tables)
    ensures AccountFieldError(name, email, address, password).None? && ParseRole(role).Some?
            && !EmailTaken(old(db.tables.users), email) ==>
      && resp == Ok(201, UserCreatedMessage, old(db.nextUserId))
      && |db.tables.users| == |old(db.tables.users)| + 1
      && db.tables.users[..|old(db.tables.users)|] == old(db.tables.users)
      && var u := db.tables.users[|old(db.tables.users)|];
         u.id == old(db.nextUserId) && u.name == name && u.email == email && u.address == address
         && u.passwordHash == hash(password) && RoleName(u.role) == role && u.createdAt == now
    ensures db.tables.stores == old(db.tables.stores) && db.tables.ratings == old(db.tables.ratings)
    ensures Dashboard(db.tables).totalUsers == Dashboard(old(db.tables)).totalUsers + (if resp.Ok? then 1 else 0)
    ensures db.nextUserId == old(db.nextUserId) + (if resp.Ok? then 1 else 0)
    ensures db.nextStoreId == old(db.nextStoreId) && db.nextRatingId == old(db.nextRatingId)
  {
    var fieldError := AccountFieldError(name, email, address, password);
    if fieldError.Some? {
      return Err(400, fieldError.value);
    }
    var parsed := ParseRole(role);
    if parsed.None? {
      return Err(400, InvalidRoleMessage);
    }
    if EmailTaken(db.tables.users, email) {
      return Err(409, EmailExistsMessage);
    }
    var passwordHash := hash(password);
    var id := db.InsertUser(name, email, address, passwordHash, parsed.value, now);
    resp := Ok(201, UserCreatedMessage, id);
  }

  // ---------------------------------------------------------------------
  // GET /users
  // ---------------------------------------------------------------------

  /** The user listing's filter stated directly: substring matches, and an exact role. */
  predicate ListedUser(u: User, name: string, email: string, address: string, role: string) {
    && (name == "" || Contains(u.name, name))
    && (email == "" || Contains(u.email, email))
    && (address == "" || Contains(u.address, address))
    && (role == "" || RoleName(u.role) == role)
  }

  /** Extends `WHERE 1=1` with a term per non-empty filter: `LIKE` for text, `=` for the role. */
  method UserFilters(name: string, email: string, address: string, role: string)
    returns (conds: seq<Condition<UserColumn>>)
    ensures forall u: User :: SatisfiesAll(u, conds, UserField) <==> ListedUser(u, name, email, address, role)
  {
    conds := [];
    if name != "" {
      SatisfiesAllAppend(conds, Like(UserName, name), UserField);
      conds := conds + [Like(UserName, name)];
    }
    if email != "" {
      SatisfiesAllAppend(conds, Like(UserEmail, email), UserField);
      conds := conds + [Like(UserEmail, email)];
    }
    if address != "" {
      SatisfiesAllAppend(conds, Like(UserAddress, address), UserField);
      conds := conds + [Like(UserAddress, address)];
    }
    if role != "" {
      SatisfiesAllAppend(conds, Is(UserRoleColumn, role), UserField);
      conds := conds + [Is(UserRoleColumn, role)];
    }
  }

  /** One entry of `GET /users`: every column but the password hash. */
  datatype UserRow = UserRow(id: Id, name: string, email: string, address: string, role: Role, createdAt: int)

  function RowOf(u: User): (row: UserRow)
    ensures row == UserRow(u.id, u.name, u.email, u.address, u.role, u.createdAt)
  {
    UserRow(u.id, u.name, u.email, u.address, u.role, u.createdAt)
  }

  /** Two users give the same listing row exactly when they differ at most in their password hash. */
  lemma RowOfForgetsOnlyTheHash(u: User, v: User)
    ensures RowOf(u) == RowOf(v) <==> u.(passwordHash := v.passwordHash) == v
  {
  }

  /** The users `GET /users` lists, in the order it lists them. */
  function UserQuery(users: seq<User>, name: string, email: string, address: string, role: string,
                     sort: string, order: string)
    : (r: seq<User>)
    ensures forall u :: multiset(r)[u] == (if ListedUser(u, name, email, address, role) then multiset(users)[u] else 0)
    ensures SortedBy(r, UserKey(NormaliseField(sort, AdminUserSortFields)), NormaliseOrder(order) == "DESC")
    ensures NormaliseField(sort, AdminUserSortFields) in {"name", "email", "address", "role"}
  {
    Select(users, u => ListedUser(u, name, email, address, role),
           UserKey(NormaliseField(sort, AdminUserSortFields)), NormaliseOrder(order) == "DESC")
  }

  /** With distinct ids the listing shows every matching user exactly once and nothing else. */
  lemma UserListingShowsEachUserOnce(t: Tables, name: string, email: string, address: string, role: string,
                                     sort: string, order: string)
    requires WellFormed(t)
    ensures var r := UserQuery(t.users, name, email, address, role, sort, order);
      && (forall u | u in t.users :: multiset(r)[u] == if ListedUser(u, name, email, address, role) then 1 else 0)
      && (forall u | u in r :: u in t.users && ListedUser(u, name, email, address, role))
  {
    var r := UserQuery(t.users, name, email, address, role, sort, order);
    UsersOccurOnce(t.users);
    forall u | u in r ensures u in t.users && ListedUser(u, name, email, address, role) {
      assert multiset(r)[u] > 0;
    }
  }

  /** The user rows of the listing, built as the handler builds its query. */
  method SelectUsers(users: seq<User>, name: string, email: string, address: string, role: string,
                     sort: string, order: string)
    returns (chosen: seq<User>)
    ensures chosen == UserQuery(users, name, email, address, role, sort, order)
  {
    var conds := UserFilters(name, email, address, role);
    var sortField := NormaliseField(sort, AdminUserSortFields);
    var sortOrder := NormaliseOrder(order);
    var keep := u => SatisfiesAll(u, conds, UserField);
    FilterCongruent(users, keep, u => ListedUser(u, name, email, address, role));
    chosen := Select(users, keep, UserKey(sortField), sortOrder == "DESC");
  }

  /** `GET /users`: the matching users, ordered by the normalised column and direction. */
  method ListUsers(t: Tables, name: string, email: string, address: string, role: string,
                   sort: string, order: string)
    returns (rows: seq<UserRow>)
    ensures var chosen := UserQuery(t.users, name, email, address, role, sort, order);
      |rows| == |chosen| && forall i | 0 <= i < |rows| :: rows[i] == RowOf(chosen[i])
  {
    var users := SelectUsers(t.users, name, email, address, role, sort, order);
    rows := seq(|users|, i requires 0 <= i < |users| => RowOf(users[i]));
  }

  // ---------------------------------------------------------------------
  // GET /users/:id
  // ---------------------------------------------------------------------

  /** The user, with the stores they own attached only when their role is OWNER. */
  datatype UserDetail = UserDetail(user: UserRow, stores: Option<seq<StoreSummary>>)

  function Summaries(stores: seq<Store>): (r: seq<StoreSummary>)
    ensures |r| == |stores| && forall i | 0 <= i < |r| :: r[i] == Summary(stores[i])
  {
    seq(|stores|, i requires 0 <= i < |stores| => Summary(stores[i]))
  }

  function GetUser(t: Tables, id: Id): (r: Response<UserDetail>)
    ensures r.Err? <==> forall i | 0 <= i < |t.users| :: t.users[i].id != id
    ensures r.Err? ==> r == Err(404, UserNotFoundMessage)
    ensures r.Ok? ==>
      && r.status == 200 && r.body.user.id == id
      && (exists u | u in t.users :: u.id == id && r.body.user == RowOf(u))
      && (r.body.stores.Some? <==> r.body.user.role == OwnerRole)
    ensures r.Ok? && r.body.stores.Some? ==>
      forall s | s in t.stores :: s.ownerId == Some(id) ==> Summary(s) in r.body.stores.value
    ensures r.Ok? && r.body.stores.Some? ==>
      forall x | x in r.body.stores.value :: exists s | s in t.stores :: s.ownerId == Some(id) && x == Summary(s)
    ensures r.Ok? && r.body.stores.Some? ==> r.body.stores.value == Summaries(StoresOwnedBy(t.stores, id))
  {
    match FindUserById(t.users, id)
    case None => Err(404, UserNotFoundMessage)
    case Some(user) =>
      var owned := StoresOwnedBy(t.stores, id);
      var stores := if user.role == OwnerRole then Some(Summaries(owned)) else None;
      OwnedSummaries(t.stores, id);
      Ok(200, "", UserDetail(RowOf(user), stores))
  }

  lemma OwnedSummaries(stores: seq<Store>, id: Id)
    ensures forall s | s in stores :: s.ownerId == Some(id) ==> Summary(s) in Summaries(StoresOwnedBy(stores, id))
    ensures forall x | x in Summaries(StoresOwnedBy(stores, id)) ::
      exists s | s in stores :: s.ownerId == Some(id) && x == Summary(s)
  {
    var owned := StoresOwnedBy(stores, id);
    var sums := Summaries(owned);
    forall s | s in stores && s.ownerId == Some(id) ensures Summary(s) in sums {
      var k :| 0 <= k < |owned| && owned[k] == s;
      assert sums[k] == Summary(s);
    }
    forall x | x in sums ensures exists s | s in stores :: s.ownerId == Some(id) && x == Summary(s) {
      var k :| 0 <= k < |sums| && sums[k] == x;
      assert owned[k] in owned;
    }
  }

  // ---------------------------------------------------------------------
  // POST /stores
  // ---------------------------------------------------------------------

  /**
   * The 400 message of the first failing check: all three fields present,
   * then the email shape, then the address length; `None` when all pass.
   */
  function StoreFieldError(name: string, email: string, address: string): (e: Option<string>)
    ensures e == None <==> name != "" && ValidateEmail(email) && ValidateAddress(address)
    ensures e == Some(StoreFieldsMissingMessage) <==> name == "" || email == "" || address == ""
    ensures e == Some(EmailMessage) <==> name != "" && email != "" && address != "" && !ValidateEmail(email)
    ensures e == Some(AddressMessage) <==>
      name != "" && email != "" && address != "" && ValidateEmail(email) && !ValidateAddress(address)
  {
    if name == "" || email == "" || address == "" then Some(StoreFieldsMissingMessage)
    else if !ValidateEmail(email) then Some(EmailMessage)
    else if !ValidateAddress(address) then Some(AddressMessage)
    else None
  }

  /** The stored owner: an absent owner and the falsy id 0 are both stored as NULL. */
  function OwnerOrNull(ownerId: Option<Id>): (owner: Option<Id>)
    ensures owner.Some? <==> ownerId.Some? && ownerId.value != 0
    ensures owner.Some? ==> owner == ownerId
  {
    match ownerId
    case Some(k) => if k == 0 then None else Some(k)
    case None => None
  }

  method CreateStore(db: Database, name: string, email: string, address: string, ownerId: Option<Id>)
    returns (resp: Response<Id>)
    requires db.Valid()
    modifies db
    ensures db.Valid()
    ensures StoreFieldError(name, email, address).Some? ==>
      resp == Err(400, StoreFieldError(name, email, address).value) && db.tables == old(db.tables)
    ensures StoreFieldError(name, email, address).None? && StoreEmailTaken(old(db.tables.stores), email) ==>
      resp == Err(409, StoreExistsMessage) && db.tables == old(db.tables)
    ensures StoreFieldError(name, email, address).None? && !StoreEmailTaken(old(db.tables.stores), email) ==>
      && resp == Ok(201, StoreCreatedMessage, old(db.nextStoreId))
      && db.tables == old(db.tables).(stores := old(db.tables.stores) +
                                       [Store(old(db.nextStoreId), name, email, address, OwnerOrNull(ownerId))])
    ensures Dashboard(db.tables).totalStores == Dashboard(old(db.tables)).totalStores + (if resp.Ok? then 1 else 0)
    ensures db.nextStoreId == old(db.nextStoreId) + (if resp.Ok? then 1 else 0)
    ensures db.nextUserId == old(db.nextUserId) && db.nextRatingId == old(db.nextRatingId)
  {
    var fieldError := StoreFieldError(name, email, address);
    if fieldError.Some? {
      return Err(400, fieldError.value);
    }
    if StoreEmailTaken(db.tables.stores, email) {
      return Err(409, StoreExistsMessage);
    }
    var id := db.InsertStore(name, email, address, OwnerOrNull(ownerId));
    resp := Ok(201, StoreCreatedMessage, id);
  }

  // ---------------------------------------------------------------------
  // GET /stores
  // ---------------------------------------------------------------------

  predicate ListedStore(s: Store, name: string, email: string, address: string) {
    && (name == "" || Contains(s.name, name))
    && (email == "" || Contains(s.email, email))
    && (address == "" || Contains(s.address, address))
  }

  method AdminStoreFilters(name: string, email: string, address: string)
    returns (conds: seq<Condition<StoreColumn>>)
    ensures forall s: Store :: SatisfiesAll(s, conds, StoreField) <==> ListedStore(s, name, email, address)
  {
    conds := [];
    if name != "" {
      SatisfiesAllAppend(conds, Like(StoreName, name), StoreField);
      conds := conds + [Like(StoreName, name)];
    }
    if email != "" {
      SatisfiesAllAppend(conds, Like(StoreEmail, email), StoreField);
      conds := conds + [Like(StoreEmail, email)];
    }
    if address != "" {
      SatisfiesAllAppend(conds, Like(StoreAddress, address), StoreField);
      conds := conds + [Like(StoreAddress, address)];
    }
  }

  /** One entry of the admin store listing. */
  datatype AdminStoreRow = AdminStoreRow(
    id: Id, name: string, email: string, address: string, ownerId: Option<Id>,
    averageRating: Ratio, totalRatings: nat)

  function AdminStoreQuery(stores: seq<Store>, name: string, email: string, address: string,
                           sort: string, order: string)
    : (r: seq<Store>)
    ensures forall s :: multiset(r)[s] == (if ListedStore(s, name, email, address) then multiset(stores)[s] else 0)
    ensures SortedBy(r, StoreKey(NormaliseField(sort, AdminStoreSortFields)), NormaliseOrder(order) == "DESC")
    ensures NormaliseField(sort, AdminStoreSortFields) in {"name", "email", "address"}
  {
    Select(stores, s => ListedStore(s, name, email, address),
           StoreKey(NormaliseField(sort, AdminStoreSortFields)), NormaliseOrder(order) == "DESC")
  }

  lemma AdminListingShowsEachStoreOnce(t: Tables, name: string, email: string, address: string,
                                       sort: string, order: string)
    requires WellFormed(t)
    ensures var r := AdminStoreQuery(t.stores, name, email, address, sort, order);
      && (forall s | s in t.stores :: multiset(r)[s] == if ListedStore(s, name, email, address) then 1 else 0)
      && (forall s | s in r :: s in t.stores && ListedStore(s, name, email, address))
  {
    var r := AdminStoreQuery(t.stores, name, email, address, sort, order);
    StoresOccurOnce(t.stores);
    forall s | s in r ensures s in t.stores && ListedStore(s, name, email, address) {
      assert multiset(r)[s] > 0;
    }
  }

  /** The store rows of the admin listing, built as the handler builds its query. */
  method SelectAdminStores(stores: seq<Store>, name: string, email: string, address: string,
                           sort: string, order: string)
    returns (chosen: seq<Store>)
    ensures chosen == AdminStoreQuery(stores, name, email, address, sort, order)
  {
    var conds := AdminStoreFilters(name, email, address);
    var sortField := NormaliseField(sort, AdminStoreSortFields);
    var sortOrder := NormaliseOrder(order);
    var keep := s => SatisfiesAll(s, conds, StoreField);
    FilterCongruent(stores, keep, s => ListedStore(s, name, email, address));
    chosen := Select(stores, keep, StoreKey(sortField), sortOrder == "DESC");
  }

  /** `GET /stores`: the matching stores in order, each with its rating count and exact mean. */
  method ListStoresAdmin(t: Tables, name: string, email: string, address: string, sort: string, order: string)
    returns (rows: seq<AdminStoreRow>)
    ensures var chosen := AdminStoreQuery(t.stores, name, email, address, sort, order);
      && |rows| == |chosen|
      && forall i | 0 <= i < |rows| ::
        && rows[i].id == chosen[i].id && rows[i].name == chosen[i].name
        && rows[i].email == chosen[i].email && rows[i].address == chosen[i].address
        && rows[i].ownerId == chosen[i].ownerId
        && rows[i].totalRatings == |RatingsFor(t.ratings, chosen[i].id)|
        && rows[i].averageRating == Average(RatingsFor(t.ratings, chosen[i].id))
  {
    var stores := SelectAdminStores(t.stores, name, email, address, sort, order);
    rows := seq(|stores|, i requires 0 <= i < |stores| =>
      var rs := RatingsFor(t.ratings, stores[i].id);
      AdminStoreRow(stores[i].id, stores[i].name, stores[i].email, stores[i].address, stores[i].ownerId,
                    Average(rs), |rs|));
  }
}
