/**
 * The three tables the routes read and write (users, stores, ratings), the
 * closed set of roles, and the lookups the handlers run against the tables.
 */
module Schema {
  import opened Wrappers
  import opened Relational

  /** An AUTO_INCREMENT row identifier. */
  type Id = nat

  /** A bcrypt digest; its structure is never inspected. */
  type Hash = string

  datatype Role = AdminRole | UserRole | OwnerRole

  /** The string stored in the `role` column and carried in a token. */
  function RoleName(r: Role): string {
    match r
    case AdminRole => "ADMIN"
    case UserRole => "USER"
    case OwnerRole => "OWNER"
  }

  /** Accepts exactly the three role names and returns the role named. */
  function ParseRole(s: string): (r: Option<Role>)
    ensures r.None? <==> s != "ADMIN" && s != "USER" && s != "OWNER"
    ensures r.Some? ==> RoleName(r.value) == s
  {
    if s == "ADMIN" then Some(AdminRole)
    else if s == "USER" then Some(UserRole)
    else if s == "OWNER" then Some(OwnerRole)
    else None
  }

  /** Every role survives the trip through its column string. */
  lemma ParseRoleName(r: Role)
    ensures ParseRole(RoleName(r)) == Some(r)
  {
  }

  datatype User = User(id: Id, name: string, email: string, address: string,
                       passwordHash: Hash, role: Role, createdAt: int)

  /** A store; `ownerId` is the nullable `owner_id` column. */
  datatype Store = Store(id: Id, name: string, email: string, address: string, ownerId: Option<Id>)

  datatype Rating = Rating(id: Id, userId: Id, storeId: Id, value: int, createdAt: int)

  datatype Tables = Tables(users: seq<User>, stores: seq<Store>, ratings: seq<Rating>)

  /** The caller as the authentication middleware leaves it in `req.user`: the token's claims. */
  datatype Identity = Identity(id: Id, role: Role)

  /** No (user, store) pair is rated twice. */
  predicate OnePerPair(ratings: seq<Rating>) {
    forall i, j | 0 <= i < j < |ratings| ::
      !(ratings[i].userId == ratings[j].userId && ratings[i].storeId == ratings[j].storeId)
  }

  /**
   * What the handlers keep true of the tables: identifiers grow in insertion
   * order, user and store emails are unique, one rating per (user, store)
   * pair, and every rating value lies in 1..5.
   */
  predicate WellFormed(t: Tables) {
    && (forall i, j | 0 <= i < j < |t.users| :: t.users[i].id < t.users[j].id)
    && (forall i, j | 0 <= i < j < |t.stores| :: t.stores[i].id < t.stores[j].id)
    && (forall i, j | 0 <= i < j < |t.ratings| :: t.ratings[i].id < t.ratings[j].id)
    && (forall i, j | 0 <= i < j < |t.users| :: t.users[i].email != t.users[j].email)
    && (forall i, j | 0 <= i < j < |t.stores| :: t.stores[i].email != t.stores[j].email)
    && OnePerPair(t.ratings)
    && (forall i | 0 <= i < |t.ratings| :: 1 <= t.ratings[i].value <= 5)
  }

  /** Some user row has this email. */
  predicate EmailTaken(users: seq<User>, email: string) {
    exists i | 0 <= i < |users| :: users[i].email == email
  }

  /** Some store row has this email. */
  predicate StoreEmailTaken(stores: seq<Store>, email: string) {
    exists i | 0 <= i < |stores| :: stores[i].email == email
  }

  /** Some store row has this id. */
  predicate StoreExists(stores: seq<Store>, id: Id) {
    exists i | 0 <= i < |stores| :: stores[i].id == id
  }

  /** The first user row with this email, in table order. */
  function FindUserByEmail(users: seq<User>, email: string): (u: Option<User>)
    ensures u.None? <==> !EmailTaken(users, email)
    ensures u.Some? ==> exists i | 0 <= i < |users| ::
      users[i] == u.value && users[i].email == email
      && forall k | 0 <= k < i :: users[k].email != email
  {
    if users == [] then None
    else if users[0].email == email then Some(users[0])
    else
      var u := FindUserByEmail(users[1..], email);
      assert forall i | 0 < i < |users| :: users[i] == users[1..][i - 1];
      u
  }

  /** The first user row with this id, in table order. */
  function FindUserById(users: seq<User>, id: Id): (u: Option<User>)
    ensures u.None? <==> forall i | 0 <= i < |users| :: users[i].id != id
    ensures u.Some? ==> u.value in users && u.value.id == id
  {
    if users == [] then None
    else if users[0].id == id then Some(users[0])
    else
      var u := FindUserById(users[1..], id);
      assert forall i | 0 < i < |users| :: users[i] == users[1..][i - 1];
      u
  }

  /** The stores whose owner is `ownerId`, in table order. */
  function StoresOwnedBy(stores: seq<Store>, ownerId: Id): (r: seq<Store>)
    ensures forall s :: s in r <==> s in stores && s.ownerId == Some(ownerId)
    ensures forall s :: multiset(r)[s] == if s.ownerId == Some(ownerId) then multiset(stores)[s] else 0
  {
    Filter(stores, (s: Store) => s.ownerId == Some(ownerId))
  }

  /** The first store `StoresOwnedBy` returns is the first owned one in table order. */
  lemma {:induction false} FirstOwnedStore(stores: seq<Store>, ownerId: Id)
    requires StoresOwnedBy(stores, ownerId) != []
    ensures exists k | 0 <= k < |stores| ::
      stores[k] == StoresOwnedBy(stores, ownerId)[0] && stores[k].ownerId == Some(ownerId)
      && forall j | 0 <= j < k :: stores[j].ownerId != Some(ownerId)
  {
    if stores[0].ownerId != Some(ownerId) {
      FirstOwnedStore(stores[1..], ownerId);
      var k :| 0 <= k < |stores[1..]| && stores[1..][k] == StoresOwnedBy(stores[1..], ownerId)[0]
               && stores[1..][k].ownerId == Some(ownerId)
               && forall j | 0 <= j < k :: stores[1..][j].ownerId != Some(ownerId);
      assert forall j | 0 < j <= k :: stores[j] == stores[1..][j - 1];
      assert stores[k + 1] == stores[1..][k];
    }
  }

  /** The store columns a listing may filter or sort on. */
  datatype StoreColumn = StoreName | StoreEmail | StoreAddress

  function StoreField(s: Store, c: StoreColumn): string {
    match c
    case StoreName => s.name
    case StoreEmail => s.email
    case StoreAddress => s.address
  }

  /** The user columns the admin listing may filter or sort on. */
  datatype UserColumn = UserName | UserEmail | UserAddress | UserRoleColumn

  function UserField(u: User, c: UserColumn): string {
    match c
    case UserName => u.name
    case UserEmail => u.email
    case UserAddress => u.address
    case UserRoleColumn => RoleName(u.role)
  }

  /** The `id, name, address` projection of a store. */
  datatype StoreSummary = StoreSummary(id: Id, name: string, address: string)

  function Summary(s: Store): StoreSummary {
    StoreSummary(s.id, s.name, s.address)
  }

  /** The password-hash update: every row with this id gets the new hash. */
  function SetPasswordHashWhere(users: seq<User>, id: Id, hash: Hash): (r: seq<User>)
    ensures |r| == |users|
    ensures forall i | 0 <= i < |r| ::
      && r[i].(passwordHash := users[i].passwordHash) == users[i]
      && (users[i].id == id ==> r[i].passwordHash == hash)
      && (users[i].id != id ==> r[i] == users[i])
  {
    seq(|users|, i requires 0 <= i < |users| =>
      if users[i].id == id then users[i].(passwordHash := hash) else users[i])
  }

  /** Store rows with increasing ids are pairwise distinct. */
  lemma {:induction false} StoresOccurOnce(stores: seq<Store>)
    requires forall i, j | 0 <= i < j < |stores| :: stores[i].id < stores[j].id
    ensures forall s | s in stores :: multiset(stores)[s] == 1
  {
    if stores != [] {
      StoresOccurOnce(stores[1..]);
      assert stores == [stores[0]] + stores[1..];
      assert stores[0] !in stores[1..];
    }
  }

  /** User rows with increasing ids are pairwise distinct. */
  lemma {:induction false} UsersOccurOnce(users: seq<User>)
    requires forall i, j | 0 <= i < j < |users| :: users[i].id < users[j].id
    ensures forall u | u in users :: multiset(users)[u] == 1
  {
    if users != [] {
      UsersOccurOnce(users[1..]);
      assert users == [users[0]] + users[1..];
      assert users[0] !in users[1..];
    }
  }
}
