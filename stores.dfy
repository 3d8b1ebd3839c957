/**
 * server/routes/stores.js: the store listing every signed-in role sees, with
 * the caller's own rating attached, and the rating upsert.
 */
module StoreRoutes {
  import opened Wrappers
  import opened Relational
  import opened Schema
  import opened RatingTable
  import opened Query
  import opened Db

  const RatingRangeMessage := "Rating must be between 1 and 5"
  const StoreNotFoundMessage := "Store not found"
  const RatingUpdatedMessage := "Rating updated successfully"
  const RatingSubmittedMessage := "Rating submitted successfully"

  /** The sort columns the user-facing listing accepts. */
  const UserSortFields := ["name", "address"]

  /** One entry of `GET /stores`. */
  datatype StoreListing = StoreListing(
    id: Id, name: string, address: string,
    overallRating: Ratio, totalRatings: nat, userRating: Option<int>)

  // ---------------------------------------------------------------------
  // POST /:storeId/rating
  // ---------------------------------------------------------------------

  /** The rating guard lets `value` through: it is non-zero and within 1..5. */
  function RatingValueAccepted(value: int): (ok: bool)
    ensures ok <==> 1 <= value <= 5
  {
    !(value == 0 || value < 1 || value > 5)
  }

  /**
   * Checks the value, then that the store exists, then updates the caller's
   * rating of the store if there is one and inserts it otherwise.
   */
  method SubmitRating(db: Database, caller: Identity, storeId: Id, value: int, now: int)
    returns (resp: Response<()>)
    requires db.Valid()
    modifies db
    ensures db.Valid()
    ensures db.tables.users == old(db.tables.users) && db.tables.stores == old(db.tables.stores)
    ensures db.nextRatingId == old(db.nextRatingId) + (if resp == Ok(200, RatingSubmittedMessage, ()) then 1 else 0)
    ensures db.nextUserId == old(db.nextUserId) && db.nextStoreId == old(db.nextStoreId)
    ensures !(1 <= value <= 5) ==>
      resp == Err(400, RatingRangeMessage) && db.tables == old(db.tables)
    ensures 1 <= value <= 5 && !StoreExists(old(db.tables.stores), storeId) ==>
      resp == Err(404, StoreNotFoundMessage) && db.tables == old(db.tables)
    ensures 1 <= value <= 5 && StoreExists(old(db.tables.stores), storeId)
            && HasRating(old(db.tables.ratings), caller.id, storeId) ==>
      && resp == Ok(200, RatingUpdatedMessage, ())
      && db.tables.ratings == SetValueWhere(old(db.tables.ratings), caller.id, storeId, value)
    ensures 1 <= value <= 5 && StoreExists(old(db.tables.stores), storeId)
            && !HasRating(old(db.tables.ratings), caller.id, storeId) ==>
      && resp == Ok(200, RatingSubmittedMessage, ())
      && db.tables.ratings == old(db.tables.ratings) + [Rating(old(db.nextRatingId), caller.id, storeId, value, now)]
    // what the caller observes afterwards
    ensures resp.Ok? ==> RatingOf(db.tables.ratings, caller.id, storeId) == Some(value)
    ensures forall u, s | u != caller.id || s != storeId ::
      RatingOf(db.tables.ratings, u, s) == RatingOf(old(db.tables.ratings), u, s)
    // resubmitting the value already recorded changes nothing
    ensures 1 <= value <= 5 && StoreExists(old(db.tables.stores), storeId)
            && RatingOf(old(db.tables.ratings), caller.id, storeId) == Some(value) ==>
      resp == Ok(200, RatingUpdatedMessage, ()) && db.tables == old(db.tables)
  {
    if !RatingValueAccepted(value) {
      return Err(400, RatingRangeMessage);
    }
    if !StoreExists(db.tables.stores, storeId) {
      return Err(404, StoreNotFoundMessage);
    }
    if HasRating(db.tables.ratings, caller.id, storeId) {
      ghost var before := db.tables.ratings;
      if RatingOf(before, caller.id, storeId) == Some(value) {
        ResubmitChangesNothing(before, caller.id, storeId, value);
      }
      db.UpdateRatingValue(caller.id, storeId, value);
      SetValueWhereSets(before, caller.id, storeId, value);
      forall u, s | u != caller.id || s != storeId
        ensures RatingOf(db.tables.ratings, u, s) == RatingOf(before, u, s)
      {
        SetValueWhereOthers(before, caller.id, storeId, value, u, s);
      }
      resp := Ok(200, RatingUpdatedMessage, ());
    } else {
      ghost var before := db.tables.ratings;
      var id := db.InsertRating(caller.id, storeId, value, now);
      forall u, s ensures RatingOf(db.tables.ratings, u, s) ==
        if u == caller.id && s == storeId then Some(value) else RatingOf(before, u, s)
      {
        AppendRating(before, Rating(id, caller.id, storeId, value, now), u, s);
      }
      resp := Ok(200, RatingSubmittedMessage, ());
    }
  }

  // ---------------------------------------------------------------------
  // GET /
  // ---------------------------------------------------------------------

  /** The listing's filter stated directly: each non-empty filter must occur in its column. */
  predicate ListedForUser(s: Store, name: string, address: string) {
    && (name == "" || Contains(s.name, name))
    && (address == "" || Contains(s.address, address))
  }

  /** Extends `WHERE 1=1` with one `LIKE` term per non-empty filter. */
  method StoreFilters(name: string, address: string) returns (conds: seq<Condition<StoreColumn>>)
    ensures forall s: Store :: SatisfiesAll(s, conds, StoreField) <==> ListedForUser(s, name, address)
  {
    conds := [];
    if name != "" {
      SatisfiesAllAppend(conds, Like(StoreName, name), StoreField);
      conds := conds + [Like(StoreName, name)];
    }
    if address != "" {
      SatisfiesAllAppend(conds, Like(StoreAddress, address), StoreField);
      conds := conds + [Like(StoreAddress, address)];
    }
  }

  /** The stores `GET /stores` lists, in the order it lists them. */
  function UserStoreQuery(t: Tables, name: string, address: string, sort: string, order: string)
    : (r: seq<Store>)
    ensures forall s :: multiset(r)[s] == (if ListedForUser(s, name, address) then multiset(t.stores)[s] else 0)
    ensures SortedBy(r, StoreKey(NormaliseField(sort, UserSortFields)), NormaliseOrder(order) == "DESC")
    ensures NormaliseField(sort, UserSortFields) in {"name", "address"}
  {
    Select(t.stores, s => ListedForUser(s, name, address),
           StoreKey(NormaliseField(sort, UserSortFields)), NormaliseOrder(order) == "DESC")
  }

  /** With distinct store ids the listing shows every matching store exactly once and nothing else. */
  lemma UserListingShowsEachStoreOnce(t: Tables, name: string, address: string, sort: string, order: string)
    requires WellFormed(t)
    ensures var r := UserStoreQuery(t, name, address, sort, order);
      && (forall s | s in t.stores :: multiset(r)[s] == if ListedForUser(s, name, address) then 1 else 0)
      && (forall s | s in r :: s in t.stores && ListedForUser(s, name, address))
  {
    var r := UserStoreQuery(t, name, address, sort, order);
    StoresOccurOnce(t.stores);
    forall s | s in r ensures s in t.stores && ListedForUser(s, name, address) {
      assert multiset(r)[s] > 0;
    }
  }

  /**
   * The loop that fills the store-to-value map from the caller's rows of the
   * ratings table, in table order, so a later row overwrites an earlier one.
   */
  method CollectUserRatings(ratings: seq<Rating>, userId: Id) returns (m: map<Id, int>)
    ensures forall sid :: sid in m <==> HasRating(ratings, userId, sid)
    ensures forall sid | sid in m :: RatingOf(ratings, userId, sid) == Some(m[sid])
  {
    m := map[];
    var i := 0;
    while i < |ratings|
      invariant 0 <= i <= |ratings|
      invariant forall sid :: sid in m <==> HasRating(ratings[..i], userId, sid)
      invariant forall sid | sid in m :: RatingOf(ratings[..i], userId, sid) == Some(m[sid])
    {
      var r := ratings[i];
      if r.userId == userId {
        m := m[r.storeId := r.value];
      }
      assert ratings[..i + 1] == ratings[..i] + [r];
      forall sid ensures RatingOf(ratings[..i + 1], userId, sid) ==
        if r.userId == userId && r.storeId == sid then Some(r.value) else RatingOf(ratings[..i], userId, sid)
      {
        AppendRating(ratings[..i], r, userId, sid);
      }
      i := i + 1;
    }
    assert ratings[..i] == ratings;
  }

  /** The caller's rating of a store as the listing reports it: a missing entry and the falsy 0 both become null. */
  function UserRatingIn(m: map<Id, int>, storeId: Id): (v: Option<int>)
    ensures v.Some? <==> storeId in m && m[storeId] != 0
    ensures v.Some? ==> v.value == m[storeId]
  {
    if storeId in m && m[storeId] != 0 then Some(m[storeId]) else None
  }

  /**
   * Given the map the loop builds, the reported rating agrees with the
   * caller's rating whenever one is reported, and always once every stored
   * value lies in 1..5 (so none is the falsy 0).
   */
  lemma UserRatingInAgrees(ratings: seq<Rating>, userId: Id, m: map<Id, int>, storeId: Id)
    requires forall sid :: sid in m <==> HasRating(ratings, userId, sid)
    requires forall sid | sid in m :: RatingOf(ratings, userId, sid) == Some(m[sid])
    ensures UserRatingIn(m, storeId).Some? ==> UserRatingIn(m, storeId) == RatingOf(ratings, userId, storeId)
    ensures (forall i | 0 <= i < |ratings| :: 1 <= ratings[i].value <= 5) ==>
      UserRatingIn(m, storeId) == RatingOf(ratings, userId, storeId)
  {
    if storeId in m && forall i | 0 <= i < |ratings| :: 1 <= ratings[i].value <= 5 {
      var k :| 0 <= k < |ratings| && ratings[k].userId == userId && ratings[k].storeId == storeId
               && ratings[k].value == m[storeId];
    }
  }

  /** The store rows of the listing, built as the handler builds its query. */
  method SelectUserStores(t: Tables, name: string, address: string, sort: string, order: string)
    returns (stores: seq<Store>)
    ensures stores == UserStoreQuery(t, name, address, sort, order)
  {
    var conds := StoreFilters(name, address);
    var sortField := NormaliseField(sort, UserSortFields);
    var sortOrder := NormaliseOrder(order);
    var keep := s => SatisfiesAll(s, conds, StoreField);
    FilterCongruent(t.stores, keep, s => ListedForUser(s, name, address));
    stores := Select(t.stores, keep, StoreKey(sortField), sortOrder == "DESC");
  }

  /** `GET /stores`: the matching stores in the requested order, with aggregates and the caller's rating. */
  method ListStores(t: Tables, caller: Identity, name: string, address: string, sort: string, order: string)
    returns (rows: seq<StoreListing>)
    ensures var chosen := UserStoreQuery(t, name, address, sort, order);
      && |rows| == |chosen|
      && forall i | 0 <= i < |rows| ::
        && rows[i].id == chosen[i].id && rows[i].name == chosen[i].name && rows[i].address == chosen[i].address
        && rows[i].totalRatings == |RatingsFor(t.ratings, chosen[i].id)|
        && rows[i].overallRating == Average(RatingsFor(t.ratings, chosen[i].id))
        && (rows[i].userRating.Some? ==> RatingOf(t.ratings, caller.id, chosen[i].id) == rows[i].userRating)
        && (WellFormed(t) ==> rows[i].userRating == RatingOf(t.ratings, caller.id, chosen[i].id))
  {
    var stores := SelectUserStores(t, name, address, sort, order);
    var userRatingsMap := CollectUserRatings(t.ratings, caller.id);

    rows := seq(|stores|, i requires 0 <= i < |stores| =>
      var rs := RatingsFor(t.ratings, stores[i].id);
      StoreListing(stores[i].id, stores[i].name, stores[i].address,
                   Average(rs), |rs|, UserRatingIn(userRatingsMap, stores[i].id)));

    forall i | 0 <= i < |rows|
      ensures rows[i].userRating.Some? ==> RatingOf(t.ratings, caller.id, stores[i].id) == rows[i].userRating
      ensures WellFormed(t) ==> rows[i].userRating == RatingOf(t.ratings, caller.id, stores[i].id)
    {
      UserRatingInAgrees(t.ratings, caller.id, userRatingsMap, stores[i].id);
    }
  }
}
