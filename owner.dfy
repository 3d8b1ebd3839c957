/**
 * server/routes/owner.js: the store owner's dashboard — their store, its
 * rating count and mean, and who rated it, newest first.
 */
module OwnerRoutes {
  import opened Wrappers
  import opened Relational
  import opened Schema
  import opened RatingTable

  const NoStoreMessage := "No store found for this owner"

  /** One row of `ratings JOIN users`, projected to what the dashboard shows. */
  datatype Rater = Rater(name: string, email: string, rating: int, ratedAt: int)

  datatype OwnerDashboard = OwnerDashboard(
    store: StoreSummary, averageRating: Ratio, totalRatings: nat, raters: seq<Rater>)

  function RaterRow(r: Rating, u: User): (x: Rater)
    ensures x.name == u.name && x.email == u.email && x.rating == r.value && x.ratedAt == r.createdAt
  {
    Rater(u.name, u.email, r.value, r.createdAt)
  }

  /** The raters are ordered by when the rating was created. */
  function RatedAt(x: Rater): SortKey {
    Time(x.ratedAt)
  }

  /** Every rating's author is a row of the users table. */
  predicate RatersKnown(t: Tables) {
    forall r | r in t.ratings :: exists u | u in t.users :: u.id == r.userId
  }

  /** The join partners of a rating: the users with the given id. */
  function AuthorsOf(users: seq<User>, userId: Id): seq<User> {
    Filter(users, (u: User) => u.id == userId)
  }

  /** The join rows one rating contributes: one per user whose id is the rating's `user_id`. */
  function RatersOf(r: Rating, users: seq<User>): (j: seq<Rater>)
    ensures forall x | x in j :: exists u | u in users :: u.id == r.userId && x == RaterRow(r, u)
    ensures forall u | u in users && u.id == r.userId :: RaterRow(r, u) in j
  {
    var matching := AuthorsOf(users, r.userId);
    var j := seq(|matching|, i requires 0 <= i < |matching| => RaterRow(r, matching[i]));
    assert forall u | u in users && u.id == r.userId :: u in matching;
    forall x | x in j ensures exists u | u in users :: u.id == r.userId && x == RaterRow(r, u) {
      var k :| 0 <= k < |j| && j[k] == x;
      assert matching[k] in matching;
    }
    forall u | u in users && u.id == r.userId ensures RaterRow(r, u) in j {
      var k :| 0 <= k < |matching| && matching[k] == u;
      assert j[k] == RaterRow(r, u);
    }
    j
  }

  /** The inner join of ratings with their authors, before ordering. */
  function JoinRaters(ratings: seq<Rating>, users: seq<User>): (j: seq<Rater>)
    ensures forall x | x in j :: exists r, u | r in ratings && u in users ::
      u.id == r.userId && x == RaterRow(r, u)
    ensures forall r, u | r in ratings && u in users && u.id == r.userId :: RaterRow(r, u) in j
  {
    if ratings == [] then []
    else
      var rest := JoinRaters(ratings[1..], users);
      assert forall r | r in ratings[1..] :: r in ratings;
      assert forall r | r in ratings :: r == ratings[0] || r in ratings[1..];
      RatersOf(ratings[0], users) + rest
  }

  /** With distinct user ids, a rating whose author exists joins exactly one user. */
  lemma RatersOfKnownAuthor(r: Rating, users: seq<User>)
    requires forall i, j | 0 <= i < j < |users| :: users[i].id < users[j].id
    requires exists u | u in users :: u.id == r.userId
    ensures |RatersOf(r, users)| == 1
  {
    var matching := AuthorsOf(users, r.userId);
    var u0 :| u0 in users && u0.id == r.userId;
    UsersOccurOnce(users);
    forall x ensures multiset(matching)[x] == multiset{u0}[x] {
      if x == u0 {
        assert multiset(matching)[x] == multiset(users)[x];
      }
    }
    assert multiset(matching) == multiset{u0};
    assert |matching| == |multiset(matching)|;
  }

  /** When every author exists and user ids are distinct, the join keeps one row per rating. */
  lemma {:induction false} JoinKeepsEveryRating(ratings: seq<Rating>, users: seq<User>)
    requires forall i, j | 0 <= i < j < |users| :: users[i].id < users[j].id
    requires forall r | r in ratings :: exists u | u in users :: u.id == r.userId
    ensures |JoinRaters(ratings, users)| == |ratings|
  {
    if ratings != [] {
      assert ratings[0] in ratings;
      RatersOfKnownAuthor(ratings[0], users);
      assert forall r | r in ratings[1..] :: r in ratings;
      JoinKeepsEveryRating(ratings[1..], users);
    }
  }

  /**
   * `GET /dashboard` for owner `ownerId`: the first store they own, the count
   * and mean of its ratings, and its raters newest first; 404 when they own none.
   */
  function OwnerDashboardOf(t: Tables, ownerId: Id): (r: Response<OwnerDashboard>)
    ensures r.Err? <==> forall i | 0 <= i < |t.stores| :: t.stores[i].ownerId != Some(ownerId)
    ensures r.Err? ==> r == Err(404, NoStoreMessage)
    ensures r.Ok? ==> r.status == 200 && exists k | 0 <= k < |t.stores| ::
      && t.stores[k].ownerId == Some(ownerId)
      && r.body.store == Summary(t.stores[k])
      && forall j | 0 <= j < k :: t.stores[j].ownerId != Some(ownerId)
    ensures r.Ok? ==> var rs := RatingsFor(t.ratings, r.body.store.id);
      && r.body.totalRatings == |rs|
      && r.body.averageRating == Average(rs)
      && multiset(r.body.raters) == multiset(JoinRaters(rs, t.users))
      && SortedBy(r.body.raters, RatedAt, true)
  {
    var owned := StoresOwnedBy(t.stores, ownerId);
    if owned == [] then
      assert forall i | 0 <= i < |t.stores| :: t.stores[i] in t.stores;
      Err(404, NoStoreMessage)
    else
      var store := owned[0];
      FirstOwnedStore(t.stores, ownerId);
      var rs := RatingsFor(t.ratings, store.id);
      Ok(200, "", OwnerDashboard(Summary(store), Average(rs), |rs|, SortBy(JoinRaters(rs, t.users), RatedAt, true)))
  }

  /**
   * Every rater shown is the author of a rating of the dashboard's store, and
   * when every author exists the raters list is exactly as long as the count.
   */
  lemma RatersMatchTheStore(t: Tables, ownerId: Id)
    requires exists i | 0 <= i < |t.stores| :: t.stores[i].ownerId == Some(ownerId)
    ensures OwnerDashboardOf(t, ownerId).Ok?
    ensures var d := OwnerDashboardOf(t, ownerId).body;
      forall x | x in d.raters :: exists r, u | r in t.ratings && u in t.users ::
        r.storeId == d.store.id && u.id == r.userId && x == RaterRow(r, u)
    ensures var d := OwnerDashboardOf(t, ownerId).body;
      forall r, u | r in t.ratings && u in t.users && r.storeId == d.store.id && u.id == r.userId ::
        RaterRow(r, u) in d.raters
    ensures WellFormed(t) && RatersKnown(t) ==>
      |OwnerDashboardOf(t, ownerId).body.raters| == OwnerDashboardOf(t, ownerId).body.totalRatings
  {
    var d := OwnerDashboardOf(t, ownerId).body;
    var rs := RatingsFor(t.ratings, d.store.id);
    var j := JoinRaters(rs, t.users);
    forall x | x in d.raters ensures exists r, u | r in t.ratings && u in t.users ::
      r.storeId == d.store.id && u.id == r.userId && x == RaterRow(r, u)
    {
      assert multiset(d.raters)[x] > 0;
      assert x in j;
    }
    forall r, u | r in t.ratings && u in t.users && r.storeId == d.store.id && u.id == r.userId
      ensures RaterRow(r, u) in d.raters
    {
      assert r in rs;
      assert multiset(j)[RaterRow(r, u)] > 0;
    }
    if WellFormed(t) && RatersKnown(t) {
      JoinKeepsEveryRating(rs, t.users);
      assert |d.raters| == |multiset(d.raters)| == |multiset(j)| == |j|;
    }
  }
}
