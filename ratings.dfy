/**
 * The ratings table as the handlers see it: the ratings of one store, their
 * exact mean, the value a user gave a store, and the `UPDATE ... SET value`
 * statement of the rating upsert.
 */
module RatingTable {
  import opened Wrappers
  import opened Schema
  import opened Relational

  /** `WHERE store_id = ?`: the ratings of one store, each as often as the table holds it, in table order. */
  function RatingsFor(ratings: seq<Rating>, storeId: Id): (r: seq<Rating>)
    ensures |r| <= |ratings|
    ensures forall x :: x in r <==> x in ratings && x.storeId == storeId
    ensures forall x :: multiset(r)[x] == if x.storeId == storeId then multiset(ratings)[x] else 0
  {
    Filter(ratings, (x: Rating) => x.storeId == storeId)
  }

  function Sum(ratings: seq<Rating>): int {
    if ratings == [] then 0 else ratings[0].value + Sum(ratings[1..])
  }

  /** An exact fraction `num / den`. */
  datatype Ratio = Ratio(num: int, den: nat)

  /** `COALESCE(AVG(value), 0)` computed exactly: the mean of the values, or 0 when there are none. */
  function Average(ratings: seq<Rating>): (a: Ratio)
    ensures a.den > 0
    ensures ratings == [] ==> a.num == 0
    ensures a.num * |ratings| == Sum(ratings) * a.den
  {
    if ratings == [] then Ratio(0, 1) else Ratio(Sum(ratings), |ratings|)
  }

  lemma {:induction false} SumBounds(ratings: seq<Rating>)
    requires forall i | 0 <= i < |ratings| :: 1 <= ratings[i].value <= 5
    ensures |ratings| <= Sum(ratings) <= 5 * |ratings|
  {
    if ratings != [] {
      SumBounds(ratings[1..]);
    }
  }

  /** The mean of ratings in 1..5 lies in 1..5 too. */
  lemma AverageInRange(ratings: seq<Rating>)
    requires ratings != []
    requires forall i | 0 <= i < |ratings| :: 1 <= ratings[i].value <= 5
    ensures var a := Average(ratings); a.den <= a.num <= 5 * a.den
  {
    SumBounds(ratings);
  }

  /** Ratings 3 and 5 average to exactly 4. */
  lemma AverageOfThreeAndFive(r1: Rating, r2: Rating)
    requires r1.value == 3 && r2.value == 5
    ensures var a := Average([r1, r2]); a.num == 4 * a.den
  {
    assert [r1, r2][1..] == [r2] && [r2][1..] == [];
    assert Sum([r2]) == 5 + Sum([]);
    assert Sum([r1, r2]) == 3 + Sum([r2]);
  }

  /** Some rating row is by this user for this store. */
  predicate HasRating(ratings: seq<Rating>, userId: Id, storeId: Id) {
    exists i | 0 <= i < |ratings| :: ratings[i].userId == userId && ratings[i].storeId == storeId
  }

  /**
   * The value `userId` gave `storeId`: that of the last matching row in table
   * order, which is what filling a map row by row leaves behind.
   */
  function RatingOf(ratings: seq<Rating>, userId: Id, storeId: Id): (v: Option<int>)
    ensures v.Some? <==> HasRating(ratings, userId, storeId)
    ensures v.Some? ==> exists i | 0 <= i < |ratings| ::
      ratings[i].userId == userId && ratings[i].storeId == storeId && ratings[i].value == v.value
  {
    if ratings == [] then None
    else
      var n := |ratings|;
      var last := ratings[n - 1];
      if last.userId == userId && last.storeId == storeId then Some(last.value)
      else
        assert forall i | 0 <= i < n - 1 :: ratings[..n - 1][i] == ratings[i];
        RatingOf(ratings[..n - 1], userId, storeId)
  }

  /** With one rating per pair, the pair's only row gives its value. */
  lemma {:induction false} RatingOfUnique(ratings: seq<Rating>, k: nat)
    requires OnePerPair(ratings) && k < |ratings|
    ensures RatingOf(ratings, ratings[k].userId, ratings[k].storeId) == Some(ratings[k].value)
    decreases |ratings|
  {
    var n := |ratings|;
    if k < n - 1 {
      var prefix := ratings[..n - 1];
      assert prefix[k] == ratings[k];
      RatingOfUnique(prefix, k);
    }
  }

  /** Appending a row makes it the pair's value and leaves every other pair's value alone. */
  lemma AppendRating(ratings: seq<Rating>, r: Rating, userId: Id, storeId: Id)
    ensures RatingOf(ratings + [r], userId, storeId) ==
      if r.userId == userId && r.storeId == storeId then Some(r.value) else RatingOf(ratings, userId, storeId)
  {
    assert (ratings + [r])[..|ratings|] == ratings;
  }

  /** The rating update: every row of this (user, store) pair gets the new value. */
  function SetValueWhere(ratings: seq<Rating>, userId: Id, storeId: Id, value: int): (r: seq<Rating>)
    ensures |r| == |ratings|
    ensures forall i | 0 <= i < |r| ::
      && r[i].(value := ratings[i].value) == ratings[i]
      && (r[i].value != ratings[i].value ==> r[i].userId == userId && r[i].storeId == storeId)
      && (ratings[i].userId == userId && ratings[i].storeId == storeId ==> r[i].value == value)
  {
    seq(|ratings|, i requires 0 <= i < |ratings| =>
      if ratings[i].userId == userId && ratings[i].storeId == storeId
      then ratings[i].(value := value) else ratings[i])
  }

  /** After the update the pair's value is the new one. */
  lemma {:induction false} SetValueWhereSets(ratings: seq<Rating>, userId: Id, storeId: Id, value: int)
    requires HasRating(ratings, userId, storeId)
    ensures RatingOf(SetValueWhere(ratings, userId, storeId, value), userId, storeId) == Some(value)
    decreases |ratings|
  {
    var n := |ratings|;
    var after := SetValueWhere(ratings, userId, storeId, value);
    var last := ratings[n - 1];
    if !(last.userId == userId && last.storeId == storeId) {
      var i :| 0 <= i < n && ratings[i].userId == userId && ratings[i].storeId == storeId;
      assert ratings[..n - 1][i] == ratings[i];
      assert after[..n - 1] == SetValueWhere(ratings[..n - 1], userId, storeId, value);
      SetValueWhereSets(ratings[..n - 1], userId, storeId, value);
    }
  }

  /** The update leaves the value of every other (user, store) pair alone. */
  lemma {:induction false} SetValueWhereOthers(ratings: seq<Rating>, userId: Id, storeId: Id, value: int,
                                               otherUser: Id, otherStore: Id)
    requires otherUser != userId || otherStore != storeId
    ensures RatingOf(SetValueWhere(ratings, userId, storeId, value), otherUser, otherStore)
         == RatingOf(ratings, otherUser, otherStore)
    decreases |ratings|
  {
    if ratings != [] {
      var n := |ratings|;
      var after := SetValueWhere(ratings, userId, storeId, value);
      assert after[..n - 1] == SetValueWhere(ratings[..n - 1], userId, storeId, value);
      SetValueWhereOthers(ratings[..n - 1], userId, storeId, value, otherUser, otherStore);
    }
  }

  /** Setting a pair to the value it already has changes no row. */
  lemma ResubmitChangesNothing(ratings: seq<Rating>, userId: Id, storeId: Id, value: int)
    requires OnePerPair(ratings)
    requires RatingOf(ratings, userId, storeId) == Some(value)
    ensures SetValueWhere(ratings, userId, storeId, value) == ratings
  {
    var after := SetValueWhere(ratings, userId, storeId, value);
    forall i | 0 <= i < |ratings| ensures after[i] == ratings[i] {
      if ratings[i].userId == userId && ratings[i].storeId == storeId {
        RatingOfUnique(ratings, i);
      }
    }
  }
}
