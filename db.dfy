/**
 * The relational store the routes share, as in-memory tables with the
 * AUTO_INCREMENT counters behind `result.insertId`. Its methods are the
 * INSERT and UPDATE statements the handlers issue.
 */
module Db {
  import opened Wrappers
  import opened Schema
  import opened RatingTable

  class Database {
    var tables: Tables
    var nextUserId: Id
    var nextStoreId: Id
    var nextRatingId: Id

    /** The table invariants, and every identifier lies below its counter. */
    ghost predicate Valid()
      reads this
    {
      && WellFormed(tables)
      && 1 <= nextUserId && 1 <= nextStoreId && 1 <= nextRatingId
      && (forall i | 0 <= i < |tables.users| :: tables.users[i].id < nextUserId)
      && (forall i | 0 <= i < |tables.stores| :: tables.stores[i].id < nextStoreId)
      && (forall i | 0 <= i < |tables.ratings| :: tables.ratings[i].id < nextRatingId)
    }

    /** Empty tables; AUTO_INCREMENT starts at 1. */
    constructor ()
      ensures Valid()
      ensures tables == Tables([], [], [])
      ensures nextUserId == 1 && nextStoreId == 1 && nextRatingId == 1
    {
      tables := Tables([], [], []);
      nextUserId, nextStoreId, nextRatingId := 1, 1, 1;
    }

    /** `INSERT INTO users (name, email, address, password_hash, role)`; `created_at` is `now`. */
    method InsertUser(name: string, email: string, address: string, passwordHash: Hash, role: Role, now: int)
      returns (id: Id)
      requires Valid()
      requires !EmailTaken(tables.users, email)
      modifies this
      ensures Valid()
      ensures id == old(nextUserId)
      ensures nextUserId == old(nextUserId) + 1
      ensures nextStoreId == old(nextStoreId) && nextRatingId == old(nextRatingId)
      ensures tables == old(tables).(users := old(tables.users) + [User(id, name, email, address, passwordHash, role, now)])
    {
      id := nextUserId;
      tables := tables.(users := tables.users + [User(id, name, email, address, passwordHash, role, now)]);
      nextUserId := nextUserId + 1;
    }

    /** `INSERT INTO stores (name, email, address, owner_id)`. */
    method InsertStore(name: string, email: string, address: string, ownerId: Option<Id>)
      returns (id: Id)
      requires Valid()
      requires !StoreEmailTaken(tables.stores, email)
      modifies this
      ensures Valid()
      ensures id == old(nextStoreId)
      ensures nextStoreId == old(nextStoreId) + 1
      ensures nextUserId == old(nextUserId) && nextRatingId == old(nextRatingId)
      ensures tables == old(tables).(stores := old(tables.stores) + [Store(id, name, email, address, ownerId)])
    {
      id := nextStoreId;
      tables := tables.(stores := tables.stores + [Store(id, name, email, address, ownerId)]);
      nextStoreId := nextStoreId + 1;
    }

    /** `INSERT INTO ratings (user_id, store_id, value)`; `created_at` is `now`. */
    method InsertRating(userId: Id, storeId: Id, value: int, now: int) returns (id: Id)
      requires Valid()
      requires !HasRating(tables.ratings, userId, storeId)
      requires 1 <= value <= 5
      modifies this
      ensures Valid()
      ensures id == old(nextRatingId)
      ensures nextRatingId == old(nextRatingId) + 1
      ensures nextUserId == old(nextUserId) && nextStoreId == old(nextStoreId)
      ensures tables == old(tables).(ratings := old(tables.ratings) + [Rating(id, userId, storeId, value, now)])
    {
      id := nextRatingId;
      tables := tables.(ratings := tables.ratings + [Rating(id, userId, storeId, value, now)]);
      nextRatingId := nextRatingId + 1;
    }

    /** Sets the value of the (user, store) pair's rating. */
    method UpdateRatingValue(userId: Id, storeId: Id, value: int)
      requires Valid()
      requires 1 <= value <= 5
      modifies this
      ensures Valid()
      ensures tables == old(tables).(ratings := SetValueWhere(old(tables.ratings), userId, storeId, value))
      ensures nextUserId == old(nextUserId) && nextStoreId == old(nextStoreId) && nextRatingId == old(nextRatingId)
    {
      tables := tables.(ratings := SetValueWhere(tables.ratings, userId, storeId, value));
    }

    /** Replaces the password hash of the user with this id. */
    method UpdatePasswordHash(userId: Id, passwordHash: Hash)
      requires Valid()
      modifies this
      ensures Valid()
      ensures tables == old(tables).(users := SetPasswordHashWhere(old(tables.users), userId, passwordHash))
      ensures nextUserId == old(nextUserId) && nextStoreId == old(nextStoreId) && nextRatingId == old(nextRatingId)
    {
      tables := tables.(users := SetPasswordHashWhere(tables.users, userId, passwordHash));
    }
  }
}
