# Rating service model

A Dafny model of the server core of a store-rating web application. Registered
users rate stores from 1 to 5, store owners see the ratings of their own store,
and administrators create users and stores and browse everything. The model
covers the four Express routers (`auth`, `admin`, `stores`, `owner`) and the
input validators they share, with the MySQL database replaced by three
in-memory tables.

## How the model is organised

- `wrappers.dfy` — `Option` and `Response` (a status code with a message and,
  on success, a payload).
- `relational.dfy` — the SQL the handlers rely on: `LIKE '%x%'` as substring
  containment, `WHERE` as an order-preserving filter, `ORDER BY` as a stable
  sort on a text or time key, and `Select` combining the two.
- `validators.dfy` — password strength, name, address and email checks. The
  email regular expression is stated twice: as the match it performs and as a
  plain description, with a lemma proving the two agree.
- `schema.dfy` — users, stores, ratings and roles; the lookups the handlers
  make; `WellFormed`, which states what the handlers keep true of the tables.
- `ratings.dfy` — the ratings of a store, their exact mean, the value a user
  gave a store, and the value update used when a rating is resubmitted.
- `access.dfy` — the role allow-list each router declares.
- `query.dfy` — the `WHERE 1=1 AND ...` conditions the listings build and the
  normalisation of the `sort` and `order` parameters.
- `db.dfy` — class `Database`: the tables plus the AUTO_INCREMENT counters.
  Its methods are the INSERT and UPDATE statements. `Valid()` is the table
  invariant plus "every id is below its counter".
- `accounts.dfy`, `auth.dfy`, `stores.dfy`, `admin.dfy`, `owner.dfy` — one
  module per route file. Handlers that write are methods that modify the
  `Database`. Handlers that only read are functions, or methods over a
  `Tables` snapshot. The handlers that answer with a status return a `Response`
  carrying the same status and message as the route. The listings
  (`ListStores`, `ListUsers`, `ListStoresAdmin`) and `Dashboard` return the
  rows or counts the route sends as its JSON body.

Modelling conventions:

- A missing request field is the empty string. Both are falsy in JavaScript,
  and the query defaults (`name`, `ASC`) are what the empty string normalises to.
  The one exception is a missing password on signup, user creation and password
  change (see "## Left out").
- bcrypt's `hash` and `compare` are function parameters. The signed JWT is
  represented by its claims (`id`, `role`).
- The caller's identity is the `Identity` the authentication middleware
  extracts from the token.
- SQL averages are exact fractions (`Ratio`). `COALESCE(AVG(value), 0)` is
  `Ratio(0, 1)` when a store has no ratings.

Behaviour of the code the model keeps:

- The address check tests `address &&` first, so an address is accepted when
  it has 1 to 400 characters.
- The email check is the regular expression in `validators.js`.
  `ValidateEmailIff` gives its plain reading.
- The rating upsert replies "Rating submitted successfully" for a new pair and
  "Rating updated successfully" for a pair already rated.
- The rating upsert looks the pair up and then either updates or inserts.
- `ownerId` on store creation is stored as given (0 and a missing value become
  NULL).
- A rating value passes when it is truthy and between 1 and 5.

## Model

| member | source | states |
|---|---|---|
| Validators.Search | server/utils/validators.js:4-5 | true exactly when some character of the string belongs to the class (a one-class regular-expression test) |
| Validators.IsStrongPassword | server/utils/validators.js:1-7 | strong iff the length is 8 to 16, there is an ASCII capital, and there is a character outside `[A-Za-z0-9]` |
| Validators.AlphanumericNeverStrong | server/utils/validators.js:5-6 | a password made only of letters and digits is never strong, whatever its length |
| Validators.StrongPasswordExamples | server/utils/validators.js:1-7 | "Abcdef1!" is strong; "abcdefg1" is not |
| Validators.ValidateName | server/utils/validators.js:9-11 | accepted iff the name has 20 to 60 characters (the empty name is rejected) |
| Validators.ValidateAddress | server/utils/validators.js:13-15 | accepted iff the address has 1 to 400 characters |
| Validators.ValidateEmail | server/utils/validators.js:17-20 | the anchored pattern matches under some position of its '@' and its literal '.'; an accepted address has at least five characters and contains both |
| Validators.MatchIsPlain | server/utils/validators.js:18 | a match has no whitespace, its '@' is the only one, and the domain has a '.' that is neither its first nor its last character |
| Validators.PlainIsMatch | server/utils/validators.js:18 | conversely, an address of that shape matches at its '@' and any inner '.' of the domain |
| Validators.ValidateEmailIff | server/utils/validators.js:17-20 | the pattern matches iff there is no whitespace and exactly one '@', not first, and the part after it has a '.' that is neither its first nor its last character |
| Validators.TwoAtSignsRejected | server/utils/validators.js:18 | any address with two '@' is invalid |
| Validators.WhitespaceRejected | server/utils/validators.js:18 | any address containing a whitespace character is invalid |
| Schema.ParseRole | server/routes/admin.js:48-50 | rejects every string except ADMIN, USER and OWNER; an accepted string is the name of the role returned |
| Schema.ParseRoleName | server/routes/admin.js:48 | every role is accepted under its own name and parses back to itself |
| Schema.FindUserByEmail | server/routes/auth.js:66-75 | none iff no row has the email; otherwise the first row in table order with that email |
| Schema.FindUserById | server/routes/admin.js:130-139 | none iff no row has the id; otherwise a row of the table with that id |
| Schema.StoresOwnedBy | server/routes/owner.js:16-19 | a store is returned iff it is in the table and its owner is the given user; each owned row appears exactly as often as in the table, others never |
| Schema.FirstOwnedStore | server/routes/owner.js:25 | the first store returned is the first store of the table owned by that user |
| Schema.SetPasswordHashWhere | server/routes/auth.js:121-124 | same length; rows with the id get the new hash; only the hash column changes; all other rows are untouched |
| RatingTable.RatingsFor | server/routes/owner.js:27-30 | a rating is kept iff it is in the table and belongs to the store, as many times as the table holds it, so its length is the store's rating count |
| RatingTable.Average | server/routes/stores.js:35 | a fraction with a positive denominator; 0 for no ratings; mean times count equals the sum |
| RatingTable.SumBounds | server/routes/stores.js:35 | with values in 1..5, the sum lies between the count and five times the count |
| RatingTable.AverageInRange | server/routes/owner.js:28 | a non-empty store's average lies in [1, 5] |
| RatingTable.AverageOfThreeAndFive | server/routes/owner.js:28-32 | ratings 3 and 5 average to exactly 4 |
| RatingTable.RatingOf | server/routes/stores.js:52-55 | defined iff the user rated the store; the value is that of a rating row of the pair |
| RatingTable.RatingOfUnique | server/routes/stores.js:91-96 | when each pair has one row, the value is exactly that row's value |
| RatingTable.AppendRating | server/routes/stores.js:105-108 | after an insert, the new pair reads back its value and every other pair is unchanged |
| RatingTable.SetValueWhere | server/routes/stores.js:98-101 | same length; only the value column of the pair's rows changes, and it becomes the new value |
| RatingTable.SetValueWhereSets | server/routes/stores.js:98-101 | after the update, the pair reads back the new value |
| RatingTable.SetValueWhereOthers | server/routes/stores.js:98-101 | the update leaves every other pair's value unchanged |
| RatingTable.ResubmitChangesNothing | server/routes/stores.js:96-102 | resubmitting the value a pair already has leaves the table unchanged |
| Access.RequireRole | server/routes/stores.js:8 | the caller is admitted iff their role is on the router's allow-list |
| Access.AdminRouterAdmitsOnlyAdmins | server/routes/admin.js:10 | only ADMIN passes the admin router; a USER token gets 403 |
| Access.OwnerRouterAdmitsOnlyOwners | server/routes/owner.js:8 | only OWNER passes the owner router |
| Access.StoreRouterAdmitsEveryRole | server/routes/stores.js:8 | every role may list and rate stores |
| Query.SatisfiesAllAppend | server/routes/admin.js:84-102 | appending an `AND` term conjoins its test to the accumulated ones |
| Query.NormaliseField | server/routes/stores.js:27-30 | the result is on the allow-list; an allowed request is kept, anything else becomes "name" |
| Query.AsciiUpper | server/routes/stores.js:31 | same length; each character is upper-cased |
| Query.NormaliseOrder | server/routes/stores.js:28-31 | the result is ASC or DESC, and it is DESC iff the request upper-cases to DESC |
| Query.DescendingSpellings | server/routes/admin.js:105-108 | under ASCII-only upper-casing (see the Query.AsciiUpper line under "## Left out"), DESC is chosen exactly for the sixteen case variants of "desc" |
| Query.OrderExamples | server/routes/admin.js:108 | "desc" gives DESC; "Asc", "" and "foo" give ASC |
| Relational.Filter | server/routes/admin.js:84-102 | a row is kept, with its multiplicity, iff it satisfies the condition; nothing is added |
| Relational.SortBy | server/routes/admin.js:114 | the result is a permutation of the input, ordered by the key in the requested direction |
| Relational.Select | server/routes/stores.js:33-44 | exactly the matching rows with their multiplicities, ordered by the key |
| Db.Database.constructor | server/routes/auth.js:44-49 | the database starts with empty tables, and the first id each insert returns is 1 |
| Db.Database.InsertUser | server/routes/auth.js:44-47 | appends one user row whose id is the previous counter; only the user counter advances, by one; keeps the table invariant |
| Db.Database.InsertStore | server/routes/admin.js:183-186 | appends one store row whose id is the previous counter; only the store counter advances, by one; keeps the table invariant |
| Db.Database.InsertRating | server/routes/stores.js:105-108 | appends one rating row for a pair not yet rated; only the rating counter advances, by one; keeps one rating per pair |
| Db.Database.UpdateRatingValue | server/routes/stores.js:98-101 | the ratings become the value update of the pair; users, stores and the counters are unchanged |
| Db.Database.UpdatePasswordHash | server/routes/auth.js:121-124 | the users become the hash update of the id; stores, ratings and the counters are unchanged |
| AccountRules.AccountFieldError | server/routes/auth.js:16-27 | none iff all four checks pass; otherwise the message of the first failing check, in the order name, email, address, password |
| AuthRoutes.Signup | server/routes/auth.js:11-54 | 400 with the first validation message, or 409 on a taken email, and the tables are unchanged; otherwise 201 and one new USER row with the hashed password; only the counter of the inserted row advances, by one, and only on success |
| AuthRoutes.Login | server/routes/auth.js:57-104 | 400 exactly when a field is missing; 401 "Invalid credentials" for an unknown email; for a known email, success exactly when the first row with that email accepts the password, so a wrong password is a 401; on success the token and user are those of a row with that email whose hash accepts the password |
| AuthRoutes.LoginChecksTheAccount | server/routes/auth.js:75-81 | with unique emails, login succeeds iff the password matches the one account with that email, and the token then names that account |
| AuthRoutes.UpdatePassword | server/routes/auth.js:107-131 | a weak password gives 400 and no change; otherwise only the caller's hash changes; the counters do not change |
| StoreRoutes.RatingValueAccepted | server/routes/stores.js:77-79 | accepted iff 1 <= value <= 5 |
| StoreRoutes.SubmitRating | server/routes/stores.js:71-115 | 400 for a bad value and 404 for an unknown store, with no change; otherwise the pair's value is updated ("updated") or a row is appended ("submitted"), and the pair then reads back the value; no other pair changes; the rating counter advances by one exactly when a row is appended, and the other counters never |
| StoreRoutes.StoreFilters | server/routes/stores.js:15-25 | the built conditions hold for a store iff its name and address contain the non-empty filters |
| StoreRoutes.UserStoreQuery | server/routes/stores.js:27-44 | exactly the matching stores, ordered by the normalised column (name or address) and direction |
| StoreRoutes.UserListingShowsEachStoreOnce | server/routes/stores.js:33-44 | with distinct ids, every matching store appears exactly once and nothing else appears |
| StoreRoutes.SelectUserStores | server/routes/stores.js:15-44 | the conditions and normalised ordering the handler assembles select exactly the stores of the listing |
| StoreRoutes.CollectUserRatings | server/routes/stores.js:47-55 | the map holds a store iff the caller rated it, with the caller's value for that store |
| StoreRoutes.UserRatingIn | server/routes/stores.js:60 | a rating is reported exactly when the map holds a non-zero value for the store, and it is that value; a missing entry or 0 becomes null |
| StoreRoutes.UserRatingInAgrees | server/routes/stores.js:60 | a reported rating is the caller's rating of the store; with values in 1..5 the report is exact, absent exactly when there is no rating |
| StoreRoutes.ListStores | server/routes/stores.js:10-69 | one entry per listed store, carrying its count, its exact mean and the caller's rating of it |
| AdminRoutes.Dashboard | server/routes/admin.js:13-28 | the three counts are the sizes of the users, stores and ratings tables |
| AdminRoutes.CreateUser | server/routes/admin.js:31-77 | 400 on a failed check or an unknown role, then 409 on a taken email, with no change; otherwise 201 and one new row with the requested role; the user count grows by one exactly on success; only the counter of the inserted row advances, by one, and only on success |
| AdminRoutes.UserFilters | server/routes/admin.js:84-102 | the conditions hold for a user iff name, email and address contain the non-empty filters and the role equals a non-empty role filter |
| AdminRoutes.UserQuery | server/routes/admin.js:104-117 | exactly the matching users, ordered by the normalised column (name, email, address or role) and direction |
| AdminRoutes.UserListingShowsEachUserOnce | server/routes/admin.js:110-117 | with distinct ids, every matching user appears exactly once and nothing else appears |
| AdminRoutes.RowOf | server/routes/admin.js:110-115 | a listing row carries the id, name, email, address, role and creation time of the user, and no password hash |
| AdminRoutes.RowOfForgetsOnlyTheHash | server/routes/admin.js:111 | two users give the same row exactly when they differ at most in their password hash |
| AdminRoutes.SelectUsers | server/routes/admin.js:84-117 | the conditions and normalised ordering the handler assembles select exactly the users of the listing |
| AdminRoutes.ListUsers | server/routes/admin.js:80-123 | the rows are the query's users in order, without the password hash |
| AdminRoutes.Summaries | server/routes/admin.js:143-147 | one id-name-address summary per store, in order |
| AdminRoutes.GetUser | server/routes/admin.js:126-155 | 404 iff no row has the id; otherwise that user, with a store list iff the role is OWNER, and that list is the summaries of the owned stores in table order, each owned row as often as the table holds it |
| AdminRoutes.OwnedSummaries | server/routes/admin.js:142-148 | the store list has a summary of every store the owner owns, and only those |
| AdminRoutes.StoreFieldError | server/routes/admin.js:162-170 | none iff all checks pass; otherwise the first failure in the order: a field missing, bad email, bad address |
| AdminRoutes.OwnerOrNull | server/routes/admin.js:185 | a given non-zero owner id is stored; an absent owner or 0 becomes NULL |
| AdminRoutes.CreateStore | server/routes/admin.js:158-193 | 400 on a failed check or 409 on a taken store email, with no change; otherwise 201 and one new store row; the store count grows by one exactly on success; only the counter of the inserted row advances, by one, and only on success |
| AdminRoutes.AdminStoreFilters | server/routes/admin.js:200-214 | the conditions hold for a store iff its name, email and address contain the non-empty filters |
| AdminRoutes.AdminStoreQuery | server/routes/admin.js:216-233 | exactly the matching stores, ordered by the normalised column (name, email or address) and direction |
| AdminRoutes.AdminListingShowsEachStoreOnce | server/routes/admin.js:222-231 | with distinct ids, every matching store appears exactly once and nothing else appears |
| AdminRoutes.SelectAdminStores | server/routes/admin.js:200-233 | the conditions and normalised ordering the handler assembles select exactly the stores of the listing |
| AdminRoutes.ListStoresAdmin | server/routes/admin.js:196-239 | one row per listed store, carrying its owner, its rating count and its exact mean |
| OwnerRoutes.RatersOf | server/routes/owner.js:36-43 | every row pairs the rating with a user of its `user_id`, and every such user yields a row |
| OwnerRoutes.RaterRow | server/routes/owner.js:53-58 | a rater entry shows the user's name and email, the rating value, and when the rating was made |
| OwnerRoutes.JoinRaters | server/routes/owner.js:36-43 | every row comes from a rating and its author, and every (rating, author) pair appears |
| OwnerRoutes.RatersOfKnownAuthor | server/routes/owner.js:39 | with distinct user ids, a rating whose author exists joins exactly one user |
| OwnerRoutes.JoinKeepsEveryRating | server/routes/owner.js:36-43 | when every author exists, the join has as many rows as there are ratings |
| OwnerRoutes.OwnerDashboardOf | server/routes/owner.js:11-64 | 404 iff the owner owns no store; otherwise the first owned store, the count and exact mean of its ratings, and its raters newest first |
| OwnerRoutes.RatersMatchTheStore | server/routes/owner.js:21-58 | an owner of some store gets a dashboard; the raters are exactly the (rating, author) pairs of this store; with every author present, their number equals the total count |

## Left out

- Token verification and expiry are not modelled. The authentication middleware
  lives in server/middleware/auth.js, which is not part of this model. The
  caller is an `Identity`, and the 401 for a missing or invalid token is not
  represented.
- bcrypt and jsonwebtoken are external libraries. Hashing and comparison are
  parameters, and the token is its claims. The secret, salt rounds and the
  7-day expiry are not represented.
- The 500 responses on database or runtime failures are not modelled, nor are
  JavaScript coercions of non-string request values (arrays, numbers, `null`).
- Concurrency is not modelled: each handler runs atomically against the tables.
  Two first submissions by one user for one store therefore cannot race in
  the model.
- MySQL collation is not modelled. `LIKE`, `=` on email and role, and
  `ORDER BY` on text compare code points exactly. The database's
  case-insensitive comparison is not captured, nor are `%` and `_` inside
  filter values acting as wildcards.
- AccountRules.AccountFieldError: a request without a password gets a 400 with
  the password message in the model. In the source the password check throws on
  the missing value and the handler answers 500. The same holds for
  AuthRoutes.Signup, AdminRoutes.CreateUser and AuthRoutes.UpdatePassword,
  because request fields are strings here and "missing" is the empty string.
- Query.AsciiUpper: upper-cases ASCII letters only. JavaScript's full Unicode
  upper-casing is not modelled. For instance it maps U+017F to 'S', so the
  source also sorts descending for "de\u017Fc"; Query.DescendingSpellings
  speaks of the ASCII mapping only.
- Lengths are counted in characters, not UTF-16 code units.
- Averages are exact fractions. The floating-point `AVG`, `parseFloat` and the
  `toFixed(2)` string rendering are left out.
- Where the SQL leaves row order unspecified, the model fixes it to table
  order: ties under `ORDER BY` keep table order (the sort is stable), and the
  owner's "first" store and the first user row with an email are the first in
  table order.
- Timestamps (`created_at`) are passed in as the `now` parameter of the
  inserting methods.
- StoreRoutes.SubmitRating: the rating value is an `int`. The code's guard
  also lets a non-integral number such as 3.5 through to the INSERT, which the
  model cannot express.
- AdminRoutes.CreateStore: the owner id is stored without checking that it
  names an existing OWNER user, as in `admin.js`; no contract claims more.
- server/config (the connection pool and table definitions) is not part of
  this model. The tables and their AUTO_INCREMENT counters stand in for it.
