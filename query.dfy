/**
 * The pieces the listing handlers assemble their SQL from: the `WHERE 1=1`
 * clause they extend one `AND` term at a time, and the normalisation of the
 * caller's `sort` and `order` against fixed allow-lists.
 */
module Query {
  import opened Relational
  import opened Schema

  /** One `AND` term: `column LIKE '%needle%'` or `column = value`. */
  datatype Condition<C> = Like(column: C, needle: string) | Is(column: C, value: string)

  predicate Holds<C>(c: Condition<C>, columnValue: string) {
    match c
    case Like(_, needle) => Contains(columnValue, needle)
    case Is(_, value) => columnValue == value
  }

  /** `WHERE 1=1 AND ...`: the row satisfies every accumulated term. */
  predicate SatisfiesAll<T, C>(row: T, conds: seq<Condition<C>>, field: (T, C) -> string) {
    forall i | 0 <= i < |conds| :: Holds(conds[i], field(row, conds[i].column))
  }

  /** Appending one `AND` term conjoins its test to the accumulated ones. */
  lemma SatisfiesAllAppend<T, C>(conds: seq<Condition<C>>, c: Condition<C>, field: (T, C) -> string)
    ensures forall row :: SatisfiesAll(row, conds + [c], field) <==>
      SatisfiesAll(row, conds, field) && Holds(c, field(row, c.column))
  {
    forall row ensures SatisfiesAll(row, conds + [c], field) <==>
      SatisfiesAll(row, conds, field) && Holds(c, field(row, c.column))
    {
      assert (conds + [c])[|conds|] == c;
      assert forall i | 0 <= i < |conds| :: (conds + [c])[i] == conds[i];
    }
  }

  /** The requested sort column when it is on the allow-list, otherwise "name". */
  function NormaliseField(sort: string, allowed: seq<string>): (field: string)
    requires "name" in allowed
    ensures field in allowed
    ensures sort in allowed ==> field == sort
    ensures sort !in allowed ==> field == "name"
  {
    if sort in allowed then sort else "name"
  }

  /** Upper-casing of one character, restricted to the ASCII letters. */
  function UpperChar(c: char): char {
    if 'a' <= c <= 'z' then (c as int - 32) as char else c
  }

  function AsciiUpper(s: string): (r: string)
    ensures |r| == |s|
    ensures forall i | 0 <= i < |s| :: r[i] == UpperChar(s[i])
  {
    seq(|s|, i requires 0 <= i < |s| => UpperChar(s[i]))
  }

  /** The upper-cased direction when it reads ASC or DESC, otherwise ASC. */
  function NormaliseOrder(order: string): (o: string)
    ensures o == "ASC" || o == "DESC"
    ensures o == "DESC" <==> AsciiUpper(order) == "DESC"
  {
    var upper := AsciiUpper(order);
    if upper == "ASC" || upper == "DESC" then upper else "ASC"
  }

  /** A result is listed in descending order exactly when `order` spells "desc" in any mix of cases. */
  lemma DescendingSpellings(order: string)
    ensures NormaliseOrder(order) == "DESC" <==>
      && |order| == 4
      && (order[0] == 'd' || order[0] == 'D') && (order[1] == 'e' || order[1] == 'E')
      && (order[2] == 's' || order[2] == 'S') && (order[3] == 'c' || order[3] == 'C')
  {
    var upper := AsciiUpper(order);
    if |order| == 4 {
      if upper == "DESC" {
        assert UpperChar(order[0]) == 'D' && UpperChar(order[1]) == 'E';
        assert UpperChar(order[2]) == 'S' && UpperChar(order[3]) == 'C';
      }
      if && (order[0] == 'd' || order[0] == 'D') && (order[1] == 'e' || order[1] == 'E')
         && (order[2] == 's' || order[2] == 'S') && (order[3] == 'c' || order[3] == 'C')
      {
        assert upper == "DESC";
      }
    }
  }

  lemma OrderExamples()
    ensures NormaliseOrder("desc") == "DESC" && NormaliseOrder("Asc") == "ASC"
    ensures NormaliseOrder("") == "ASC" && NormaliseOrder("foo") == "ASC"
  {
    DescendingSpellings("desc");
    assert AsciiUpper("Asc") == "ASC";
  }

  /** The store column a normalised sort field names. */
  function StoreColumnNamed(field: string): StoreColumn {
    if field == "address" then StoreAddress
    else if field == "email" then StoreEmail
    else StoreName
  }

  function StoreKey(field: string): Store -> SortKey {
    s => Text(StoreField(s, StoreColumnNamed(field)))
  }

  /** The user column a normalised sort field names. */
  function UserColumnNamed(field: string): UserColumn {
    if field == "email" then UserEmail
    else if field == "address" then UserAddress
    else if field == "role" then UserRoleColumn
    else UserName
  }

  function UserKey(field: string): User -> SortKey {
    u => Text(UserField(u, UserColumnNamed(field)))
  }
}
