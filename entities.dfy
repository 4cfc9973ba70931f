/** Entities (anything with an integer Id), the tags that stand for their CLR
    types, and the two queries the store answers over a set of rows: lookup by
    Id and filtering by a predicate. */
module Entities {
  import opened Wrappers

  /** The key under which the source files an entity type (`typeof(T)`). */
  type TypeTag = string

  /** An entity: an object with an integer identity. Two entities with the same
      Id are still two objects. */
  class Entity {
    const Id: int

    constructor (id: int)
      ensures Id == id
    {
      Id := id;
    }
  }

  /** The predicate `x => x.Id == id`. */
  function HasId(id: int): Entity -> bool
  {
    (e: Entity) => e.Id == id
  }

  /** No two rows of the set share an Id. */
  ghost predicate UniqueIds(rows: seq<Entity>)
  {
    forall i, j :: 0 <= i < j < |rows| ==> rows[i].Id != rows[j].Id
  }

  /** The set's lookup by Id (DbSet.Find): a row with that Id, or null when there is none. */
  function FindById(rows: seq<Entity>, id: int): (found: Entity?)
    ensures found != null ==> found in rows && found.Id == id
    ensures found == null <==> forall i :: 0 <= i < |rows| ==> rows[i].Id != id
  {
    if |rows| == 0 then null
    else if rows[0].Id == id then rows[0]
    else FindById(rows[1..], id)
  }

  /** The rows that satisfy a predicate, in their order (Queryable.Where). */
  function Filter(rows: seq<Entity>, p: Entity -> bool): (r: seq<Entity>)
    ensures |r| <= |rows|
    ensures forall i :: 0 <= i < |r| ==> r[i] in rows && p(r[i])
    ensures forall i :: 0 <= i < |rows| && p(rows[i]) ==> rows[i] in r
    ensures (forall i :: 0 <= i < |rows| ==> p(rows[i])) ==> r == rows
  {
    if |rows| == 0 then []
    else if p(rows[0]) then [rows[0]] + Filter(rows[1..], p)
    else Filter(rows[1..], p)
  }

  /** A query over a set of rows with an optional filter: the whole set when
      the filter is null, otherwise exactly the rows it accepts, in order. */
  function Query(rows: seq<Entity>, filter: Option<Entity -> bool>): (r: seq<Entity>)
    ensures filter.None? ==> r == rows
    ensures filter.Some? ==> |r| <= |rows|
    ensures filter.Some? ==> forall i :: 0 <= i < |r| ==> r[i] in rows && filter.value(r[i])
    ensures filter.Some? ==> forall i :: 0 <= i < |rows| && filter.value(rows[i]) ==> rows[i] in r
  {
    if filter.None? then rows else Filter(rows, filter.value)
  }

  /** Filtering keeps the rows' order: a row appended to the set is appended
      to the result exactly when the predicate accepts it. */
  lemma {:induction false} FilterAppend(rows: seq<Entity>, x: Entity, p: Entity -> bool)
    ensures Filter(rows + [x], p) == Filter(rows, p) + (if p(x) then [x] else [])
  {
    if |rows| == 0 {
      assert rows + [x] == [x];
    } else {
      assert (rows + [x])[1..] == rows[1..] + [x];
      FilterAppend(rows[1..], x, p);
    }
  }

  /** Filtering keeps nothing when no row satisfies the predicate. */
  lemma {:induction false} FilterNone(rows: seq<Entity>, p: Entity -> bool)
    requires forall i :: 0 <= i < |rows| ==> !p(rows[i])
    ensures Filter(rows, p) == []
  {
    if |rows| > 0 {
      FilterNone(rows[1..], p);
    }
  }

  /** Lookup by Id returns the first row that filtering by that Id keeps. */
  lemma {:induction false} FindIsFirstMatch(rows: seq<Entity>, id: int)
    ensures var m := Filter(rows, HasId(id));
            FindById(rows, id) == if m == [] then null else m[0]
  {
    if |rows| > 0 && rows[0].Id != id {
      FindIsFirstMatch(rows[1..], id);
    }
  }

  /** When Ids are unique, looking up a row's Id returns that very row. */
  lemma {:induction false} FindUniqueId(rows: seq<Entity>, e: Entity)
    requires UniqueIds(rows)
    requires e in rows
    ensures FindById(rows, e.Id) == e
  {
  }

  /** When Ids are unique, filtering by a row's Id yields exactly that row. */
  lemma {:induction false} FilterUniqueId(rows: seq<Entity>, e: Entity)
    requires UniqueIds(rows)
    requires e in rows
    ensures Filter(rows, HasId(e.Id)) == [e]
  {
    var k :| 0 <= k < |rows| && rows[k] == e;
    if k == 0 {
      assert forall x :: x in rows[1..] ==> x.Id != e.Id by {
        forall x | x in rows[1..] ensures x.Id != e.Id {
          var j :| 0 <= j < |rows[1..]| && rows[1..][j] == x;
          assert rows[j + 1] == x;
        }
      }
      var rest := Filter(rows[1..], HasId(e.Id));
      FilterNone(rows[1..], HasId(e.Id));
      assert Filter(rows, HasId(e.Id)) == [rows[0]] + rest;
    } else {
      assert rows[0].Id != e.Id;
      assert e == rows[1..][k - 1];
      assert UniqueIds(rows[1..]) by {
        forall i, j | 0 <= i < j < |rows| - 1
          ensures rows[1..][i].Id != rows[1..][j].Id
        {
          assert rows[1..][i] == rows[i + 1] && rows[1..][j] == rows[j + 1];
        }
      }
      FilterUniqueId(rows[1..], e);
    }
  }
}
