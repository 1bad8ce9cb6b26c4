/** The database as an immutable value: one table per entity. Tables hand out serial
    primary keys, and listing a table or a relation yields rows in ascending key order. */
module Store {
  import opened Wrappers
  import opened UserEntity
  import opened OrderEntity
  import opened Schema
  import opened Variants

  /** A row together with its primary key. */
  datatype Row<V> = Row(id: int, val: V)

  datatype RawTable<V> = RawTable(rows: map<int, V>, next: int)

  /** A table whose keys were all handed out by its serial counter, starting at 1. */
  type Table<V> = t: RawTable<V> | 0 < t.next && forall k :: k in t.rows ==> 0 < k < t.next
    witness RawTable(map[], 1)

  datatype Store = Store(
    users: Table<User>,
    restaurants: Table<Restaurant>,
    categories: Table<Category>,
    dishes: Table<Dish>,
    reviews: Table<DishReview>,
    orders: Table<Order>)

  /** `findOne(id)`: the row stored under `id`, if any. */
  function Find<V>(t: Table<V>, id: int): (r: Option<Row<V>>)
    ensures r.Some? <==> id in t.rows
    ensures r.Some? ==> r.value == Row(id, t.rows[id])
  {
    if id in t.rows then Some(Row(id, t.rows[id])) else None
  }

  /** Loads a relation: an absent reference, or one to a row that is gone, loads as nothing. */
  function Resolve<V>(t: Table<V>, ref: Option<int>): (r: Option<Row<V>>)
    ensures r.Some? <==> ref.Some? && ref.value in t.rows
    ensures r.Some? ==> r.value == Row(ref.value, t.rows[ref.value])
  {
    match ref
    case None => None
    case Some(id) => Find(t, id)
  }

  /** The row with the lowest key, if the table has any: what a query with no condition loads
      first, taking the database's scan order to be key order. */
  function First<V>(t: Table<V>): (r: Option<Row<V>>)
    ensures r.Some? <==> exists k :: k in t.rows
    ensures r.Some? ==> r.value.id in t.rows && r.value.val == t.rows[r.value.id]
    ensures r.Some? ==> forall k :: k in t.rows ==> r.value.id <= k
  {
    var ks := Keys(t);
    if |ks| == 0 then None
    else
      assert ks[0] in ks;
      assert forall k :: k in t.rows ==> ks[0] <= k by {
        forall k | k in t.rows
          ensures ks[0] <= k
        {
          var i :| 0 <= i < |ks| && ks[i] == k;
        }
      }
      Some(Row(ks[0], t.rows[ks[0]]))
  }

  /** `findOneOrFail(id)` with an id read from a token's claims, which may be missing. As written,
      a missing claim is `undefined`, and TypeORM 0.2 then puts no condition on the query at all
      and loads the first row; corrected, a missing claim finds nothing. */
  function Load<V>(v: Variant, t: Table<V>, id: Option<int>): (r: Option<Row<V>>)
    ensures id.Some? ==> r == Find(t, id.value)
    ensures id.None? && v == AsWritten ==> r == First(t)
    ensures id.None? && v == Corrected ==> r.None?
  {
    match id
    case Some(k) => Find(t, k)
    case None => if v == AsWritten then First(t) else None
  }

  /** The key of a row that may be absent: what a relation to it is saved as. */
  function KeyOf<V>(r: Option<Row<V>>): (k: Option<int>)
    ensures k.Some? <==> r.Some?
    ensures k.Some? ==> k.value == r.value.id
  {
    match r
    case Some(row) => Some(row.id)
    case None => None
  }

  /** `save` of a new row: it is stored under the next serial key. */
  function Insert<V>(t: Table<V>, v: V): (r: Table<V>)
    ensures t.next !in t.rows
    ensures r.rows == t.rows[t.next := v] && r.next == t.next + 1
  {
    RawTable(t.rows[t.next := v], t.next + 1)
  }

  /** `save` of an existing row. */
  function Put<V>(t: Table<V>, id: int, v: V): (r: Table<V>)
    requires id in t.rows
    ensures r.rows == t.rows[id := v] && r.next == t.next
  {
    RawTable(t.rows[id := v], t.next)
  }

  /** `delete(id)` / `remove`: the key is never handed out again. */
  function Delete<V>(t: Table<V>, id: int): (r: Table<V>)
    ensures r.rows == t.rows - {id} && r.next == t.next
  {
    RawTable(t.rows - {id}, t.next)
  }

  predicate Ascending(ks: seq<int>)
  {
    forall i, j :: 0 <= i < j < |ks| ==> ks[i] < ks[j]
  }

  predicate AscendingIds<V>(rs: seq<Row<V>>)
  {
    forall i, j :: 0 <= i < j < |rs| ==> rs[i].id < rs[j].id
  }

  /** The keys of `t` from `from` upwards, in ascending order. */
  function KeysFrom<V>(t: Table<V>, from: int): (ks: seq<int>)
    requires 0 < from
    ensures Ascending(ks)
    ensures forall k :: k in ks <==> k in t.rows && from <= k
    decreases t.next - from
  {
    if t.next <= from then []
    else if from in t.rows then [from] + KeysFrom(t, from + 1)
    else KeysFrom(t, from + 1)
  }

  /** Every key of `t`, in ascending order. */
  function Keys<V>(t: Table<V>): (ks: seq<int>)
    ensures Ascending(ks)
    ensures forall k :: k in ks <==> k in t.rows
  {
    KeysFrom(t, 1)
  }

  /** The rows under the keys `ks` that satisfy `p`, in the order of `ks`. */
  function Filter<V(!new)>(t: Table<V>, ks: seq<int>, p: Row<V> -> bool): (rs: seq<Row<V>>)
    requires forall k :: k in ks ==> k in t.rows
    ensures forall r :: r in rs <==> r.id in ks && r.id in t.rows && r.val == t.rows[r.id] && p(r)
    ensures |rs| <= |ks|
  {
    if |ks| == 0 then []
    else
      var k := ks[0];
      assert k in ks;
      var r := Row(k, t.rows[k]);
      var rest := Filter(t, ks[1..], p);
      assert forall j :: j in ks <==> j == k || j in ks[1..];
      if p(r) then [r] + rest else rest
  }

  /** Filtering keeps the order of the keys: ascending keys give rows in ascending key order. */
  lemma {:induction false} FilterAscending<V(!new)>(t: Table<V>, ks: seq<int>, p: Row<V> -> bool)
    requires forall k :: k in ks ==> k in t.rows
    requires Ascending(ks)
    ensures AscendingIds(Filter(t, ks, p))
  {
    if |ks| > 0 {
      assert ks[0] in ks;
      var rest := Filter(t, ks[1..], p);
      FilterAscending(t, ks[1..], p);
      AscendingTail(ks);
      var r := Row(ks[0], t.rows[ks[0]]);
      if p(r) {
        AscendingCons(r, rest);
      }
    }
  }

  /** The first of ascending keys is below all the others. */
  lemma AscendingTail(ks: seq<int>)
    requires Ascending(ks) && |ks| > 0
    ensures Ascending(ks[1..])
    ensures forall j :: j in ks[1..] ==> ks[0] < j
  {
    forall j | j in ks[1..]
      ensures ks[0] < j
    {
      var m :| 0 <= m < |ks[1..]| && ks[1..][m] == j;
      assert ks[m + 1] == j;
    }
  }

  /** A row below every row of an ascending list can go in front of it. */
  lemma AscendingCons<V>(r: Row<V>, rest: seq<Row<V>>)
    requires AscendingIds(rest)
    requires forall x :: x in rest ==> r.id < x.id
    ensures AscendingIds([r] + rest)
  {
    assert forall i :: 0 <= i < |rest| ==> rest[i] in rest;
  }

  /** A query with a condition: every row of `t` satisfying `p`, in ascending key order. */
  function Where<V(!new)>(t: Table<V>, p: Row<V> -> bool): (rs: seq<Row<V>>)
    ensures forall r :: r in rs <==> r.id in t.rows && r.val == t.rows[r.id] && p(r)
    ensures AscendingIds(rs)
  {
    FilterAscending(t, Keys(t), p);
    Filter(t, Keys(t), p)
  }

  /** Filtering with two conditions that agree on every row considered gives the same rows. */
  lemma {:induction false} FilterCongruent<V(!new)>(t: Table<V>, ks: seq<int>, p: Row<V> -> bool, q: Row<V> -> bool)
    requires forall k :: k in ks ==> k in t.rows
    requires forall k :: k in ks ==> p(Row(k, t.rows[k])) == q(Row(k, t.rows[k]))
    ensures Filter(t, ks, p) == Filter(t, ks, q)
  {
    if |ks| > 0 {
      FilterCongruent(t, ks[1..], p, q);
    }
  }

  /** A condition no considered row meets selects nothing. */
  lemma {:induction false} FilterNone<V(!new)>(t: Table<V>, ks: seq<int>, p: Row<V> -> bool)
    requires forall k :: k in ks ==> k in t.rows && !p(Row(k, t.rows[k]))
    ensures Filter(t, ks, p) == []
  {
    if |ks| > 0 {
      FilterNone(t, ks[1..], p);
    }
  }

  /** A new row's key is the largest: it is listed after every existing key. */
  lemma {:induction false} KeysFromInsert<V>(t: Table<V>, v: V, from: int)
    requires 0 < from <= t.next
    ensures KeysFrom(Insert(t, v), from) == KeysFrom(t, from) + [t.next]
    decreases t.next - from
  {
    if from < t.next {
      KeysFromInsert(t, v, from + 1);
    }
  }

  /** Filtering one more key at the end appends that row, if it qualifies. */
  lemma {:induction false} FilterSnoc<V(!new)>(t: Table<V>, ks: seq<int>, k: int, p: Row<V> -> bool)
    requires forall j :: j in ks ==> j in t.rows
    requires k in t.rows
    ensures Filter(t, ks + [k], p) == Filter(t, ks, p) + (if p(Row(k, t.rows[k])) then [Row(k, t.rows[k])] else [])
  {
    if |ks| > 0 {
      assert (ks + [k])[1..] == ks[1..] + [k];
      FilterSnoc(t, ks[1..], k, p);
    }
  }

  /** Filtering keys on which two tables agree gives the same rows from either. */
  lemma {:induction false} FilterAgree<V(!new)>(t: Table<V>, u: Table<V>, ks: seq<int>, p: Row<V> -> bool)
    requires forall k :: k in ks ==> k in t.rows && k in u.rows && t.rows[k] == u.rows[k]
    ensures Filter(t, ks, p) == Filter(u, ks, p)
  {
    if |ks| > 0 {
      FilterAgree(t, u, ks[1..], p);
    }
  }

  /** After `save` of a new row, a query lists what it listed before, then the new row if it
      qualifies. */
  lemma WhereInsert<V(!new)>(t: Table<V>, v: V, p: Row<V> -> bool)
    ensures Where(Insert(t, v), p) == Where(t, p) + (if p(Row(t.next, v)) then [Row(t.next, v)] else [])
  {
    var u := Insert(t, v);
    KeysFromInsert(t, v, 1);
    FilterSnoc(u, Keys(t), t.next, p);
    FilterAgree(t, u, Keys(t), p);
  }
}
