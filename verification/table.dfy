/**
 * One relational table with a `serial` primary key, abstracted as a map from
 * id to row contents plus the next value of the id sequence.
 */
module Table {
  import opened Wrappers

  /** A stored row: its serial id and its other columns. */
  datatype Row<T> = Row(id: int, data: T)

  datatype Table<T> = Table(rows: map<int, T>, next: int)

  /** A fresh table: no rows, the sequence starts at 1. */
  function Empty<T>(): (t: Table<T>)
    ensures Valid(t) && t.rows == map[]
  {
    Table(map[], 1)
  }

  /** Every stored id was handed out by the sequence: ids are at least 1 and below `next`. */
  predicate Valid<T>(t: Table<T>)
  {
    t.next >= 1 && forall id | id in t.rows :: 1 <= id < t.next
  }

  /** `insert ... returning`: the row is stored under the next serial id and returned. */
  function Insert<T>(t: Table<T>, v: T): (res: (Table<T>, Row<T>))
    ensures res.1.data == v
    ensures res.0.rows == t.rows[res.1.id := v]
    ensures Valid(t) ==> Valid(res.0) && res.1.id !in t.rows
  {
    (Table(t.rows[t.next := v], t.next + 1), Row(t.next, v))
  }

  /** `select ... where id = ?`, first row or `undefined`. */
  function Get<T>(t: Table<T>, id: int): (r: Option<Row<T>>)
    ensures r.Some? <==> id in t.rows
    ensures r.Some? ==> r.value == Row(id, t.rows[id])
  {
    if id in t.rows then Some(Row(id, t.rows[id])) else None
  }

  /** `delete ... where id = ?`: removes that row if present, nothing otherwise. */
  function Delete<T>(t: Table<T>, id: int): (t': Table<T>)
    ensures id !in t'.rows
    ensures forall k | k in t.rows && k != id :: k in t'.rows && t'.rows[k] == t.rows[k]
    ensures forall k | k in t'.rows :: k in t.rows
    ensures t'.next == t.next
    ensures Valid(t) ==> Valid(t')
  {
    Table(t.rows - {id}, t.next)
  }

  /** The rows whose ids lie in `[lo, hi)`, in ascending id order. */
  function RowsBetween<T>(rows: map<int, T>, lo: int, hi: int): (r: seq<Row<T>>)
    ensures forall x | x in r :: lo <= x.id < hi && x.id in rows && rows[x.id] == x.data
    ensures forall id | lo <= id < hi && id in rows :: Row(id, rows[id]) in r
    ensures forall i, j | 0 <= i < j < |r| :: r[i].id < r[j].id
    decreases hi - lo
  {
    if lo >= hi then []
    else (if lo in rows then [Row(lo, rows[lo])] else []) + RowsBetween(rows, lo + 1, hi)
  }

  /** `select * from table`: every row, each once, in ascending id order. */
  function All<T>(t: Table<T>): seq<Row<T>>
  {
    RowsBetween(t.rows, 1, t.next)
  }

  /** Listing a valid table returns exactly its rows. */
  lemma AllIsRows<T>(t: Table<T>)
    requires Valid(t)
    ensures forall x :: x in All(t) <==> x.id in t.rows && t.rows[x.id] == x.data
  {
  }

  /** After an insert, the next listing shows the returned row and every earlier row. */
  lemma InsertThenAll<T>(t: Table<T>, v: T)
    requires Valid(t)
    ensures var (t', row) := Insert(t, v);
      && row in All(t')
      && (forall x | x in All(t) :: x in All(t'))
      && (forall x | x in All(t') :: x in All(t) || x == row)
  {
    var (t', row) := Insert(t, v);
    AllIsRows(t);
    AllIsRows(t');
    forall x | x in All(t) ensures x in All(t') {
      assert x.id in t.rows && x.id != row.id;
    }
    forall x | x in All(t') ensures x in All(t) || x == row {
      if x.id != row.id {
        assert t'.rows[x.id] == t.rows[x.id];
      }
    }
  }

  /** After a delete, the listing is the old listing without the row of that id. */
  lemma DeleteThenAll<T>(t: Table<T>, id: int)
    requires Valid(t)
    ensures forall x :: x in All(Delete(t, id)) <==> x in All(t) && x.id != id
  {
    AllIsRows(t);
    AllIsRows(Delete(t, id));
  }

  /** Deleting an id that is not stored changes nothing. */
  lemma DeleteAbsent<T>(t: Table<T>, id: int)
    requires id !in t.rows
    ensures Delete(t, id) == t
  {
    assert t.rows - {id} == t.rows;
  }
}
