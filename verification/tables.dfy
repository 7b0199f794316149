/**
 * The relational store as the handlers see it: one table per mapped class,
 * rows keyed by an auto-increment integer primary key.
 */
module Tables {

  /** One stored row: its primary key and the record it identifies. */
  datatype Row<T> = Row(id: int, record: T)

  /** A table: its rows by primary key and the next auto-increment value. */
  datatype Table<T> = Table(rows: map<int, T>, nextId: nat)

  /** Every key is a positive id that auto-increment has already handed out. */
  ghost predicate WellFormed<T>(t: Table<T>)
  {
    && t.nextId > 0
    && forall id :: id in t.rows ==> 0 < id < t.nextId
  }

  /** The table as `create_all` leaves it: no rows, ids starting at 1. */
  function Empty<T>(): (t: Table<T>)
    ensures WellFormed(t) && t.rows == map[]
  {
    Table(map[], 1)
  }

  /**
   * `rows` lists the table `m`: each entry is a stored row, every stored row
   * appears, and the ids ascend (so no row appears twice).
   */
  ghost predicate Lists<T>(m: map<int, T>, rows: seq<Row<T>>)
  {
    && (forall i :: 0 <= i < |rows| ==> rows[i].id in m && rows[i].record == m[rows[i].id])
    && (forall id :: id in m ==> Row(id, m[id]) in rows)
    && (forall i, j :: 0 <= i < j < |rows| ==> rows[i].id < rows[j].id)
  }

  /** The rows of `m` whose id is below `n`, in ascending id order. */
  function RowsBelow<T>(m: map<int, T>, n: nat): (rows: seq<Row<T>>)
    ensures forall i :: 0 <= i < |rows| ==> 0 <= rows[i].id < n
    ensures forall i :: 0 <= i < |rows| ==> rows[i].id in m && rows[i].record == m[rows[i].id]
    ensures forall id :: 0 <= id < n && id in m ==> Row(id, m[id]) in rows
    ensures forall i, j :: 0 <= i < j < |rows| ==> rows[i].id < rows[j].id
  {
    if n == 0 then []
    else
      var prefix := RowsBelow(m, n - 1);
      if n - 1 in m then prefix + [Row(n - 1, m[n - 1])] else prefix
  }

  /** `select(Entity)` ... `.scalars().all()`: every row of the table, by ascending id. */
  function All<T>(t: Table<T>): (rows: seq<Row<T>>)
    requires WellFormed(t)
    ensures Lists(t.rows, rows)
    ensures t.rows == map[] ==> rows == []
  {
    var rows := RowsBelow(t.rows, t.nextId);
    assert rows != [] ==> rows[0].id in t.rows;
    rows
  }

  /** Two listings of the same rows start with the same row: the one with the least id. */
  lemma ListsSameHead<T>(m: map<int, T>, a: seq<Row<T>>, b: seq<Row<T>>)
    requires Lists(m, a) && Lists(m, b) && a != []
    ensures b != [] && a[0] == b[0]
  {
  }

  /** Dropping the first row of a listing lists the table without that row. */
  lemma ListsTail<T>(m: map<int, T>, a: seq<Row<T>>)
    requires Lists(m, a) && a != []
    ensures Lists(m - {a[0].id}, a[1..])
  {
  }

  /** A listing is determined by the table: two listings of the same rows are equal. */
  lemma {:induction false} ListsUnique<T>(m: map<int, T>, a: seq<Row<T>>, b: seq<Row<T>>)
    requires Lists(m, a) && Lists(m, b)
    ensures a == b
    decreases |a|
  {
    if a == [] {
      if b != [] {
        ListsSameHead(m, b, a);
      }
    } else {
      ListsSameHead(m, a, b);
      ListsTail(m, a);
      ListsTail(m, b);
      ListsUnique(m - {a[0].id}, a[1..], b[1..]);
      assert a == [a[0]] + a[1..];
      assert b == [b[0]] + b[1..];
    }
  }

  /**
   * `db.session.add` of a new row: it receives the next auto-increment id, which
   * no current row holds, and no other row changes.
   */
  function Insert<T>(t: Table<T>, r: T): (res: (Table<T>, int))
    requires WellFormed(t)
    ensures WellFormed(res.0)
    ensures res.1 > 0 && res.1 !in t.rows
    ensures res.0.rows == t.rows[res.1 := r]
    ensures t.nextId <= res.1 < res.0.nextId
  {
    (Table(t.rows[t.nextId := r], t.nextId + 1), t.nextId)
  }

  /** Auto-increment never hands a deleted row's id to a later insert. */
  lemma DeletedIdNotReused<T>(t: Table<T>, id: int, r: T)
    requires WellFormed(t) && id in t.rows
    ensures Insert(Delete(t, id).0, r).1 != id
  {
  }

  /**
   * `delete(Entity).where(Entity.id == id)`: the row with that id is gone, and
   * the row count reported is the number of rows that disappeared.
   */
  function Delete<T>(t: Table<T>, id: int): (res: (Table<T>, nat))
    requires WellFormed(t)
    ensures WellFormed(res.0) && res.0.nextId == t.nextId
    ensures res.0.rows == t.rows - {id}
    ensures res.1 == |t.rows| - |res.0.rows|
    ensures res.1 == 0 <==> id !in t.rows
  {
    if id in t.rows then
      assert t.rows.Keys == (t.rows - {id}).Keys + {id};
      (Table(t.rows - {id}, t.nextId), 1)
    else
      assert t.rows - {id} == t.rows;
      (t, 0)
  }
}
