/**
 * The `transactions` table of the expense tracker's SQLite database:
 * its columns and constraints, the values bound to a statement's
 * parameters, and the rows a `SELECT *` reads back.
 */
module Table {

  datatype Option<T> = None | Some(value: T)

  /** The two values the CHECK constraint on the `type` column admits. */
  const Income: string := "income"
  const Expense: string := "expense"

  /** The largest rowid SQLite can issue (a signed 64-bit integer). */
  const MaxRowId: int := 0x7FFF_FFFF_FFFF_FFFF

  /**
   * The stored columns of one transaction, apart from its id.
   * `category`, `amount` and `date` are NOT NULL, `description` is nullable.
   */
  datatype Record = Record(
    kind: string,
    category: string,
    amount: real,
    date: string,
    description: Option<string>)

  /** A row as `SELECT *` returns it: the id column and the others. */
  datatype Row = Row(id: int, rec: Record)

  /**
   * The five values bound to an INSERT or UPDATE statement, in column order.
   * `None` is a JavaScript `undefined` or `null`, which the driver binds as NULL.
   */
  datatype Fields = Fields(
    kind: Option<string>,
    category: Option<string>,
    amount: Option<real>,
    date: Option<string>,
    description: Option<string>)

  /** CHECK(type IN ('income', 'expense')) */
  predicate KindAllowed(kind: string) {
    kind == Income || kind == Expense
  }

  /** What every stored row satisfies. */
  predicate WellFormed(r: Record) {
    KindAllowed(r.kind)
  }

  /** The bound values pass every column constraint: NOT NULL on four columns and the CHECK on `type`. */
  predicate Storable(f: Fields) {
    && f.kind.Some? && KindAllowed(f.kind.value)
    && f.category.Some?
    && f.amount.Some?
    && f.date.Some?
  }

  /** The record a statement writes from bound values that pass the constraints. */
  function ToRecord(f: Fields): (r: Record)
    requires Storable(f)
    ensures WellFormed(r)
  {
    Record(f.kind.value, f.category.value, f.amount.value, f.date.value, f.description)
  }

  /** The stored columns read back as the values that would write them again. */
  function ToFields(r: Record): Fields {
    Fields(Some(r.kind), Some(r.category), Some(r.amount), Some(r.date), r.description)
  }

  /** Writing bound values and reading them back gives exactly those values. */
  lemma FieldsRoundTrip(f: Fields)
    requires Storable(f)
    ensures ToFields(ToRecord(f)) == f
  {
  }

  /** A stored record read back can be written again unchanged. */
  lemma RecordRoundTrip(r: Record)
    requires WellFormed(r)
    ensures Storable(ToFields(r)) && ToRecord(ToFields(r)) == r
  {
  }

  /** The rows with ids in [lo, hi), in ascending id order (SQLite's rowid order). */
  function RowsIn(t: map<int, Record>, lo: int, hi: int): seq<Row>
    decreases hi - lo
  {
    if hi <= lo then []
    else RowsIn(t, lo, hi - 1) + (if hi - 1 in t then [Row(hi - 1, t[hi - 1])] else [])
  }

  /** The ids of the table in [lo, hi). */
  ghost function KeysIn(t: map<int, Record>, lo: int, hi: int): set<int> {
    set k | k in t && lo <= k < hi
  }

  /** A row is listed exactly when the table holds it under its id and the id is in range. */
  lemma {:induction false} RowsInContents(t: map<int, Record>, lo: int, hi: int, row: Row)
    ensures row in RowsIn(t, lo, hi) <==> lo <= row.id < hi && row.id in t && t[row.id] == row.rec
    decreases hi - lo
  {
    if hi > lo {
      RowsInContents(t, lo, hi - 1, row);
    }
  }

  /** Listed ids lie in [lo, hi) and strictly ascend, so no id is listed twice. */
  lemma {:induction false} RowsInAscending(t: map<int, Record>, lo: int, hi: int)
    ensures forall i :: 0 <= i < |RowsIn(t, lo, hi)| ==> lo <= RowsIn(t, lo, hi)[i].id < hi
    ensures forall i, j :: 0 <= i < j < |RowsIn(t, lo, hi)| ==> RowsIn(t, lo, hi)[i].id < RowsIn(t, lo, hi)[j].id
    decreases hi - lo
  {
    if hi > lo {
      RowsInAscending(t, lo, hi - 1);
    }
  }

  /** One row is listed per id in range. */
  lemma {:induction false} RowsInCount(t: map<int, Record>, lo: int, hi: int)
    ensures |RowsIn(t, lo, hi)| == |KeysIn(t, lo, hi)|
    decreases hi - lo
  {
    if hi > lo {
      RowsInCount(t, lo, hi - 1);
      if hi - 1 in t {
        assert KeysIn(t, lo, hi) == KeysIn(t, lo, hi - 1) + {hi - 1};
      } else {
        assert KeysIn(t, lo, hi) == KeysIn(t, lo, hi - 1);
      }
    }
  }

  /** The listing depends only on the entries whose ids are in range. */
  lemma {:induction false} RowsInFrame(t: map<int, Record>, u: map<int, Record>, lo: int, hi: int)
    requires forall k :: lo <= k < hi ==> (k in t <==> k in u)
    requires forall k :: lo <= k < hi && k in t ==> t[k] == u[k]
    ensures RowsIn(t, lo, hi) == RowsIn(u, lo, hi)
    decreases hi - lo
  {
    if hi > lo {
      RowsInFrame(t, u, lo, hi - 1);
    }
  }

  /** Inserting above every existing id appends exactly one row at the end of the listing. */
  lemma RowsAfterInsert(t: map<int, Record>, lo: int, n: int, r: Record)
    requires lo <= n
    requires forall k :: k in t ==> lo <= k < n
    ensures RowsIn(t[n := r], lo, n + 1) == RowsIn(t, lo, n) + [Row(n, r)]
  {
    RowsInFrame(t[n := r], t, lo, n);
  }
}
