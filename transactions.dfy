/**
 * The HTTP handlers of the expense tracker, each one a method on an
 * in-memory `transactions` table. The table is a map from id to record and
 * a counter that plays SQLite's AUTOINCREMENT sequence.
 */
module Transactions {
  import opened Table
  import opened Aggregate

  /** What a handler answers; the comment gives the HTTP status. */
  datatype Response =
    | Created(id: int)            // 201, {id}
    | Ok(row: Row)                // 200, the row
    | OkList(rows: seq<Row>)      // 200, every row
    | OkSummary(totals: Totals)   // 200, {totalIncome, totalExpense, balance}
    | Updated                     // 200, {message}
    | Deleted                     // 200, {message}
    | BadRequest                  // 400, 'All fields are required'
    | NotFound                    // 404, 'Transaction not found'
    | StorageError                // 500, the driver's error message

  /** JavaScript truthiness of a text field: present, not null and not "". */
  predicate TruthyText(v: Option<string>) {
    v.Some? && v.value != ""
  }

  /** JavaScript truthiness of a numeric field: present, not null and not 0. */
  predicate TruthyAmount(v: Option<real>) {
    v.Some? && v.value != 0.0
  }

  /** The create handler's guard `!type || !category || !amount || !date` is false, so the handler goes on to insert. */
  predicate HasRequiredFields(f: Fields) {
    TruthyText(f.kind) && TruthyText(f.category) && TruthyAmount(f.amount) && TruthyText(f.date)
  }

  /**
   * Past the create handler's check, storing can fail only on the type's CHECK
   * constraint; an amount of 0 passes the constraints but never that check.
   */
  lemma RequiredFieldsBeforeStorable(f: Fields)
    ensures HasRequiredFields(f) ==> (Storable(f) <==> KindAllowed(f.kind.value))
    ensures f.amount == Some(0.0) ==> !HasRequiredFields(f)
  {
  }

  class TransactionStore {
    /** The rows of the table, by id. */
    var table: map<int, Record>
    /** The id the next successful insert receives: one above the largest id ever issued. */
    var nextId: int
    /** Every id ever issued, including those of deleted rows. */
    ghost var issued: set<int>

    /** The schema's guarantees: allowed types only, ids issued below the sequence, never above the rowid range. */
    ghost predicate Valid()
      reads this
    {
      && 1 <= nextId <= MaxRowId + 1
      && (forall id :: id in issued ==> 1 <= id < nextId)
      && table.Keys <= issued
      && (forall id :: id in table ==> WellFormed(table[id]))
    }

    /** The table as `SELECT * FROM transactions` reads it. */
    function Rows(): seq<Row>
      reads this
    {
      RowsIn(table, 1, nextId)
    }

    /** A freshly created, empty table. */
    constructor ()
      ensures Valid()
      ensures table == map[] && nextId == 1 && issued == {}
    {
      table := map[];
      nextId := 1;
      issued := {};
    }

    /** POST /transactions */
    method Create(body: Fields) returns (r: Response)
      requires Valid()
      modifies this
      ensures Valid()
      ensures !HasRequiredFields(body) ==> r == BadRequest
      ensures HasRequiredFields(body) && !Storable(body) ==> r == StorageError
      ensures HasRequiredFields(body) && Storable(body) ==>
        r == if old(nextId) <= MaxRowId then Created(old(nextId)) else StorageError
      ensures r.Created? ==>
        && r.id !in old(table)
        && (forall j :: j in old(issued) ==> j < r.id)
        && table == old(table)[r.id := ToRecord(body)]
        && ToFields(table[r.id]) == body
        && |table| == |old(table)| + 1
        && Rows() == old(Rows()) + [Row(r.id, table[r.id])]
        && nextId == r.id + 1
        && issued == old(issued) + {r.id}
      ensures !r.Created? ==> table == old(table) && nextId == old(nextId) && issued == old(issued)
    {
      if !HasRequiredFields(body) {
        return BadRequest;
      }
      if !Storable(body) || nextId > MaxRowId {
        return StorageError;
      }
      var id := nextId;
      var rec := ToRecord(body);
      RowsAfterInsert(table, 1, id, rec);
      table := table[id := rec];
      nextId := id + 1;
      issued := issued + {id};
      r := Created(id);
    }

    /** GET /transactions */
    method List() returns (r: Response)
      requires Valid()
      ensures r.OkList?
      ensures r.rows == Rows()
      ensures forall row :: row in r.rows <==> row.id in table && table[row.id] == row.rec
      ensures forall i, j :: 0 <= i < j < |r.rows| ==> r.rows[i].id < r.rows[j].id
      ensures |r.rows| == |table|
    {
      var rows := RowsIn(table, 1, nextId);
      forall row | true
        ensures row in rows <==> row.id in table && table[row.id] == row.rec
      {
        RowsInContents(table, 1, nextId, row);
      }
      RowsInAscending(table, 1, nextId);
      RowsInCount(table, 1, nextId);
      assert KeysIn(table, 1, nextId) == table.Keys;
      r := OkList(rows);
    }

    /** GET /transactions/:id */
    method Get(id: int) returns (r: Response)
      ensures r == NotFound <==> id !in table
      ensures id in table ==> r == Ok(Row(id, table[id]))
    {
      if id in table {
        r := Ok(Row(id, table[id]));
      } else {
        r := NotFound;
      }
    }

    /**
     * PUT /transactions/:id. Nothing is validated here: an absent field is
     * bound as NULL, and a NOT NULL or CHECK violation becomes a StorageError.
     * With no row under the id nothing is written, so no constraint fires.
     */
    method Update(id: int, body: Fields) returns (r: Response)
      requires Valid()
      modifies this
      ensures Valid()
      ensures id !in old(table) ==> r == NotFound
      ensures id in old(table) && !Storable(body) ==> r == StorageError
      ensures id in old(table) && Storable(body) ==> r == Updated
      ensures r == Updated ==> table == old(table)[id := ToRecord(body)] && ToFields(table[id]) == body
      ensures r != Updated ==> table == old(table)
      ensures table.Keys == old(table).Keys
      ensures nextId == old(nextId) && issued == old(issued)
    {
      if id !in table {
        return NotFound;
      }
      if !Storable(body) {
        return StorageError;
      }
      table := table[id := ToRecord(body)];
      r := Updated;
    }

    /** DELETE /transactions/:id */
    method Delete(id: int) returns (r: Response)
      requires Valid()
      modifies this
      ensures Valid()
      ensures r == NotFound <==> id !in old(table)
      ensures r == Deleted <==> id in old(table)
      ensures table == old(table) - {id}
      ensures |table| == if r == Deleted then |old(table)| - 1 else |old(table)|
      ensures nextId == old(nextId) && issued == old(issued)
    {
      if id !in table {
        assert table - {id} == table;
        return NotFound;
      }
      table := table - {id};
      r := Deleted;
    }

    /**
     * GET /summary: the grouped query, then the loop over its groups. `x || 0`
     * is `x` for every number (NaN aside), so the answer carries the
     * variables as they are.
     */
    method Summary() returns (r: Response)
      requires Valid()
      ensures r == OkSummary(Summarize(Rows()))
    {
      var rows := RowsIn(table, 1, nextId);
      var income, expense := AssignGroupTotals(GroupByType(rows));
      GroupTotalIsSum(rows, Income);
      GroupTotalIsSum(rows, Expense);
      r := OkSummary(Totals(income, expense, income - expense));
    }
  }

  /**
   * The summary handler's `forEach`: starting from 0, each group's total is
   * assigned to `income` or `expense` according to its type, and groups of
   * any other type are skipped.
   */
  method AssignGroupTotals(groups: seq<Group>) returns (income: real, expense: real)
    ensures income == LastTotal(groups, Income)
    ensures expense == LastTotal(groups, Expense)
  {
    income, expense := 0.0, 0.0;
    var i := 0;
    while i < |groups|
      invariant 0 <= i <= |groups|
      invariant income == LastTotal(groups[..i], Income)
      invariant expense == LastTotal(groups[..i], Expense)
    {
      assert groups[..i + 1][..i] == groups[..i];
      if groups[i].kind == Income {
        income := groups[i].total;
      } else if groups[i].kind == Expense {
        expense := groups[i].total;
      }
      i := i + 1;
    }
    assert groups[..i] == groups;
  }
}
