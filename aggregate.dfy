/**
 * The summary of `GET /summary`: `SUM(amount) ... GROUP BY type` over the
 * table, then the totals of the income and expense groups and their difference.
 */
module Aggregate {
  import opened Table

  datatype Totals = Totals(totalIncome: real, totalExpense: real, balance: real)

  /** One row of the grouped query: a type and the sum of its amounts. */
  datatype Group = Group(kind: string, total: real)

  /** The sum of the amounts of the rows of the given type; 0 when there are none. */
  function SumOf(rows: seq<Row>, kind: string): real {
    if rows == [] then 0.0
    else
      var last := rows[|rows| - 1];
      SumOf(rows[..|rows| - 1], kind) + (if last.rec.kind == kind then last.rec.amount else 0.0)
  }

  predicate HasKind(rows: seq<Row>, kind: string) {
    exists i :: 0 <= i < |rows| && rows[i].rec.kind == kind
  }

  /**
   * The grouped query: one group per type present, each carrying the sum of
   * its amounts. In a table that keeps its CHECK constraint the two allowed
   * types are the only ones present. SQLite promises no order of the groups;
   * this lists them in ascending order of the type, and since each type
   * appears at most once the order does not affect the totals the handler reads.
   */
  function GroupByType(rows: seq<Row>): (g: seq<Group>)
    ensures |g| <= 2
    ensures forall i :: 0 <= i < |g| ==> HasKind(rows, g[i].kind) && KindAllowed(g[i].kind)
    ensures forall i :: 0 <= i < |g| ==> g[i].total == SumOf(rows, g[i].kind)
    ensures forall i, j :: 0 <= i < j < |g| ==> g[i].kind != g[j].kind
    ensures forall k :: KindAllowed(k) && HasKind(rows, k) ==> Group(k, SumOf(rows, k)) in g
  {
    (if HasKind(rows, Expense) then [Group(Expense, SumOf(rows, Expense))] else []) +
    (if HasKind(rows, Income) then [Group(Income, SumOf(rows, Income))] else [])
  }

  /**
   * The value a variable holds after the `forEach` over `groups` assigns it
   * the total of every group of the given type: the last such total, else 0.
   */
  function LastTotal(groups: seq<Group>, kind: string): real {
    if groups == [] then 0.0
    else if groups[|groups| - 1].kind == kind then groups[|groups| - 1].total
    else LastTotal(groups[..|groups| - 1], kind)
  }

  /** The summary the handler answers with, from the sums of the two types. */
  function Summarize(rows: seq<Row>): Totals {
    var income := SumOf(rows, Income);
    var expense := SumOf(rows, Expense);
    Totals(income, expense, income - expense)
  }

  /** A type no row has sums to 0. */
  lemma {:induction false} SumOfAbsent(rows: seq<Row>, kind: string)
    requires !HasKind(rows, kind)
    ensures SumOf(rows, kind) == 0.0
  {
    if rows != [] {
      var init := rows[..|rows| - 1];
      assert !HasKind(init, kind) by {
        forall i | 0 <= i < |init| ensures init[i].rec.kind != kind {
          assert init[i] == rows[i];
        }
      }
      SumOfAbsent(init, kind);
    }
  }

  /** Sums split over concatenation. */
  lemma {:induction false} SumOfConcat(a: seq<Row>, b: seq<Row>, kind: string)
    ensures SumOf(a + b, kind) == SumOf(a, kind) + SumOf(b, kind)
    decreases |b|
  {
    if b == [] {
      assert a + b == a;
    } else {
      var init := b[..|b| - 1];
      assert (a + b)[..|a + b| - 1] == a + init;
      assert (a + b)[|a + b| - 1] == b[|b| - 1];
      SumOfConcat(a, init, kind);
    }
  }

  /** The variable the loop assigns for an allowed type ends up holding that type's sum. */
  lemma GroupTotalIsSum(rows: seq<Row>, kind: string)
    requires KindAllowed(kind)
    ensures LastTotal(GroupByType(rows), kind) == SumOf(rows, kind)
  {
    var e := if HasKind(rows, Expense) then [Group(Expense, SumOf(rows, Expense))] else [];
    var i := if HasKind(rows, Income) then [Group(Income, SumOf(rows, Income))] else [];
    assert GroupByType(rows) == e + i;
    if !HasKind(rows, kind) {
      SumOfAbsent(rows, kind);
    }
    if i != [] {
      assert (e + i)[..|e + i| - 1] == e;
    }
  }

  /** An empty table sums to zero on every total. */
  lemma SummarizeEmpty()
    ensures Summarize([]) == Totals(0.0, 0.0, 0.0)
  {
  }

  /** A new row adds its amount to the total of its own type and leaves the other total alone. */
  lemma SummarizeAppend(rows: seq<Row>, row: Row)
    ensures row.rec.kind == Income ==>
      Summarize(rows + [row]) == Totals(Summarize(rows).totalIncome + row.rec.amount,
                                        Summarize(rows).totalExpense,
                                        Summarize(rows).balance + row.rec.amount)
    ensures row.rec.kind == Expense ==>
      Summarize(rows + [row]) == Totals(Summarize(rows).totalIncome,
                                        Summarize(rows).totalExpense + row.rec.amount,
                                        Summarize(rows).balance - row.rec.amount)
  {
  }

  /** The share of one id's record in a type's sum over [lo, hi). */
  function Share(t: map<int, Record>, id: int, lo: int, hi: int, kind: string): real {
    if id in t && lo <= id < hi && t[id].kind == kind then t[id].amount else 0.0
  }

  /** Removing one id takes exactly its own share out of each type's sum. */
  lemma {:induction false} SumWithout(t: map<int, Record>, id: int, lo: int, hi: int, kind: string)
    ensures SumOf(RowsIn(t, lo, hi), kind) == SumOf(RowsIn(t - {id}, lo, hi), kind) + Share(t, id, lo, hi, kind)
    decreases hi - lo
  {
    if hi > lo {
      var u := t - {id};
      var tail := if hi - 1 in t then [Row(hi - 1, t[hi - 1])] else [];
      var utail := if hi - 1 in u then [Row(hi - 1, u[hi - 1])] else [];
      SumWithout(t, id, lo, hi - 1, kind);
      SumOfConcat(RowsIn(t, lo, hi - 1), tail, kind);
      SumOfConcat(RowsIn(u, lo, hi - 1), utail, kind);
      assert tail != [] ==> tail[..0] == [];
      assert utail != [] ==> utail[..0] == [];
    }
  }

  /** Deleting a record takes its amount out of its type's total and out of the balance accordingly. */
  lemma SummarizeAfterDelete(t: map<int, Record>, id: int, lo: int, hi: int)
    requires id in t && lo <= id < hi
    ensures t[id].kind == Income ==>
      Summarize(RowsIn(t - {id}, lo, hi)) ==
        Totals(Summarize(RowsIn(t, lo, hi)).totalIncome - t[id].amount,
               Summarize(RowsIn(t, lo, hi)).totalExpense,
               Summarize(RowsIn(t, lo, hi)).balance - t[id].amount)
    ensures t[id].kind == Expense ==>
      Summarize(RowsIn(t - {id}, lo, hi)) ==
        Totals(Summarize(RowsIn(t, lo, hi)).totalIncome,
               Summarize(RowsIn(t, lo, hi)).totalExpense - t[id].amount,
               Summarize(RowsIn(t, lo, hi)).balance + t[id].amount)
  {
    SumWithout(t, id, lo, hi, Income);
    SumWithout(t, id, lo, hi, Expense);
  }

  /**
   * Updating a record moves the summary by exactly the difference between the
   * old and the new record's contributions.
   */
  lemma SummarizeAfterUpdate(t: map<int, Record>, id: int, r: Record, lo: int, hi: int, kind: string)
    requires id in t && lo <= id < hi
    ensures SumOf(RowsIn(t[id := r], lo, hi), kind) ==
      SumOf(RowsIn(t, lo, hi), kind)
        - (if t[id].kind == kind then t[id].amount else 0.0)
        + (if r.kind == kind then r.amount else 0.0)
  {
    var u := t[id := r];
    assert u - {id} == t - {id};
    SumWithout(t, id, lo, hi, kind);
    SumWithout(u, id, lo, hi, kind);
  }
}
