/**
 * Request sequences against a fresh table, with the answers the handlers
 * give to them.
 */
module Scenarios {
  import opened Table
  import opened Aggregate
  import opened Transactions

  function Salary(): Fields {
    Fields(Some(Income), Some("salary"), Some(1000.0), Some("2024-01-01"), None)
  }

  function Rent(): Fields {
    Fields(Some(Expense), Some("rent"), Some(400.0), Some("2024-01-02"), None)
  }

  /** The salary row followed by the rent row summarise to 1000, 400 and 600. */
  lemma SalaryAndRentTotals()
    ensures Summarize([Row(1, ToRecord(Salary())), Row(2, ToRecord(Rent()))]) == Totals(1000.0, 400.0, 600.0)
  {
    var salary := Row(1, ToRecord(Salary()));
    var rent := Row(2, ToRecord(Rent()));
    SummarizeAppend([], salary);
    assert [] + [salary] == [salary];
    SummarizeAppend([salary], rent);
    assert [salary] + [rent] == [salary, rent];
  }

  /** Income 1000 and expense 400 summarise to a balance of 600. */
  method IncomeAndExpenseSummary() returns (r: Response)
    ensures r == OkSummary(Totals(1000.0, 400.0, 600.0))
  {
    var store := new TransactionStore();
    var a := store.Create(Salary());
    var b := store.Create(Rent());
    assert store.Rows() == [Row(1, ToRecord(Salary())), Row(2, ToRecord(Rent()))];
    SalaryAndRentTotals();
    r := store.Summary();
  }

  /** A fresh table summarises to zero everywhere. */
  method EmptySummary() returns (r: Response)
    ensures r == OkSummary(Totals(0.0, 0.0, 0.0))
  {
    var store := new TransactionStore();
    r := store.Summary();
  }

  /** An amount of 0 is falsy: the create is refused and nothing is stored. */
  method ZeroAmountRefused() returns (r: Response, after: Response)
    ensures r == BadRequest
    ensures after == OkList([])
  {
    var store := new TransactionStore();
    r := store.Create(Fields(Some(Income), Some("gift"), Some(0.0), Some("2024-01-03"), None));
    after := store.List();
  }

  /** A truthy type outside the CHECK constraint passes the handler and fails in storage. */
  method SavingsRefused() returns (r: Response, after: Response)
    ensures r == StorageError
    ensures after == OkList([])
  {
    var store := new TransactionStore();
    r := store.Create(Fields(Some("savings"), Some("bank"), Some(50.0), Some("2024-01-04"), None));
    after := store.List();
  }

  /** Updating a row and reading it back gives the new values under the same id. */
  method UpdateThenGet() returns (r: Response, got: Response)
    ensures r == Updated
    ensures got == Ok(Row(1, Record(Expense, "rent", 450.0, "2024-02-02", Some("raised"))))
  {
    var store := new TransactionStore();
    var c := store.Create(Salary());
    r := store.Update(1, Fields(Some(Expense), Some("rent"), Some(450.0), Some("2024-02-02"), Some("raised")));
    got := store.Get(1);
  }

  /** An update binds a missing category as NULL and fails; a missing description is fine. */
  method UpdateWithMissingFields() returns (noCategory: Response, noDescription: Response, got: Response)
    ensures noCategory == StorageError
    ensures noDescription == Updated
    ensures got == Ok(Row(1, Record(Income, "bonus", 0.0, "2024-03-01", None)))
  {
    var store := new TransactionStore();
    var c := store.Create(Salary());
    noCategory := store.Update(1, Fields(Some(Income), None, Some(5.0), Some("2024-03-01"), None));
    noDescription := store.Update(1, Fields(Some(Income), Some("bonus"), Some(0.0), Some("2024-03-01"), None));
    got := store.Get(1);
  }

  /** A deleted id stays unused: the next create receives a larger one. */
  method IdsNotReused() returns (first: Response, second: Response, old1: Response, missing: Response)
    ensures first == Created(1)
    ensures second == Created(2)
    ensures old1 == NotFound
    ensures missing == NotFound
  {
    var store := new TransactionStore();
    first := store.Create(Salary());
    assert first == Created(1);
    var d := store.Delete(1);
    assert store.nextId == 2;
    second := store.Create(Rent());
    old1 := store.Get(1);
    missing := store.Delete(1);
  }
}
