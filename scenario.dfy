/** A session of the tracker, followed through the model: seed 500, an Income of
    200 on day 1, an Expense of 50 on day 2, then delete the first entry. */
module Scenario {
  import opened Text
  import opened Transactions
  import opened Chart
  import opened Store

  /** The chart's view of the two entries: already in date order, with running
      nets 200 and 150. */
  lemma TwoEntries(salary: Transaction, food: Transaction)
    requires salary == Transaction(Income, "Salary", 200, 1)
    requires food == Transaction(Expense, "Food", 50, 2)
    ensures SortByDate([salary, food]) == [salary, food]
    ensures Net([salary, food][..1]) == 200 && Net([salary, food][..2]) == 150
  {
    assert [salary, food][..1] == [salary];
    assert [salary, food][..2] == [salary, food];
    assert SortByDate([salary]) == [salary];
    assert SortByDate([salary, food]) == Insert(food, [salary]);
  }

  /** The two entries pass the form checks as typed: their categories are
      already trimmed. */
  method Record(salary: Transaction, food: Transaction) returns (ledger: Ledger)
    requires salary == Transaction(Income, "Salary", 200, 1)
    requires food == Transaction(Expense, "Food", 50, 2)
    ensures fresh(ledger) && ledger.Valid()
    ensures ledger.transactions == [salary, food] && ledger.balance == 650
  {
    assert !IsSpace('S') && !IsSpace('y') && !IsSpace('F') && !IsSpace('d');
    TrimFixed("Salary");
    TrimFixed("Food");
    ledger := new Ledger();
    var r0 := ledger.SetStartingBalance(Num(500));
    var r1 := ledger.AddTransaction(Income, "Salary", Num(200), Some(1));
    var r2 := ledger.AddTransaction(Expense, "Food", Num(50), Some(2));
  }

  /** The chart after both entries shows balances 700 then 650; deleting the
      Income entry leaves 450. */
  method Session() returns (balances: seq<int>, final: int)
    ensures balances == [700, 650]
    ensures final == 450
  {
    var salary := Transaction(Income, "Salary", 200, 1);
    var food := Transaction(Expense, "Food", 50, 2);
    var ledger := Record(salary, food);
    TwoEntries(salary, food);
    var dates, incomes, expenses;
    dates, incomes, expenses, balances := Series([salary, food], 500);
    assert balances[0] == 700 && balances[1] == 650;
    ledger.DeleteTransaction(0);
    final := ledger.balance;
  }
}
