/** The salary-and-groceries scenario: its expected figures, stated as
    assertions about the store and the insight functions. */
module Scenario {
  import opened Wrappers
  import opened Dates
  import opened Ledger
  import opened Store
  import opened History
  import opened Insights

  const Salary := Transaction(Date(2024, 3, 1), 1000.0, Income, "Salary")
  const Groceries := Transaction(Date(2024, 3, 5), 200.0, Food, "Groceries")

  /** The headline figures of the scenario: 1000 in, 200 out, 800 saved. */
  lemma ScenarioSummary()
    ensures Summarize([Salary, Groceries]) == Summary(1000.0, 200.0, 800.0)
  {
    var txs := [Salary, Groceries];
    assert txs[1..] == [Groceries] && txs[1..][1..] == [];
    assert Where(txs, IsIncome) == [Salary];
    assert Where(txs, IsExpense) == [Groceries];
  }

  /** The scenario's breakdown holds Food alone, at 200. */
  lemma ScenarioBreakdown()
    ensures Breakdown([Salary, Groceries]) == map[Food := 200.0]
  {
    var txs := [Salary, Groceries];
    var b := Breakdown(txs);
    assert b.Keys == {Food} by {
      assert txs[1].category == Food;
    }
    assert b[Food] == 200.0 by {
      assert txs[1..] == [Groceries] && txs[1..][1..] == [];
      assert Where(txs[1..], CategoryIs(Food)) == [Groceries] + Where([], CategoryIs(Food));
      assert OfCategory(txs, Food) == [Groceries];
      assert Total([Groceries]) == 200.0;
    }
  }

  /** The scenario's trend is the single month March 2024, at 1200, Income
      included. */
  lemma ScenarioTrend()
    ensures MonthlyTrend([Salary, Groceries]) == [Bucket(YearMonth(2024, 3), 1200.0)]
  {
    var txs := [Salary, Groceries];
    assert txs[1..] == [Groceries] && txs[1..][1..] == [];
    assert EarliestDate(txs) == Salary.date;
    assert LatestDate(txs) == Groceries.date;
    var trend := MonthlyTrend(txs);
    assert |trend| == 1;
    assert trend[0].month == YearMonth(2024, 3);
    var march := MonthIs(YearMonth(2024, 3));
    assert Where(txs[1..], march) == [Groceries] + Where([], march);
    assert InMonth(txs, YearMonth(2024, 3)) == txs;
    assert Total([Groceries]) == 200.0;
    assert Total(txs) == 1200.0;
  }

  method SalaryAndGroceries() {
    var store := new TransactionStore.Load(None);
    var first := store.Add(Salary.date, Salary.amount, Salary.category, Salary.description);
    var second := store.Add(Groceries.date, Groceries.amount, Groceries.category, Groceries.description);
    var rejected := store.Add(Date(2024, 3, 6), 0.0, Food, "Nothing");
    assert first == Added && second == Added && rejected == Rejected;
    assert store.transactions == [Salary, Groceries];

    ScenarioSummary();
    ScenarioBreakdown();
    ScenarioTrend();

    var reloaded := new TransactionStore.Load(store.file);
    assert reloaded.transactions == [Salary, Groceries];
  }
}
