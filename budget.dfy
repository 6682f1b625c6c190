/** Monthly budget goals: a per-category spending target kept in the
    session, and the comparison of this month's spending against it. */
module Budget {
  import opened Wrappers
  import opened Dates
  import opened Ledger
  import opened Insights

  /** One budget goal: a category and its monthly target. */
  datatype Goal = Goal(category: Category, budget: real)

  /** The goals a new session starts with. */
  const DefaultGoals: seq<Goal> := [
    Goal(Housing, 1000.0),
    Goal(Food, 500.0),
    Goal(Transportation, 200.0),
    Goal(Utilities, 300.0),
    Goal(Entertainment, 200.0),
    Goal(Healthcare, 300.0),
    Goal(Other, 200.0)
  ]

  /** The categories of the goals, in order (the keys of the goal map). */
  function GoalCategories(goals: seq<Goal>): (cats: seq<Category>)
    ensures |cats| == |goals|
    ensures forall i :: 0 <= i < |goals| ==> cats[i] == goals[i].category
  {
    if goals == [] then [] else [goals[0].category] + GoalCategories(goals[1..])
  }

  /** The default goals cover each spending category once, in the order of
      the add form. */
  lemma DefaultGoalsCoverSpending()
    ensures GoalCategories(DefaultGoals) == ExpenseCategories
  {
  }

  /** The edit form's loop: one entry per existing goal, in the same order,
      holding the amount entered for that category. */
  method CollectEditedGoals(goals: seq<Goal>, entered: Category -> real) returns (updated: seq<Goal>)
    ensures |updated| == |goals|
    ensures forall i :: 0 <= i < |goals| ==> updated[i] == Goal(goals[i].category, entered(goals[i].category))
    ensures GoalCategories(updated) == GoalCategories(goals)
  {
    updated := [];
    var i := 0;
    while i < |goals|
      invariant 0 <= i <= |goals|
      invariant |updated| == i
      invariant forall k :: 0 <= k < i ==> updated[k] == Goal(goals[k].category, entered(goals[k].category))
    {
      updated := updated + [Goal(goals[i].category, entered(goals[i].category))];
      i := i + 1;
    }
  }

  /** The budget goals of one session. */
  class BudgetSession {
    /** The goals; None until the budget page is first shown. */
    var budgetGoals: Option<seq<Goal>>

    /** Once created, the goals are one per spending category, in the order
        of the defaults. */
    ghost predicate Valid()
      reads this
    {
      budgetGoals.Some? ==> GoalCategories(budgetGoals.value) == ExpenseCategories
    }

    /** A new session has no goals yet. */
    constructor ()
      ensures Valid()
      ensures budgetGoals == None
    {
      budgetGoals := None;
    }

    /** The budget page's goal handling: seed the defaults when the session
        has no goals, collect the amounts entered for each goal, and replace
        the goals with them when the update button is pressed. */
    method EditGoals(entered: Category -> real, updatePressed: bool)
      requires Valid()
      modifies this
      ensures Valid()
      ensures budgetGoals.Some?
      ensures var seeded := old(budgetGoals).GetOr(DefaultGoals);
        && GoalCategories(budgetGoals.value) == GoalCategories(seeded)
        && (!updatePressed ==> budgetGoals.value == seeded)
        && (updatePressed ==>
              forall i :: 0 <= i < |seeded| ==>
                budgetGoals.value[i] == Goal(seeded[i].category, entered(seeded[i].category)))
    {
      if budgetGoals.None? {
        DefaultGoalsCoverSpending();
        budgetGoals := Some(DefaultGoals);
      }
      var updated := CollectEditedGoals(budgetGoals.value, entered);
      if updatePressed {
        budgetGoals := Some(updated);
      }
    }
  }

  /** The condition "the row is spending in category `c` dated in month `ym`". */
  function SpentIn(ym: YearMonth, c: Category): Transaction -> bool {
    (t: Transaction) => IsExpense(t) && t.category == c && MonthOf(t.date) == ym
  }

  /** A month's spending in one category: looked up in the breakdown of that
      month's rows, 0 when the category has none. It is the sum of the
      non-Income rows of that category dated in that month. */
  function MonthActual(txs: seq<Transaction>, ym: YearMonth, c: Category): (actual: real)
    ensures actual == Total(Where(txs, SpentIn(ym, c)))
  {
    var spending := Breakdown(InMonth(txs, ym));
    if c in spending then
      WhereWhere(txs, MonthIs(ym), CategoryIs(c), SpentIn(ym, c));
      spending[c]
    else
      forall i | 0 <= i < |txs| ensures !SpentIn(ym, c)(txs[i]) {
        WhereMember(txs, MonthIs(ym), txs[i]);
      }
      WhereNone(txs, SpentIn(ym, c));
      0.0
  }

  /** The actual is the breakdown's entry for the category, or 0. */
  lemma ActualFromBreakdown(txs: seq<Transaction>, ym: YearMonth, c: Category, spending: map<Category, real>)
    requires spending == Breakdown(InMonth(txs, ym))
    ensures MonthActual(txs, ym, c) == if c in spending then spending[c] else 0.0
  {
  }

  /** A category without spending rows in the month shows an actual of 0. */
  lemma NoSpendingMeansZero(txs: seq<Transaction>, ym: YearMonth, c: Category)
    requires forall i :: 0 <= i < |txs| ==> txs[i].category != c || MonthOf(txs[i].date) != ym
    ensures MonthActual(txs, ym, c) == 0.0
  {
    WhereNone(txs, SpentIn(ym, c));
  }

  /** One line of the budget comparison. */
  datatype ComparisonRow = ComparisonRow(category: Category, budget: real, actual: real, remaining: real)

  /** The comparison line of goal `g` for month `ym`. */
  function RowFor(txs: seq<Transaction>, ym: YearMonth, g: Goal): ComparisonRow {
    var actual := MonthActual(txs, ym, g.category);
    ComparisonRow(g.category, g.budget, actual, g.budget - actual)
  }

  /** The comparison table: nothing when there are no transactions;
      otherwise one row per goal, in goal order, with the goal's budget,
      this month's spending in its category, and what is left of the budget
      (negative when overspent). */
  method CompareWithBudget(txs: seq<Transaction>, goals: seq<Goal>, currentMonth: YearMonth)
    returns (comparison: Option<seq<ComparisonRow>>)
    ensures comparison.None? <==> txs == []
    ensures comparison.Some? ==> |comparison.value| == |goals|
    ensures comparison.Some? ==> forall i :: 0 <= i < |goals| ==>
      var row := comparison.value[i];
      && row.category == goals[i].category
      && row.budget == goals[i].budget
      && row.actual == Total(Where(txs, SpentIn(currentMonth, goals[i].category)))
      && row.remaining == row.budget - row.actual
  {
    if txs == [] {
      return None;
    }
    var spending := Breakdown(InMonth(txs, currentMonth));
    var rows: seq<ComparisonRow> := [];
    var i := 0;
    while i < |goals|
      invariant 0 <= i <= |goals|
      invariant |rows| == i
      invariant forall k :: 0 <= k < i ==> rows[k] == RowFor(txs, currentMonth, goals[k])
    {
      var category, budget := goals[i].category, goals[i].budget;
      var actual := if category in spending then spending[category] else 0.0;
      assert ComparisonRow(category, budget, actual, budget - actual) == RowFor(txs, currentMonth, goals[i]) by {
        ActualFromBreakdown(txs, currentMonth, category, spending);
      }
      rows := rows + [ComparisonRow(category, budget, actual, budget - actual)];
      i := i + 1;
    }
    comparison := Some(rows);
  }

  /** The sum of the month's actuals over the listed categories. */
  function ActualsTotal(txs: seq<Transaction>, ym: YearMonth, cats: seq<Category>): real {
    if cats == [] then 0.0 else MonthActual(txs, ym, cats[0]) + ActualsTotal(txs, ym, cats[1..])
  }

  lemma {:induction false} ActualsTotalIsSumOver(txs: seq<Transaction>, ym: YearMonth, cats: seq<Category>)
    ensures ActualsTotal(txs, ym, cats) == SumOver(Breakdown(InMonth(txs, ym)), cats)
  {
    if cats != [] {
      ActualsTotalIsSumOver(txs, ym, cats[1..]);
    }
  }

  /** With one goal per spending category, the actuals of the comparison add
      up to everything spent in the month. */
  lemma ActualsCoverMonthSpending(txs: seq<Transaction>, ym: YearMonth, goals: seq<Goal>)
    requires GoalCategories(goals) == ExpenseCategories
    ensures ActualsTotal(txs, ym, GoalCategories(goals)) == ExpenseTotal(InMonth(txs, ym))
  {
    ActualsTotalIsSumOver(txs, ym, ExpenseCategories);
    BreakdownSumsToExpenses(InMonth(txs, ym));
  }
}
