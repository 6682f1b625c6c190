/** The transaction record and the row selections and sums that every view
    of the tracker is built from (a boolean mask followed by a sum of the
    `amount` column). */
module Ledger {
  import opened Dates

  /** The fixed set of categories offered by the add form. */
  datatype Category =
    | Income
    | Housing
    | Food
    | Transportation
    | Utilities
    | Entertainment
    | Healthcare
    | Other

  /** Every category but Income, in the order the add form lists them. */
  const ExpenseCategories: seq<Category> :=
    [Housing, Food, Transportation, Utilities, Entertainment, Healthcare, Other]

  /** No category appears twice in `cats`. */
  predicate Distinct(cats: seq<Category>) {
    forall i, j :: 0 <= i < j < |cats| ==> cats[i] != cats[j]
  }

  /** One recorded transaction. */
  datatype Transaction = Transaction(date: Date, amount: real, category: Category, description: string)

  predicate IsIncome(t: Transaction) {
    t.category == Income
  }

  /** Spending is every row that is not Income. */
  predicate IsExpense(t: Transaction) {
    t.category != Income
  }

  /** The rows of `txs` that `keep` accepts, in their original order. */
  function Where(txs: seq<Transaction>, keep: Transaction -> bool): (r: seq<Transaction>)
    ensures |r| <= |txs|
  {
    if txs == [] then []
    else if keep(txs[0]) then [txs[0]] + Where(txs[1..], keep)
    else Where(txs[1..], keep)
  }

  /** Every row `keep` accepts is selected as often as it occurs, and no
      other row is selected. */
  lemma {:induction false} WhereCount(txs: seq<Transaction>, keep: Transaction -> bool)
    ensures forall t :: multiset(Where(txs, keep))[t] == if keep(t) then multiset(txs)[t] else 0
  {
    if txs != [] {
      assert txs == [txs[0]] + txs[1..];
      WhereCount(txs[1..], keep);
    }
  }

  /** A row is selected exactly when it is in `txs` and `keep` accepts it. */
  lemma WhereMember(txs: seq<Transaction>, keep: Transaction -> bool, t: Transaction)
    ensures t in Where(txs, keep) <==> t in txs && keep(t)
  {
    WhereCount(txs, keep);
    assert t in Where(txs, keep) <==> t in multiset(Where(txs, keep));
    assert t in txs <==> t in multiset(txs);
  }

  /** The sum of the amounts of `txs`; 0 when there are no rows. */
  function Total(txs: seq<Transaction>): real {
    if txs == [] then 0.0 else txs[0].amount + Total(txs[1..])
  }

  /** The condition "the row is of category `c`". */
  function CategoryIs(c: Category): Transaction -> bool {
    (t: Transaction) => t.category == c
  }

  /** The condition "the row is dated in month `ym`". */
  function MonthIs(ym: YearMonth): Transaction -> bool {
    (t: Transaction) => MonthOf(t.date) == ym
  }

  /** Rows of one category (that category's group in a group-by). */
  function OfCategory(txs: seq<Transaction>, c: Category): seq<Transaction> {
    Where(txs, CategoryIs(c))
  }

  /** Rows dated in the calendar month `ym`. */
  function InMonth(txs: seq<Transaction>, ym: YearMonth): seq<Transaction> {
    Where(txs, MonthIs(ym))
  }

  /** The sum of the Income rows. */
  function IncomeTotal(txs: seq<Transaction>): real {
    Total(Where(txs, IsIncome))
  }

  /** The sum of all rows that are not Income. */
  function ExpenseTotal(txs: seq<Transaction>): real {
    Total(Where(txs, IsExpense))
  }

  /** Selecting with the union of two disjoint conditions sums to the two
      selections' sums. */
  lemma {:induction false} TotalSplit(txs: seq<Transaction>, keep: Transaction -> bool,
                                      p: Transaction -> bool, q: Transaction -> bool)
    requires forall t :: keep(t) == (p(t) || q(t))
    requires forall t :: !(p(t) && q(t))
    ensures Total(Where(txs, keep)) == Total(Where(txs, p)) + Total(Where(txs, q))
  {
    if txs != [] {
      TotalSplit(txs[1..], keep, p, q);
    }
  }

  /** A condition every row meets selects all rows. */
  lemma {:induction false} WhereAll(txs: seq<Transaction>, keep: Transaction -> bool)
    requires forall i :: 0 <= i < |txs| ==> keep(txs[i])
    ensures Where(txs, keep) == txs
  {
    if txs != [] {
      WhereAll(txs[1..], keep);
    }
  }

  /** A condition no row meets selects nothing, which sums to 0. */
  lemma {:induction false} WhereNone(txs: seq<Transaction>, keep: Transaction -> bool)
    requires forall i :: 0 <= i < |txs| ==> !keep(txs[i])
    ensures Where(txs, keep) == []
    ensures Total(Where(txs, keep)) == 0.0
  {
    if txs != [] {
      WhereNone(txs[1..], keep);
    }
  }

  /** Conditions that agree on every row select the same rows. */
  lemma {:induction false} WhereExt(txs: seq<Transaction>, p: Transaction -> bool, q: Transaction -> bool)
    requires forall t :: p(t) == q(t)
    ensures Where(txs, p) == Where(txs, q)
  {
    if txs != [] {
      WhereExt(txs[1..], p, q);
    }
  }

  /** Two selections in a row are one selection by both conditions. */
  lemma {:induction false} WhereWhere(txs: seq<Transaction>, p: Transaction -> bool,
                                      q: Transaction -> bool, both: Transaction -> bool)
    requires forall t :: both(t) == (p(t) && q(t))
    ensures Where(Where(txs, p), q) == Where(txs, both)
  {
    if txs != [] {
      WhereWhere(txs[1..], p, q, both);
    }
  }

  /** Income and spending split the sum of all amounts between them. */
  lemma {:induction false} IncomeAndExpensesPartition(txs: seq<Transaction>)
    ensures IncomeTotal(txs) + ExpenseTotal(txs) == Total(txs)
  {
    var any := (t: Transaction) => true;
    TotalSplit(txs, any, IsIncome, IsExpense);
    WhereAll(txs, any);
  }
}
