/** The financial insights view: income, spending and savings totals, the
    spending per category, and the month-by-month trend. */
module Insights {
  import opened Dates
  import opened Ledger
  import opened History

  /** The three headline figures. */
  datatype Summary = Summary(totalIncome: real, totalExpenses: real, netSavings: real)

  /** Income is the sum of the Income rows, spending the sum of all other
      rows, and savings what is left of income after spending. */
  function Summarize(txs: seq<Transaction>): (s: Summary)
    ensures s.totalIncome + s.totalExpenses == Total(txs)
    ensures s.netSavings == s.totalIncome - s.totalExpenses
  {
    IncomeAndExpensesPartition(txs);
    var income := IncomeTotal(txs);
    var expenses := ExpenseTotal(txs);
    Summary(income, expenses, income - expenses)
  }

  /** The categories that occur among the spending rows. */
  function SpendingCategories(txs: seq<Transaction>): set<Category> {
    set t | t in Where(txs, IsExpense) :: t.category
  }

  /** A category has spending rows exactly when it is not Income and some
      row is of that category. */
  lemma SpendingCategoriesExact(txs: seq<Transaction>, c: Category)
    ensures c in SpendingCategories(txs) <==> c != Income && exists i :: 0 <= i < |txs| && txs[i].category == c
  {
    var spending := Where(txs, IsExpense);
    if c != Income && exists i :: 0 <= i < |txs| && txs[i].category == c {
      var i :| 0 <= i < |txs| && txs[i].category == c;
      WhereMember(txs, IsExpense, txs[i]);
    }
    if c in SpendingCategories(txs) {
      var t :| t in spending && t.category == c;
      WhereMember(txs, IsExpense, t);
      var i :| 0 <= i < |txs| && txs[i] == t;
    }
  }

  /** The group of a spending category holds all rows of that category. */
  lemma SpendingGroup(txs: seq<Transaction>, c: Category)
    requires c != Income
    ensures OfCategory(Where(txs, IsExpense), c) == OfCategory(txs, c)
  {
    WhereWhere(txs, IsExpense, CategoryIs(c), CategoryIs(c));
  }

  /** Spending grouped by category: each category that has spending rows,
      mapped to the sum of those rows. */
  function Breakdown(txs: seq<Transaction>): (b: map<Category, real>)
    ensures forall c :: c in b <==> c != Income && exists i :: 0 <= i < |txs| && txs[i].category == c
    ensures forall c :: c in b ==> b[c] == Total(OfCategory(txs, c))
  {
    var spending := Where(txs, IsExpense);
    var b := map c | c in SpendingCategories(txs) :: Total(OfCategory(spending, c));
    forall c ensures c in b <==> c != Income && exists i :: 0 <= i < |txs| && txs[i].category == c {
      SpendingCategoriesExact(txs, c);
    }
    forall c | c in b ensures b[c] == Total(OfCategory(txs, c)) {
      SpendingCategoriesExact(txs, c);
      SpendingGroup(txs, c);
    }
    b
  }

  /** The sum, over the listed categories, of each one's rows. */
  function ListedTotal(txs: seq<Transaction>, cats: seq<Category>): real {
    if cats == [] then 0.0 else Total(OfCategory(txs, cats[0])) + ListedTotal(txs, cats[1..])
  }

  /** The condition "the row's category is one of `cats`". */
  function CategoryIn(cats: seq<Category>): Transaction -> bool {
    (t: Transaction) => t.category in cats
  }

  /** Summing category by category over distinct categories is summing the
      rows of any of those categories at once. */
  lemma {:induction false} ListedTotalIsTotal(txs: seq<Transaction>, cats: seq<Category>)
    requires Distinct(cats)
    ensures ListedTotal(txs, cats) == Total(Where(txs, CategoryIn(cats)))
  {
    if cats == [] {
      WhereNone(txs, CategoryIn(cats));
    } else {
      ListedTotalIsTotal(txs, cats[1..]);
      assert forall t :: CategoryIn(cats)(t) == (CategoryIs(cats[0])(t) || CategoryIn(cats[1..])(t)) by {
        assert cats == [cats[0]] + cats[1..];
      }
      TotalSplit(txs, CategoryIn(cats), CategoryIs(cats[0]), CategoryIn(cats[1..]));
    }
  }

  /** The sum of a breakdown's values over the listed categories, a missing
      category counting 0. */
  function SumOver(b: map<Category, real>, cats: seq<Category>): real {
    if cats == [] then 0.0 else (if cats[0] in b then b[cats[0]] else 0.0) + SumOver(b, cats[1..])
  }

  /** Over categories other than Income, the breakdown agrees with summing
      each category's rows. */
  lemma {:induction false} SumOverBreakdown(txs: seq<Transaction>, cats: seq<Category>)
    requires Income !in cats
    ensures SumOver(Breakdown(txs), cats) == ListedTotal(txs, cats)
  {
    if cats != [] {
      SumOverBreakdown(txs, cats[1..]);
      var c := cats[0];
      if c !in Breakdown(txs) {
        WhereNone(txs, CategoryIs(c));
      }
    }
  }

  /** The breakdown's values add up to total spending. */
  lemma BreakdownSumsToExpenses(txs: seq<Transaction>)
    ensures SumOver(Breakdown(txs), ExpenseCategories) == ExpenseTotal(txs)
  {
    SumOverBreakdown(txs, ExpenseCategories);
    ListedTotalIsTotal(txs, ExpenseCategories);
    WhereExt(txs, CategoryIn(ExpenseCategories), IsExpense);
  }

  /** One point of the monthly trend: a calendar month and its total. */
  datatype Bucket = Bucket(month: YearMonth, total: real)

  /** The sum of all rows dated in month `ym`, whatever their category. */
  function MonthTotal(txs: seq<Transaction>, ym: YearMonth): real {
    Total(InMonth(txs, ym))
  }

  /** `count` buckets for consecutive months, starting at month number `first`. */
  function Buckets(txs: seq<Transaction>, first: int, count: nat): (r: seq<Bucket>)
    ensures |r| == count
    ensures forall k :: 0 <= k < count ==> r[k] == Bucket(MonthAt(first + k), MonthTotal(txs, MonthAt(first + k)))
    decreases count
  {
    if count == 0 then []
    else [Bucket(MonthAt(first), MonthTotal(txs, MonthAt(first)))] + Buckets(txs, first + 1, count - 1)
  }

  /** The monthly trend: one bucket per calendar month from the month of the
      oldest transaction to the month of the newest, months without rows
      included. */
  function MonthlyTrend(txs: seq<Transaction>): (trend: seq<Bucket>)
    ensures trend == [] <==> txs == []
    ensures txs != [] ==> trend[0].month == MonthOf(EarliestDate(txs))
    ensures txs != [] ==> trend[|trend| - 1].month == MonthOf(LatestDate(txs))
    ensures forall k :: 0 <= k < |trend| - 1 ==> trend[k + 1].month == NextMonth(trend[k].month)
    ensures forall k :: 0 <= k < |trend| ==> trend[k].total == MonthTotal(txs, trend[k].month)
  {
    if txs == [] then []
    else
      var lo := MonthIndex(MonthOf(EarliestDate(txs)));
      var hi := MonthIndex(MonthOf(LatestDate(txs)));
      MonthIndexMonotone(EarliestDate(txs), LatestDate(txs));
      var trend := Buckets(txs, lo, hi - lo + 1);
      MonthAtIndex(MonthOf(EarliestDate(txs)));
      MonthAtIndex(MonthOf(LatestDate(txs)));
      forall k | 0 <= k < |trend| - 1 ensures trend[k + 1].month == NextMonth(trend[k].month) {
        MonthAtSucc(lo + k);
      }
      trend
  }

  /** The condition "the row is dated in one of the `count` months numbered
      from `first`". */
  function MonthInRange(first: int, count: nat): Transaction -> bool {
    (t: Transaction) => first <= MonthIndex(MonthOf(t.date)) < first + count
  }

  /** The sum of the bucket totals. */
  function BucketSum(trend: seq<Bucket>): real {
    if trend == [] then 0.0 else trend[0].total + BucketSum(trend[1..])
  }

  /** A run of buckets sums to the rows dated in the months it spans. */
  lemma {:induction false} BucketsSumRange(txs: seq<Transaction>, first: int, count: nat)
    ensures BucketSum(Buckets(txs, first, count)) == Total(Where(txs, MonthInRange(first, count)))
    decreases count
  {
    var bs := Buckets(txs, first, count);
    if count == 0 {
      WhereNone(txs, MonthInRange(first, count));
    } else {
      BucketsSumRange(txs, first + 1, count - 1);
      assert bs[1..] == Buckets(txs, first + 1, count - 1);
      forall t ensures MonthIs(MonthAt(first))(t) == (MonthIndex(MonthOf(t.date)) == first) {
        if MonthIndex(MonthOf(t.date)) == first {
          MonthIndexInjective(MonthOf(t.date), MonthAt(first));
        }
      }
      TotalSplit(txs, MonthInRange(first, count), MonthIs(MonthAt(first)), MonthInRange(first + 1, count - 1));
    }
  }

  /** Every transaction's month lies between the first and the last bucket. */
  lemma MonthsWithinTrend(txs: seq<Transaction>, i: int)
    requires 0 <= i < |txs|
    ensures MonthIndex(MonthOf(EarliestDate(txs))) <= MonthIndex(MonthOf(txs[i].date))
    ensures MonthIndex(MonthOf(txs[i].date)) <= MonthIndex(MonthOf(LatestDate(txs)))
  {
    MonthIndexMonotone(EarliestDate(txs), txs[i].date);
    MonthIndexMonotone(txs[i].date, LatestDate(txs));
  }

  /** The bucket totals add up to the sum of all amounts. */
  lemma {:induction false} TrendSumsToTotal(txs: seq<Transaction>)
    ensures BucketSum(MonthlyTrend(txs)) == Total(txs)
  {
    if txs != [] {
      var lo := MonthIndex(MonthOf(EarliestDate(txs)));
      var hi := MonthIndex(MonthOf(LatestDate(txs)));
      MonthIndexMonotone(EarliestDate(txs), LatestDate(txs));
      var count := hi - lo + 1;
      assert MonthlyTrend(txs) == Buckets(txs, lo, count);
      assert Where(txs, MonthInRange(lo, count)) == txs by {
        forall i | 0 <= i < |txs| ensures MonthInRange(lo, count)(txs[i]) {
          MonthsWithinTrend(txs, i);
        }
        WhereAll(txs, MonthInRange(lo, count));
      }
      BucketsSumRange(txs, lo, count);
    }
  }

  /** Every transaction's month has its bucket in the trend. */
  lemma TrendCoversEveryMonth(txs: seq<Transaction>, i: int)
    requires 0 <= i < |txs|
    ensures exists k :: 0 <= k < |MonthlyTrend(txs)| && MonthlyTrend(txs)[k].month == MonthOf(txs[i].date)
  {
    var lo := MonthIndex(MonthOf(EarliestDate(txs)));
    var n := MonthIndex(MonthOf(txs[i].date));
    MonthsWithinTrend(txs, i);
    MonthAtIndex(MonthOf(txs[i].date));
    assert MonthlyTrend(txs)[n - lo].month == MonthOf(txs[i].date);
  }

  /** A month with no transactions shows 0. */
  lemma QuietMonthIsZero(txs: seq<Transaction>, ym: YearMonth)
    requires forall i :: 0 <= i < |txs| ==> MonthOf(txs[i].date) != ym
    ensures MonthTotal(txs, ym) == 0.0
  {
    WhereNone(txs, MonthIs(ym));
  }

  /** What the insights view displays: a "no data" notice, or the three
      figures, the breakdown and the trend. */
  datatype InsightsView = NoData | Report(summary: Summary, breakdown: map<Category, real>, trend: seq<Bucket>)

  /** The insights view. Its three parts agree with one another: the
      breakdown adds up to total spending, and the trend adds up to income
      plus spending. */
  function FinancialInsights(txs: seq<Transaction>): (v: InsightsView)
    ensures v.NoData? <==> txs == []
    ensures v.Report? ==> SumOver(v.breakdown, ExpenseCategories) == v.summary.totalExpenses
    ensures v.Report? ==> BucketSum(v.trend) == v.summary.totalIncome + v.summary.totalExpenses
  {
    if txs == [] then NoData
    else
      BreakdownSumsToExpenses(txs);
      TrendSumsToTotal(txs);
      Report(Summarize(txs), Breakdown(txs), MonthlyTrend(txs))
  }
}
