/** The transaction history view: the rows newest first, narrowed by an
    optional category and an inclusive date range. */
module History {
  import opened Dates
  import opened Ledger

  /** Newest first: no row is dated after a row before it. Rows with equal
      dates may come in any order. */
  predicate NewestFirst(rows: seq<Transaction>) {
    forall i, j :: 0 <= i < j < |rows| ==> DateLe(rows[j].date, rows[i].date)
  }

  /** No row of `rows` is dated after `d`. */
  predicate NoneAfter(rows: seq<Transaction>, d: Date) {
    forall k :: 0 <= k < |rows| ==> DateLe(rows[k].date, d)
  }

  /** A row dated no earlier than any row of a newest-first list may be put
      in front of it. */
  lemma PrependNewestFirst(x: Transaction, rows: seq<Transaction>)
    requires NewestFirst(rows) && NoneAfter(rows, x.date)
    ensures NewestFirst([x] + rows)
  {
    forall i, j | 0 <= i < j < |[x] + rows|
      ensures DateLe(([x] + rows)[j].date, ([x] + rows)[i].date)
    {
      if i > 0 {
        assert ([x] + rows)[i] == rows[i - 1];
      }
    }
  }

  /** Rows drawn from `from` (as a multiset) are no later than anything
      `from` is no later than. */
  lemma NoneAfterSubMultiset(rows: seq<Transaction>, from: seq<Transaction>, d: Date)
    requires multiset(rows) <= multiset(from)
    requires NoneAfter(from, d)
    ensures NoneAfter(rows, d)
  {
    forall k | 0 <= k < |rows| ensures DateLe(rows[k].date, d) {
      assert rows[k] in multiset(rows);
      assert rows[k] in multiset(from);
      var m :| 0 <= m < |from| && from[m] == rows[k];
    }
  }

  /** `t` placed into the newest-first `rows` before the first row that is
      not newer than it. */
  function InsertByDate(t: Transaction, rows: seq<Transaction>): (r: seq<Transaction>)
    requires NewestFirst(rows)
    ensures NewestFirst(r)
    ensures multiset(r) == multiset(rows) + multiset{t}
  {
    if rows == [] then [t]
    else if DateLe(rows[0].date, t.date) then
      assert NoneAfter(rows, t.date) by {
        forall j | 0 <= j < |rows| ensures DateLe(rows[j].date, t.date) {
          if j > 0 { DateLeTransitive(rows[j].date, rows[0].date, t.date); }
        }
      }
      PrependNewestFirst(t, rows);
      [t] + rows
    else
      assert rows == [rows[0]] + rows[1..];
      var rest := InsertByDate(t, rows[1..]);
      DateLeTotal(rows[0].date, t.date);
      assert NoneAfter(rows[1..] + [t], rows[0].date) by {
        forall k | 0 <= k < |rows[1..] + [t]| ensures DateLe((rows[1..] + [t])[k].date, rows[0].date) {
          if k < |rows| - 1 {
            assert (rows[1..] + [t])[k] == rows[k + 1];
          }
        }
      }
      NoneAfterSubMultiset(rest, rows[1..] + [t], rows[0].date);
      PrependNewestFirst(rows[0], rest);
      [rows[0]] + rest
  }

  /** The rows newest first (a sort by date, descending). */
  function SortNewestFirst(rows: seq<Transaction>): (r: seq<Transaction>)
    ensures NewestFirst(r)
    ensures multiset(r) == multiset(rows)
  {
    if rows == [] then []
    else
      assert rows == [rows[0]] + rows[1..];
      InsertByDate(rows[0], SortNewestFirst(rows[1..]))
  }

  /** The category selector: "All" or one category. */
  datatype CategoryFilter = All | Only(category: Category)

  /** The row passes the category filter and lies within the date range,
      both ends included. */
  predicate Shown(t: Transaction, filter: CategoryFilter, start: Date, end: Date) {
    && (filter.All? || t.category == filter.category)
    && DateLe(start, t.date)
    && DateLe(t.date, end)
  }

  /** What the history view displays: a "no transactions" notice, or a table. */
  datatype HistoryView = NoTransactions | Table(rows: seq<Transaction>)

  /** Selecting rows keeps them newest first. */
  lemma {:induction false} WhereKeepsNewestFirst(rows: seq<Transaction>, keep: Transaction -> bool)
    requires NewestFirst(rows)
    ensures NewestFirst(Where(rows, keep))
  {
    if rows != [] {
      assert rows == [rows[0]] + rows[1..];
      WhereKeepsNewestFirst(rows[1..], keep);
      var rest := Where(rows[1..], keep);
      if keep(rows[0]) {
        assert NoneAfter(rows[1..], rows[0].date) by {
          forall k | 0 <= k < |rows[1..]| ensures DateLe(rows[1..][k].date, rows[0].date) {
            assert rows[1..][k] == rows[k + 1];
          }
        }
        WhereCount(rows[1..], keep);
        NoneAfterSubMultiset(rest, rows[1..], rows[0].date);
        PrependNewestFirst(rows[0], rest);
      }
    }
  }

  /** The history view: sorted newest first, then filtered by category and
      date range. */
  function TransactionHistory(txs: seq<Transaction>, filter: CategoryFilter, start: Date, end: Date)
    : (v: HistoryView)
    ensures v.NoTransactions? <==> txs == []
    ensures v.Table? ==> NewestFirst(v.rows)
    ensures v.Table? ==>
      forall t :: multiset(v.rows)[t] == if Shown(t, filter, start, end) then multiset(txs)[t] else 0
  {
    if txs == [] then NoTransactions
    else
      var sorted := SortNewestFirst(txs);
      WhereKeepsNewestFirst(sorted, t => Shown(t, filter, start, end));
      WhereCount(sorted, t => Shown(t, filter, start, end));
      Table(Where(sorted, t => Shown(t, filter, start, end)))
  }

  /** The date of the oldest transaction (the range picker's default start). */
  function EarliestDate(txs: seq<Transaction>): (d: Date)
    requires txs != []
    ensures exists i :: 0 <= i < |txs| && txs[i].date == d
    ensures forall i :: 0 <= i < |txs| ==> DateLe(d, txs[i].date)
  {
    if |txs| == 1 then txs[0].date
    else
      var rest := EarliestDate(txs[1..]);
      assert forall i :: 1 <= i < |txs| ==> DateLe(rest, txs[i].date) by {
        forall i | 1 <= i < |txs| ensures DateLe(rest, txs[i].date) {
          assert txs[i] == txs[1..][i - 1];
        }
      }
      DateLeTotal(rest, txs[0].date);
      if DateLe(txs[0].date, rest) then
        forall i | 1 <= i < |txs| ensures DateLe(txs[0].date, txs[i].date) {
          DateLeTransitive(txs[0].date, rest, txs[i].date);
        }
        txs[0].date
      else
        assert exists i :: 1 <= i < |txs| && txs[i].date == rest by {
          var k :| 0 <= k < |txs[1..]| && txs[1..][k].date == rest;
          assert txs[k + 1].date == rest;
        }
        rest
  }

  /** The date of the newest transaction (the range picker's default end). */
  function LatestDate(txs: seq<Transaction>): (d: Date)
    requires txs != []
    ensures exists i :: 0 <= i < |txs| && txs[i].date == d
    ensures forall i :: 0 <= i < |txs| ==> DateLe(txs[i].date, d)
  {
    if |txs| == 1 then txs[0].date
    else
      var rest := LatestDate(txs[1..]);
      assert forall i :: 1 <= i < |txs| ==> DateLe(txs[i].date, rest) by {
        forall i | 1 <= i < |txs| ensures DateLe(txs[i].date, rest) {
          assert txs[i] == txs[1..][i - 1];
        }
      }
      DateLeTotal(rest, txs[0].date);
      if DateLe(rest, txs[0].date) then
        forall i | 1 <= i < |txs| ensures DateLe(txs[i].date, txs[0].date) {
          DateLeTransitive(txs[i].date, rest, txs[0].date);
        }
        txs[0].date
      else
        assert exists i :: 1 <= i < |txs| && txs[i].date == rest by {
          var k :| 0 <= k < |txs[1..]| && txs[1..][k].date == rest;
          assert txs[k + 1].date == rest;
        }
        rest
  }

  /** With the filters left at their defaults ("All", and the range from the
      oldest to the newest date) the view lists every transaction. */
  lemma DefaultFiltersShowEverything(txs: seq<Transaction>)
    requires txs != []
    ensures TransactionHistory(txs, All, EarliestDate(txs), LatestDate(txs)).Table?
    ensures multiset(TransactionHistory(txs, All, EarliestDate(txs), LatestDate(txs)).rows) == multiset(txs)
  {
    var v := TransactionHistory(txs, All, EarliestDate(txs), LatestDate(txs));
    forall t ensures multiset(v.rows)[t] == multiset(txs)[t] {
      if t in txs {
        var i :| 0 <= i < |txs| && txs[i] == t;
        assert Shown(t, All, EarliestDate(txs), LatestDate(txs));
      }
    }
    assert multiset(v.rows) == multiset(txs);
  }
}
