/** The dashboard page's data: the month bounds, the current month's income,
    expense and savings read off the monthly summary, the two chart series
    (one value per month so far), and the queries the page shows. The current
    month and year, which the handler reads from the clock, are parameters. */
module Dashboard {
  import opened Basics
  import opened Seqs
  import opened Calendar
  import opened Schema
  import Transactions
  import Budgets

  type MonthlyRow = Transactions.MonthlyRow

  // ---------------------------------------------------------------------
  // Reading the monthly summary

  /** The summed totals of the rows for (month, kind) (a `forEach` that adds
      every matching row). */
  function RowsTotal(rows: seq<MonthlyRow>, month: int, kind: string): int
  {
    if |rows| == 0 then 0
    else
      var last := rows[|rows| - 1];
      RowsTotal(rows[..|rows| - 1], month, kind) + (if last.month == month && last.kind == kind then last.total else 0)
  }

  /** The total of the last row for (month, kind), if there is one (a
      `forEach` that assigns, so the last write wins). */
  function LastTotal(rows: seq<MonthlyRow>, month: int, kind: string): Option<int>
  {
    if |rows| == 0 then None
    else
      var last := rows[|rows| - 1];
      if last.month == month && last.kind == kind then Some(last.total)
      else LastTotal(rows[..|rows| - 1], month, kind)
  }

  /** The largest month among the rows of type `kind`; 0 when there is none. */
  function MaxMonth(rows: seq<MonthlyRow>, kind: string): int
  {
    if |rows| == 0 then 0
    else
      var last := rows[|rows| - 1];
      var m := MaxMonth(rows[..|rows| - 1], kind);
      if last.kind == kind && last.month > m then last.month else m
  }

  lemma {:induction false} RowsOfAbsentKey(rows: seq<MonthlyRow>, month: int, kind: string)
    requires forall i :: 0 <= i < |rows| ==> Transactions.MonthlyKey(rows[i]) != (month, kind)
    ensures RowsTotal(rows, month, kind) == 0 && LastTotal(rows, month, kind) == None
  {
    if |rows| > 0 {
      var init := rows[..|rows| - 1];
      assert forall i :: 0 <= i < |init| ==> init[i] == rows[i];
      RowsOfAbsentKey(init, month, kind);
    }
  }

  /** With distinct (month, type) keys, the one row carrying a key is all
      that either reading sees. */
  lemma {:induction false} RowsOfPresentKey(rows: seq<MonthlyRow>, i: int)
    requires KeysDistinct(rows, Transactions.MonthlyKey) && 0 <= i < |rows|
    ensures RowsTotal(rows, rows[i].month, rows[i].kind) == rows[i].total
    ensures LastTotal(rows, rows[i].month, rows[i].kind) == Some(rows[i].total)
  {
    var init := rows[..|rows| - 1];
    assert forall j :: 0 <= j < |init| ==> init[j] == rows[j];
    if i == |rows| - 1 {
      RowsOfAbsentKey(init, rows[i].month, rows[i].kind);
    } else {
      assert KeysDistinct(init, Transactions.MonthlyKey);
      RowsOfPresentKey(init, i);
    }
  }

  lemma {:induction false} LastTotalBelowMaxMonth(rows: seq<MonthlyRow>, month: int, kind: string)
    requires LastTotal(rows, month, kind).Some?
    ensures month <= MaxMonth(rows, kind)
  {
    var last := rows[|rows| - 1];
    if !(last.month == month && last.kind == kind) {
      LastTotalBelowMaxMonth(rows[..|rows| - 1], month, kind);
    }
  }

  lemma {:induction false} PeriodTotalOfAbsent(txs: seq<Transaction>, user: nat, year: int, month: int, kind: string)
    requires forall k :: 0 <= k < |txs| && Transactions.InYearOf(txs[k], user, year)
               ==> Transactions.MonthAndKind(txs[k]) != (month, kind)
    ensures Transactions.PeriodTotal(txs, user, year, month, kind) == 0
  {
    if |txs| > 0 {
      assert forall k :: 0 <= k < |txs[1..]| ==> txs[1..][k] == txs[k + 1];
      PeriodTotalOfAbsent(txs[1..], user, year, month, kind);
    }
  }

  /** Reading the monthly summary of a year by (month, type) gives the
      store's total for that month and type: summing the matching rows gives
      it, and so does taking the last matching row, or nothing when the total
      is 0 because no transaction has that month and type. */
  lemma SummaryReadsStoreTotals(s: Store, user: nat, year: int, month: int, kind: string)
    ensures var rows := Transactions.MonthlySummary(s, user, year);
            && RowsTotal(rows, month, kind) == Transactions.PeriodTotal(s.transactions, user, year, month, kind)
            && (LastTotal(rows, month, kind).Some? ==>
                  LastTotal(rows, month, kind).value == Transactions.PeriodTotal(s.transactions, user, year, month, kind))
            && (LastTotal(rows, month, kind).None? ==>
                  Transactions.PeriodTotal(s.transactions, user, year, month, kind) == 0)
  {
    var rows := Transactions.MonthlySummary(s, user, year);
    if i :| 0 <= i < |rows| && Transactions.MonthlyKey(rows[i]) == (month, kind) {
      RowsOfPresentKey(rows, i);
    } else {
      RowsOfAbsentKey(rows, month, kind);
      forall k | 0 <= k < |s.transactions| && Transactions.InYearOf(s.transactions[k], user, year)
        ensures Transactions.MonthAndKind(s.transactions[k]) != (month, kind)
      {
        assert Transactions.MonthAndKind(s.transactions[k]) in Transactions.YearKeys(s.transactions, user, year);
      }
      PeriodTotalOfAbsent(s.transactions, user, year, month, kind);
    }
  }

  // ---------------------------------------------------------------------
  // Current-month totals

  /** Income, expense and savings of the current month. */
  datatype MonthlyData = MonthlyData(income: int, expense: int, savings: int)

  /** The handler's first `forEach`: add up the current month's rows by
      type, then savings are income minus expense. */
  method CurrentMonthTotals(rows: seq<MonthlyRow>, currentMonth: int) returns (d: MonthlyData)
    ensures d.income == RowsTotal(rows, currentMonth, Income)
    ensures d.expense == RowsTotal(rows, currentMonth, Expense)
    ensures d.savings == d.income - d.expense
  {
    var income, expense := 0, 0;
    var j := 0;
    while j < |rows|
      invariant 0 <= j <= |rows|
      invariant income == RowsTotal(rows[..j], currentMonth, Income)
      invariant expense == RowsTotal(rows[..j], currentMonth, Expense)
    {
      assert rows[..j + 1][..j] == rows[..j];
      var item := rows[j];
      if item.month == currentMonth {
        if item.kind == Income {
          income := income + item.total;
        } else if item.kind == Expense {
          expense := expense + item.total;
        }
      }
      j := j + 1;
    }
    assert rows[..|rows|] == rows;
    d := MonthlyData(income, expense, income - expense);
  }

  // ---------------------------------------------------------------------
  // Chart series

  /** A chart array element: one the handler wrote or filled, or a hole a
      write past the end left behind (null once serialised). */
  datatype Slot = Hole | Value(amount: int)

  const MonthNames: seq<string> :=
    ["Jan", "Feb", "Mar", "Apr", "May", "Jun", "Jul", "Aug", "Sep", "Oct", "Nov", "Dec"]

  /** `array[index] = v` on a JavaScript array: in place below the length;
      past it the array grows, leaving holes; a negative index names a
      property that is not an element. */
  function Assign(series: seq<Slot>, index: int, v: int): (r: seq<Slot>)
    ensures index < 0 ==> r == series
    ensures 0 <= index ==> |r| == if index < |series| then |series| else index + 1
    ensures 0 <= index ==> r[index] == Value(v)
    ensures forall i :: 0 <= i < |r| && i != index ==> r[i] == if i < |series| then series[i] else Hole
  {
    if index < 0 then series
    else if index < |series| then series[index := Value(v)]
    else series + seq(index - |series|, _ => Hole) + [Value(v)]
  }

  /** What the chart shows at index `i` for one type after the loop: the
      last row of month i + 1, else the initial 0 within the first
      `currentMonth` slots, else a hole. */
  function SlotAfter(rows: seq<MonthlyRow>, currentMonth: nat, kind: string, i: nat): Slot
  {
    match LastTotal(rows, i + 1, kind)
    case Some(t) => Value(t)
    case None => if i < currentMonth then Value(0) else Hole
  }

  predicate SeriesAfter(series: seq<Slot>, rows: seq<MonthlyRow>, currentMonth: nat, kind: string)
  {
    && |series| == (if MaxMonth(rows, kind) > currentMonth then MaxMonth(rows, kind) else currentMonth)
    && forall i :: 0 <= i < |series| ==> series[i] == SlotAfter(rows, currentMonth, kind, i)
  }

  /** One row's effect on one type's series keeps `SeriesAfter`. */
  lemma SeriesStep(series: seq<Slot>, rows: seq<MonthlyRow>, j: int, currentMonth: nat, kind: string)
    requires 0 <= j < |rows| && SeriesAfter(series, rows[..j], currentMonth, kind)
    ensures rows[j].kind == kind ==>
              SeriesAfter(Assign(series, rows[j].month - 1, rows[j].total), rows[..j + 1], currentMonth, kind)
    ensures rows[j].kind != kind ==> SeriesAfter(series, rows[..j + 1], currentMonth, kind)
  {
    var pre, post := rows[..j], rows[..j + 1];
    assert post[..j] == pre;
    var row := rows[j];
    if row.kind == kind {
      var next := Assign(series, row.month - 1, row.total);
      forall i | 0 <= i < |next| ensures next[i] == SlotAfter(post, currentMonth, kind, i) {
        if i != row.month - 1 && i >= |series| {
          if LastTotal(pre, i + 1, kind).Some? {
            LastTotalBelowMaxMonth(pre, i + 1, kind);
          }
        }
      }
    }
  }

  /** The handler's chart data: the labels of the months so far and, per
      type, `currentMonth` zeros overwritten by each summary row at index
      month - 1. */
  method ChartSeries(rows: seq<MonthlyRow>, currentMonth: nat)
    returns (labels: seq<string>, incomeData: seq<Slot>, expenseData: seq<Slot>)
    ensures labels == MonthNames[..if currentMonth < 12 then currentMonth else 12]
    ensures SeriesAfter(incomeData, rows, currentMonth, Income)
    ensures SeriesAfter(expenseData, rows, currentMonth, Expense)
  {
    labels := MonthNames[..if currentMonth < 12 then currentMonth else 12];
    incomeData := seq(currentMonth, _ => Value(0));
    expenseData := seq(currentMonth, _ => Value(0));
    var j := 0;
    while j < |rows|
      invariant 0 <= j <= |rows|
      invariant SeriesAfter(incomeData, rows[..j], currentMonth, Income)
      invariant SeriesAfter(expenseData, rows[..j], currentMonth, Expense)
    {
      SeriesStep(incomeData, rows, j, currentMonth, Income);
      SeriesStep(expenseData, rows, j, currentMonth, Expense);
      var item := rows[j];
      var monthIndex := item.month - 1;
      if item.kind == Income {
        incomeData := Assign(incomeData, monthIndex, item.total);
      } else if item.kind == Expense {
        expenseData := Assign(expenseData, monthIndex, item.total);
      }
      j := j + 1;
    }
    assert rows[..|rows|] == rows;
  }

  /** Fed the monthly summary, each chart slot shows the store's total for
      that month and type; a slot past the current month that no row wrote
      is a hole, and that month's total is 0. */
  lemma ChartShowsStoreTotals(s: Store, user: nat, year: int, currentMonth: nat, kind: string, series: seq<Slot>)
    requires SeriesAfter(series, Transactions.MonthlySummary(s, user, year), currentMonth, kind)
    ensures |series| >= currentMonth
    ensures forall i :: 0 <= i < currentMonth ==>
              series[i] == Value(Transactions.PeriodTotal(s.transactions, user, year, i + 1, kind))
    ensures forall i :: currentMonth <= i < |series| ==>
              || series[i] == Value(Transactions.PeriodTotal(s.transactions, user, year, i + 1, kind))
              || (series[i] == Hole && Transactions.PeriodTotal(s.transactions, user, year, i + 1, kind) == 0)
  {
    forall i | 0 <= i < |series|
      ensures i < currentMonth ==> series[i] == Value(Transactions.PeriodTotal(s.transactions, user, year, i + 1, kind))
      ensures || series[i] == Value(Transactions.PeriodTotal(s.transactions, user, year, i + 1, kind))
              || (series[i] == Hole && Transactions.PeriodTotal(s.transactions, user, year, i + 1, kind) == 0)
    {
      SummaryReadsStoreTotals(s, user, year, i + 1, kind);
    }
  }

  // ---------------------------------------------------------------------
  // The page

  /** Everything the dashboard page is rendered with. */
  datatype DashboardData = DashboardData(
    startDate: Date, endDate: Date,
    recent: seq<Transactions.ListedTransaction>,
    monthly: MonthlyData,
    labels: seq<string>, incomeData: seq<Slot>, expenseData: seq<Slot>,
    expenseSummary: seq<Transactions.CategoryTotal>,
    incomeSummary: seq<Transactions.CategoryTotal>,
    budgetComparison: seq<Budgets.ComparisonRow>)

  /** The listing filter of the recent-transactions panel: limit 5 only. */
  const RecentFilter: Transactions.Filters := Transactions.Filters(None, None, None, None, Some(5))

  /** The GET /dashboard handler for `user` when the clock reads
      (currentYear, currentMonth). */
  method BuildDashboard(s: Store, user: nat, currentYear: int, currentMonth: int) returns (d: DashboardData)
    requires 1 <= currentMonth <= 12
    ensures d.startDate == Date(currentYear, currentMonth, 1)
    ensures d.endDate == Date(currentYear, currentMonth, DaysInMonth(currentYear, currentMonth))
    ensures Transactions.GetByUser(s, user, RecentFilter) == Ok(d.recent)
    ensures var all := Transactions.Listing(s, user, RecentFilter.(limit := None));
            d.recent == all[..if |all| < 5 then |all| else 5]
    ensures |d.recent| <= 5
    ensures forall i :: 0 <= i < |d.recent| ==> d.recent[i].entry.owner == user && d.recent[i].entry in s.transactions
    ensures forall i, j :: 0 <= i < j < |d.recent| ==> DateLe(d.recent[j].entry.date, d.recent[i].entry.date)
    ensures d.monthly.income == Transactions.PeriodTotal(s.transactions, user, currentYear, currentMonth, Income)
    ensures d.monthly.expense == Transactions.PeriodTotal(s.transactions, user, currentYear, currentMonth, Expense)
    ensures d.monthly.savings == d.monthly.income - d.monthly.expense
    ensures d.labels == MonthNames[..currentMonth]
    ensures |d.incomeData| >= currentMonth && |d.expenseData| >= currentMonth
    ensures forall i :: 0 <= i < currentMonth ==>
              && d.incomeData[i] == Value(Transactions.PeriodTotal(s.transactions, user, currentYear, i + 1, Income))
              && d.expenseData[i] == Value(Transactions.PeriodTotal(s.transactions, user, currentYear, i + 1, Expense))
    ensures d.expenseSummary == Transactions.CategorySummary(s, user, Expense, d.startDate, d.endDate)
    ensures d.incomeSummary == Transactions.CategorySummary(s, user, Income, d.startDate, d.endDate)
    ensures d.budgetComparison == Budgets.Comparison(s, currentMonth, currentYear, user)
  {
    var startDate := MonthStart(currentYear, currentMonth);
    var endDate := MonthEnd(currentYear, currentMonth);
    var recent := Transactions.Listing(s, user, RecentFilter);
    Transactions.LimitIsPrefix(s, user, RecentFilter);
    var summary := Transactions.MonthlySummary(s, user, currentYear);
    var expenseSummary := Transactions.CategorySummary(s, user, Expense, startDate, endDate);
    var incomeSummary := Transactions.CategorySummary(s, user, Income, startDate, endDate);
    var comparison := Budgets.Comparison(s, currentMonth, currentYear, user);
    var monthly := CurrentMonthTotals(summary, currentMonth);
    SummaryReadsStoreTotals(s, user, currentYear, currentMonth, Income);
    SummaryReadsStoreTotals(s, user, currentYear, currentMonth, Expense);
    var labels, incomeData, expenseData := ChartSeries(summary, currentMonth);
    ChartShowsStoreTotals(s, user, currentYear, currentMonth, Income, incomeData);
    ChartShowsStoreTotals(s, user, currentYear, currentMonth, Expense, expenseData);
    d := DashboardData(startDate, endDate, recent, monthly, labels, incomeData, expenseData,
                       expenseSummary, incomeSummary, comparison);
  }

  /** A user with at most five transactions sees all of them in the
      recent panel. */
  lemma RecentShowsAllWhenFew(s: Store, user: nat)
    requires |Transactions.Matching(s, user, RecentFilter)| <= 5
    ensures Transactions.GetByUser(s, user, RecentFilter).Ok?
    ensures forall k :: 0 <= k < |s.transactions| && s.transactions[k].owner == user
              ==> s.transactions[k] in Transactions.Entries(Transactions.GetByUser(s, user, RecentFilter).value)
  {
    Transactions.LimitAboveCount(s, user, RecentFilter);
    forall k | 0 <= k < |s.transactions| && s.transactions[k].owner == user
      ensures s.transactions[k] in Transactions.Ordered(s, user, RecentFilter)
    {
      assert Transactions.Selected(s.transactions[k], user, None, None, None, None);
    }
  }

  /** The category summaries of the page cover exactly the current calendar
      month: a transaction falls in the range [startDate, endDate] if and
      only if it is dated in (currentYear, currentMonth). */
  lemma SummaryRangeIsCurrentMonth(cats: seq<Category>, t: Transaction, user: nat, kind: string,
                                   currentYear: int, currentMonth: int)
    requires 1 <= currentMonth <= 12 && ValidDate(t.date)
    ensures Transactions.InPeriodJoined(cats, t, user, kind, MonthStart(currentYear, currentMonth),
                                        MonthEnd(currentYear, currentMonth))
        <==> && t.owner == user && t.kind == kind
             && t.date.year == currentYear && t.date.month == currentMonth
             && Transactions.CategoryName(cats, t.categoryId).Some?
  {
    MonthRangeIsMonth(currentYear, currentMonth, t.date);
  }
}
