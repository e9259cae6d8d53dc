/** The report view: aggregates over the records whose date lies in a range from .. to.
    When either bound is missing the view shows its defaults. The queries make the range
    from < date <= to as written (SourceWindow); the inclusive range from <= date <= to
    (IntendedWindow) is what the view describes, and every property below is stated for
    either window. */
module Report {
  import opened Dates
  import opened Records
  import opened Queries

  /** One line of the monthly summary: a 'YYYY-MM' month, its income, its expense and
      their difference. */
  datatype MonthRow = MonthRow(month: Month, income: int, expense: int, balance: int)

  datatype ReportView = ReportView(
    categoryTotals: seq<(string, int)>,   // expense per category (summary, categories, amounts)
    totalExpense: int,
    range: Option<(Date, Date)>,          // the (from, to) bounds, None before filtering
    maxExpense: int,
    totalTransactions: nat,               // number of expense records in the range
    topCategory: Option<string>,
    topCategoryAmount: int,
    totalIncome: int,
    totalExpenseIE: int,                  // the income-versus-expense panel's expense figure
    paymentTotals: seq<(string, int)>,    // expense per payment mode
    monthlySummary: seq<MonthRow>)
  {
    /** (to - from).days + 1 for a filtered report, 0 otherwise. */
    function Days(): int {
      if range.Some? then DaySpan(range.value.0, range.value.1) else 0
    }

    /** total_expense / days when days is positive, else 0. */
    function AvgDailyExpense(): (a: real)
      ensures Days() > 0 ==> a * Days() as real == totalExpense as real
      ensures Days() <= 0 ==> a == 0.0
    {
      DailyAverageSpec(totalExpense, Days());
      DailyAverage(totalExpense, Days())
    }

    /** The top category's share of the expense total, in percent; 0 without a top category. */
    function TopCategoryPercent(): (p: real)
      ensures topCategory.Some? && totalExpense > 0 ==> p * totalExpense as real == topCategoryAmount as real * 100.0
      ensures topCategory.Some? && 0 <= topCategoryAmount <= totalExpense ==> 0.0 <= p <= 100.0
      ensures topCategory.None? ==> p == 0.0
    {
      if topCategory.Some? && totalExpense > 0 then
        PercentSpec(topCategoryAmount, totalExpense);
        Percent(topCategoryAmount, totalExpense)
      else 0.0
    }
  }

  /** What the view shows before any filtering: zeros, empty lists, no top category. */
  const EmptyReport: ReportView := ReportView([], 0, None, 0, 0, None, 0, 0, 0, [], [])

  /** The window the report's queries select. from_d and to_d are midnight timestamps, and
      the DATE column's 'YYYY-MM-DD' text sorts before 'YYYY-MM-DD 00:00:00.000000': a record
      dated to is selected, one dated from is not. */
  function SourceWindow(from: Date, to: Date): Window {
    Window(from, to, false)
  }

  /** The window the view means: the range from .. to with both bounds included. */
  function IntendedWindow(from: Date, to: Date): Window {
    Window(from, to, true)
  }

  /** WHERE date BETWEEN from AND to: every record of any type in the range. */
  function RowsIn(rows: seq<Transaction>, w: Window): seq<Transaction> {
    Between(rows, w)
  }

  /** WHERE type == 'expense' AND date BETWEEN from AND to */
  function ExpensesIn(rows: seq<Transaction>, w: Window): seq<Transaction> {
    OfType(Between(rows, w), EXPENSE)
  }

  /** WHERE type == 'income' AND date BETWEEN from AND to */
  function IncomesIn(rows: seq<Transaction>, w: Window): seq<Transaction> {
    OfType(Between(rows, w), INCOME)
  }

  /** (to - from).days + 1: the number of calendar days the range covers. */
  function DaySpan(from: Date, to: Date): int {
    Ordinal(to) - Ordinal(from) + 1
  }

  /** total / days when days is positive, else 0. */
  function DailyAverage(total: int, days: int): real {
    if days > 0 then total as real / days as real else 0.0
  }

  lemma DailyAverageSpec(total: int, days: int)
    ensures days > 0 ==> DailyAverage(total, days) * days as real == total as real
    ensures days <= 0 ==> DailyAverage(total, days) == 0.0
  {
  }

  /** part / whole * 100: the share of part in whole, in percent. */
  function Percent(part: int, whole: int): real
    requires whole > 0
  {
    part as real / whole as real * 100.0
  }

  lemma PercentSpec(part: int, whole: int)
    requires whole > 0
    ensures Percent(part, whole) * whole as real == part as real * 100.0
    ensures 0 <= part <= whole ==> 0.0 <= Percent(part, whole) <= 100.0
  {
    var q := part as real / whole as real;
    assert 0 <= part <= whole ==> 0.0 <= q <= 1.0;
  }

  /** SUM(CASE WHEN type == kind THEN amount ELSE 0 END) over the rows of month m. */
  function CaseSum(rows: seq<Transaction>, m: Month, kind: string): int {
    if rows == [] then 0
    else
      (if MonthKey(rows[0]) == m then (if rows[0].kind == kind then rows[0].amount else 0) else 0)
      + CaseSum(rows[1..], m, kind)
  }

  /** The rows of the monthly query: (month, income, expense) for each month in ms. */
  function MonthTotals(rows: seq<Transaction>, ms: seq<Month>): (data: seq<(Month, int, int)>)
    ensures |data| == |ms|
    ensures forall i :: 0 <= i < |ms| ==> data[i] == (ms[i], CaseSum(rows, ms[i], INCOME), CaseSum(rows, ms[i], EXPENSE))
  {
    if ms == [] then []
    else [(ms[0], CaseSum(rows, ms[0], INCOME), CaseSum(rows, ms[0], EXPENSE))] + MonthTotals(rows, ms[1..])
  }

  /** SELECT strftime('%Y-%m', date), SUM(CASE ...income...), SUM(CASE ...expense...)
      WHERE date BETWEEN from AND to GROUP BY month. */
  function MonthlyData(rows: seq<Transaction>, w: Window): seq<(Month, int, int)> {
    var inRange := RowsIn(rows, w);
    MonthTotals(inRange, DistinctKeys(inRange, MonthKey))
  }

  /** The summary line the view appends for one row of the monthly query. */
  function SummaryLine(m: (Month, int, int)): MonthRow {
    MonthRow(m.0, m.1, m.2, m.1 - m.2)
  }

  /** The monthly summary: one line per row of the monthly query, in its order. */
  function MonthlySummaryOf(data: seq<(Month, int, int)>): seq<MonthRow> {
    seq(|data|, i requires 0 <= i < |data| => SummaryLine(data[i]))
  }

  /** The report over the records in window w. */
  function ReportIn(rows: seq<Transaction>, w: Window): ReportView {
    var expenses := ExpensesIn(rows, w);
    var total := Sum(expenses);
    var categories := GroupSums(expenses, CategoryOf);
    var top := FirstLargest(categories);
    var hasTop := top.Some? && total > 0;
    ReportView(
      categories,
      total,
      Some((w.from, w.to)),
      MaxAmount(expenses),
      |expenses|,
      if hasTop then Some(top.value.0) else None,
      if hasTop then top.value.1 else 0,
      Sum(IncomesIn(rows, w)),
      total,
      GroupSums(expenses, PaymentModeOf),
      MonthlySummaryOf(MonthlyData(rows, w)))
  }

  /** The report for the bounds the request gives (None when a bound is missing or empty),
      over the window the queries select. */
  function ReportOf(rows: seq<Transaction>, from: Option<Date>, to: Option<Date>): (r: ReportView)
    ensures from.None? || to.None? ==> r == EmptyReport
    ensures from.Some? && to.Some? ==> r.range == Some((from.value, to.value)) && r.totalExpenseIE == r.totalExpense
  {
    if from.None? || to.None? then EmptyReport
    else ReportIn(rows, SourceWindow(from.value, to.value))
  }

  /** The report the view means to show: the same figures over the inclusive range. */
  function IntendedReportOf(rows: seq<Transaction>, from: Option<Date>, to: Option<Date>): (r: ReportView)
    ensures from.None? || to.None? ==> r == EmptyReport
    ensures from.Some? && to.Some? ==> r.range == Some((from.value, to.value)) && r.totalExpenseIE == r.totalExpense
  {
    if from.None? || to.None? then EmptyReport
    else ReportIn(rows, IntendedWindow(from.value, to.value))
  }

  /** The loop that appends one summary line per row of the monthly query. */
  method MonthlySummary(data: seq<(Month, int, int)>) returns (summary: seq<MonthRow>)
    ensures summary == MonthlySummaryOf(data)
  {
    summary := [];
    var i := 0;
    while i < |data|
      invariant 0 <= i <= |data|
      invariant summary == MonthlySummaryOf(data)[..i]
    {
      summary := summary + [MonthRow(data[i].0, data[i].1, data[i].2, data[i].1 - data[i].2)];
      i := i + 1;
    }
  }

  /** The report view, step by step: the queries, then the loop that turns the rows of the
      monthly query into summary lines. */
  method Report(rows: seq<Transaction>, from: Option<Date>, to: Option<Date>) returns (r: ReportView)
    ensures r == ReportOf(rows, from, to)
  {
    r := EmptyReport;
    if from.Some? && to.Some? {
      var w := SourceWindow(from.value, to.value);
      var expenses := ExpensesIn(rows, w);
      var total := Sum(expenses);
      var categories := GroupSums(expenses, CategoryOf);
      var top := FirstLargest(categories);
      var topCategory: Option<string> := None;
      var topAmount := 0;
      if top.Some? && total > 0 {
        topCategory := Some(top.value.0);
        topAmount := top.value.1;
      }
      var summary := MonthlySummary(MonthlyData(rows, w));
      r := ReportView(categories, total, Some((w.from, w.to)), MaxAmount(expenses),
        |expenses|, topCategory, topAmount, Sum(IncomesIn(rows, w)), total,
        GroupSums(expenses, PaymentModeOf), summary);
    }
  }

  // ---------------------------------------------------------------- properties

  /** Without both bounds the view shows only its defaults. */
  lemma MissingBoundDefaults(rows: seq<Transaction>, from: Option<Date>, to: Option<Date>)
    requires from.None? || to.None?
    ensures var r := ReportOf(rows, from, to);
      && r.categoryTotals == [] && r.paymentTotals == [] && r.monthlySummary == []
      && r.totalExpense == 0 && r.totalIncome == 0 && r.totalExpenseIE == 0
      && r.maxExpense == 0 && r.totalTransactions == 0 && r.AvgDailyExpense() == 0.0
      && r.topCategory == None && r.topCategoryAmount == 0 && r.TopCategoryPercent() == 0.0
  {
  }

  /** The expense records in the range are exactly the table's records of type expense whose
      date lies in the window, each as often as in the table; likewise for income and for all
      records in the range. */
  lemma RangeRows(rows: seq<Transaction>, w: Window)
    ensures forall x :: multiset(ExpensesIn(rows, w))[x] ==
                          if x.kind == EXPENSE && InWindow(x.date, w) then multiset(rows)[x] else 0
    ensures forall x :: multiset(IncomesIn(rows, w))[x] ==
                          if x.kind == INCOME && InWindow(x.date, w) then multiset(rows)[x] else 0
    ensures forall x :: x in ExpensesIn(rows, w) <==> x in rows && x.kind == EXPENSE && InWindow(x.date, w)
    ensures forall x :: x in IncomesIn(rows, w) <==> x in rows && x.kind == INCOME && InWindow(x.date, w)
    ensures forall x :: x in RowsIn(rows, w) <==> x in rows && InWindow(x.date, w)
  {
    BetweenSpec(rows, w);
    OfTypeSpec(Between(rows, w), EXPENSE);
    OfTypeSpec(Between(rows, w), INCOME);
  }

  /** The headline figures: the expense total, the count and the maximum of the expense
      records in the range, the income total, and the daily average over the range. */
  lemma Kpis(rows: seq<Transaction>, w: Window)
    ensures var r := ReportIn(rows, w);
      var e := ExpensesIn(rows, w);
      && r.totalExpense == Sum(e) && r.totalExpenseIE == r.totalExpense
      && r.range == Some((w.from, w.to)) && r.Days() == DaySpan(w.from, w.to)
      && r.totalIncome == Sum(IncomesIn(rows, w))
      && r.totalTransactions == |e|
      && (forall x :: x in rows && x.kind == EXPENSE && InWindow(x.date, w) ==> x.amount <= r.maxExpense)
      && (e == [] ==> r.maxExpense == 0)
      && (e != [] ==> exists x :: x in e && x.amount == r.maxExpense)
  {
    RangeRows(rows, w);
    MaxAmountSpec(ExpensesIn(rows, w));
  }

  /** For valid dates the range has a day exactly when from is not after to. */
  lemma DaySpanPositive(from: Date, to: Date)
    requires Valid(from) && Valid(to)
    ensures DaySpan(from, to) > 0 <==> AtOrBefore(from, to)
  {
    OrdinalOrder(to, from);
  }

  /** The range is empty when to is before from: no record lies in it, so every figure
      except the defaults is zero or empty. */
  lemma ReversedRange(rows: seq<Transaction>, w: Window)
    requires Before(w.to, w.from)
    ensures var r := ReportIn(rows, w);
      && r.categoryTotals == [] && r.paymentTotals == [] && r.monthlySummary == []
      && r.totalExpense == 0 && r.totalIncome == 0 && r.totalTransactions == 0
      && r.maxExpense == 0 && r.topCategory == None
  {
    RangeRows(rows, w);
    var inRange := RowsIn(rows, w);
    assert forall x :: x !in inRange;
    assert ExpensesIn(rows, w) == [];
    assert IncomesIn(rows, w) == [];
  }

  /** The category and payment-mode breakdowns each group the range's expense records by
      their key, showing only keys that occur and adding up to the expense total. */
  lemma Breakdowns(rows: seq<Transaction>, w: Window)
    ensures var r := ReportIn(rows, w);
      var e := ExpensesIn(rows, w);
      && Grouping(r.categoryTotals, e, CategoryOf) && Total(r.categoryTotals) == r.totalExpense
      && Grouping(r.paymentTotals, e, PaymentModeOf) && Total(r.paymentTotals) == r.totalExpense
  {
    var e := ExpensesIn(rows, w);
    GroupSumsSpec(e, CategoryOf);
    GroupSumsSpec(e, PaymentModeOf);
  }

  /** The top category is shown exactly when the expense total is positive; it is then a
      category of the breakdown with the largest sum, and its share is its sum over the total,
      in percent. Otherwise the amount and the share are 0. */
  lemma TopCategory(rows: seq<Transaction>, w: Window)
    ensures var r := ReportIn(rows, w);
      && (r.topCategory.Some? <==> r.totalExpense > 0)
      && (r.topCategory.Some? ==>
            && (r.topCategory.value, r.topCategoryAmount) in r.categoryTotals
            && (forall i :: 0 <= i < |r.categoryTotals| ==> r.categoryTotals[i].1 <= r.topCategoryAmount))
      && (r.topCategory.None? ==> r.topCategoryAmount == 0)
  {
    var e := ExpensesIn(rows, w);
    var g := GroupSums(e, CategoryOf);
    GroupSumsSpec(e, CategoryOf);
    if Sum(e) > 0 {
      assert e != [];
      assert e[0] in e;
      assert Listed(g, CategoryOf(e[0]));
    }
  }

  /** With no negative amount in the table, the top category's amount lies between 0 and
      the expense total, so its share (TopCategoryPercent) lies in [0, 100]. */
  lemma TopCategoryShare(rows: seq<Transaction>, w: Window)
    requires NonNegative(rows)
    ensures var r := ReportIn(rows, w);
      0 <= r.topCategoryAmount <= r.totalExpense
  {
    var e := ExpensesIn(rows, w);
    ExpensesNonNegative(rows, w);
    LargestWithin(e);
  }

  lemma ExpensesNonNegative(rows: seq<Transaction>, w: Window)
    requires NonNegative(rows)
    ensures NonNegative(ExpensesIn(rows, w))
  {
    BetweenSpec(rows, w);
    OfTypeSpec(Between(rows, w), EXPENSE);
  }

  /** Over non-negative records, the largest category sum lies between 0 and the total. */
  lemma LargestWithin(e: seq<Transaction>)
    requires NonNegative(e)
    ensures Sum(e) >= 0
    ensures var top := FirstLargest(GroupSums(e, CategoryOf));
      top.Some? ==> 0 <= top.value.1 <= Sum(e)
  {
    var g := GroupSums(e, CategoryOf);
    var top := FirstLargest(g);
    KeySumBounds(e, CategoryOf, "");
    if top.Some? {
      GroupSumsSpec(e, CategoryOf);
      var i :| 0 <= i < |g| && g[i] == top.value;
      assert g[i].1 == KeySum(e, CategoryOf, g[i].0);
      KeySumBounds(e, CategoryOf, g[i].0);
    }
  }

  /** The CASE sum of one type over the range's records of a month is the month's sum over
      the records of that type. */
  lemma {:induction false} CaseSumIsKeySum(rows: seq<Transaction>, m: Month, kind: string)
    ensures CaseSum(rows, m, kind) == KeySum(OfType(rows, kind), MonthKey, m)
  {
    if rows != [] {
      KeySumFilterStep(rows, (t: Transaction) => t.kind == kind, MonthKey, m);
      CaseSumIsKeySum(rows[1..], m, kind);
    }
  }

  /** The rows of the monthly query: one per month that has a record in the range, each
      month once, with the month's income and expense sums over the range. */
  lemma MonthlyDataSpec(rows: seq<Transaction>, w: Window)
    ensures var d := MonthlyData(rows, w);
      var inRange := RowsIn(rows, w);
      && (forall i :: 0 <= i < |d| ==>
            && d[i].1 == KeySum(IncomesIn(rows, w), MonthKey, d[i].0)
            && d[i].2 == KeySum(ExpensesIn(rows, w), MonthKey, d[i].0)
            && Occurs(inRange, MonthKey, d[i].0))
      && (forall i, j :: 0 <= i < j < |d| ==> d[i].0 != d[j].0)
      && (forall x :: x in inRange ==> exists i :: 0 <= i < |d| && d[i].0 == MonthKey(x))
  {
    var inRange := RowsIn(rows, w);
    var ms := DistinctKeys(inRange, MonthKey);
    var d := MonthlyData(rows, w);
    DistinctKeysSpec(inRange, MonthKey);
    forall i | 0 <= i < |d|
      ensures d[i].1 == KeySum(IncomesIn(rows, w), MonthKey, d[i].0)
      ensures d[i].2 == KeySum(ExpensesIn(rows, w), MonthKey, d[i].0)
    {
      CaseSumIsKeySum(inRange, ms[i], INCOME);
      CaseSumIsKeySum(inRange, ms[i], EXPENSE);
    }
    forall x | x in inRange
      ensures exists i :: 0 <= i < |d| && d[i].0 == MonthKey(x)
    {
      var i :| 0 <= i < |ms| && ms[i] == MonthKey(x);
      assert d[i].0 == MonthKey(x);
    }
  }

  /** Each monthly line has balance income - expense and the month's income and expense sums
      over the range. The months are distinct, each has a record in the range, and every
      record in the range has its month listed. */
  lemma MonthlyLines(rows: seq<Transaction>, w: Window)
    ensures var s := ReportIn(rows, w).monthlySummary;
      var inRange := RowsIn(rows, w);
      && (forall i :: 0 <= i < |s| ==>
            && s[i].balance == s[i].income - s[i].expense
            && s[i].income == KeySum(IncomesIn(rows, w), MonthKey, s[i].month)
            && s[i].expense == KeySum(ExpensesIn(rows, w), MonthKey, s[i].month)
            && Occurs(inRange, MonthKey, s[i].month))
      && (forall i, j :: 0 <= i < j < |s| ==> s[i].month != s[j].month)
      && (forall x :: x in inRange ==> exists i :: 0 <= i < |s| && s[i].month == MonthKey(x))
  {
    var d := MonthlyData(rows, w);
    var s := ReportIn(rows, w).monthlySummary;
    ReportSummary(rows, w);
    MonthlyDataSpec(rows, w);
    forall x | x in RowsIn(rows, w)
      ensures exists i :: 0 <= i < |s| && s[i].month == MonthKey(x)
    {
      var i :| 0 <= i < |d| && d[i].0 == MonthKey(x);
      assert s[i].month == MonthKey(x);
    }
  }

  lemma ReportSummary(rows: seq<Transaction>, w: Window)
    ensures ReportIn(rows, w).monthlySummary == MonthlySummaryOf(MonthlyData(rows, w))
  {
  }

  /** A type with no record in the range for a month contributes 0 to that month's line. */
  lemma MonthlyMissingType(rows: seq<Transaction>, w: Window, i: int)
    requires 0 <= i < |ReportIn(rows, w).monthlySummary|
    ensures var row := ReportIn(rows, w).monthlySummary[i];
      && ((forall x :: x in rows && x.kind == INCOME && InWindow(x.date, w) ==> MonthKey(x) != row.month) ==> row.income == 0)
      && ((forall x :: x in rows && x.kind == EXPENSE && InWindow(x.date, w) ==> MonthKey(x) != row.month) ==> row.expense == 0)
  {
    var row := ReportIn(rows, w).monthlySummary[i];
    MonthlyLines(rows, w);
    RangeRows(rows, w);
    if forall x :: x in rows && x.kind == INCOME && InWindow(x.date, w) ==> MonthKey(x) != row.month {
      KeySumAbsent(IncomesIn(rows, w), MonthKey, row.month);
    }
    if forall x :: x in rows && x.kind == EXPENSE && InWindow(x.date, w) ==> MonthKey(x) != row.month {
      KeySumAbsent(ExpensesIn(rows, w), MonthKey, row.month);
    }
  }

  // ---------------------------------------------------------------- the range's lower bound

  /** As written, the report's expense records are those dated after from and not after to. */
  lemma SourceRange(rows: seq<Transaction>, from: Date, to: Date)
    ensures forall x :: x in ExpensesIn(rows, SourceWindow(from, to)) <==>
              x in rows && x.kind == EXPENSE && Before(from, x.date) && AtOrBefore(x.date, to)
    ensures forall x :: x in IncomesIn(rows, SourceWindow(from, to)) <==>
              x in rows && x.kind == INCOME && Before(from, x.date) && AtOrBefore(x.date, to)
  {
    RangeRows(rows, SourceWindow(from, to));
  }

  /** As intended, they are those dated from .. to, both bounds included. */
  lemma IntendedRange(rows: seq<Transaction>, from: Date, to: Date)
    ensures forall x :: x in ExpensesIn(rows, IntendedWindow(from, to)) <==>
              x in rows && x.kind == EXPENSE && AtOrBefore(from, x.date) && AtOrBefore(x.date, to)
    ensures forall x :: x in IncomesIn(rows, IntendedWindow(from, to)) <==>
              x in rows && x.kind == INCOME && AtOrBefore(from, x.date) && AtOrBefore(x.date, to)
  {
    RangeRows(rows, IntendedWindow(from, to));
  }

  /** For a range that is not reversed, the report as written misses exactly the expense
      records dated from: their amounts and their count. */
  lemma {:induction false} SourceMissesFromDate(rows: seq<Transaction>, from: Date, to: Date)
    requires AtOrBefore(from, to)
    ensures Sum(ExpensesIn(rows, IntendedWindow(from, to))) ==
              Sum(ExpensesIn(rows, SourceWindow(from, to))) + Sum(OnDate(OfType(rows, EXPENSE), from))
    ensures |ExpensesIn(rows, IntendedWindow(from, to))| ==
              |ExpensesIn(rows, SourceWindow(from, to))| + |OnDate(OfType(rows, EXPENSE), from)|
  {
    if rows != [] {
      var isExpense := (t: Transaction) => t.kind == EXPENSE;
      SumNestedStep(rows, (t: Transaction) => InWindow(t.date, IntendedWindow(from, to)), isExpense);
      SumNestedStep(rows, (t: Transaction) => InWindow(t.date, SourceWindow(from, to)), isExpense);
      SumNestedStep(rows, isExpense, (t: Transaction) => t.date == from);
      SourceMissesFromDate(rows[1..], from, to);
    }
  }

  /** One expense of 100.00 dated 2024-01-01, reported over 2024-01-01 .. 2024-01-01: the
      range covers one day, yet the report as written counts nothing, while the inclusive
      report counts the record. */
  lemma FromDateDropped()
    ensures var d := Date(2024, 1, 1);
      var rows := [Transaction(1, None, 10000, d, "Food", "Cash", EXPENSE, 0)];
      var r := ReportOf(rows, Some(d), Some(d));
      var i := IntendedReportOf(rows, Some(d), Some(d));
      && r.Days() == 1 && r.totalExpense == 0 && r.totalTransactions == 0
      && i.Days() == 1 && i.totalExpense == 10000 && i.totalTransactions == 1
  {
    var d := Date(2024, 1, 1);
    var rows := [Transaction(1, None, 10000, d, "Food", "Cash", EXPENSE, 0)];
    assert rows[1..] == [];
    var isExpense := (t: Transaction) => t.kind == EXPENSE;
    SumNestedStep(rows, (t: Transaction) => InWindow(t.date, SourceWindow(d, d)), isExpense);
    SumNestedStep(rows, (t: Transaction) => InWindow(t.date, IntendedWindow(d, d)), isExpense);
  }
}
