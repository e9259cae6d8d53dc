/** The dashboard view: totals over the whole table (no date filter), today's
    expense, the five newest records, and the chart series. */
module Dashboard {
  import opened Dates
  import opened Records
  import opened Queries

  datatype DashboardView = DashboardView(
    totalIncome: int,
    totalExpense: int,
    balance: int,
    todayExpense: int,
    recent: seq<Transaction>,
    categoryTotals: seq<(string, int)>,   // expense per category, unordered
    dailyExpense: seq<(Date, int)>,       // expense per date, ascending
    monthlyIncome: seq<(Month, int)>)     // income per 'YYYY-MM' month, ascending

  const RECENT_LIMIT: nat := 5

  /** ORDER BY created_at DESC LIMIT 5 */
  function Recent(rows: seq<Transaction>): (r: seq<Transaction>)
    ensures |r| == if |rows| < RECENT_LIMIT then |rows| else RECENT_LIMIT
  {
    var newest := SortBy(rows, CreatedDescRank);
    newest[..if |newest| < RECENT_LIMIT then |newest| else RECENT_LIMIT]
  }

  /** Everything the dashboard shows, given the table's rows and today's date. */
  function DashboardOf(rows: seq<Transaction>, today: Date): (v: DashboardView)
    ensures v.balance == v.totalIncome - v.totalExpense
    ensures |v.recent| <= RECENT_LIMIT
  {
    var income := Sum(OfType(rows, INCOME));
    var expenses := OfType(rows, EXPENSE);
    var expense := Sum(expenses);
    DashboardView(
      income,
      expense,
      income - expense,
      Sum(OnDate(expenses, today)),
      Recent(rows),
      GroupSums(expenses, CategoryOf),
      OrderedGroupSums(expenses, DateOf, Ordinal),
      OrderedGroupSums(OfType(rows, INCOME), MonthKey, MonthRank))
  }

  /** Income minus expense, each record counted once with its sign; records of any
      other type do not count. A reference definition for the balance. */
  function SignedTotal(rows: seq<Transaction>): int {
    if rows == [] then 0
    else
      (if rows[0].kind == INCOME then rows[0].amount
       else if rows[0].kind == EXPENSE then -rows[0].amount
       else 0) + SignedTotal(rows[1..])
  }

  lemma {:induction false} SignedTotalSplit(rows: seq<Transaction>)
    ensures SignedTotal(rows) == Sum(OfType(rows, INCOME)) - Sum(OfType(rows, EXPENSE))
  {
    if rows != [] {
      SumOfTypeStep(rows, INCOME);
      SumOfTypeStep(rows, EXPENSE);
      SignedTotalSplit(rows[1..]);
    }
  }

  /** The balance is the signed total of the table, and an empty table shows zero
      totals and empty series. */
  lemma BalanceIsSignedTotal(rows: seq<Transaction>, today: Date)
    ensures DashboardOf(rows, today).balance == SignedTotal(rows)
    ensures rows == [] ==> DashboardOf(rows, today) == DashboardView(0, 0, 0, 0, [], [], [], [])
  {
    SignedTotalSplit(rows);
  }

  /** Expense on one date, read directly (WHERE date == d), is that date's group sum. */
  lemma {:induction false} OnDateIsKeySum(rows: seq<Transaction>, d: Date)
    ensures Sum(OnDate(rows, d)) == KeySum(rows, DateOf, d)
  {
    if rows != [] {
      SumOnDateStep(rows, d);
      OnDateIsKeySum(rows[1..], d);
    }
  }

  /** The category series groups the expense rows by category and adds up to the total expense. */
  lemma CategorySeries(rows: seq<Transaction>, today: Date)
    ensures var v := DashboardOf(rows, today);
      Grouping(v.categoryTotals, OfType(rows, EXPENSE), CategoryOf) && Total(v.categoryTotals) == v.totalExpense
  {
    GroupSumsSpec(OfType(rows, EXPENSE), CategoryOf);
  }

  /** The dated series groups the expense rows by date, adds up to the total expense and
      ascends by day number. */
  lemma DailySeries(rows: seq<Transaction>, today: Date)
    ensures var v := DashboardOf(rows, today);
      && Grouping(v.dailyExpense, OfType(rows, EXPENSE), DateOf)
      && Total(v.dailyExpense) == v.totalExpense
      && KeysAscend(v.dailyExpense, Ordinal)
  {
    OrderedGroupSumsSpec(OfType(rows, EXPENSE), DateOf, Ordinal);
  }

  /** The monthly series groups the income rows by month, adds up to the total income and
      ascends by month. */
  lemma MonthlySeries(rows: seq<Transaction>, today: Date)
    ensures var v := DashboardOf(rows, today);
      && Grouping(v.monthlyIncome, OfType(rows, INCOME), MonthKey)
      && Total(v.monthlyIncome) == v.totalIncome
      && KeysAscend(v.monthlyIncome, MonthRank)
  {
    OrderedGroupSumsSpec(OfType(rows, INCOME), MonthKey, MonthRank);
  }

  /** With valid dates, the dated series is in strictly ascending chronological order. */
  lemma DailyStrictlyAscending(rows: seq<Transaction>, today: Date)
    requires forall t :: t in rows ==> Valid(t.date)
    ensures var d := DashboardOf(rows, today).dailyExpense;
      forall i, j :: 0 <= i < j < |d| ==> Before(d[i].0, d[j].0)
  {
    var expenses := OfType(rows, EXPENSE);
    OfTypeSpec(rows, EXPENSE);
    var d := OrderedGroupSums(expenses, DateOf, Ordinal);
    OrderedGroupSumsSpec(expenses, DateOf, Ordinal);
    forall i, j | 0 <= i < j < |d|
      ensures Before(d[i].0, d[j].0)
    {
      DailyPair(rows, expenses, d, i, j);
    }
  }

  /** With valid dates, the monthly series is in strictly ascending month order. */
  lemma MonthlyStrictlyAscending(rows: seq<Transaction>, today: Date)
    requires forall t :: t in rows ==> Valid(t.date)
    ensures var m := DashboardOf(rows, today).monthlyIncome;
      forall i, j :: 0 <= i < j < |m| ==> MonthRank(m[i].0) < MonthRank(m[j].0)
  {
    var incomes := OfType(rows, INCOME);
    OfTypeSpec(rows, INCOME);
    var m := OrderedGroupSums(incomes, MonthKey, MonthRank);
    OrderedGroupSumsSpec(incomes, MonthKey, MonthRank);
    forall i, j | 0 <= i < j < |m|
      ensures MonthRank(m[i].0) < MonthRank(m[j].0)
    {
      MonthlyPair(rows, incomes, m, i, j);
    }
  }

  lemma DailyPair(rows: seq<Transaction>, expenses: seq<Transaction>, d: seq<(Date, int)>, i: int, j: int)
    requires forall t :: t in rows ==> Valid(t.date)
    requires forall t :: t in expenses ==> t in rows
    requires Grouping(d, expenses, DateOf)
    requires KeysAscend(d, Ordinal) && 0 <= i < j < |d|
    ensures Before(d[i].0, d[j].0)
  {
    assert Occurs(expenses, DateOf, d[i].0) && Occurs(expenses, DateOf, d[j].0);
    var ki, kj := d[i].0, d[j].0;
    var a :| a in expenses && DateOf(a) == ki;
    var b :| b in expenses && DateOf(b) == kj;
    OrdinalOrder(d[i].0, d[j].0);
    if Ordinal(d[i].0) == Ordinal(d[j].0) {
      OrdinalInjective(d[i].0, d[j].0);
    }
  }

  lemma MonthlyPair(rows: seq<Transaction>, incomes: seq<Transaction>, m: seq<(Month, int)>, i: int, j: int)
    requires forall t :: t in rows ==> Valid(t.date)
    requires forall t :: t in incomes ==> t in rows
    requires Grouping(m, incomes, MonthKey)
    requires KeysAscend(m, MonthRank) && 0 <= i < j < |m|
    ensures MonthRank(m[i].0) < MonthRank(m[j].0)
  {
    assert Occurs(incomes, MonthKey, m[i].0) && Occurs(incomes, MonthKey, m[j].0);
    var ki, kj := m[i].0, m[j].0;
    var a :| a in incomes && MonthKey(a) == ki;
    var b :| b in incomes && MonthKey(b) == kj;
    assert Valid(a.date) && Valid(b.date);
    assert MonthRank(ki) <= MonthRank(kj);
    if MonthRank(ki) == MonthRank(kj) {
      MonthRankInjective(ki, kj);
    }
  }

  /** Today's expense agrees with today's point of the dated series, and is 0 when the
      series has no point for today. */
  lemma TodayMatchesDailySeries(rows: seq<Transaction>, today: Date)
    ensures var v := DashboardOf(rows, today);
      && (forall i :: 0 <= i < |v.dailyExpense| && v.dailyExpense[i].0 == today ==> v.dailyExpense[i].1 == v.todayExpense)
      && ((forall i :: 0 <= i < |v.dailyExpense| ==> v.dailyExpense[i].0 != today) ==> v.todayExpense == 0)
  {
    var expenses := OfType(rows, EXPENSE);
    var d := OrderedGroupSums(expenses, DateOf, Ordinal);
    OrderedGroupSumsSpec(expenses, DateOf, Ordinal);
    OnDateIsKeySum(expenses, today);
    if forall i :: 0 <= i < |d| ==> d[i].0 != today {
      KeySumAbsent(expenses, DateOf, today);
    }
  }

  /** The recent list: at most five records of the table, newest first, and no record
      left out is newer than one shown. */
  lemma RecentSpec(rows: seq<Transaction>)
    ensures var r := Recent(rows);
      && |r| == (if |rows| < RECENT_LIMIT then |rows| else RECENT_LIMIT)
      && multiset(r) <= multiset(rows)
      && (forall i, j :: 0 <= i < j < |r| ==> r[j].createdAt <= r[i].createdAt)
      && (forall t, u :: t in multiset(rows) - multiset(r) && u in r ==> t.createdAt <= u.createdAt)
  {
    var newest := SortBy(rows, CreatedDescRank);
    var n := if |newest| < RECENT_LIMIT then |newest| else RECENT_LIMIT;
    PrefixSplit(newest, n);
  }

  /** Cutting a sequence sorted by descending creation time after n elements. */
  lemma PrefixSplit(s: seq<Transaction>, n: nat)
    requires n <= |s|
    requires SortedBy(s, CreatedDescRank)
    ensures multiset(s[..n]) <= multiset(s)
    ensures forall i, j :: 0 <= i < j < n ==> s[j].createdAt <= s[i].createdAt
    ensures forall t, u :: t in multiset(s) - multiset(s[..n]) && u in s[..n] ==> t.createdAt <= u.createdAt
  {
    assert s == s[..n] + s[n..];
    assert multiset(s) - multiset(s[..n]) == multiset(s[n..]);
    forall i, j | 0 <= i < j < n
      ensures s[j].createdAt <= s[i].createdAt
    {
      assert CreatedDescRank(s[i]) <= CreatedDescRank(s[j]);
    }
    forall t: Transaction, u: Transaction | t in multiset(s[n..]) && u in s[..n]
      ensures t.createdAt <= u.createdAt
    {
      LaterNotNewer(s, n, t, u);
    }
  }

  lemma LaterNotNewer(s: seq<Transaction>, n: nat, t: Transaction, u: Transaction)
    requires n <= |s|
    requires SortedBy(s, CreatedDescRank)
    requires t in s[n..] && u in s[..n]
    ensures t.createdAt <= u.createdAt
  {
    var a :| n <= a < |s| && s[a] == t;
    var b :| 0 <= b < n && s[b] == u;
    assert CreatedDescRank(s[b]) <= CreatedDescRank(s[a]);
  }
}
