/** What the views see after the table changes: a record the add view inserts is listed by
    the transactions view when its filters are set to the record's own fields, and a record
    the delete view removes no longer counts in any total of the dashboard or the report. */
module Lifecycle {
  import opened Dates
  import opened Records
  import opened Queries
  import opened Dashboard
  import opened Report
  import opened Listing
  import opened Store

  /** Add a record, then list the transactions filtered by the form's date (as both bounds),
      category, payment mode and type: the new record is listed, and every listed record is
      in the table and passes those filters. */
  method AddThenList(store: TransactionStore, form: Form, now: int) returns (id: int, listed: seq<Transaction>)
    requires store.Valid()
    modifies store
    ensures store.Valid()
    ensures NewRecord(id, form, now) in listed
    ensures forall x :: x in listed ==> x in store.rows && Matches(FiltersFor(form), x)
  {
    id := store.Add(form, now);
    var record := NewRecord(id, form, now);
    FiltersForSpec(form, record);
    listed := ListTransactions(store.rows, FiltersFor(form));
    assert store.rows[|store.rows| - 1] == record;
    assert multiset(listed)[record] == multiset(store.rows)[record] > 0;
    forall x | x in listed
      ensures x in store.rows && Matches(FiltersFor(form), x)
    {
      assert multiset(listed)[x] > 0;
    }
  }

  /** Delete a record, then build the report: the deleted record is in none of its queries,
      and the expense total has dropped by its amount when it was an expense in the range. */
  method DeleteThenReport(store: TransactionStore, id: int, from: Date, to: Date)
    returns (r: Outcome<Transaction>, report: ReportView)
    requires store.Valid()
    modifies store
    ensures store.Valid()
    ensures report == ReportOf(store.rows, Some(from), Some(to))
    ensures forall x :: x in ExpensesIn(store.rows, SourceWindow(from, to)) ==> x.id != id
    ensures forall x :: x in IncomesIn(store.rows, SourceWindow(from, to)) ==> x.id != id
    ensures r.NotFound? ==> report == old(ReportOf(store.rows, Some(from), Some(to)))
    ensures r.Found? ==>
      var counted := r.value.kind == EXPENSE && InWindow(r.value.date, SourceWindow(from, to));
      report.totalExpense == old(ReportOf(store.rows, Some(from), Some(to))).totalExpense - (if counted then r.value.amount else 0)
  {
    ghost var before := store.rows;
    r := store.Delete(id);
    report := Report.Report(store.rows, Some(from), Some(to));
    RangeRows(store.rows, SourceWindow(from, to));
    if r.Found? {
      ReportRemoved(before, store.rows, r.value, SourceWindow(from, to), EXPENSE);
    }
  }

  /** Once a record r is taken out of the table and no record left has its id, r is in no
      query of a later view, and each total drops by r's amount (each count by one) exactly
      where r counted before: the report's totals over any window, the dashboard's totals
      and today's expense. */
  lemma RemovedFromViews(before: seq<Transaction>, after: seq<Transaction>, r: Transaction, w: Window, today: Date)
    requires multiset(before) == multiset(after) + multiset{r}
    requires forall t :: t in after ==> t.id != r.id
    ensures forall x :: x in Between(after, w) || x in OfType(after, EXPENSE) || x in OfType(after, INCOME) ==> x.id != r.id
    ensures var inRange := InWindow(r.date, w);
      var a, b := ReportIn(after, w), ReportIn(before, w);
      && a.totalExpense == b.totalExpense - (if r.kind == EXPENSE && inRange then r.amount else 0)
      && a.totalTransactions == b.totalTransactions - (if r.kind == EXPENSE && inRange then 1 else 0)
      && a.totalIncome == b.totalIncome - (if r.kind == INCOME && inRange then r.amount else 0)
    ensures var a, b := DashboardOf(after, today), DashboardOf(before, today);
      && a.totalExpense == b.totalExpense - (if r.kind == EXPENSE then r.amount else 0)
      && a.totalIncome == b.totalIncome - (if r.kind == INCOME then r.amount else 0)
      && a.todayExpense == b.todayExpense - (if r.kind == EXPENSE && r.date == today then r.amount else 0)
  {
    BetweenSpec(after, w);
    OfTypeSpec(after, EXPENSE);
    OfTypeSpec(after, INCOME);
    ReportRemoved(before, after, r, w, EXPENSE);
    ReportRemoved(before, after, r, w, INCOME);
    var isExpense := (t: Transaction) => t.kind == EXPENSE;
    FilterRemove(before, after, r, isExpense);
    FilterRemove(before, after, r, (t: Transaction) => t.kind == INCOME);
    if r.kind == EXPENSE {
      FilterRemove(OfType(before, EXPENSE), OfType(after, EXPENSE), r, (t: Transaction) => t.date == today);
    } else {
      FilterSame(OfType(before, EXPENSE), OfType(after, EXPENSE), (t: Transaction) => t.date == today);
    }
  }

  /** The records of one type in a window, once r is taken out of the table. */
  lemma ReportRemoved(before: seq<Transaction>, after: seq<Transaction>, r: Transaction, w: Window, kind: string)
    requires multiset(before) == multiset(after) + multiset{r}
    ensures var counted := r.kind == kind && InWindow(r.date, w);
      && Sum(OfType(Between(after, w), kind)) == Sum(OfType(Between(before, w), kind)) - (if counted then r.amount else 0)
      && |OfType(Between(after, w), kind)| == |OfType(Between(before, w), kind)| - (if counted then 1 else 0)
  {
    FilterRemove(before, after, r, (t: Transaction) => InWindow(t.date, w));
    if InWindow(r.date, w) {
      FilterRemove(Between(before, w), Between(after, w), r, (t: Transaction) => t.kind == kind);
    } else {
      FilterSame(Between(before, w), Between(after, w), (t: Transaction) => t.kind == kind);
    }
  }
}
